/**
 * The distinct non-empty trimmed texts of a list, in first-seen order: what
 * `new Set(...)` of trimmed non-empty texts holds, for the heading
 * completion's candidates and the highlighter's keywords.
 */
module TrimmedSet {
  import opened Text
  import Seqs

  /** `values.map((item) => item.trim())`. */
  function TrimAll(values: seq<string>): (r: seq<string>)
    ensures |r| == |values| && forall i :: 0 <= i < |values| ==> r[i] == Trim(values[i])
  {
    seq(|values|, i requires 0 <= i < |values| => Trim(values[i]))
  }

  function NonEmpty(): string -> bool
  {
    (item: string) => |item| > 0
  }

  /** The distinct non-empty trimmed values, first-seen first. */
  function Unique(values: seq<string>): (r: seq<string>)
    ensures Seqs.NoDups(r)
    ensures forall x :: x in r <==> x != [] && x in TrimAll(values)
  {
    var kept := Seqs.Filter(TrimAll(values), NonEmpty());
    Seqs.DedupMembers(kept);
    Seqs.FilterMembers(TrimAll(values), NonEmpty());
    Seqs.Dedup(kept)
  }

  /** The unique values are trimmed and not empty. */
  lemma {:induction false} UniqueTrimmed(values: seq<string>)
    ensures forall x :: x in Unique(values) ==> x != [] && Trim(x) == x
  {
    var t := TrimAll(values);
    forall x | x in Unique(values) ensures Trim(x) == x {
      var i :| 0 <= i < |t| && t[i] == x;
      TrimIdempotent(values[i]);
    }
  }

  /** One more value: its trimmed text is added unless it is empty or already there. */
  lemma {:induction false} UniqueSnoc(values: seq<string>, v: string)
    ensures Unique(values + [v]) == Unique(values) + (if Trim(v) == [] || Trim(v) in Unique(values) then [] else [Trim(v)])
  {
    var ys := TrimAll(values);
    var zs := TrimAll(values + [v]);
    assert zs == ys + [Trim(v)] by {
      forall i | 0 <= i < |zs| ensures zs[i] == (ys + [Trim(v)])[i] {
        if i < |values| {
          assert (values + [v])[i] == values[i];
        }
      }
    }
    assert zs[..|zs| - 1] == ys;
    var f := Seqs.Filter(ys, NonEmpty());
    assert Seqs.Filter(zs, NonEmpty()) == f + (if Trim(v) != [] then [Trim(v)] else []);
    Seqs.DedupAppendOne(f, if Trim(v) != [] then [Trim(v)] else [], Trim(v));
  }
}
