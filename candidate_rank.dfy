/**
 * The ranking both slash completions sort their matches by, for a lowered
 * query `q`: texts starting with `q` first, then the earlier match, then the
 * shorter text, then a per-list tie-break (snippet order, or the locale
 * comparison of the heading completion).
 */
module CandidateRank {
  import opened Text
  import Sorting
  import Seqs

  /** The query as both filters use it: trimmed and lowered. */
  function NormalizeQuery(query: string): (q: string)
    ensures |q| <= |query|
    ensures forall i :: 0 <= i < |q| ==> !('A' <= q[i] <= 'Z')
  {
    ToLower(Trim(query))
  }

  /** `lower.startsWith(q) ? 0 : 1`. */
  function StartRank(lower: string, q: string): (r: nat)
    ensures r == 0 <==> StartsWith(lower, q)
    ensures r <= 1
  {
    if StartsWith(lower, q) then 0 else 1
  }

  /** `lower.indexOf(q)`: the first occurrence, -1 when there is none, 0 for an empty `q`. */
  function MatchIndex(lower: string, q: string): (r: int)
    ensures q == [] ==> r == 0
    ensures q != [] ==> (r == -1 <==> !Contains(lower, q))
    ensures r != -1 ==> IsAt(lower, q, r) && forall i :: 0 <= i < r ==> !IsAt(lower, q, i)
  {
    if q == [] then 0
    else
      IndexOfFindsContains(lower, q);
      IndexOfFrom(lower, q, 0)
  }

  /** The comparator on two lowered texts, given what the tie-break says of them. */
  predicate RankLe(q: string, la: string, lb: string, tieLe: bool)
  {
    if StartRank(la, q) != StartRank(lb, q) then StartRank(la, q) < StartRank(lb, q)
    else if MatchIndex(la, q) != MatchIndex(lb, q) then MatchIndex(la, q) < MatchIndex(lb, q)
    else if |la| != |lb| then |la| < |lb|
    else tieLe
  }

  /** The candidate comparator: `lower` gives the text an element is matched by, `tie` breaks ties. */
  function Ranked<T>(q: string, lower: T -> string, tie: (T, T) -> bool): (T, T) -> bool
  {
    (a: T, b: T) => RankLe(q, lower(a), lower(b), tie(a, b))
  }

  /** With a consistent tie-break the candidate comparator is consistent, as `Array.prototype.sort` needs. */
  lemma {:induction false} RankedPreorder<T(!new)>(q: string, lower: T -> string, tie: (T, T) -> bool)
    requires Sorting.TotalPreorder(tie)
    ensures Sorting.TotalPreorder(Ranked(q, lower, tie))
  {
    var le := Ranked(q, lower, tie);
    forall a, b, c | le(a, b) && le(b, c) ensures le(a, c) {
      RankLeTransitive(q, lower(a), lower(b), lower(c), tie(a, b), tie(b, c), tie(a, c));
    }
  }

  lemma {:induction false} RankLeTransitive(q: string, la: string, lb: string, lc: string, ab: bool, bc: bool, ac: bool)
    requires RankLe(q, la, lb, ab) && RankLe(q, lb, lc, bc)
    requires (&& |la| == |lb| == |lc|
              && MatchIndex(la, q) == MatchIndex(lb, q) == MatchIndex(lc, q)
              && StartRank(la, q) == StartRank(lb, q) == StartRank(lc, q)) ==> (ab && bc ==> ac)
    ensures RankLe(q, la, lc, ac)
  {
  }

  /** In a list sorted by the candidate comparator, every text starting with `q` comes before every other. */
  lemma {:induction false} PrefixMatchesFirst<T>(r: seq<T>, q: string, lower: T -> string, tie: (T, T) -> bool)
    requires Sorting.Sorted(r, Ranked(q, lower, tie))
    ensures forall i, j :: 0 <= i < j < |r| && StartsWith(lower(r[j]), q) ==> StartsWith(lower(r[i]), q)
  {
    forall i, j | 0 <= i < j < |r| && StartsWith(lower(r[j]), q) ensures StartsWith(lower(r[i]), q) {
      assert Ranked(q, lower, tie)(r[i], r[j]);
      assert RankLe(q, lower(r[i]), lower(r[j]), tie(r[i], r[j]));
    }
  }

  /** Among texts that agree on starting with `q`, earlier matches come first. */
  lemma {:induction false} EarlierMatchesFirst<T>(r: seq<T>, q: string, lower: T -> string, tie: (T, T) -> bool)
    requires Sorting.Sorted(r, Ranked(q, lower, tie))
    ensures forall i, j :: 0 <= i < j < |r| && StartRank(lower(r[i]), q) == StartRank(lower(r[j]), q) ==>
              MatchIndex(lower(r[i]), q) <= MatchIndex(lower(r[j]), q)
  {
    forall i, j | 0 <= i < j < |r| && StartRank(lower(r[i]), q) == StartRank(lower(r[j]), q)
      ensures MatchIndex(lower(r[i]), q) <= MatchIndex(lower(r[j]), q)
    {
      assert Ranked(q, lower, tie)(r[i], r[j]);
      assert RankLe(q, lower(r[i]), lower(r[j]), tie(r[i], r[j]));
    }
  }

  /** Filtering then sorting distinct elements keeps them distinct, keeps exactly the accepted ones, and orders them. */
  lemma {:induction false} SortMatches<T(!new)>(xs: seq<T>, keep: T -> bool, le: (T, T) -> bool)
    requires Seqs.NoDups(xs) && Sorting.TotalPreorder(le)
    ensures var r := Sorting.Sort(Seqs.Filter(xs, keep), le);
            && Seqs.NoDups(r) && Sorting.Sorted(r, le)
            && forall x :: x in r <==> x in xs && keep(x)
  {
    var filtered := Seqs.Filter(xs, keep);
    var r := Sorting.Sort(filtered, le);
    Sorting.SortSorted(filtered, le);
    Seqs.FilterMembers(xs, keep);
    Seqs.FilterNoDups(xs, keep);
    Seqs.NoDupsPermutation(filtered, r);
    assert forall x :: x in r <==> x in multiset(filtered);
  }

  /** Sorting distinct elements keeps them distinct and keeps them all. */
  lemma {:induction false} SortDistinct<T(!new)>(xs: seq<T>, le: (T, T) -> bool)
    requires Seqs.NoDups(xs) && Sorting.TotalPreorder(le)
    ensures var r := Sorting.Sort(xs, le);
            && Seqs.NoDups(r) && Sorting.Sorted(r, le)
            && forall x :: x in r <==> x in xs
  {
    var r := Sorting.Sort(xs, le);
    Sorting.SortSorted(xs, le);
    Seqs.NoDupsPermutation(xs, r);
    assert forall x :: x in r <==> x in multiset(xs);
  }
}
