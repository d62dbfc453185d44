/** Sequence helpers: distinctness and the "push unless already seen" loop shape the plugin uses for tags, images and set building. */
module Seqs {
  predicate NoDups<T(==)>(s: seq<T>)
  {
    forall i, j :: 0 <= i < j < |s| ==> s[i] != s[j]
  }

  /** Appends, in order, each element of `xs` not already in the accumulated result. */
  function DedupInto<T(==,!new)>(acc: seq<T>, xs: seq<T>): (r: seq<T>)
    ensures NoDups(acc) ==> NoDups(r)
    ensures |acc| <= |r| && r[..|acc|] == acc
    decreases |xs|
  {
    if xs == [] then acc
    else if xs[0] in acc then DedupInto(acc, xs[1..])
    else DedupInto(acc + [xs[0]], xs[1..])
  }

  /** First-seen deduplication, as a JavaScript `Set` or a `seen` guard gives it. */
  function Dedup<T(==,!new)>(xs: seq<T>): (r: seq<T>)
    ensures NoDups(r)
  {
    DedupInto([], xs)
  }

  /** Deduplication keeps exactly the elements it was given. */
  lemma {:induction false} DedupIntoMembers<T(!new)>(acc: seq<T>, xs: seq<T>)
    ensures forall x :: x in DedupInto(acc, xs) <==> x in acc || x in xs
    decreases |xs|
  {
    if xs != [] {
      if xs[0] in acc {
        DedupIntoMembers(acc, xs[1..]);
      } else {
        DedupIntoMembers(acc + [xs[0]], xs[1..]);
      }
      assert xs == [xs[0]] + xs[1..];
    }
  }

  lemma {:induction false} DedupMembers<T(!new)>(xs: seq<T>)
    ensures forall x :: x in Dedup(xs) <==> x in xs
  {
    DedupIntoMembers([], xs);
  }

  /** Deduplication seen from the other end: the last element is kept exactly when it was not seen before. */
  lemma {:induction false} DedupIntoSnoc<T(!new)>(acc: seq<T>, xs: seq<T>, x: T)
    ensures DedupInto(acc, xs + [x]) == DedupInto(acc, xs) + (if x in DedupInto(acc, xs) then [] else [x])
    decreases |xs|
  {
    if xs == [] {
      assert xs + [x] == [x];
    } else {
      assert (xs + [x])[1..] == xs[1..] + [x];
      if xs[0] in acc {
        DedupIntoSnoc(acc, xs[1..], x);
      } else {
        DedupIntoSnoc(acc + [xs[0]], xs[1..], x);
      }
    }
  }

  /** Deduplicating after appending at most one element `x`. */
  lemma {:induction false} DedupAppendOne<T(!new)>(xs: seq<T>, ys: seq<T>, x: T)
    requires ys == [] || ys == [x]
    ensures Dedup(xs + ys) == Dedup(xs) + (if ys == [] || x in Dedup(xs) then [] else [x])
  {
    if ys == [] {
      assert xs + ys == xs;
    } else {
      DedupIntoSnoc([], xs, x);
    }
  }

  lemma {:induction false} DedupSnoc<T(!new)>(xs: seq<T>, x: T)
    ensures Dedup(xs + [x]) == Dedup(xs) + (if x in xs then [] else [x])
  {
    DedupIntoSnoc([], xs, x);
    DedupMembers(xs);
  }

  /** Deduplicating a sequence that has no duplicates changes nothing. */
  lemma {:induction false} DedupIntoDistinct<T(!new)>(acc: seq<T>, xs: seq<T>)
    requires NoDups(acc + xs)
    ensures DedupInto(acc, xs) == acc + xs
    decreases |xs|
  {
    if xs != [] {
      assert (acc + xs)[|acc|] == xs[0];
      assert xs[0] !in acc by {
        forall i | 0 <= i < |acc| ensures acc[i] != xs[0] {
          assert (acc + xs)[i] == acc[i];
        }
      }
      assert acc + xs == (acc + [xs[0]]) + xs[1..];
      DedupIntoDistinct(acc + [xs[0]], xs[1..]);
    }
  }

  lemma {:induction false} DedupDistinct<T(!new)>(xs: seq<T>)
    requires NoDups(xs)
    ensures Dedup(xs) == xs
  {
    assert [] + xs == xs;
    DedupIntoDistinct([], xs);
  }

  lemma {:induction false} DedupIntoAppend<T(!new)>(acc: seq<T>, xs: seq<T>, ys: seq<T>)
    ensures DedupInto(acc, xs + ys) == DedupInto(DedupInto(acc, xs), ys)
    decreases |xs|
  {
    if xs == [] {
      assert xs + ys == ys;
    } else {
      assert (xs + ys)[0] == xs[0];
      assert (xs + ys)[1..] == xs[1..] + ys;
      if xs[0] in acc {
        DedupIntoAppend(acc, xs[1..], ys);
      } else {
        DedupIntoAppend(acc + [xs[0]], xs[1..], ys);
      }
    }
  }

  /** The loop `for (x of xs) { if (seen.has(x)) continue; seen.add(x); out.push(x); }` with `seen` mirroring `out`. */
  method PushUnseen<T(==,!new)>(out: seq<T>, seen: set<T>, xs: seq<T>) returns (out': seq<T>, seen': set<T>)
    requires forall x :: x in seen <==> x in out
    ensures out' == DedupInto(out, xs)
    ensures forall x :: x in seen' <==> x in out'
  {
    out', seen' := out, seen;
    var j := 0;
    while j < |xs|
      invariant 0 <= j <= |xs|
      invariant out' == DedupInto(out, xs[..j])
      invariant forall x :: x in seen' <==> x in out'
    {
      DedupIntoSnoc(out, xs[..j], xs[j]);
      assert xs[..j + 1] == xs[..j] + [xs[j]];
      if xs[j] !in seen' {
        seen' := seen' + {xs[j]};
        out' := out' + [xs[j]];
      }
      j := j + 1;
    }
    assert xs[..j] == xs;
  }

  /** The first `n` elements, or all of them when there are fewer. */
  function Take<T>(xs: seq<T>, n: nat): (r: seq<T>)
    ensures |r| <= n && |r| <= |xs|
    ensures r == xs[..|r|]
    ensures |xs| <= n ==> r == xs
  {
    if |xs| <= n then xs else xs[..n]
  }

  /** Once `n` distinct elements are collected, later elements do not change the first `n`. */
  lemma {:induction false} TakeDedupPrefix<T(!new)>(a: seq<T>, b: seq<T>, n: nat)
    requires |Dedup(a)| == n
    ensures Take(Dedup(a + b), n) == Dedup(a)
  {
    DedupIntoAppend([], a, b);
  }

  /** Concatenation of a sequence of sequences. */
  function Flatten<T>(xss: seq<seq<T>>): (r: seq<T>)
  {
    if xss == [] then [] else xss[0] + Flatten(xss[1..])
  }

  lemma {:induction false} FlattenSnoc<T>(xss: seq<seq<T>>, xs: seq<T>)
    ensures Flatten(xss + [xs]) == Flatten(xss) + xs
  {
    if xss == [] {
      assert [] + [xs] == [xs];
    } else {
      assert (xss + [xs])[1..] == xss[1..] + [xs];
      FlattenSnoc(xss[1..], xs);
    }
  }

  lemma {:induction false} FlattenMember<T>(xss: seq<seq<T>>, x: T)
    ensures x in Flatten(xss) <==> exists i :: 0 <= i < |xss| && x in xss[i]
  {
    if xss != [] {
      FlattenMember(xss[1..], x);
      if x in xss[0] { }
      if exists i :: 0 <= i < |xss| && x in xss[i] {
        var i :| 0 <= i < |xss| && x in xss[i];
        if i > 0 { assert x in xss[1..][i - 1]; }
      }
    }
  }

  /** A sequence is its three consecutive slices put back together. */
  lemma {:induction false} SliceThree<T>(s: seq<T>, i: nat, j: nat)
    requires i <= j <= |s|
    ensures s == s[..i] + s[i..j] + s[j..]
  {
    assert s[..j] == s[..i] + s[i..j];
  }

  /** `xs.filter(keep)`: the elements `keep` accepts, in their order, each as often as it occurs. */
  function Filter<T>(xs: seq<T>, keep: T -> bool): (r: seq<T>)
    ensures |r| <= |xs|
    ensures forall i :: 0 <= i < |r| ==> keep(r[i])
  {
    if xs == [] then []
    else Filter(xs[..|xs| - 1], keep) + (if keep(xs[|xs| - 1]) then [xs[|xs| - 1]] else [])
  }

  /** Filtering from the front: the first element, when accepted, and then the filtered rest. */
  lemma {:induction false} FilterCons<T>(x: T, xs: seq<T>, keep: T -> bool)
    ensures Filter([x] + xs, keep) == (if keep(x) then [x] else []) + Filter(xs, keep)
    decreases |xs|
  {
    var ys := [x] + xs;
    if xs == [] {
      assert ys[..|ys| - 1] == [];
    } else {
      var init := xs[..|xs| - 1];
      assert ys[..|ys| - 1] == [x] + init;
      assert ys[|ys| - 1] == xs[|xs| - 1];
      FilterCons(x, init, keep);
    }
  }

  /** The filter keeps every accepted element as often as it occurs, and nothing else. */
  lemma {:induction false} FilterCount<T>(xs: seq<T>, keep: T -> bool, x: T)
    ensures multiset(Filter(xs, keep))[x] == if keep(x) then multiset(xs)[x] else 0
  {
    if xs != [] {
      FilterCount(xs[..|xs| - 1], keep, x);
      assert xs == xs[..|xs| - 1] + [xs[|xs| - 1]];
    }
  }

  /** The filter keeps exactly the accepted elements. */
  lemma {:induction false} FilterMembers<T>(xs: seq<T>, keep: T -> bool)
    ensures forall x :: x in Filter(xs, keep) <==> x in xs && keep(x)
  {
    forall x ensures x in Filter(xs, keep) <==> x in xs && keep(x) {
      FilterCount(xs, keep, x);
    }
  }

  /** Filtering keeps the elements distinct. */
  lemma {:induction false} FilterNoDups<T>(xs: seq<T>, keep: T -> bool)
    requires NoDups(xs)
    ensures NoDups(Filter(xs, keep))
  {
    NoDupsCount(xs);
    forall x ensures multiset(Filter(xs, keep))[x] <= 1 {
      FilterCount(xs, keep, x);
    }
    NoDupsCount(Filter(xs, keep));
  }

  /** Distinct elements are the ones occurring at most once. */
  lemma {:induction false} NoDupsCount<T>(s: seq<T>)
    ensures NoDups(s) <==> forall x :: multiset(s)[x] <= 1
  {
    if s != [] {
      var t := s[1..];
      NoDupsCount(t);
      assert s == [s[0]] + t;
      if NoDups(s) {
        assert NoDups(t) by {
          forall i, j | 0 <= i < j < |t| ensures t[i] != t[j] {
            assert t[i] == s[i + 1] && t[j] == s[j + 1];
          }
        }
        assert s[0] !in t;
      } else {
        var i, j :| 0 <= i < j < |s| && s[i] == s[j];
        if i == 0 {
          assert t[j - 1] == s[0];
          assert multiset(s)[s[0]] >= 2;
        } else {
          assert t[i - 1] == t[j - 1];
          var x :| multiset(t)[x] > 1;
          assert multiset(s)[x] == multiset([s[0]])[x] + multiset(t)[x];
        }
      }
    }
  }

  /** Reordering keeps the elements distinct. */
  lemma {:induction false} NoDupsPermutation<T>(a: seq<T>, b: seq<T>)
    requires multiset(a) == multiset(b) && NoDups(a)
    ensures NoDups(b)
  {
    NoDupsCount(a);
    NoDupsCount(b);
  }
}
