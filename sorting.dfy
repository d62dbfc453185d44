/**
 * `Array.prototype.sort` with a comparator, which JavaScript requires to be
 * stable: elements the comparator ranks equal keep their relative order.
 * A comparator `cmp` is modelled by `le(a, b) <==> cmp(a, b) <= 0`.
 */
module Sorting {
  ghost predicate Total<T(!new)>(le: (T, T) -> bool)
  {
    forall a, b :: le(a, b) || le(b, a)
  }

  ghost predicate Transitive<T(!new)>(le: (T, T) -> bool)
  {
    forall a, b, c :: le(a, b) && le(b, c) ==> le(a, c)
  }

  /** What a consistent comparator gives: every pair ranked, and ranks chain. */
  ghost predicate TotalPreorder<T(!new)>(le: (T, T) -> bool)
  {
    Total(le) && Transitive(le)
  }

  predicate Sorted<T>(s: seq<T>, le: (T, T) -> bool)
  {
    forall i, j :: 0 <= i < j < |s| ==> le(s[i], s[j])
  }

  /** The comparator ranks `a` and `b` equal. */
  predicate Tied<T>(le: (T, T) -> bool, a: T, b: T)
  {
    le(a, b) && le(b, a)
  }

  /** The elements of `s` tied with `x`, in their order in `s`. */
  function TiedWith<T>(s: seq<T>, x: T, le: (T, T) -> bool): (r: seq<T>)
    ensures |r| <= |s|
  {
    if s == [] then []
    else (if Tied(le, s[0], x) then [s[0]] else []) + TiedWith(s[1..], x, le)
  }

  /** Places `x` after every element of `s` that does not rank after it. */
  function Insert<T>(x: T, s: seq<T>, le: (T, T) -> bool): seq<T>
  {
    if s == [] then [x]
    else if le(s[0], x) then [s[0]] + Insert(x, s[1..], le)
    else [x] + s
  }

  /** Inserting adds `x` and loses nothing. */
  lemma {:induction false} InsertPermutes<T>(x: T, s: seq<T>, le: (T, T) -> bool)
    ensures multiset(Insert(x, s, le)) == multiset(s) + multiset{x}
  {
    if s != [] && le(s[0], x) {
      InsertPermutes(x, s[1..], le);
      assert s == [s[0]] + s[1..];
    }
  }

  /** Stable insertion sort: each element in turn is inserted into the sorted prefix before it. */
  function Sort<T>(s: seq<T>, le: (T, T) -> bool): (r: seq<T>)
    ensures multiset(r) == multiset(s)
  {
    if s == [] then []
    else
      assert s == s[..|s| - 1] + [s[|s| - 1]];
      InsertPermutes(s[|s| - 1], Sort(s[..|s| - 1], le), le);
      Insert(s[|s| - 1], Sort(s[..|s| - 1], le), le)
  }

  lemma {:induction false} InsertSorted<T(!new)>(x: T, s: seq<T>, le: (T, T) -> bool)
    requires TotalPreorder(le) && Sorted(s, le)
    ensures Sorted(Insert(x, s, le), le)
  {
    if s != [] && le(s[0], x) {
      InsertSorted(x, s[1..], le);
      InsertPermutes(x, s[1..], le);
      var r := Insert(x, s, le);
      forall j | 0 < j < |r|
        ensures le(s[0], r[j])
      {
        assert r[j] in multiset(s[1..]) + multiset{x};
        if r[j] != x {
          var k :| 0 <= k < |s[1..]| && s[1..][k] == r[j];
          assert s[k + 1] == r[j];
        }
      }
    } else if s != [] {
      assert le(x, s[0]);
    }
  }

  /** The result is ordered by the comparator. */
  lemma {:induction false} SortSorted<T(!new)>(s: seq<T>, le: (T, T) -> bool)
    requires TotalPreorder(le)
    ensures Sorted(Sort(s, le), le)
  {
    if s != [] {
      SortSorted(s[..|s| - 1], le);
      InsertSorted(s[|s| - 1], Sort(s[..|s| - 1], le), le);
    }
  }

  lemma {:induction false} TiedWithAppend<T>(a: seq<T>, b: seq<T>, x: T, le: (T, T) -> bool)
    ensures TiedWith(a + b, x, le) == TiedWith(a, x, le) + TiedWith(b, x, le)
  {
    if a != [] {
      assert (a + b)[0] == a[0] && (a + b)[1..] == a[1..] + b;
      TiedWithAppend(a[1..], b, x, le);
    } else {
      assert a + b == b;
    }
  }

  /** No element ranking strictly after `z` is tied with something tied with `z`. */
  lemma {:induction false} TiedWithNone<T(!new)>(z: T, s: seq<T>, x: T, le: (T, T) -> bool)
    requires TotalPreorder(le) && Tied(le, z, x)
    requires forall i :: 0 <= i < |s| ==> !le(s[i], z)
    ensures TiedWith(s, x, le) == []
  {
    if s != [] {
      TiedWithNone(z, s[1..], x, le);
    }
  }

  lemma {:induction false} InsertTiedWith<T(!new)>(z: T, s: seq<T>, x: T, le: (T, T) -> bool)
    requires TotalPreorder(le) && Sorted(s, le)
    ensures TiedWith(Insert(z, s, le), x, le) == TiedWith(s, x, le) + TiedWith([z], x, le)
    decreases |s|, 1
  {
    if s == [] {
    } else if le(s[0], z) {
      InsertBehindTiedWith(z, s, x, le);
    } else {
      assert Insert(z, s, le) == [z] + s;
      InsertFrontTiedWith(z, s, x, le);
    }
  }

  /** `z` goes after the head of a sorted list the head does not rank after it. */
  lemma {:induction false} InsertBehindTiedWith<T(!new)>(z: T, s: seq<T>, x: T, le: (T, T) -> bool)
    requires TotalPreorder(le) && Sorted(s, le) && s != [] && le(s[0], z)
    ensures TiedWith(Insert(z, s, le), x, le) == TiedWith(s, x, le) + TiedWith([z], x, le)
    decreases |s|, 0
  {
    var t := s[1..];
    SortedTail(s, le);
    InsertTiedWith(z, t, x, le);
    var it := Insert(z, t, le);
    assert Insert(z, s, le) == [s[0]] + it;
    TiedWithAppend([s[0]], it, x, le);
    TiedWithAppend([s[0]], t, x, le);
    assert [s[0]] + t == s;
  }

  lemma {:induction false} SortedTail<T>(s: seq<T>, le: (T, T) -> bool)
    requires Sorted(s, le) && s != []
    ensures Sorted(s[1..], le)
  {
    var t := s[1..];
    forall i, j | 0 <= i < j < |t|
      ensures le(t[i], t[j])
    {
      assert t[i] == s[i + 1] && t[j] == s[j + 1];
    }
  }

  /** `z` goes in front of a sorted list whose head it precedes, and nothing tied with it follows. */
  lemma {:induction false} InsertFrontTiedWith<T(!new)>(z: T, s: seq<T>, x: T, le: (T, T) -> bool)
    requires TotalPreorder(le) && Sorted(s, le) && s != [] && !le(s[0], z)
    ensures TiedWith([z] + s, x, le) == TiedWith(s, x, le) + TiedWith([z], x, le)
  {
    TiedWithAppend([z], s, x, le);
    if Tied(le, z, x) {
      forall i | 0 <= i < |s|
        ensures !le(s[i], z)
      {
        assert i == 0 || le(s[0], s[i]);
      }
      TiedWithNone(z, s, x, le);
    }
  }

  /** Stability: the elements tied with any `x` come out in the order they went in. */
  lemma {:induction false} SortStable<T(!new)>(s: seq<T>, x: T, le: (T, T) -> bool)
    requires TotalPreorder(le)
    ensures TiedWith(Sort(s, le), x, le) == TiedWith(s, x, le)
  {
    if s != [] {
      var init, last := s[..|s| - 1], s[|s| - 1];
      SortStable(init, x, le);
      SortSorted(init, le);
      InsertTiedWith(last, Sort(init, le), x, le);
      assert s == init + [last];
      TiedWithAppend(init, [last], x, le);
    }
  }
}
