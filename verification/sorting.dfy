/** A stable insertion sort by a real-valued key, largest key first.
    JavaScript's `Array.prototype.sort` and Python's `sorted` are both stable;
    every score, count or position sort of the modelled code is this function
    with the key of the call site (an ascending sort uses the negated key). */
module Sorting {
  import opened Seqs

  ghost predicate SortedDesc<T>(s: seq<T>, key: T -> real) {
    forall i, j | 0 <= i < j < |s| :: key(s[i]) >= key(s[j])
  }

  /** Inserts `x` in front of the first element whose key is not larger, so
      that it stays in front of every later element with an equal key. */
  function Insert<T>(x: T, s: seq<T>, key: T -> real): (r: seq<T>)
    ensures |r| == |s| + 1
    ensures multiset(r) == multiset(s) + multiset{x}
  {
    if |s| == 0 || key(s[0]) <= key(x) then [x] + s
    else
      assert s == [s[0]] + s[1..];
      [s[0]] + Insert(x, s[1..], key)
  }

  function Sort<T>(s: seq<T>, key: T -> real): (r: seq<T>)
    ensures |r| == |s|
    ensures multiset(r) == multiset(s)
  {
    if |s| == 0 then []
    else
      assert s == [s[0]] + s[1..];
      Insert(s[0], Sort(s[1..], key), key)
  }

  /** The elements of `s` whose key is `v`, in their order in `s`. */
  function Ties<T>(s: seq<T>, key: T -> real, v: real): seq<T> {
    if |s| == 0 then []
    else (if key(s[0]) == v then [s[0]] else []) + Ties(s[1..], key, v)
  }

  lemma {:induction false} InsertSorted<T>(x: T, s: seq<T>, key: T -> real)
    requires SortedDesc(s, key)
    ensures SortedDesc(Insert(x, s, key), key)
  {
    if |s| == 0 || key(s[0]) <= key(x) {
    } else {
      var t := Insert(x, s[1..], key);
      InsertSorted(x, s[1..], key);
      forall k | 0 <= k < |t|
        ensures key(s[0]) >= key(t[k])
      {
        assert t[k] in multiset(t);
        if t[k] != x {
          assert t[k] in multiset(s[1..]);
          var j :| 0 <= j < |s[1..]| && s[1..][j] == t[k];
          assert s[j + 1] == t[k];
        }
      }
    }
  }

  /** The sort's output has non-increasing keys. */
  lemma {:induction false} SortSorted<T>(s: seq<T>, key: T -> real)
    ensures SortedDesc(Sort(s, key), key)
  {
    if |s| > 0 {
      SortSorted(s[1..], key);
      InsertSorted(s[0], Sort(s[1..], key), key);
    }
  }

  lemma {:induction false} TiesConcat<T>(a: seq<T>, b: seq<T>, key: T -> real, v: real)
    ensures Ties(a + b, key, v) == Ties(a, key, v) + Ties(b, key, v)
  {
    if |a| == 0 {
      assert a + b == b;
    } else {
      var h := if key(a[0]) == v then [a[0]] else [];
      assert Ties(a + b, key, v) == h + Ties(a[1..] + b, key, v) by {
        assert a + b == [a[0]] + (a[1..] + b);
        TiesCons(a[0], a[1..] + b, key, v);
      }
      TiesConcat(a[1..], b, key, v);
    }
  }

  lemma TiesCons<T>(x: T, s: seq<T>, key: T -> real, v: real)
    ensures Ties([x] + s, key, v) == (if key(x) == v then [x] else []) + Ties(s, key, v)
  {
    assert ([x] + s)[1..] == s;
  }

  lemma {:induction false} InsertTies<T>(x: T, s: seq<T>, key: T -> real, v: real)
    ensures Ties(Insert(x, s, key), key, v)
         == (if key(x) == v then [x] else []) + Ties(s, key, v)
  {
    if |s| == 0 || key(s[0]) <= key(x) {
      TiesCons(x, s, key, v);
    } else {
      var t := Insert(x, s[1..], key);
      var h := if key(s[0]) == v then [s[0]] else [];
      var own := if key(x) == v then [x] else [];
      assert Ties(Insert(x, s, key), key, v) == h + Ties(t, key, v) by {
        TiesCons(s[0], t, key, v);
      }
      assert Ties(t, key, v) == own + Ties(s[1..], key, v) by {
        InsertTies(x, s[1..], key, v);
      }
      assert Ties(s, key, v) == h + Ties(s[1..], key, v) by {
        assert s == [s[0]] + s[1..];
        TiesCons(s[0], s[1..], key, v);
      }
      // s[0] has a strictly larger key than x, so they are not both ties
      SwapEmpty(h, own, Ties(s[1..], key, v));
    }
  }

  lemma SwapEmpty<T>(h: seq<T>, own: seq<T>, rest: seq<T>)
    requires h == [] || own == []
    ensures h + (own + rest) == own + (h + rest)
  {
    if h == [] {
      assert h + (own + rest) == own + rest;
    } else {
      assert own + (h + rest) == h + rest;
    }
  }

  /** Stability: elements with equal keys keep their relative input order. */
  lemma {:induction false} SortStable<T>(s: seq<T>, key: T -> real, v: real)
    ensures Ties(Sort(s, key), key, v) == Ties(s, key, v)
  {
    if |s| > 0 {
      var h := if key(s[0]) == v then [s[0]] else [];
      assert Ties(Sort(s, key), key, v) == h + Ties(Sort(s[1..], key), key, v) by {
        InsertTies(s[0], Sort(s[1..], key), key, v);
      }
      assert Ties(Sort(s[1..], key), key, v) == Ties(s[1..], key, v) by {
        SortStable(s[1..], key, v);
      }
      assert s == [s[0]] + s[1..];
      TiesCons(s[0], s[1..], key, v);
    }
  }

  lemma {:induction false} TiesOfPrefix<T>(s: seq<T>, n: nat, key: T -> real, v: real)
    requires n <= |s|
    ensures Ties(s[..n], key, v) <= Ties(s, key, v)
  {
    assert s == s[..n] + s[n..];
    TiesConcat(s[..n], s[n..], key, v);
  }

  lemma SortedPrefixDominates<T>(all: seq<T>, n: nat, key: T -> real)
    requires SortedDesc(all, key) && n <= |all|
    ensures forall d, k | d in all[n..] && k in all[..n] :: key(d) <= key(k)
  {
    forall d, k | d in all[n..] && k in all[..n]
      ensures key(d) <= key(k)
    {
      var i :| n <= i < |all| && all[i] == d;
      var j :| 0 <= j < n && all[j] == k;
    }
  }

  /** Truncating the sorted sequence to its first `n` elements keeps the
      largest keys: nothing dropped has a larger key than anything kept. */
  lemma SortPrefixDropped<T>(s: seq<T>, n: nat, key: T -> real)
    requires n <= |s|
    ensures forall d, k | d in multiset(s) - multiset(Sort(s, key)[..n]) && k in Sort(s, key)[..n]
              :: key(d) <= key(k)
  {
    var all := Sort(s, key);
    var kept := all[..n];
    var dropped := all[n..];
    assert multiset(s) - multiset(kept) == multiset(dropped) by {
      assert all == kept + dropped;
    }
    SortSorted(s, key);
    SortedPrefixDominates(all, n, key);
    forall d, k | d in multiset(s) - multiset(kept) && k in kept
      ensures key(d) <= key(k)
    {
      assert d in dropped;
    }
  }

  /** The first `n` of a sorted list are elements of the list. */
  lemma TakeSortedMembers<T>(u: seq<T>, n: nat, key: T -> real)
    ensures forall x | x in Take(Sort(u, key), n) :: x in u
  {
    var s := Sort(u, key);
    var r := Take(s, n);
    forall x | x in r
      ensures x in u
    {
      var i :| 0 <= i < |r| && r[i] == x;
      assert s[i] == x;
      assert x in multiset(s);
    }
  }

  /** The first `n` elements of a sorted sequence have keys no smaller than
      any element left out. */
  lemma TakeSortedLargest<T>(s: seq<T>, key: T -> real, n: nat, x: T)
    requires x in s && x !in Take(Sort(s, key), n)
    ensures forall i | 0 <= i < |Take(Sort(s, key), n)| :: key(Take(Sort(s, key), n)[i]) >= key(x)
  {
    var all := Sort(s, key);
    SortSorted(s, key);
    assert x in multiset(all);
    var j :| 0 <= j < |all| && all[j] == x;
    var t := Take(all, n);
    assert j >= |t|;
    forall i | 0 <= i < |t|
      ensures key(t[i]) >= key(x)
    {
      assert t[i] == all[i];
    }
  }
}
