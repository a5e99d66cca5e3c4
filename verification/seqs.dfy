/** Generic sequence helpers: first positions, distinctness, and keeping the
    first occurrence of every value (the insertion order of a JavaScript
    object's keys, or of an array grown with `if (!a.includes(x)) a.push(x)`). */
module Seqs {

  predicate Distinct<T(==)>(s: seq<T>) {
    forall i, j | 0 <= i < j < |s| :: s[i] != s[j]
  }

  /** The position of the first `x` in `s`, or `|s|` when there is none. */
  function FirstIndex<T(==)>(s: seq<T>, x: T): (r: nat)
    ensures r <= |s|
    ensures r < |s| <==> x in s
    ensures r < |s| ==> s[r] == x
    ensures forall j | 0 <= j < r :: s[j] != x
  {
    if |s| == 0 then 0
    else if s[0] == x then 0
    else 1 + FirstIndex(s[1..], x)
  }

  lemma {:induction false} FirstIndexAppend<T>(s: seq<T>, x: T, y: T)
    ensures y in s ==> FirstIndex(s + [x], y) == FirstIndex(s, y)
    ensures y !in s && y == x ==> FirstIndex(s + [x], y) == |s|
  {
    var f := FirstIndex(s + [x], y);
    if y in s {
      var g := FirstIndex(s, y);
      assert (s + [x])[g] == y;
      assert f <= g;
      assert f < |s| ==> (s + [x])[f] == s[f];
    } else if y == x {
      assert (s + [x])[|s|] == y;
      assert forall j | 0 <= j < |s| :: (s + [x])[j] == s[j];
    }
  }

  /** `a.includes(x) ? a : a.concat([x])` */
  function AddNew<T(==)>(acc: seq<T>, x: T): (r: seq<T>)
    ensures x in r
    ensures forall y | y in r :: y in acc || y == x
    ensures forall y | y in acc :: y in r
  {
    if x in acc then acc else acc + [x]
  }

  /** The values of `s` in the order of their first occurrence. */
  function Dedupe<T(==)>(s: seq<T>): (r: seq<T>)
  {
    if |s| == 0 then [] else AddNew(Dedupe(s[..|s| - 1]), s[|s| - 1])
  }

  /** `Dedupe` keeps every value once, adds none, and orders them by first
      occurrence in the input. */
  lemma {:induction false} DedupeSpec<T>(s: seq<T>)
    ensures Distinct(Dedupe(s))
    ensures forall y :: y in Dedupe(s) <==> y in s
    ensures forall a, b | 0 <= a < b < |Dedupe(s)| ::
      FirstIndex(s, Dedupe(s)[a]) < FirstIndex(s, Dedupe(s)[b])
  {
    if |s| > 0 {
      var t, x := s[..|s| - 1], s[|s| - 1];
      assert s == t + [x];
      DedupeSpec(t);
      var d := Dedupe(t);
      forall y | y in t
        ensures FirstIndex(s, y) == FirstIndex(t, y)
      {
        FirstIndexAppend(t, x, y);
      }
      if x !in d {
        var r := d + [x];
        FirstIndexAppend(t, x, x);
        forall a, b | 0 <= a < b < |r|
          ensures FirstIndex(s, r[a]) < FirstIndex(s, r[b])
        {
          assert r[a] == d[a] && d[a] in d;
          if b < |d| {
            assert r[b] == d[b];
          } else {
            assert r[b] == x && x !in t;
            assert FirstIndex(t, r[a]) < |t|;
          }
        }
      }
    }
  }

  lemma DedupeDistinctIdentity<T>(s: seq<T>)
    requires Distinct(s)
    ensures Dedupe(s) == s
  {
    if |s| > 0 {
      var t := s[..|s| - 1];
      assert Distinct(t);
      DedupeDistinctIdentity(t);
      assert s[|s| - 1] !in t;
      assert s == t + [s[|s| - 1]];
    }
  }

  function Max(a: int, b: int): int {
    if a >= b then a else b
  }

  function Min(a: int, b: int): int {
    if a <= b then a else b
  }

  /** `s.slice(0, n)` for `n >= 0`. */
  function Take<T>(s: seq<T>, n: nat): (r: seq<T>)
    ensures |r| == Min(|s|, n)
    ensures r == s[..|r|]
  {
    if n <= |s| then s[..n] else s
  }

  /** `a` is `b` with some elements left out. */
  predicate IsSubseq<T(==)>(a: seq<T>, b: seq<T>)
    decreases |b|
  {
    if |a| == 0 then true
    else if |b| == 0 then false
    else (a[0] == b[0] && IsSubseq(a[1..], b[1..])) || IsSubseq(a, b[1..])
  }

  lemma {:induction false} SubseqMember<T>(a: seq<T>, b: seq<T>)
    requires IsSubseq(a, b)
    ensures forall x | x in a :: x in b
    decreases |b|
  {
    if |a| > 0 && |b| > 0 {
      if a[0] == b[0] && IsSubseq(a[1..], b[1..]) {
        SubseqMember(a[1..], b[1..]);
        assert forall x | x in a :: x == a[0] || x in a[1..];
      } else {
        SubseqMember(a, b[1..]);
      }
    }
  }

  /** The elements of `s` that satisfy `p`, in their order in `s`. */
  function Filter<T(==)>(s: seq<T>, p: T -> bool): (r: seq<T>)
    ensures |r| <= |s|
    ensures forall i | 0 <= i < |r| :: p(r[i]) && r[i] in s
    ensures forall x | x in s && p(x) :: x in r
  {
    if |s| == 0 then []
    else
      var rest := Filter(s[1..], p);
      assert forall x | x in s && x != s[0] :: x in s[1..];
      if p(s[0]) then [s[0]] + rest else rest
  }

  /** The position of the first element that satisfies `p`, or -1. */
  function FirstWhere<T>(s: seq<T>, p: T -> bool): (r: int)
    ensures -1 <= r < |s|
    ensures r >= 0 ==> p(s[r])
    ensures forall i | 0 <= i < |s| && (r == -1 || i < r) :: !p(s[i])
  {
    if |s| == 0 then -1
    else if p(s[0]) then 0
    else
      var r := FirstWhere(s[1..], p);
      assert forall i | 1 <= i < |s| :: s[i] == s[1..][i - 1];
      if r == -1 then -1 else r + 1
  }
}
