/** De-duplication by key that keeps the best-scoring element of each key,
    the earliest one on a tie; elements of a new key are appended in order
    of first appearance. */
module KeyedDedup {
  import opened Wrappers
  import opened Sorting

  /** Where the element with key `k` sits in `u`, if anywhere. */
  function KeyIndex<T, K(==)>(u: seq<T>, key: T -> K, k: K): (r: Option<nat>)
    ensures r.Some? ==> r.value < |u| && key(u[r.value]) == k
    ensures r.None? ==> forall j | 0 <= j < |u| :: key(u[j]) != k
  {
    if |u| == 0 then None
    else if key(u[|u| - 1]) == k then Some(|u| - 1)
    else KeyIndex(u[..|u| - 1], key, k)
  }

  /** One step: a new key is appended; a known key is replaced only by a
      strictly higher score. */
  function Step<T, K(==)>(u: seq<T>, c: T, key: T -> K, score: T -> real): (r: seq<T>)
    ensures |r| >= |u|
  {
    match KeyIndex(u, key, key(c))
    case None => u + [c]
    case Some(i) => if score(c) > score(u[i]) then u[i := c] else u
  }

  function DedupBy<T, K(==)>(cs: seq<T>, key: T -> K, score: T -> real): seq<T> {
    if |cs| == 0 then [] else Step(DedupBy(cs[..|cs| - 1], key, score), cs[|cs| - 1], key, score)
  }

  ghost predicate UniqueKeys<T, K>(u: seq<T>, key: T -> K) {
    forall i, j | 0 <= i < j < |u| :: key(u[i]) != key(u[j])
  }

  /** Some element of `u` has the key of `x` and scores at least as high. */
  ghost predicate HasBetter<T, K>(u: seq<T>, x: T, key: T -> K, score: T -> real) {
    exists j | 0 <= j < |u| :: key(u[j]) == key(x) && score(x) <= score(u[j])
  }

  /** Every key of `cs` has an element in `u` that scores at least as high. */
  ghost predicate Dominates<T, K>(u: seq<T>, cs: seq<T>, key: T -> K, score: T -> real) {
    forall i | 0 <= i < |cs| :: HasBetter(u, cs[i], key, score)
  }

  /** No element before position `i` of `cs` has the key of `cs[i]` and a
      score as high. */
  ghost predicate FirstOfItsScore<T, K>(cs: seq<T>, i: int, key: T -> K, score: T -> real)
    requires 0 <= i < |cs|
  {
    forall k | 0 <= k < i && key(cs[k]) == key(cs[i]) :: score(cs[k]) < score(cs[i])
  }

  /** `x` is an element of `cs` that no earlier element of its key matched. */
  ghost predicate IsFirstBest<T, K>(x: T, cs: seq<T>, key: T -> K, score: T -> real) {
    exists i | 0 <= i < |cs| :: x == cs[i] && FirstOfItsScore(cs, i, key, score)
  }

  /** Every element of `u` is an element of `cs` that no earlier element of
      the same key matched. */
  ghost predicate FirstBest<T, K>(u: seq<T>, cs: seq<T>, key: T -> K, score: T -> real) {
    forall j | 0 <= j < |u| :: IsFirstBest(u[j], cs, key, score)
  }

  ghost predicate Invariant<T, K>(u: seq<T>, cs: seq<T>, key: T -> K, score: T -> real) {
    UniqueKeys(u, key) && Dominates(u, cs, key, score) && FirstBest(u, cs, key, score)
  }

  lemma FirstOfItsScoreExtend<T, K>(cs: seq<T>, c: T, i: int, key: T -> K, score: T -> real)
    requires 0 <= i < |cs| && FirstOfItsScore(cs, i, key, score)
    ensures FirstOfItsScore(cs + [c], i, key, score)
  {
    assert forall k | 0 <= k <= i :: (cs + [c])[k] == cs[k];
  }

  lemma StepNewDominates<T, K>(u: seq<T>, cs: seq<T>, c: T, key: T -> K, score: T -> real)
    requires Dominates(u, cs, key, score)
    ensures Dominates(u + [c], cs + [c], key, score)
  {
    var u', cs' := u + [c], cs + [c];
    forall i | 0 <= i < |cs'|
      ensures HasBetter(u', cs'[i], key, score)
    {
      if i < |cs| {
        assert HasBetter(u, cs[i], key, score);
        var j :| 0 <= j < |u| && key(u[j]) == key(cs[i]) && score(cs[i]) <= score(u[j]);
        assert u'[j] == u[j] && cs'[i] == cs[i];
      } else {
        assert u'[|u|] == cs'[i];
      }
    }
  }

  lemma StepNewFirstBest<T, K>(u: seq<T>, cs: seq<T>, c: T, key: T -> K, score: T -> real)
    requires Dominates(u, cs, key, score) && FirstBest(u, cs, key, score)
    requires forall j | 0 <= j < |u| :: key(u[j]) != key(c)
    ensures FirstBest(u + [c], cs + [c], key, score)
  {
    var u', cs' := u + [c], cs + [c];
    forall j | 0 <= j < |u'|
      ensures IsFirstBest(u'[j], cs', key, score)
    {
      if j < |u| {
        assert IsFirstBest(u[j], cs, key, score);
      var i :| 0 <= i < |cs| && u[j] == cs[i] && FirstOfItsScore(cs, i, key, score);
        FirstOfItsScoreExtend(cs, c, i, key, score);
        assert u'[j] == cs'[i];
      } else {
        assert u'[j] == cs'[|cs|];
        forall k | 0 <= k < |cs|
          ensures key(cs'[k]) != key(c)
        {
          assert cs'[k] == cs[k];
          assert HasBetter(u, cs[k], key, score);
          var j' :| 0 <= j' < |u| && key(u[j']) == key(cs[k]) && score(cs[k]) <= score(u[j']);
        }
        assert FirstOfItsScore(cs', |cs|, key, score);
      }
    }
  }

  lemma StepNew<T, K>(u: seq<T>, cs: seq<T>, c: T, key: T -> K, score: T -> real)
    requires Invariant(u, cs, key, score)
    requires KeyIndex(u, key, key(c)).None?
    ensures Invariant(Step(u, c, key, score), cs + [c], key, score)
  {
    assert Step(u, c, key, score) == u + [c];
    StepNewDominates(u, cs, c, key, score);
    StepNewFirstBest(u, cs, c, key, score);
    var u' := u + [c];
    assert UniqueKeys(u', key) by {
      forall i, j | 0 <= i < j < |u'|
        ensures key(u'[i]) != key(u'[j])
      {
        assert u'[i] == u[i];
      }
    }
  }

  lemma StepReplaceDominates<T, K>(u: seq<T>, cs: seq<T>, c: T, x: nat, key: T -> K, score: T -> real)
    requires Dominates(u, cs, key, score)
    requires x < |u| && key(u[x]) == key(c) && score(c) > score(u[x])
    ensures Dominates(u[x := c], cs + [c], key, score)
  {
    var u', cs' := u[x := c], cs + [c];
    forall i | 0 <= i < |cs'|
      ensures HasBetter(u', cs'[i], key, score)
    {
      if i < |cs| {
        assert HasBetter(u, cs[i], key, score);
        var j :| 0 <= j < |u| && key(u[j]) == key(cs[i]) && score(cs[i]) <= score(u[j]);
        assert cs'[i] == cs[i];
        if j != x {
          assert u'[j] == u[j];
        } else {
          assert u'[x] == c;
        }
      } else {
        assert u'[x] == cs'[i];
      }
    }
  }

  lemma StepReplaceFirstBest<T, K>(u: seq<T>, cs: seq<T>, c: T, x: nat, key: T -> K, score: T -> real)
    requires UniqueKeys(u, key) && Dominates(u, cs, key, score) && FirstBest(u, cs, key, score)
    requires x < |u| && key(u[x]) == key(c) && score(c) > score(u[x])
    ensures FirstBest(u[x := c], cs + [c], key, score)
  {
    var u', cs' := u[x := c], cs + [c];
    forall j | 0 <= j < |u'|
      ensures IsFirstBest(u'[j], cs', key, score)
    {
      if j != x {
        assert IsFirstBest(u[j], cs, key, score);
      var i :| 0 <= i < |cs| && u[j] == cs[i] && FirstOfItsScore(cs, i, key, score);
        FirstOfItsScoreExtend(cs, c, i, key, score);
        assert u'[j] == cs'[i];
      } else {
        assert u'[x] == cs'[|cs|];
        forall k | 0 <= k < |cs| && key(cs'[k]) == key(cs'[|cs|])
          ensures score(cs'[k]) < score(cs'[|cs|])
        {
          assert cs'[k] == cs[k];
          assert HasBetter(u, cs[k], key, score);
          var j' :| 0 <= j' < |u| && key(u[j']) == key(cs[k]) && score(cs[k]) <= score(u[j']);
          assert j' == x;
        }
      }
    }
  }

  lemma StepReplace<T, K>(u: seq<T>, cs: seq<T>, c: T, x: nat, key: T -> K, score: T -> real)
    requires Invariant(u, cs, key, score)
    requires KeyIndex(u, key, key(c)) == Some(x) && score(c) > score(u[x])
    ensures Invariant(Step(u, c, key, score), cs + [c], key, score)
  {
    assert Step(u, c, key, score) == u[x := c];
    StepReplaceDominates(u, cs, c, x, key, score);
    StepReplaceFirstBest(u, cs, c, x, key, score);
    var u' := u[x := c];
    assert UniqueKeys(u', key) by {
      forall i, j | 0 <= i < j < |u'|
        ensures key(u'[i]) != key(u'[j])
      {
        assert key(u'[i]) == key(u[i]) && key(u'[j]) == key(u[j]);
      }
    }
  }

  lemma StepKeep<T, K>(u: seq<T>, cs: seq<T>, c: T, x: nat, key: T -> K, score: T -> real)
    requires Invariant(u, cs, key, score)
    requires KeyIndex(u, key, key(c)) == Some(x) && score(c) <= score(u[x])
    ensures Invariant(Step(u, c, key, score), cs + [c], key, score)
  {
    var cs' := cs + [c];
    assert Step(u, c, key, score) == u;
    forall i | 0 <= i < |cs'|
      ensures HasBetter(u, cs'[i], key, score)
    {
      if i < |cs| {
        assert cs'[i] == cs[i];
      } else {
        assert cs'[i] == c;
      }
    }
    forall j | 0 <= j < |u|
      ensures IsFirstBest(u[j], cs', key, score)
    {
      assert IsFirstBest(u[j], cs, key, score);
      var i :| 0 <= i < |cs| && u[j] == cs[i] && FirstOfItsScore(cs, i, key, score);
      FirstOfItsScoreExtend(cs, c, i, key, score);
      assert u[j] == cs'[i];
    }
    assert Dominates(u, cs', key, score);
    assert FirstBest(u, cs', key, score);
  }

  /** The result has one element per key of the input: the highest-scoring
      one, the earliest of those on a tie. */
  lemma {:induction false} DedupBySpec<T, K>(cs: seq<T>, key: T -> K, score: T -> real)
    ensures UniqueKeys(DedupBy(cs, key, score), key)
    ensures Dominates(DedupBy(cs, key, score), cs, key, score)
    ensures FirstBest(DedupBy(cs, key, score), cs, key, score)
  {
    if |cs| > 0 {
      var pre, c := cs[..|cs| - 1], cs[|cs| - 1];
      assert cs == pre + [c];
      DedupBySpec(pre, key, score);
      var u := DedupBy(pre, key, score);
      match KeyIndex(u, key, key(c))
      case None => StepNew(u, pre, c, key, score);
      case Some(x) =>
        if score(c) > score(u[x]) {
          StepReplace(u, pre, c, x, key, score);
        } else {
          StepKeep(u, pre, c, x, key, score);
        }
    }
  }

  /** A permutation of a list with distinct keys has distinct keys. */
  lemma PermutationKeepsUniqueKeys<T, K>(u: seq<T>, s: seq<T>, key: T -> K)
    requires UniqueKeys(u, key) && multiset(s) == multiset(u)
    ensures UniqueKeys(s, key)
  {
    forall i, j | 0 <= i < j < |s|
      ensures key(s[i]) != key(s[j])
    {
      assert s[i] in multiset(u) && s[j] in multiset(u);
      var a :| 0 <= a < |u| && u[a] == s[i];
      var b :| 0 <= b < |u| && u[b] == s[j];
      if a == b {
        MultiplicityTwo(s, i, j);
        MultiplicityOne(u, a, key);
      }
    }
  }

  lemma MultiplicityTwo<T>(s: seq<T>, i: nat, j: nat)
    requires i < j < |s| && s[i] == s[j]
    ensures multiset(s)[s[i]] >= 2
  {
    assert s == s[..i] + [s[i]] + s[i + 1..j] + [s[j]] + s[j + 1..];
  }

  lemma MultiplicityOne<T, K>(u: seq<T>, a: nat, key: T -> K)
    requires UniqueKeys(u, key) && a < |u|
    ensures multiset(u)[u[a]] == 1
  {
    assert u == u[..a] + [u[a]] + u[a + 1..];
    assert u[a] !in u[..a] by {
      forall k | 0 <= k < a ensures u[k] != u[a] { assert key(u[k]) != key(u[a]); }
    }
    assert u[a] !in u[a + 1..] by {
      forall k | a < k < |u| ensures u[k] != u[a] { assert key(u[k]) != key(u[a]); }
    }
  }

  /** Elements taken from a de-duplicated list are elements of the input,
      each the best of its key (the first of the best on a tie). */
  lemma KeptAreFirstBest<T, K>(cs: seq<T>, u: seq<T>, r: seq<T>, key: T -> K, score: T -> real)
    requires FirstBest(u, cs, key, score) && forall x | x in r :: x in u
    ensures forall c | c in r :: c in cs && IsFirstBest(c, cs, key, score)
  {
    forall c | c in r
      ensures c in cs && IsFirstBest(c, cs, key, score)
    {
      var j :| 0 <= j < |u| && u[j] == c;
      assert IsFirstBest(u[j], cs, key, score);
    }
  }

  /** Every input element's key has a de-duplicated element at least as good. */
  lemma DominatesMembers<T, K>(u: seq<T>, cs: seq<T>, key: T -> K, score: T -> real)
    requires Dominates(u, cs, key, score)
    ensures forall c | c in cs :: HasBetter(u, c, key, score)
  {
    forall c | c in cs
      ensures HasBetter(u, c, key, score)
    {
      var i :| 0 <= i < |cs| && cs[i] == c;
    }
  }
}
