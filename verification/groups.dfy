/** Grouping of retrieved hits by paper: a paper's group is created when its
    first hit is seen, groups are visited in creation order, and each group
    keeps its hits in input order. */
module PaperGroups {
  import opened Records
  import opened Seqs

  /** A hit with its position in the retrieved list. */
  datatype Candidate = Candidate(index: nat, hit: Hit)

  function PaperOf(c: Candidate): string {
    c.hit.payload.paperId
  }

  function PaperIds(rs: seq<Hit>): (r: seq<string>)
    ensures |r| == |rs|
    ensures forall i | 0 <= i < |rs| :: r[i] == rs[i].payload.paperId
  {
    seq(|rs|, i requires 0 <= i < |rs| => rs[i].payload.paperId)
  }

  /** The paper ids in the order the grouping object receives them as keys. */
  function Papers(rs: seq<Hit>): seq<string> {
    Dedupe(PaperIds(rs))
  }

  function Indexed(rs: seq<Hit>): (r: seq<Candidate>)
    ensures |r| == |rs|
    ensures forall i | 0 <= i < |rs| :: r[i] == Candidate(i, rs[i])
  {
    seq(|rs|, i requires 0 <= i < |rs| => Candidate(i, rs[i]))
  }

  /** The candidates of paper `p`, in order. */
  function OfPaper(cs: seq<Candidate>, p: string): (r: seq<Candidate>)
    ensures |r| <= |cs|
  {
    if |cs| == 0 then []
    else (if PaperOf(cs[0]) == p then [cs[0]] else []) + OfPaper(cs[1..], p)
  }

  /** The groups of `ps`, one after another. */
  function Flat(cs: seq<Candidate>, ps: seq<string>): seq<Candidate> {
    if |ps| == 0 then [] else OfPaper(cs, ps[0]) + Flat(cs, ps[1..])
  }

  /** The hits in the order the context builder visits them. */
  function Grouped(rs: seq<Hit>): seq<Candidate> {
    Flat(Indexed(rs), Papers(rs))
  }

  lemma {:induction false} OfPaperMember(cs: seq<Candidate>, p: string)
    ensures forall x :: x in OfPaper(cs, p) <==> x in cs && PaperOf(x) == p
  {
    if |cs| > 0 {
      OfPaperMember(cs[1..], p);
      assert cs == [cs[0]] + cs[1..];
    }
  }

  lemma {:induction false} OfPaperConcat(a: seq<Candidate>, b: seq<Candidate>, p: string)
    ensures OfPaper(a + b, p) == OfPaper(a, p) + OfPaper(b, p)
  {
    if |a| == 0 {
      assert a + b == b;
    } else {
      var h := if PaperOf(a[0]) == p then [a[0]] else [];
      assert (a + b)[0] == a[0];
      assert (a + b)[1..] == a[1..] + b;
      assert OfPaper(a + b, p) == h + OfPaper(a[1..] + b, p);
      OfPaperConcat(a[1..], b, p);
      assert OfPaper(a, p) == h + OfPaper(a[1..], p);
      assert h + (OfPaper(a[1..], p) + OfPaper(b, p)) == (h + OfPaper(a[1..], p)) + OfPaper(b, p);
    }
  }

  lemma {:induction false} OfPaperOfPaper(cs: seq<Candidate>, q: string, p: string)
    ensures OfPaper(OfPaper(cs, q), p) == if p == q then OfPaper(cs, p) else []
  {
    if |cs| > 0 {
      var h := if PaperOf(cs[0]) == q then [cs[0]] else [];
      OfPaperOfPaper(cs[1..], q, p);
      OfPaperConcat(h, OfPaper(cs[1..], q), p);
      if PaperOf(cs[0]) == q {
        assert [cs[0]][1..] == [];
      }
    }
  }

  lemma {:induction false} FlatOfPaper(cs: seq<Candidate>, ps: seq<string>, p: string)
    requires Distinct(ps)
    ensures OfPaper(Flat(cs, ps), p) == if p in ps then OfPaper(cs, p) else []
  {
    if |ps| > 0 {
      assert Distinct(ps[1..]);
      FlatOfPaper(cs, ps[1..], p);
      OfPaperConcat(OfPaper(cs, ps[0]), Flat(cs, ps[1..]), p);
      OfPaperOfPaper(cs, ps[0], p);
      if p == ps[0] {
        assert p !in ps[1..];
      } else {
        assert p in ps <==> p in ps[1..];
      }
    }
  }

  lemma {:induction false} FlatPapers(cs: seq<Candidate>, ps: seq<string>)
    ensures forall x | x in Flat(cs, ps) :: PaperOf(x) in ps
  {
    if |ps| > 0 {
      FlatPapers(cs, ps[1..]);
      OfPaperMember(cs, ps[0]);
    }
  }

  /** Papers appear in `s` in the order of their first position in `ids`. */
  ghost predicate InPaperOrder(s: seq<Candidate>, ids: seq<string>) {
    forall x, y | 0 <= x < y < |s| :: FirstIndex(ids, PaperOf(s[x])) <= FirstIndex(ids, PaperOf(s[y]))
  }

  lemma InPaperOrderConcat(a: seq<Candidate>, b: seq<Candidate>, ids: seq<string>)
    requires InPaperOrder(a, ids) && InPaperOrder(b, ids)
    requires forall u, v | u in a && v in b :: FirstIndex(ids, PaperOf(u)) <= FirstIndex(ids, PaperOf(v))
    ensures InPaperOrder(a + b, ids)
  {
    var f := a + b;
    forall x, y | 0 <= x < y < |f|
      ensures FirstIndex(ids, PaperOf(f[x])) <= FirstIndex(ids, PaperOf(f[y]))
    {
      if y < |a| {
        assert f[x] == a[x] && f[y] == a[y];
      } else if x < |a| {
        assert f[x] == a[x] && a[x] in a;
        assert f[y] == b[y - |a|] && b[y - |a|] in b;
      } else {
        assert f[x] == b[x - |a|] && f[y] == b[y - |a|];
      }
    }
  }

  /** The candidates of one paper are in paper order. */
  lemma OfPaperInOrder(cs: seq<Candidate>, p: string, ids: seq<string>)
    ensures InPaperOrder(OfPaper(cs, p), ids)
  {
    var g := OfPaper(cs, p);
    OfPaperMember(cs, p);
    forall x, y | 0 <= x < y < |g|
      ensures FirstIndex(ids, PaperOf(g[x])) <= FirstIndex(ids, PaperOf(g[y]))
    {
      assert g[x] in g && g[y] in g;
    }
  }

  lemma {:induction false} FlatOrder(cs: seq<Candidate>, ps: seq<string>, ids: seq<string>)
    requires forall a, b | 0 <= a < b < |ps| :: FirstIndex(ids, ps[a]) < FirstIndex(ids, ps[b])
    ensures InPaperOrder(Flat(cs, ps), ids)
  {
    if |ps| > 0 {
      var g, rest := OfPaper(cs, ps[0]), Flat(cs, ps[1..]);
      FlatOrder(cs, ps[1..], ids);
      OfPaperInOrder(cs, ps[0], ids);
      OfPaperMember(cs, ps[0]);
      FlatPapers(cs, ps[1..]);
      forall u, v | u in g && v in rest
        ensures FirstIndex(ids, PaperOf(u)) <= FirstIndex(ids, PaperOf(v))
      {
        var b :| 0 <= b < |ps[1..]| && ps[1..][b] == PaperOf(v);
        assert ps[b + 1] == PaperOf(v);
      }
      InPaperOrderConcat(g, rest, ids);
    }
  }

  lemma PaperOfHit(rs: seq<Hit>, p: string)
    ensures OfPaper(Indexed(rs), p) != [] ==> p in Papers(rs)
  {
    var cs := Indexed(rs);
    if OfPaper(cs, p) != [] {
      OfPaperMember(cs, p);
      DedupeSpec(PaperIds(rs));
      var c := OfPaper(cs, p)[0];
      assert c in OfPaper(cs, p);
      var i :| 0 <= i < |cs| && cs[i] == c;
      assert PaperIds(rs)[i] == p;
    }
  }

  /** Within each paper the hits keep their input order, and no hit is
      lost or added. */
  lemma GroupedPerPaper(rs: seq<Hit>)
    ensures forall p :: OfPaper(Grouped(rs), p) == OfPaper(Indexed(rs), p)
  {
    var ps, cs := Papers(rs), Indexed(rs);
    DedupeSpec(PaperIds(rs));
    forall p
      ensures OfPaper(Grouped(rs), p) == OfPaper(cs, p)
    {
      FlatOfPaper(cs, ps, p);
      PaperOfHit(rs, p);
    }
  }

  /** Papers come in the order of their first hit. */
  lemma GroupedOrder(rs: seq<Hit>)
    ensures forall x, y | 0 <= x < y < |Grouped(rs)| ::
      FirstIndex(PaperIds(rs), PaperOf(Grouped(rs)[x])) <= FirstIndex(PaperIds(rs), PaperOf(Grouped(rs)[y]))
  {
    DedupeSpec(PaperIds(rs));
    FlatOrder(Indexed(rs), Papers(rs), PaperIds(rs));
  }

  /** The grouped list holds exactly the input hits. */
  lemma GroupedMembers(rs: seq<Hit>)
    ensures forall c :: c in Grouped(rs) <==> c in Indexed(rs)
  {
    GroupedPerPaper(rs);
    forall c
      ensures c in Grouped(rs) <==> c in Indexed(rs)
    {
      OfPaperMember(Grouped(rs), PaperOf(c));
      OfPaperMember(Indexed(rs), PaperOf(c));
    }
  }
}
