/** What a plan or a graph runs: languages over tasks and calls. */
module Languages {
  import opened Graphs

  // One unit of work: a task's stage, or a call taken as one opaque symbol.
  datatype Sym = Task(node: Node) | Called(node: Node)

  type Word = seq<Sym>
  type Lang = iset<Word>

  ghost function Eps(): Lang {
    iset{[]}
  }

  ghost function Just(w: Word): Lang {
    iset{w}
  }

  ghost predicate Splits(A: Lang, B: Lang, w: Word, u: Word, v: Word) {
    u in A && v in B && w == u + v
  }

  ghost predicate InBoth(A: Lang, B: Lang, w: Word) {
    exists u, v :: Splits(A, B, w, u, v)
  }

  ghost function Cat(A: Lang, B: Lang): Lang {
    iset w: Word | InBoth(A, B, w)
  }

  lemma InCat(A: Lang, B: Lang, u: Word, v: Word)
    requires u in A && v in B
    ensures u + v in Cat(A, B)
  {
    assert Splits(A, B, u + v, u, v);
  }

  lemma OutOfCat(A: Lang, B: Lang, w: Word) returns (u: Word, v: Word)
    requires w in Cat(A, B)
    ensures u in A && v in B && w == u + v
  {
    u, v :| Splits(A, B, w, u, v);
  }

  lemma CatLeft(A: Lang, B: Lang, C: Lang, w: Word)
    requires w in Cat(Cat(A, B), C)
    ensures w in Cat(A, Cat(B, C))
  {
    var uv, z :| Splits(Cat(A, B), C, w, uv, z);
    var u, v :| Splits(A, B, uv, u, v);
    InCat(B, C, v, z);
    InCat(A, Cat(B, C), u, v + z);
    assert u + (v + z) == w;
  }

  lemma CatRight(A: Lang, B: Lang, C: Lang, w: Word)
    requires w in Cat(A, Cat(B, C))
    ensures w in Cat(Cat(A, B), C)
  {
    var u, vz :| Splits(A, Cat(B, C), w, u, vz);
    var v, z :| Splits(B, C, vz, v, z);
    InCat(A, B, u, v);
    InCat(Cat(A, B), C, u + v, z);
    assert (u + v) + z == w;
  }

  lemma CatAssoc(A: Lang, B: Lang, C: Lang)
    ensures Cat(Cat(A, B), C) == Cat(A, Cat(B, C))
  {
    hide Cat;
    forall w
      ensures w in Cat(Cat(A, B), C) <==> w in Cat(A, Cat(B, C))
    {
      if w in Cat(Cat(A, B), C) {
        CatLeft(A, B, C, w);
      }
      if w in Cat(A, Cat(B, C)) {
        CatRight(A, B, C, w);
      }
    }
  }

  lemma CatEpsLeft(A: Lang)
    ensures Cat(Eps(), A) == A
  {
    forall w
      ensures InBoth(Eps(), A, w) <==> w in A
    {
      if InBoth(Eps(), A, w) {
        var u, v :| Splits(Eps(), A, w, u, v);
        assert u + v == v;
      }
      if w in A {
        assert [] + w == w;
        assert Splits(Eps(), A, w, [], w);
      }
    }
  }

  lemma CatEpsRight(A: Lang)
    ensures Cat(A, Eps()) == A
  {
    forall w
      ensures InBoth(A, Eps(), w) <==> w in A
    {
      if InBoth(A, Eps(), w) {
        var u, v :| Splits(A, Eps(), w, u, v);
        assert u + v == u;
      }
      if w in A {
        assert w + [] == w;
        assert Splits(A, Eps(), w, w, []);
      }
    }
  }

  lemma CatUnion(A: Lang, B: Lang, K: Lang)
    ensures Cat(A + B, K) == Cat(A, K) + Cat(B, K)
  {
    forall w
      ensures InBoth(A + B, K, w) <==> InBoth(A, K, w) || InBoth(B, K, w)
    {
      if InBoth(A + B, K, w) {
        var u, v :| Splits(A + B, K, w, u, v);
        assert Splits(A, K, w, u, v) || Splits(B, K, w, u, v);
      }
      if InBoth(A, K, w) {
        var u, v :| Splits(A, K, w, u, v);
        assert Splits(A + B, K, w, u, v);
      }
      if InBoth(B, K, w) {
        var u, v :| Splits(B, K, w, u, v);
        assert Splits(A + B, K, w, u, v);
      }
    }
  }

  lemma CatNone(K: Lang)
    ensures Cat(iset{}, K) == iset{}
  {
    assert forall w, u, v :: !Splits(iset{}, K, w, u, v);
  }

  lemma CatJust(u: Word, v: Word, K: Lang)
    ensures Cat(Just(u), Cat(Just(v), K)) == Cat(Just(u + v), K)
  {
    CatAssoc(Just(u), Just(v), K);
    assert Cat(Just(u), Just(v)) == Just(u + v) by {
      forall w
        ensures InBoth(Just(u), Just(v), w) <==> w == u + v
      {
        assert w == u + v ==> Splits(Just(u), Just(v), w, u, v);
      }
    }
  }
}
