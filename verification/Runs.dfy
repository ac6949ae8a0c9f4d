/** The moves of a compiled strip and the words of its node are the same thing. */
module Runs {
  import opened Strip
  import opened Language
  import opened Node

  /** The strip is an end marker, the code of x, and an end marker. */
  ghost predicate Compiled(g: Prog, x: Node) {
    && g.lo == 1 && g.hi == 1 + Len(x) && |g.strip| == Len(x) + 2
    && g.strip[0] == OEnd && g.strip[g.hi] == OEnd
    && At(g.strip, 1, x) && Valid(x, g.sets) && !IsChain(x)
  }

  /** A chain starts with an OOR2. */
  lemma ChainHead(s: seq<Op>, i: nat, t: Node)
    requires At(s, i, t) && IsChain(t)
    ensures Len(t) > 0 && s[i].OOr2?
  {
    hide At, Len, ForkOpening;
    match t
    case Wrap(k, a) =>
      AtWrap(s, i, k, a);
      LenWrap(k, a);
    case Fork(first, a, u) =>
      AtFork(s, i, first, a, u);
      LenFork(first, a, u);
      LaterOpening(first, Len(a));
  }

  lemma LaterOpening(first: bool, n: nat)
    ensures !first ==> ForkOpening(first, n).OOr2?
  {}

  lemma WrapEnds(g: Prog, i: nat, k: Wrapper, n: nat)
    requires g.lo <= i && i + n + 2 <= g.hi < |g.strip|
    requires g.strip[i] == Opening(k, n) && g.strip[i + 1 + n] == Closing(k, n)
    ensures g.OpOk(i) && g.OpOk(i + 1 + n)
  {}

  lemma ForkEnds(g: Prog, i: nat, first: bool, n: nat)
    requires g.lo <= i && i + n + 2 < g.hi < |g.strip|
    requires g.strip[i] == ForkOpening(first, n) && g.strip[i + 1 + n] == ForkMiddle(first, n)
    requires g.strip[i + 2 + n].OOr2?
    ensures g.OpOk(i) && g.OpOk(i + 1 + n)
  {}

  lemma ForkEndsOk(g: Prog, i: nat, first: bool, a: Node, t: Node)
    requires g.lo <= i && i + Len(a) + 2 + Len(t) <= g.hi < |g.strip|
    requires g.strip[i] == ForkOpening(first, Len(a)) && g.strip[i + 1 + Len(a)] == ForkMiddle(first, Len(a))
    requires At(g.strip, i + 2 + Len(a), t) && IsChain(t)
    ensures g.OpOk(i) && g.OpOk(i + 1 + Len(a))
  {
    hide At, Len, ForkOpening, ForkMiddle;
    ChainHead(g.strip, i + 2 + Len(a), t);
    ForkEnds(g, i, first, Len(a));
  }

  lemma {:induction false} BlockOk(g: Prog, i: nat, x: Node, q: nat)
    requires g.lo <= i && i + Len(x) <= g.hi < |g.strip|
    requires At(g.strip, i, x) && Valid(x, g.sets)
    requires i <= q < i + Len(x)
    ensures g.OpOk(q)
    decreases x
  {
    hide At, Valid, Len, Opening, Closing, ForkOpening, ForkMiddle;
    match x
    case Nil => LenOf();
    case One(op, cs) =>
      LenOf();
      OneParts(g.strip, g.sets, i, op, cs);
      OneFits(g, i, op, cs);
    case Cat(a, b) =>
      LenCat(a, b);
      CatParts(g.strip, g.sets, i, a, b);
      if q < i + Len(a) { BlockOk(g, i, a, q); } else { BlockOk(g, i + Len(a), b, q); }
    case Wrap(k, a) =>
      LenWrap(k, a);
      WrapParts(g.strip, g.sets, i, k, a);
      if i < q <= i + Len(a) { BlockOk(g, i + 1, a, q); } else { WrapEnds(g, i, k, Len(a)); }
    case Fork(first, a, t) =>
      LenFork(first, a, t);
      ForkParts(g.strip, g.sets, i, first, a, t);
      if i < q <= i + Len(a) { BlockOk(g, i + 1, a, q); }
      else if q >= i + 2 + Len(a) { BlockOk(g, i + 2 + Len(a), t, q); }
      else { ForkEndsOk(g, i, first, a, t); }
  }

  lemma OneFits(g: Prog, i: nat, op: Op, cs: set<Byte>)
    requires g.lo <= i < g.hi < |g.strip| && g.strip[i] == op && OneOk(op, cs, g.sets)
    ensures g.OpOk(i)
  {}

  /** Code emitted by the compiler meets every demand the machine makes of a strip. */
  lemma CompiledOk(g: Prog, x: Node)
    requires Compiled(g, x)
    ensures g.Ok()
  {
    forall q: nat | g.lo <= q < g.hi ensures g.OpOk(q) {
      BlockOk(g, 1, x, q);
    }
  }

  /** The links of a chain end in front of the position after the chain. */
  lemma {:induction false} ChainEnd(g: Prog, i: nat, t: Node)
    requires g.Ok() && At(g.strip, i, t) && Valid(t, g.sets) && IsChain(t)
    requires g.lo <= i && i + Len(t) <= g.hi
    ensures ChEnd(g, i) + 1 == i + Len(t)
    decreases t
  {
    hide At, Valid, Len, Opening, Closing, ForkOpening, ForkMiddle;
    match t
    case Wrap(k, a) =>
      WrapParts(g.strip, g.sets, i, k, a);
      LenWrap(k, a);
      LastEnds(g, i, Len(a));
    case Fork(first, a, u) =>
      ForkParts(g.strip, g.sets, i, first, a, u);
      LenFork(first, a, u);
      ChainHead(g.strip, i + 2 + Len(a), u);
      ChainEnd(g, i + 2 + Len(a), u);
      ForkLinks(g, i, Len(a));
  }

  lemma LastEnds(g: Prog, i: nat, n: nat)
    requires g.Ok() && g.lo <= i && i + n + 2 <= g.hi
    requires g.strip[i] == Opening(Last, n) && g.strip[i + 1 + n] == Closing(Last, n)
    ensures ChEnd(g, i) == i + 1 + n
  {
    assert g.OpOk(i);
  }

  lemma ForkLinks(g: Prog, i: nat, n: nat)
    requires g.Ok() && g.lo <= i && i + n + 2 < g.hi
    requires g.strip[i] == ForkOpening(false, n) && g.strip[i + n + 2].OOr2?
    ensures ChEnd(g, i) == ChEnd(g, i + n + 2)
  {
    assert g.OpOk(i);
  }

  // ---------- the moves of an operator, shape by shape ----------

  lemma OpeningMove(g: Prog, i: nat, k: Wrapper, n: nat, u: Word, r: nat)
    requires g.Ok() && g.lo <= i && i + n + 1 < g.hi
    requires g.strip[i] == Opening(k, n) && g.strip[i + 1 + n] == Closing(k, n)
    requires Move(g, i, u, r)
    ensures u == [] && (r == i + 1 || (k.Quest? && r == i + n + 1))
  {}

  lemma ClosingMove(g: Prog, j: nat, k: Wrapper, n: nat, u: Word, r: nat)
    requires g.Ok() && g.lo <= j < g.hi && n + 1 <= j
    requires g.strip[j] == Closing(k, n)
    requires Move(g, j, u, r)
    ensures u == [] && (r == j + 1 || (k.Plus? && r == j - n - 1))
  {}

  lemma ForkOpeningMove(g: Prog, i: nat, first: bool, n: nat, u: Word, r: nat)
    requires g.Ok() && g.lo <= i && i + n + 2 < g.hi
    requires g.strip[i] == ForkOpening(first, n)
    requires Move(g, i, u, r)
    ensures u == [] && (r == i + 1 || r == i + n + 2)
  {}

  lemma ForkMiddleMove(g: Prog, j: nat, first: bool, n: nat, t: Node, u: Word, r: nat)
    requires g.Ok() && g.lo <= j && j + 1 + Len(t) <= g.hi
    requires g.strip[j] == ForkMiddle(first, n)
    requires At(g.strip, j + 1, t) && Valid(t, g.sets) && IsChain(t)
    requires Move(g, j, u, r)
    ensures u == [] && r == j + 1 + Len(t)
  {
    hide At, Valid, Len;
    ChainHead(g.strip, j + 1, t);
    ChainEnd(g, j + 1, t);
    assert g.OpOk(j);
  }

  // ---------- every move keeps to the words of the node ----------

  lemma {:induction false} EntryWords(x: Node)
    ensures [] in Words(x, 0)
    decreases x
  {
    hide Words, Len, Accepts, Concat, AtLeast;
    match x
    case Nil => WordsSmall(x);
    case One(_, _) => WordsSmall(x);
    case Cat(a, b) =>
      WordsCat(a, b, 0);
      EntryWords(a);
      EntryWords(b);
      if Len(a) == 0 {
        WordsEnd(a);
        InConcat(Accepts(a), Words(b, 0), [], []);
        var none: Word := [];
        assert none + none == none;
      }
    case Wrap(k, a) =>
      WordsWrap(k, a, 0);
      StarEmpty(Accepts(a));
    case Fork(first, a, t) =>
      WordsFork(first, a, t, 0);
  }

  lemma StarEmpty(a: Lang)
    ensures [] in AtLeast(a, 0)
  {
    assert [] in Power(a, 0);
  }

  /** Reaching a's end inside Cat(a, b) is reaching b's entry. */
  lemma CatJoin(a: Node, b: Node)
    ensures Accepts(a) <= Words(Cat(a, b), Len(a))
  {
    hide Words, Len, Accepts, Concat;
    EntryWords(b);
    WordsCat(a, b, Len(a));
    forall w: Word | w in Accepts(a) ensures w in Words(Cat(a, b), Len(a)) {
      InConcat(Accepts(a), Words(b, 0), w, []);
      assert w + [] == w;
    }
  }

  /** u carries every word of the language a into b. */
  ghost predicate Carries(a: Lang, u: Word, b: Lang) {
    forall w: Word :: w in a ==> w + u in b
  }

  lemma CarriesConcat(c: Lang, a: Lang, u: Word, b: Lang)
    requires Carries(a, u, b)
    ensures Carries(Concat(c, a), u, Concat(c, b))
  {
    forall w: Word | w in Concat(c, a) ensures w + u in Concat(c, b) {
      var k := SplitConcat(c, a, w);
      InConcat(c, b, w[..k], w[k..] + u);
      assert w[..k] + (w[k..] + u) == w + u;
    }
  }

  lemma CarriesMore(a: Lang, u: Word, b: Lang, c: Lang)
    requires Carries(a, u, b)
    ensures Carries(a, u, c + b)
  {}

  lemma CarriesNothing(a: Lang, b: Lang)
    requires a <= b
    ensures Carries(a, [], b)
  {
    forall w: Word | w in a ensures w + [] in b {
      assert w + [] == w;
    }
  }

  lemma CarriesWord(a: Lang, u: Word, b: Lang, w: Word)
    requires Carries(a, u, b) && w in a
    ensures w + u in b
  {}

  lemma CatLeftCarries(a: Node, b: Node, d: nat, u: Word, e: nat)
    requires d < Len(a) && e <= Len(a)
    requires Carries(Words(a, d), u, Words(a, e))
    ensures Carries(Words(Cat(a, b), d), u, Words(Cat(a, b), e))
  {
    hide Words, Len, Accepts, Concat;
    CatJoin(a, b);
    WordsCat(a, b, d);
    WordsCat(a, b, e);
    WordsEnd(a);
  }

  lemma CatRightWords(a: Node, b: Node, d: nat)
    requires d <= Len(b)
    ensures Words(Cat(a, b), Len(a) + d) == Concat(Accepts(a), Words(b, d))
  {
    hide Words, Len, Accepts, Concat;
    WordsCat(a, b, Len(a) + d);
  }

  lemma CatRightCarries(a: Node, b: Node, d: nat, u: Word, e: nat)
    requires d < Len(b) && e <= Len(b)
    requires Carries(Words(b, d), u, Words(b, e))
    ensures Carries(Words(Cat(a, b), Len(a) + d), u, Words(Cat(a, b), Len(a) + e))
  {
    CatRightWords(a, b, d);
    CatRightWords(a, b, e);
    hide *;
    CarriesConcat(Accepts(a), Words(b, d), u, Words(b, e));
  }

  lemma BodyCarries(k: Wrapper, a: Node, d: nat, u: Word, e: nat)
    requires d < Len(a) && e <= Len(a)
    requires Carries(Words(a, d), u, Words(a, e))
    ensures Carries(Words(Wrap(k, a), d + 1), u, Words(Wrap(k, a), e + 1))
  {
    hide Words, Len, Accepts, Concat, AtLeast, Carries;
    WordsWrap(k, a, d + 1);
    WordsWrap(k, a, e + 1);
    if k.Plus? { CarriesConcat(AtLeast(Accepts(a), 0), Words(a, d), u, Words(a, e)); }
    WordsEnd(a);
    if k.Quest? { CarriesMore(Words(a, d), u, Words(a, e), UNIT); }
  }

  lemma BranchCarries(first: bool, a: Node, t: Node, d: nat, u: Word, e: nat)
    requires d < Len(a) && e <= Len(a)
    requires Carries(Words(a, d), u, Words(a, e))
    ensures Carries(Words(Fork(first, a, t), d + 1), u, Words(Fork(first, a, t), e + 1))
  {
    hide Words, Len, Accepts;
    WordsFork(first, a, t, d + 1);
    WordsFork(first, a, t, e + 1);
    WordsEnd(a);
  }

  lemma ChainCarries(first: bool, a: Node, t: Node, d: nat, u: Word, e: nat)
    requires d < Len(t) && e <= Len(t)
    requires Carries(Words(t, d), u, Words(t, e))
    ensures Carries(Words(Fork(first, a, t), Len(a) + 2 + d), u, Words(Fork(first, a, t), Len(a) + 2 + e))
  {
    hide Words, Len, Accepts, Carries;
    WordsFork(first, a, t, Len(a) + 2 + d);
    WordsFork(first, a, t, Len(a) + 2 + e);
    WordsEnd(t);
    AcceptsFork(first, a, t);
    if e == Len(t) { CarriesMore(Words(t, d), u, Accepts(t), Accepts(a)); }
  }

  /** The opening of an alternation leads to every branch. */
  lemma ForkOpens(first: bool, a: Node, t: Node)
    requires Len(t) > 0
    ensures Words(Fork(first, a, t), 0) <= Words(Fork(first, a, t), 1)
    ensures Words(Fork(first, a, t), 0) <= Words(Fork(first, a, t), Len(a) + 2)
  {
    hide Words, Len, Accepts;
    EntryWords(a);
    EntryWords(t);
    WordsFork(first, a, t, 0);
    WordsFork(first, a, t, 1);
    WordsFork(first, a, t, Len(a) + 2);
  }

  lemma BranchEnds(first: bool, a: Node, t: Node)
    ensures Words(Fork(first, a, t), Len(a) + 1) <= Words(Fork(first, a, t), Len(a) + 2 + Len(t))
  {
    hide Words, Len, Accepts;
    WordsFork(first, a, t, Len(a) + 1);
    WordsFork(first, a, t, Len(a) + 2 + Len(t));
    WordsEnd(a);
    AcceptsFork(first, a, t);
  }

  /** A move from position d of x's code stays within the code or just behind it, and carries the
      words of the one position to words of the other. */
  lemma {:induction false} MoveKept(g: Prog, i: nat, x: Node, d: nat, u: Word, r: nat)
    requires g.Ok() && g.lo <= i && i + Len(x) <= g.hi && d < Len(x)
    requires At(g.strip, i, x) && Valid(x, g.sets)
    requires Move(g, i + d, u, r)
    ensures i <= r <= i + Len(x)
    ensures Carries(Words(x, d), u, Words(x, r - i))
    decreases x, 2
  {
    hide At, Valid, Words, Len, Accepts, Carries, Opening, Closing, ForkOpening, ForkMiddle;
    match x
    case Nil => LenOf();
    case One(op, cs) =>
      LenOf();
      OneParts(g.strip, g.sets, i, op, cs);
      MoveOne(g, i, op, cs, u, r);
    case Cat(a, b) =>
      LenCat(a, b);
      CatParts(g.strip, g.sets, i, a, b);
      MoveCat(g, i, a, b, d, u, r);
    case Wrap(k, a) =>
      LenWrap(k, a);
      WrapParts(g.strip, g.sets, i, k, a);
      if d == 0 || d == Len(a) + 1 { MoveWrapEnds(g, i, k, a, d, u, r); }
      else { MoveWrapBody(g, i, k, a, d - 1, u, r); }
    case Fork(first, a, t) =>
      LenFork(first, a, t);
      ForkParts(g.strip, g.sets, i, first, a, t);
      MoveFork(g, i, first, a, t, d, u, r);
  }

  lemma MoveOne(g: Prog, i: nat, op: Op, cs: set<Byte>, u: Word, r: nat)
    requires g.Ok() && g.lo <= i < g.hi && g.strip[i] == op && OneOk(op, cs, g.sets)
    requires Move(g, i, u, r)
    ensures r == i + 1 && Len(One(op, cs)) == 1
    ensures Carries(Words(One(op, cs), 0), u, Words(One(op, cs), 1))
  {
    assert [] + u == u;
  }

  lemma {:induction false} MoveCat(g: Prog, i: nat, a: Node, b: Node, d: nat, u: Word, r: nat)
    requires g.Ok() && g.lo <= i && i + Len(a) + Len(b) <= g.hi && d < Len(a) + Len(b)
    requires At(g.strip, i, a) && At(g.strip, i + Len(a), b) && Valid(a, g.sets) && Valid(b, g.sets)
    requires Move(g, i + d, u, r)
    ensures i <= r <= i + Len(a) + Len(b)
    ensures Carries(Words(Cat(a, b), d), u, Words(Cat(a, b), r - i))
    decreases Cat(a, b), 0
  {
    hide *;
    if d < Len(a) {
      MoveKept(g, i, a, d, u, r);
      CatLeftCarries(a, b, d, u, r - i);
    } else {
      MoveKept(g, i + Len(a), b, d - Len(a), u, r);
      CatRightCarries(a, b, d - Len(a), u, r - i - Len(a));
    }
  }

  /** The opening of a wrapper leads to its body, the closing back to the opening of a loop. */
  lemma WrapOpens(k: Wrapper, a: Node)
    ensures Words(Wrap(k, a), 0) <= Words(Wrap(k, a), 1)
    ensures k.Quest? ==> Words(Wrap(k, a), 0) <= Words(Wrap(k, a), Len(a) + 1)
  {
    hide Words, Len, Accepts, Concat, AtLeast;
    WordsWrap(k, a, 0);
    WordsWrap(k, a, 1);
    WordsWrap(k, a, Len(a) + 1);
    EntryWords(a);
    WordsEnd(a);
    if k.Plus? {
      var s := AtLeast(Accepts(a), 0);
      ConcatUnit(s);
      ConcatMonotone(s, UNIT, s, Words(a, 0));
    }
  }

  lemma WrapCloses(k: Wrapper, a: Node)
    ensures Words(Wrap(k, a), Len(a) + 1) <= Words(Wrap(k, a), Len(a) + 2)
    ensures k.Plus? ==> Words(Wrap(k, a), Len(a) + 1) <= Words(Wrap(k, a), 0)
  {
    hide Words, Len, Accepts, Concat, AtLeast;
    WordsWrap(k, a, Len(a) + 1);
    WordsWrap(k, a, Len(a) + 2);
    WordsWrap(k, a, 0);
    WordsEnd(a);
    AcceptsWrap(k, a);
    StarAbsorbs(Accepts(a));
    StarIsMany(Accepts(a));
  }

  lemma MoveWrapEnds(g: Prog, i: nat, k: Wrapper, a: Node, d: nat, u: Word, r: nat)
    requires g.Ok() && g.lo <= i && i + Len(a) + 2 <= g.hi && (d == 0 || d == Len(a) + 1)
    requires g.strip[i] == Opening(k, Len(a)) && g.strip[i + 1 + Len(a)] == Closing(k, Len(a))
    requires Move(g, i + d, u, r)
    ensures i <= r <= i + Len(a) + 2
    ensures Carries(Words(Wrap(k, a), d), u, Words(Wrap(k, a), r - i))
  {
    hide Words, Len, Accepts, Move, Opening, Closing, Carries;
    LenWrap(k, a);
    if d == 0 {
      OpeningMove(g, i, k, Len(a), u, r);
      WrapOpens(k, a);
    } else {
      ClosingMove(g, i + d, k, Len(a), u, r);
      WrapCloses(k, a);
    }
    CarriesNothing(Words(Wrap(k, a), d), Words(Wrap(k, a), r - i));
  }

  lemma {:induction false} MoveWrapBody(g: Prog, i: nat, k: Wrapper, a: Node, d: nat, u: Word, r: nat)
    requires g.Ok() && g.lo <= i && i + Len(a) + 2 <= g.hi && d < Len(a)
    requires At(g.strip, i + 1, a) && Valid(a, g.sets)
    requires Move(g, i + 1 + d, u, r)
    ensures i < r <= i + Len(a) + 1
    ensures Carries(Words(Wrap(k, a), d + 1), u, Words(Wrap(k, a), r - i))
    decreases Wrap(k, a), 0
  {
    hide *;
    MoveKept(g, i + 1, a, d, u, r);
    BodyCarries(k, a, d, u, r - i - 1);
  }

  lemma {:induction false} MoveFork(g: Prog, i: nat, first: bool, a: Node, t: Node, d: nat, u: Word, r: nat)
    requires g.Ok() && g.lo <= i && i + Len(a) + 2 + Len(t) <= g.hi && d < Len(a) + 2 + Len(t)
    requires g.strip[i] == ForkOpening(first, Len(a)) && g.strip[i + 1 + Len(a)] == ForkMiddle(first, Len(a))
    requires At(g.strip, i + 1, a) && At(g.strip, i + 2 + Len(a), t)
    requires Valid(a, g.sets) && Valid(t, g.sets) && IsChain(t)
    requires Move(g, i + d, u, r)
    ensures i <= r <= i + Len(a) + 2 + Len(t)
    ensures Carries(Words(Fork(first, a, t), d), u, Words(Fork(first, a, t), r - i))
    decreases Fork(first, a, t), 1
  {
    hide *;
    if d == 0 || d == Len(a) + 1 { MoveForkEnds(g, i, first, a, t, d, u, r); }
    else if d <= Len(a) { MoveForkBranch(g, i, first, a, t, d - 1, u, r); }
    else { MoveForkChain(g, i, first, a, t, d - Len(a) - 2, u, r); }
  }

  lemma MoveForkEnds(g: Prog, i: nat, first: bool, a: Node, t: Node, d: nat, u: Word, r: nat)
    requires g.Ok() && g.lo <= i && i + Len(a) + 2 + Len(t) <= g.hi && (d == 0 || d == Len(a) + 1)
    requires g.strip[i] == ForkOpening(first, Len(a)) && g.strip[i + 1 + Len(a)] == ForkMiddle(first, Len(a))
    requires At(g.strip, i + 2 + Len(a), t) && Valid(t, g.sets) && IsChain(t)
    requires Move(g, i + d, u, r)
    ensures i <= r <= i + Len(a) + 2 + Len(t)
    ensures Carries(Words(Fork(first, a, t), d), u, Words(Fork(first, a, t), r - i))
  {
    hide At, Valid, Move, Words;
    ChainHead(g.strip, i + 2 + Len(a), t);
    if d == 0 {
      ForkOpeningMove(g, i, first, Len(a), u, r);
      ForkOpens(first, a, t);
    } else {
      ForkMiddleMove(g, i + d, first, Len(a), t, u, r);
      BranchEnds(first, a, t);
    }
    CarriesNothing(Words(Fork(first, a, t), d), Words(Fork(first, a, t), r - i));
  }

  lemma {:induction false} MoveForkBranch(g: Prog, i: nat, first: bool, a: Node, t: Node, d: nat, u: Word, r: nat)
    requires g.Ok() && g.lo <= i && i + Len(a) + 2 + Len(t) <= g.hi && d < Len(a)
    requires At(g.strip, i + 1, a) && Valid(a, g.sets)
    requires Move(g, i + 1 + d, u, r)
    ensures i < r <= i + Len(a) + 1
    ensures Carries(Words(Fork(first, a, t), d + 1), u, Words(Fork(first, a, t), r - i))
    decreases Fork(first, a, t), 0
  {
    hide *;
    MoveKept(g, i + 1, a, d, u, r);
    BranchCarries(first, a, t, d, u, r - i - 1);
  }

  lemma {:induction false} MoveForkChain(g: Prog, i: nat, first: bool, a: Node, t: Node, d: nat, u: Word, r: nat)
    requires g.Ok() && g.lo <= i && i + Len(a) + 2 + Len(t) <= g.hi && d < Len(t)
    requires At(g.strip, i + 2 + Len(a), t) && Valid(t, g.sets)
    requires Move(g, i + 2 + Len(a) + d, u, r)
    ensures i + Len(a) + 2 <= r <= i + Len(a) + 2 + Len(t)
    ensures Carries(Words(Fork(first, a, t), Len(a) + 2 + d), u, Words(Fork(first, a, t), r - i))
    decreases Fork(first, a, t), 0
  {
    hide *;
    MoveKept(g, i + 2 + Len(a), t, d, u, r);
    ChainCarries(first, a, t, d, u, r - i - Len(a) - 2);
  }

  lemma MoveStarts(g: Prog, m: nat, u: Word, q: nat)
    requires g.Ok() && Move(g, m, u, q)
    ensures g.lo <= m < g.hi
  {}

  /** A word that leads from the entry of a compiled strip to a position is one of the words the
      node puts there. */
  lemma {:induction false} ReachOnlyWords(g: Prog, x: Node, w: Word, q: nat, n: nat)
    requires g.Ok() && Compiled(g, x)
    requires ReachN(g, 1, w, q, n)
    ensures 1 <= q <= g.hi && w in Words(x, q - 1)
    decreases n
  {
    hide At, Valid, Move, Words;
    if n == 0 {
      EntryWords(x);
    } else {
      var m: nat, k: nat :| k <= |w| && ReachN(g, 1, w[..k], m, n - 1) && Move(g, m, w[k..], q);
      MoveStarts(g, m, w[k..], q);
      ReachOnlyWords(g, x, w[..k], m, n - 1);
      MoveKept(g, 1, x, m - 1, w[k..], q);
      CarriesWord(Words(x, m - 1), w[k..], Words(x, q - 1), w[..k]);
      assert w[..k] + w[k..] == w;
    }
  }

  // ---------- every word of the node has a run ----------

  lemma WrapMoves(g: Prog, i: nat, k: Wrapper, n: nat)
    requires g.Ok() && g.lo <= i && i + n + 2 <= g.hi
    requires g.strip[i] == Opening(k, n) && g.strip[i + 1 + n] == Closing(k, n)
    ensures Move(g, i, [], i + 1) && Move(g, i + 1 + n, [], i + n + 2)
    ensures k.Plus? ==> Move(g, i + 1 + n, [], i)
    ensures k.Quest? ==> Move(g, i, [], i + n + 1)
  {}

  lemma ForkMoves(g: Prog, i: nat, first: bool, a: Node, t: Node)
    requires g.Ok() && g.lo <= i && i + Len(a) + 2 + Len(t) <= g.hi
    requires g.strip[i] == ForkOpening(first, Len(a)) && g.strip[i + 1 + Len(a)] == ForkMiddle(first, Len(a))
    requires At(g.strip, i + 2 + Len(a), t) && Valid(t, g.sets) && IsChain(t)
    ensures Move(g, i, [], i + 1) && Move(g, i, [], i + 2 + Len(a))
    ensures Move(g, i + 1 + Len(a), [], i + 2 + Len(a) + Len(t))
  {
    hide At, Valid, Len;
    ChainHead(g.strip, i + 2 + Len(a), t);
    ChainEnd(g, i + 2 + Len(a), t);
    ForkSteps(g, i, first, Len(a));
  }

  lemma ForkSteps(g: Prog, i: nat, first: bool, n: nat)
    requires g.Ok() && g.lo <= i && i + n + 2 < g.hi
    requires g.strip[i] == ForkOpening(first, n) && g.strip[i + 1 + n] == ForkMiddle(first, n)
             && g.strip[i + 2 + n].OOr2?
    ensures Move(g, i, [], i + 1) && Move(g, i, [], i + 2 + n)
    ensures Move(g, i + 1 + n, [], ChEnd(g, i + 2 + n) + 1)
  {
    assert g.OpOk(i) && g.OpOk(i + 1 + n);
  }

  /** One silent move, then a run. */
  lemma MoveThen(g: Prog, q: nat, m: nat, w: Word, r: nat)
    requires g.Ok() && Move(g, q, [], m) && Reach(g, m, w, r)
    ensures Reach(g, q, w, r)
  {
    ReachRefl(g, q);
    var e: Word := [];
    assert e + e == e;
    ReachMove(g, q, e, q, e, m);
    ReachTrans(g, q, [], m, w, r);
    assert [] + w == w;
  }

  /** A run, then one silent move. */
  lemma ThenMove(g: Prog, q: nat, w: Word, m: nat, r: nat)
    requires g.Ok() && Reach(g, q, w, m) && Move(g, m, [], r)
    ensures Reach(g, q, w, r)
  {
    ReachMove(g, q, w, m, [], r);
    assert w + [] == w;
  }

  /** Every accepted word leads from the entry of the code to its end. */
  lemma {:induction false} AcceptedRuns(g: Prog, i: nat, x: Node, w: Word)
    requires g.Ok() && g.lo <= i && i + Len(x) <= g.hi
    requires At(g.strip, i, x) && Valid(x, g.sets)
    requires w in Accepts(x)
    ensures Reach(g, i, w, i + Len(x))
    decreases x, 1, 0
  {
    hide At, Valid, Reach, Concat, AtLeast, Chars, Accepts, Len;
    match x
    case Nil =>
      LenOf();
      AcceptsSmall();
      ReachRefl(g, i);
    case One(op, cs) =>
      LenOf();
      AcceptsSmall();
      OneParts(g.strip, g.sets, i, op, cs);
      OneRuns(g, i, op, cs, w);
    case Cat(a, b) =>
      LenCat(a, b);
      AcceptsCat(a, b);
      CatParts(g.strip, g.sets, i, a, b);
      CatRuns(g, i, a, b, w);
    case Wrap(k, a) =>
      LenWrap(k, a);
      WrapParts(g.strip, g.sets, i, k, a);
      WrapRuns(g, i, k, a, w);
    case Fork(first, a, t) =>
      LenFork(first, a, t);
      AcceptsFork(first, a, t);
      ForkParts(g.strip, g.sets, i, first, a, t);
      ForkRuns(g, i, first, a, t, w);
  }

  lemma OneRuns(g: Prog, i: nat, op: Op, cs: set<Byte>, w: Word)
    requires g.Ok() && g.lo <= i < g.hi && g.strip[i] == op && OneOk(op, cs, g.sets)
    requires w in Chars(cs)
    ensures Reach(g, i, w, i + 1)
  {
    ReachRefl(g, i);
    ReachMove(g, i, [], i, w, i + 1);
    assert [] + w == w;
  }

  lemma {:induction false} CatRuns(g: Prog, i: nat, a: Node, b: Node, w: Word)
    requires g.Ok() && g.lo <= i && i + Len(a) + Len(b) <= g.hi
    requires At(g.strip, i, a) && At(g.strip, i + Len(a), b) && Valid(a, g.sets) && Valid(b, g.sets)
    requires w in Concat(Accepts(a), Accepts(b))
    ensures Reach(g, i, w, i + Len(a) + Len(b))
    decreases Cat(a, b), 0, 0
  {
    hide *;
    var k := SplitConcat(Accepts(a), Accepts(b), w);
    AcceptedRuns(g, i, a, w[..k]);
    AcceptedRuns(g, i + Len(a), b, w[k..]);
    ReachTrans(g, i, w[..k], i + Len(a), w[k..], i + Len(a) + Len(b));
  }

  lemma {:induction false} WrapRuns(g: Prog, i: nat, k: Wrapper, a: Node, w: Word)
    requires g.Ok() && g.lo <= i && i + Len(a) + 2 <= g.hi
    requires g.strip[i] == Opening(k, Len(a)) && g.strip[i + 1 + Len(a)] == Closing(k, Len(a))
    requires At(g.strip, i + 1, a) && Valid(a, g.sets)
    requires w in Accepts(Wrap(k, a))
    ensures Reach(g, i, w, i + Len(a) + 2)
    decreases Wrap(k, a), 0, 0
  {
    hide At, Valid, Move, Reach, Accepts, Len, Opening, Closing, AtLeast;
    var c := i + 1 + Len(a);
    WrapMoves(g, i, k, Len(a));
    AcceptsWrap(k, a);
    if k.Plus? {
      var n := RoundsOf(Accepts(a), w);
      RoundsRun(g, i, a, n, w);
    } else if w in Accepts(a) {
      AcceptedRuns(g, i + 1, a, w);
      MoveThen(g, i, i + 1, w, c);
    } else {
      ReachRefl(g, c);
      MoveThen(g, i, c, w, c);
    }
    ThenMove(g, i, w, c, c + 1);
  }

  lemma RoundsOf(a: Lang, w: Word) returns (n: nat)
    requires w in AtLeast(a, 1)
    ensures n >= 1 && w in Power(a, n)
  {
    hide Power;
    n :| n >= 1 && w in Power(a, n);
  }

  /** n rounds of a loop lead from its opening to its closing. */
  lemma {:induction false} RoundsRun(g: Prog, i: nat, a: Node, n: nat, w: Word)
    requires g.Ok() && g.lo <= i && i + Len(a) + 2 <= g.hi
    requires Move(g, i, [], i + 1) && Move(g, i + 1 + Len(a), [], i)
    requires At(g.strip, i + 1, a) && Valid(a, g.sets)
    requires n >= 1 && w in Power(Accepts(a), n)
    ensures Reach(g, i, w, i + 1 + Len(a))
    decreases a, 2, n
  {
    hide At, Valid, Move, Reach, Accepts, Len, Concat;
    var c := i + 1 + Len(a);
    var k := SplitConcat(Power(Accepts(a), n - 1), Accepts(a), w);
    AcceptedRuns(g, i + 1, a, w[k..]);
    MoveThen(g, i, i + 1, w[k..], c);
    if n == 1 {
      assert w[..k] == [];
      assert w[k..] == w;
    } else {
      RoundsRun(g, i, a, n - 1, w[..k]);
      ThenMove(g, i, w[..k], c, i);
      ReachTrans(g, i, w[..k], i, w[k..], c);
    }
  }

  lemma {:induction false} ForkRuns(g: Prog, i: nat, first: bool, a: Node, t: Node, w: Word)
    requires g.Ok() && g.lo <= i && i + Len(a) + 2 + Len(t) <= g.hi
    requires g.strip[i] == ForkOpening(first, Len(a)) && g.strip[i + 1 + Len(a)] == ForkMiddle(first, Len(a))
    requires At(g.strip, i + 1, a) && At(g.strip, i + 2 + Len(a), t)
    requires Valid(a, g.sets) && Valid(t, g.sets) && IsChain(t)
    requires w in Accepts(a) + Accepts(t)
    ensures Reach(g, i, w, i + Len(a) + 2 + Len(t))
    decreases Fork(first, a, t), 0, 0
  {
    hide At, Valid, Move, Reach, Accepts;
    var e := i + Len(a) + 2 + Len(t);
    ForkMoves(g, i, first, a, t);
    if w in Accepts(a) {
      AcceptedRuns(g, i + 1, a, w);
      ThenMove(g, i + 1, w, i + 1 + Len(a), e);
      MoveThen(g, i, i + 1, w, e);
    } else {
      AcceptedRuns(g, i + 2 + Len(a), t, w);
      MoveThen(g, i, i + 2 + Len(a), w, e);
    }
  }

  /** The strip accepts exactly the words of the node it was compiled from. */
  lemma RunsAreAccepted(g: Prog, x: Node, w: Word)
    requires g.Ok() && Compiled(g, x)
    ensures Reach(g, g.lo, w, g.hi) <==> w in Accepts(x)
  {
    hide At, Valid, Words, Accepts, Reach, Len;
    CompiledEnds(g, x);
    if Reach(g, g.lo, w, g.hi) {
      var n := ReachCount(g, g.lo, w, g.hi);
      ReachOnlyWords(g, x, w, g.hi, n);
    }
    if w in Accepts(x) {
      AcceptedRuns(g, 1, x, w);
    }
  }

  lemma ReachCount(g: Prog, q: nat, w: Word, r: nat) returns (n: nat)
    requires g.Ok() && Reach(g, q, w, r)
    ensures ReachN(g, q, w, r, n)
  {
    hide ReachN;
    n :| ReachN(g, q, w, r, n);
  }

  lemma CompiledEnds(g: Prog, x: Node)
    requires Compiled(g, x)
    ensures Words(x, g.hi - 1) == Accepts(x)
  {
    hide At, Valid, Words, Accepts, Len;
    WordsEnd(x);
  }
}
