/** The shapes of code the compiler emits and the words each shape accepts. */
module Node {
  import opened Strip
  import opened Language

  /** The operator pairs that enclose one piece of code. Last is the final branch of an
      alternation. */
  datatype Wrapper = Plus | Quest | Group(sub: nat) | Last

  /** A Fork holds one branch of an alternation and the chain of the branches after it; the first
      Fork of an alternation opens with OCH_, the others with OOR2, and the chain ends in a
      Wrap(Last, _). A One carries both the operator and the characters it stands for. */
  datatype Node =
    | Nil
    | One(op: Op, chars: set<Byte>)
    | Cat(left: Node, right: Node)
    | Wrap(kind: Wrapper, body: Node)
    | Fork(first: bool, branch: Node, chain: Node)

  predicate IsChain(x: Node) {
    (x.Wrap? && x.kind.Last?) || (x.Fork? && !x.first)
  }

  predicate IsLoop(x: Node) {
    x.Wrap? && x.kind.Plus?
  }

  /** The operator stands for exactly these characters. */
  ghost predicate OneOk(op: Op, cs: set<Byte>, sets: seq<CSet>) {
    && IsConsuming(op)
    && (op.OAnyOf? ==> op.index < |sets|)
    && (forall c: Byte :: c in cs <==> Consumes(sets, op, c))
  }

  /** Chains occur only as the second part of a Fork, a Quest encloses a loop, and every One agrees
      with the set table. */
  ghost predicate Valid(x: Node, sets: seq<CSet>) {
    match x
    case Nil => true
    case One(op, cs) => OneOk(op, cs, sets)
    case Cat(a, b) => Valid(a, sets) && Valid(b, sets) && !IsChain(a) && !IsChain(b)
    case Wrap(k, a) => Valid(a, sets) && !IsChain(a) && (k.Quest? ==> IsLoop(a))
    case Fork(_, a, t) => Valid(a, sets) && Valid(t, sets) && !IsChain(a) && IsChain(t)
  }

  /** Length of the code. */
  function Len(x: Node): nat {
    match x
    case Nil => 0
    case One(_, _) => 1
    case Cat(a, b) => Len(a) + Len(b)
    case Wrap(_, a) => Len(a) + 2
    case Fork(_, a, t) => Len(a) + 2 + Len(t)
  }

  /** The operator in front of a piece of code of length n. */
  function Opening(k: Wrapper, n: nat): Op {
    match k
    case Plus => OPlus_(n + 1)
    case Quest => OQuest_(n + 1)
    case Group(sub) => OLParen(sub)
    case Last => OOr2(n + 1)
  }

  /** The operator behind it. The O_CH of a last branch points back to the OOR1 in front of that
      branch's OOR2. */
  function Closing(k: Wrapper, n: nat): Op {
    match k
    case Plus => O_Plus(n + 1)
    case Quest => O_Quest(n + 1)
    case Group(sub) => ORParen(sub)
    case Last => O_Ch(n + 2)
  }

  function ForkOpening(first: bool, n: nat): Op {
    if first then OCh_(n + 2) else OOr2(n + 2)
  }

  /** The OOR1 of the first branch points back to the OCH_, a later one to the OOR1 before it. */
  function ForkMiddle(first: bool, n: nat): Op {
    if first then OOr1(n + 1) else OOr1(n + 2)
  }

  function Code(x: Node): (s: seq<Op>)
    ensures |s| == Len(x)
  {
    match x
    case Nil => []
    case One(op, _) => [op]
    case Cat(a, b) => Code(a) + Code(b)
    case Wrap(k, a) => [Opening(k, Len(a))] + Code(a) + [Closing(k, Len(a))]
    case Fork(first, a, t) =>
      [ForkOpening(first, Len(a))] + Code(a) + [ForkMiddle(first, Len(a))] + Code(t)
  }

  /** The code of x stands at position i of the strip. */
  predicate At(s: seq<Op>, i: nat, x: Node)
    decreases x
  {
    i + Len(x) <= |s| &&
    match x
    case Nil => true
    case One(op, _) => s[i] == op
    case Cat(a, b) => At(s, i, a) && At(s, i + Len(a), b)
    case Wrap(k, a) =>
      s[i] == Opening(k, Len(a)) && At(s, i + 1, a) && s[i + 1 + Len(a)] == Closing(k, Len(a))
    case Fork(first, a, t) =>
      && s[i] == ForkOpening(first, Len(a)) && At(s, i + 1, a)
      && s[i + 1 + Len(a)] == ForkMiddle(first, Len(a)) && At(s, i + 2 + Len(a), t)
  }

  // ---------- one shape at a time ----------

  lemma LenOf()
    ensures Len(Nil) == 0
    ensures forall op: Op, cs: set<Byte> :: Len(One(op, cs)) == 1
  {}

  lemma LenCat(a: Node, b: Node)
    ensures Len(Cat(a, b)) == Len(a) + Len(b)
  {}

  lemma LenWrap(k: Wrapper, a: Node)
    ensures Len(Wrap(k, a)) == Len(a) + 2
  {}

  lemma LenFork(first: bool, a: Node, t: Node)
    ensures Len(Fork(first, a, t)) == Len(a) + 2 + Len(t)
  {}

  lemma CodeCat(a: Node, b: Node)
    ensures Code(Cat(a, b)) == Code(a) + Code(b)
  {
    hide Len;
  }

  lemma CodeWrap(k: Wrapper, a: Node)
    ensures Code(Wrap(k, a)) == [Opening(k, Len(a))] + Code(a) + [Closing(k, Len(a))]
  {
    hide Len, Opening, Closing;
  }

  lemma CodeFork(first: bool, a: Node, t: Node)
    ensures Code(Fork(first, a, t)) == [ForkOpening(first, Len(a))] + Code(a) + [ForkMiddle(first, Len(a))] + Code(t)
  {
    hide Len, ForkOpening, ForkMiddle;
  }

  lemma AtCat(s: seq<Op>, i: nat, a: Node, b: Node)
    ensures At(s, i, Cat(a, b)) <==> i + Len(a) + Len(b) <= |s| && At(s, i, a) && At(s, i + Len(a), b)
  {
    hide Len;
    LenCat(a, b);
  }

  lemma AtWrap(s: seq<Op>, i: nat, k: Wrapper, a: Node)
    ensures At(s, i, Wrap(k, a)) <==>
            && i + Len(a) + 2 <= |s| && s[i] == Opening(k, Len(a)) && At(s, i + 1, a)
            && s[i + 1 + Len(a)] == Closing(k, Len(a))
  {
    hide Len, Opening, Closing;
    LenWrap(k, a);
  }

  lemma AtFork(s: seq<Op>, i: nat, first: bool, a: Node, t: Node)
    ensures At(s, i, Fork(first, a, t)) <==>
            && i + Len(a) + 2 + Len(t) <= |s| && s[i] == ForkOpening(first, Len(a)) && At(s, i + 1, a)
            && s[i + 1 + Len(a)] == ForkMiddle(first, Len(a)) && At(s, i + 2 + Len(a), t)
  {
    hide Len, ForkOpening, ForkMiddle;
    LenFork(first, a, t);
  }

  lemma AtFits(s: seq<Op>, i: nat, x: Node)
    requires At(s, i, x)
    ensures i + Len(x) <= |s|
  {
    hide Len;
  }

  lemma ValidCat(a: Node, b: Node, sets: seq<CSet>)
    ensures Valid(Cat(a, b), sets) <==> Valid(a, sets) && Valid(b, sets) && !IsChain(a) && !IsChain(b)
  {
    hide IsChain, OneOk;
  }

  lemma ValidWrap(k: Wrapper, a: Node, sets: seq<CSet>)
    ensures Valid(Wrap(k, a), sets) <==> Valid(a, sets) && !IsChain(a) && (k.Quest? ==> IsLoop(a))
  {
    hide IsChain, IsLoop, OneOk;
  }

  lemma ValidFork(first: bool, a: Node, t: Node, sets: seq<CSet>)
    ensures Valid(Fork(first, a, t), sets) <==> Valid(a, sets) && Valid(t, sets) && !IsChain(a) && IsChain(t)
  {
    hide IsChain, OneOk;
  }

  lemma OneParts(s: seq<Op>, sets: seq<CSet>, i: nat, op: Op, cs: set<Byte>)
    requires At(s, i, One(op, cs)) && Valid(One(op, cs), sets)
    ensures i < |s| && s[i] == op && OneOk(op, cs, sets)
  {
    hide OneOk;
  }

  lemma CatParts(s: seq<Op>, sets: seq<CSet>, i: nat, a: Node, b: Node)
    requires At(s, i, Cat(a, b)) && Valid(Cat(a, b), sets)
    ensures At(s, i, a) && At(s, i + Len(a), b) && Valid(a, sets) && Valid(b, sets)
  {
    hide At, Valid, Len;
    AtCat(s, i, a, b);
    ValidCat(a, b, sets);
  }

  /** Everything a placed and valid Wrap says about its parts. */
  lemma WrapParts(s: seq<Op>, sets: seq<CSet>, i: nat, k: Wrapper, a: Node)
    requires At(s, i, Wrap(k, a)) && Valid(Wrap(k, a), sets)
    ensures i + 2 + Len(a) <= |s|
    ensures s[i] == Opening(k, Len(a)) && s[i + 1 + Len(a)] == Closing(k, Len(a))
    ensures At(s, i + 1, a) && Valid(a, sets)
  {
    hide At, Valid, Len, Opening, Closing;
    AtWrap(s, i, k, a);
    ValidWrap(k, a, sets);
  }

  /** Everything a placed and valid Fork says about its parts. */
  lemma ForkParts(s: seq<Op>, sets: seq<CSet>, i: nat, first: bool, a: Node, t: Node)
    requires At(s, i, Fork(first, a, t)) && Valid(Fork(first, a, t), sets)
    ensures i + 2 + Len(a) + Len(t) <= |s|
    ensures s[i] == ForkOpening(first, Len(a)) && s[i + 1 + Len(a)] == ForkMiddle(first, Len(a))
    ensures At(s, i + 1, a) && At(s, i + 2 + Len(a), t)
    ensures Valid(a, sets) && Valid(t, sets) && IsChain(t)
  {
    hide At, Valid, Len, ForkOpening, ForkMiddle, IsChain;
    AtFork(s, i, first, a, t);
    ValidFork(first, a, t, sets);
  }

  /** The operators from i on agree with c. */
  predicate Holds(s: seq<Op>, i: nat, c: seq<Op>) {
    i + |c| <= |s| && forall k :: 0 <= k < |c| ==> s[i + k] == c[k]
  }

  lemma HoldsParts(s: seq<Op>, i: nat, a: seq<Op>, b: seq<Op>)
    requires Holds(s, i, a + b)
    ensures Holds(s, i, a) && Holds(s, i + |a|, b)
  {
    assert forall k :: 0 <= k < |a| ==> (a + b)[k] == a[k];
    forall k | 0 <= k < |b| ensures s[i + |a| + k] == b[k] {
      assert (a + b)[|a| + k] == b[k];
      assert s[i + (|a| + k)] == (a + b)[|a| + k];
    }
  }

  lemma HoldsFrame(s: seq<Op>, i: nat, p: Op, a: seq<Op>, q: Op)
    requires Holds(s, i, [p] + a + [q])
    ensures i + 2 + |a| <= |s|
    ensures s[i] == p && Holds(s, i + 1, a) && s[i + 1 + |a|] == q
  {
    HoldsParts(s, i, [p] + a, [q]);
    HoldsParts(s, i, [p], a);
    assert [p][0] == p && [q][0] == q;
    assert s[i + 0] == p && s[i + |[p] + a| + 0] == q;
  }

  lemma {:induction false} CodeIsAt(s: seq<Op>, i: nat, x: Node)
    requires Holds(s, i, Code(x))
    ensures At(s, i, x)
    decreases x
  {
    hide At, Holds, Code, Len, Opening, Closing, ForkOpening, ForkMiddle;
    match x
    case Nil => SmallIsAt(s, i, x);
    case One(_, _) => SmallIsAt(s, i, x);
    case Cat(a, b) =>
      CodeCat(a, b);
      HoldsParts(s, i, Code(a), Code(b));
      CodeIsAt(s, i, a);
      CodeIsAt(s, i + Len(a), b);
      AtFits(s, i + Len(a), b);
      AtCat(s, i, a, b);
    case Wrap(k, a) =>
      CodeWrap(k, a);
      HoldsFrame(s, i, Opening(k, Len(a)), Code(a), Closing(k, Len(a)));
      CodeIsAt(s, i + 1, a);
      AtWrap(s, i, k, a);
    case Fork(first, a, t) =>
      CodeFork(first, a, t);
      HoldsParts(s, i, [ForkOpening(first, Len(a))] + Code(a) + [ForkMiddle(first, Len(a))], Code(t));
      HoldsFrame(s, i, ForkOpening(first, Len(a)), Code(a), ForkMiddle(first, Len(a)));
      CodeIsAt(s, i + 1, a);
      CodeIsAt(s, i + 2 + Len(a), t);
      AtFits(s, i + 2 + Len(a), t);
      AtFork(s, i, first, a, t);
  }

  lemma SmallIsAt(s: seq<Op>, i: nat, x: Node)
    requires Holds(s, i, Code(x)) && (x.Nil? || x.One?)
    ensures At(s, i, x)
  {
    if x.One? {
      assert Code(x)[0] == x.op;
      assert s[i + 0] == x.op;
    }
  }

  // ---------- the words a node accepts ----------

  ghost function Accepts(x: Node): Lang {
    match x
    case Nil => UNIT
    case One(_, cs) => Chars(cs)
    case Cat(a, b) => Concat(Accepts(a), Accepts(b))
    case Wrap(k, a) =>
      if k.Plus? then AtLeast(Accepts(a), 1) else if k.Quest? then UNIT + Accepts(a) else Accepts(a)
    case Fork(_, a, t) => Accepts(a) + Accepts(t)
  }

  /** The words that lead from the entry of x's code to the position d inside it. At d == Len(x)
      the code has been left. */
  ghost function Words(x: Node, d: nat): Lang
    requires d <= Len(x)
    decreases x
  {
    if d == Len(x) then Accepts(x)
    else
      match x
      case One(_, _) => UNIT
      case Cat(a, b) =>
        if d < Len(a) then Words(a, d) else Concat(Accepts(a), Words(b, d - Len(a)))
      case Wrap(k, a) =>
        if k.Plus? then
          if d == 0 then AtLeast(Accepts(a), 0) else Concat(AtLeast(Accepts(a), 0), Words(a, d - 1))
        else if d == 0 then UNIT
        else if k.Quest? && d == Len(a) + 1 then UNIT + Accepts(a)
        else Words(a, d - 1)
      case Fork(_, a, t) =>
        if d == 0 then UNIT
        else if d < Len(a) + 2 then Words(a, d - 1)
        else Words(t, d - Len(a) - 2)
  }

  lemma WordsSmall(x: Node)
    requires x.Nil? || x.One?
    ensures Words(x, 0) == UNIT
  {}

  lemma WordsEnd(x: Node)
    ensures Words(x, Len(x)) == Accepts(x)
  {
    hide Accepts, Len, Concat, AtLeast;
  }

  lemma AcceptsSmall()
    ensures Accepts(Nil) == UNIT
    ensures forall op: Op, cs: set<Byte> :: Accepts(One(op, cs)) == Chars(cs)
  {}

  lemma AcceptsCat(a: Node, b: Node)
    ensures Accepts(Cat(a, b)) == Concat(Accepts(a), Accepts(b))
  {
    hide Concat, AtLeast;
  }

  lemma AcceptsWrap(k: Wrapper, a: Node)
    ensures Accepts(Wrap(k, a)) ==
            if k.Plus? then AtLeast(Accepts(a), 1) else if k.Quest? then UNIT + Accepts(a) else Accepts(a)
  {
    hide Concat, AtLeast;
  }

  lemma AcceptsFork(first: bool, a: Node, t: Node)
    ensures Accepts(Fork(first, a, t)) == Accepts(a) + Accepts(t)
  {
    hide Concat, AtLeast;
  }

  lemma WordsCat(a: Node, b: Node, d: nat)
    requires d <= Len(a) + Len(b)
    ensures d <= Len(Cat(a, b))
    ensures Words(Cat(a, b), d) == if d < Len(a) then Words(a, d) else Concat(Accepts(a), Words(b, d - Len(a)))
  {
    hide Len, Accepts, Concat, AtLeast;
    LenCat(a, b);
    AcceptsCat(a, b);
    if d == Len(a) + Len(b) { WordsEnd(b); }
  }

  lemma WordsWrap(k: Wrapper, a: Node, d: nat)
    requires d <= Len(a) + 2
    ensures d <= Len(Wrap(k, a))
    ensures Words(Wrap(k, a), d) ==
            if d == Len(a) + 2 then Accepts(Wrap(k, a))
            else if k.Plus? then
              if d == 0 then AtLeast(Accepts(a), 0) else Concat(AtLeast(Accepts(a), 0), Words(a, d - 1))
            else if d == 0 then UNIT
            else if k.Quest? && d == Len(a) + 1 then UNIT + Accepts(a)
            else Words(a, d - 1)
  {
    hide Len, Accepts, Concat, AtLeast;
    LenWrap(k, a);
  }

  lemma WordsFork(first: bool, a: Node, t: Node, d: nat)
    requires d <= Len(a) + 2 + Len(t)
    ensures d <= Len(Fork(first, a, t))
    ensures Words(Fork(first, a, t), d) ==
            if d == Len(a) + 2 + Len(t) then Accepts(Fork(first, a, t))
            else if d == 0 then UNIT
            else if d < Len(a) + 2 then Words(a, d - 1)
            else Words(t, d - Len(a) - 2)
  {
    hide Len, Accepts, Concat, AtLeast;
    LenFork(first, a, t);
  }
}
