/** Every match contains the mandatory literal, and no later than its offset says. */
module MustSound {
  import opened Strip
  import opened Language
  import opened Node
  import opened Runs
  import opened BoyerMoore
  import opened Must

  /** No word of l is longer than n. */
  ghost predicate Bounded(l: Lang, n: int) {
    forall w: Word :: w in l ==> |w| <= n
  }

  lemma BoundedConcat(a: Lang, b: Lang, m: int, n: int)
    requires Bounded(a, m) && Bounded(b, n)
    ensures Bounded(Concat(a, b), m + n)
  {
    forall w: Word | w in Concat(a, b) ensures |w| <= m + n {
      var k := SplitConcat(a, b, w);
    }
  }

  /** The links of a chain end at its last operator. */
  lemma {:induction false} SkipChain(g: Prog, i: nat, t: Node)
    requires g.Ok() && g.lo <= i && i + Len(t) <= g.hi
    requires At(g.strip, i, t) && Valid(t, g.sets) && IsChain(t)
    ensures Len(t) >= 2 && g.strip[i].OOr2? && g.strip[i + Len(t) - 1].O_Ch? && SkipEnd(g, i) == i + Len(t) - 1
    decreases t
  {
    hide At, Valid, Len;
    match t
    case Wrap(k, a) =>
      LenWrap(k, a);
      WrapParts(g.strip, g.sets, i, k, a);
      SkipLast(g, i, Len(a));
    case Fork(first, a, u) =>
      LenFork(first, a, u);
      ForkParts(g.strip, g.sets, i, first, a, u);
      SkipChain(g, i + 2 + Len(a), u);
      SkipLink(g, i, first, Len(a));
  }

  lemma SkipLast(g: Prog, i: nat, n: nat)
    requires g.Ok() && g.lo <= i && i + n + 2 <= g.hi
    requires g.strip[i] == Opening(Last, n) && g.strip[i + 1 + n] == Closing(Last, n)
    ensures SkipEnd(g, i) == i + 1 + n
  {
    assert g.OpOk(i);
  }

  lemma SkipLink(g: Prog, i: nat, first: bool, n: nat)
    requires g.Ok() && g.lo <= i && i + n + 2 < g.hi
    requires g.strip[i] == ForkOpening(first, n) && g.strip[i + n + 2].OOr2?
    ensures SkipEnd(g, i) == SkipEnd(g, i + n + 2)
  {
    assert g.OpOk(i);
  }

  lemma SkipFork(g: Prog, i: nat, a: Node, t: Node)
    requires g.Ok() && g.lo <= i && i + Len(a) + 2 + Len(t) <= g.hi
    requires g.strip[i] == ForkOpening(true, Len(a))
    requires At(g.strip, i + 2 + Len(a), t) && Valid(t, g.sets) && IsChain(t)
    ensures SkipEnd(g, i) == i + Len(a) + 1 + Len(t) && Len(t) >= 2
    ensures g.strip[i + Len(a) + 1 + Len(t)].O_Ch?
  {
    hide At, Valid, Len;
    SkipChain(g, i + 2 + Len(a), t);
    SkipLink(g, i, true, Len(a));
  }

  // ---------- the longest word of a choice ----------

  function Wider(a: int, b: int): int {
    if a == -1 || b == -1 then -1 else Max(a, b)
  }

  /** The most characters a word can have; -1 for a loop, which puts no limit on them. */
  function Width(x: Node): (r: int)
    ensures r >= -1
  {
    match x
    case Nil => 0
    case One(_, _) => 1
    case Cat(a, b) => Sum(Width(a), Width(b))
    case Wrap(k, a) => if k.Plus? || k.Quest? then -1 else Width(a)
    case Fork(_, a, t) => Wider(Width(a), Width(t))
  }

  lemma {:induction false} WidthBounds(x: Node)
    requires Width(x) != -1
    ensures Bounded(Accepts(x), Width(x))
  {
    hide Concat, Accepts, Chars, AtLeast, Bounded;
    match x
    case Nil =>
      AcceptsSmall();
      UnitBounded();
    case One(op, cs) =>
      AcceptsSmall();
      CharsBounded(cs);
    case Cat(a, b) =>
      AcceptsCat(a, b);
      WidthBounds(a);
      WidthBounds(b);
      BoundedConcat(Accepts(a), Accepts(b), Width(a), Width(b));
    case Wrap(k, a) =>
      AcceptsWrap(k, a);
      WidthBounds(a);
    case Fork(first, a, t) =>
      AcceptsFork(first, a, t);
      WidthBounds(a);
      WidthBounds(t);
      BoundedUnion(Accepts(a), Accepts(t), Width(a), Width(t));
  }

  lemma BoundedUnion(a: Lang, b: Lang, m: int, n: int)
    requires Bounded(a, m) && Bounded(b, n)
    ensures Bounded(a + b, Max(m, n))
  {}

  /** Every operator stands for some character. */
  predicate AllLive(x: Node) {
    match x
    case Nil => true
    case One(_, cs) => cs != {}
    case Cat(a, b) => AllLive(a) && AllLive(b)
    case Wrap(_, a) => AllLive(a)
    case Fork(_, a, t) => AllLive(a) && AllLive(t)
  }

  /** There is a word of that length. */
  lemma {:induction false} WidthReached(x: Node) returns (w: Word)
    requires Width(x) != -1 && AllLive(x)
    ensures w in Accepts(x) && |w| == Width(x)
  {
    hide Concat, AtLeast, Splits;
    match x
    case Nil => w := [];
    case One(_, cs) =>
      var c :| c in cs;
      w := [c];
    case Cat(a, b) =>
      var u := WidthReached(a);
      var v := WidthReached(b);
      InConcat(Accepts(a), Accepts(b), u, v);
      w := u + v;
    case Wrap(_, a) => w := WidthReached(a);
    case Fork(_, a, t) =>
      var u := WidthReached(a);
      var v := WidthReached(t);
      w := if Width(a) > Width(t) then u else v;
  }

  /** Scanning the code of x inside a branch adds its width. */
  lemma {:induction false} AltBlock(g: Prog, i: nat, x: Node, largest: nat, try: nat)
    requires g.Ok() && g.lo <= i && i + Len(x) <= g.hi
    requires At(g.strip, i, x) && Valid(x, g.sets) && !IsChain(x)
    ensures AltScan(g, i, largest, try) ==
            if Width(x) == -1 then -1 else AltScan(g, i + Len(x), largest, try + Width(x))
    decreases x, 2
  {
    hide At, Valid, AltScan, Len;
    match x
    case Nil => LenOf();
    case One(op, cs) =>
      LenOf();
      OneParts(g.strip, g.sets, i, op, cs);
      AltOne(g, i, op, largest, try);
    case Cat(a, b) =>
      LenCat(a, b);
      CatParts(g.strip, g.sets, i, a, b);
      CatShapes(a, b, g.sets);
      AltBlock(g, i, a, largest, try);
      if Width(a) != -1 { AltBlock(g, i + Len(a), b, largest, try + Width(a)); }
    case Wrap(k, a) =>
      LenWrap(k, a);
      WrapParts(g.strip, g.sets, i, k, a);
      WrapShapes(k, a, g.sets);
      if k.Group? {
        AltGroup(g, i, k, a, largest, try);
        AltBlock(g, i + 1, a, largest, try);
        if Width(a) != -1 { AltGroup(g, i, k, a, largest, try + Width(a)); }
      } else {
        if k.Quest? {
          LenWrap(Plus, a.body);
          WrapParts(g.strip, g.sets, i + 1, Plus, a.body);
        }
        AltLoop(g, i, k, a, largest, try);
      }
    case Fork(first, a, t) =>
      LenFork(first, a, t);
      ForkParts(g.strip, g.sets, i, first, a, t);
      ForkShapes(first, a, t, g.sets);
      AltFork(g, i, a, t, largest, try);
  }

  lemma UnitBounded()
    ensures Bounded(UNIT, 0)
  {}

  lemma CatShapes(a: Node, b: Node, sets: seq<CSet>)
    requires Valid(Cat(a, b), sets)
    ensures !IsChain(a) && !IsChain(b)
  {}

  lemma WrapShapes(k: Wrapper, a: Node, sets: seq<CSet>)
    requires Valid(Wrap(k, a), sets)
    ensures !IsChain(a) && (k.Quest? ==> a.Wrap? && a == Wrap(Plus, a.body))
  {}

  lemma ForkShapes(first: bool, a: Node, t: Node, sets: seq<CSet>)
    requires Valid(Fork(first, a, t), sets)
    ensures !IsChain(a)
  {}

  lemma AltOne(g: Prog, i: nat, op: Op, largest: nat, try: nat)
    requires g.Ok() && g.lo <= i < g.hi && g.strip[i] == op && IsConsuming(op)
    ensures AltScan(g, i, largest, try) == AltScan(g, i + 1, largest, try + 1)
  {}

  lemma AltGroup(g: Prog, i: nat, k: Wrapper, a: Node, largest: nat, try: nat)
    requires g.Ok() && g.lo <= i && i + Len(a) + 2 <= g.hi && k.Group?
    requires g.strip[i] == Opening(k, Len(a)) && g.strip[i + 1 + Len(a)] == Closing(k, Len(a))
    ensures AltScan(g, i, largest, try) == AltScan(g, i + 1, largest, try)
    ensures AltScan(g, i + 1 + Len(a), largest, try) == AltScan(g, i + Len(a) + 2, largest, try)
  {}

  lemma AltLoop(g: Prog, i: nat, k: Wrapper, a: Node, largest: nat, try: nat)
    requires g.Ok() && g.lo <= i && i + Len(a) + 2 <= g.hi
    requires g.strip[i] == Opening(k, Len(a))
    requires k.Plus? || (k.Quest? && Len(a) >= 1 && g.strip[i + 1].OPlus_?)
    ensures AltScan(g, i, largest, try) == -1
  {
    if k.Quest? {
      assert AltScan(g, i + 1, 0, 0) == -1;
      assert AltOffset(g, i + 1, try) == -1;
      assert AltScan(g, i, largest, try) == AltInner(g, i, largest, try);
    }
  }

  /** One alternation inside another: the offset so far plus the longest of its branches. */
  lemma {:induction false} AltFork(g: Prog, i: nat, a: Node, t: Node, largest: nat, try: nat)
    requires g.Ok() && g.lo <= i && i + Len(a) + 2 + Len(t) <= g.hi
    requires g.strip[i] == ForkOpening(true, Len(a)) && g.strip[i + 1 + Len(a)] == ForkMiddle(true, Len(a))
    requires At(g.strip, i + 1, a) && At(g.strip, i + 2 + Len(a), t)
    requires Valid(a, g.sets) && Valid(t, g.sets) && IsChain(t) && !IsChain(a)
    ensures var n := Wider(Width(a), Width(t));
      AltScan(g, i, largest, try) == if n == -1 then -1 else AltScan(g, i + Len(a) + 2 + Len(t), largest, try + n)
    decreases Fork(true, a, t), 1
  {
    hide At, Valid, Len, Width;
    SkipFork(g, i, a, t);
    AltBranches(g, i, a, t);
    var n := Wider(Width(a), Width(t));
    assert AltOffset(g, i + 1, try) == if n == -1 then -1 else n + try;
    assert AltScan(g, i, largest, try) == AltInner(g, i, largest, try);
  }

  /** What altoffset computes for an alternation is the width of the widest of its branches. */
  lemma {:induction false} AltBranches(g: Prog, i: nat, a: Node, t: Node)
    requires g.Ok() && g.lo <= i && i + Len(a) + 2 + Len(t) <= g.hi
    requires g.strip[i + 1 + Len(a)].OOr1?
    requires At(g.strip, i + 1, a) && At(g.strip, i + 2 + Len(a), t)
    requires Valid(a, g.sets) && Valid(t, g.sets) && IsChain(t) && !IsChain(a)
    ensures AltScan(g, i + 1, 0, 0) == Wider(Width(a), Width(t))
    decreases Fork(true, a, t), 0
  {
    hide At, Valid, Len, AltScan, Width;
    AltBlock(g, i + 1, a, 0, 0);
    if Width(a) != -1 {
      AltMiddle(g, i + 1 + Len(a), 0, Width(a));
      AltChain(g, i + 2 + Len(a), t, Width(a));
    }
  }

  lemma AltMiddle(g: Prog, j: nat, largest: nat, try: nat)
    requires g.Ok() && g.lo <= j < g.hi && g.strip[j].OOr1?
    ensures AltScan(g, j, largest, try) == AltScan(g, j + 1, Max(try, largest), 0)
  {}

  lemma AltChainStart(g: Prog, j: nat, largest: nat)
    requires g.Ok() && g.lo <= j < g.hi && g.strip[j].OOr2?
    ensures AltScan(g, j, largest, 0) == AltScan(g, j + 1, largest, 0)
  {}

  lemma AltChainStop(g: Prog, j: nat, largest: nat, try: nat)
    requires g.Ok() && g.lo <= j < g.hi && g.strip[j].O_Ch?
    ensures AltScan(g, j, largest, try) == Max(try, largest)
  {}

  lemma {:induction false} AltChain(g: Prog, i: nat, t: Node, largest: nat)
    requires g.Ok() && g.lo <= i && i + Len(t) <= g.hi
    requires At(g.strip, i, t) && Valid(t, g.sets) && IsChain(t)
    ensures AltScan(g, i, largest, 0) == Wider(largest, Width(t))
    decreases t, 3
  {
    hide At, Valid, AltScan, Len;
    match t
    case Wrap(k, a) =>
      LenWrap(k, a);
      WrapParts(g.strip, g.sets, i, k, a);
      WrapShapes(k, a, g.sets);
      AltChainStart(g, i, largest);
      AltBlock(g, i + 1, a, largest, 0);
      if Width(a) != -1 { AltChainStop(g, i + 1 + Len(a), largest, Width(a)); }
    case Fork(first, a, u) =>
      LenFork(first, a, u);
      ForkParts(g.strip, g.sets, i, first, a, u);
      ForkShapes(first, a, u, g.sets);
      AltChainStart(g, i, largest);
      AltBlock(g, i + 1, a, largest, 0);
      if Width(a) != -1 {
        AltMiddle(g, i + 1 + Len(a), largest, Width(a));
        AltChain(g, i + 2 + Len(a), u, Max(Width(a), largest));
      }
  }

  // ---------- the scan of findmust ----------

  ghost predicate Ends(w: Word, run: Word) {
    |run| <= |w| && w[|w| - |run|..] == run
  }

  /** w contains must, starting at bound at the latest unless bound is -1. */
  ghost predicate Has(w: Word, must: Word, bound: int) {
    exists k: nat :: (bound > -1 ==> k <= bound) && OccursAt(must, w, k)
  }

  /** The words x, which lead to pc, agree with what the scan has found out so far. */
  ghost predicate Agrees(g: Prog, pc: nat, s: Scan, x: Lang)
    requires pc <= |g.strip|
  {
    && s.offset >= -1 && s.moffset >= -1 && (s.offset > -1 ==> s.moffset > -1)
    && (s.newlen > 0 ==> s.newstart <= pc && |RunOf(g, s.newstart, pc)| == s.newlen
                         && forall w: Word :: w in x ==> Ends(w, RunOf(g, s.newstart, pc)))
    && (s.mlen > 0 ==> |Gather(g, s.start, s.mlen)| == s.mlen
                       && forall w: Word :: w in x ==> Has(w, Gather(g, s.start, s.mlen), s.moffset))
    && (s.offset > -1 ==> Bounded(x, s.moffset + s.offset + s.newlen))
  }

  lemma HasLonger(u: Word, v: Word, must: Word, bound: int)
    requires Has(u, must, bound)
    ensures Has(u + v, must, bound)
  {
    var k: nat :| (bound > -1 ==> k <= bound) && OccursAt(must, u, k);
    assert OccursAt(must, u + v, k);
  }

  lemma HasLater(w: Word, must: Word, bound: int, later: int)
    requires Has(w, must, bound) && (later == -1 || (bound > -1 && bound <= later))
    ensures Has(w, must, later)
  {
    var k: nat :| (bound > -1 ==> k <= bound) && OccursAt(must, w, k);
  }

  lemma EndsHas(w: Word, run: Word, bound: int)
    requires Ends(w, run) && (bound > -1 ==> |w| - |run| <= bound)
    ensures Has(w, run, bound)
  {
    var k := |w| - |run|;
    assert forall j :: 0 <= j < |run| ==> w[k..][j] == w[k + j];
    assert OccursAt(run, w, k);
  }

  ghost predicate BeginsIn(x: Lang, w: Word) {
    exists k: nat :: k <= |w| && w[..k] in x
  }

  /** Every word of y begins with a word of x. */
  ghost predicate Begins(x: Lang, y: Lang) {
    forall w: Word :: w in y ==> BeginsIn(x, w)
  }

  lemma HasAll(x: Lang, y: Lang, must: Word, bound: int, later: int)
    requires Begins(x, y) && (later == -1 || (bound > -1 && bound <= later))
    requires forall w: Word :: w in x ==> Has(w, must, bound)
    ensures forall w: Word :: w in y ==> Has(w, must, later)
  {
    hide Has;
    forall w: Word | w in y ensures Has(w, must, later) {
      var k: nat :| k <= |w| && w[..k] in x;
      HasLonger(w[..k], w[k..], must, bound);
      assert w[..k] + w[k..] == w;
      HasLater(w, must, bound, later);
    }
  }

  lemma RunHas(g: Prog, pc: nat, s: Scan, x: Lang, w: Word)
    requires pc <= |g.strip| && Agrees(g, pc, s, x) && s.newlen > 0 && w in x
    ensures Has(w, Gather(g, s.newstart, s.newlen), if s.offset > -1 then s.moffset + s.offset else -1)
  {
    GatherRun(g, s.newstart, pc, s.newlen);
    EndsHas(w, RunOf(g, s.newstart, pc), if s.offset > -1 then s.moffset + s.offset else -1);
  }

  /** Ending a literal, after the offset was raised to o for words of y that go on from those of x. */
  lemma LiteralEnds(g: Prog, pc: nat, to: nat, s: Scan, x: Lang, y: Lang, o: int)
    requires pc <= |g.strip| && to <= |g.strip| && Agrees(g, pc, s, x) && Begins(x, y)
    requires o == -1 || (s.offset > -1 && o >= s.offset && Bounded(y, s.moffset + o + s.newlen))
    ensures Agrees(g, to, EndLiteral(s.(offset := o)), y)
  {
    var t := EndLiteral(s.(offset := o));
    hide Has, Begins;
    if s.newlen > s.mlen {
      GatherRun(g, s.newstart, pc, s.newlen);
      var must := Gather(g, s.newstart, s.newlen);
      var bound := if s.offset > -1 then s.moffset + s.offset else -1;
      forall w: Word | w in x ensures Has(w, must, bound) {
        RunHas(g, pc, s, x, w);
      }
      HasAll(x, y, must, bound, t.moffset);
    } else if s.mlen > 0 {
      assert t.moffset == s.moffset;
      HasAll(x, y, Gather(g, s.start, s.mlen), s.moffset, s.moffset);
    }
  }

  lemma ConcatBegins(x: Lang, y: Lang)
    ensures Begins(x, Concat(x, y))
  {
    forall w: Word | w in Concat(x, y) ensures BeginsIn(x, w) {
      var k := SplitConcat(x, y, w);
    }
  }

  lemma SelfBegins(x: Lang)
    ensures Begins(x, x)
  {
    forall w: Word | w in x ensures BeginsIn(x, w) {
      var k: nat := |w|;
      assert w[..k] == w;
      assert w[..k] in x;
    }
  }

  lemma CharsBounded(cs: set<Byte>)
    ensures Bounded(Chars(cs), 1)
  {}

  /** A character that is not a literal one. */
  lemma AnyAgrees(g: Prog, pc: nat, s: Scan, x: Lang, cs: set<Byte>)
    requires pc < |g.strip| && Agrees(g, pc, s, x)
    ensures Agrees(g, pc + 1, OneMore(s), Concat(x, Chars(cs)))
  {
    hide Has, Begins;
    var y := Concat(x, Chars(cs));
    SelfBegins(x);
    ConcatBegins(x, Chars(cs));
    LiteralEnds(g, pc, pc, s, x, x, s.offset);
    assert s.(offset := s.offset) == s;
    var t := EndLiteral(s);
    CharsBounded(cs);
    if t.offset > -1 { BoundedConcat(x, Chars(cs), t.moffset + t.offset, 1); }
    if t.mlen > 0 { HasAll(x, y, Gather(g, t.start, t.mlen), t.moffset, t.moffset); }
  }

  /** A literal character. */
  lemma CharAgrees(g: Prog, pc: nat, s: Scan, x: Lang, c: Byte)
    requires pc < |g.strip| && Agrees(g, pc, s, x) && g.strip[pc] == OChar(c)
    ensures Agrees(g, pc + 1, Collect(s, pc), Concat(x, Chars({c})))
  {
    hide Has, Begins, Splits;
    var y, t := Concat(x, Chars({c})), Collect(s, pc);
    ConcatBegins(x, Chars({c}));
    CharsBounded({c});
    if s.offset > -1 { BoundedConcat(x, Chars({c}), s.moffset + s.offset + s.newlen, 1); }
    if s.mlen > 0 { HasAll(x, y, Gather(g, s.start, s.mlen), s.moffset, s.moffset); }
    var run := if s.newlen == 0 then [] else RunOf(g, s.newstart, pc);
    RunGrows(g, t.newstart, pc);
    assert RunOf(g, t.newstart, pc + 1) == run + [c] by { if s.newlen == 0 { assert RunOf(g, pc, pc) == []; } }
    forall w: Word | w in y ensures Ends(w, run + [c]) {
      var k := SplitConcat(x, Chars({c}), w);
      assert w[k..] == [c];
      EndsLonger(w[..k], run, c, w);
    }
  }

  lemma RunGrows(g: Prog, a: nat, pc: nat)
    requires a <= pc < |g.strip| && g.strip[pc].OChar?
    ensures RunOf(g, a, pc + 1) == RunOf(g, a, pc) + [g.strip[pc].ch]
  {}

  lemma EndsLonger(u: Word, run: Word, c: Byte, w: Word)
    requires Ends(u, run) && w == u + [c]
    ensures Ends(w, run + [c])
  {
    assert w[|w| - |run| - 1..] == u[|u| - |run|..] + [c];
  }

  /** An operator that is no character and does not end a literal. */
  lemma PassAgrees(g: Prog, pc: nat, s: Scan, x: Lang)
    requires pc < |g.strip| && Agrees(g, pc, s, x) && !g.strip[pc].OChar?
    ensures Agrees(g, pc + 1, s, x)
  {}

  /** More rounds of a loop begin with the first. */
  lemma LoopBegins(x: Lang, a: Lang)
    ensures Begins(Concat(x, a), Concat(x, AtLeast(a, 1)))
  {
    hide Splits, SomePower;
    forall w: Word | w in Concat(x, AtLeast(a, 1)) ensures BeginsIn(Concat(x, a), w) {
      var k := SplitConcat(x, AtLeast(a, 1), w);
      var j := FirstRound(a, w[k..]);
      InConcat(x, a, w[..k], w[k..][..j]);
      assert w[..k] + w[k..][..j] == w[..k + j];
    }
  }

  /** The end of a loop: later rounds only lengthen the words, but the offsets are lost. */
  lemma LoopAgrees(g: Prog, pc: nat, s: Scan, x: Lang, y: Lang)
    requires pc < |g.strip| && Agrees(g, pc, s, x) && Begins(x, y)
    ensures Agrees(g, pc + 1, GiveUp(s), y)
  {
    hide Has, Begins;
    var t := EndLiteral(s);
    SelfBegins(x);
    LiteralEnds(g, pc, pc, s, x, x, s.offset);
    assert s.(offset := s.offset) == s;
    if t.mlen > 0 { HasAll(x, y, Gather(g, t.start, t.mlen), t.moffset, t.moffset); }
  }

  lemma {:induction false} FirstRound(a: Lang, w: Word) returns (j: nat)
    requires w in AtLeast(a, 1)
    ensures j <= |w| && w[..j] in a
  {
    var n: nat :| n >= 1 && w in Power(a, n);
    j := FirstPower(a, n, w);
  }

  lemma {:induction false} FirstPower(a: Lang, n: nat, w: Word) returns (j: nat)
    requires n >= 1 && w in Power(a, n)
    ensures j <= |w| && w[..j] in a
  {
    var k := SplitConcat(Power(a, n - 1), a, w);
    if n == 1 {
      assert w[k..] == w[..|w|];
      j := |w|;
    } else {
      j := FirstPower(a, n - 1, w[..k]);
      assert w[..k][..j] == w[..j];
    }
  }

  // ---------- the scan, shape by shape ----------

  lemma ScanOne(g: Prog, i: nat, s: Scan)
    requires g.Ok() && g.lo <= i < g.hi && s.offset >= -1 && IsConsuming(g.strip[i])
    ensures ScanFrom(g, i, s) == ScanFrom(g, i + 1, if g.strip[i].OChar? then Collect(s, i) else OneMore(s))
  {}

  lemma ScanThrough(g: Prog, i: nat, s: Scan)
    requires g.Ok() && g.lo <= i < g.hi && s.offset >= -1
    requires g.strip[i].OPlus_? || g.strip[i].OLParen? || g.strip[i].ORParen?
    ensures ScanFrom(g, i, s) == ScanFrom(g, i + 1, s)
  {}

  lemma ScanLoopEnd(g: Prog, i: nat, s: Scan)
    requires g.Ok() && g.lo <= i < g.hi && s.offset >= -1 && g.strip[i].O_Plus?
    ensures ScanFrom(g, i, s) == ScanFrom(g, i + 1, GiveUp(s))
  {}

  /** A bypass or alternation is stepped over. Its end mark is read too, to no effect. */
  lemma ScanOver(g: Prog, i: nat, s: Scan, e: nat)
    requires g.Ok() && g.lo <= i < g.hi && s.offset >= -1 && (g.strip[i].OQuest_? || g.strip[i].OCh_?)
    requires SkipEnd(g, i) == e
    ensures ScanFrom(g, i, s) == ScanFrom(g, e + 1, EndLiteral(s.(offset := AltOffset(g, i + 1, s.offset))))
  {
    var t := EndLiteral(s.(offset := AltOffset(g, i + 1, s.offset)));
    assert ScanFrom(g, i, s) == ScanPast(g, i, s);
    assert ScanPast(g, i, s) == ScanFrom(g, e, t);
    assert ScanFrom(g, e, t) == ScanFrom(g, e + 1, EndLiteral(t));
    assert EndLiteral(t) == t;
  }

  lemma OneAgrees(g: Prog, i: nat, op: Op, cs: set<Byte>, s: Scan, x: Lang)
    requires i < |g.strip| && Agrees(g, i, s, x) && g.strip[i] == op && OneOk(op, cs, g.sets)
    ensures Agrees(g, i + 1, if op.OChar? then Collect(s, i) else OneMore(s), Concat(x, Chars(cs)))
  {
    if op.OChar? {
      assert cs == {op.ch};
      CharAgrees(g, i, s, x, op.ch);
    } else {
      AnyAgrees(g, i, s, x, cs);
    }
  }

  /** Stepping over an alternative, or a bypass, whose words are those of y. */
  lemma OverAgrees(g: Prog, i: nat, to: nat, s: Scan, x: Lang, y: Lang, n: int)
    requires g.Ok() && g.lo <= i < g.hi && to <= |g.strip| && Agrees(g, i, s, x)
    requires n == AltScan(g, i + 1, 0, 0) && (n != -1 ==> Bounded(y, n))
    ensures Agrees(g, to, EndLiteral(s.(offset := AltOffset(g, i + 1, s.offset))), Concat(x, y))
  {
    hide Has, Begins, EndLiteral;
    ConcatBegins(x, y);
    if s.offset > -1 && n != -1 { BoundedConcat(x, y, s.moffset + s.offset + s.newlen, n); }
    LiteralEnds(g, i, to, s, x, Concat(x, y), AltOffset(g, i + 1, s.offset));
  }

  /** The scan over the code of x keeps agreeing with the words, now longer by those of x. */
  lemma {:induction false} ScanBlock(g: Prog, i: nat, x: Node, s: Scan, pre: Lang) returns (t: Scan)
    requires g.Ok() && g.lo <= i && i + Len(x) <= g.hi
    requires At(g.strip, i, x) && Valid(x, g.sets) && !IsChain(x)
    requires Agrees(g, i, s, pre)
    ensures t.offset >= -1 && ScanFrom(g, i, s) == ScanFrom(g, i + Len(x), t)
    ensures Agrees(g, i + Len(x), t, Concat(pre, Accepts(x)))
    decreases x
  {
    hide At, Valid, Concat, Agrees, ScanFrom, AtLeast, Bounded, Len, Accepts, Chars;
    AgreesOffset(g, i, s, pre);
    match x
    case Nil =>
      LenOf();
      AcceptsSmall();
      ConcatUnit(pre);
      t := s;
    case One(op, cs) =>
      LenOf();
      AcceptsSmall();
      OneParts(g.strip, g.sets, i, op, cs);
      ScanOne(g, i, s);
      OneAgrees(g, i, op, cs, s, pre);
      t := if op.OChar? then Collect(s, i) else OneMore(s);
    case Cat(a, b) =>
      LenCat(a, b);
      AcceptsCat(a, b);
      CatParts(g.strip, g.sets, i, a, b);
      CatShapes(a, b, g.sets);
      var m := ScanBlock(g, i, a, s, pre);
      t := ScanBlock(g, i + Len(a), b, m, Concat(pre, Accepts(a)));
      ConcatAssoc(pre, Accepts(a), Accepts(b));
    case Wrap(k, a) =>
      LenWrap(k, a);
      WrapParts(g.strip, g.sets, i, k, a);
      WrapShapes(k, a, g.sets);
      t := ScanWrap(g, i, k, a, s, pre);
    case Fork(first, a, u) =>
      LenFork(first, a, u);
      AcceptsFork(first, a, u);
      ForkParts(g.strip, g.sets, i, first, a, u);
      ForkShapes(first, a, u, g.sets);
      SkipFork(g, i, a, u);
      AltBranches(g, i, a, u);
      var n := Wider(Width(a), Width(u));
      if n != -1 {
        WidthBounds(a);
        WidthBounds(u);
        BoundedUnion(Accepts(a), Accepts(u), Width(a), Width(u));
      }
      ScanOver(g, i, s, i + Len(a) + 1 + Len(u));
      OverAgrees(g, i, i + Len(a) + 2 + Len(u), s, pre, Accepts(a) + Accepts(u), n);
      t := EndLiteral(s.(offset := AltOffset(g, i + 1, s.offset)));
  }

  lemma AgreesOffset(g: Prog, i: nat, s: Scan, x: Lang)
    requires i <= |g.strip| && Agrees(g, i, s, x)
    ensures s.offset >= -1
  {}

  lemma {:induction false} ScanWrap(g: Prog, i: nat, k: Wrapper, a: Node, s: Scan, pre: Lang) returns (t: Scan)
    requires g.Ok() && g.lo <= i && i + Len(a) + 2 <= g.hi
    requires g.strip[i] == Opening(k, Len(a)) && g.strip[i + 1 + Len(a)] == Closing(k, Len(a))
    requires At(g.strip, i + 1, a) && Valid(a, g.sets) && !IsChain(a) && !k.Last?
    requires k.Quest? ==> a.Wrap? && a == Wrap(Plus, a.body)
    requires Agrees(g, i, s, pre)
    ensures t.offset >= -1 && ScanFrom(g, i, s) == ScanFrom(g, i + Len(a) + 2, t)
    ensures Agrees(g, i + Len(a) + 2, t, Concat(pre, Accepts(Wrap(k, a))))
    decreases Wrap(k, a), 0
  {
    hide At, Valid, Splits, Agrees, ScanFrom, AtLeast, Bounded, AltScan;
    AgreesOffset(g, i, s, pre);
    if k.Quest? {
      WrapParts(g.strip, g.sets, i + 1, Plus, a.body);
      AltStartsLoop(g, i + 1);
      SkipQuest(g, i, Len(a));
      ScanOver(g, i, s, i + 1 + Len(a));
      OverAgrees(g, i, i + Len(a) + 2, s, pre, UNIT + Accepts(a), -1);
      t := EndLiteral(s.(offset := AltOffset(g, i + 1, s.offset)));
    } else {
      ScanThrough(g, i, s);
      PassAgrees(g, i, s, pre);
      var m := ScanBlock(g, i + 1, a, s, pre);
      if k.Group? {
        ScanThrough(g, i + 1 + Len(a), m);
        PassAgrees(g, i + 1 + Len(a), m, Concat(pre, Accepts(a)));
        t := m;
      } else {
        ScanLoopEnd(g, i + 1 + Len(a), m);
        LoopBegins(pre, Accepts(a));
        LoopAgrees(g, i + 1 + Len(a), m, Concat(pre, Accepts(a)), Concat(pre, AtLeast(Accepts(a), 1)));
        t := GiveUp(m);
      }
    }
  }

  lemma AltStartsLoop(g: Prog, i: nat)
    requires g.Ok() && g.lo <= i < g.hi && g.strip[i].OPlus_?
    ensures AltScan(g, i, 0, 0) == -1
  {}

  lemma SkipQuest(g: Prog, i: nat, n: nat)
    requires g.Ok() && g.lo <= i && i + n + 2 <= g.hi
    requires g.strip[i] == Opening(Quest, n) && g.strip[i + 1 + n] == Closing(Quest, n)
    ensures SkipEnd(g, i) == i + 1 + n
  {}

  /** What findmust has found when it reaches the end marker of compiled code. */
  lemma MustIsMandatory(g: Prog, x: Node)
    requires g.Ok() && Compiled(g, x)
    ensures ScanFrom(g, g.lo, FIRST).Good?
    ensures Agrees(g, g.hi, ScanFrom(g, g.lo, FIRST).scan, Accepts(x))
  {
    hide *;
    CompiledStart(g, x);
    var t := ScanBlock(g, g.lo, x, FIRST, UNIT);
    UnitConcat(Accepts(x));
    FinalAgrees(g, t, Accepts(x));
  }

  lemma CompiledStart(g: Prog, x: Node)
    requires g.Ok() && Compiled(g, x)
    ensures g.lo + Len(x) == g.hi && At(g.strip, g.lo, x) && Valid(x, g.sets) && !IsChain(x)
    ensures Agrees(g, g.lo, FIRST, UNIT)
  {}

  lemma FinalAgrees(g: Prog, t: Scan, x: Lang)
    requires g.Ok() && Agrees(g, g.hi, t, x) && t.offset >= -1
    ensures ScanFrom(g, g.hi, t) == Good(EndLiteral(t)) && Agrees(g, g.hi, EndLiteral(t), x)
  {
    SelfBegins(x);
    LiteralEnds(g, g.hi, g.hi, t, x, x, t.offset);
    assert t.(offset := t.offset) == t;
  }
}
