/** Why the fast scan may forget the past: the state behind a character is never one of the states
    a fresh start sets, so a state set equal to the fresh one holds no earlier thread. */
module ColdStart {
  import opened Strip
  import opened Language
  import opened Node
  import opened Runs

  lemma {:induction false} ChainLast(s: seq<Op>, sets: seq<CSet>, i: nat, t: Node)
    requires At(s, i, t) && Valid(t, sets) && IsChain(t)
    ensures Len(t) > 0 && s[i + Len(t) - 1].O_Ch?
    decreases t
  {
    hide At, Valid, Len, ForkOpening, ForkMiddle;
    match t
    case Wrap(k, a) =>
      LenWrap(k, a);
      WrapParts(s, sets, i, k, a);
    case Fork(first, a, u) =>
      LenFork(first, a, u);
      ForkParts(s, sets, i, first, a, u);
      ChainLast(s, sets, i + 2 + Len(a), u);
  }

  lemma ConcatNonempty(a: Lang, b: Lang)
    requires [] !in a || [] !in b
    ensures [] !in Concat(a, b)
  {
    if [] in Concat(a, b) {
      var k := SplitConcat(a, b, []);
    }
  }

  /** In compiled code the empty word never leads to the position after a consuming operator. */
  lemma {:induction false} BehindCharacter(s: seq<Op>, sets: seq<CSet>, i: nat, x: Node, d: nat)
    requires At(s, i, x) && Valid(x, sets)
    requires d < Len(x) && i + d < |s| && IsConsuming(s[i + d])
    ensures [] !in Words(x, d + 1)
    decreases x, 1
  {
    hide At, Valid, Words, Accepts, Len, Opening, Closing, ForkOpening, ForkMiddle, IsConsuming;
    match x
    case Nil => LenOf();
    case One(op, cs) => BehindOne(op, cs, d);
    case Cat(a, b) =>
      LenCat(a, b);
      CatParts(s, sets, i, a, b);
      BehindCat(s, sets, i, a, b, d);
    case Wrap(k, a) =>
      LenWrap(k, a);
      WrapParts(s, sets, i, k, a);
      WrapSilent(k, Len(a));
      BehindCharacter(s, sets, i + 1, a, d - 1);
      if k.Quest? {
        QuestOfLoop(a, sets);
        LenWrap(Plus, a.body);
        WrapParts(s, sets, i + 1, Plus, a.body);
        WrapSilent(Plus, Len(a.body));
      }
      BehindWrap(k, a, d);
    case Fork(first, a, t) =>
      LenFork(first, a, t);
      ForkParts(s, sets, i, first, a, t);
      ForkSilent(first, Len(a));
      ChainLast(s, sets, i + 2 + Len(a), t);
      BehindFork(s, sets, i, first, a, t, d);
  }

  lemma BehindOne(op: Op, cs: set<Byte>, d: nat)
    requires d < Len(One(op, cs))
    ensures [] !in Words(One(op, cs), d + 1)
  {}

  /** The operators around code consume nothing. */
  lemma WrapSilent(k: Wrapper, n: nat)
    ensures !IsConsuming(Opening(k, n)) && !IsConsuming(Closing(k, n))
  {}

  lemma ForkSilent(first: bool, n: nat)
    ensures !IsConsuming(ForkOpening(first, n)) && !IsConsuming(ForkMiddle(first, n))
  {}

  lemma {:induction false} BehindFork(s: seq<Op>, sets: seq<CSet>, i: nat, first: bool, a: Node, t: Node, d: nat)
    requires At(s, i + 1, a) && At(s, i + 2 + Len(a), t) && Valid(a, sets) && Valid(t, sets)
    requires 0 < d < Len(a) + 2 + Len(t) && d != Len(a) + 1 && i + d < |s| && IsConsuming(s[i + d])
    requires 0 < Len(t) && i + Len(a) + 1 + Len(t) < |s| && s[i + Len(a) + 1 + Len(t)].O_Ch?
    ensures d + 1 <= Len(Fork(first, a, t)) && [] !in Words(Fork(first, a, t), d + 1)
    decreases Fork(first, a, t), 0
  {
    hide At, Valid, Words, Accepts, Len;
    WordsFork(first, a, t, d + 1);
    WordsEnd(a);
    if d <= Len(a) {
      BehindCharacter(s, sets, i + 1, a, d - 1);
    } else {
      BehindCharacter(s, sets, i + 2 + Len(a), t, d - Len(a) - 2);
    }
  }

  lemma QuestOfLoop(a: Node, sets: seq<CSet>)
    requires Valid(Wrap(Quest, a), sets)
    ensures a.Wrap? && a == Wrap(Plus, a.body)
  {
    hide Valid;
    ValidWrap(Quest, a, sets);
  }

  lemma BehindWrap(k: Wrapper, a: Node, d: nat)
    requires 0 < d <= Len(a) && [] !in Words(a, d)
    requires k.Quest? ==> d < Len(a)
    ensures [] !in Words(Wrap(k, a), d + 1)
  {
    hide Words, Accepts, Len, Concat, AtLeast;
    WordsWrap(k, a, d + 1);
    ConcatNonempty(AtLeast(Accepts(a), 0), Words(a, d));
  }

  lemma {:induction false} BehindCat(s: seq<Op>, sets: seq<CSet>, i: nat, a: Node, b: Node, d: nat)
    requires At(s, i, a) && At(s, i + Len(a), b) && Valid(a, sets) && Valid(b, sets)
    requires d < Len(a) + Len(b) && i + d < |s| && IsConsuming(s[i + d])
    ensures [] !in Words(Cat(a, b), d + 1)
    decreases Cat(a, b), 0
  {
    hide *;
    WordsCat(a, b, d + 1);
    if d < Len(a) {
      BehindCharacter(s, sets, i, a, d);
      if d + 1 == Len(a) {
        WordsEnd(a);
        ConcatNonempty(Accepts(a), Words(b, 0));
      }
    } else {
      BehindCharacter(s, sets, i + Len(a), b, d - Len(a));
      ConcatNonempty(Accepts(a), Words(b, d + 1 - Len(a)));
    }
  }

  /** The state after a character is not among the states of a fresh start. */
  lemma NoSilentReach(g: Prog, x: Node, q: nat)
    requires g.Ok() && Compiled(g, x)
    requires g.lo <= q < g.hi && IsConsuming(g.strip[q])
    ensures !Reach(g, g.lo, [], q + 1)
  {
    hide At, Valid, Words;
    BehindCharacter(g.strip, g.sets, 1, x, q - 1);
    if Reach(g, g.lo, [], q + 1) {
      var n: nat :| ReachN(g, g.lo, [], q + 1, n);
      ReachOnlyWords(g, x, [], q + 1, n);
    }
  }

  /** The guarantee depends on y? being emitted as an alternative with an empty branch. A bypass
      around a single character (OQUEST_ y O_QUEST) would break it. */
  lemma BypassBreaksIt(g: Prog, c: Byte)
    requires g.strip == [OEnd, OQuest_(2), OChar(c), O_Quest(2), OEnd] && g.sets == [] && g.lo == 1 && g.hi == 4
    ensures g.Ok() && IsConsuming(g.strip[2]) && Reach(g, g.lo, [], 3)
  {
    assert g.OpOk(1) && g.OpOk(2) && g.OpOk(3);
    ReachRefl(g, 1);
    ThenMove(g, 1, [], 1, 3);
  }
}
