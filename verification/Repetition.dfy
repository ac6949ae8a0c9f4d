/** The code shapes of repetition operators, and the languages they accept. */
module Repetition {
  import opened Strip
  import opened Language
  import opened Node
  import opened Syntax

  /** y? is emitted as an alternative with an empty branch. */
  function Optional(x: Node): Node {
    Fork(true, x, Wrap(Last, Nil))
  }

  function Rank(from: nat): nat {
    if from == 0 then 2 else from
  }

  /** What repeat makes of the code of x. */
  function RepNode(x: Node, from: nat, upto: nat): Node
    requires from <= upto && from < INFINITY && upto <= INFINITY
    decreases upto, Rank(from)
  {
    if from == 0 then
      if upto == 0 then Nil else Optional(RepNode(x, 1, upto))
    else if from == 1 then
      if upto == 1 then x
      else if upto == INFINITY then Wrap(Plus, x)
      else Cat(Optional(x), RepNode(x, 1, upto - 1))
    else if upto == INFINITY then Cat(x, RepNode(x, from - 1, upto))
    else Cat(x, RepNode(x, from - 1, upto - 1))
  }

  function LimitOf(upto: nat): Limit {
    if upto == INFINITY then Unbounded else UpTo(upto)
  }

  // ---------- laws of powers ----------

  lemma {:induction false} PowerLeft(a: Lang, n: nat)
    ensures Concat(a, Power(a, n)) == Power(a, n + 1)
    decreases n
  {
    if n == 0 {
      ConcatUnit(a);
      UnitConcat(a);
    } else {
      PowerLeft(a, n - 1);
      ConcatAssoc(a, Power(a, n - 1), a);
    }
  }

  function Raise(hi: Limit): Limit {
    match hi
    case Unbounded => Unbounded
    case UpTo(n) => UpTo(n + 1)
  }

  lemma InBetween(a: Lang, lo: nat, hi: Limit, n: nat, w: Word)
    requires Within(n, lo, hi) && w in Power(a, n)
    ensures w in Between(a, lo, hi)
  {}

  /** One more word in front. */
  lemma BetweenLeft(a: Lang, lo: nat, hi: Limit)
    ensures Concat(a, Between(a, lo, hi)) == Between(a, lo + 1, Raise(hi))
  {
    hide Splits, Power;
    forall w: Word | w in Concat(a, Between(a, lo, hi)) ensures w in Between(a, lo + 1, Raise(hi)) {
      var k := SplitConcat(a, Between(a, lo, hi), w);
      var n: nat :| Within(n, lo, hi) && w[k..] in Power(a, n);
      InConcat(a, Power(a, n), w[..k], w[k..]);
      PowerLeft(a, n);
      InBetween(a, lo + 1, Raise(hi), n + 1, w);
    }
    var low := lo + 1;
    forall w: Word | w in Between(a, low, Raise(hi)) ensures w in Concat(a, Between(a, lo, hi)) {
      var n: nat :| Within(n, low, Raise(hi)) && w in Power(a, n);
      PowerLeft(a, n - 1);
      var k := SplitConcat(a, Power(a, n - 1), w);
      InBetween(a, lo, hi, n - 1, w[k..]);
      InConcat(a, Between(a, lo, hi), w[..k], w[k..]);
    }
  }

  lemma BetweenZero(a: Lang, hi: Limit)
    requires hi.UpTo? ==> hi.n >= 1
    ensures Between(a, 0, hi) == UNIT + Between(a, 1, hi)
  {
    forall w: Word ensures w in Between(a, 0, hi) <==> w in UNIT + Between(a, 1, hi) {
      if w in Between(a, 0, hi) {
        var n: nat :| Within(n, 0, hi) && w in Power(a, n);
        if n > 0 { InBetween(a, 1, hi, n, w); }
      }
      if w in Between(a, 1, hi) {
        var n: nat :| Within(n, 1, hi) && w in Power(a, n);
        InBetween(a, 0, hi, n, w);
      }
      if w == [] { InBetween(a, 0, hi, 0, w); }
    }
  }

  lemma BetweenOne(a: Lang, n: nat)
    requires n >= 2
    ensures Between(a, 1, UpTo(n)) == Between(a, 1, UpTo(n - 1)) + Between(a, 2, UpTo(n))
  {
    forall w: Word ensures w in Between(a, 1, UpTo(n)) <==> w in Between(a, 1, UpTo(n - 1)) + Between(a, 2, UpTo(n)) {
      if w in Between(a, 1, UpTo(n)) {
        var k: nat :| Within(k, 1, UpTo(n)) && w in Power(a, k);
        if k == 1 { InBetween(a, 1, UpTo(n - 1), k, w); } else { InBetween(a, 2, UpTo(n), k, w); }
      }
      if w in Between(a, 1, UpTo(n - 1)) {
        var k: nat :| Within(k, 1, UpTo(n - 1)) && w in Power(a, k);
        InBetween(a, 1, UpTo(n), k, w);
      }
      if w in Between(a, 2, UpTo(n)) {
        var k: nat :| Within(k, 2, UpTo(n)) && w in Power(a, k);
        InBetween(a, 1, UpTo(n), k, w);
      }
    }
  }

  lemma PowerOne(a: Lang)
    ensures Power(a, 1) == a
  {
    UnitConcat(a);
  }

  lemma BetweenExactly(a: Lang, k: nat)
    ensures Between(a, k, UpTo(k)) == Power(a, k)
  {
    hide Power;
    forall w: Word ensures w in Between(a, k, UpTo(k)) <==> w in Power(a, k) {
      if w in Power(a, k) { InBetween(a, k, UpTo(k), k, w); }
      if w in Between(a, k, UpTo(k)) { var n: nat :| Within(n, k, UpTo(k)) && w in Power(a, n); }
    }
  }

  lemma BetweenExactlyOne(a: Lang)
    ensures Between(a, 1, UpTo(1)) == a && Between(a, 0, UpTo(0)) == UNIT
  {
    PowerOne(a);
    BetweenExactly(a, 1);
    BetweenExactly(a, 0);
    assert Power(a, 0) == UNIT;
  }

  lemma BetweenUnbounded(a: Lang)
    ensures Between(a, 1, Unbounded) == AtLeast(a, 1)
  {
    forall w: Word ensures w in Between(a, 1, Unbounded) <==> w in AtLeast(a, 1) {
      if w in AtLeast(a, 1) {
        var n: nat :| n >= 1 && w in Power(a, n);
        InBetween(a, 1, Unbounded, n, w);
      }
      if w in Between(a, 1, Unbounded) {
        var n: nat :| Within(n, 1, Unbounded) && w in Power(a, n);
        assert n >= 1;
      }
    }
  }

  // ---------- the shapes accept the right repetitions ----------

  lemma OptionalAccepts(x: Node)
    ensures Accepts(Optional(x)) == UNIT + Accepts(x)
  {}

  /** repeat(start, from, to): the code accepts from to to words of its operand. */
  lemma {:induction false} RepAccepts(x: Node, from: nat, upto: nat)
    requires from <= upto && from < INFINITY && upto <= INFINITY
    ensures Accepts(RepNode(x, from, upto)) == Between(Accepts(x), from, LimitOf(upto))
    decreases upto, Rank(from)
  {
    hide SomeRepetition, Splits, SomePower, Power;
    var a := Accepts(x);
    if from == 0 {
      BetweenExactlyOne(a);
      if upto != 0 {
        RepAccepts(x, 1, upto);
        OptionalAccepts(RepNode(x, 1, upto));
        BetweenZero(a, LimitOf(upto));
      }
    } else if from == 1 {
      BetweenExactlyOne(a);
      BetweenUnbounded(a);
      if 1 < upto < INFINITY {
        RepAccepts(x, 1, upto - 1);
        OptionalAccepts(x);
        var b := Between(a, 1, UpTo(upto - 1));
        ConcatUnion(UNIT, a, b);
        UnitConcat(b);
        BetweenLeft(a, 1, UpTo(upto - 1));
        BetweenOne(a, upto);
      }
    } else if upto == INFINITY {
      RepAccepts(x, from - 1, upto);
      BetweenLeft(a, from - 1, Unbounded);
    } else {
      RepAccepts(x, from - 1, upto - 1);
      BetweenLeft(a, from - 1, UpTo(upto - 1));
    }
  }

  lemma {:induction false} RepValid(x: Node, from: nat, upto: nat, sets: seq<CSet>)
    requires from <= upto && from < INFINITY && upto <= INFINITY
    requires Valid(x, sets) && !IsChain(x) && Len(x) > 0
    ensures Valid(RepNode(x, from, upto), sets) && !IsChain(RepNode(x, from, upto))
    ensures Len(RepNode(x, from, upto)) == 0 <==> upto == 0
    decreases upto, Rank(from)
  {
    hide Valid, Len, IsChain, Optional;
    if from == 0 {
      if upto == 0 {
        NilValid(sets);
      } else {
        RepValid(x, 1, upto, sets);
        OptionalValid(RepNode(x, 1, upto), sets);
      }
    } else if from == 1 {
      if upto == INFINITY {
        PlusValid(x, sets);
      } else if 1 < upto {
        RepValid(x, 1, upto - 1, sets);
        OptionalValid(x, sets);
        PairValid(Optional(x), RepNode(x, 1, upto - 1), sets);
      }
    } else if upto == INFINITY {
      RepValid(x, from - 1, upto, sets);
      PairValid(x, RepNode(x, from - 1, upto), sets);
    } else {
      RepValid(x, from - 1, upto - 1, sets);
      PairValid(x, RepNode(x, from - 1, upto - 1), sets);
    }
  }

  lemma NilValid(sets: seq<CSet>)
    ensures Valid(Nil, sets) && !IsChain(Nil) && Len(Nil) == 0
  {}

  lemma PlusValid(x: Node, sets: seq<CSet>)
    requires Valid(x, sets) && !IsChain(x)
    ensures Valid(Wrap(Plus, x), sets) && !IsChain(Wrap(Plus, x)) && Len(Wrap(Plus, x)) > 0
  {
    hide Valid, Len;
    ValidWrap(Plus, x, sets);
    LenWrap(Plus, x);
  }

  lemma OptionalValid(x: Node, sets: seq<CSet>)
    requires Valid(x, sets) && !IsChain(x)
    ensures Valid(Optional(x), sets) && !IsChain(Optional(x)) && Len(Optional(x)) > 0
  {
    hide Valid, Len;
    NilValid(sets);
    ValidWrap(Last, Nil, sets);
    ValidFork(true, x, Wrap(Last, Nil), sets);
    LenFork(true, x, Wrap(Last, Nil));
  }

  lemma PairValid(x: Node, y: Node, sets: seq<CSet>)
    requires Valid(x, sets) && Valid(y, sets) && !IsChain(x) && !IsChain(y) && Len(x) > 0
    ensures Valid(Cat(x, y), sets) && !IsChain(Cat(x, y)) && Len(Cat(x, y)) > 0
  {
    hide Valid, Len;
    ValidCat(x, y, sets);
    LenCat(x, y);
  }

  /** x* is emitted as a bypass around x+. */
  lemma StarAccepts(x: Node)
    ensures Accepts(Wrap(Quest, Wrap(Plus, x))) == Between(Accepts(x), 0, Unbounded)
  {
    BetweenUnbounded(Accepts(x));
    BetweenZero(Accepts(x), Unbounded);
  }
}
