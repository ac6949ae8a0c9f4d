/** The compiler: reads a pattern from left to right and writes the strip as it goes, inserting,
    completing and duplicating operators in place (src/missing/regcomp.c). */
module Compile {
  import opened Wrappers
  import opened Strip
  import opened Language
  import opened Node
  import opened Syntax
  import opened Repetition

  /** Where the scanner points after an error. */
  const NULS: Word := [0, 0, 0, 0, 0, 0, 0, 0, 0, 0]

  function WithOperand(op: Op, v: nat): Op {
    match op
    case OCh_(_) => OCh_(v)
    case OOr2(_) => OOr2(v)
    case _ => op
  }

  // ---------- alternations under construction ----------

  /** One finished branch, up to its OOR1. */
  function BranchCode(first: bool, b: Node): seq<Op> {
    [ForkOpening(first, Len(b))] + Code(b) + [ForkMiddle(first, Len(b))]
  }

  /** The finished part of an alternation with branches bs: everything in front of the OOR2 that
      opens the next branch. */
  function Branches(bs: seq<Node>): seq<Op> {
    if bs == [] then [] else Branches(bs[..|bs| - 1]) + BranchCode(|bs| == 1, bs[|bs| - 1])
  }

  function Forks(bs: seq<Node>, t: Node): Node {
    if bs == [] then t
    else Forks(bs[..|bs| - 1], Fork(|bs| == 1, bs[|bs| - 1], t))
  }

  /** The alternation of bs and a last branch x, or x alone. */
  function Alternation(bs: seq<Node>, x: Node): Node {
    if bs == [] then x else Forks(bs, Wrap(Last, x))
  }

  lemma ForkCode(first: bool, b: Node, t: Node)
    ensures Code(Fork(first, b, t)) == BranchCode(first, b) + Code(t)
  {
    hide Code, Len;
    CodeFork(first, b, t);
  }

  lemma {:induction false} ForksCode(bs: seq<Node>, t: Node)
    ensures Code(Forks(bs, t)) == Branches(bs) + Code(t)
    decreases |bs|
  {
    hide Code, BranchCode, Len;
    if bs == [] {
      assert [] + Code(t) == Code(t);
    } else {
      var init, b := bs[..|bs| - 1], bs[|bs| - 1];
      ForksCode(init, Fork(|bs| == 1, b, t));
      ForkCode(|bs| == 1, b, t);
      assert Branches(init) + (BranchCode(|bs| == 1, b) + Code(t)) ==
             Branches(init) + BranchCode(|bs| == 1, b) + Code(t);
    }
  }

  ghost predicate AllValid(bs: seq<Node>, sets: seq<CSet>) {
    forall i :: 0 <= i < |bs| ==> Valid(bs[i], sets) && !IsChain(bs[i])
  }

  lemma {:induction false} ForksValid(bs: seq<Node>, t: Node, sets: seq<CSet>)
    requires AllValid(bs, sets) && Valid(t, sets) && IsChain(t)
    ensures Valid(Forks(bs, t), sets) && (bs != [] ==> !IsChain(Forks(bs, t)) && Len(Forks(bs, t)) > 0)
    decreases |bs|
  {
    if bs != [] { SomeForksValid(bs, t, sets); }
  }

  lemma {:induction false} SomeForksValid(bs: seq<Node>, t: Node, sets: seq<CSet>)
    requires bs != [] && AllValid(bs, sets) && Valid(t, sets) && IsChain(t)
    ensures Valid(Forks(bs, t), sets) && !IsChain(Forks(bs, t)) && Len(Forks(bs, t)) > 0
    decreases |bs|
  {
    if |bs| > 1 { SomeForksValid(bs[..|bs| - 1], Fork(false, bs[|bs| - 1], t), sets); }
  }

  /** The branch bookkeeping of one level of nesting. */
  class BranchContext {
    var start: nat
    var back: nat
    var fwd: nat
    var nbranch: nat

    constructor ()
      ensures nbranch == 0
    {
      start, back, fwd, nbranch := 0, 0, 0, 0;
    }
  }

  class Parser {
    var buf: Word
    var next: nat
    var end: nat
    var error: Option<Error>
    var strip: seq<Op>
    var sets: seq<CSet>
    var nsub: nat
    const newline: bool

    /** There is a NUL behind the text to read; after an error there is nothing left to read. */
    ghost predicate Valid()
      reads this
    {
      && end < |buf| && buf[end] == 0
      && (error.None? ==> next <= end)
      && (error.Some? ==> buf == NULS && end == 0 && next <= 2)
    }

    /** Reading the text t, at position p, no error so far. */
    ghost predicate Reads(t: Word, p: nat)
      reads this
    {
      Valid() && error.None? && buf[..end] == t && next == p
    }

    constructor (pattern: Word, newline: bool)
      ensures Reads(pattern, 0) && strip == [] && sets == [] && this.newline == newline
    {
      buf, next, end, error := pattern + [0], 0, |pattern|, None;
      strip, sets, nsub, this.newline := [], [], 0, newline;
      new;
      assert buf[..end] == pattern;
    }

    // ----- scanning -----

    method SetError(e: Error)
      requires Valid()
      modifies this`error, this`buf, this`next, this`end
      ensures Valid() && next == 0 && error == if old(error).None? then Some(e) else old(error)
    {
      if error.None? { error := Some(e); }
      buf, next, end := NULS, 0, 0;
    }

    method Require(cond: bool, e: Error)
      requires Valid()
      modifies this`error, this`buf, this`next, this`end
      ensures Valid() && error == if old(error).None? && !cond then Some(e) else old(error)
      ensures if cond then buf == old(buf) && next == old(next) && end == old(end) else next == 0
    {
      if !cond { SetError(e); }
    }

    /** MORE: there is something left to read. */
    predicate More()
      reads this
    {
      next < end
    }

    method Eat(c: Byte) returns (r: bool)
      requires Valid() && c != 0
      modifies this`next
      ensures Valid() && r == old(See(buf[..end], next, c)) && next == old(next) + (if r then 1 else 0)
    {
      r := More() && buf[next] == c;
      if r { next := next + 1; }
    }

    // ----- writing the strip -----

    /** EMIT */
    method DoEmit(op: Op)
      modifies this`strip
      ensures strip == if error.None? then old(strip) + [op] else old(strip)
    {
      if error.Some? { return; }
      strip := strip + [op];
    }

    /** INSERT: write at the end, then move everything from pos on up by one. */
    method DoInsert(op: Op, pos: nat)
      requires pos <= |strip|
      modifies this`strip
      ensures strip == if error.None? then old(strip)[..pos] + [op] + old(strip)[pos..] else old(strip)
    {
      if error.Some? { return; }
      var sn := |strip|;
      DoEmit(op);
      var s := strip[sn];
      strip := strip[..pos] + [s] + strip[pos..sn];
    }

    /** AHEAD: complete the operand at pos to reach the end of the strip. */
    method DoFwd(pos: nat, value: nat)
      requires error.None? ==> pos < |strip|
      modifies this`strip
      ensures strip == if error.None? then old(strip)[pos := WithOperand(old(strip)[pos], value)] else old(strip)
    {
      if error.Some? { return; }
      strip := strip[pos := WithOperand(strip[pos], value)];
    }

    method Dupl(start: nat, finish: nat) returns (copy: nat)
      requires start <= finish <= |strip|
      modifies this`strip
      ensures copy == old(|strip|) && strip == old(strip) + old(strip)[start..finish]
    {
      copy := |strip|;
      strip := strip + strip[start..finish];
    }

    /** OCH_ x OOR1 OOR2 O_CH around the operand from pos to the end of the strip. */
    method MakeOptional(pos: nat, ghost pre: seq<Op>, ghost x: Node)
      requires pos <= |strip|
      requires error.None? ==> strip == pre + Code(x) && pos == |pre|
      modifies this`strip
      ensures error.None? ==> strip == pre + Code(Optional(x))
      ensures error.Some? ==> strip == old(strip)
    {
      ghost var k := |strip| - pos + 1;
      DoInsert(OCh_(|strip| - pos + 1), pos);
      assert error.None? ==> strip == pre + [OCh_(k)] + Code(x);
      FinishOptional(pos, pre, k, x);
    }

    /** The part after the OCH_, whose operand is completed here. */
    method FinishOptional(pos: nat, ghost pre: seq<Op>, ghost k: nat, ghost x: Node)
      requires pos <= |strip|
      requires error.None? ==> strip == pre + [OCh_(k)] + Code(x) && pos == |pre|
      modifies this`strip
      ensures error.None? ==> strip == pre + Code(Optional(x))
      ensures error.Some? ==> strip == old(strip)
    {
      hide Code, WithOperand;
      if error.Some? { return; }
      OptionalShape(pre, k, Code(x));
      OptionalCode(x);
      DoEmit(OOr1(|strip| - pos));
      DoFwd(pos, |strip| - pos);
      DoEmit(OOr2(0));
      DoFwd(|strip| - 1, 1);
      DoEmit(O_Ch(2));
    }

    /** x+ from the operand x. */
    method MakePlus(pos: nat, ghost pre: seq<Op>, ghost x: Node)
      requires pos <= |strip|
      requires error.None? ==> strip == pre + Code(x) && pos == |pre|
      modifies this`strip
      ensures error.None? ==> strip == pre + Code(Wrap(Plus, x))
      ensures error.Some? ==> strip == old(strip)
    {
      hide Code;
      DoInsert(OPlus_(|strip| - pos + 1), pos);
      DoEmit(O_Plus(|strip| - pos));
      WrapCode(pre, Plus, x);
    }

    /** x* as a bypass around x+. */
    method MakeStar(pos: nat, ghost pre: seq<Op>, ghost x: Node)
      requires pos <= |strip|
      requires error.None? ==> strip == pre + Code(x) && pos == |pre|
      modifies this`strip
      ensures error.None? ==> strip == pre + Code(Wrap(Quest, Wrap(Plus, x)))
      ensures error.Some? ==> strip == old(strip)
    {
      hide Code;
      MakePlus(pos, pre, x);
      DoInsert(OQuest_(|strip| - pos + 1), pos);
      DoEmit(O_Quest(|strip| - pos));
      WrapCode(pre, Quest, Wrap(Plus, x));
    }

    /** repeat: turn the operand from start on into from to upto copies of it. */
    method Repeat(start: nat, from: nat, upto: nat, ghost pre: seq<Op>, ghost x: Node)
      requires start <= |strip|
      requires error.None? ==> from <= upto && from < INFINITY && upto <= INFINITY
      requires error.None? ==> strip == pre + Code(x) && start == |pre|
      modifies this`strip
      ensures error.None? ==> strip == pre + Code(RepNode(x, from, upto))
      ensures error.Some? ==> strip == old(strip)
      decreases upto, Rank(from)
    {
      hide Code, Optional, Accepts, Len;
      var finish := |strip|;
      if error.Some? { return; }
      if from == 0 && upto == 0 {
        strip := strip[..start];
        NilCode(pre);
      } else if from == 0 {
        ghost var k := |strip| - start + 1;
        DoInsert(OCh_(|strip| - start + 1), start);
        assert strip == (pre + [OCh_(k)]) + Code(x);
        Repeat(start + 1, 1, upto, pre + [OCh_(k)], x);
        FinishOptional(start, pre, k, RepNode(x, 1, upto));
      } else if from == 1 && upto == 1 {
      } else if from == 1 && upto == INFINITY {
        MakePlus(start, pre, x);
      } else if from == 1 {
        MakeOptional(start, pre, x);
        OptionalInside(pre, x);
        var copy := Dupl(start + 1, finish + 1);
        assert copy == finish + 4;
        Repeat(copy, 1, upto - 1, pre + Code(Optional(x)), x);
        CatAssoc(pre, Optional(x), RepNode(x, 1, upto - 1));
      } else if upto == INFINITY {
        OperandInside(pre, Code(x));
        var copy := Dupl(start, finish);
        Repeat(copy, from - 1, upto, pre + Code(x), x);
        CatAssoc(pre, x, RepNode(x, from - 1, upto));
      } else {
        OperandInside(pre, Code(x));
        var copy := Dupl(start, finish);
        Repeat(copy, from - 1, upto - 1, pre + Code(x), x);
        CatAssoc(pre, x, RepNode(x, from - 1, upto - 1));
      }
    }

    // ----- alternation -----

    /** bs are the finished branches of the alternation that starts behind pre, c the code of the
        branch under way. */
    ghost predicate Building(bc: BranchContext, pre: seq<Op>, bs: seq<Node>, c: seq<Op>)
      reads this, bc
    {
      if bs == [] then bc.nbranch == 0 && strip == pre + c && bc.start == |pre|
      else
        && bc.nbranch > 0 && strip == pre + Branches(bs) + [OOr2(0)] + c
        && bc.fwd == |pre + Branches(bs)| && bc.back == bc.fwd - 1 && bc.start == bc.fwd + 1
    }

    /** A bar has been read after the branch x. */
    method InsertOffset(bc: BranchContext, ghost pre: seq<Op>, ghost bs: seq<Node>, ghost x: Node)
      requires error.None? && Building(bc, pre, bs, Code(x))
      modifies this`strip, bc`fwd, bc`back, bc`nbranch
      ensures strip == pre + Branches(bs + [x]) + [OOr2(0)]
      ensures bc.nbranch > 0 && bc.fwd == |pre + Branches(bs + [x])| && bc.back == bc.fwd - 1
    {
      hide Code, Branches, BranchCode;
      OpenBranches(bc, pre, bs, x);
      ghost var front := pre + Branches(bs);
      DoEmit(OOr1(|strip| - bc.back));
      bc.back := |strip| - 1;
      DoFwd(bc.fwd, |strip| - bc.fwd);
      BranchFinished(front, bs == [], x);
      BranchesGrow(pre, bs, x);
      bc.fwd := |strip|;
      DoEmit(OOr2(0));
      bc.nbranch := bc.nbranch + 1;
    }

    /** Before the first bar the alternation has to be opened. */
    method OpenBranches(bc: BranchContext, ghost pre: seq<Op>, ghost bs: seq<Node>, ghost x: Node)
      requires error.None? && Building(bc, pre, bs, Code(x))
      modifies this`strip, bc`fwd, bc`back
      ensures strip == pre + Branches(bs) + [OpenOp(bs == [], Len(x))] + Code(x)
      ensures bc.fwd == |pre + Branches(bs)| && bc.back == if bs == [] then bc.fwd else bc.fwd - 1
    {
      hide Code, Branches;
      NoBranches();
      if bc.nbranch == 0 {
        DoInsert(OCh_(|strip| - bc.start + 1), bc.start);
        bc.fwd := bc.start;
        bc.back := bc.start;
        assert pre + Branches(bs) == pre;
      }
    }

    /** The last branch x is complete. */
    method FixTail(bc: BranchContext, ghost pre: seq<Op>, ghost bs: seq<Node>, ghost x: Node)
      requires error.None? ==> Building(bc, pre, bs, Code(x))
      requires bc.nbranch > 0 ==> bc.fwd < |strip| && bc.back <= |strip|
      modifies this`strip
      ensures error.None? ==> strip == pre + Code(Alternation(bs, x))
      ensures error.Some? ==> strip == old(strip)
    {
      hide Code, Branches, Forks;
      if bc.nbranch > 0 {
        DoFwd(bc.fwd, |strip| - bc.fwd);
        DoEmit(O_Ch(|strip| - bc.back));
        if error.None? {
          TailShape(pre + Branches(bs), Code(x), Len(x));
          TailCode(pre, bs, x);
        }
      }
    }

    // ----- sets of characters -----

    method AllocSet() returns (k: nat)
      modifies this`sets
      ensures sets == old(sets) + [CSet({}, false)] && k == |old(sets)|
    {
      k := |sets|;
      sets := sets + [CSet({}, false)];
    }

    method CHAdd(k: nat, cs: set<Byte>)
      requires k < |sets|
      modifies this`sets
      ensures sets == old(sets)[k := CSet(old(sets)[k].bmp + cs, old(sets)[k].invert)]
    {
      sets := sets[k := CSet(sets[k].bmp + cs, sets[k].invert)];
    }

    /** Only the last set can be given back. */
    method FreeSet(k: nat)
      requires k < |sets|
      modifies this`sets
      ensures sets == if k == |old(sets)| - 1 then old(sets)[..k] else old(sets)[k := CSet({}, false)]
    {
      if k == |sets| - 1 { sets := sets[..k]; } else { sets := sets[k := CSet({}, false)]; }
    }

    /** p_b_symbol */
    method PBSymbol(ghost t: Word) returns (value: Byte)
      requires Valid() && (error.None? ==> buf[..end] == t)
      modifies this`error, this`buf, this`next, this`end
      ensures Valid() && (old(error).Some? ==> error == old(error))
      ensures old(error.None? && next < end) ==>
        match ParseSymbol(t, old(next)) case Ok(c, q) => Reads(t, q) && value == c case Err(x) => error == Some(x)
      ensures old(error.None? && next >= end) ==> error.Some?
    {
      value := 0;
      Require(More(), EBRACK);
      if error.Some? { return; }
      if next + 1 < end && buf[next] == '[' as int && buf[next + 1] == '.' as int {
        SetError(NotModelled);
        return;
      }
      value := buf[next];
      next := next + 1;
    }

    /** The end of a range, where a dash stands for itself. */
    method PBFinish(ghost t: Word) returns (finish: Byte)
      requires Reads(t, next) && next < end
      modifies this`error, this`buf, this`next, this`end
      ensures Valid()
      ensures match (if t[old(next)] == '-' as int then Ok('-' as int, old(next) + 1) else ParseSymbol(t, old(next)))
              case Ok(c, q) => Reads(t, q) && finish == c
              case Err(x) => error == Some(x)
    {
      if buf[next] == '-' as int {
        next := next + 1;
        finish := '-' as int;
      } else {
        finish := PBSymbol(t);
      }
    }

    /** p_b_term: add one character or range to the set k. */
    method PBTerm(ghost t: Word, k: nat)
      requires Reads(t, next) && next < end && k < |sets|
      modifies this`error, this`buf, this`next, this`end, this`sets
      ensures Valid()
      ensures match ParseTerm(t, old(next))
              case Ok(cs, q) => Reads(t, q) && sets == old(sets)[k := CSet(old(sets)[k].bmp + cs, old(sets)[k].invert)]
              case Err(x) => error == Some(x) && sets == old(sets)
    {
      hide Interval, ParseSymbol;
      if next + 1 < end && buf[next] == '[' as int && (buf[next + 1] == ':' as int || buf[next + 1] == '=' as int) {
        SetError(NotModelled);
        return;
      }
      if buf[next] == '-' as int {
        SetError(ERANGE);
        return;
      }
      var start := PBSymbol(t);
      if error.Some? { return; }
      var finish := start;
      if More() && buf[next] == '-' as int && next + 1 < end && buf[next + 1] != ']' as int {
        next := next + 1;
        finish := PBFinish(t);
        if error.Some? { return; }
      }
      OneInterval(start);
      if start == finish {
        CHAdd(k, {start});
      } else {
        Require(start <= finish, ERANGE);
        if error.None? { CHAdd(k, Interval(start, finish)); }
      }
    }

    /** The terms of a bracket expression. */
    method PBTerms(ghost t: Word, k: nat)
      requires Reads(t, next) && k < |sets|
      modifies this`error, this`buf, this`next, this`end, this`sets
      ensures Valid() && |sets| == |old(sets)| && sets[..k] == old(sets)[..k]
      ensures match ParseTerms(t, old(next), old(sets)[k].bmp)
              case Ok(all, q) => Reads(t, q) && sets == old(sets)[k := CSet(all, old(sets)[k].invert)]
              case Err(x) => error == Some(x)
    {
      ghost var p0, s0 := next, sets;
      while error.None? && More() && buf[next] != ']' as int
          && !(next + 1 < end && buf[next] == '-' as int && buf[next + 1] == ']' as int)
        invariant Valid() && |sets| == |s0| && sets[..k] == s0[..k]
        invariant error.None? ==>
          && Reads(t, next) && sets == s0[k := CSet(sets[k].bmp, s0[k].invert)]
          && ParseTerms(t, p0, s0[k].bmp) == ParseTerms(t, next, sets[k].bmp)
        invariant error.Some? ==> ParseTerms(t, p0, s0[k].bmp) == Err(error.value)
        decreases end - next
      {
        PBTerm(t, k);
      }
    }

    /** p_bracket: the operator for a bracket expression, a plain character if only one fits. */
    method PBracket(ghost t: Word) returns (ghost x: Node)
      requires Reads(t, next)
      modifies this`error, this`buf, this`next, this`end, this`sets, this`strip
      ensures Valid() && old(sets) <= sets && |old(strip)| <= |strip|
      ensures match ParseBracket(t, old(next))
              case Ok(cs, q) =>
                && Reads(t, q) && strip == old(strip) + Code(x) && IsOne(x, BracketChars(cs, newline), sets)
              case Err(e) => error == Some(e)
    {
      hide Code, IsOne, BracketChars, ParseTerms, BracketStart, BracketEnd;
      x := Nil;
      if next + 5 < end && buf[next] == '[' as int && buf[next + 1] == ':' as int
        && (buf[next + 2] == '<' as int || buf[next + 2] == '>' as int)
        && buf[next + 3] == ':' as int && buf[next + 4] == ']' as int && buf[next + 5] == ']' as int
      {
        SetError(NotModelled);
        return;
      }
      ghost var s0 := sets;
      var k := AllocSet();
      var invert := PBStart(t, k);
      assert sets[..k] == s0;
      PBTerms(t, k);
      if error.Some? { return; }
      PBEnd(t, k);
      if error.Some? { return; }
      assert sets[..k] == s0;
      x := EmitSet(k, invert);
    }

    method PBStart(ghost t: Word, k: nat) returns (invert: bool)
      requires Reads(t, next) && k < |sets| && sets[k] == CSet({}, false)
      modifies this`next, this`sets
      ensures var (i, first, q) := BracketStart(t, old(next));
              invert == i && Reads(t, q) && sets == old(sets)[k := CSet(first, i)]
    {
      ghost var none: set<Byte> := {};
      assert forall c: Byte :: none + {c} == {c};
      invert := Eat('^' as int);
      if invert { sets := sets[k := sets[k].(invert := true)]; }
      var bracket := Eat(']' as int);
      if bracket {
        CHAdd(k, {']' as int});
      } else {
        var dash := Eat('-' as int);
        if dash { CHAdd(k, {'-' as int}); }
      }
    }

    method PBEnd(ghost t: Word, k: nat)
      requires Reads(t, next) && k < |sets|
      modifies this`error, this`buf, this`next, this`end, this`sets
      ensures Valid() && |sets| == |old(sets)| && sets[..k] == old(sets)[..k]
      ensures match BracketEnd(t, old(next), old(sets)[k].bmp)
              case Ok(bmp, q) => Reads(t, q) && sets == old(sets)[k := CSet(bmp, old(sets)[k].invert)]
              case Err(x) => error == Some(x)
    {
      var dash := Eat('-' as int);
      if dash { CHAdd(k, {'-' as int}); }
      var close := Eat(']' as int);
      Require(close, EBRACK);
    }

    /** The set k is complete: leave the newline out if asked to, and write the operator. */
    method EmitSet(k: nat, invert: bool) returns (ghost x: Node)
      requires Valid() && error.None? && |sets| == k + 1 && sets[k].invert == invert
      modifies this`sets, this`strip
      ensures old(sets)[..k] <= sets && strip == old(strip) + Code(x)
      ensures IsOne(x, BracketChars(old(sets)[k], newline), sets)
    {
      ghost var cs := sets[k];
      if invert && newline { CHAdd(k, {NEWLINE}); }
      NewlineLeftOut(cs, sets[k], newline);
      var ch := Singleton(sets[k]);
      if 0 <= ch {
        DoEmit(OChar(ch));
        x := One(OChar(ch), BracketChars(cs, newline));
        FreeSet(k);
      } else {
        DoEmit(OAnyOf(k));
        x := One(OAnyOf(k), BracketChars(cs, newline));
      }
    }

    /** The only character of a set, or OUT. */
    method Singleton(cs: CSet) returns (ch: int)
      ensures ch == -129 || 0 <= ch < 256
      ensures 0 <= ch ==> forall c: Byte :: CHIN(cs, c) <==> c == ch
    {
      var n, s := 0, 0;
      for i := 0 to 256
        invariant 0 <= n && 0 <= s < 256
        invariant n == 0 ==> forall c: Byte :: c < i ==> !CHIN(cs, c)
        invariant n == 1 ==> forall c: Byte :: c < i ==> (CHIN(cs, c) <==> c == s)
        invariant n == 1 ==> s < i && CHIN(cs, s)
      {
        if CHIN(cs, i) { n, s := n + 1, i; }
      }
      ch := if n == 1 then s else -129;
    }

    /** nonnewline: read the bracket expression [^\n] in place of the pattern. */
    method NonNewline(ghost t: Word) returns (ghost x: Node)
      requires Reads(t, next) && newline
      modifies this`error, this`buf, this`next, this`end, this`sets, this`strip
      ensures Reads(t, old(next)) && old(sets) <= sets && strip == old(strip) + Code(x)
      ensures IsOne(x, AnyChars(newline), sets)
    {
      var oldbuf, oldnext, oldend := buf, next, end;
      buf, next, end := ['^' as int, NEWLINE, ']' as int, 0], 0, 3;
      NonNewlineParses();
      assert buf[..end] == NONNEWLINE;
      x := PBracket(NONNEWLINE);
      buf, next, end := oldbuf, oldnext, oldend;
    }

    // ----- repetition -----

    /** p_count */
    method PCount(ghost t: Word) returns (count: nat)
      requires Valid() && (error.None? ==> buf[..end] == t)
      modifies this`error, this`buf, this`next, this`end
      ensures Valid() && (old(error).Some? ==> error == old(error))
      ensures old(error).None? ==>
        match ParseCount(t, old(next)) case Ok(n, q) => Reads(t, q) && count == n case Err(x) => error == Some(x)
    {
      count := 0;
      var ndigits := 0;
      ghost var p0 := next;
      while More() && IsDigit(buf[next]) && count <= DUPMAX
        invariant Valid() && ndigits == next - p0 && error == old(error) && buf == old(buf) && end == old(end)
        invariant error.None? ==> CountFrom(t, p0, 0) == CountFrom(t, next, count)
        invariant error.Some? ==> next == p0
        decreases end - next
      {
        count := count * 10 + (buf[next] - '0' as int);
        next := next + 1;
        ndigits := ndigits + 1;
      }
      Require(ndigits > 0 && count <= DUPMAX, BADBR);
    }

    /** The two counts of a bound. */
    method PBounds(ghost t: Word) returns (count: nat, count2: nat)
      requires Valid() && (error.None? ==> buf[..end] == t)
      modifies this`error, this`buf, this`next, this`end
      ensures Valid() && (old(error).Some? ==> error == old(error))
      ensures old(error).None? ==>
        match ParseLimits(t, old(next))
        case Ok((n, hi), q) =>
          Reads(t, q) && count == n && hi == LimitOf(count2) && n <= count2 <= INFINITY && n <= DUPMAX
        case Err(x) => error == Some(x)
    {
      count := PCount(t);
      var comma := Eat(',' as int);
      if comma {
        if IsDigit(buf[next]) {
          count2 := PCount(t);
          Require(count <= count2, BADBR);
        } else {
          count2 := INFINITY;
        }
      } else {
        count2 := count;
      }
    }

    /** The closing brace, or one of two complaints about its absence. */
    method PBrace(ghost t: Word)
      requires Valid() && (error.None? ==> buf[..end] == t)
      modifies this`error, this`buf, this`next, this`end
      ensures Valid() && (old(error).Some? ==> error == old(error))
      ensures old(error).None? ==>
        if See(t, old(next), '}' as int) then Reads(t, old(next) + 1)
        else error == Some(if LaterBrace(t, old(next)) then BADBR else EBRACE)
    {
      var close := Eat('}' as int);
      if !close {
        ghost var p0 := next;
        while More() && buf[next] != '}' as int
          invariant Valid() && error == old(error) && buf == old(buf) && end == old(end) && p0 <= next
          invariant error.None? ==> forall q: nat :: p0 <= q < next ==> t[q] != '}' as int
          decreases end - next
        {
          next := next + 1;
        }
        assert error.None? ==> (LaterBrace(t, p0) <==> next < end);
        Require(More(), EBRACE);
        SetError(BADBR);
      }
    }

    /** The repetition operator at the scanner, applied to the operand from pos on. */
    method PSuffix(ghost t: Word, pos: nat, ghost pre: seq<Op>, ghost a: Node) returns (ghost x: Node)
      requires Reads(t, next) && next < end && IsRepetition(buf[next])
      requires pos == |pre| && strip == pre + Code(a) && Len(a) > 0 && Usable(a, sets)
      modifies this`error, this`buf, this`next, this`end, this`strip
      ensures Valid() && pos <= |strip|
      ensures match ParseSuffix(t, old(next))
              case Ok((lo, hi), q) =>
                && Reads(t, q) && strip == pre + Code(x)
                && Repeats(x, a, lo, hi, sets)
              case Err(e) => error == Some(e)
    {
      hide Code, Repeats, Accepts, Usable, RepNode;
      var c := buf[next];
      x := a;
      if c == '{' as int {
        Require(next + 1 < end && (IsDigit(buf[next + 1]) || buf[next + 1] == ',' as int), BADRPT);
      }
      next := next + 1;
      if c == '*' as int {
        MakeStar(pos, pre, a);
        x := Wrap(Quest, Wrap(Plus, a));
        StarRepeats(a, sets);
      } else if c == '+' as int {
        MakePlus(pos, pre, a);
        x := Wrap(Plus, a);
        PlusRepeats(a, sets);
      } else if c == '?' as int {
        MakeOptional(pos, pre, a);
        x := Optional(a);
        OptionalRepeats(a, sets);
      } else {
        x := PBound(t, pos, pre, a);
      }
    }

    /** A repetition between bounds, from the bounds on. */
    method PBound(ghost t: Word, pos: nat, ghost pre: seq<Op>, ghost a: Node) returns (ghost x: Node)
      requires Valid() && (error.None? ==> buf[..end] == t && pos == |pre| && strip == pre + Code(a))
      requires pos <= |strip| && Len(a) > 0 && Usable(a, sets)
      modifies this`error, this`buf, this`next, this`end, this`strip
      ensures Valid() && pos <= |strip| && (old(error).Some? ==> error == old(error))
      ensures old(error).None? ==>
        match ParseBounds(t, old(next))
        case Ok((lo, hi), q) => Reads(t, q) && strip == pre + Code(x) && Repeats(x, a, lo, hi, sets)
        case Err(e) => error == Some(e)
    {
      hide Code, Repeats, Accepts, Usable, RepNode;
      x := a;
      var count, count2 := PBounds(t);
      if error.None? {
        x := RepNode(a, count, count2);
        RepRepeats(a, count, count2, sets);
      }
      Repeat(pos, count, count2, pre, a);
      PBrace(t);
    }

    // ----- expressions -----

    /** What a method leaves behind that has read r and written the code of x. */
    twostate predicate Wrote(t: Word, r: Parsed<Ere>, x: Node)
      reads this
    {
      && Valid() && old(sets) <= sets && |old(strip)| <= |strip|
      && match r
         case Ok(e, q) => Reads(t, q) && strip == old(strip) + Code(x) && GoodFor(x, e, sets, newline)
         case Err(er) => error == Some(er)
    }

    /** The part of p_ere_exp that reads an atom. */
    method PAtom(ghost t: Word) returns (ghost x: Node)
      requires Reads(t, next) && next < end
      modifies this
      ensures Wrote(t, ParseAtom(t, old(next)), x)
      ensures error.None? ==> Len(x) > 0
      decreases if error.None? then end - next + 1 else 0, 0
    {
      hide Accepts, Code, BracketChars, AnyChars, ParseRe, ParseBracket, Denotes, GoodFor, IsOne, Void;
      x := Nil;
      var c := buf[next];
      next := next + 1;
      if c == '(' as int {
        x := PGroup(t);
      } else if c == ')' as int {
        SetError(EPAREN);
      } else if c == '^' as int || c == '$' as int {
        SetError(NotModelled);
      } else if c == '|' as int {
        SetError(EEMPTY);
      } else if IsRepetition(c) {
        SetError(BADRPT);
      } else if c == '.' as int {
        if newline {
          x := NonNewline(t);
        } else {
          DoEmit(OAny);
          x := One(OAny, AnyChars(false));
          OneCode(x);
          DotIsOne(sets);
        }
        if error.None? { AnyGood(x, sets, newline); }
      } else if c == '[' as int {
        x := PBracket(t);
        if error.None? {
          ghost var cs := ParseBracket(t, old(next) + 1).value;
          BracketGood(x, cs, sets, newline);
        }
      } else if c == '\\' as int {
        x := PEscape(t);
      } else {
        DoEmit(OChar(c));
        x := One(OChar(c), {c});
        OneCode(x);
        ChrGood(c, sets, newline);
      }
    }

    /** After a backslash. */
    method PEscape(ghost t: Word) returns (ghost x: Node)
      requires Reads(t, next) && 0 < next && buf[next - 1] == '\\' as int
      modifies this
      ensures Wrote(t, ParseAtom(t, old(next) - 1), x)
      ensures error.None? ==> Len(x) > 0
    {
      x := Nil;
      Require(More(), EESCAPE);
      var wc := buf[next];
      next := next + 1;
      if wc == '<' as int || wc == '>' as int {
        SetError(NotModelled);
      } else if MayEscape(wc) {
        DoEmit(OChar(wc));
        if error.None? {
          x := One(OChar(wc), {wc});
          ChrGood(wc, sets, newline);
        }
      } else {
        SetError(EESCAPE);
      }
    }

    /** After an opening parenthesis. */
    method PGroup(ghost t: Word) returns (ghost x: Node)
      requires Reads(t, next) && 0 < next && buf[next - 1] == '(' as int
      modifies this
      ensures Wrote(t, ParseAtom(t, old(next) - 1), x)
      ensures error.None? ==> Len(x) > 0
      decreases if error.None? then end - next + 1 else 0, 5
    {
      hide Accepts, Code, Usable, ParseRe, Denotes, Void, GoodFor;
      ghost var p := next;
      Require(More(), EPAREN);
      nsub := nsub + 1;
      var subno := nsub;
      DoEmit(OLParen(subno));
      ghost var inside := PInside(t);
      DoEmit(ORParen(subno));
      var close := Eat(')' as int);
      Require(close, EPAREN);
      x := Wrap(Group(subno), inside);
      if error.None? {
        GroupCode(old(strip), subno, inside);
        GroupGood(inside, ReadInside(t, p).value, subno, sets, newline);
      }
    }

    /** What a group holds: nothing, or an expression. */
    method PInside(ghost t: Word) returns (ghost x: Node)
      requires Valid() && (error.None? ==> buf[..end] == t)
      modifies this
      ensures old(error).None? ==> Wrote(t, ReadInside(t, old(next)), x)
      ensures old(error).Some? ==> Valid() && error == old(error) && strip == old(strip) && sets == old(sets)
      decreases if error.None? then end - next + 1 else 0, 4
    {
      hide Code, ParseRe, GoodFor;
      x := Nil;
      NilGood(sets, newline);
      NilCode(strip);
      if !(More() && buf[next] == ')' as int) { x := PRe(true, t); }
    }

    /** p_ere_exp: an atom and a repetition operator behind it. */
    method PEreExp(ghost t: Word) returns (ghost x: Node)
      requires Reads(t, next) && next < end
      modifies this
      ensures Wrote(t, ParsePiece(t, old(next)), x)
      ensures error.None? ==> Len(x) > 0 || (ParsePiece(t, old(next)).value.Rep?)
      decreases if error.None? then end - next + 1 else 0, 1
    {
      hide Accepts, Code, Usable, ParseAtom, ParseSuffix, Denotes, Void, GoodFor, Repeats;
      var pos := |strip|;
      x := PAtom(t);
      if !More() || !IsRepetition(buf[next]) { return; }
      ghost var a, q := ParseAtom(t, old(next)).value, next;
      GoodUsable(x, a, sets, newline);
      ghost var y := PSuffix(t, pos, old(strip), x);
      if error.None? {
        ghost var suffix := ParseSuffix(t, q).value;
        RepGood(y, x, a, suffix.0, suffix.1, sets, newline);
      }
      x := y;
      if More() && (buf[next] == '*' as int || buf[next] == '+' as int || buf[next] == '?' as int
        || (buf[next] == '{' as int && next + 1 < end && IsDigit(buf[next + 1])))
      {
        SetError(BADRPT);
      }
    }

    /** The concatenation up to the end of a branch. */
    method PBranch(inner: bool, ghost t: Word) returns (ghost x: Node)
      requires Valid() && (error.None? ==> buf[..end] == t)
      modifies this
      ensures old(error).None? ==> Wrote(t, ParseBranch(t, old(next), inner, Empty), x)
      ensures old(error).Some? ==> Valid() && error == old(error) && strip == old(strip) && sets == old(sets)
      decreases if error.None? then end - next + 1 else 0, 2, 0
    {
      hide Accepts, Code, GoodFor;
      ghost var p0, s0, k0 := next, strip, sets;
      ghost var sofar: Ere := Empty;
      x := Nil;
      NilGood(sets, newline);
      NilCode(strip);
      while More() && buf[next] != '|' as int && !(inner && buf[next] == ')' as int)
        invariant Valid() && k0 <= sets && |s0| <= |strip|
        invariant old(error).None? && error.None? ==>
          && Reads(t, next) && strip == s0 + Code(x) && GoodFor(x, sofar, sets, newline)
          && (sofar == Empty ==> x == Nil)
          && ParseBranch(t, p0, inner, Empty) == ParseBranch(t, next, inner, sofar)
        invariant old(error).None? && error.Some? ==> ParseBranch(t, p0, inner, Empty) == Err(error.value)
        invariant old(error).Some? ==> error == old(error) && strip == s0 && sets == k0
        invariant error.None? ==> old(error).None? && p0 <= next
        decreases end - next
      {
        ghost var k1, p := sets, next;
        ghost var y := PEreExp(t);
        if error.None? {
          ghost var e := ParsePiece(t, p).value;
          PieceJoins(s0, x, y, sofar, e, k1, sets, newline);
          x := if sofar == Empty then y else Cat(x, y);
          sofar := if sofar == Empty then e else Seq(sofar, e);
        }
      }
    }

    /** p_branch_eat_delim */
    method PBranchEatDelim(ghost t: Word) returns (ate: nat)
      requires Valid() && (error.None? ==> buf[..end] == t)
      modifies this`next
      ensures Valid() && old(next) + ate == next && (error.Some? ==> ate == 0)
      ensures error.None? ==> forall q: nat :: old(next) <= q < next ==> q < |t| && t[q] == '|' as int
      ensures error.None? ==> !See(t, next, '|' as int)
    {
      ate := 0;
      ghost var p0 := next;
      while More() && buf[next] == '|' as int
        invariant Valid() && p0 + ate == next && (error.Some? ==> ate == 0)
        invariant error.None? ==> forall q: nat :: p0 <= q < next ==> q < |t| && t[q] == '|' as int
        decreases end - next
      {
        next := next + 1;
        ate := ate + 1;
      }
    }

    /** p_branch_do: go on after a bar. */
    method PBranchDo(inner: bool, bc: BranchContext, ghost t: Word, ghost pre: seq<Op>, ghost bs: seq<Node>,
                     ghost y: Node) returns (more: bool)
      requires Valid() && (error.None? ==> buf[..end] == t && Building(bc, pre, bs, Code(y)))
      modifies this`error, this`buf, this`next, this`end, this`strip, bc`fwd, bc`back, bc`nbranch
      ensures Valid()
      ensures old(error).Some? ==> !more && error == old(error) && strip == old(strip) && bc.nbranch == old(bc.nbranch)
      ensures old(error).None? && !See(t, old(next), '|' as int) ==>
        !more && Reads(t, old(next)) && strip == old(strip) && Building(bc, pre, bs, Code(y))
      ensures old(error).None? && See(t, old(next), '|' as int) ==>
        if more then Reads(t, old(next) + 1) && Opened(bc, pre, bs + [y]) && old(|strip|) <= |strip|
        else error.Some? && ParseRe(t, old(next) + 1, inner) == Err(error.value) && strip == old(strip)
      ensures bc.start == old(bc.start)
      ensures !more ==> bc.fwd == old(bc.fwd) && bc.back == old(bc.back) && bc.nbranch == old(bc.nbranch)
    {
      hide Code;
      var ate := PBranchEatDelim(t);
      if ate == 0 { return false; }
      assert ate > 1 ==> t[old(next) + 1] == '|' as int;
      if ate > 1 || (!inner && !More()) {
        EmptyBranch(t, old(next) + 1, inner);
        SetError(EEMPTY);
        return false;
      }
      InsertOffset(bc, pre, bs, y);
      return true;
    }

    ghost predicate Opened(bc: BranchContext, pre: seq<Op>, bs: seq<Node>)
      reads this, bc
    {
      && bs != [] && strip == pre + Branches(bs) + [OOr2(0)]
      && bc.nbranch > 0 && bc.fwd == |pre + Branches(bs)| && bc.back == bc.fwd - 1
    }

    /** p_re: branches separated by bars, each of which must leave some code. */
    method PRe(inner: bool, ghost t: Word) returns (ghost x: Node)
      requires Valid() && (error.None? ==> buf[..end] == t)
      modifies this
      ensures old(error).None? ==> Wrote(t, ParseRe(t, old(next), inner), x)
      ensures old(error).Some? ==> Valid() && error == old(error) && strip == old(strip) && sets == old(sets)
      decreases if error.None? then end - next + 1 else 0, 3
    {
      hide Code, GoodFor, Branches, AllGood, OrAll, JoinOr, Void, ParseRe, ParseBranch, Alternation;
      ghost var p0, s0, k0 := next, strip, sets;
      ghost var es: seq<Ere>, bs: seq<Node> := [], [];
      ghost var y, e := Nil, Empty;
      if error.None? { JoinNone(sets, newline, ParseRe(t, next, inner)); }
      var bc := new BranchContext();
      var more := true;
      while more
        invariant fresh(bc) && Valid() && k0 <= sets && |s0| <= |strip|
        invariant bc.nbranch > 0 ==> bc.fwd < |strip| && bc.back <= |strip|
        invariant old(error).Some? ==> error == old(error) && strip == s0 && sets == k0 && bc.nbranch == 0
        invariant error.None? ==> old(error).None? && p0 <= next
        invariant old(error).None? && error.Some? ==> !more && ParseRe(t, p0, inner) == Err(error.value)
        invariant error.None? && more ==>
          && Reads(t, next) && AllGood(bs, es, sets, newline)
          && ParseRe(t, p0, inner) == JoinOr(es, ParseRe(t, next, inner))
          && (if bs == [] then strip == s0 && bc.nbranch == 0 else Opened(bc, s0, bs))
        invariant error.None? && !more ==>
          && Reads(t, next) && AllGood(bs, es, sets, newline) && GoodFor(y, e, sets, newline) && Len(y) > 0
          && Building(bc, s0, bs, Code(y)) && ParseRe(t, p0, inner) == Ok(OrAll(es, e), next)
        decreases more, end - next
      {
        ghost var p, k1 := next, sets;
        more, y := POneBranch(inner, bc, t, s0, bs);
        if old(error).None? {
          AllGrow(bs, es, k1, sets, newline);
          if error.Some? {
            FailedBranch(t, p, inner, es, error.value);
          } else {
            e := ParseBranchValue(t, p, inner);
            ReadBranch(t, p, inner, es, more, next);
            if more {
              AllMore(bs, y, es, e, sets, newline);
              bs, es := bs + [y], es + [e];
            }
          }
        }
      }
      FixTail(bc, s0, bs, y);
      x := Alternation(bs, y);
      if error.None? { AlternationGood(bs, y, es, e, sets, newline); }
    }

    /** One round of p_re: a branch and the bar behind it, if there is one. */
    method POneBranch(inner: bool, bc: BranchContext, ghost t: Word, ghost pre: seq<Op>, ghost bs: seq<Node>)
      returns (more: bool, ghost y: Node)
      requires Valid()
      requires error.None? ==>
        buf[..end] == t && if bs == [] then strip == pre && bc.nbranch == 0 else Opened(bc, pre, bs)
      modifies this, bc
      ensures Valid() && old(sets) <= sets && old(|strip|) <= |strip|
      ensures !more ==> bc.fwd == old(bc.fwd) && bc.back == old(bc.back) && bc.nbranch == old(bc.nbranch)
      ensures old(error).Some? ==> !more && error == old(error) && strip == old(strip) && sets == old(sets)
      ensures old(error).None? ==>
        match ParseBranch(t, old(next), inner, Empty)
        case Err(er) => error == Some(er) && !more
        case Ok(e, q) =>
          if Void(e) then error == Some(EEMPTY) && !more
          else if See(t, q, '|' as int) then
            if more then Reads(t, q + 1) && Opened(bc, pre, bs + [y]) && GoodFor(y, e, sets, newline)
            else error.Some? && ParseRe(t, q + 1, inner) == Err(error.value)
          else !more && Reads(t, q) && GoodFor(y, e, sets, newline) && Len(y) > 0 && Building(bc, pre, bs, Code(y))
      decreases if error.None? then end - next + 1 else 0, 2, 1
    {
      hide Code, Branches, ParseRe, ParseBranch, Denotes, Usable;
      bc.start := |strip|;
      y := PBranch(inner, t);
      Require(|strip| != bc.start, EEMPTY);
      more := PBranchDo(inner, bc, t, pre, bs, y);
    }
  }

  /** The expression inside a group, as the reader has it. */
  ghost function ReadInside(t: Word, p: nat): Parsed<Ere>
    requires p <= |t|
  {
    if See(t, p, ')' as int) then Ok(Empty, p) else ParseRe(t, p, true)
  }

  ghost predicate AllGood(bs: seq<Node>, es: seq<Ere>, sets: seq<CSet>, newline: bool) {
    |bs| == |es| && forall i :: 0 <= i < |bs| ==> GoodFor(bs[i], es[i], sets, newline)
  }

  lemma AllGrow(bs: seq<Node>, es: seq<Ere>, s: seq<CSet>, s': seq<CSet>, newline: bool)
    requires s <= s'
    ensures AllGood(bs, es, s, newline) ==> AllGood(bs, es, s', newline)
  {
    if AllGood(bs, es, s, newline) {
      forall i | 0 <= i < |bs| ensures GoodFor(bs[i], es[i], s', newline) {
        ValidGrows(bs[i], s, s');
      }
    }
  }

  lemma AllMore(bs: seq<Node>, y: Node, es: seq<Ere>, e: Ere, sets: seq<CSet>, newline: bool)
    requires AllGood(bs, es, sets, newline) && GoodFor(y, e, sets, newline)
    ensures AllGood(bs + [y], es + [e], sets, newline)
  {
    hide GoodFor;
  }

  /** What reading an expression does with its first branch. */
  lemma ReSplits(t: Word, p: nat, inner: bool)
    requires p <= |t|
    ensures match ParseBranch(t, p, inner, Empty)
            case Err(x) => ParseRe(t, p, inner) == Err(x)
            case Ok(e, q) =>
              if Void(e) then ParseRe(t, p, inner) == Err(EEMPTY)
              else if See(t, q, '|' as int) then ParseRe(t, p, inner) == JoinOr([e], ParseRe(t, q + 1, inner))
              else ParseRe(t, p, inner) == Ok(e, q)
  {
    match ParseBranch(t, p, inner, Empty)
    case Err(_) =>
    case Ok(e, q) =>
      if See(t, q, '|' as int) && ParseRe(t, q + 1, inner).Ok? {
        OrAllOne(e, ParseRe(t, q + 1, inner).value);
      }
  }

  /** Reading fails where a branch fails, is empty, or is followed by what fails. */
  lemma FailedBranch(t: Word, p: nat, inner: bool, es: seq<Ere>, error: Error)
    requires p <= |t|
    requires match ParseBranch(t, p, inner, Empty)
             case Err(er) => error == er
             case Ok(e, q) =>
               if Void(e) then error == EEMPTY
               else See(t, q, '|' as int) && ParseRe(t, q + 1, inner) == Err(error)
    ensures JoinOr(es, ParseRe(t, p, inner)) == Err(error)
  {
    hide ParseRe, ParseBranch, JoinOr;
    ReSplits(t, p, inner);
    JoinErr(es, error);
    JoinErr([ParseBranchValue(t, p, inner)], error);
  }

  /** Reading goes on behind a branch and a bar, or ends behind the last branch. */
  lemma ReadBranch(t: Word, p: nat, inner: bool, es: seq<Ere>, more: bool, next: nat)
    requires p <= |t| && ParseBranch(t, p, inner, Empty).Ok? && !Void(ParseBranchValue(t, p, inner))
    requires var q := ParseBranch(t, p, inner, Empty).next;
      if more then See(t, q, '|' as int) && next == q + 1 else !See(t, q, '|' as int) && next == q
    ensures more ==>
              JoinOr(es, ParseRe(t, p, inner)) == JoinOr(es + [ParseBranchValue(t, p, inner)], ParseRe(t, next, inner))
    ensures !more ==> JoinOr(es, ParseRe(t, p, inner)) == Ok(OrAll(es, ParseBranchValue(t, p, inner)), next)
  {
    hide ParseRe, ParseBranch, JoinOr, Void;
    ReSplits(t, p, inner);
    var e := ParseBranchValue(t, p, inner);
    if more { JoinMore(es, e, ParseRe(t, next, inner)); } else { JoinOk(es, e, next); }
  }

  lemma OrAllOne(e: Ere, f: Ere)
    ensures OrAll([e], f) == Or(e, f)
  {
    assert [e][..0] == [];
    assert OrAll([], Or(e, f)) == Or(e, f);
  }

  lemma JoinMore(es: seq<Ere>, e: Ere, r: Parsed<Ere>)
    ensures JoinOr(es, JoinOr([e], r)) == JoinOr(es + [e], r)
  {
    if r.Ok? {
      OrAllOne(e, r.value);
      assert (es + [e])[..|es|] == es;
    }
  }

  ghost function ParseBranchValue(t: Word, p: nat, inner: bool): Ere
    requires p <= |t|
  {
    match ParseBranch(t, p, inner, Empty)
    case Ok(e, _) => e
    case Err(_) => Empty
  }

  lemma JoinNone(sets: seq<CSet>, newline: bool, r: Parsed<Ere>)
    ensures AllGood([], [], sets, newline) && JoinOr([], r) == r
  {}

  lemma JoinErr(es: seq<Ere>, x: Error)
    ensures JoinOr(es, Err(x)) == Err(x)
  {}

  lemma JoinOk(es: seq<Ere>, e: Ere, q: nat)
    ensures JoinOr(es, Ok(e, q)) == Ok(OrAll(es, e), q)
  {}

  lemma ForkOr(first: bool, a: Node, t: Node, e: Ere, f: Ere, newline: bool)
    requires Accepts(a) == Denotes(e, newline) && Accepts(t) == Denotes(f, newline)
    ensures Accepts(Fork(first, a, t)) == Denotes(Or(e, f), newline)
  {
    hide Concat, AtLeast;
  }

  lemma {:induction false} OrAllDenotes(bs: seq<Node>, t: Node, es: seq<Ere>, f: Ere, sets: seq<CSet>, newline: bool)
    requires AllGood(bs, es, sets, newline) && Accepts(t) == Denotes(f, newline)
    ensures Accepts(Forks(bs, t)) == Denotes(OrAll(es, f), newline)
    decreases |bs|
  {
    hide Accepts, Denotes, Concat;
    if bs != [] {
      var n := |bs| - 1;
      assert GoodFor(bs[n], es[n], sets, newline);
      ForkOr(|bs| == 1, bs[n], t, es[n], f, newline);
      OrAllDenotes(bs[..n], Fork(|bs| == 1, bs[n], t), es[..n], Or(es[n], f), sets, newline);
    }
  }

  lemma {:induction false} OrAllVoid(es: seq<Ere>, f: Ere)
    requires es != [] || !Void(f)
    ensures !Void(OrAll(es, f))
    decreases |es|
  {
    if es != [] { OrAllVoid(es[..|es| - 1], Or(es[|es| - 1], f)); }
  }

  lemma AlternationGood(bs: seq<Node>, y: Node, es: seq<Ere>, e: Ere, sets: seq<CSet>, newline: bool)
    requires AllGood(bs, es, sets, newline) && GoodFor(y, e, sets, newline) && Len(y) > 0
    ensures GoodFor(Alternation(bs, y), OrAll(es, e), sets, newline)
  {
    if bs != [] {
      var t := Wrap(Last, y);
      OrAllDenotes(bs, t, es, e, sets, newline);
      OrAllVoid(es, e);
      forall i | 0 <= i < |bs| ensures Valid(bs[i], sets) && !IsChain(bs[i]) {
        assert GoodFor(bs[i], es[i], sets, newline);
      }
      assert Valid(t, sets);
      ForksValid(bs, t, sets);
    }
  }

  /** The tree for the branches es and a last one. */
  function OrAll(es: seq<Ere>, f: Ere): Ere {
    if es == [] then f else OrAll(es[..|es| - 1], Or(es[|es| - 1], f))
  }

  function JoinOr(es: seq<Ere>, r: Parsed<Ere>): Parsed<Ere> {
    match r
    case Ok(f, q) => Ok(OrAll(es, f), q)
    case Err(x) => Err(x)
  }

  /** Nothing but a bar, a closing parenthesis or the end follows where a branch should start. */
  lemma EmptyBranch(t: Word, p: nat, inner: bool)
    requires p <= |t| && BranchEnds(t, p, inner)
    ensures ParseRe(t, p, inner) == Err(EEMPTY)
  {}

  lemma PieceJoins(pre: seq<Op>, x: Node, y: Node, e: Ere, f: Ere, s: seq<CSet>, s': seq<CSet>, newline: bool)
    requires GoodFor(x, e, s, newline) && GoodFor(y, f, s', newline) && s <= s'
    ensures GoodFor(Cat(x, y), Seq(e, f), s', newline)
    ensures pre + Code(x) + Code(y) == pre + Code(Cat(x, y))
    ensures x == Nil ==> pre + Code(x) + Code(y) == pre + Code(y)
  {
    hide Valid, Code;
    ValidGrows(x, s, s');
    CatAssoc(pre, x, y);
    CatGood(x, y, e, f, s', newline);
    if x == Nil { NilCode(pre); }
  }

  lemma CatGood(x: Node, y: Node, e: Ere, f: Ere, s: seq<CSet>, newline: bool)
    requires GoodFor(x, e, s, newline) && GoodFor(y, f, s, newline)
    ensures GoodFor(Cat(x, y), Seq(e, f), s, newline)
  {
    hide Concat, AtLeast, Between;
  }

  lemma NilGood(sets: seq<CSet>, newline: bool)
    ensures GoodFor(Nil, Empty, sets, newline)
  {}

  lemma GoodUsable(x: Node, e: Ere, sets: seq<CSet>, newline: bool)
    requires GoodFor(x, e, sets, newline)
    ensures Usable(x, sets)
  {}

  lemma GroupCode(pre: seq<Op>, k: nat, x: Node)
    ensures pre + [OLParen(k)] + Code(x) + [ORParen(k)] == pre + Code(Wrap(Group(k), x))
  {
    hide Code, Len;
    WrapCode(pre, Group(k), x);
  }

  lemma GroupGood(x: Node, e: Ere, k: nat, sets: seq<CSet>, newline: bool)
    requires GoodFor(x, e, sets, newline)
    ensures GoodFor(Wrap(Group(k), x), Sub(e), sets, newline) && Len(Wrap(Group(k), x)) > 0
  {}

  lemma RepGood(y: Node, x: Node, a: Ere, lo: nat, hi: Limit, sets: seq<CSet>, newline: bool)
    requires GoodFor(x, a, sets, newline) && Repeats(y, x, lo, hi, sets)
    ensures GoodFor(y, Rep(a, lo, hi), sets, newline)
  {}

  /** x is code for e. */
  ghost predicate GoodFor(x: Node, e: Ere, sets: seq<CSet>, newline: bool) {
    Usable(x, sets) && Accepts(x) == Denotes(e, newline) && (Len(x) == 0 <==> Void(e))
  }

  lemma OneCode(x: Node)
    requires x.One?
    ensures Code(x) == [x.op]
  {}

  lemma DotOne(sets: seq<CSet>)
    ensures OneOk(OAny, AnyChars(false), sets)
  {
    forall c: Byte ensures c in AnyChars(false) {
      assert DotMatches(false, c);
    }
  }

  lemma DotIsOne(sets: seq<CSet>)
    ensures IsOne(One(OAny, AnyChars(false)), AnyChars(false), sets)
  {
    DotOne(sets);
  }

  lemma OneGood(x: Node, e: Ere, cs: set<Byte>, sets: seq<CSet>, newline: bool)
    requires IsOne(x, cs, sets) && (e.Chr? || e.Any? || e.Bracket?) && Denotes(e, newline) == Chars(cs)
    ensures GoodFor(x, e, sets, newline) && Len(x) > 0
  {}

  lemma AnyGood(x: Node, sets: seq<CSet>, newline: bool)
    requires IsOne(x, AnyChars(newline), sets)
    ensures GoodFor(x, Any, sets, newline) && Len(x) > 0
  {
    hide GoodFor, IsOne;
    OneGood(x, Any, AnyChars(newline), sets, newline);
  }

  lemma BracketGood(x: Node, cs: CSet, sets: seq<CSet>, newline: bool)
    requires IsOne(x, BracketChars(cs, newline), sets)
    ensures GoodFor(x, Bracket(cs), sets, newline) && Len(x) > 0
  {
    hide GoodFor, IsOne;
    OneGood(x, Bracket(cs), BracketChars(cs, newline), sets, newline);
  }

  lemma ChrGood(c: Byte, sets: seq<CSet>, newline: bool)
    ensures GoodFor(One(OChar(c), {c}), Chr(c), sets, newline) && Len(One(OChar(c), {c})) > 0
  {
    OneGood(One(OChar(c), {c}), Chr(c), {c}, sets, newline);
  }

  lemma {:induction false} ValidGrows(x: Node, s: seq<CSet>, s': seq<CSet>)
    requires Valid(x, s) && s <= s'
    ensures Valid(x, s')
    decreases x
  {
    match x
    case Nil =>
    case One(op, cs) =>
    case Cat(a, b) =>
      ValidGrows(a, s, s');
      ValidGrows(b, s, s');
    case Wrap(_, a) => ValidGrows(a, s, s');
    case Fork(_, a, t) =>
      ValidGrows(a, s, s');
      ValidGrows(t, s, s');
  }

  ghost predicate Usable(x: Node, sets: seq<CSet>) {
    Valid(x, sets) && !IsChain(x)
  }

  /** The code x accepts lo to hi words of a. */
  ghost predicate Repeats(x: Node, a: Node, lo: nat, hi: Limit, sets: seq<CSet>) {
    && Usable(x, sets)
    && Accepts(x) == Between(Accepts(a), lo, hi)
    && (Len(x) == 0 <==> hi == UpTo(0))
  }

  lemma StarRepeats(a: Node, sets: seq<CSet>)
    requires Usable(a, sets)
    ensures Repeats(Wrap(Quest, Wrap(Plus, a)), a, 0, Unbounded, sets)
  {
    StarAccepts(a);
    assert Valid(Wrap(Plus, a), sets);
  }

  lemma PlusRepeats(a: Node, sets: seq<CSet>)
    requires Usable(a, sets)
    ensures Repeats(Wrap(Plus, a), a, 1, Unbounded, sets)
  {
    BetweenUnbounded(Accepts(a));
  }

  lemma OptionalRepeats(a: Node, sets: seq<CSet>)
    requires Usable(a, sets)
    ensures Repeats(Optional(a), a, 0, UpTo(1), sets)
  {
    assert RepNode(a, 1, 1) == a;
    RepAccepts(a, 0, 1);
    OptionalValid(a, sets);
    hide Valid, Accepts, Between;
  }

  lemma RepRepeats(a: Node, from: nat, upto: nat, sets: seq<CSet>)
    requires from <= upto && from < INFINITY && upto <= INFINITY
    requires Usable(a, sets) && Len(a) > 0
    ensures Repeats(RepNode(a, from, upto), a, from, LimitOf(upto), sets)
  {
    RepAccepts(a, from, upto);
    RepValid(a, from, upto, sets);
  }

  lemma NewlineLeftOut(cs: CSet, ds: CSet, newline: bool)
    requires ds.invert == cs.invert && ds.bmp == if cs.invert && newline then cs.bmp + {NEWLINE} else cs.bmp
    ensures forall c: Byte :: c in BracketChars(cs, newline) <==> CHIN(ds, c)
  {
    forall c: Byte ensures c in BracketChars(cs, newline) <==> CHIN(ds, c) {
      assert c in BracketChars(cs, newline) <==> BracketMatches(cs, newline, c);
    }
  }

  lemma OneInterval(c: Byte)
    ensures Interval(c, c) == {c}
  {}

  const NONNEWLINE: Word := ['^' as int, NEWLINE, ']' as int]

  lemma NonNewlineParses()
    ensures ParseBracket(NONNEWLINE, 0) == Ok(CSet({NEWLINE}, true), 3)
    ensures BracketChars(CSet({NEWLINE}, true), true) == AnyChars(true)
  {
    var t := NONNEWLINE;
    assert ParseTerms(t, 2, {NEWLINE}) == Ok({NEWLINE}, 2);
    assert ParseTerm(t, 1) == Ok({NEWLINE}, 2);
    assert {} + {NEWLINE} == {NEWLINE};
    assert ParseTerms(t, 1, {}) == Ok({NEWLINE}, 2);
  }

  /** x is a single operator for the characters cs. */
  ghost predicate IsOne(x: Node, cs: set<Byte>, sets: seq<CSet>) {
    x.One? && x.chars == cs && OneOk(x.op, cs, sets)
  }

  lemma CatAssoc(pre: seq<Op>, x: Node, y: Node)
    ensures pre + Code(x) + Code(y) == pre + Code(Cat(x, y))
  {
    hide Code, Len;
    CodeCat(x, y);
    Regrouped(pre, Code(x), Code(y));
  }

  lemma Regrouped(a: seq<Op>, b: seq<Op>, c: seq<Op>)
    ensures a + b + c == a + (b + c)
  {}

  lemma NilCode(pre: seq<Op>)
    ensures pre + Code(Nil) == pre
  {}

  lemma OperandInside(pre: seq<Op>, c: seq<Op>)
    ensures (pre + c)[|pre|..|pre + c|] == c
  {}

  lemma OptionalInside(pre: seq<Op>, x: Node)
    ensures |pre + Code(Optional(x))| == |pre| + Len(x) + 4
    ensures (pre + Code(Optional(x)))[|pre| + 1..|pre| + Len(x) + 1] == Code(x)
  {
    OptionalCode(x);
    hide Code;
  }

  lemma NoBranches()
    ensures Branches([]) == []
  {}

  lemma BranchesGrow(pre: seq<Op>, bs: seq<Node>, x: Node)
    ensures pre + Branches(bs + [x]) == pre + Branches(bs) + BranchCode(bs == [], x)
  {
    assert (bs + [x])[..|bs|] == bs;
    assert Branches(bs + [x]) == Branches(bs) + BranchCode(bs == [], x);
  }

  /** The opening of a branch before its operand is completed. */
  ghost function OpenOp(first: bool, n: nat): Op {
    if first then OCh_(n + 1) else OOr2(0)
  }

  lemma BranchFinished(front: seq<Op>, first: bool, x: Node)
    ensures
      var s := front + [OpenOp(first, Len(x))] + Code(x) + [ForkMiddle(first, Len(x))];
      s[|front| := WithOperand(s[|front|], Len(x) + 2)] == front + BranchCode(first, x)
  {
    hide Code, Len;
    BranchShape(front, OpenOp(first, Len(x)), Code(x), ForkMiddle(first, Len(x)));
  }

  lemma BranchShape(pre: seq<Op>, op: Op, c: seq<Op>, mid: Op)
    ensures
      var s := pre + [op] + c + [mid];
      s[|pre| := WithOperand(op, |c| + 2)] == pre + ([WithOperand(op, |c| + 2)] + c + [mid])
  {}

  lemma TailCode(pre: seq<Op>, bs: seq<Node>, x: Node)
    requires bs != []
    ensures pre + Branches(bs) + ([OOr2(Len(x) + 1)] + Code(x) + [O_Ch(Len(x) + 2)]) == pre + Code(Alternation(bs, x))
  {
    hide Branches, Forks, Code;
    ForksCode(bs, Wrap(Last, x));
    LastWrapCode(x);
  }

  lemma LastWrapCode(x: Node)
    ensures Code(Wrap(Last, x)) == [OOr2(Len(x) + 1)] + Code(x) + [O_Ch(Len(x) + 2)]
  {
    hide Code, Len;
    CodeWrap(Last, x);
  }

  lemma WrapCode(pre: seq<Op>, k: Wrapper, x: Node)
    ensures pre + [Opening(k, Len(x))] + Code(x) + [Closing(k, Len(x))] == pre + Code(Wrap(k, x))
  {
    hide Opening, Closing, Len, Code;
    CodeWrap(k, x);
    FrameShape(pre, Opening(k, Len(x)), Code(x), Closing(k, Len(x)));
  }

  lemma FrameShape(pre: seq<Op>, p: Op, c: seq<Op>, q: Op)
    ensures pre + [p] + c + [q] == pre + ([p] + c + [q])
  {}

  lemma TailShape(pre: seq<Op>, c: seq<Op>, n: nat)
    requires |c| == n
    ensures
      var s := pre + [OOr2(0)] + c;
      s[|pre| := OOr2(n + 1)] + [O_Ch(n + 2)] == pre + ([OOr2(n + 1)] + c + [O_Ch(n + 2)])
  {}

  /** The strip while an optional operand is being written. */
  lemma OptionalShape(pre: seq<Op>, k: nat, c: seq<Op>)
    ensures
      var s := pre + [OCh_(k)] + c + [OOr1(|c| + 1)];
      var t := s[|pre| := WithOperand(s[|pre|], |s| - |pre|)] + [OOr2(0)];
      t[|t| - 1 := WithOperand(t[|t| - 1], 1)] + [O_Ch(2)] ==
          pre + ([OCh_(|c| + 2)] + c + [OOr1(|c| + 1), OOr2(1), O_Ch(2)])
  {
    var s := pre + [OCh_(k)] + c + [OOr1(|c| + 1)];
    assert s[|pre|] == OCh_(k);
    var t := s[|pre| := WithOperand(s[|pre|], |s| - |pre|)] + [OOr2(0)];
    assert t == pre + [OCh_(|c| + 2)] + c + [OOr1(|c| + 1)] + [OOr2(0)];
    assert t[|t| - 1] == OOr2(0);
  }

  lemma LastCode()
    ensures Code(Wrap(Last, Nil)) == [OOr2(1), O_Ch(2)]
  {
    assert Code(Wrap(Last, Nil)) == [OOr2(1)] + [] + [O_Ch(2)];
  }

  lemma Regroup(a: seq<Op>, b: seq<Op>, p: Op, q: Op, r: Op)
    ensures a + b + [p] + [q, r] == a + b + [p, q, r]
  {}

  lemma OptionalCode(x: Node)
    ensures Code(Optional(x)) == [OCh_(Len(x) + 2)] + Code(x) + [OOr1(Len(x) + 1), OOr2(1), O_Ch(2)]
  {
    hide Code, Len;
    LastCode();
    ForkCode(true, x, Wrap(Last, Nil));
    Regroup([OCh_(Len(x) + 2)], Code(x), OOr1(Len(x) + 1), OOr2(1), O_Ch(2));
  }
}
