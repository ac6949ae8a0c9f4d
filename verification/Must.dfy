/** The mandatory literal of a strip and how late in a match it may start
    (src/missing/regcomp.c). */
module Must {
  import opened Strip

  function Max(a: int, b: int): int {
    if a > b then a else b
  }

  // ---------- the longest way through an alternation ----------

  /** The operator that ends the bypass or alternation opened at q, following the links; -1 if a
      link leads elsewhere. */
  function SkipEnd(g: Prog, q: nat): (e: int)
    requires g.Ok() && g.lo <= q < g.hi
    requires g.strip[q].OQuest_? || g.strip[q].OCh_? || g.strip[q].OOr2?
    ensures e == -1 || (q < e < g.hi && (g.strip[e].O_Quest? || g.strip[e].O_Ch?))
    decreases g.hi - q
  {
    assert g.OpOk(q);
    var n := q + g.strip[q].fwd;
    if g.strip[n].O_Quest? || g.strip[n].O_Ch? then n
    else if g.strip[n].OOr2? then SkipEnd(g, n)
    else -1
  }

  /** The largest number of characters on any way through the alternation entered at pc, on top of
      offset; -1 when that cannot be told. */
  function AltOffset(g: Prog, pc: nat, offset: int): (r: int)
    requires g.Ok() && g.lo <= pc <= g.hi && offset >= -1
    ensures r >= -1
    decreases g.hi - pc, 1
  {
    if offset == -1 then -1
    else
      var largest := AltScan(g, pc, 0, 0);
      if largest == -1 then -1 else largest + offset
  }

  /** Its loop, with the longest branch so far and the length of the current one. */
  function AltScan(g: Prog, pc: nat, largest: nat, try: nat): (r: int)
    requires g.Ok() && g.lo <= pc <= g.hi
    ensures r >= -1
    decreases g.hi - pc, 0
  {
    match g.strip[pc]
    case O_Quest(_) => Max(try, largest)
    case O_Ch(_) => Max(try, largest)
    case OOr1(_) => AltScan(g, pc + 1, Max(try, largest), 0)
    case OQuest_(_) => AltInner(g, pc, largest, try)
    case OCh_(_) => AltInner(g, pc, largest, try)
    case OAnyOf(_) => AltScan(g, pc + 1, largest, try + 1)
    case OChar(_) => AltScan(g, pc + 1, largest, try + 1)
    case OAny => AltScan(g, pc + 1, largest, try + 1)
    case OLParen(_) => AltScan(g, pc + 1, largest, try)
    case ORParen(_) => AltScan(g, pc + 1, largest, try)
    case OOr2(_) => AltScan(g, pc + 1, largest, try)
    case _ => -1
  }

  /** An alternation inside a branch. */
  function AltInner(g: Prog, pc: nat, largest: nat, try: nat): (r: int)
    requires g.Ok() && g.lo <= pc < g.hi && (g.strip[pc].OQuest_? || g.strip[pc].OCh_?)
    ensures r >= -1
    decreases g.hi - pc - 1, 2
  {
    var t := AltOffset(g, pc + 1, try);
    var e := SkipEnd(g, pc);
    if t == -1 || e == -1 then -1 else AltScan(g, e + 1, largest, t)
  }

  method Skip(g: Prog, pc: nat) returns (e: int)
    requires g.Ok() && g.lo <= pc < g.hi && (g.strip[pc].OQuest_? || g.strip[pc].OCh_?)
    ensures e == SkipEnd(g, pc)
  {
    var scan := pc;
    assert g.OpOk(pc);
    scan := scan + g.strip[pc].fwd;
    while !g.strip[scan].O_Quest? && !g.strip[scan].O_Ch?
      invariant pc < scan <= g.hi
      invariant !g.strip[scan].O_Quest? && !g.strip[scan].O_Ch? && g.strip[scan].OOr2? ==>
                SkipEnd(g, pc) == SkipEnd(g, scan)
      invariant g.strip[scan].O_Quest? || g.strip[scan].O_Ch? ==> SkipEnd(g, pc) == scan
      invariant !g.strip[scan].O_Quest? && !g.strip[scan].O_Ch? && !g.strip[scan].OOr2? ==> SkipEnd(g, pc) == -1
      decreases g.hi - scan
    {
      if !g.strip[scan].OOr2? { return -1; }
      assert g.OpOk(scan);
      scan := scan + g.strip[scan].fwd;
    }
    e := scan;
  }

  /** altoffset */
  method ComputeAltOffset(g: Prog, scan: nat, offset: int) returns (r: int)
    requires g.Ok() && g.lo <= scan <= g.hi && offset >= -1
    ensures r == AltOffset(g, scan, offset)
    decreases g.hi - scan
  {
    if offset == -1 { return -1; }
    var pc, largest, try := scan, 0, 0;
    while !g.strip[pc].O_Quest? && !g.strip[pc].O_Ch?
      invariant scan <= pc <= g.hi && largest >= 0 && try >= 0
      invariant AltScan(g, scan, 0, 0) == AltScan(g, pc, largest, try)
      decreases g.hi - pc
    {
      match g.strip[pc]
      case OOr1(_) =>
        if try > largest { largest := try; }
        try := 0;
        pc := pc + 1;
      case OQuest_(_) =>
        var t := ComputeAltOffset(g, pc + 1, try);
        if t == -1 { return -1; }
        var e := Skip(g, pc);
        if e == -1 { return -1; }
        try, pc := t, e + 1;
      case OCh_(_) =>
        var t := ComputeAltOffset(g, pc + 1, try);
        if t == -1 { return -1; }
        var e := Skip(g, pc);
        if e == -1 { return -1; }
        try, pc := t, e + 1;
      case OAnyOf(_) => try, pc := try + 1, pc + 1;
      case OChar(_) => try, pc := try + 1, pc + 1;
      case OAny => try, pc := try + 1, pc + 1;
      case OLParen(_) => pc := pc + 1;
      case ORParen(_) => pc := pc + 1;
      case OOr2(_) => pc := pc + 1;
      case _ => return -1;
    }
    if try > largest { largest := try; }
    r := largest + offset;
  }

  // ---------- the scan for the longest literal ----------

  /** What findmust carries along the strip: the literal being collected, the longest one so far,
      and the two offsets. */
  datatype Scan = Scan(newlen: nat, newstart: nat, mlen: nat, start: nat, offset: int, moffset: int)

  /** An operator that ends the literal being collected. */
  function EndLiteral(s: Scan): Scan {
    if s.newlen > s.mlen then
      s.(start := s.newstart, mlen := s.newlen, newlen := 0,
         moffset := if s.offset > -1 then s.moffset + s.offset else s.offset,
         offset := if s.offset > -1 then s.newlen else s.offset)
    else
      s.(newlen := 0, offset := if s.offset > -1 then s.offset + s.newlen else s.offset)
  }

  /** Any single character ends it and counts one more place. */
  function OneMore(s: Scan): Scan {
    var t := EndLiteral(s);
    t.(offset := if t.offset > -1 then t.offset + 1 else t.offset)
  }

  /** What makes later offsets impossible to tell. */
  function GiveUp(s: Scan): Scan {
    EndLiteral(s).(offset := -1)
  }

  function Collect(s: Scan, pc: nat): Scan {
    s.(newlen := s.newlen + 1, newstart := if s.newlen == 0 then pc else s.newstart)
  }

  /** The scan from pc to the end marker; None if a link is wrong. */
  function ScanFrom(g: Prog, pc: nat, s: Scan): (r: Maybe)
    requires g.Ok() && g.lo <= pc <= g.hi && s.offset >= -1
    decreases g.hi - pc, 0
  {
    match g.strip[pc]
    case OEnd => Good(EndLiteral(s))
    case OChar(_) => ScanFrom(g, pc + 1, Collect(s, pc))
    case OPlus_(_) => ScanFrom(g, pc + 1, s)
    case OLParen(_) => ScanFrom(g, pc + 1, s)
    case ORParen(_) => ScanFrom(g, pc + 1, s)
    case OQuest_(_) => ScanPast(g, pc, s)
    case OCh_(_) => ScanPast(g, pc, s)
    case O_Quest(_) => ScanFrom(g, pc + 1, EndLiteral(s))
    case O_Ch(_) => ScanFrom(g, pc + 1, EndLiteral(s))
    case OAny => ScanFrom(g, pc + 1, OneMore(s))
    case OAnyOf(_) => ScanFrom(g, pc + 1, OneMore(s))
    case _ => ScanFrom(g, pc + 1, GiveUp(s))
  }

  function ScanPast(g: Prog, pc: nat, s: Scan): (r: Maybe)
    requires g.Ok() && g.lo <= pc < g.hi && s.offset >= -1 && (g.strip[pc].OQuest_? || g.strip[pc].OCh_?)
    decreases g.hi - pc - 1, 1
  {
    var t := s.(offset := AltOffset(g, pc + 1, s.offset));
    var e := SkipEnd(g, pc);
    if e == -1 then Bad else ScanFrom(g, e, EndLiteral(t))
  }

  datatype Maybe = Bad | Good(scan: Scan)

  /** The literal of n characters collected from position pc on. */
  function Gather(g: Prog, pc: nat, n: nat): Word
    decreases |g.strip| - pc
  {
    if n == 0 || pc >= |g.strip| then []
    else if g.strip[pc].OChar? then [g.strip[pc].ch] + Gather(g, pc + 1, n - 1)
    else Gather(g, pc + 1, n)
  }

  const FIRST: Scan := Scan(0, 0, 0, 0, 0, 0)

  datatype Literal = NoLiteral | Literal(must: Word, moffset: int)

  // ---------- a longest run ----------

  /** Characters, with nothing between them but operators that take up no input and are passed in any
      case. */
  predicate InRun(op: Op) { op.OChar? || op.OPlus_? || op.OLParen? || op.ORParen? }

  /** The operator behind one at the top level, past all branches of a choice. */
  function TopNext(g: Prog, pc: nat): (n: nat)
    requires g.Ok() && g.lo <= pc < g.hi
    ensures pc < n <= g.hi
  {
    if (g.strip[pc].OQuest_? || g.strip[pc].OCh_?) && SkipEnd(g, pc) != -1 then SkipEnd(g, pc) else pc + 1
  }

  /** Going from pc on at the top level we come to a. */
  predicate TopFrom(g: Prog, pc: nat, a: nat)
    requires g.Ok() && g.lo <= pc <= g.hi
    decreases g.hi - pc
  {
    a == pc || (pc < g.hi && TopFrom(g, TopNext(g, pc), a))
  }

  /** From a to b there is a run at the top level. */
  ghost predicate TopRun(g: Prog, pc: nat, a: nat, b: nat)
    requires g.Ok() && g.lo <= pc <= g.hi
  {
    TopFrom(g, pc, a) && a <= b <= g.hi && forall i :: a <= i < b ==> InRun(g.strip[i])
  }

  /** More characters, unless one of the numbers cannot be told. */
  function Sum(a: int, b: int): int {
    if a == -1 || b == -1 then -1 else a + b
  }

  predicate IsChoice(op: Op) { op.OQuest_? || op.OCh_? }

  /** The characters on the longest way through a bypass or an alternation that stands here. */
  function Detour(g: Prog, pc: nat): (r: int)
    requires g.Ok() && g.lo <= pc <= g.hi
    ensures r >= -1
  {
    if IsChoice(g.strip[pc]) then AltOffset(g, pc + 1, 0) else 0
  }

  /** The characters that going past one operator at the top level may take up; -1 when that cannot be
      told, as behind a loop. */
  function Cost(g: Prog, pc: nat): (r: int)
    requires g.Ok() && g.lo <= pc < g.hi
    ensures r >= -1
  {
    var op := g.strip[pc];
    if op.OChar? || op.OAny? || op.OAnyOf? then 1
    else if InRun(op) || op.O_Quest? || op.O_Ch? then 0
    else if IsChoice(op) then Detour(g, pc)
    else -1
  }

  /** The characters that may be taken up on the way from one place of the top level to another. */
  function Ahead(g: Prog, pc: nat, to: nat): (r: int)
    requires g.Ok() && g.lo <= pc <= g.hi
    ensures r >= -1
    decreases g.hi - pc
  {
    if pc >= to || pc == g.hi then 0 else Sum(Cost(g, pc), Ahead(g, TopNext(g, pc), to))
  }

  /** The offset of a literal that is a run from a to b: what may be taken up in front of it. The way
      through an alternation right behind it is counted as well. */
  function Latest(g: Prog, a: nat, b: nat): int
    requires g.Ok() && g.lo <= b <= g.hi
  {
    Sum(Ahead(g, g.lo, a), Detour(g, b))
  }

  /** The characters of the OCHAR operators from a to b. */
  ghost function RunOf(g: Prog, a: nat, b: nat): Word
    requires b <= |g.strip|
    decreases b
  {
    if a >= b then []
    else if g.strip[b - 1].OChar? then RunOf(g, a, b - 1) + [g.strip[b - 1].ch]
    else RunOf(g, a, b - 1)
  }

  /** Collecting as many characters as a run has from its start gives the run. */
  lemma {:induction false} GatherRun(g: Prog, a: nat, b: nat, n: nat)
    requires a <= b <= |g.strip| && n == |RunOf(g, a, b)|
    ensures Gather(g, a, n) == RunOf(g, a, b)
    decreases b - a
  {
    if a < b {
      RunFront(g, a, b);
      GatherRun(g, a + 1, b, |RunOf(g, a + 1, b)|);
    }
  }

  lemma {:induction false} RunFront(g: Prog, a: nat, b: nat)
    requires a < b <= |g.strip|
    ensures RunOf(g, a, b) == (if g.strip[a].OChar? then [g.strip[a].ch] else []) + RunOf(g, a + 1, b)
    decreases b
  {
    if a + 1 < b { RunFront(g, a, b - 1); }
  }

  /** From a to b there is a run at the top level that cannot be continued, with this offset. */
  ghost predicate FullRun(g: Prog, a: nat, b: nat, moffset: int)
    requires g.Ok()
  {
    TopRun(g, g.lo, a, b) && g.lo <= b <= g.hi && !InRun(g.strip[b]) && moffset == Latest(g, a, b)
  }

  /** The literal is the characters of a run at the top level, its offset is that of the run, and no
      such run has more characters. */
  ghost predicate IsLongest(g: Prog, r: Literal)
    requires g.Ok()
  {
    var must := if r.Literal? then r.must else [];
    && (r.Literal? ==>
          must != [] && exists a: nat, b: nat :: FullRun(g, a, b, r.moffset) && RunOf(g, a, b) == must)
    && forall a: nat, b: nat :: TopRun(g, g.lo, a, b) ==> |RunOf(g, a, b)| <= |must|
  }

  /** What ends the literal being collected keeps the longer one. */
  lemma {:induction false} EndsLonger(s: Scan)
    ensures EndLiteral(s).mlen == Max(s.mlen, s.newlen) && EndLiteral(s).newlen == 0
    ensures OneMore(s).mlen == Max(s.mlen, s.newlen) && OneMore(s).newlen == 0
    ensures GiveUp(s).mlen == Max(s.mlen, s.newlen) && GiveUp(s).newlen == 0
  {}

  /** The runs from pc on begin there or further on. */
  lemma {:induction false} RunsFrom(g: Prog, pc: nat, a: nat, b: nat)
    requires g.Ok() && g.lo <= pc < g.hi && TopRun(g, pc, a, b)
    ensures a == pc || TopRun(g, TopNext(g, pc), a, b)
    ensures a == pc < b && InRun(g.strip[pc]) ==> TopRun(g, TopNext(g, pc), TopNext(g, pc), b)
    ensures a == pc < b ==> InRun(g.strip[pc])
  {
    hide SkipEnd;
  }

  /** No run from here on is longer than what the scan ends with, with what is being collected in front
      of one that begins here. */
  lemma {:induction false} ScanCovers(g: Prog, pc: nat, s: Scan)
    requires g.Ok() && g.lo <= pc <= g.hi && s.offset >= -1 && ScanFrom(g, pc, s).Good?
    ensures Covers(g, pc, s, ScanFrom(g, pc, s).scan.mlen)
    decreases g.hi - pc
  {
    hide SkipEnd, EndLiteral, OneMore, GiveUp, Covers, TopRun;
    if pc == g.hi {
      EndsLonger(s);
      EndCovers(g, s, ScanFrom(g, pc, s).scan.mlen);
    } else {
      assert g.OpOk(pc);
      EndsLonger(s);
      var n := TopNext(g, pc);
      var s' := StepScan(g, pc, s);
      StepIs(g, pc, s);
      ScanCovers(g, n, s');
      StepCovers(g, pc, s, s', ScanFrom(g, pc, s).scan.mlen);
    }
  }

  ghost predicate Covers(g: Prog, pc: nat, s: Scan, m: nat)
    requires g.Ok() && g.lo <= pc <= g.hi
  {
    && m >= s.mlen && m >= s.newlen && (forall b: nat :: TopRun(g, pc, pc, b) ==> s.newlen + |RunOf(g, pc, b)| <= m)
    && forall a: nat, b: nat :: TopRun(g, pc, a, b) ==> |RunOf(g, a, b)| <= m
  }

  /** One step of the scan. */
  function StepScan(g: Prog, pc: nat, s: Scan): (t: Scan)
    requires g.Ok() && g.lo <= pc < g.hi && s.offset >= -1
    ensures t.offset >= -1
  {
    match g.strip[pc]
    case OChar(_) => Collect(s, pc)
    case OPlus_(_) => s
    case OLParen(_) => s
    case ORParen(_) => s
    case OQuest_(_) => EndLiteral(s.(offset := AltOffset(g, pc + 1, s.offset)))
    case OCh_(_) => EndLiteral(s.(offset := AltOffset(g, pc + 1, s.offset)))
    case O_Quest(_) => EndLiteral(s)
    case O_Ch(_) => EndLiteral(s)
    case OAny => OneMore(s)
    case OAnyOf(_) => OneMore(s)
    case _ => GiveUp(s)
  }

  lemma {:induction false} StepIs(g: Prog, pc: nat, s: Scan)
    requires g.Ok() && g.lo <= pc < g.hi && s.offset >= -1 && ScanFrom(g, pc, s).Good?
    ensures ScanFrom(g, pc, s) == ScanFrom(g, TopNext(g, pc), StepScan(g, pc, s))
  {
    hide SkipEnd, AltOffset, EndLiteral, OneMore, GiveUp, Collect;
    assert g.OpOk(pc);
  }

  lemma {:induction false} EndCovers(g: Prog, s: Scan, m: nat)
    requires g.Ok() && m >= s.mlen && m >= s.newlen
    ensures Covers(g, g.hi, s, m)
  {}

  lemma {:induction false} StepCovers(g: Prog, pc: nat, s: Scan, s': Scan, m: nat)
    requires g.Ok() && g.lo <= pc < g.hi && s.offset >= -1 && s' == StepScan(g, pc, s)
    requires Covers(g, TopNext(g, pc), s', m)
    ensures Covers(g, pc, s, m)
  {
    hide SkipEnd, AltOffset, TopRun, RunOf;
    var n := TopNext(g, pc);
    TopHere(g, n);
    RunsIn(g, pc);
    forall a: nat, b: nat | TopRun(g, pc, a, b)
      ensures |RunOf(g, a, b)| <= m && (a == pc ==> s.newlen + |RunOf(g, a, b)| <= m)
    {
      RunsFrom(g, pc, a, b);
      if a == pc < b { RunFront(g, a, b); }
      if a == b { RunNone(g, a); }
    }
  }

  lemma {:induction false} RunIn(g: Prog, pc: nat, a: nat, b: nat)
    requires g.Ok() && g.lo <= pc <= g.hi && TopRun(g, pc, a, b)
    ensures pc <= a <= b <= g.hi
    decreases g.hi - pc
  {
    hide SkipEnd;
    if a != pc { RunIn(g, TopNext(g, pc), a, b); }
  }

  lemma {:induction false} RunsIn(g: Prog, pc: nat)
    requires g.Ok() && g.lo <= pc <= g.hi
    ensures forall a: nat, b: nat :: TopRun(g, pc, a, b) ==> pc <= a <= b <= g.hi
  {
    hide TopRun;
    forall a: nat, b: nat | TopRun(g, pc, a, b) ensures pc <= a <= b <= g.hi { RunIn(g, pc, a, b); }
  }

  lemma {:induction false} RunNone(g: Prog, a: nat)
    requires a <= |g.strip|
    ensures RunOf(g, a, a) == []
  {}

  lemma {:induction false} TopHere(g: Prog, pc: nat)
    requires g.Ok() && g.lo <= pc <= g.hi
    ensures TopRun(g, pc, pc, pc) && RunOf(g, pc, pc) == []
  {}

  /** What the scan holds is a run at the top level, and so is what it is collecting; the offsets add up
      to the characters that may be taken up so far. */
  ghost predicate Collected(g: Prog, pc: nat, s: Scan)
    requires g.Ok() && g.lo <= pc <= g.hi
  {
    && TopFrom(g, g.lo, pc) && s.offset >= -1 && s.moffset >= -1 && (s.offset > -1 ==> s.moffset > -1)
    && Ahead(g, g.lo, pc) == (if s.offset == -1 then -1 else s.moffset + s.offset + s.newlen)
    && (s.newlen > 0 ==>
          && TopRun(g, g.lo, s.newstart, pc) && s.newstart <= pc && |RunOf(g, s.newstart, pc)| == s.newlen
          && Ahead(g, g.lo, s.newstart) == (if s.offset == -1 then -1 else s.moffset + s.offset))
    && (s.mlen > 0 ==> Kept(g, s))
  }

  ghost predicate Kept(g: Prog, s: Scan)
    requires g.Ok()
  {
    exists b: nat :: FullRun(g, s.start, b, s.moffset) && |RunOf(g, s.start, b)| == s.mlen
  }

  lemma {:induction false} ScanHolds(g: Prog, pc: nat, s: Scan)
    requires g.Ok() && g.lo <= pc <= g.hi && s.offset >= -1 && ScanFrom(g, pc, s).Good? && Collected(g, pc, s)
    ensures ScanFrom(g, pc, s).scan.mlen > 0 ==> Kept(g, ScanFrom(g, pc, s).scan)
    decreases g.hi - pc
  {
    hide SkipEnd, EndLiteral, OneMore, GiveUp, Collected, Kept;
    if pc == g.hi {
      LiteralKept(g, pc, s);
    } else {
      StepIs(g, pc, s);
      StepHolds(g, pc, s);
      ScanHolds(g, TopNext(g, pc), StepScan(g, pc, s));
    }
  }

  /** The end of a literal, with the way through an alternation that stands there counted. */
  lemma {:induction false} LiteralKept(g: Prog, pc: nat, s: Scan)
    requires g.Ok() && g.lo <= pc <= g.hi && Collected(g, pc, s) && !InRun(g.strip[pc])
    ensures var t := EndLiteral(s.(offset := Sum(s.offset, Detour(g, pc))));
      && (t.mlen > 0 ==> Kept(g, t))
      && t.offset >= -1 && t.moffset >= -1 && (t.offset > -1 ==> t.moffset > -1) && t.newlen == 0
      && Sum(Ahead(g, g.lo, pc), Detour(g, pc)) == (if t.offset == -1 then -1 else t.moffset + t.offset)
    ensures pc == g.hi && EndLiteral(s).mlen > 0 ==> Kept(g, EndLiteral(s))
  {
    hide TopRun, RunOf, TopFrom, Ahead, Detour;
    var o := Sum(s.offset, Detour(g, pc));
    var t := EndLiteral(s.(offset := o));
    if s.newlen > s.mlen {
      assert FullRun(g, s.newstart, pc, t.moffset);
      assert Kept(g, t);
    } else if s.mlen > 0 {
      var b: nat :| FullRun(g, s.start, b, s.moffset) && |RunOf(g, s.start, b)| == s.mlen;
      assert FullRun(g, t.start, b, t.moffset);
    }
    if !IsChoice(g.strip[pc]) {
      assert Detour(g, pc) == 0 by { NoDetour(g, pc); }
      assert s.(offset := o) == s;
    }
  }

  lemma {:induction false} NoDetour(g: Prog, pc: nat)
    requires g.Ok() && g.lo <= pc <= g.hi && !IsChoice(g.strip[pc])
    ensures Detour(g, pc) == 0
  {}

  lemma {:induction false} TopOn(g: Prog, pc: nat, a: nat)
    requires g.Ok() && g.lo <= pc <= g.hi && a < g.hi && TopFrom(g, pc, a)
    ensures pc <= a && TopFrom(g, pc, TopNext(g, a))
    ensures Ahead(g, pc, TopNext(g, a)) == Sum(Ahead(g, pc, a), Cost(g, a))
    decreases g.hi - pc
  {
    hide SkipEnd, Cost;
    if a != pc { TopOn(g, TopNext(g, pc), a); }
  }

  lemma {:induction false} AheadHere(g: Prog, pc: nat)
    requires g.Ok() && g.lo <= pc <= g.hi
    ensures Ahead(g, pc, pc) == 0
  {}

  lemma {:induction false} StepHolds(g: Prog, pc: nat, s: Scan)
    requires g.Ok() && g.lo <= pc < g.hi && s.offset >= -1 && Collected(g, pc, s)
    ensures Collected(g, TopNext(g, pc), StepScan(g, pc, s))
  {
    hide AltOffset, AltScan, SkipEnd, TopFrom, Ahead, Kept;
    TopOn(g, g.lo, pc);
    if InRun(g.strip[pc]) {
      RunNone(g, pc);
      assert s.mlen > 0 ==> Kept(g, s);
      KeptOn(g, s, Collect(s, pc));
    } else {
      LiteralKept(g, pc, s);
      var o := Sum(s.offset, Detour(g, pc));
      var t := EndLiteral(s.(offset := o));
      if IsChoice(g.strip[pc]) {
        AltAdds(g, pc + 1, s.offset);
      } else {
        assert s.(offset := o) == s;
      }
      var u := StepScan(g, pc, s);
      KeptOn(g, t, u);
    }
  }

  lemma {:induction false} AltAdds(g: Prog, pc: nat, offset: int)
    requires g.Ok() && g.lo <= pc <= g.hi && offset >= -1
    ensures AltOffset(g, pc, offset) == Sum(offset, AltOffset(g, pc, 0))
  {
    hide AltScan;
  }

  lemma {:induction false} KeptOn(g: Prog, s: Scan, t: Scan)
    requires g.Ok() && s.start == t.start && s.mlen == t.mlen && s.moffset == t.moffset
    ensures Kept(g, s) ==> Kept(g, t)
  {
    hide FullRun, RunOf;
  }

  lemma {:induction false} LiteralIsLongest(g: Prog, r: Literal)
    requires g.Ok() && ScanFrom(g, g.lo, FIRST).Good?
    requires var s := ScanFrom(g, g.lo, FIRST).scan;
      r == if s.mlen == 0 then NoLiteral else Literal(Gather(g, s.start, s.mlen), s.moffset)
    ensures IsLongest(g, r)
  {
    hide ScanFrom, TopRun, RunOf, Latest;
    var s := ScanFrom(g, g.lo, FIRST).scan;
    ScanCovers(g, g.lo, FIRST);
    TopHere(g, g.lo);
    FirstHolds(g);
    ScanHolds(g, g.lo, FIRST);
    RunsIn(g, g.lo);
    if s.mlen > 0 {
      var b: nat :| FullRun(g, s.start, b, s.moffset) && |RunOf(g, s.start, b)| == s.mlen;
      RunIn(g, g.lo, s.start, b);
      GatherRun(g, s.start, b, s.mlen);
    }
  }

  lemma {:induction false} FirstHolds(g: Prog)
    requires g.Ok()
    ensures Collected(g, g.lo, FIRST)
  {
    AheadHere(g, g.lo);
  }

  /** findmust */
  method FindMust(g: Prog) returns (bad: bool, r: Literal)
    requires g.Ok()
    ensures bad <==> ScanFrom(g, g.lo, FIRST).Bad?
    ensures !bad ==> IsLongest(g, r)
    ensures !bad ==>
      var s := ScanFrom(g, g.lo, FIRST).scan;
      r == if s.mlen == 0 then NoLiteral else Literal(Gather(g, s.start, s.mlen), s.moffset)
  {
    hide IsLongest;
    bad, r := false, NoLiteral;
    if ScanFrom(g, g.lo, FIRST).Good? {
      ghost var t := ScanFrom(g, g.lo, FIRST).scan;
      LiteralIsLongest(g, if t.mlen == 0 then NoLiteral else Literal(Gather(g, t.start, t.mlen), t.moffset));
    }
    var s := FIRST;
    var scan := g.lo;
    while !g.strip[scan].OEnd?
      invariant g.lo <= scan <= g.hi && s.offset >= -1
      invariant ScanFrom(g, g.lo, FIRST) == ScanFrom(g, scan, s)
      decreases g.hi - scan
    {
      match g.strip[scan]
      case OChar(_) => s, scan := Collect(s, scan), scan + 1;
      case OPlus_(_) => scan := scan + 1;
      case OLParen(_) => scan := scan + 1;
      case ORParen(_) => scan := scan + 1;
      case OQuest_(_) =>
        bad, s, scan := Over(g, scan, s);
        if bad { return; }
      case OCh_(_) =>
        bad, s, scan := Over(g, scan, s);
        if bad { return; }
      case O_Quest(_) => s, scan := EndLiteral(s), scan + 1;
      case O_Ch(_) => s, scan := EndLiteral(s), scan + 1;
      case OAny => s, scan := OneMore(s), scan + 1;
      case OAnyOf(_) => s, scan := OneMore(s), scan + 1;
      case _ => s, scan := GiveUp(s), scan + 1;
    }
    s := EndLiteral(s);
    if s.mlen == 0 { return false, NoLiteral; }
    var must := Spell(g, s.start, s.mlen);
    r := Literal(must, s.moffset);
  }

  /** Past a bypass or a choice, whose longest way adds to the offset. */
  method Over(g: Prog, pc: nat, s: Scan) returns (bad: bool, t: Scan, scan: nat)
    requires g.Ok() && g.lo <= pc < g.hi && s.offset >= -1 && (g.strip[pc].OQuest_? || g.strip[pc].OCh_?)
    ensures bad ==> ScanFrom(g, pc, s).Bad?
    ensures !bad ==> pc < scan <= g.hi && t.offset >= -1 && ScanFrom(g, pc, s) == ScanFrom(g, scan, t)
  {
    var o := ComputeAltOffset(g, pc + 1, s.offset);
    var e := Skip(g, pc);
    if e == -1 { return true, s, pc; }
    return false, EndLiteral(s.(offset := o)), e;
  }

  /** Turn the collected operators into a character string. */
  method Spell(g: Prog, start: nat, mlen: nat) returns (must: Word)
    ensures must == Gather(g, start, mlen)
  {
    must := [];
    var scan := start;
    while |must| < mlen && scan < |g.strip|
      invariant |must| <= mlen
      invariant Gather(g, start, mlen) == must + Gather(g, scan, mlen - |must|)
      decreases |g.strip| - scan
    {
      if g.strip[scan].OChar? { must := must + [g.strip[scan].ch]; }
      scan := scan + 1;
    }
  }
}
