/** One step of the machine: the least set of states that holds the states already known, those
    behind a consumed character, and everything reachable from them in silence
    (src/missing/engine.c). */
module Machine {
  import opened Strip
  import opened States

  /** Codes outside the range of characters (src/missing/engine.c, regex2.h). */
  const OUT := -129
  const BOL := OUT - 1
  const EOL := BOL - 1
  const BOLEOL := BOL - 2
  const NOTHING := BOL - 3
  const BOW := BOL - 4
  const EOW := BOL - 5
  const NWBND := BOL - 7

  predicate NonChar(ch: int) {
    ch <= OUT
  }

  /** What a machine may be asked to step over. */
  type Code = ch: int | NonChar(ch) || 0 <= ch < 256 witness 0

  ghost predicate Closed(g: Prog, s: set<nat>)
    requires g.Ok()
  {
    forall q: nat, r: nat :: q in s && Eps(g, q, r) ==> r in s
  }

  /** q consumes ch. */
  ghost predicate Eats(g: Prog, q: nat, ch: Code)
    requires g.Ok()
  {
    !NonChar(ch) && g.lo <= q < g.hi && Consumes(g.sets, g.strip[q], ch)
  }

  ghost predicate Fed(g: Prog, before: set<nat>, ch: Code, s: set<nat>)
    requires g.Ok()
  {
    forall q: nat :: q in before && Eats(g, q, ch) ==> q + 1 in s
  }

  /** s holds known, everything behind a state of before that eats ch, and is closed. */
  ghost predicate Covers(g: Prog, known: set<nat>, before: set<nat>, ch: Code, s: set<nat>)
    requires g.Ok()
  {
    known <= s && Closed(g, s) && Fed(g, before, ch, s)
  }

  ghost predicate Least(g: Prog, known: set<nat>, before: set<nat>, ch: Code, s: set<nat>)
    requires g.Ok()
  {
    && Covers(g, known, before, ch, s)
    && forall t: set<nat> :: Covers(g, known, before, ch, t) ==> s <= t
  }

  /** The states the operator at pc leads to. */
  ghost function Targets(g: Prog, pc: nat, before: set<nat>, ch: Code, s: set<nat>): set<nat>
    requires g.Ok()
  {
    (if pc in s then set r: nat | r <= g.hi && Eps(g, pc, r) else {})
    + (if pc in before && Eats(g, pc, ch) then {pc + 1} else {})
  }

  /** Where one operator leads, spelled out. */
  ghost function Leads(g: Prog, pc: nat, before: set<nat>, ch: Code, s: set<nat>): set<nat>
    requires g.Ok() && g.lo <= pc < g.hi
  {
    match g.strip[pc]
    case OChar(c) => if pc in before && ch == c then {pc + 1} else {}
    case OAny => if pc in before && !NonChar(ch) then {pc + 1} else {}
    case OAnyOf(k) =>
      assert g.OpOk(pc);
      if pc in before && !NonChar(ch) && CHIN(g.sets[k], ch) then {pc + 1} else {}
    case O_Plus(n) =>
      assert g.OpOk(pc);
      if pc in s then {pc + 1, pc - n} else {}
    case OQuest_(n) => if pc in s then {pc + 1, pc + n} else {}
    case OCh_(n) => if pc in s then {pc + 1, pc + n} else {}
    case OOr1(_) =>
      assert g.OpOk(pc);
      if pc in s then {ChEnd(g, pc + 1) + 1} else {}
    case OOr2(n) =>
      assert g.OpOk(pc);
      if pc !in s then {} else if g.strip[pc + n].O_Ch? then {pc + 1} else {pc + 1, pc + n}
    case OEnd => {}
    case _ => if pc in s then {pc + 1} else {}
  }

  lemma TargetsLead(g: Prog, pc: nat, before: set<nat>, ch: Code, s: set<nat>)
    requires g.Ok() && g.lo <= pc < g.hi
    ensures Targets(g, pc, before, ch, s) == Leads(g, pc, before, ch, s)
  {
    assert g.OpOk(pc);
  }

  /** Find the end of the alternation that the branch ending at pc belongs to. */
  method Look(g: Prog, pc: nat) returns (look: nat)
    requires g.Ok() && g.lo <= pc < g.hi && g.strip[pc].OOr1?
    ensures g.OpOk(pc) && pc + look == ChEnd(g, pc + 1)
  {
    assert g.OpOk(pc);
    look := 1;
    while !g.strip[pc + look].O_Ch?
      invariant 1 <= look && pc + look < g.hi
      invariant g.strip[pc + look].OOr2? || g.strip[pc + look].O_Ch?
      invariant ChEnd(g, pc + look) == ChEnd(g, pc + 1)
      decreases g.hi - look
    {
      assert g.OpOk(pc + look);
      look := look + g.strip[pc + look].fwd;
    }
  }

  /** O_PLUS: go on, and back to the opening of the loop. */
  method LoopEnd(pc: nat, n: nat, aft: StateSet) returns (again: bool)
    requires aft.Valid() && 1 <= n <= pc && pc + 1 < aft.n
    modifies aft`mask, aft.cells
    ensures aft.Valid()
    ensures aft.View() == old(aft.View()) + (if pc in old(aft.View()) then {pc + 1, pc - n} else {})
    ensures again <==> pc in old(aft.View()) && pc - n !in old(aft.View())
  {
    hide StateSet.Valid, StateSet.View;
    aft.Fwd(aft, pc, 1);
    var i := aft.IsSet(pc - n);
    aft.Back(aft, pc, n);
    var j := aft.IsSet(pc - n);
    again := !i && j;
  }

  /** Execute the operator at pc. again says that a loop must be reconsidered from its opening. */
  method Execute(g: Prog, pc: nat, bef: StateSet, ch: Code, aft: StateSet) returns (again: bool)
    requires g.Ok() && g.lo <= pc < g.hi
    requires bef.Valid() && aft.Valid() && bef.small == aft.small && bef.n == aft.n == |g.strip|
    modifies aft`mask, aft.cells
    ensures aft.Valid()
    ensures aft.View() == old(aft.View()) + Leads(g, pc, old(bef.View()), ch, old(aft.View()))
    ensures again <==> g.strip[pc].O_Plus? && pc in old(aft.View()) && pc - g.strip[pc].back !in old(aft.View())
  {
    hide StateSet.Valid, StateSet.View;
    again := false;
    match g.strip[pc]
    case OEnd =>
    case OChar(c) =>
      if ch == c { aft.Fwd(bef, pc, 1); }
    case OAny =>
      if !NonChar(ch) { aft.Fwd(bef, pc, 1); }
    case OAnyOf(k) =>
      assert g.OpOk(pc);
      if !NonChar(ch) && CHIN(g.sets[k], ch) { aft.Fwd(bef, pc, 1); }
    case O_Plus(n) =>
      assert g.OpOk(pc);
      again := LoopEnd(pc, n, aft);
    case OQuest_(_) => ExecuteChoice(g, pc, aft, old(bef.View()), ch);
    case OCh_(_) => ExecuteChoice(g, pc, aft, old(bef.View()), ch);
    case OOr1(_) => ExecuteChoice(g, pc, aft, old(bef.View()), ch);
    case OOr2(_) => ExecuteChoice(g, pc, aft, old(bef.View()), ch);
    case _ =>
      aft.Fwd(aft, pc, 1);
  }

  /** The operators with more than one way on. */
  method ExecuteChoice(g: Prog, pc: nat, aft: StateSet, ghost before: set<nat>, ch: Code)
    requires g.Ok() && g.lo <= pc < g.hi && aft.Valid() && aft.n == |g.strip|
    requires g.strip[pc].OQuest_? || g.strip[pc].OCh_? || g.strip[pc].OOr1? || g.strip[pc].OOr2?
    modifies aft`mask, aft.cells
    ensures aft.Valid()
    ensures aft.View() == old(aft.View()) + Leads(g, pc, before, ch, old(aft.View()))
  {
    hide StateSet.Valid, StateSet.View;
    assert g.OpOk(pc);
    match g.strip[pc]
    case OQuest_(n) =>
      aft.Fwd(aft, pc, 1);
      aft.Fwd(aft, pc, n);
    case OCh_(n) =>
      aft.Fwd(aft, pc, 1);
      aft.Fwd(aft, pc, n);
    case OOr1(_) =>
      var here := aft.IsSet(pc);
      if here {
        var look := Look(g, pc);
        aft.Fwd(aft, pc, look + 1);
      }
    case OOr2(n) =>
      aft.Fwd(aft, pc, 1);
      if !g.strip[pc + n].O_Ch? { aft.Fwd(aft, pc, n); }
  }

  /** Nothing remains to be done for the operators before pc. */
  ghost predicate Done(g: Prog, pc: nat, before: set<nat>, ch: Code, s: set<nat>)
    requires g.Ok()
  {
    && (forall q: nat, r: nat :: q < pc && q in s && Eps(g, q, r) ==> r in s)
    && (forall q: nat :: q < pc && q in before && Eats(g, q, ch) ==> q + 1 in s)
  }

  /** Moves go forward, except from the end of a loop to its opening. */
  lemma EpsForward(g: Prog, q: nat, r: nat)
    requires g.Ok() && Eps(g, q, r)
    ensures r > q || (g.strip[q].O_Plus? && q >= g.strip[q].back && r == q - g.strip[q].back)
    ensures r <= g.hi
  {
    assert g.OpOk(q);
  }

  lemma TargetsContain(g: Prog, pc: nat, before: set<nat>, ch: Code, s: set<nat>, r: nat)
    requires g.Ok()
    requires (pc in s && Eps(g, pc, r)) || (pc in before && Eats(g, pc, ch) && r == pc + 1)
    ensures r in Targets(g, pc, before, ch, s)
  {
    if pc in s && Eps(g, pc, r) { EpsForward(g, pc, r); }
  }

  /** Past an operator that opens no new round. */
  lemma DoneNext(g: Prog, pc: nat, before: set<nat>, ch: Code, s: set<nat>, s': set<nat>)
    requires g.Ok() && g.lo <= pc < g.hi
    requires Done(g, pc, before, ch, s) && s' == s + Targets(g, pc, before, ch, s)
    requires g.strip[pc].O_Plus? && pc in s ==> g.strip[pc].back <= pc && pc - g.strip[pc].back in s
    ensures Done(g, pc + 1, before, ch, s')
  {
    forall q: nat, r: nat | q < pc + 1 && q in s' && Eps(g, q, r) ensures r in s' {
      if q !in s && pc in s && Eps(g, pc, q) { EpsForward(g, pc, q); }
      if q == pc { TargetsContain(g, pc, before, ch, s, r); }
    }
    forall q: nat | q < pc + 1 && q in before && Eats(g, q, ch) ensures q + 1 in s' {
      if q == pc { TargetsContain(g, pc, before, ch, s, q + 1); }
    }
  }

  /** Back to the opening b of a loop. */
  lemma DoneAgain(g: Prog, pc: nat, before: set<nat>, ch: Code, s: set<nat>, s': set<nat>, b: nat)
    requires g.Ok() && g.lo <= pc < g.hi && g.strip[pc].O_Plus? && pc >= g.strip[pc].back && b == pc - g.strip[pc].back
    requires Done(g, pc, before, ch, s) && s' == s + Targets(g, pc, before, ch, s)
    ensures Done(g, b, before, ch, s')
  {
    forall q: nat, r: nat | q < b && q in s' && Eps(g, q, r) ensures r in s' {
      if q !in s && pc in s && Eps(g, pc, q) { EpsForward(g, pc, q); }
    }
  }

  lemma StaysBelow(g: Prog, pc: nat, known: set<nat>, before: set<nat>, ch: Code, s: set<nat>, t: set<nat>)
    requires g.Ok()
    requires Covers(g, known, before, ch, t) && s <= t
    ensures s + Targets(g, pc, before, ch, s) <= t
  {}

  lemma DoneAll(g: Prog, known: set<nat>, before: set<nat>, ch: Code, s: set<nat>)
    requires g.Ok() && known <= s && Done(g, g.hi, before, ch, s)
    ensures Covers(g, known, before, ch, s)
  {}

  /** The states not yet set. */
  ghost function Unset(n: nat, s: set<nat>): set<nat> {
    set q: nat | q < n && q !in s
  }

  lemma UnsetShrinks(n: nat, s: set<nat>, t: set<nat>)
    requires s <= t
    ensures Unset(n, t) <= Unset(n, s)
    ensures forall b: nat :: b < n && b in t && b !in s ==> Unset(n, t) < Unset(n, s)
  {
    forall b: nat | b < n && b in t && b !in s ensures Unset(n, t) < Unset(n, s) {
      assert b in Unset(n, s) && b !in Unset(n, t);
    }
  }

  /** Without a character to consume, the states before do not matter. */
  lemma SilentIgnoresBefore(g: Prog, pc: nat, b: set<nat>, c: set<nat>, ch: Code, s: set<nat>)
    requires g.Ok() && g.lo <= pc < g.hi && NonChar(ch)
    ensures Leads(g, pc, b, ch, s) == Leads(g, pc, c, ch, s)
  {}

  /** What one round of the loop in Step keeps. */
  lemma StepRound(g: Prog, pc: nat, known: set<nat>, before: set<nat>, now: set<nat>, ch: Code, s: set<nat>,
                  s': set<nat>, again: bool)
    requires g.Ok() && g.lo <= pc < g.hi
    requires now == before || NonChar(ch)
    requires known <= s && Done(g, pc, before, ch, s)
    requires forall t: set<nat> :: Covers(g, known, before, ch, t) ==> s <= t
    requires s' == s + Leads(g, pc, now, ch, s)
    requires again <==> g.strip[pc].O_Plus? && pc in s && pc - g.strip[pc].back !in s
    ensures forall t: set<nat> :: Covers(g, known, before, ch, t) ==> s' <= t
    ensures !again ==> Done(g, pc + 1, before, ch, s')
    ensures again ==> 1 <= g.strip[pc].back && g.lo + g.strip[pc].back <= pc
    ensures again ==> Done(g, pc - g.strip[pc].back, before, ch, s') && pc - g.strip[pc].back in s'
  {
    assert g.OpOk(pc);
    assert Leads(g, pc, now, ch, s) == Leads(g, pc, before, ch, s) by {
      if NonChar(ch) { SilentIgnoresBefore(g, pc, now, before, ch, s); }
    }
    TargetsLead(g, pc, before, ch, s);
    hide Targets, Done, Covers;
    forall t: set<nat> | Covers(g, known, before, ch, t) ensures s' <= t {
      StaysBelow(g, pc, known, before, ch, s, t);
    }
    if again {
      DoneAgain(g, pc, before, ch, s, s', pc - g.strip[pc].back);
    } else {
      DoneNext(g, pc, before, ch, s, s');
    }
  }

  /** step: extend aft to the least set that holds it, holds what lies behind a state of bef
      that consumes ch, and is closed under silent moves. Ends although loops are re-entered. */
  method Step(g: Prog, start: nat, stop: nat, bef: StateSet, ch: Code, aft: StateSet)
    requires g.Ok() && start == g.lo && stop == g.hi
    requires bef.Valid() && aft.Valid() && bef.small == aft.small && bef.n == aft.n == |g.strip|
    requires if NonChar(ch) then bef == aft || bef.cells != aft.cells else bef != aft && bef.cells != aft.cells
    modifies aft`mask, aft.cells
    ensures aft.Valid()
    ensures Least(g, old(aft.View()), old(bef.View()), ch, aft.View())
  {
    hide StateSet.Valid, StateSet.View, Done, Covers, Leads, Unset;
    ghost var known, before := aft.View(), bef.View();
    var pc := start;
    DoneNone(g, before, ch, known);
    KnownBelow(g, known, before, ch);
    while pc != stop
      invariant start <= pc <= stop && aft.Valid() && bef.Valid()
      invariant NonChar(ch) || bef.View() == before
      invariant known <= aft.View()
      invariant Done(g, pc, before, ch, aft.View())
      invariant forall t: set<nat> :: Covers(g, known, before, ch, t) ==> aft.View() <= t
      decreases Unset(aft.n, aft.View()), stop - pc
    {
      ghost var s, now := aft.View(), bef.View();
      var again := Execute(g, pc, bef, ch, aft);
      StepRound(g, pc, known, before, now, ch, s, aft.View(), again);
      UnsetShrinks(aft.n, s, aft.View());
      if again {
        pc := pc - g.strip[pc].back;
      } else {
        pc := pc + 1;
      }
    }
    DoneAll(g, known, before, ch, aft.View());
  }

  lemma DoneNone(g: Prog, before: set<nat>, ch: Code, s: set<nat>)
    requires g.Ok()
    ensures Done(g, g.lo, before, ch, s)
  {}

  lemma KnownBelow(g: Prog, known: set<nat>, before: set<nat>, ch: Code)
    requires g.Ok()
    ensures forall t: set<nat> :: Covers(g, known, before, ch, t) ==> known <= t
  {}
}
