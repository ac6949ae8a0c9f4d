/** Walking a strip along a subject, quickly to find out whether and from where there is a match,
    slowly to find the longest match from one position (src/missing/engine.c). */
module Walk {
  import opened Wrappers
  import opened Strip
  import opened Language
  import opened States
  import opened Machine
  import opened Threads

  /** The subject from i to j leads from the entry of the strip to its end. */
  ghost predicate Hit(g: Prog, text: Word, i: int, j: int)
    requires g.Ok()
  {
    0 <= i <= j <= |text| && Reach(g, g.lo, text[i..j], g.hi)
  }

  /** No fresh start silently reaches the state behind a consuming operator. */
  ghost predicate Cold(g: Prog)
    requires g.Ok()
  {
    forall q: nat :: g.lo <= q < g.hi && IsConsuming(g.strip[q]) ==> !Reach(g, g.lo, [], q + 1)
  }

  ghost predicate Starts(text: Word, i0: nat, i1: nat, p: nat, v: Word)
    requires p <= |text|
  {
    exists i: nat :: i0 <= i <= i1 && i <= p && v == text[i..p]
  }

  /** The pieces of the subject that end at p and start between i0 and i1. */
  ghost function Window(text: Word, i0: nat, i1: nat, p: nat): Lang
    requires p <= |text|
  {
    iset v: Word | Starts(text, i0, i1, p, v)
  }

  lemma WindowStart(text: Word, i: nat)
    requires i <= |text|
    ensures Window(text, i, i, i) == UNIT
  {
    assert text[i..i] == [];
    forall v: Word ensures v in Window(text, i, i, i) <==> v in UNIT {
      if v == [] { assert v == text[i..i]; }
    }
  }

  lemma WindowExtend(text: Word, i0: nat, i1: nat, p: nat)
    requires i0 <= i1 <= p < |text|
    ensures Extend(Window(text, i0, i1, p), text[p]) == Window(text, i0, i1, p + 1)
  {
    forall v: Word ensures v in Extend(Window(text, i0, i1, p), text[p]) <==> v in Window(text, i0, i1, p + 1) {
      if v in Window(text, i0, i1, p + 1) { WindowShorter(text, i0, i1, p, v); }
      if v in Extend(Window(text, i0, i1, p), text[p]) { WindowLonger(text, i0, i1, p, v); }
    }
  }

  lemma WindowShorter(text: Word, i0: nat, i1: nat, p: nat, v: Word)
    requires i0 <= i1 <= p < |text| && v in Window(text, i0, i1, p + 1)
    ensures v in Extend(Window(text, i0, i1, p), text[p])
  {
    var i: nat :| i0 <= i <= i1 && i <= p + 1 && v == text[i..p + 1];
    assert v[..|v| - 1] == text[i..p];
  }

  lemma WindowLonger(text: Word, i0: nat, i1: nat, p: nat, v: Word)
    requires i0 <= i1 <= p < |text| && v in Extend(Window(text, i0, i1, p), text[p])
    ensures v in Window(text, i0, i1, p + 1)
  {
    var i: nat :| i0 <= i <= i1 && i <= p && v[..|v| - 1] == text[i..p];
    assert v == v[..|v| - 1] + [text[p]] == text[i..p + 1];
  }

  lemma WindowWiden(text: Word, i0: nat, p: nat)
    requires i0 <= p < |text|
    ensures UNIT + Window(text, i0, p, p + 1) == Window(text, i0, p + 1, p + 1)
  {
    assert text[p + 1..p + 1] == [];
    var wide, narrow := Window(text, i0, p + 1, p + 1), Window(text, i0, p, p + 1);
    forall v: Word ensures v in wide <==> v in UNIT + narrow {
      if v in wide {
        var i: nat :| i0 <= i <= p + 1 && i <= p + 1 && v == text[i..p + 1];
      }
      if v in narrow {
        var i: nat :| i0 <= i <= p && i <= p + 1 && v == text[i..p + 1];
      }
    }
  }

  lemma WindowHit(g: Prog, text: Word, i0: nat, i1: nat, p: nat)
    requires g.Ok() && i0 <= i1 <= p <= |text|
    ensures g.hi in After(g, Window(text, i0, i1, p)) <==> exists i: nat :: i0 <= i <= i1 && Hit(g, text, i, p)
  {
    hide Hit, After, Window;
    if g.hi in After(g, Window(text, i0, i1, p)) {
      var i := HitOfWindow(g, text, i0, i1, p);
    }
    if i: nat :| i0 <= i <= i1 && Hit(g, text, i, p) {
      WindowOfHit(g, text, i0, i1, p, i);
    }
  }

  lemma HitOfWindow(g: Prog, text: Word, i0: nat, i1: nat, p: nat) returns (i: nat)
    requires g.Ok() && i0 <= i1 <= p <= |text| && g.hi in After(g, Window(text, i0, i1, p))
    ensures i0 <= i <= i1 && Hit(g, text, i, p)
  {
    hide Reach;
    var v: Word :| v in Window(text, i0, i1, p) && Reach(g, g.lo, v, g.hi);
    i :| i0 <= i <= i1 && i <= p && v == text[i..p];
  }

  lemma WindowOfHit(g: Prog, text: Word, i0: nat, i1: nat, p: nat, i: nat)
    requires g.Ok() && i0 <= i <= i1 <= p <= |text| && Hit(g, text, i, p)
    ensures g.hi in After(g, Window(text, i0, i1, p))
  {
    hide Reach, After;
    assert Starts(text, i0, i1, p, text[i..p]);
    InAfter(g, Window(text, i0, i1, p), text[i..p], g.hi);
  }

  /** No state is left after v. */
  ghost predicate Dead(g: Prog, v: Word)
    requires g.Ok()
  {
    forall q: nat :: !Reach(g, g.lo, v, q)
  }

  lemma DeadStays(g: Prog, text: Word, i: nat, p: nat, j: nat)
    requires g.Ok() && i <= p <= j <= |text| && Dead(g, text[i..p])
    ensures !Hit(g, text, i, j)
  {
    if Hit(g, text, i, j) {
      assert text[i..j] == text[i..p] + text[p..j];
      var n: nat :| ReachN(g, g.lo, text[i..j], g.hi, n);
      Prefixes(g, text[i..p], text[p..j], g.hi, n);
    }
  }

  /** A run over a nonempty word has just passed a consuming operator before its last silent moves. */
  lemma LastEaten(g: Prog, v: Word, q: nat) returns (m: nat)
    requires g.Ok() && v != [] && Reach(g, g.lo, v, q)
    ensures g.lo <= m < g.hi && IsConsuming(g.strip[m]) && Reach(g, g.lo, v, m + 1)
  {
    var n: nat :| ReachN(g, g.lo, v, q, n);
    m := LastEatenN(g, v, q, n);
  }

  lemma {:induction false} LastEatenN(g: Prog, v: Word, q: nat, n: nat) returns (m: nat)
    requires g.Ok() && v != [] && ReachN(g, g.lo, v, q, n)
    ensures g.lo <= m < g.hi && IsConsuming(g.strip[m]) && Reach(g, g.lo, v, m + 1)
    decreases n
  {
    hide Eps;
    var p: nat, k: nat :| k <= |v| && ReachN(g, g.lo, v[..k], p, n - 1) && Move(g, p, v[k..], q);
    if v[k..] == [] {
      assert v[..k] == v;
      m := LastEatenN(g, v, p, n - 1);
    } else {
      assert Reach(g, g.lo, v, q);
      m := p;
    }
  }

  /** When the state set of the fast walk equals that of a fresh start, every earlier thread has
      died. */
  lemma FreshMeansDead(g: Prog, text: Word, start: nat, p: nat, i: nat)
    requires g.Ok() && Cold(g) && start <= i < p <= |text|
    requires After(g, Window(text, start, p, p)) == After(g, UNIT)
    ensures Dead(g, text[i..p])
  {
    hide Reach;
    var v := text[i..p];
    assert v in Window(text, start, p, p);
    forall q: nat ensures !Reach(g, g.lo, v, q) {
      if Reach(g, g.lo, v, q) {
        var m := LastEaten(g, v, q);
        InAfter(g, Window(text, start, p, p), v, m + 1);
        FreshReach(g, m + 1);
      }
    }
  }

  lemma FreshReach(g: Prog, q: nat)
    requires g.Ok() && q in After(g, UNIT)
    ensures Reach(g, g.lo, [], q)
  {}

  lemma EmptyMeansDead(g: Prog, text: Word, start: nat, p: nat)
    requires g.Ok() && start <= p <= |text|
    requires After(g, Window(text, start, start, p)) == {}
    ensures Dead(g, text[start..p])
  {
    var v := text[start..p];
    forall q: nat ensures !Reach(g, g.lo, v, q) {
      assert v in Window(text, start, start, p);
      if Reach(g, g.lo, v, q) { InAfter(g, Window(text, start, start, p), v, q); }
    }
  }

  /** No piece that starts at or after begin and ends before p is a hit. */
  ghost predicate NoneBefore(g: Prog, text: Word, begin: nat, p: nat)
    requires g.Ok()
  {
    forall i: nat, j: nat :: begin <= i && j < p ==> !Hit(g, text, i, j)
  }

  /** Every thread started between begin and m is dead at m. */
  ghost predicate ColdAt(g: Prog, text: Word, begin: nat, m: nat)
    requires g.Ok()
  {
    begin <= m <= |text| && forall i: nat :: begin <= i < m ==> Dead(g, text[i..m])
  }

  lemma FreshIsCold(g: Prog, text: Word, begin: nat, p: nat)
    requires g.Ok() && Cold(g) && begin <= p <= |text|
    requires After(g, Window(text, begin, p, p)) == After(g, UNIT)
    ensures ColdAt(g, text, begin, p)
  {
    hide Dead, Cold;
    forall i: nat | begin <= i < p ensures Dead(g, text[i..p]) {
      FreshMeansDead(g, text, begin, p, i);
    }
  }

  /** No match starts before a cold position m, if none ended before m either. */
  lemma ColdBound(g: Prog, text: Word, begin: nat, m: nat, p: nat)
    requires g.Ok() && ColdAt(g, text, begin, m) && NoneBefore(g, text, begin, p) && m <= p
    ensures forall i: nat, j: nat :: begin <= i < m ==> !Hit(g, text, i, j)
  {
    hide Dead;
    forall i: nat, j: nat | begin <= i < m ensures !Hit(g, text, i, j) {
      if m <= j <= |text| { DeadStays(g, text, i, m, j); }
    }
  }

  /** The longest hit from begin that ends before p. */
  ghost predicate LongestBefore(g: Prog, text: Word, begin: nat, p: nat, e: Option<nat>)
    requires g.Ok()
  {
    match e
    case None => forall j: nat :: j < p ==> !Hit(g, text, begin, j)
    case Some(m) => m < p && Hit(g, text, begin, m) && forall j: nat :: m < j < p ==> !Hit(g, text, begin, j)
  }

  lemma DeadEnd(g: Prog, text: Word, begin: nat, p: nat, stop: nat, e: Option<nat>)
    requires g.Ok() && begin <= p <= stop <= |text|
    requires LongestBefore(g, text, begin, p + 1, e) && Dead(g, text[begin..p])
    ensures LongestBefore(g, text, begin, stop + 1, e)
  {
    hide Dead, Hit;
    forall j: nat | p < j < stop + 1 ensures !Hit(g, text, begin, j) {
      DeadStays(g, text, begin, p, j);
    }
  }

  lemma HeldHit(g: Prog, text: Word, begin: nat, p: nat)
    requires g.Ok() && begin <= p <= |text|
    ensures g.hi in After(g, Window(text, begin, begin, p)) <==> Hit(g, text, begin, p)
  {
    WindowHit(g, text, begin, begin, p);
  }

  lemma NoneBeforeNext(g: Prog, text: Word, begin: nat, p: nat)
    requires g.Ok() && begin <= p <= |text| && NoneBefore(g, text, begin, p)
    requires g.hi !in After(g, Window(text, begin, p, p))
    ensures NoneBefore(g, text, begin, p + 1)
  {
    hide Hit, After;
    WindowHit(g, text, begin, p, p);
    forall i: nat, j: nat | begin <= i && j < p + 1 ensures !Hit(g, text, i, j) {
      if j == p && i > p { HitOrdered(g, text, i, j); }
    }
  }

  lemma HitOrdered(g: Prog, text: Word, i: int, j: int)
    requires g.Ok()
    ensures Hit(g, text, i, j) ==> i <= j
  {}

  lemma SomeHit(g: Prog, text: Word, begin: nat, p: nat)
    requires g.Ok() && begin <= p <= |text|
    requires g.hi in After(g, Window(text, begin, p, p))
    ensures exists i: nat :: begin <= i && Hit(g, text, i, p)
  {
    WindowHit(g, text, begin, p, p);
  }

  lemma LongestNext(g: Prog, text: Word, begin: nat, p: nat, e: Option<nat>)
    requires g.Ok() && LongestBefore(g, text, begin, p, e)
    ensures LongestBefore(g, text, begin, p + 1, if Hit(g, text, begin, p) then Some(p) else e)
  {
    hide Hit;
  }

  lemma FastAlive(g: Prog, text: Word, begin: nat, p: nat)
    requires g.Ok() && begin <= p <= |text|
    ensures After(g, Window(text, begin, p, p)) != {}
  {
    var w := Window(text, begin, p, p);
    assert text[p..p] == [] && text[p..p] in w;
    ReachRefl(g, g.lo);
    InAfter(g, w, [], g.lo);
  }

  /** What a fast walk from begin to stop has established. */
  ghost predicate FastResult(g: Prog, text: Word, begin: nat, stop: nat, found: bool, m: nat)
    requires g.Ok()
  {
    && begin <= m <= stop
    && (found <==> exists i: nat, j: nat :: begin <= i && j <= stop && Hit(g, text, i, j))
    && (forall i: nat, j: nat :: begin <= i < m && j <= stop ==> !Hit(g, text, i, j))
  }

  lemma FastFound(g: Prog, text: Word, begin: nat, stop: nat, m: nat, p: nat)
    requires g.Ok() && begin <= m <= p <= stop <= |text|
    requires ColdAt(g, text, begin, m) && NoneBefore(g, text, begin, p)
    requires g.hi in After(g, Window(text, begin, p, p))
    ensures FastResult(g, text, begin, stop, true, m)
  {
    hide Hit, Dead;
    ColdBound(g, text, begin, m, p);
    SomeHit(g, text, begin, p);
  }

  lemma FastMissed(g: Prog, text: Word, begin: nat, stop: nat, m: nat)
    requires g.Ok() && begin <= m <= stop <= |text|
    requires NoneBefore(g, text, begin, stop)
    requires g.hi !in After(g, Window(text, begin, stop, stop))
    ensures FastResult(g, text, begin, stop, false, m)
  {
    hide Hit;
    NoneBeforeNext(g, text, begin, stop);
  }

  lemma SlowStart(g: Prog, text: Word, begin: nat)
    requires g.Ok()
    ensures NoneBefore(g, text, begin, begin) && LongestBefore(g, text, begin, begin, None)
  {}

  /** A letter, a digit or an underscore. The code OUT is none of them. */
  predicate IsWord(c: int) {
    '0' as int <= c <= '9' as int || 'A' as int <= c <= 'Z' as int || 'a' as int <= c <= 'z' as int || c == '_' as int
  }

  /** What a match attempt works on: the program, the subject, the flags, and four sets of states. */
  class Match {
    const g: Prog
    const text: Word
    const newline: bool
    const notbol: bool
    const noteol: bool
    const nbol: nat
    const neol: nat
    const st: StateSet
    const freshSt: StateSet
    const tmp: StateSet
    const empty: StateSet
    var coldp: nat

    ghost predicate Valid()
      reads this, st, st.cells, freshSt, freshSt.cells, tmp, tmp.cells, empty, empty.cells
    {
      && g.Ok()
      && st.Valid() && freshSt.Valid() && tmp.Valid() && empty.Valid()
      && st.n == freshSt.n == tmp.n == empty.n == |g.strip|
      && st.small == freshSt.small == tmp.small == empty.small
      && Apart(st, freshSt) && Apart(st, tmp) && Apart(st, empty) && Apart(freshSt, tmp) && Apart(freshSt, empty)
          && Apart(tmp, empty)
      && empty.View() == {}
    }

    static ghost predicate Apart(a: StateSet, b: StateSet) {
      a != b && a.cells != b.cells
    }

    constructor (g: Prog, text: Word, newline: bool, notbol: bool, noteol: bool, nbol: nat, neol: nat, small: bool)
      requires g.Ok() && (small ==> |g.strip| <= 64)
      ensures Valid() && fresh(st) && fresh(freshSt) && fresh(tmp) && fresh(empty)
      ensures fresh(st.cells) && fresh(freshSt.cells) && fresh(tmp.cells) && fresh(empty.cells)
      ensures this.g == g && this.text == text
    {
      this.g, this.text, this.newline, this.notbol, this.noteol, this.nbol, this.neol :=
          g, text, newline, notbol, noteol, nbol, neol;
      var a := new StateSet(|g.strip|, small);
      var b := new StateSet(|g.strip|, small);
      var c := new StateSet(|g.strip|, small);
      var d := new StateSet(|g.strip|, small);
      st, freshSt, tmp, empty := a, b, c, d;
      coldp := 0;
    }

    /** A step that consumes nothing, such as the ones for anchors and word boundaries: on a strip
        without such operators it changes nothing. */
    method Idle(flagch: Code, ghost w: Lang)
      requires Valid() && NonChar(flagch) && st.View() == After(g, w)
      modifies st`mask, st.cells
      ensures Valid() && st.View() == After(g, w) && freshSt.View() == old(freshSt.View())
    {
      Step(g, g.lo, g.hi, st, flagch, st);
      StepInPlace(g, w, After(g, w), flagch, st.View());
    }
  
    /** The states the walk holds at p: those of every start so far if it is fast, else those of
        its one start. */
    ghost function Held(fast: bool, begin: nat, p: nat): set<nat>
      requires g.Ok() && p <= |text|
    {
      After(g, Window(text, begin, if fast then p else begin, p))
    }

    method Begin(startst: nat, fast: bool, ghost begin: nat)
      requires Valid() && startst == g.lo && begin <= |text|
      modifies st`mask, st.cells, freshSt`mask, freshSt.cells
      ensures Valid() && st.View() == Held(fast, begin, begin)
      ensures fast ==> freshSt.View() == After(g, UNIT)
    {
      st.Clear();
      st.Set1(startst);
      Step(g, startst, g.hi, st, NOTHING, st);
      FreshStart(g, {g.lo}, st.View());
      WindowStart(text, begin);
      if fast { freshSt.Assign(st); }
    }

    /** Consume the character at p. */
    method Advance(fast: bool, ghost begin: nat, p: nat)
      requires Valid() && begin <= p < |text| && st.View() == Held(fast, begin, p)
      requires fast ==> freshSt.View() == After(g, UNIT)
      modifies st`mask, st.cells, tmp`mask, tmp.cells
      ensures Valid() && st.View() == Held(fast, begin, p + 1)
      ensures fast ==> freshSt.View() == After(g, UNIT)
    {
      hide StateSet.View, StateSet.Valid;
      tmp.Assign(st);
      if fast { st.Assign(freshSt); } else { st.Assign(empty); }
      Step(g, g.lo, g.hi, tmp, text[p], st);
      ghost var i1 := if fast then p else begin;
      ghost var u: Lang := if fast then UNIT else iset{};
      NoWords(g);
      StepOver(g, u, Window(text, begin, i1, p), text[p], st.View());
      WindowExtend(text, begin, i1, p);
      if fast { WindowWiden(text, begin, p); }
      assert iset{} + Window(text, begin, begin, p + 1) == Window(text, begin, begin, p + 1);
    }
  
    /** The steps for anchors and word boundaries between lastc and c. */
    method Boundaries(lastc: int, c: int, ghost w: Lang)
      requires Valid() && st.View() == After(g, w)
      modifies st`mask, st.cells
      ensures Valid() && st.View() == After(g, w) && freshSt.View() == old(freshSt.View())
    {
      hide StateSet.View, StateSet.Valid, After;
      var flagch: Code, i := 0, 0;
      if (lastc == 10 && newline) || (lastc == OUT && !notbol) {
        flagch, i := BOL, nbol;
      }
      if (c == 10 && newline) || (c == OUT && !noteol) {
        flagch, i := if flagch == BOL then BOLEOL else EOL, i + neol;
      }
      if lastc == OUT && !notbol { i := i + 1; }
      if c == OUT && !noteol { i := i + 1; }
      while i > 0
        invariant i == 0 || NonChar(flagch)
        invariant Valid() && st.View() == After(g, w) && freshSt.View() == old(freshSt.View())
      {
        Idle(flagch, w);
        i := i - 1;
      }
      if (flagch == BOL || (lastc != OUT && !IsWord(lastc))) && c != OUT && IsWord(c) { flagch := BOW; }
      if lastc != OUT && IsWord(lastc) && (flagch == EOL || (c != OUT && !IsWord(c))) { flagch := EOW; }
      if flagch == BOW || flagch == EOW { Idle(flagch, w); }
      if lastc != OUT && c != OUT && IsWord(lastc) == IsWord(c) {
        flagch := NWBND;
      } else if (lastc == OUT && !IsWord(c)) || (c == OUT && !IsWord(lastc)) {
        flagch := NWBND;
      }
      if flagch == NWBND { Idle(flagch, w); }
    }

    /** Compare the states at p with a fresh start, take the steps for anchors and boundaries, and
        look for the final state and for the empty set. */
    method Examine(start: nat, fast: bool, p: nat, lastc: int, c: int) returns (same: bool, done: bool, none: bool)
      requires Valid() && start <= p <= |text| && st.View() == Held(fast, start, p)
      modifies st`mask, st.cells
      ensures Valid() && st.View() == Held(fast, start, p) && freshSt.View() == old(freshSt.View())
      ensures same <==> st.View() == freshSt.View()
      ensures done <==> g.hi in st.View()
      ensures none <==> st.View() == {}
    {
      hide StateSet.View, StateSet.Valid, After;
      same := st.Eq(freshSt);
      Boundaries(lastc, c, Window(text, start, if fast then p else start, p));
      done := st.IsSet(g.hi);
      none := st.Eq(empty);
    }

    /** walk. Fast: is there a match between start and stop, and from where on may it start.
        Slow: the end of the longest match that starts at start. */
    method Walk(start: nat, stop: nat, fast: bool) returns (r: Option<nat>)
      requires Valid() && start <= stop <= |text| && Cold(g)
      modifies this`coldp, st`mask, st.cells, freshSt`mask, freshSt.cells, tmp`mask, tmp.cells
      ensures Valid()
      ensures fast ==> FastResult(g, text, start, stop, r.Some?, coldp)
      ensures !fast ==> coldp == old(coldp) && LongestBefore(g, text, start, stop + 1, r)
    {
      hide StateSet.View, StateSet.Valid, After, Cold, Hit, Dead, NoneBefore, LongestBefore, ColdAt, Window, FastResult;
      var p := start;
      Begin(g.lo, fast, start);
      WindowStart(text, start);
      var matchp: Option<nat> := None;
      var c: int := if start == 0 then OUT else text[start - 1];
      SlowStart(g, text, start);
      while true
        invariant start <= p <= stop && Valid() && coldp == old(coldp)
        invariant st.View() == Held(fast, start, p)
        invariant fast ==> freshSt.View() == After(g, UNIT) && NoneBefore(g, text, start, p)
        invariant fast && matchp.None? ==> p == start
        invariant fast && matchp.Some? ==> start <= matchp.value < p && ColdAt(g, text, start, matchp.value)
        invariant !fast ==> LongestBefore(g, text, start, p, matchp)
        decreases stop - p
      {
        var lastc := c;
        var clen;
        if p == |text| { c, clen := OUT, 0; } else { c, clen := text[p], 1; }
        var same, done, none := Examine(start, fast, p, lastc, c);
        if fast && same {
          matchp := Some(p);
          FreshIsCold(g, text, start, p);
        }
        if fast {
          if done { break; }
          NoneBeforeNext(g, text, start, p);
        } else {
          HeldHit(g, text, start, p);
          LongestNext(g, text, start, p, matchp);
          if done { matchp := Some(p); }
        }
        if none || p == stop || clen > stop - p {
          if fast {
            FastAlive(g, text, start, p);
          } else if none {
            EmptyMeansDead(g, text, start, p);
            DeadEnd(g, text, start, p, stop, matchp);
          }
          break;
        }
        Advance(fast, start, p);
        p := p + clen;
      }
      r := matchp;
      if fast { r := Conclude(start, stop, matchp.value, p); }
    }

    /** The end of a fast walk: the cold position, and whether there is a match. */
    method Conclude(start: nat, stop: nat, matchp: nat, p: nat) returns (r: Option<nat>)
      requires Valid() && start <= matchp <= p <= stop <= |text|
      requires st.View() == Held(true, start, p) && (g.hi in st.View() || p == stop)
      requires ColdAt(g, text, start, matchp) && NoneBefore(g, text, start, p)
      modifies this`coldp
      ensures Valid() && FastResult(g, text, start, stop, r.Some?, coldp)
    {
      hide StateSet.View, StateSet.Valid, After, NoneBefore, ColdAt, Window, FastResult;
      coldp := matchp;
      var done := st.IsSet(g.hi);
      if done {
        FastFound(g, text, start, stop, coldp, p);
        r := Some(p + 1);
      } else {
        FastMissed(g, text, start, stop, coldp);
        r := None;
      }
    }
  }

  lemma NoWords(g: Prog)
    requires g.Ok()
    ensures After(g, iset{}) == {}
  {}
}
