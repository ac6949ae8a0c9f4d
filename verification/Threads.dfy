/** The states a set of words leads to, and how one step of the machine turns them into the states
    of the words one character longer. */
module Threads {
  import opened Strip
  import opened Language
  import opened Machine

  ghost predicate Led(g: Prog, w: Lang, q: nat)
    requires g.Ok()
  {
    exists v: Word :: v in w && Reach(g, g.lo, v, q)
  }

  /** The states that some word of w leads to. */
  ghost function After(g: Prog, w: Lang): set<nat>
    requires g.Ok()
  {
    set q: nat | q <= g.hi && Led(g, w, q)
  }

  lemma {:induction false} ReachInRange(g: Prog, v: Word, q: nat, n: nat)
    requires g.Ok() && ReachN(g, g.lo, v, q, n)
    ensures g.lo <= q <= g.hi
    decreases n
  {
    if n > 0 {
      var m: nat, k: nat :| k <= |v| && ReachN(g, g.lo, v[..k], m, n - 1) && Move(g, m, v[k..], q);
      if v[k..] == [] { EpsInRange(g, m, q); }
    }
  }

  lemma InAfter(g: Prog, w: Lang, v: Word, q: nat)
    requires g.Ok() && v in w && Reach(g, g.lo, v, q)
    ensures q in After(g, w)
  {
    var n: nat :| ReachN(g, g.lo, v, q, n);
    ReachInRange(g, v, q, n);
  }

  /** The words of w followed by c. */
  ghost function Extend(w: Lang, c: Byte): Lang {
    iset v: Word | v != [] && v[|v| - 1] == c && v[..|v| - 1] in w
  }

  lemma AfterClosed(g: Prog, w: Lang)
    requires g.Ok()
    ensures Closed(g, After(g, w))
  {
    forall q: nat, r: nat | q in After(g, w) && Eps(g, q, r) ensures r in After(g, w) {
      var v: Word :| v in w && Reach(g, g.lo, v, q);
      ReachMove(g, g.lo, v, q, [], r);
      assert v + [] == v;
      InAfter(g, w, v, r);
    }
  }

  lemma AfterFed(g: Prog, w: Lang, c: Byte)
    requires g.Ok()
    ensures Fed(g, After(g, w), c, After(g, Extend(w, c)))
  {
    forall q: nat | q in After(g, w) && Eats(g, q, c) ensures q + 1 in After(g, Extend(w, c)) {
      var v: Word :| v in w && Reach(g, g.lo, v, q);
      assert Move(g, q, [c], q + 1);
      ReachMove(g, g.lo, v, q, [c], q + 1);
      var x := v + [c];
      assert x[..|x| - 1] == v;
      InAfter(g, Extend(w, c), x, q + 1);
    }
  }

  lemma AfterUnion(g: Prog, u: Lang, w: Lang)
    requires g.Ok()
    ensures After(g, u + w) == After(g, u) + After(g, w)
  {
    forall q: nat | q in After(g, u + w) ensures q in After(g, u) + After(g, w) {
      var v: Word :| v in u + w && Reach(g, g.lo, v, q);
    }
    forall q: nat | q in After(g, u) + After(g, w) ensures q in After(g, u + w) {
      if q in After(g, u) {
        var v: Word :| v in u && Reach(g, g.lo, v, q);
        InAfter(g, u + w, v, q);
      } else {
        var v: Word :| v in w && Reach(g, g.lo, v, q);
        InAfter(g, u + w, v, q);
      }
    }
  }

  /** A closed set that is fed c from the states of w holds every state of w followed by c. */
  lemma {:induction false} RunsStay(g: Prog, w: Lang, c: Byte, s: set<nat>, v: Word, q: nat, n: nat)
    requires g.Ok() && Closed(g, s) && Fed(g, After(g, w), c, s)
    requires v in Extend(w, c) && ReachN(g, g.lo, v, q, n)
    ensures q in s
    decreases n
  {
    hide Eps;
    var m: nat, k: nat :| k <= |v| && ReachN(g, g.lo, v[..k], m, n - 1) && Move(g, m, v[k..], q);
    if v[k..] == [] {
      assert v[..k] == v;
      RunsStay(g, w, c, s, v, m, n - 1);
    } else {
      assert k == |v| - 1 && v[k..][0] == c;
      InAfter(g, w, v[..k], m);
      assert Eats(g, m, c);
    }
  }

  /** The same for the empty word, from the entry. */
  lemma {:induction false} SilentRunsStay(g: Prog, s: set<nat>, q: nat, n: nat)
    requires g.Ok() && Closed(g, s) && g.lo in s
    requires ReachN(g, g.lo, [], q, n)
    ensures q in s
    decreases n
  {
    hide Eps;
    if n > 0 {
      var v: Word := [];
      var m: nat, k: nat :| k <= |v| && ReachN(g, g.lo, v[..k], m, n - 1) && Move(g, m, v[k..], q);
      assert v[..k] == [] && v[k..] == [];
      SilentRunsStay(g, s, m, n - 1);
    }
  }

  /** The first step of a walk sets the states of a fresh start. */
  lemma FreshStart(g: Prog, before: set<nat>, s: set<nat>)
    requires g.Ok() && Least(g, {g.lo}, before, NOTHING, s)
    ensures s == After(g, UNIT)
  {
    ReachRefl(g, g.lo);
    InAfter(g, UNIT, [], g.lo);
    AfterClosed(g, UNIT);
    assert Covers(g, {g.lo}, before, NOTHING, After(g, UNIT));
    forall q: nat | q in After(g, UNIT) ensures q in s {
      var v: Word :| v in UNIT && Reach(g, g.lo, v, q);
      var n: nat :| ReachN(g, g.lo, v, q, n);
      SilentRunsStay(g, s, q, n);
    }
  }

  /** A step over a character: the states of u, kept, and those of w, moved on. */
  lemma StepOver(g: Prog, u: Lang, w: Lang, c: Byte, s: set<nat>)
    requires g.Ok() && Least(g, After(g, u), After(g, w), c, s)
    ensures s == After(g, u + Extend(w, c))
  {
    var t := After(g, u + Extend(w, c));
    AfterUnion(g, u, Extend(w, c));
    AfterClosed(g, u + Extend(w, c));
    AfterFed(g, w, c);
    assert Covers(g, After(g, u), After(g, w), c, t);
    forall q: nat | q in After(g, Extend(w, c)) ensures q in s {
      var v: Word :| v in Extend(w, c) && Reach(g, g.lo, v, q);
      var n: nat :| ReachN(g, g.lo, v, q, n);
      RunsStay(g, w, c, s, v, q, n);
    }
  }

  /** A step that consumes nothing leaves the states of any words alone. */
  lemma StepInPlace(g: Prog, w: Lang, before: set<nat>, ch: Code, s: set<nat>)
    requires g.Ok() && NonChar(ch) && Least(g, After(g, w), before, ch, s)
    ensures s == After(g, w)
  {
    AfterClosed(g, w);
    assert Covers(g, After(g, w), before, ch, After(g, w));
  }

  /** Longer runs pass through the states of shorter words. */
  lemma {:induction false} Prefixes(g: Prog, u: Word, v: Word, q: nat, n: nat)
    requires g.Ok() && ReachN(g, g.lo, u + v, q, n)
    ensures exists m: nat :: Reach(g, g.lo, u, m)
    decreases n
  {
    hide Eps, Move;
    if v == [] {
      assert u + v == u;
      assert Reach(g, g.lo, u, q);
    } else {
      var w := u + v;
      var m: nat, k: nat :| k <= |w| && ReachN(g, g.lo, w[..k], m, n - 1) && Move(g, m, w[k..], q);
      if k >= |u| {
        assert w[..k] == u + v[..k - |u|];
        Prefixes(g, u, v[..k - |u|], m, n - 1);
      } else {
        MoveLength(g, m, w[k..], q);
        assert false;
      }
    }
  }

  lemma MoveLength(g: Prog, m: nat, u: Word, q: nat)
    requires g.Ok() && Move(g, m, u, q)
    ensures |u| <= 1
  {}
}
