/** The dependents of one match, one after the other: the end each of them sees, and when a default
    matches (src/softmagic.c). */
module Siblings {
  import opened Wrappers
  import opened Entries
  import opened Magic
  import opened Levels

  /** The state when it is the turn of sibling n. */
  function Turn(w: World, c: Context, es: seq<Entry>, ts: seq<Tree>, level: nat, s: State, n: nat): (r: Option<State>)
    requires Fits(es, ts) && 0 < level < |s.li| && n <= |ts|
    ensures r.Some? ==> level < |r.value.li|
  {
    if n == 0 then Some(s)
    else match Turn(w, c, es, ts, level, s, n - 1)
      case None => None
      case Some(t) => match Branch(w, c, es, ts[n - 1], level, t) case Failed(_) => None case Went(u) => Some(u)
  }

  /** The siblings take their turns one after the other. */
  lemma {:induction false} KidsTakeTurns(w: World, c: Context, es: seq<Entry>, ts: seq<Tree>, level: nat, s: State,
                                         n: nat)
    requires Fits(es, ts) && 0 < level < |s.li| && n <= |ts|
    ensures match Turn(w, c, es, ts, level, s, n)
            case None => Kids(w, c, es, ts, level, s).Failed?
            case Some(t) => Kids(w, c, es, ts, level, s) == Kids(w, c, es, ts[n..], level, t)
  {
    hide Branch;
    if n == 0 {
      assert ts[0..] == ts;
    } else {
      KidsTakeTurns(w, c, es, ts, level, s, n - 1);
      assert ts[n - 1..][0] == ts[n - 1] && ts[n - 1..][1..] == ts[n..];
    }
  }

  // ---------- the end a sibling sees ----------

  /** The dependents of an entry start from the end of its match, and nothing has matched among
      them. */
  lemma {:induction false} DownFrom(w: World, c: Context, es: seq<Entry>, i: nat, level: nat, s: State)
    requires i < |es| && 0 < level < |s.li| && One(w, c, es, i, level, s).Down?
    ensures var t := One(w, c, es, i, level, s).s;
      && level + 1 < |t.li| && !t.li[level + 1].gotMatch
      && w.endOf(es[i], c, t.offset) == Some(t.li[level].off)
  {
    hide Try, Continue;
    var up := s.li[level - 1].off;
    var t := Try(w, c, es[i], Place(es[i], up), up, s).s;
    ContinueKeeps(w, c, es[i], SetGot(t, level, !es[i].kind.Clear?));
  }

  lemma {:induction false} DownFromHead(w: World, c: Context, es: seq<Entry>, i: nat, s: State)
    requires i < |es| && 0 < |s.li| && Head(w, c, es, i, s).Down?
    ensures var t := Head(w, c, es, i, s).s;
      1 < |t.li| && !t.li[1].gotMatch && w.endOf(es[i], c, t.offset) == Some(t.li[0].off)
  {
    hide Try, Announce;
    ContinueKeeps(w, c, es[i], Try(w, c, es[i], es[i].offset, 0, s).s);
  }

  lemma {:induction false} TurnMarks(w: World, c: Context, es: seq<Entry>, ts: seq<Tree>, level: nat, s: State, n: nat)
    requires Fits(es, ts) && 0 < level < |s.li| && n <= |ts| && Turn(w, c, es, ts, level, s, n).Some?
    ensures Marked(s, Turn(w, c, es, ts, level, s, n).value, level, NoIndirect(es))
  {
    hide Branch, Marked;
    if n == 0 {
      MarkedNothing(s, s, level, NoIndirect(es));
    } else {
      TurnMarks(w, c, es, ts, level, s, n - 1);
      var t := Turn(w, c, es, ts, level, s, n - 1).value;
      BranchMarks(w, c, es, ts[n - 1], level, t);
      MarkedThen(s, t, Branch(w, c, es, ts[n - 1], level, t).s, level, NoIndirect(es));
    }
  }

  /** A relative sibling sees the end of the parent's match exactly when no scan started by an
      indirect entry among its elder siblings and what depends on them has since matched anything at
      the parent's level, or the last such match ended at the same place. */
  lemma {:induction false} EndSeen(w: World, c: Context, es: seq<Entry>, ts: seq<Tree>, level: nat, s: State, n: nat)
    requires Fits(es, ts) && 0 < level < |s.li| && n <= |ts| && Turn(w, c, es, ts, level, s, n).Some?
    ensures var t := Turn(w, c, es, ts, level, s, n).value;
      var m := Last(NewMarks(s, t), level - 1, false);
      && (m.Some? ==> m.value.inner)
      && t.li[level - 1].off == (if m.Some? then m.value.end else s.li[level - 1].off)
      && (t.li[level - 1].off == s.li[level - 1].off <==> m == None || m.value.end == s.li[level - 1].off)
  {
    hide Turn;
    TurnMarks(w, c, es, ts, level, s, n);
    OnlyInner(NewMarks(s, Turn(w, c, es, ts, level, s, n).value), level, level - 1, false);
  }

  /** In a list without indirect entries it always does, across used lists too. */
  lemma {:induction false} EndSeenQuietly(w: World, c: Context, es: seq<Entry>, ts: seq<Tree>, level: nat, s: State,
                                          n: nat)
    requires Fits(es, ts) && 0 < level < |s.li| && n <= |ts| && Turn(w, c, es, ts, level, s, n).Some?
    requires NoIndirect(es)
    ensures Turn(w, c, es, ts, level, s, n).value.li[level - 1].off == s.li[level - 1].off
  {
    hide Turn;
    TurnMarks(w, c, es, ts, level, s, n);
    MarkedQuiet(s, Turn(w, c, es, ts, level, s, n).value, level, level - 1);
  }

  // ---------- the flag ----------

  /** Sibling n matches, and is not a default that comes too late. */
  predicate Fires(w: World, c: Context, es: seq<Entry>, t: Tree, level: nat, s: State)
    requires t.i < |es| && 0 < level < |s.li|
  {
    var r := Hits(w, c, es, t, level, s);
    r.Met? && !(es[t.i].kind.Default? && r.s.li[level].gotMatch)
  }

  function Hits(w: World, c: Context, es: seq<Entry>, t: Tree, level: nat, s: State): (r: Tried)
    requires t.i < |es| && 0 < level < |s.li|
    ensures !r.Broke? ==> level < |r.s.li|
  {
    Try(w, c, es[t.i], Place(es[t.i], s.li[level - 1].off), s.li[level - 1].off, s)
  }

  /** Its match ends inside the file. */
  predicate Ends(w: World, c: Context, es: seq<Entry>, t: Tree, level: nat, s: State)
    requires t.i < |es| && 0 < level < |s.li|
  {
    One(w, c, es, t.i, level, s).Down?
  }

  /** It is no clear and ends inside the file. */
  predicate Sets(w: World, c: Context, es: seq<Entry>, t: Tree, level: nat, s: State)
    requires t.i < |es| && 0 < level < |s.li|
  {
    !es[t.i].kind.Clear? && Ends(w, c, es, t, level, s)
  }

  /** What the marks written by a sibling and its dependents say of the flag of its level: there is
      one if it has fired, and the last is no inner one only if it has, and then sets the flag as it
      should. */
  ghost predicate FlagsOf(ms: seq<Mark>, level: nat, fires: bool, sets: bool) {
    var m := Last(ms, level, true);
    (fires ==> m.Some?) && (m.Some? && !m.value.inner ==> fires && m.value.got == sets)
  }

  lemma {:induction false} FiredFlag(a: seq<Mark>, level: nat, got: bool, end: Option<int>)
    ensures var ms := match end
              case None => [Flag(level, false, false)]
              case Some(off) => [End(level, off, false), Flag(level + 1, false, false)];
      Last(a + ([Flag(level, got, false)] + ms), level, true) == Some(Flag(level, got && end.Some?, false))
  {
    LastOne(Flag(level, got, false), level);
    match end
    case None =>
      LastOne(Flag(level, false, false), level);
      LastConcat([Flag(level, got, false)], [Flag(level, false, false)], level, true);
      LastConcat(a, [Flag(level, got, false)] + [Flag(level, false, false)], level, true);
    case Some(off) =>
      var e, f := End(level, off, false), Flag(level + 1, false, false);
      LastOne(e, level);
      LastOne(f, level);
      assert [e] + [f] == [e, f];
      LastConcat([e], [f], level, true);
      LastConcat([Flag(level, got, false)], [e, f], level, true);
      LastConcat(a, [Flag(level, got, false)] + [e, f], level, true);
  }

  lemma {:induction false} LastOne(m: Mark, level: nat)
    ensures Last([m], level, true) == if m.level == level && m.Flag? then Some(m) else None
  {
    var ms := [m];
    assert ms[..|ms| - 1] == [] && Last([], level, true) == None;
  }

  lemma {:induction false} OneFlags(w: World, c: Context, es: seq<Entry>, t: Tree, level: nat, s: State)
    requires t.i < |es| && 0 < level < |s.li| && !One(w, c, es, t.i, level, s).Bad?
    ensures var u := One(w, c, es, t.i, level, s).s;
      Told(s, u) && FlagsOf(NewMarks(s, u), level, Fires(w, c, es, t, level, s), Sets(w, c, es, t, level, s))
  {
    hide Try, Continue, Descend, SetEnd, SetGot, Marked, Told, Last;
    var e, up := es[t.i], s.li[level - 1].off;
    TryMarks(w, c, e, Place(e, up), up, s, level + 1);
    var v, u := Try(w, c, e, Place(e, up), up, s).s, One(w, c, es, t.i, level, s).s;
    MarkedParts(s, v, level + 1, !e.kind.Indirect?);
    OnlyInner(NewMarks(s, v), level + 1, level, true);
    if Fires(w, c, es, t, level, s) {
      FiringMarks(w, c, e, level, v, false);
      var f := Fired(w, c, e, level, v);
      MarkedParts(v, f, level, false);
      ToldThen(s, v, f);
      FiredFlag(NewMarks(s, v), level, !e.kind.Clear?, w.endOf(e, c, v.offset));
      FiredEnds(w, c, e, level, v);
      SameLevels(s, f, u);
    } else {
      SameLevels(s, v, u);
    }
  }

  lemma {:induction false} FiredEnds(w: World, c: Context, e: Entry, level: nat, t: State)
    requires level < |t.li|
    ensures Continue(w, c, e, SetGot(t, level, !e.kind.Clear?)).offset == t.offset
  {}

  lemma {:induction false} MarkedParts(s: State, t: State, level: nat, quiet: bool)
    requires Marked(s, t, level, quiet)
    ensures Told(s, t) && Above(NewMarks(s, t), level)
  {}

  lemma {:induction false} SameLevels(s: State, t: State, u: State)
    requires Told(s, t) && u.li == t.li && u.marks == t.marks
    ensures Told(s, u) && NewMarks(s, u) == NewMarks(s, t)
  {}

  lemma {:induction false} BranchFlags(w: World, c: Context, es: seq<Entry>, t: Tree, level: nat, s: State)
    requires t.i < |es| && Fits(es, t.kids) && 0 < level < |s.li| && Branch(w, c, es, t, level, s).Went?
    ensures var u := Branch(w, c, es, t, level, s).s;
      Told(s, u) && FlagsOf(NewMarks(s, u), level, Fires(w, c, es, t, level, s), Sets(w, c, es, t, level, s))
  {
    hide One, Kids, Fires, Sets, Marked, Told, Last;
    OneFlags(w, c, es, t, level, s);
    var r := One(w, c, es, t.i, level, s);
    if r.Down? {
      KidsMarks(w, c, es, t.kids, level + 1, r.s);
      var u := Kids(w, c, es, t.kids, level + 1, r.s).s;
      MarkedParts(r.s, u, level + 1, NoIndirect(es));
      OnlyInner(NewMarks(r.s, u), level + 1, level, true);
      ToldThen(s, r.s, u);
      LastConcat(NewMarks(s, r.s), NewMarks(r.s, u), level, true);
    }
  }

  // ---------- when a default matches ----------

  /** It comes to the turn of sibling n below one match. */
  ghost predicate Comes(w: World, c: Context, es: seq<Entry>, ts: seq<Tree>, level: nat, s: State, n: nat) {
    && Fits(es, ts) && 0 < level < |s.li| && !s.li[level].gotMatch && n <= |ts|
    && Turn(w, c, es, ts, level, s, n).Some?
  }

  lemma {:induction false} Earlier(w: World, c: Context, es: seq<Entry>, ts: seq<Tree>, level: nat, s: State, m: nat,
                                   n: nat)
    requires Comes(w, c, es, ts, level, s, n) && m <= n
    ensures Comes(w, c, es, ts, level, s, m)
  {
    if m < n { Earlier(w, c, es, ts, level, s, m, n - 1); }
  }

  ghost predicate FiresAt(w: World, c: Context, es: seq<Entry>, ts: seq<Tree>, level: nat, s: State, n: nat) {
    n < |ts| && Comes(w, c, es, ts, level, s, n) && Fires(w, c, es, ts[n], level, Turn(w, c, es, ts, level, s, n).value)
  }

  ghost predicate EndsAt(w: World, c: Context, es: seq<Entry>, ts: seq<Tree>, level: nat, s: State, n: nat) {
    n < |ts| && Comes(w, c, es, ts, level, s, n) && Ends(w, c, es, ts[n], level, Turn(w, c, es, ts, level, s, n).value)
  }

  predicate IsClear(es: seq<Entry>, ts: seq<Tree>, n: nat) {
    n < |ts| && ts[n].i < |es| && es[ts[n].i].kind.Clear?
  }

  /** Sibling m is the last in front of n that matches. */
  ghost predicate LastFired(w: World, c: Context, es: seq<Entry>, ts: seq<Tree>, level: nat, s: State, m: nat, n: nat) {
    m < n && FiresAt(w, c, es, ts, level, s, m) && forall k: nat :: m < k < n ==> !FiresAt(w, c, es, ts, level, s, k)
  }

  /** Some sibling counts as a match when it is the turn of n: the last that matches is no clear and
      ends inside the file. */
  ghost predicate Stands(w: World, c: Context, es: seq<Entry>, ts: seq<Tree>, level: nat, s: State, n: nat) {
    exists m: nat :: LastFired(w, c, es, ts, level, s, m, n) && !IsClear(es, ts, m) && EndsAt(w, c, es, ts, level, s, m)
  }

  /** The flag as it was last written since the parent matched, if a scan that an indirect entry
      started has done it. */
  function ByIndirect(w: World, c: Context, es: seq<Entry>, ts: seq<Tree>, level: nat, s: State, n: nat): Option<bool>
    requires Fits(es, ts) && 0 < level < |s.li| && n <= |ts| && Turn(w, c, es, ts, level, s, n).Some?
  {
    match Last(NewMarks(s, Turn(w, c, es, ts, level, s, n).value), level, true)
    case None => None
    case Some(m) => if m.inner then Some(m.got) else None
  }

  /** The flag says what a scan started by an indirect entry has left, if such a scan wrote it last,
      and otherwise whether some sibling counts as a match. */
  lemma {:induction false} FlagMeans(w: World, c: Context, es: seq<Entry>, ts: seq<Tree>, level: nat, s: State, n: nat)
    requires Comes(w, c, es, ts, level, s, n)
    ensures Turn(w, c, es, ts, level, s, n).value.li[level].gotMatch <==>
            match ByIndirect(w, c, es, ts, level, s, n)
            case Some(got) => got
            case None => Stands(w, c, es, ts, level, s, n)
    ensures Told(s, Turn(w, c, es, ts, level, s, n).value)
  {
    hide FiresAt, EndsAt, IsClear, Turn, Told, Stands, LastFired, Last;
    if n == 0 {
      FlagFirst(w, c, es, ts, level, s);
    } else {
      Earlier(w, c, es, ts, level, s, n - 1, n);
      FlagMeans(w, c, es, ts, level, s, n - 1);
      FlagNext(w, c, es, ts, level, s, n - 1);
    }
  }

  lemma {:induction false} FlagFirst(w: World, c: Context, es: seq<Entry>, ts: seq<Tree>, level: nat, s: State)
    requires Comes(w, c, es, ts, level, s, 0)
    ensures Turn(w, c, es, ts, level, s, 0) == Some(s) && Told(s, s) && ByIndirect(w, c, es, ts, level, s, 0) == None
    ensures !Stands(w, c, es, ts, level, s, 0)
  {
    ToldNothing(s, s);
  }

  /** The same after one more sibling. */
  lemma {:induction false} FlagNext(w: World, c: Context, es: seq<Entry>, ts: seq<Tree>, level: nat, s: State, n: nat)
    requires Comes(w, c, es, ts, level, s, n) && Comes(w, c, es, ts, level, s, n + 1)
    requires Told(s, Turn(w, c, es, ts, level, s, n).value)
    requires Turn(w, c, es, ts, level, s, n).value.li[level].gotMatch <==>
             match ByIndirect(w, c, es, ts, level, s, n)
             case Some(got) => got
             case None => Stands(w, c, es, ts, level, s, n)
    ensures Told(s, Turn(w, c, es, ts, level, s, n + 1).value)
    ensures Turn(w, c, es, ts, level, s, n + 1).value.li[level].gotMatch <==>
            match ByIndirect(w, c, es, ts, level, s, n + 1)
            case Some(got) => got
            case None => Stands(w, c, es, ts, level, s, n + 1)
  {
    hide Branch, Fires, Ends, Told, Stands, Turn, Last;
    var t, u := Turn(w, c, es, ts, level, s, n).value, Turn(w, c, es, ts, level, s, n + 1).value;
    TurnNext(w, c, es, ts, level, s, n);
    BranchFlags(w, c, es, ts[n], level, t);
    ToldThen(s, t, u);
    LastConcat(NewMarks(s, t), NewMarks(t, u), level, true);
    ToldFlag(t, u, level);
    StandsNext(w, c, es, ts, level, s, n);
  }

  lemma {:induction false} TurnNext(w: World, c: Context, es: seq<Entry>, ts: seq<Tree>, level: nat, s: State, n: nat)
    requires Comes(w, c, es, ts, level, s, n) && Comes(w, c, es, ts, level, s, n + 1)
    ensures var b := Branch(w, c, es, ts[n], level, Turn(w, c, es, ts, level, s, n).value);
      b.Went? && Turn(w, c, es, ts, level, s, n + 1) == Some(b.s)
  {
    hide Branch;
  }

  lemma {:induction false} ToldFlag(s: State, t: State, level: nat)
    requires Told(s, t) && level < |s.li|
    ensures var m := Last(NewMarks(s, t), level, true);
      t.li[level].gotMatch == if m.Some? then m.value.got else s.li[level].gotMatch
  {
    hide Last;
  }

  /** A sibling that fires counts if it is no clear and ends inside the file, and then the others
      no longer count; one that does not fire changes nothing. */
  lemma {:induction false} StandsNext(w: World, c: Context, es: seq<Entry>, ts: seq<Tree>, level: nat, s: State, n: nat)
    requires Comes(w, c, es, ts, level, s, n)
    ensures Stands(w, c, es, ts, level, s, n + 1) <==>
            if FiresAt(w, c, es, ts, level, s, n) then !IsClear(es, ts, n) && EndsAt(w, c, es, ts, level, s, n)
            else Stands(w, c, es, ts, level, s, n)
  {
    hide FiresAt, EndsAt, IsClear, LastFired, Comes;
    LastStep(w, c, es, ts, level, s, n, n);
    if m: nat :| LastFired(w, c, es, ts, level, s, m, n) && !IsClear(es, ts, m) && EndsAt(w, c, es, ts, level, s, m) {
      LastStep(w, c, es, ts, level, s, m, n);
    }
    if m: nat :| LastFired(w, c, es, ts, level, s, m, n + 1) && !IsClear(es, ts, m)
                 && EndsAt(w, c, es, ts, level, s, m) {
      LastStep(w, c, es, ts, level, s, m, n);
    }
  }

  /** The last match in front of the next sibling. */
  lemma {:induction false} LastNext(w: World, c: Context, es: seq<Entry>, ts: seq<Tree>, level: nat, s: State, n: nat)
    ensures forall m: nat :: LastFired(w, c, es, ts, level, s, m, n + 1) <==>
              if FiresAt(w, c, es, ts, level, s, n) then m == n else LastFired(w, c, es, ts, level, s, m, n)
  {
    forall m: nat
      ensures LastFired(w, c, es, ts, level, s, m, n + 1) <==>
              if FiresAt(w, c, es, ts, level, s, n) then m == n else LastFired(w, c, es, ts, level, s, m, n)
    {
      LastStep(w, c, es, ts, level, s, m, n);
    }
  }

  lemma {:induction false} LastStep(w: World, c: Context, es: seq<Entry>, ts: seq<Tree>, level: nat, s: State, m: nat,
                                    n: nat)
    ensures LastFired(w, c, es, ts, level, s, m, n + 1) <==>
              if FiresAt(w, c, es, ts, level, s, n) then m == n else LastFired(w, c, es, ts, level, s, m, n)
  {
    hide FiresAt;
    if FiresAt(w, c, es, ts, level, s, n) {
      assert LastFired(w, c, es, ts, level, s, n, n + 1);
      if m < n { assert !LastFired(w, c, es, ts, level, s, m, n + 1); }
    }
  }

  /** A default whose test holds matches exactly when the flag that an indirect scan wrote last is
      not set, or without such a scan when no sibling counts as a match. */
  lemma {:induction false} DefaultFires(w: World, c: Context, es: seq<Entry>, ts: seq<Tree>, level: nat, s: State,
                                        n: nat)
    requires Comes(w, c, es, ts, level, s, n) && n < |ts| && es[ts[n].i].kind.Default?
    requires Hits(w, c, es, ts[n], level, Turn(w, c, es, ts, level, s, n).value).Met?
    ensures FiresAt(w, c, es, ts, level, s, n) <==>
            match ByIndirect(w, c, es, ts, level, s, n)
            case Some(got) => !got
            case None => !Stands(w, c, es, ts, level, s, n)
  {
    hide Stands, Try, Turn, Told;
    FlagMeans(w, c, es, ts, level, s, n);
    var t := Turn(w, c, es, ts, level, s, n).value;
    DefaultQuiet(w, c, es[ts[n].i], Place(es[ts[n].i], t.li[level - 1].off), t.li[level - 1].off, t, level);
  }

  /** The test of a default leaves the levels alone. */
  lemma {:induction false} DefaultQuiet(w: World, c: Context, e: Entry, off: int, up: int, s: State, level: nat)
    requires e.kind.Default? && Try(w, c, e, off, up, s).Met? && level < |s.li|
    ensures Try(w, c, e, off, up, s).s.li[level] == s.li[level]
  {
    hide Try, Marked;
    TryMarks(w, c, e, off, up, s, level + 1);
    MarkedQuiet(s, Try(w, c, e, off, up, s).s, level + 1, level);
  }

  /** Sibling m has matched, and no clear since. */
  ghost predicate Since(w: World, c: Context, es: seq<Entry>, ts: seq<Tree>, level: nat, s: State, m: nat, n: nat) {
    && m < n && FiresAt(w, c, es, ts, level, s, m) && !IsClear(es, ts, m)
    && forall k: nat :: m < k < n && FiresAt(w, c, es, ts, level, s, k) ==> !IsClear(es, ts, k)
  }

  /** Some sibling has matched since the last clear exactly when the last that matches is no clear. */
  lemma {:induction false} SinceMeansLast(w: World, c: Context, es: seq<Entry>, ts: seq<Tree>, level: nat, s: State,
                                          n: nat)
    ensures (exists m: nat :: Since(w, c, es, ts, level, s, m, n)) <==>
            (exists m: nat :: LastFired(w, c, es, ts, level, s, m, n) && !IsClear(es, ts, m))
  {
    hide FiresAt, IsClear;
    if m: nat :| LastFired(w, c, es, ts, level, s, m, n) && !IsClear(es, ts, m) {
      assert Since(w, c, es, ts, level, s, m, n);
    }
    if m: nat :| Since(w, c, es, ts, level, s, m, n) {
      var l := LastAfter(w, c, es, ts, level, s, m, n);
      assert !IsClear(es, ts, l);
    }
  }

  lemma {:induction false} LastAfter(w: World, c: Context, es: seq<Entry>, ts: seq<Tree>, level: nat, s: State, m: nat,
                                     n: nat)
    returns (l: nat)
    requires m < n && FiresAt(w, c, es, ts, level, s, m)
    ensures m <= l < n && LastFired(w, c, es, ts, level, s, l, n)
    decreases n
  {
    hide FiresAt;
    LastNext(w, c, es, ts, level, s, n - 1);
    if FiresAt(w, c, es, ts, level, s, n - 1) {
      l := n - 1;
    } else {
      l := LastAfter(w, c, es, ts, level, s, m, n - 1);
    }
  }

  lemma {:induction false} OneLast(w: World, c: Context, es: seq<Entry>, ts: seq<Tree>, level: nat, s: State, l: nat,
                                   m: nat, n: nat)
    requires LastFired(w, c, es, ts, level, s, l, n) && LastFired(w, c, es, ts, level, s, m, n)
    ensures l == m
  {
    hide FiresAt;
  }

  /** The rule that a default matches exactly when no sibling has matched since the parent matched or
      since the last clear holds exactly when the last sibling that matches, unless it is a clear,
      ends inside the file; if an indirect scan has written the flag since, exactly when it left it
      as that rule has it. */
  lemma {:induction false} DefaultRule(w: World, c: Context, es: seq<Entry>, ts: seq<Tree>, level: nat, s: State,
                                       n: nat)
    requires Comes(w, c, es, ts, level, s, n) && n < |ts| && es[ts[n].i].kind.Default?
    requires Hits(w, c, es, ts[n], level, Turn(w, c, es, ts, level, s, n).value).Met?
    ensures (FiresAt(w, c, es, ts, level, s, n) <==> !exists m: nat :: Since(w, c, es, ts, level, s, m, n)) <==>
            match ByIndirect(w, c, es, ts, level, s, n)
            case Some(got) => got <==> exists m: nat :: LastFired(w, c, es, ts, level, s, m, n) && !IsClear(es, ts, m)
            case None =>
              forall m: nat :: LastFired(w, c, es, ts, level, s, m, n) && !IsClear(es, ts, m) ==>
                  EndsAt(w, c, es, ts, level, s, m)
  {
    DefaultFires(w, c, es, ts, level, s, n);
    hide FiresAt, IsClear, EndsAt, LastFired, Since, Comes, ByIndirect, Turn, Hits;
    SinceMeansLast(w, c, es, ts, level, s, n);
    forall l: nat, m: nat
      | LastFired(w, c, es, ts, level, s, l, n) && LastFired(w, c, es, ts, level, s, m, n)
      ensures l == m
    {
      OneLast(w, c, es, ts, level, s, l, m, n);
    }
  }
}
