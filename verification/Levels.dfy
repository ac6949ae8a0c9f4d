/** What the array of levels holds during a scan: the ends of matches, and whether a default is still
    to match (src/softmagic.c). */
module Levels {
  import opened Wrappers
  import opened Entries
  import opened Magic

  // ---------- what is recorded ----------

  /** The end that was recorded last for a level, or the last write of its flag. */
  function Last(ms: seq<Mark>, level: nat, flags: bool): (r: Option<Mark>)
    ensures r.Some? ==> r.value.level == level && r.value.Flag? == flags
  {
    if ms == [] then None
    else
      var m := ms[|ms| - 1];
      if m.level == level && m.Flag? == flags then Some(m) else Last(ms[..|ms| - 1], level, flags)
  }

  lemma {:induction false} LastConcat(a: seq<Mark>, b: seq<Mark>, level: nat, flags: bool)
    ensures Last(a + b, level, flags) ==
            if Last(b, level, flags).Some? then Last(b, level, flags) else Last(a, level, flags)
    decreases |b|
  {
    if b == [] {
      assert a + b == a;
    } else {
      assert (a + b)[..|a + b| - 1] == a + b[..|b| - 1];
      LastConcat(a, b[..|b| - 1], level, flags);
    }
  }

  /** The levels after these marks. */
  function After(ms: seq<Mark>, level: nat, l: LevelInfo): LevelInfo {
    var end, flag := Last(ms, level, false), Last(ms, level, true);
    LevelInfo(if end.Some? then end.value.end else l.off, if flag.Some? then flag.value.got else l.gotMatch)
  }

  lemma {:induction false} AfterConcat(a: seq<Mark>, b: seq<Mark>, level: nat, l: LevelInfo)
    ensures After(a + b, level, l) == After(b, level, After(a, level, l))
  {
    LastConcat(a, b, level, false);
    LastConcat(a, b, level, true);
  }

  lemma {:induction false} AfterInner(ms: seq<Mark>, level: nat, l: LevelInfo)
    ensures After(InnerMarks(ms), level, l) == After(ms, level, l)
    decreases |ms|
  {
    if ms != [] {
      assert InnerMarks(ms)[..|ms| - 1] == InnerMarks(ms[..|ms| - 1]);
      AfterInner(ms[..|ms| - 1], level, l);
    }
  }

  /** A level after one mark. */
  function Put(m: Mark, level: nat, l: LevelInfo): LevelInfo {
    if m.level != level then l
    else match m
      case End(_, end, _) => LevelInfo(end, l.gotMatch)
      case Flag(_, got, _) => LevelInfo(l.off, got)
  }

  lemma {:induction false} AfterOne(m: Mark, level: nat, l: LevelInfo)
    ensures After([m], level, l) == Put(m, level, l)
  {
    var ms := [m];
    assert ms[..|ms| - 1] == [];
    assert Last([], level, false) == None && Last([], level, true) == None;
  }

  function NewMarks(s: State, t: State): seq<Mark> {
    if |s.marks| <= |t.marks| then t.marks[|s.marks|..] else []
  }

  /** The marks written from s to t tell all that has changed at the levels. */
  ghost predicate Told(s: State, t: State) {
    && |s.li| <= |t.li| && |s.marks| <= |t.marks| && t.marks[..|s.marks|] == s.marks
    && forall k :: 0 <= k < |s.li| ==> t.li[k] == After(NewMarks(s, t), k, s.li[k])
  }

  /** Of these marks, those of the scan itself are for the level and above. */
  ghost predicate Above(ms: seq<Mark>, level: nat) {
    forall n :: 0 <= n < |ms| ==> ms[n].inner || ms[n].level >= level
  }

  /** None was written by a scan that an indirect entry started. */
  ghost predicate Outer(ms: seq<Mark>) {
    forall n :: 0 <= n < |ms| ==> !ms[n].inner
  }

  ghost predicate NoIndirect(es: seq<Entry>) {
    forall k :: 0 <= k < |es| ==> !es[k].kind.Indirect?
  }

  /** Below the level only such scans have written. */
  lemma {:induction false} OnlyInner(ms: seq<Mark>, level: nat, k: nat, flags: bool)
    requires Above(ms, level) && k < level
    ensures var m := Last(ms, k, flags); m.Some? ==> m.value.inner && !Outer(ms)
    decreases |ms|
  {
    if ms != [] { OnlyInner(ms[..|ms| - 1], level, k, flags); }
  }

  lemma {:induction false} ToldNothing(s: State, t: State)
    requires |s.li| <= |t.li| && t.marks == s.marks && forall k :: 0 <= k < |s.li| ==> t.li[k] == s.li[k]
    ensures Told(s, t) && NewMarks(s, t) == []
  {}

  lemma {:induction false} ToldThen(s: State, t: State, u: State)
    requires Told(s, t) && Told(t, u)
    ensures Told(s, u) && NewMarks(s, u) == NewMarks(s, t) + NewMarks(t, u)
  {
    hide After;
    assert u.marks == u.marks[..|t.marks|] + u.marks[|t.marks|..];
    assert NewMarks(s, u) == NewMarks(s, t) + NewMarks(t, u);
    assert u.marks[..|s.marks|] == t.marks[..|s.marks|];
    forall k | 0 <= k < |s.li| ensures u.li[k] == After(NewMarks(s, u), k, s.li[k]) {
      AfterConcat(NewMarks(s, t), NewMarks(t, u), k, s.li[k]);
    }
  }

  /** One mark. */
  lemma {:induction false} ToldOne(s: State, t: State, m: Mark)
    requires |s.li| <= |t.li| && t.marks == s.marks + [m]
    requires forall k :: 0 <= k < |s.li| ==> t.li[k] == Put(m, k, s.li[k])
    ensures Told(s, t) && NewMarks(s, t) == [m]
  {
    hide After;
    assert NewMarks(s, t) == [m];
    forall k | 0 <= k < |s.li| ensures t.li[k] == After(NewMarks(s, t), k, s.li[k]) { AfterOne(m, k, s.li[k]); }
  }

  lemma {:induction false} AboveConcat(a: seq<Mark>, b: seq<Mark>, level: nat)
    requires Above(a, level) && Above(b, level)
    ensures Above(a + b, level)
  {}

  lemma {:induction false} OuterConcat(a: seq<Mark>, b: seq<Mark>)
    requires Outer(a) && Outer(b)
    ensures Outer(a + b)
  {}

  /** A part of a scan, at the level and above, told by its marks. */
  ghost predicate Marked(s: State, t: State, level: nat, quiet: bool) {
    Told(s, t) && Above(NewMarks(s, t), level) && (quiet ==> Outer(NewMarks(s, t)))
  }

  lemma {:induction false} MarkedThen(s: State, t: State, u: State, level: nat, quiet: bool)
    requires Marked(s, t, level, quiet) && Marked(t, u, level, quiet)
    ensures Marked(s, u, level, quiet) && NewMarks(s, u) == NewMarks(s, t) + NewMarks(t, u)
  {
    hide Told, Above, Outer;
    ToldThen(s, t, u);
    AboveConcat(NewMarks(s, t), NewMarks(t, u), level);
    if quiet { OuterConcat(NewMarks(s, t), NewMarks(t, u)); }
  }

  lemma {:induction false} MarkedHigher(s: State, t: State, high: nat, level: nat, quiet: bool)
    requires Marked(s, t, high, quiet) && level <= high
    ensures Marked(s, t, level, quiet)
  {
    hide Told;
  }

  /** Without indirect scans nothing changes below the level. */
  lemma {:induction false} MarkedQuiet(s: State, t: State, level: nat, k: nat)
    requires Marked(s, t, level, true) && k < level && k < |s.li|
    ensures k < |t.li| && t.li[k] == s.li[k]
  {
    OnlyInner(NewMarks(s, t), level, k, false);
    OnlyInner(NewMarks(s, t), level, k, true);
  }

  lemma {:induction false} MarkedNothing(s: State, t: State, level: nat, quiet: bool)
    requires |s.li| <= |t.li| && t.marks == s.marks && forall k :: 0 <= k < |s.li| ==> t.li[k] == s.li[k]
    ensures Marked(s, t, level, quiet)
  {
    ToldNothing(s, t);
  }

  lemma {:induction false} MarkedOne(s: State, t: State, m: Mark, level: nat, quiet: bool)
    requires Told(s, t) && NewMarks(s, t) == [m] && !m.inner && m.level >= level
    ensures Marked(s, t, level, quiet)
  {
    hide Told;
  }

  /** The three things a scan itself writes. */
  lemma {:induction false} WritesEnd(s: State, level: nat, end: int, quiet: bool)
    requires level < |s.li|
    ensures var t := SetEnd(s, level, end);
      Told(s, t) && NewMarks(s, t) == [End(level, end, false)] && Marked(s, t, level, quiet)
  {
    ToldOne(s, SetEnd(s, level, end), End(level, end, false));
  }

  lemma {:induction false} WritesGot(s: State, level: nat, got: bool, quiet: bool)
    requires level < |s.li|
    ensures var t := SetGot(s, level, got);
      Told(s, t) && NewMarks(s, t) == [Flag(level, got, false)] && Marked(s, t, level, quiet)
  {
    ToldOne(s, SetGot(s, level, got), Flag(level, got, false));
  }

  lemma {:induction false} Descends(s: State, high: nat, level: nat, quiet: bool)
    requires level <= high
    ensures var t := Descend(s, high);
      Told(s, t) && NewMarks(s, t) == [Flag(high, false, false)] && Marked(s, t, level, quiet)
  {
    ToldOne(s, Descend(s, high), Flag(high, false, false));
    MarkedOne(s, Descend(s, high), Flag(high, false, false), level, quiet);
  }

  // ---------- the walk, told by its marks ----------

  lemma {:induction false} TryMarks(w: World, c: Context, e: Entry, off: int, up: int, s: State, level: nat)
    requires !Try(w, c, e, off, up, s).Broke?
    ensures Marked(s, Try(w, c, e, off, up, s).s, level, !e.kind.Indirect?)
    decreases Left(w, s), w.nameMax - c.depth, 0, 2
  {
    hide Get, Marked;
    GetMarks(w, c, e, off, up, s, level);
    var t := Get(w, c, e, off, up, s).s;
    MarkedNothing(t, Try(w, c, e, off, up, s).s, level, !e.kind.Indirect?);
    MarkedThen(s, t, Try(w, c, e, off, up, s).s, level, !e.kind.Indirect?);
  }

  lemma {:induction false} GetMarks(w: World, c: Context, e: Entry, off: int, up: int, s: State, level: nat)
    requires !Get(w, c, e, off, up, s).Failing?
    ensures Marked(s, Get(w, c, e, off, up, s).s, level, !e.kind.Indirect?)
    decreases Left(w, s), w.nameMax - c.depth, 0, 1
  {
    hide GetUse, GetIndirect, Marked;
    match w.resolve(e, c, off, up)
    case Lost => MarkedNothing(s, s.(offset := off), level, !e.kind.Indirect?);
    case At(to) =>
      var t := s.(offset := to);
      MarkedNothing(s, t, level, !e.kind.Indirect?);
      match e.kind
      case Use(name, flips) => UseMarks(w, c, e, name, flips, t, level);
        MarkedThen(s, t, GetUse(w, c, e, name, flips, t).s, level, true);
      case Indirect(based) => IndirectMarks(w, c, e, based, t, level);
        MarkedThen(s, t, GetIndirect(w, c, e, based, t).s, level, false);
      case _ => MarkedNothing(s, Get(w, c, e, off, up, s).s, level, true);
  }

  lemma {:induction false} UseMarks(w: World, c: Context, e: Entry, name: string, flips: bool, s: State, level: nat)
    requires s.indirs < w.indirMax && c.depth < w.nameMax && !GetUse(w, c, e, name, flips, s).Failing?
    ensures Marked(s, GetUse(w, c, e, name, flips, s).s, level, true)
  {
    hide Scan, Marked;
    MarkedNothing(s, GetUse(w, c, e, name, flips, s).s, level, true);
  }

  lemma {:induction false} IndirectMarks(w: World, c: Context, e: Entry, based: bool, s: State, level: nat)
    requires s.indirs < w.indirMax && c.depth < w.nameMax && !GetIndirect(w, c, e, based, s).Failing?
    ensures Marked(s, GetIndirect(w, c, e, based, s).s, level, false)
    decreases Left(w, s), w.nameMax - c.depth, 0, 0
  {
    hide Lists, Marked;
    var from := s.offset + if based then c.base else 0;
    if from == 0 || !InPart(w, c, from) {
      MarkedNothing(s, s, level, false);
    } else {
      var v := Lists(w, Within(c, from), w.main, EnterPart(s)).s;
      ListsMarks(w, Within(c, from), w.main, EnterPart(s));
      InnerMarked(s, v, level);
      var t := LeavePart(s, v);
      MarkedNothing(t, GetIndirect(w, c, e, based, s).s, level, false);
      MarkedThen(s, t, GetIndirect(w, c, e, based, s).s, level, false);
    }
  }

  /** Seen from outside, an indirect scan has written inner marks only. */
  lemma {:induction false} InnerMarked(s: State, v: State, level: nat)
    requires Told(EnterPart(s), v)
    ensures Marked(s, LeavePart(s, v), level, false)
  {
    hide After;
    var t := LeavePart(s, v);
    assert NewMarks(EnterPart(s), v) == v.marks;
    assert NewMarks(s, t) == InnerMarks(v.marks);
    forall k | 0 <= k < |s.li| ensures t.li[k] == After(NewMarks(s, t), k, s.li[k]) {
      AfterInner(v.marks, k, s.li[k]);
    }
  }

  lemma {:induction false} OneMarks(w: World, c: Context, es: seq<Entry>, i: nat, level: nat, s: State)
    requires i < |es| && 0 < level < |s.li| && !One(w, c, es, i, level, s).Bad?
    ensures Marked(s, One(w, c, es, i, level, s).s, level, NoIndirect(es))
    decreases Left(w, s), w.nameMax - c.depth, 0, 3
  {
    hide Try, Marked, Continue, Descend, SetEnd, SetGot;
    var e, up, quiet := es[i], s.li[level - 1].off, NoIndirect(es);
    TryMarks(w, c, e, Place(e, up), up, s, level);
    var t := Try(w, c, e, Place(e, up), up, s).s;
    MarkedLess(s, t, level, !e.kind.Indirect?, quiet);
    var r := One(w, c, es, i, level, s);
    if Try(w, c, e, Place(e, up), up, s).Missed? || (e.kind.Default? && t.li[level].gotMatch) {
      MarkedNothing(t, r.s, level, quiet);
    } else {
      FiringMarks(w, c, e, level, t, quiet);
      var u := Fired(w, c, e, level, t);
      MarkedNothing(u, r.s, level, quiet);
      MarkedThen(t, u, r.s, level, quiet);
    }
    MarkedThen(s, t, r.s, level, quiet);
  }

  /** What a match writes to the levels. */
  function Fired(w: World, c: Context, e: Entry, level: nat, t: State): State
    requires level < |t.li|
  {
    var u := Continue(w, c, e, SetGot(t, level, !e.kind.Clear?));
    match w.endOf(e, c, u.offset)
    case None => Descend(u, level)
    case Some(end) => Descend(SetEnd(u, level, end), level + 1)
  }

  lemma {:induction false} FiringMarks(w: World, c: Context, e: Entry, level: nat, t: State, quiet: bool)
    requires level < |t.li|
    ensures var u := Fired(w, c, e, level, t);
      && Marked(t, u, level, quiet)
      && NewMarks(t, u) == [Flag(level, !e.kind.Clear?, false)] +
          match w.endOf(e, c, t.offset)
          case None => [Flag(level, false, false)]
          case Some(end) => [End(level, end, false), Flag(level + 1, false, false)]
  {
    hide Continue, Descend, SetEnd, SetGot, Told;
    var s1 := SetGot(t, level, !e.kind.Clear?);
    var s2 := Continue(w, c, e, s1);
    WritesGot(t, level, !e.kind.Clear?, quiet);
    GotKeeps(t, level, !e.kind.Clear?);
    ContinueKeeps(w, c, e, s1);
    ToldNothing(s1, s2);
    MarkedNothing(s1, s2, level, quiet);
    MarkedThen(t, s1, s2, level, quiet);
    match w.endOf(e, c, s2.offset)
    case None =>
      Descends(s2, level, level, quiet);
      MarkedThen(t, s2, Descend(s2, level), level, quiet);
    case Some(end) =>
      WritesEnd(s2, level, end, quiet);
      MarkedThen(t, s2, SetEnd(s2, level, end), level, quiet);
      Descends(SetEnd(s2, level, end), level + 1, level, quiet);
      MarkedThen(t, SetEnd(s2, level, end), Descend(SetEnd(s2, level, end), level + 1), level, quiet);
  }

  lemma {:induction false} GotKeeps(s: State, level: nat, got: bool)
    requires level < |s.li|
    ensures SetGot(s, level, got).offset == s.offset
  {}

  lemma {:induction false} MarkedLess(s: State, t: State, level: nat, quiet: bool, less: bool)
    requires Marked(s, t, level, quiet) && (less ==> quiet)
    ensures Marked(s, t, level, less)
  {}

  lemma {:induction false} ContinueKeeps(w: World, c: Context, e: Entry, s: State)
    ensures Continue(w, c, e, s).li == s.li && Continue(w, c, e, s).marks == s.marks
    ensures Announce(w, c, e, s).li == s.li && Announce(w, c, e, s).marks == s.marks
    ensures Continue(w, c, e, s).offset == s.offset && Announce(w, c, e, s).offset == s.offset
  {}

  lemma {:induction false} HeadMarks(w: World, c: Context, es: seq<Entry>, i: nat, s: State)
    requires i < |es| && 0 < |s.li| && !Head(w, c, es, i, s).Bad?
    ensures Told(s, Head(w, c, es, i, s).s)
    decreases Left(w, s), w.nameMax - c.depth, 0, 3
  {
    hide Try, Marked, Announce, Descend, SetEnd;
    var e, r := es[i], Head(w, c, es, i, s);
    if !e.kind.Name? && !w.applies(e, c) {
      ToldNothing(s, s);
    } else {
      TryMarks(w, c, e, e.offset, 0, s, 0);
      var t := Try(w, c, e, e.offset, 0, s).s;
      MarkedLess(s, t, 0, !e.kind.Indirect?, false);
      ContinueKeeps(w, c, e, t);
      if r.Down? {
        var u := Announce(w, c, e, t);
        var v := SetEnd(u, 0, w.endOf(e, c, u.offset).value);
        MarkedNothing(t, u, 0, false);
        WritesEnd(u, 0, w.endOf(e, c, u.offset).value, false);
        Descends(v, 1, 0, false);
        MarkedNothing(Descend(v, 1), r.s, 0, false);
        MarkedThen(s, t, u, 0, false);
        MarkedThen(s, u, v, 0, false);
        MarkedThen(s, v, Descend(v, 1), 0, false);
        MarkedThen(s, Descend(v, 1), r.s, 0, false);
      } else {
        MarkedNothing(t, r.s, 0, false);
        MarkedThen(s, t, r.s, 0, false);
      }
      MarkedTold(s, r.s, 0, false);
    }
  }

  lemma {:induction false} MarkedTold(s: State, t: State, level: nat, quiet: bool)
    requires Marked(s, t, level, quiet)
    ensures Told(s, t)
  {}

  lemma {:induction false} BranchMarks(w: World, c: Context, es: seq<Entry>, t: Tree, level: nat, s: State)
    requires t.i < |es| && Fits(es, t.kids) && 0 < level < |s.li| && Branch(w, c, es, t, level, s).Went?
    ensures Marked(s, Branch(w, c, es, t, level, s).s, level, NoIndirect(es))
    decreases Left(w, s), w.nameMax - c.depth, 1 + Count(t.kids), 0
  {
    hide One, Kids, Marked;
    OneMarks(w, c, es, t.i, level, s);
    var r := One(w, c, es, t.i, level, s);
    if r.Down? {
      KidsMarks(w, c, es, t.kids, level + 1, r.s);
      var u := Branch(w, c, es, t, level, s).s;
      MarkedHigher(r.s, u, level + 1, level, NoIndirect(es));
      MarkedThen(s, r.s, u, level, NoIndirect(es));
    }
  }

  lemma {:induction false} KidsMarks(w: World, c: Context, es: seq<Entry>, ts: seq<Tree>, level: nat, s: State)
    requires Fits(es, ts) && 0 < level < |s.li| && Kids(w, c, es, ts, level, s).Went?
    ensures Marked(s, Kids(w, c, es, ts, level, s).s, level, NoIndirect(es))
    decreases Left(w, s), w.nameMax - c.depth, Count(ts), 1
  {
    hide Branch, Marked;
    if ts == [] {
      MarkedNothing(s, s, level, NoIndirect(es));
    } else {
      BranchMarks(w, c, es, ts[0], level, s);
      var t := Branch(w, c, es, ts[0], level, s).s;
      KidsMarks(w, c, es, ts[1..], level, t);
      MarkedThen(s, t, Kids(w, c, es, ts, level, s).s, level, NoIndirect(es));
    }
  }

  lemma {:induction false} TopsMarks(w: World, c: Context, es: seq<Entry>, ts: seq<Tree>, s: State)
    requires Fits(es, ts) && 0 < |s.li| && Tops(w, c, es, ts, s).Went?
    ensures Told(s, Tops(w, c, es, ts, s).s)
    decreases Left(w, s), w.nameMax - c.depth, Count(ts), 1
  {
    hide Head, Kids, Told, Marked;
    if ts == [] {
      ToldNothing(s, s);
    } else {
      HeadMarks(w, c, es, ts[0].i, s);
      var t := Head(w, c, es, ts[0].i, s).s;
      if Head(w, c, es, ts[0].i, s).Stay? {
        TopsMarks(w, c, es, ts[1..], t);
        ToldThen(s, t, Tops(w, c, es, ts, s).s);
      } else {
        KidsMarks(w, c, es, ts[0].kids, 1, t);
        var u := Kids(w, c, es, ts[0].kids, 1, t).s;
        MarkedTold(t, u, 1, NoIndirect(es));
        ToldThen(s, t, u);
        if u.found && !w.all {
          ToldNothing(u, StopHere(u));
          ToldThen(s, u, StopHere(u));
        } else {
          ToldNothing(u, EndGroup(u));
          ToldThen(s, u, EndGroup(u));
          TopsMarks(w, c, es, ts[1..], EndGroup(u));
          ToldThen(s, EndGroup(u), Tops(w, c, es, ts, s).s);
        }
      }
    }
  }

  lemma {:induction false} ScanMarks(w: World, c: Context, es: seq<Entry>, s: State)
    requires Scan(w, c, es, s).Went?
    ensures Told(s, Scan(w, c, es, s).s)
    decreases Left(w, s), w.nameMax - c.depth, 1 + Count(Forest(es, 0)), 2
  {
    hide Tops, Told, Descend;
    Descends(s, 0, 0, false);
    TopsMarks(w, c, es, Forest(es, 0), Descend(s, 0));
    ToldThen(s, Descend(s, 0), Scan(w, c, es, s).s);
  }

  lemma {:induction false} ListsMarks(w: World, c: Context, ls: seq<seq<Entry>>, s: State)
    requires Lists(w, c, ls, s).AllWent?
    ensures Told(s, Lists(w, c, ls, s).s)
    decreases Left(w, s), w.nameMax - c.depth, Bulk(ls), 3
  {
    hide Scan, Told;
    var t := s.(ret := false, found := false, log := []);
    ToldNothing(s, t);
    ScanMarks(w, c, ls[0], t);
    var u := Scan(w, c, ls[0], t).s;
    ToldThen(s, t, u);
    if !u.ret && |ls| != 1 {
      ListsMarks(w, c, ls[1..], u);
      ToldThen(s, u, Lists(w, c, ls, s).s);
    }
  }
}
