/** Why a scan ends in an error, and how many indirect scans it has begun, said of its log
    (src/softmagic.c). */
module Causes {
  import opened Wrappers
  import opened Entries
  import opened Magic
  import opened Record

  // ---------- indirect scans begun ----------

  /** The indirect scans that a test, some tests and some lists have begun, those inside them included. */
  function Begun(inner: Inner): nat
    decreases inner
  {
    match inner
    case Nothing => 0
    case Named => 0
    case Used(_, _, l) => BegunIn(l)
    case Part(_, ls) => 1 + BegunOf(ls)
  }

  function BegunIn(l: seq<Event>): nat
    decreases l
  {
    if l == [] then 0 else BegunBy(l[0]) + BegunIn(l[1..])
  }

  function BegunBy(ev: Event): nat
    decreases ev
  {
    Begun(ev.inner)
  }

  function BegunOf(ls: seq<Log>): nat
    decreases ls
  {
    if ls == [] then 0 else BegunIn(ls[0].events) + BegunOf(ls[1..])
  }

  // ---------- the reason for an error ----------

  /** The last event is an error, and the only one. */
  ghost predicate EndsBadly(l: seq<Event>) {
    l != [] && l[|l| - 1].erred && NoError(l[..|l| - 1])
  }

  /** A test is an error if as many indirect scans have been begun, or names followed, as are allowed;
      if its offset cannot be computed; if a used list does not exist; if a scan that it starts ends in
      an error, or has no lists; or if the comparison fails. */
  ghost predicate Fault(w: World, c: Context, e: Entry, place: int, up: int, inner: Inner, begun: nat) {
    || begun >= w.indirMax
    || c.depth >= w.nameMax
    || match w.resolve(e, c, place, up)
       case Broken => true
       case Lost => false
       case At(to) =>
         match e.kind
         case Name => false
         case Use(name, _) =>
           InFile(w, c, to) && (w.named(name) == None || (inner.Used? && EndsBadly(inner.log)))
         case Indirect(_) =>
           inner.Part? && (w.main == [] || (inner.logs != [] && EndsBadly(inner.logs[|inner.logs| - 1].events)))
         case _ => w.holds(e, c, to) && w.check(e, c, to) == Error
  }

  /** Every error in a log has a reason, and what has one is an error; begun scans come before the log. */
  ghost predicate Caused(w: World, l: seq<Event>, begun: nat)
    decreases l
  {
    forall k :: 0 <= k < |l| ==> EventCaused(w, l[k], begun + BegunIn(l[..k]))
  }

  ghost predicate EventCaused(w: World, ev: Event, begun: nat)
    decreases ev
  {
    (ev.erred <==> Fault(w, ev.c, ev.e, ev.place, ev.up, ev.inner, begun)) && InnerCaused(w, ev.inner, begun)
  }

  ghost predicate InnerCaused(w: World, inner: Inner, begun: nat)
    decreases inner
  {
    match inner
    case Nothing => true
    case Named => true
    case Used(_, _, l) => begun < w.indirMax && Caused(w, l, begun)
    case Part(_, ls) =>
      begun < w.indirMax && forall k :: 0 <= k < |ls| ==> Caused(w, ls[k].events, begun + 1 + BegunOf(ls[..k]))
  }

  /** From s to t there were these events and no error. */
  ghost predicate Grown(w: World, s: State, t: State, l: seq<Event>) {
    t.log == s.log + l && Caused(w, l, s.indirs) && NoError(l) && t.indirs == s.indirs + BegunIn(l)
  }

  /** An outcome: an error is the last event. */
  ghost predicate Follows(w: World, s: State, r: Outcome, l: seq<Event>) {
    match r
    case Failed(log) => log == s.log + l && Caused(w, l, s.indirs) && EndsBadly(l)
    case Went(t) => Grown(w, s, t, l)
  }

  /** The same for lists one after the other, of which there must be one. */
  ghost predicate ListsFollow(w: World, ls: seq<seq<Entry>>, s: State, r: Outcomes) {
    && (forall k :: 0 <= k < |r.logs| ==> Caused(w, r.logs[k].events, s.indirs + BegunOf(r.logs[..k])))
    && match r
       case AllFailed(logs) => if ls == [] then logs == [] else logs != [] && EndsBadly(logs[|logs| - 1].events)
       case AllWent(t, logs) =>
         && t.indirs == s.indirs + BegunOf(logs)
         && forall k :: 0 <= k < |logs| ==> NoError(logs[k].events)
  }

  // ---------- logs of parts ----------

  lemma {:induction false} BegunConcat(a: seq<Event>, b: seq<Event>)
    ensures BegunIn(a + b) == BegunIn(a) + BegunIn(b)
    decreases |a|
  {
    hide Begun;
    if a == [] {
      assert a + b == b;
    } else {
      assert (a + b)[0] == a[0] && (a + b)[1..] == a[1..] + b;
      BegunConcat(a[1..], b);
    }
  }

  lemma {:induction false} CausedConcat(w: World, a: seq<Event>, b: seq<Event>, begun: nat)
    requires Caused(w, a, begun) && Caused(w, b, begun + BegunIn(a))
    ensures Caused(w, a + b, begun)
  {
    hide EventCaused, BegunIn;
    var l := a + b;
    forall k | 0 <= k < |l| ensures EventCaused(w, l[k], begun + BegunIn(l[..k])) {
      if k < |a| {
        assert l[..k] == a[..k];
      } else {
        assert l[..k] == a + b[..k - |a|] && l[k] == b[k - |a|];
        BegunConcat(a, b[..k - |a|]);
      }
    }
  }

  lemma {:induction false} GrownThen(w: World, s: State, t: State, r: Outcome, a: seq<Event>, b: seq<Event>)
    requires Grown(w, s, t, a) && Follows(w, t, r, b)
    ensures Follows(w, s, r, a + b)
  {
    hide Caused, BegunIn;
    CausedConcat(w, a, b, s.indirs);
    BegunConcat(a, b);
    assert s.log + a + b == s.log + (a + b);
    if r.Failed? { assert (a + b)[..|a + b| - 1] == a + b[..|b| - 1]; }
  }

  lemma {:induction false} GrownNothing(w: World, s: State)
    ensures Grown(w, s, s, [])
  {
    assert s.log + [] == s.log;
  }

  lemma {:induction false} CausedOne(w: World, ev: Event, begun: nat)
    requires EventCaused(w, ev, begun)
    ensures Caused(w, [ev], begun) && BegunIn([ev]) == Begun(ev.inner)
  {
    hide EventCaused;
    assert [ev][..0] == [] && BegunIn([]) == 0 && [ev][1..] == [];
  }

  // ---------- one test ----------

  ghost predicate TestCaused(w: World, c: Context, e: Entry, place: int, up: int, s: State, r: Magic.Tried) {
    && InnerCaused(w, r.inner, s.indirs)
    && (r.Broke? <==> Fault(w, c, e, place, up, r.inner, s.indirs))
    && (!r.Broke? ==> r.s.indirs == s.indirs + Begun(r.inner) && r.s.log == s.log)
  }

  /** What there is to test, of a scan or without one. */
  ghost predicate FetchCaused(w: World, c: Context, e: Entry, place: int, up: int, s: State, f: Fetch) {
    && InnerCaused(w, f.inner, s.indirs)
    && (f.Failing? ==> Fault(w, c, e, place, up, f.inner, s.indirs))
    && (!f.Failing? ==> f.s.indirs == s.indirs + Begun(f.inner) && f.s.log == s.log)
    && (f.Zero? ==> !Fault(w, c, e, place, up, f.inner, s.indirs))
    && (f.Value? ==>
          (Fault(w, c, e, place, up, f.inner, s.indirs) <==> Check(w, c, e, f.s.offset, f.value) == Error))
  }

  lemma {:induction false} TryCaused(w: World, c: Context, e: Entry, off: int, up: int, s: State)
    requires FetchCaused(w, c, e, off, up, s, Get(w, c, e, off, up, s))
    ensures TestCaused(w, c, e, off, up, s, Try(w, c, e, off, up, s))
  {
    hide Get, Fault, InnerCaused, Begun, Check;
    assert e.kind.Indirect? ==> forall at, v :: Check(w, c, e, at, v) == Hit by { IndirectHits(w, c, e); }
  }

  lemma {:induction false} IndirectHits(w: World, c: Context, e: Entry)
    ensures e.kind.Indirect? ==> forall at, v :: Check(w, c, e, at, v) == Hit
  {}

  lemma {:induction false} GetCaused(w: World, c: Context, e: Entry, off: int, up: int, s: State)
    ensures FetchCaused(w, c, e, off, up, s, Get(w, c, e, off, up, s))
    decreases Left(w, s), w.nameMax - c.depth, 0, 1
  {
    hide GetUse, GetIndirect, FetchCaused;
    if s.indirs < w.indirMax && c.depth < w.nameMax && w.resolve(e, c, off, up).At? {
      var to := w.resolve(e, c, off, up).offset;
      match e.kind
      case Use(name, flips) =>
        UseCaused(w, c, e, off, up, s.(offset := to));
        FromOffset(w, c, e, off, up, s, to, GetUse(w, c, e, name, flips, s.(offset := to)));
      case Indirect(based) =>
        PartCaused(w, c, e, off, up, s.(offset := to));
        FromOffset(w, c, e, off, up, s, to, GetIndirect(w, c, e, based, s.(offset := to)));
      case _ => PlainCaused(w, c, e, off, up, s);
    } else {
      PlainCaused(w, c, e, off, up, s);
    }
  }

  lemma {:induction false} FromOffset(w: World, c: Context, e: Entry, place: int, up: int, s: State, to: int, f: Fetch)
    requires FetchCaused(w, c, e, place, up, s.(offset := to), f)
    ensures FetchCaused(w, c, e, place, up, s, f)
  {
    hide InnerCaused, Fault, Begun, Check;
  }

  lemma {:induction false} PlainCaused(w: World, c: Context, e: Entry, off: int, up: int, s: State)
    requires s.indirs < w.indirMax && c.depth < w.nameMax && w.resolve(e, c, off, up).At? ==>
               !e.kind.Use? && !e.kind.Indirect?
    ensures FetchCaused(w, c, e, off, up, s, Get(w, c, e, off, up, s))
  {
    hide GetUse, GetIndirect, Caused, BegunIn, BegunOf, EndsBadly;
  }

  lemma {:induction false} UseCaused(w: World, c: Context, e: Entry, place: int, up: int, s: State)
    requires e.kind.Use? && s.indirs < w.indirMax && c.depth < w.nameMax
    requires w.resolve(e, c, place, up) == At(s.offset)
    ensures FetchCaused(w, c, e, place, up, s, GetUse(w, c, e, e.kind.name, e.kind.flips, s))
    decreases Left(w, s), w.nameMax - c.depth, 0, 0
  {
    hide Scan, Follows, FetchCaused, GetUse, EnterList, Follow;
    if InPart(w, c, s.offset) && w.named(e.kind.name).Some? {
      EnterKeeps(w, c, s, e.noSpace, s.offset, e.kind.flips);
      var us := w.named(e.kind.name).value;
      var l := ScanIsCaused(w, Follow(c, s.offset, e.kind.flips), us, EnterList(s, e.noSpace));
      UseOf(w, c, e, place, up, s, us, l);
    } else {
      NoUse(w, c, e, place, up, s);
    }
  }

  lemma {:induction false} NoUse(w: World, c: Context, e: Entry, place: int, up: int, s: State)
    requires e.kind.Use? && s.indirs < w.indirMax && c.depth < w.nameMax
    requires w.resolve(e, c, place, up) == At(s.offset)
    requires !InPart(w, c, s.offset) || w.named(e.kind.name).None?
    ensures FetchCaused(w, c, e, place, up, s, GetUse(w, c, e, e.kind.name, e.kind.flips, s))
  {
    hide Scan, Caused, EndsBadly;
  }

  lemma {:induction false} UseOf(w: World, c: Context, e: Entry, place: int, up: int, s: State, us: seq<Entry>,
                                 l: seq<Event>)
    requires e.kind.Use? && s.indirs < w.indirMax && c.depth < w.nameMax && InPart(w, c, s.offset)
    requires w.named(e.kind.name) == Some(us) && w.resolve(e, c, place, up) == At(s.offset)
    requires var c', s' := Follow(c, s.offset, e.kind.flips), EnterList(s, e.noSpace);
      Follows(w, s', Scan(w, c', us, s'), l)
    ensures FetchCaused(w, c, e, place, up, s, GetUse(w, c, e, e.kind.name, e.kind.flips, s))
  {
    hide Scan, Caused, BegunIn, BegunOf, NoError, EndsBadly;
    var c', s' := Follow(c, s.offset, e.kind.flips), EnterList(s, e.noSpace);
    assert [] + l == l;
    if Scan(w, c', us, s').Went? { ErrorLast(l); }
  }

  lemma {:induction false} ErrorLast(l: seq<Event>)
    requires NoError(l)
    ensures !EndsBadly(l)
  {}

  lemma {:induction false} PartCaused(w: World, c: Context, e: Entry, place: int, up: int, s: State)
    requires e.kind.Indirect? && s.indirs < w.indirMax && c.depth < w.nameMax
    requires w.resolve(e, c, place, up) == At(s.offset)
    ensures FetchCaused(w, c, e, place, up, s, GetIndirect(w, c, e, e.kind.based, s))
    decreases Left(w, s), w.nameMax - c.depth, 0, 0
  {
    hide Lists, ListsFollow, FetchCaused, GetIndirect;
    var from := s.offset + if e.kind.based then c.base else 0;
    if from != 0 && InPart(w, c, from) { ListsAreCaused(w, Within(c, from), w.main, EnterPart(s)); }
    PartOf(w, c, e, place, up, s);
  }

  lemma {:induction false} PartOf(w: World, c: Context, e: Entry, place: int, up: int, s: State)
    requires e.kind.Indirect? && s.indirs < w.indirMax && c.depth < w.nameMax
    requires w.resolve(e, c, place, up) == At(s.offset)
    requires var from := s.offset + if e.kind.based then c.base else 0;
      var r := Lists(w, Within(c, from), w.main, EnterPart(s));
      from != 0 && InPart(w, c, from) ==> ListsFollow(w, w.main, EnterPart(s), r) && (r.AllWent? ==> w.main != [])
    ensures FetchCaused(w, c, e, place, up, s, GetIndirect(w, c, e, e.kind.based, s))
  {
    hide Lists, Caused, BegunIn, BegunOf, NoError, EndsBadly, Within;
    var from := s.offset + if e.kind.based then c.base else 0;
    if from != 0 && InPart(w, c, from) {
      var r := Lists(w, Within(c, from), w.main, EnterPart(s));
      if r.AllWent? && r.logs != [] { ErrorLast(r.logs[|r.logs| - 1].events); }
    }
  }

  // ---------- the walk ----------

  ghost predicate StepCaused(w: World, s: State, r: Step, ev: Event) {
    match r
    case Bad(log) => log == s.log + [ev] && ev.erred && EventCaused(w, ev, s.indirs)
    case Stay(t) => Grown(w, s, t, [ev])
    case Down(t) => Grown(w, s, t, [ev])
  }

  lemma {:induction false} StepBad(w: World, s: State, log: seq<Event>, ev: Event)
    requires StepCaused(w, s, Bad(log), ev)
    ensures Follows(w, s, Failed(log), [ev])
  {
    hide EventCaused;
    CausedOne(w, ev, s.indirs);
  }

  lemma {:induction false} OneCaused(w: World, c: Context, es: seq<Entry>, i: nat, level: nat, s: State)
    returns (ev: Event)
    requires i < |es| && 0 < level < |s.li|
    ensures StepCaused(w, s, One(w, c, es, i, level, s), ev)
    decreases Left(w, s), w.nameMax - c.depth, 0, 3
  {
    hide Try, Get, InnerCaused, Fault, Begun, Caused, BegunIn, FetchCaused, Continue, Descend, SetGot, SetEnd, Note;
    var e, up := es[i], s.li[level - 1].off;
    var place := Place(e, up);
    GetCaused(w, c, e, place, up, s);
    TryCaused(w, c, e, place, up, s);
    match Try(w, c, e, place, up, s)
    case Broke(inner) => ev := Erred(i, e, c, false, up, place, inner);
    case Missed(t, inner) =>
      ev := Vain(i, e, c, false, up, place, t.offset, inner);
      LevelsKeep(t, level, 0, false, ev);
      CausedOne(w, ev, s.indirs);
    case Met(t, finds, inner) =>
      ev := Vain(i, e, c, false, up, place, t.offset, inner);
      if !(e.kind.Default? && t.li[level].gotMatch) {
        var u := Continue(w, c, e, SetGot(t, level, !e.kind.Clear?));
        LogKept(w, c, e, SetGot(t, level, !e.kind.Clear?));
        LevelsKeep(t, level, 0, !e.kind.Clear?, ev);
        ev := ev.(fired := true, end := w.endOf(e, c, u.offset), finds := finds);
        LastSteps(u, level, ev.end, ev);
        LastCounts(u, level, ev.end, ev);
        assert One(w, c, es, i, level, s).s == LastState(u, level, ev.end, ev);
      } else {
        LevelsKeep(t, level, 0, false, ev);
      }
      CausedOne(w, ev, s.indirs);
  }

  lemma {:induction false} LastCounts(u: State, level: nat, end: Option<int>, ev: Event)
    requires level < |u.li|
    ensures LastState(u, level, end, ev).indirs == u.indirs
  {}

  lemma {:induction false} LogKept(w: World, c: Context, e: Entry, s: State)
    ensures Continue(w, c, e, s).log == s.log && Announce(w, c, e, s).log == s.log
  {}

  /** A top-level entry that applies. */
  lemma {:induction false} HeadCaused(w: World, c: Context, es: seq<Entry>, i: nat, s: State)
    returns (ev: Event)
    requires i < |es| && 0 < |s.li| && (es[i].kind.Name? || w.applies(es[i], c))
    ensures StepCaused(w, s, Head(w, c, es, i, s), ev)
    decreases Left(w, s), w.nameMax - c.depth, 0, 3
  {
    hide Try, Get, InnerCaused, Fault, Begun, Caused, BegunIn, FetchCaused, Announce;
    var e := es[i];
    GetCaused(w, c, e, e.offset, 0, s);
    TryCaused(w, c, e, e.offset, 0, s);
    match Try(w, c, e, e.offset, 0, s)
    case Broke(inner) => ev := Erred(i, e, c, true, 0, e.offset, inner);
    case Missed(t, inner) =>
      ev := Vain(i, e, c, true, 0, e.offset, t.offset, inner);
      CausedOne(w, ev, s.indirs);
    case Met(t, finds, inner) =>
      LogKept(w, c, e, t);
      var end := w.endOf(e, c, Announce(w, c, e, t).offset);
      ev := Vain(i, e, c, true, 0, e.offset, t.offset, inner).(fired := true, end := end, finds := finds);
      CausedOne(w, ev, s.indirs);
  }

  lemma {:induction false} BranchCaused(w: World, c: Context, es: seq<Entry>, t: Tree, level: nat, s: State)
    returns (l: seq<Event>)
    requires t.i < |es| && Fits(es, t.kids) && 0 < level < |s.li|
    ensures Follows(w, s, Branch(w, c, es, t, level, s), l)
    decreases Left(w, s), w.nameMax - c.depth, 1 + Count(t.kids), 0
  {
    hide One, Kids, Grown, EventCaused, EndsBadly;
    var ev := OneCaused(w, c, es, t.i, level, s);
    l := [ev];
    match One(w, c, es, t.i, level, s)
    case Bad(log) => StepBad(w, s, log, ev);
    case Stay(_) =>
    case Down(u) =>
      var kids := KidsCaused(w, c, es, t.kids, level + 1, u);
      GrownThen(w, s, u, Kids(w, c, es, t.kids, level + 1, u), l, kids);
      l := l + kids;
  }

  lemma {:induction false} KidsCaused(w: World, c: Context, es: seq<Entry>, ts: seq<Tree>, level: nat, s: State)
    returns (l: seq<Event>)
    requires Fits(es, ts) && 0 < level < |s.li|
    ensures Follows(w, s, Kids(w, c, es, ts, level, s), l)
    decreases Left(w, s), w.nameMax - c.depth, Count(ts), 1
  {
    hide Branch, Grown, EndsBadly;
    l := [];
    if ts == [] {
      GrownNothing(w, s);
    } else {
      l := BranchCaused(w, c, es, ts[0], level, s);
      var r := Branch(w, c, es, ts[0], level, s);
      if r.Went? {
        var others := KidsCaused(w, c, es, ts[1..], level, r.s);
        GrownThen(w, s, r.s, Kids(w, c, es, ts[1..], level, r.s), l, others);
        l := l + others;
      }
    }
  }

  lemma {:induction false} TopsCaused(w: World, c: Context, es: seq<Entry>, ts: seq<Tree>, s: State)
    returns (l: seq<Event>)
    requires Fits(es, ts) && 0 < |s.li|
    ensures Follows(w, s, Tops(w, c, es, ts, s), l)
    decreases Left(w, s), w.nameMax - c.depth, Count(ts), 1
  {
    hide Head, Kids, Grown, EventCaused, EndsBadly, StopHere, EndGroup;
    l := [];
    if ts == [] {
      GrownNothing(w, s);
    } else if !es[ts[0].i].kind.Name? && !w.applies(es[ts[0].i], c) {
      l := TopsCaused(w, c, es, ts[1..], s) by { Passed(w, c, es, ts[0].i, s); }
      Passed(w, c, es, ts[0].i, s);
    } else {
      var ev := HeadCaused(w, c, es, ts[0].i, s);
      l := [ev];
      match Head(w, c, es, ts[0].i, s)
      case Bad(log) => StepBad(w, s, log, ev);
      case Stay(t) =>
        var later := TopsCaused(w, c, es, ts[1..], t);
        GrownThen(w, s, t, Tops(w, c, es, ts[1..], t), l, later);
        l := l + later;
      case Down(t) =>
        var kids := KidsCaused(w, c, es, ts[0].kids, 1, t);
        var k := Kids(w, c, es, ts[0].kids, 1, t);
        GrownThen(w, s, t, k, l, kids);
        l := l + kids;
        if k.Went? {
          GroupEnds(w, s, k.s, l);
          if !(k.s.found && !w.all) {
            var later := TopsCaused(w, c, es, ts[1..], EndGroup(k.s));
            GrownThen(w, s, EndGroup(k.s), Tops(w, c, es, ts[1..], EndGroup(k.s)), l, later);
            l := l + later;
          }
        }
    }
  }

  lemma {:induction false} Passed(w: World, c: Context, es: seq<Entry>, i: nat, s: State)
    requires i < |es| && 0 < |s.li| && !es[i].kind.Name? && !w.applies(es[i], c)
    ensures Head(w, c, es, i, s) == Stay(s)
  {
    hide Try;
  }

  lemma {:induction false} GroupEnds(w: World, s: State, u: State, l: seq<Event>)
    requires Grown(w, s, u, l)
    ensures Grown(w, s, StopHere(u), l) && Grown(w, s, EndGroup(u), l)
    ensures |EndGroup(u).li| == |u.li| && EndGroup(u).indirs == u.indirs
  {
    hide Caused, BegunIn;
  }

  /** In any scan a test is an error exactly if there is a reason for it, and then it is the last. */
  lemma {:induction false} ScanIsCaused(w: World, c: Context, es: seq<Entry>, s: State) returns (l: seq<Event>)
    ensures Follows(w, s, Scan(w, c, es, s), l)
    decreases Left(w, s), w.nameMax - c.depth, 1 + Count(Forest(es, 0)), 2
  {
    hide Tops, Forest, Caused, EndsBadly, BegunIn;
    l := TopsCaused(w, c, es, Forest(es, 0), Descend(s, 0));
  }

  lemma {:induction false} ListsAreCaused(w: World, c: Context, ls: seq<seq<Entry>>, s: State)
    ensures ListsFollow(w, ls, s, Lists(w, c, ls, s)) && (Lists(w, c, ls, s).AllWent? ==> ls != [])
    decreases Left(w, s), w.nameMax - c.depth, Bulk(ls), 3
  {
    hide Scan, Caused, EndsBadly, NoError, BegunIn;
    if ls != [] {
      var s0 := s.(ret := false, found := false, log := []);
      var l := ScanIsCaused(w, c, ls[0], s0);
      assert [] + l == l;
      assert [Log(l)][..0] == [] && [Log(l)][1..] == [];
      match Scan(w, c, ls[0], s0)
      case Failed(log) =>
      case Went(t) =>
        if !t.ret && |ls| != 1 {
          ListsAreCaused(w, c, ls[1..], t);
          ListsThen(w, ls, s, t, l, Lists(w, c, ls[1..], t));
        }
    }
  }

  lemma {:induction false} ListsThen(w: World, ls: seq<seq<Entry>>, s: State, t: State, l: seq<Event>, r: Outcomes)
    requires ls != [] && Caused(w, l, s.indirs) && NoError(l) && t.indirs == s.indirs + BegunIn(l)
    requires ListsFollow(w, ls[1..], t, r) && (r.AllFailed? ==> |ls| > 1)
    ensures ListsFollow(w, ls, s, Behind(l, r))
  {
    hide Caused, EndsBadly, NoError, BegunIn, BegunOf;
    var logs := Behind(l, r).logs;
    assert logs == [Log(l)] + r.logs;
    forall k | 0 <= k < |logs| ensures Caused(w, logs[k].events, s.indirs + BegunOf(logs[..k])) {
      if k == 0 {
        BegunFirst(l, []);
        assert logs[..k] == [];
      } else {
        assert logs[..k] == [Log(l)] + r.logs[..k - 1] && logs[k] == r.logs[k - 1];
        BegunFirst(l, r.logs[..k - 1]);
      }
    }
    BegunFirst(l, r.logs);
    if r.AllFailed? { assert logs[|logs| - 1] == r.logs[|r.logs| - 1]; }
  }

  lemma {:induction false} BegunFirst(l: seq<Event>, ls: seq<Log>)
    ensures BegunOf([Log(l)] + ls) == BegunIn(l) + BegunOf(ls) && BegunOf([]) == 0
  {
    hide BegunIn;
    assert ([Log(l)] + ls)[1..] == ls;
  }

  /** A run over all lists: it ends in an error exactly if the last test has a reason for one. */
  lemma {:induction false} RunIsCaused(w: World, c: Context, ls: seq<seq<Entry>>, rv: bool, s: State)
    ensures ls != [] ==> ListsFollow(w, ls, s, Run(w, c, ls, rv, s))
    decreases |ls|
  {
    hide Scan, Caused, EndsBadly, NoError, BegunIn;
    if ls != [] {
      var s0 := s.(ret := false, found := false, log := []);
      var l := ScanIsCaused(w, c, ls[0], s0);
      assert [] + l == l;
      assert [Log(l)][..0] == [] && [Log(l)][1..] == [];
      match Scan(w, c, ls[0], s0)
      case Failed(log) =>
      case Went(t) =>
        if !(t.ret && !w.all) {
          var r := Run(w, c, ls[1..], rv || t.ret, t);
          if |ls| > 1 { RunIsCaused(w, c, ls[1..], rv || t.ret, t); }
          ListsThen(w, ls, s, t, l, r);
        }
    }
  }

  /** In other words: a run fails iff the last of its logs ends in an error, and otherwise counts the
      indirect scans in them. */
  lemma {:induction false} RunEnds(w: World, c: Context, ls: seq<seq<Entry>>, s: State)
    ensures var r := Run(w, c, ls, false, s);
      && (r.AllFailed? <==> r.logs != [] && EndsBadly(r.logs[|r.logs| - 1].events))
      && (r.AllWent? ==> r.s.indirs == s.indirs + BegunOf(r.logs))
  {
    hide Scan, Caused, EndsBadly, NoError, Run;
    RunIsCaused(w, c, ls, false, s);
    var r := Run(w, c, ls, false, s);
    if ls == [] {
      RunNone(w, c, s);
    } else if r.AllWent? && r.logs != [] {
      ErrorLast(r.logs[|r.logs| - 1].events);
    }
  }

  lemma {:induction false} RunNone(w: World, c: Context, s: State)
    ensures Run(w, c, [], false, s) == AllWent(s.(ret := false), []) && BegunOf([]) == 0
  {}
}
