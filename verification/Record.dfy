/** The log of a scan is right: every event in it, those of used lists and indirect scans included, says
    what was tested, where and with what outcome, and together they make up the output
    (src/softmagic.c). */
module Record {
  import opened Wrappers
  import opened Entries
  import opened Magic
  import opened Output

  // ---------- a right log ----------

  predicate InFile(w: World, c: Context, off: int) { 0 <= off <= w.size - c.start }

  /** The events of a list of entries scanned in this context. */
  ghost predicate Right(w: World, c: Context, es: seq<Entry>, l: seq<Event>)
    decreases l
  {
    forall n :: 0 <= n < |l| ==> l[n].i < |es| && l[n].e == es[l[n].i] && RightEvent(w, c, l[n])
  }

  /** An event in this context. A relative entry that depends on a match is tested as far behind its
      end as its offset says. */
  ghost predicate RightEvent(w: World, c: Context, ev: Event)
    decreases ev
  {
    && ev.c == c && ev.place == ev.e.offset + (if ev.e.relative && !ev.top then ev.up else 0)
    && RightInner(w, c, ev.e, ev.place, ev.up, ev.inner)
    && (!ev.erred ==> Told(w, ev))
  }

  /** The scan that a test has started. A used list is scanned in the same part of the file, with its
      offsets counted from that of its entry, and in the other byte order if the entry says so. An
      indirect scan tests all lists on the rest of the file. */
  ghost predicate RightInner(w: World, c: Context, e: Entry, place: int, up: int, inner: Inner)
    decreases inner
  {
    var r := w.resolve(e, c, place, up);
    match inner
    case Nothing => true
    case Named => e.kind.Name? && r.At?
    case Used(off, us, l) =>
      && e.kind.Use? && r == At(off) && InFile(w, c, off) && w.named(e.kind.name) == Some(us)
      && Right(w, Context(c.start, c.base + off, c.flip != e.kind.flips, c.mode, c.depth + 1), us, l)
    case Part(from, ls) =>
      && e.kind.Indirect? && r == At(from - if e.kind.based then c.base else 0)
      && from != 0 && InFile(w, c, from) && |ls| <= |w.main|
      && forall n :: 0 <= n < |ls| ==>
           Right(w, Context(c.start + from, 0, false, BinTest, c.depth), w.main[n], ls[n].events)
  }

  /** The test of an entry holds where there is something to test and that is as it should be, or where
      there is nothing and the test is negated. */
  predicate Holds(w: World, ev: Event, at: int) {
    if w.holds(ev.e, ev.c, at) then w.check(ev.e, ev.c, at) == Hit else ev.e.negated
  }

  /** The outcome of a test without an error. An entry matches if its test holds; a default may come too
      late for that. A used list must have found something, an indirect scan must have given a result. */
  ghost predicate Told(w: World, ev: Event) {
    && (ev.fired ==> ev.end == w.endOf(ev.e, ev.c, ev.at))
    && match w.resolve(ev.e, ev.c, ev.place, ev.up)
       case Broken => false
       case Lost =>
         && ev.inner == Nothing && ev.at == ev.place && !ev.finds
         && (if ev.e.kind.Default? then ev.fired ==> ev.e.negated else ev.fired <==> ev.e.negated)
       case At(to) =>
         match ev.e.kind
         case Name => ev.at == to && ev.inner == Named && ev.fired && !ev.finds
         case Use(_, _) =>
           && ev.at == to && (ev.inner.Used? <==> InFile(w, ev.c, to))
           && (ev.finds <==> ev.inner.Used? && SomeGives(ev.inner.log))
           && (ev.finds ==> ev.fired) && (ev.fired && !ev.finds ==> ev.e.negated)
           && (ev.inner == Nothing ==> (ev.fired <==> ev.e.negated))
         case Indirect(based) =>
           var from := to + if based then ev.c.base else 0;
           && (ev.inner.Part? <==> from != 0 && InFile(w, ev.c, from))
           && (ev.finds ==> ev.inner.Part?) && (ev.fired <==> ev.finds || ev.e.negated)
         case Default => ev.at == to && ev.inner == Nothing && !ev.finds && (ev.fired ==> Holds(w, ev, to))
         case _ => ev.at == to && ev.inner == Nothing && !ev.finds && (ev.fired <==> Holds(w, ev, to))
  }

  ghost predicate NoError(l: seq<Event>) { forall n :: 0 <= n < |l| ==> !l[n].erred }

  ghost predicate NoTop(l: seq<Event>) { forall n :: 0 <= n < |l| ==> !l[n].top }

  /** What has been printed from s to t. */
  ghost predicate Prints(s: State, t: State, a: Shown) {
    t.out == s.out + a.text && MoodOf(t) == a.mood
  }

  /** A part of a group, from s to t, with the events l. */
  ghost predicate Recorded(w: World, c: Context, es: seq<Entry>, s: State, t: State, l: seq<Event>) {
    && t.log == s.log + l && Right(w, c, es, l) && NoError(l) && NoTop(l)
    && Prints(s, t, ShowAll(w, l, MoodOf(s))) && (t.found <==> s.found || SomeGives(l))
  }

  /** The same for groups. */
  ghost predicate GroupsRecorded(w: World, c: Context, es: seq<Entry>, s: State, t: State, l: seq<Event>) {
    && t.log == s.log + l && Right(w, c, es, l) && NoError(l) && (l != [] ==> l[0].top)
    && Prints(s, t, ShowFrom(w, l, MoodOf(s), s.found, false)) && (t.found <==> s.found || SomeGives(l))
  }

  // ---------- logs of parts ----------

  lemma {:induction false} RightConcat(w: World, c: Context, es: seq<Entry>, a: seq<Event>, b: seq<Event>)
    requires Right(w, c, es, a) && Right(w, c, es, b)
    ensures Right(w, c, es, a + b)
  {
    hide RightEvent;
  }

  lemma {:induction false} GivesConcat(a: seq<Event>, b: seq<Event>)
    ensures SomeGives(a + b) <==> SomeGives(a) || SomeGives(b)
  {
    hide GivesSomething;
    var l := a + b;
    if n :| 0 <= n < |a| && GivesSomething(a[n]) { assert l[n] == a[n]; }
    if n :| 0 <= n < |b| && GivesSomething(b[n]) { assert l[|a| + n] == b[n]; }
  }

  lemma {:induction false} GivesOne(ev: Event)
    ensures SomeGives([ev]) <==> GivesSomething(ev)
    ensures !SomeGives([])
  {
    assert [ev][0] == ev;
  }

  lemma {:induction false} ShowAllConcat(w: World, a: seq<Event>, b: seq<Event>, m: Mood)
    ensures var x := ShowAll(w, a, m);
      var y := ShowAll(w, b, x.mood);
      ShowAll(w, a + b, m) == Shown(x.text + y.text, y.mood)
    decreases |a|
  {
    hide ShowEvent;
    if a == [] {
      assert a + b == b;
    } else {
      assert (a + b)[0] == a[0] && (a + b)[1..] == a[1..] + b;
      ShowAllConcat(w, a[1..], b, ShowEvent(w, a[0], m).mood);
    }
  }

  /** The rest of a group, and what comes behind it. */
  lemma {:induction false} ShowGroup(w: World, a: seq<Event>, b: seq<Event>, m: Mood, found: bool, open: bool)
    requires NoTop(a)
    ensures var x := ShowAll(w, a, m);
      var y := ShowFrom(w, b, x.mood, found || SomeGives(a), open);
      ShowFrom(w, a + b, m, found, open) == Shown(x.text + y.text, y.mood)
    decreases |a|
  {
    hide ShowEvent, GivesSomething, ShowFrom, ShowAll, SomeGives;
    if a == [] {
      assert a + b == b;
      ShowNone(w, m);
    } else {
      var ev, rest := a[0], a[1..];
      assert [ev] + rest == a && [ev] + (rest + b) == a + b;
      ShowFirst(w, ev, rest, m);
      ShowNext(w, ev, rest + b, m, found, open);
      GivesConcat([ev], rest);
      GivesOne(ev);
      var e := ShowEvent(w, ev, m);
      ShowGroup(w, rest, b, e.mood, found || GivesSomething(ev), open);
      var x := ShowAll(w, rest, e.mood);
      var y := ShowFrom(w, b, x.mood, found || SomeGives(a), open);
      assert e.text + (x.text + y.text) == (e.text + x.text) + y.text;
    }
  }

  lemma {:induction false} ShowNone(w: World, m: Mood)
    ensures ShowAll(w, [], m) == Shown("", m) && !SomeGives([])
  {}

  lemma {:induction false} ShowFirst(w: World, ev: Event, rest: seq<Event>, m: Mood)
    ensures var e := ShowEvent(w, ev, m);
      var x := ShowAll(w, rest, e.mood);
      ShowAll(w, [ev] + rest, m) == Shown(e.text + x.text, x.mood)
  {
    hide ShowEvent;
    assert ([ev] + rest)[1..] == rest;
  }

  lemma {:induction false} ShowNext(w: World, ev: Event, rest: seq<Event>, m: Mood, found: bool, open: bool)
    requires !ev.top
    ensures var e := ShowEvent(w, ev, m);
      var x := ShowFrom(w, rest, e.mood, found || GivesSomething(ev), open);
      ShowFrom(w, [ev] + rest, m, found, open) == Shown(e.text + x.text, x.mood)
  {
    hide ShowEvent, GivesSomething;
    assert ([ev] + rest)[1..] == rest;
  }

  lemma {:induction false} RecordedThen(w: World, c: Context, es: seq<Entry>, s: State, t: State, u: State,
                                        a: seq<Event>, b: seq<Event>)
    requires Recorded(w, c, es, s, t, a) && Recorded(w, c, es, t, u, b)
    ensures Recorded(w, c, es, s, u, a + b)
  {
    hide Right, ShowAll, SomeGives;
    RightConcat(w, c, es, a, b);
    GivesConcat(a, b);
    ShowAllConcat(w, a, b, MoodOf(s));
    assert s.log + a + b == s.log + (a + b);
  }

  lemma {:induction false} RecordedNothing(w: World, c: Context, es: seq<Entry>, s: State)
    ensures Recorded(w, c, es, s, s, [])
  {
    assert s.log + [] == s.log;
  }

  // ---------- one test ----------

  /** What there was to test, and the scan that was started for it. */
  ghost predicate Fetched(w: World, c: Context, e: Entry, place: int, up: int, s: State, f: Fetch) {
    && RightInner(w, c, e, place, up, f.inner)
    && match f
       case Failing(_) => true
       case Zero(t, inner) =>
         && t.log == s.log && t.found == s.found && Prints(s, t, ShowInner(w, e, c, inner, MoodOf(s)))
         && NothingThere(w, c, e, place, up, t.offset, inner)
       case Value(t, v, inner) =>
         && t.log == s.log && t.found == (s.found || (v && e.kind.Use?))
         && Prints(s, if e.kind.Indirect? then t.(ret := true) else t, ShowInner(w, e, c, inner, MoodOf(s)))
         && SomethingThere(w, c, e, place, up, t.offset, v, inner)
  }

  ghost predicate NothingThere(w: World, c: Context, e: Entry, place: int, up: int, at: int, inner: Inner) {
    match w.resolve(e, c, place, up)
    case Broken => false
    case Lost => inner == Nothing && at == place
    case At(to) =>
      match e.kind
      case Name => false
      case Use(_, _) => at == to && (inner.Used? <==> InFile(w, c, to)) && (inner.Used? ==> !SomeGives(inner.log))
                        && (inner.Used? || inner == Nothing)
      case Indirect(based) =>
        var from := to + if based then c.base else 0;
        inner.Part? <==> from != 0 && InFile(w, c, from)
      case _ => at == to && inner == Nothing && !w.holds(e, c, to)
  }

  ghost predicate SomethingThere(w: World, c: Context, e: Entry, place: int, up: int, at: int, v: bool, inner: Inner) {
    match w.resolve(e, c, place, up)
    case Broken => false
    case Lost => false
    case At(to) =>
      match e.kind
      case Name => at == to && inner == Named && !v
      case Use(_, _) => at == to && inner.Used? && InFile(w, c, to) && (v <==> SomeGives(inner.log))
      case Indirect(based) =>
        var from := to + if based then c.base else 0;
        inner.Part? && from != 0 && InFile(w, c, from) && v
      case _ => at == to && inner == Nothing && w.holds(e, c, to) && !v
  }

  ghost predicate ScanRecorded(w: World, c: Context, es: seq<Entry>, s: State, r: Outcome, l: seq<Event>) {
    match r
    case Failed(log) => log == s.log + l && Right(w, c, es, l)
    case Went(t) => GroupsRecorded(w, c, es, s, t, l)
  }

  /** A used list, when its scan is recorded. */
  lemma {:induction false} UseRecorded(w: World, c: Context, e: Entry, place: int, up: int, s: State, us: seq<Entry>,
                                       l: seq<Event>)
    requires e.kind.Use? && s.indirs < w.indirMax && c.depth < w.nameMax && InPart(w, c, s.offset)
    requires w.named(e.kind.name) == Some(us) && w.resolve(e, c, place, up) == At(s.offset)
    requires var c' := Follow(c, s.offset, e.kind.flips);
      ScanRecorded(w, c', us, EnterList(s, e.noSpace), Scan(w, c', us, EnterList(s, e.noSpace)), l)
    ensures Fetched(w, c, e, place, up, s, GetUse(w, c, e, e.kind.name, e.kind.flips, s))
  {
    hide Scan, Right, ShowInner, RightInner, SomeGives, EnterList, LeaveList, Follow, GroupsRecorded, Prints;
    var c' := Follow(c, s.offset, e.kind.flips);
    var r := Scan(w, c', us, EnterList(s, e.noSpace));
    UseLog(w, c', us, s, e.noSpace, r, l);
    UseRight(w, c, e, place, up, s.offset, us, l);
    if r.Went? { UsePage(w, c, c', e, s, r.s, us, l); }
  }

  lemma {:induction false} UseLog(w: World, c: Context, us: seq<Entry>, s: State, noSpace: bool, r: Outcome,
                                  l: seq<Event>)
    requires ScanRecorded(w, c, us, EnterList(s, noSpace), r, l)
    ensures Right(w, c, us, l)
    ensures match r case Failed(log) => log == l case Went(t) => t.log == l
  {
    hide Right, ShowFrom, SomeGives;
    assert [] + l == l;
  }

  lemma {:induction false} UseRight(w: World, c: Context, e: Entry, place: int, up: int, off: int, us: seq<Entry>,
                                    l: seq<Event>)
    requires e.kind.Use? && w.named(e.kind.name) == Some(us) && w.resolve(e, c, place, up) == At(off)
    requires InPart(w, c, off) && Right(w, Follow(c, off, e.kind.flips), us, l)
    ensures RightInner(w, c, e, place, up, Used(off, us, l))
  {
    hide Right;
    assert Follow(c, off, e.kind.flips) ==
           Context(c.start, c.base + off, c.flip != e.kind.flips, c.mode, c.depth + 1);
  }

  lemma {:induction false} UsePage(w: World, c: Context, c': Context, e: Entry, s: State, v: State, us: seq<Entry>,
                                   l: seq<Event>)
    requires GroupsRecorded(w, c', us, EnterList(s, e.noSpace), v, l)
    ensures var t := LeaveList(s, v);
      && Prints(s, t, ShowInner(w, e, c, Used(s.offset, us, l), MoodOf(s)))
      && t.log == s.log && t.offset == s.offset && t.found == (s.found || SomeGives(l)) && (v.found <==> SomeGives(l))
  {
    hide Right, ShowFrom, SomeGives;
    assert MoodOf(EnterList(s, e.noSpace)) == MoodOf(s).(spaced := s.needSep && !e.noSpace);
  }

  ghost predicate ListsRecorded(w: World, c: Context, ls: seq<seq<Entry>>, s: State, r: Outcomes) {
    && |r.logs| <= |ls| && (forall n :: 0 <= n < |r.logs| ==> Right(w, c, ls[n], r.logs[n].events))
    && (r.AllWent? ==> Prints(s, r.s, ShowLists(w, r.logs, MoodOf(s))) && UpToResult(w, ls, r.logs, MoodOf(s)))
  }

  /** The lists up to the first that gives a result, or all of them. */
  ghost predicate UpToResult(w: World, ls: seq<seq<Entry>>, logs: seq<Log>, m: Mood) {
    && (forall n :: 0 < n < |logs| ==> !ShowLists(w, logs[..n], m).mood.ret)
    && (|logs| < |ls| ==> logs != [] && ShowLists(w, logs, m).mood.ret)
  }

  lemma {:induction false} PartRecorded(w: World, c: Context, e: Entry, place: int, up: int, s: State)
    requires e.kind.Indirect? && s.indirs < w.indirMax && c.depth < w.nameMax
    requires w.resolve(e, c, place, up) == At(s.offset)
    requires var from := s.offset + if e.kind.based then c.base else 0;
      from != 0 && InPart(w, c, from) ==>
        ListsRecorded(w, Within(c, from), w.main, EnterPart(s), Lists(w, Within(c, from), w.main, EnterPart(s)))
    ensures Fetched(w, c, e, place, up, s, GetIndirect(w, c, e, e.kind.based, s))
  {
    hide Lists, Right, ShowInner, RightInner, EnterPart, LeavePart, Adopt, Within, ListsRecorded, Prints, UpToResult;
    var from := s.offset + if e.kind.based then c.base else 0;
    if from == 0 || !InPart(w, c, from) {
      NoPart(w, c, e, place, up, s);
    } else {
      var r := Lists(w, Within(c, from), w.main, EnterPart(s));
      PartRight(w, c, e, place, up, from, r.logs, EnterPart(s), r);
      if r.AllWent? { PartPage(w, c, Within(c, from), e, s, from, r); }
    }
  }

  lemma {:induction false} NoPart(w: World, c: Context, e: Entry, place: int, up: int, s: State)
    ensures RightInner(w, c, e, place, up, Nothing) && Prints(s, s, ShowInner(w, e, c, Nothing, MoodOf(s)))
  {}

  lemma {:induction false} PartRight(w: World, c: Context, e: Entry, place: int, up: int, from: int, ls: seq<Log>,
                                     s: State, r: Outcomes)
    requires e.kind.Indirect? && w.resolve(e, c, place, up) == At(from - if e.kind.based then c.base else 0)
    requires from != 0 && InPart(w, c, from) && ls == r.logs && ListsRecorded(w, Within(c, from), w.main, s, r)
    ensures RightInner(w, c, e, place, up, Part(from, ls))
  {
    hide Right, ShowLists;
    assert Within(c, from) == Context(c.start + from, 0, false, BinTest, c.depth);
  }

  lemma {:induction false} PartPage(w: World, c: Context, c': Context, e: Entry, s: State, from: int, r: Outcomes)
    requires r.AllWent? && ListsRecorded(w, c', w.main, EnterPart(s), r)
    ensures var t := LeavePart(s, r.s);
      var u := if r.s.ret then Adopt(w, t, w.text(e, c, from), r.s.out).(ret := true) else t;
      && Prints(s, u, ShowInner(w, e, c, Part(from, r.logs), MoodOf(s)))
      && u.log == s.log && u.found == s.found
  {
    hide Right, ShowLists, UpToResult, LeavePart, Adopt;
    ShowsFresh(w, r.logs, MoodOf(EnterPart(s)), MoodOf(s).(ret := false));
    var a := ShowLists(w, r.logs, MoodOf(s).(ret := false));
    EnterFresh(s, r.s, a);
    PartLeft(w, s, r.s, w.text(e, c, from));
    var text := if w.noDesc then "" else w.text(e, c, from);
    assert s.out + text + a.text == s.out + (text + a.text) && s.out + "" == s.out;
  }

  lemma {:induction false} EnterFresh(s: State, v: State, a: Shown)
    requires Prints(EnterPart(s), v, a)
    ensures v.out == a.text && MoodOf(v) == a.mood
  {
    assert "" + a.text == a.text;
  }

  lemma {:induction false} PartLeft(w: World, s: State, v: State, text: string)
    ensures var t := LeavePart(s, v);
      && t.out == s.out && MoodOf(t) == MoodOf(v).(ret := s.ret) && t.log == s.log && t.found == s.found
      && var u := Adopt(w, t, text, v.out);
         && u.out == s.out + (if w.noDesc then "" else text) + v.out && MoodOf(u) == MoodOf(t)
         && u.log == s.log && u.found == s.found
  {}

  lemma {:induction false} ShowsFresh(w: World, ls: seq<Log>, m: Mood, m': Mood)
    requires m == m'
    ensures ShowLists(w, ls, m) == ShowLists(w, ls, m')
  {}

  /** A match at the top or below, and what it prints. */
  lemma {:induction false} ContinueShows(w: World, c: Context, e: Entry, s: State)
    ensures var u := Continue(w, c, e, s);
      && u.log == s.log && u.found == (s.found || e.desc != "")
      && Prints(s, u, if e.desc != "" && !w.noDesc
                      then Shown(Gap(false, e.noSpace, MoodOf(s)) + Description(w, c, e, s.offset),
                                 MoodOf(s).(printed := true, spaced := true, ret := true))
                      else Shown("", MoodOf(s)))
  {}

  lemma {:induction false} AnnounceShows(w: World, c: Context, e: Entry, s: State)
    ensures var u := Announce(w, c, e, s);
      && u.log == s.log && u.found == (s.found || e.desc != "")
      && Prints(s, u, if e.desc != "" && !w.noDesc
                      then Shown(Gap(true, e.noSpace, MoodOf(s)) + Description(w, c, e, s.offset),
                                 MoodOf(s).(printed := true, spaced := true, ret := true))
                      else Shown("", MoodOf(s)))
  {
    assert Gap(true, e.noSpace, MoodOf(s)) + Description(w, c, e, s.offset) ==
           (if s.firstLine then "" else SEPARATOR) + Description(w, c, e, s.offset);
  }

  /** What came of a test. */
  ghost predicate Tried(w: World, c: Context, e: Entry, i: nat, top: bool, place: int, up: int, s: State,
                        r: Magic.Tried)
  {
    && RightInner(w, c, e, place, up, r.inner)
    && match r
       case Broke(_) => true
       case Missed(t, inner) =>
         && t.log == s.log && t.found == s.found && Prints(s, t, ShowInner(w, e, c, inner, MoodOf(s)))
         && Told(w, Vain(i, e, c, top, up, place, t.offset, inner))
       case Met(t, finds, inner) =>
         var ev := Vain(i, e, c, top, up, place, t.offset, inner);
         && t.log == s.log && t.found == (s.found || finds) && Prints(s, t, ShowInner(w, e, c, inner, MoodOf(s)))
         && Told(w, ev.(fired := true, end := w.endOf(e, c, t.offset), finds := finds))
         && (e.kind.Default? ==> Told(w, ev))
  }

  lemma {:induction false} TryIs(w: World, c: Context, e: Entry, i: nat, top: bool, off: int, up: int, s: State)
    requires Fetched(w, c, e, off, up, s, Get(w, c, e, off, up, s))
    ensures Tried(w, c, e, i, top, off, up, s, Try(w, c, e, off, up, s))
  {
    hide Get, RightInner, ShowInner, SomeGives, Told, NothingThere, SomethingThere;
    match Get(w, c, e, off, up, s)
    case Failing(_) =>
    case Zero(t, inner) => ZeroTold(w, e, Vain(i, e, c, top, up, off, t.offset, inner));
    case Value(t, v, inner) => ValueTold(w, e, v, Vain(i, e, c, top, up, off, t.offset, inner));
  }

  lemma {:induction false} ZeroTold(w: World, e: Entry, ev: Event)
    requires ev == Vain(ev.i, e, ev.c, ev.top, ev.up, ev.place, ev.at, ev.inner)
    requires NothingThere(w, ev.c, e, ev.place, ev.up, ev.at, ev.inner)
    ensures if e.negated then
              && Told(w, ev.(fired := true, end := w.endOf(e, ev.c, ev.at), finds := false))
              && (e.kind.Default? ==> Told(w, ev))
            else Told(w, ev)
  {
    hide SomeGives;
  }

  lemma {:induction false} ValueTold(w: World, e: Entry, v: bool, ev: Event)
    requires ev == Vain(ev.i, e, ev.c, ev.top, ev.up, ev.place, ev.at, ev.inner)
    requires SomethingThere(w, ev.c, e, ev.place, ev.up, ev.at, v, ev.inner)
    ensures e.kind.Indirect? ==> v
    ensures match Check(w, ev.c, e, ev.at, v)
            case Error => true
            case Miss => Told(w, ev) && !(v && e.kind.Use?)
            case Hit =>
              && Told(w, ev.(fired := true, end := w.endOf(e, ev.c, ev.at), finds := v))
              && (e.kind.Default? ==> Told(w, ev)) && (v ==> e.kind.Use? || e.kind.Indirect?)
  {
    hide SomeGives;
  }

  /** The offset of a state has no part in what it records. */
  lemma {:induction false} FetchedFrom(w: World, c: Context, e: Entry, place: int, up: int, s: State, to: int, f: Fetch)
    requires Fetched(w, c, e, place, up, s.(offset := to), f)
    ensures Fetched(w, c, e, place, up, s, f)
  {
    hide RightInner, ShowInner;
  }

  lemma {:induction false} GetRecorded(w: World, c: Context, e: Entry, off: int, up: int, s: State)
    ensures Fetched(w, c, e, off, up, s, Get(w, c, e, off, up, s))
    decreases Left(w, s), w.nameMax - c.depth, 0, 1
  {
    hide GetUse, GetIndirect, Fetched;
    if s.indirs < w.indirMax && c.depth < w.nameMax && w.resolve(e, c, off, up).At? {
      var to := w.resolve(e, c, off, up).offset;
      match e.kind
      case Use(name, flips) =>
        GetUseRecorded(w, c, e, off, up, s.(offset := to));
        FetchedFrom(w, c, e, off, up, s, to, GetUse(w, c, e, name, flips, s.(offset := to)));
      case Indirect(based) =>
        GetPartRecorded(w, c, e, off, up, s.(offset := to));
        FetchedFrom(w, c, e, off, up, s, to, GetIndirect(w, c, e, based, s.(offset := to)));
      case _ => GetPlain(w, c, e, off, up, s);
    } else {
      GetPlain(w, c, e, off, up, s);
    }
  }

  /** A test that starts no scan. */
  lemma {:induction false} GetPlain(w: World, c: Context, e: Entry, off: int, up: int, s: State)
    requires s.indirs < w.indirMax && c.depth < w.nameMax && w.resolve(e, c, off, up).At? ==>
               !e.kind.Use? && !e.kind.Indirect?
    ensures Fetched(w, c, e, off, up, s, Get(w, c, e, off, up, s))
  {
    hide Right, GetUse, GetIndirect, ShowInner, RightInner;
    NoInner(w, c, e, off, up, MoodOf(s));
    assert s.out + "" == s.out;
  }

  lemma {:induction false} NoInner(w: World, c: Context, e: Entry, place: int, up: int, m: Mood)
    ensures RightInner(w, c, e, place, up, Nothing) && ShowInner(w, e, c, Nothing, m) == Shown("", m)
    ensures e.kind.Name? && w.resolve(e, c, place, up).At? ==> RightInner(w, c, e, place, up, Named)
    ensures ShowInner(w, e, c, Named, m) == Shown(if w.noDesc then "" else e.desc, m)
  {}

  lemma {:induction false} GetUseRecorded(w: World, c: Context, e: Entry, place: int, up: int, s: State)
    requires e.kind.Use? && s.indirs < w.indirMax && c.depth < w.nameMax
    requires w.resolve(e, c, place, up) == At(s.offset)
    ensures Fetched(w, c, e, place, up, s, GetUse(w, c, e, e.kind.name, e.kind.flips, s))
    decreases Left(w, s), w.nameMax - c.depth, 0, 0
  {
    hide Scan, Right, ShowFrom, ScanRecorded, EnterList, Follow;
    if InPart(w, c, s.offset) && w.named(e.kind.name).Some? {
      EnterKeeps(w, c, s, e.noSpace, s.offset, e.kind.flips);
      var us := w.named(e.kind.name).value;
      var l := ScanIsRecorded(w, Follow(c, s.offset, e.kind.flips), us, EnterList(s, e.noSpace));
      hide Fetched;
      UseRecorded(w, c, e, place, up, s, us, l);
    }
  }

  lemma {:induction false} EnterKeeps(w: World, c: Context, s: State, noSpace: bool, off: int, flips: bool)
    ensures EnterList(s, noSpace).indirs == s.indirs && Follow(c, off, flips).depth == c.depth + 1
  {}

  lemma {:induction false} GetPartRecorded(w: World, c: Context, e: Entry, place: int, up: int, s: State)
    requires e.kind.Indirect? && s.indirs < w.indirMax && c.depth < w.nameMax
    requires w.resolve(e, c, place, up) == At(s.offset)
    ensures Fetched(w, c, e, place, up, s, GetIndirect(w, c, e, e.kind.based, s))
    decreases Left(w, s), w.nameMax - c.depth, 0, 0
  {
    hide Lists, ListsRecorded, Fetched, GetIndirect;
    var from := s.offset + if e.kind.based then c.base else 0;
    if from != 0 && InPart(w, c, from) { ListsAreRecorded(w, Within(c, from), w.main, EnterPart(s)); }
    PartRecorded(w, c, e, place, up, s);
  }

  // ---------- one entry ----------

  /** The page does not change. */
  predicate SamePage(s: State, t: State) {
    t.out == s.out && MoodOf(t) == MoodOf(s) && t.found == s.found && t.offset == s.offset
  }

  lemma {:induction false} LevelsKeep(s: State, level: nat, end: int, got: bool, ev: Event)
    ensures SamePage(s, Descend(s, level)) && Descend(s, level).log == s.log
    ensures level < |s.li| ==> SamePage(s, SetGot(s, level, got)) && SetGot(s, level, got).log == s.log
    ensures level < |s.li| ==> SamePage(s, SetEnd(s, level, end)) && SetEnd(s, level, end).log == s.log
    ensures SamePage(s, Note(s, ev)) && Note(s, ev).log == s.log + [ev]
  {}

  /** An event and what it has printed. */
  ghost predicate EventRecorded(w: World, s: State, u: State, ev: Event) {
    && u.log == s.log + [ev] && Prints(s, u, ShowEvent(w, ev, MoodOf(s)))
    && (u.found <==> s.found || GivesSomething(ev))
  }

  lemma {:induction false} OneEventRecorded(w: World, c: Context, es: seq<Entry>, s: State, u: State, ev: Event)
    requires EventRecorded(w, s, u, ev) && ev.i < |es| && ev.e == es[ev.i] && RightEvent(w, c, ev)
    requires !ev.erred && !ev.top
    ensures Recorded(w, c, es, s, u, [ev])
  {
    hide RightEvent, ShowEvent, GivesSomething;
    GivesOne(ev);
    var a := ShowEvent(w, ev, MoodOf(s));
    assert [ev][1..] == [];
    assert ShowAll(w, [], a.mood) == Shown("", a.mood);
    assert ShowAll(w, [ev], MoodOf(s)) == Shown(a.text + "", a.mood);
    assert a.text + "" == a.text;
  }

  /** An entry that does not match prints what its test has printed. */
  lemma {:induction false} VainRecorded(w: World, s: State, t: State, u: State, ev: Event)
    requires !ev.fired && t.log == s.log && t.found == s.found && SamePage(t, u) && u.log == t.log + [ev]
    requires Prints(s, t, ShowInner(w, ev.e, ev.c, ev.inner, MoodOf(s)))
    ensures EventRecorded(w, s, u, ev)
  {
    hide ShowInner;
  }

  /** One that does is printed with its description. */
  lemma {:induction false} FiredRecorded(w: World, s: State, t: State, v: State, u: State, ev: Event)
    requires ev.fired && t.log == s.log && t.found == (s.found || ev.finds) && SamePage(t, v) && v.log == t.log
    requires Prints(s, t, ShowInner(w, ev.e, ev.c, ev.inner, MoodOf(s))) && t.offset == ev.at
    requires var p := if ev.top then Announce(w, ev.c, ev.e, v) else Continue(w, ev.c, ev.e, v);
      SamePage(p, u) && u.log == p.log + [ev]
    ensures EventRecorded(w, s, u, ev)
  {
    hide ShowInner, Announce, Continue, Gap;
    ContinueShows(w, ev.c, ev.e, v);
    AnnounceShows(w, ev.c, ev.e, v);
    var a := ShowInner(w, ev.e, ev.c, ev.inner, MoodOf(s));
    var said := Gap(ev.top, ev.e.noSpace, a.mood) + Text(w, ev);
    assert Description(w, ev.c, ev.e, v.offset) == Text(w, ev);
    assert s.out + a.text + said == s.out + (a.text + said);
    assert s.out + a.text + (Gap(ev.top, ev.e.noSpace, a.mood) + Text(w, ev)) == s.out + a.text + said;
    assert a.text + Gap(ev.top, ev.e.noSpace, a.mood) + Text(w, ev) == a.text + said;
    assert s.out + a.text + "" == s.out + a.text;
  }

  lemma {:induction false} OneRecorded(w: World, c: Context, es: seq<Entry>, i: nat, level: nat, s: State)
    returns (l: seq<Event>)
    requires i < |es| && 0 < level < |s.li|
    ensures var r := One(w, c, es, i, level, s);
      if r.Bad? then r.log == s.log + l && Right(w, c, es, l) else Recorded(w, c, es, s, r.s, l)
    decreases Left(w, s), w.nameMax - c.depth, 0, 3
  {
    hide Try, Get, Tried, Recorded, Right, One, EventRecorded, RightEvent;
    var e, up := es[i], s.li[level - 1].off;
    GetRecorded(w, c, e, Place(e, up), up, s);
    TryIs(w, c, e, i, false, Place(e, up), up, s);
    var ev := OneIs(w, c, es, i, level, s);
    l := [ev];
    var r := One(w, c, es, i, level, s);
    if r.Bad? { EventRight(w, c, es, ev); } else { OneEventRecorded(w, c, es, s, r.s, ev); }
  }

  lemma {:induction false} EventRight(w: World, c: Context, es: seq<Entry>, ev: Event)
    requires ev.i < |es| && ev.e == es[ev.i] && RightEvent(w, c, ev)
    ensures Right(w, c, es, [ev])
  {
    hide RightEvent;
  }

  lemma {:induction false} OneIs(w: World, c: Context, es: seq<Entry>, i: nat, level: nat, s: State)
    returns (ev: Event)
    requires i < |es| && 0 < level < |s.li|
    requires var up := s.li[level - 1].off;
      Tried(w, c, es[i], i, false, Place(es[i], up), up, s, Try(w, c, es[i], Place(es[i], up), up, s))
    ensures ev.i == i && ev.e == es[i] && !ev.top && RightEvent(w, c, ev)
    ensures var r := One(w, c, es, i, level, s);
      if r.Bad? then r.log == s.log + [ev] else !ev.erred && EventRecorded(w, s, r.s, ev)
  {
    hide Try, Continue, Told, ShowInner, RightInner, EventRecorded, SamePage, Descend, SetGot, SetEnd, Note;
    var e, up := es[i], s.li[level - 1].off;
    var place := Place(e, up);
    var r := One(w, c, es, i, level, s);
    match Try(w, c, e, place, up, s)
    case Broke(inner) => ev := Erred(i, e, c, false, up, place, inner);
    case Missed(t, inner) =>
      ev := Vain(i, e, c, false, up, place, t.offset, inner);
      LevelsKeep(t, level, 0, false, ev);
      VainRecorded(w, s, t, r.s, ev);
    case Met(t, finds, inner) =>
      ev := Vain(i, e, c, false, up, place, t.offset, inner);
      if e.kind.Default? && t.li[level].gotMatch {
        LevelsKeep(t, level, 0, false, ev);
        DefaultFinds(w, ev, finds, w.endOf(e, c, t.offset));
        VainRecorded(w, s, t, r.s, ev);
      } else {
        ev := OneFires(w, c, es, i, level, s, t, finds, inner);
      }
  }

  lemma {:induction false} DefaultFinds(w: World, ev: Event, finds: bool, end: Option<int>)
    requires ev.e.kind.Default? && Told(w, ev.(fired := true, end := end, finds := finds))
    ensures !finds
  {}

  lemma {:induction false} OneFires(w: World, c: Context, es: seq<Entry>, i: nat, level: nat, s: State, t: State,
                                    finds: bool, inner: Inner)
    returns (ev: Event)
    requires i < |es| && 0 < level < |s.li|
    requires var e, up := es[i], s.li[level - 1].off;
      && Try(w, c, e, Place(e, up), up, s) == Met(t, finds, inner) && !(e.kind.Default? && t.li[level].gotMatch)
      && Tried(w, c, e, i, false, Place(e, up), up, s, Met(t, finds, inner))
    ensures ev.i == i && ev.e == es[i] && !ev.top && RightEvent(w, c, ev) && !ev.erred
    ensures One(w, c, es, i, level, s).s.log == s.log + [ev] && EventRecorded(w, s, One(w, c, es, i, level, s).s, ev)
  {
    hide Try, Continue, Told, ShowInner, RightInner, EventRecorded, Descend, SetGot, SetEnd, Note, SamePage;
    var e, up := es[i], s.li[level - 1].off;
    var v := SetGot(t, level, !e.kind.Clear?);
    var u := Continue(w, c, e, v);
    var end := w.endOf(e, c, u.offset);
    ContinueAt(w, c, e, v);
    var vain := Vain(i, e, c, false, up, Place(e, up), t.offset, inner);
    LevelsKeep(t, level, 0, !e.kind.Clear?, vain);
    SameOffset(t, v);
    ev := vain.(fired := true, end := end, finds := finds);
    var r := One(w, c, es, i, level, s).s;
    LastSteps(u, level, end, ev);
    assert r == LastState(u, level, end, ev);
    FiredRecorded(w, s, t, v, r, ev);
    LogRecorded(w, s, r, ev);
  }

  /** What is left to do when a match has been printed. */
  function LastState(u: State, level: nat, end: Option<int>, ev: Event): State
    requires level < |u.li|
  {
    match end
    case None => Note(Descend(u, level), ev)
    case Some(off) => Note(Descend(SetEnd(u, level, off), level + 1), ev)
  }

  lemma {:induction false} LastSteps(u: State, level: nat, end: Option<int>, ev: Event)
    requires level < |u.li|
    ensures var r := LastState(u, level, end, ev); SamePage(u, r) && r.log == u.log + [ev]
  {
    hide Descend, SetEnd, Note, SamePage;
    match end
    case None =>
      LevelsKeep(u, level, 0, false, ev);
      LevelsKeep(Descend(u, level), level, 0, false, ev);
      SameTwice(u, Descend(u, level), Note(Descend(u, level), ev));
    case Some(off) =>
      var x := SetEnd(u, level, off);
      LevelsKeep(u, level, off, false, ev);
      LevelsKeep(x, level + 1, off, false, ev);
      LevelsKeep(Descend(x, level + 1), level, off, false, ev);
      SameTwice(u, x, Descend(x, level + 1));
      SameTwice(u, Descend(x, level + 1), Note(Descend(x, level + 1), ev));
  }

  lemma {:induction false} LogRecorded(w: World, s: State, u: State, ev: Event)
    requires EventRecorded(w, s, u, ev)
    ensures u.log == s.log + [ev]
  {}

  lemma {:induction false} ContinueAt(w: World, c: Context, e: Entry, s: State)
    ensures Continue(w, c, e, s).offset == s.offset && |Continue(w, c, e, s).li| == |s.li|
    ensures Announce(w, c, e, s).offset == s.offset && |Announce(w, c, e, s).li| == |s.li|
  {}

  lemma {:induction false} SameOffset(s: State, t: State)
    requires SamePage(s, t)
    ensures t.offset == s.offset
  {}

  lemma {:induction false} SameTwice(s: State, t: State, u: State)
    requires SamePage(s, t) && SamePage(t, u)
    ensures SamePage(s, u)
  {}

  /** A top-level entry writes one event, if it applies. */
  lemma {:induction false} HeadRecorded(w: World, c: Context, es: seq<Entry>, i: nat, s: State)
    returns (own: seq<Event>)
    requires i < |es| && 0 < |s.li|
    ensures var r := Head(w, c, es, i, s);
      if r.Bad? then r.log == s.log + own && Right(w, c, es, own) else HeadLog(w, c, es, s, r, own)
    decreases Left(w, s), w.nameMax - c.depth, 0, 3
  {
    hide Try, Get, Tried, Right, EventRecorded, RightEvent;
    var e := es[i];
    own := [];
    if e.kind.Name? || w.applies(e, c) {
      GetRecorded(w, c, e, e.offset, 0, s);
      TryIs(w, c, e, i, true, e.offset, 0, s);
      hide Head;
      var ev := HeadIs(w, c, es, i, s);
      own := [ev];
      if Head(w, c, es, i, s).Bad? { EventRight(w, c, es, ev); }
    }
  }

  ghost predicate HeadLog(w: World, c: Context, es: seq<Entry>, s: State, r: Step, own: seq<Event>) {
    !r.Bad? &&
    if own == [] then r == Stay(s)
    else
      && |own| == 1 && own[0].i < |es| && own[0].e == es[own[0].i] && RightEvent(w, c, own[0])
      && own[0].top && !own[0].erred && EventRecorded(w, s, r.s, own[0])
      && (r.Down? <==> own[0].fired && own[0].end.Some?)
  }

  lemma {:induction false} HeadIs(w: World, c: Context, es: seq<Entry>, i: nat, s: State) returns (ev: Event)
    requires i < |es| && 0 < |s.li| && (es[i].kind.Name? || w.applies(es[i], c))
    requires Tried(w, c, es[i], i, true, es[i].offset, 0, s, Try(w, c, es[i], es[i].offset, 0, s))
    ensures ev.i == i && ev.e == es[i] && ev.top && RightEvent(w, c, ev)
    ensures var r := Head(w, c, es, i, s);
      if r.Bad? then r.log == s.log + [ev]
      else !ev.erred && EventRecorded(w, s, r.s, ev) && (r.Down? <==> ev.fired && ev.end.Some?)
  {
    hide Try, Announce, Told, ShowInner, RightInner, EventRecorded, SamePage, Descend, SetEnd, Note;
    var e := es[i];
    var r := Head(w, c, es, i, s);
    match Try(w, c, e, e.offset, 0, s)
    case Broke(inner) => ev := Erred(i, e, c, true, 0, e.offset, inner);
    case Missed(t, inner) =>
      ev := Vain(i, e, c, true, 0, e.offset, t.offset, inner);
      LevelsKeep(t, 0, 0, false, ev);
      VainRecorded(w, s, t, r.s, ev);
    case Met(t, finds, inner) =>
      var u := Announce(w, c, e, t);
      ContinueAt(w, c, e, t);
      ev := Vain(i, e, c, true, 0, e.offset, t.offset, inner).(fired := true, end := w.endOf(e, c, u.offset),
            finds := finds);
      SamePageSelf(t);
      HeadSteps(u, ev);
      assert r.s == HeadState(u, ev);
      FiredRecorded(w, s, t, t, r.s, ev);
  }

  function HeadState(u: State, ev: Event): State
    requires 0 < |u.li|
  {
    match ev.end
    case None => Note(u, ev)
    case Some(off) => Note(Descend(SetEnd(u, 0, off), 1), ev)
  }

  lemma {:induction false} HeadSteps(u: State, ev: Event)
    requires 0 < |u.li|
    ensures SamePage(u, HeadState(u, ev)) && HeadState(u, ev).log == u.log + [ev]
  {
    hide Descend, SetEnd, Note, SamePage;
    match ev.end
    case None => LevelsKeep(u, 0, 0, false, ev);
    case Some(off) => LastSteps(u, 0, ev.end, ev);
  }

  lemma {:induction false} SamePageSelf(s: State)
    ensures SamePage(s, s)
  {}

  // ---------- the walk ----------

  ghost predicate PartIs(w: World, c: Context, es: seq<Entry>, s: State, r: Outcome, l: seq<Event>) {
    match r
    case Failed(log) => log == s.log + l && Right(w, c, es, l)
    case Went(t) => Recorded(w, c, es, s, t, l)
  }

  lemma {:induction false} BranchRecorded(w: World, c: Context, es: seq<Entry>, t: Tree, level: nat, s: State)
    returns (l: seq<Event>)
    requires t.i < |es| && Fits(es, t.kids) && 0 < level < |s.li|
    ensures PartIs(w, c, es, s, Branch(w, c, es, t, level, s), l)
    decreases Left(w, s), w.nameMax - c.depth, 1 + Count(t.kids), 0
  {
    hide One, Kids, Recorded, Right;
    l := OneRecorded(w, c, es, t.i, level, s);
    var r := One(w, c, es, t.i, level, s);
    if r.Down? {
      var kids := KidsRecorded(w, c, es, t.kids, level + 1, r.s);
      PartThen(w, c, es, s, r.s, Kids(w, c, es, t.kids, level + 1, r.s), l, kids);
      l := l + kids;
    }
  }

  lemma {:induction false} PartThen(w: World, c: Context, es: seq<Entry>, s: State, t: State, r: Outcome,
                                    a: seq<Event>, b: seq<Event>)
    requires Recorded(w, c, es, s, t, a) && PartIs(w, c, es, t, r, b)
    ensures PartIs(w, c, es, s, r, a + b)
  {
    hide Right, ShowAll, SomeGives;
    match r
    case Failed(log) =>
      RightConcat(w, c, es, a, b);
      assert s.log + a + b == s.log + (a + b);
    case Went(u) => RecordedThen(w, c, es, s, t, u, a, b);
  }

  lemma {:induction false} KidsRecorded(w: World, c: Context, es: seq<Entry>, ts: seq<Tree>, level: nat, s: State)
    returns (l: seq<Event>)
    requires Fits(es, ts) && 0 < level < |s.li|
    ensures PartIs(w, c, es, s, Kids(w, c, es, ts, level, s), l)
    decreases Left(w, s), w.nameMax - c.depth, Count(ts), 1
  {
    hide Branch, Recorded, Right;
    if ts == [] {
      l := [];
      RecordedNothing(w, c, es, s);
    } else {
      l := BranchRecorded(w, c, es, ts[0], level, s);
      var r := Branch(w, c, es, ts[0], level, s);
      if r.Went? {
        var others := KidsRecorded(w, c, es, ts[1..], level, r.s);
        PartThen(w, c, es, s, r.s, Kids(w, c, es, ts[1..], level, r.s), l, others);
        l := l + others;
      }
    }
  }

  /** A top-level entry that does not lead to its continuations, and the groups behind it. */
  lemma {:induction false} HeadThen(w: World, c: Context, es: seq<Entry>, s: State, t: State, own: seq<Event>,
                                    r: Outcome, later: seq<Event>)
    requires HeadLog(w, c, es, s, Stay(t), own) && ScanRecorded(w, c, es, t, r, later)
    ensures ScanRecorded(w, c, es, s, r, own + later)
  {
    hide RightEvent, ShowEvent, GivesSomething, ShowFrom, SomeGives, Right;
    if own == [] {
      assert own + later == later;
    } else {
      var ev := own[0];
      assert own == [ev] && s.log + own + later == s.log + (own + later);
      EventRight(w, c, es, ev);
      RightConcat(w, c, es, own, later);
      if r.Went? {
        GivesOne(ev);
        GivesConcat(own, later);
        ShowTop(w, ev, later, MoodOf(s), s.found);
        var e := ShowEvent(w, ev, MoodOf(s));
        var x := ShowFrom(w, later, e.mood, t.found, false);
        assert s.out + e.text + x.text == s.out + (e.text + x.text);
      }
    }
  }

  lemma {:induction false} ShowTop(w: World, ev: Event, rest: seq<Event>, m: Mood, found: bool)
    requires ev.top
    ensures var e := ShowEvent(w, ev, m);
      var x := ShowFrom(w, rest, e.mood, found || GivesSomething(ev), ev.fired && ev.end.Some?);
      ShowFrom(w, [ev] + rest, m, found, false) == Shown(e.text + x.text, x.mood)
  {
    hide ShowEvent, GivesSomething;
    assert ([ev] + rest)[1..] == rest;
  }

  /** A group that the scan stops behind. */
  lemma {:induction false} GroupStops(w: World, c: Context, es: seq<Entry>, s: State, t: State, own: seq<Event>,
                                      u: State, kids: seq<Event>)
    requires HeadLog(w, c, es, s, Down(t), own) && Recorded(w, c, es, t, u, kids) && u.found && !w.all
    ensures GroupsRecorded(w, c, es, s, StopHere(u), own + kids)
  {
    hide RightEvent, ShowEvent, GivesSomething, ShowAll;
    GroupPage(w, c, es, s, t, own, u, kids, []);
    assert own + kids + [] == own + kids;
    GroupRight(w, c, es, s, t, own, u, kids);
    var a := ShowFrom(w, [], MoodOf(u), u.found, true);
    assert a == Shown("", MoodOf(StopHere(u)));
  }

  lemma {:induction false} GroupRight(w: World, c: Context, es: seq<Entry>, s: State, t: State, own: seq<Event>,
                                      u: State, kids: seq<Event>)
    requires HeadLog(w, c, es, s, Down(t), own) && Recorded(w, c, es, t, u, kids)
    ensures own != [] && own[0].top && u.log == s.log + (own + kids) && Right(w, c, es, own + kids)
    ensures NoError(own + kids) && (u.found <==> s.found || SomeGives(own + kids))
  {
    hide RightEvent, ShowEvent, GivesSomething, ShowAll;
    EventRight(w, c, es, own[0]);
    assert own == [own[0]];
    RightConcat(w, c, es, own, kids);
    GivesOne(own[0]);
    GivesConcat(own, kids);
    assert s.log + own + kids == s.log + (own + kids);
  }

  /** The page from the beginning of a group on. */
  lemma {:induction false} GroupPage(w: World, c: Context, es: seq<Entry>, s: State, t: State, own: seq<Event>,
                                     u: State, kids: seq<Event>, later: seq<Event>)
    requires HeadLog(w, c, es, s, Down(t), own) && Recorded(w, c, es, t, u, kids)
    ensures var y := ShowFrom(w, later, MoodOf(u), u.found, true);
      var a := ShowFrom(w, own + kids + later, MoodOf(s), s.found, false);
      s.out + a.text == u.out + y.text && a.mood == y.mood
  {
    hide RightEvent, ShowEvent, GivesSomething, ShowAll, Right, ShowFrom, SomeGives;
    assert own == [own[0]] && own + kids + later == own + (kids + later);
    GivesOne(own[0]);
    var e := ShowEvent(w, own[0], MoodOf(s));
    ShowTop(w, own[0], kids + later, MoodOf(s), s.found);
    ShowGroup(w, kids, later, e.mood, t.found, true);
    var x := ShowAll(w, kids, e.mood);
    var y := ShowFrom(w, later, x.mood, u.found, true);
    assert s.out + e.text + x.text + y.text == s.out + (e.text + (x.text + y.text));
  }

  /** A group, and those behind it. */
  lemma {:induction false} GroupThen(w: World, c: Context, es: seq<Entry>, s: State, t: State, own: seq<Event>,
                                     u: State, kids: seq<Event>, r: Outcome, later: seq<Event>)
    requires HeadLog(w, c, es, s, Down(t), own) && Recorded(w, c, es, t, u, kids) && (u.found ==> w.all)
    requires ScanRecorded(w, c, es, EndGroup(u), r, later)
    ensures ScanRecorded(w, c, es, s, r, own + kids + later)
  {
    hide RightEvent, ShowEvent, GivesSomething, ShowAll, Right, HeadLog, Recorded;
    GroupRight(w, c, es, s, t, own, u, kids);
    RightConcat(w, c, es, own + kids, later);
    EndKeeps(u);
    assert s.log + (own + kids) + later == s.log + (own + kids + later);
    if r.Went? {
      GroupPage(w, c, es, s, t, own, u, kids, later);
      OpenCloses(w, later, MoodOf(u), u.found);
      GivesConcat(own + kids, later);
      assert (own + kids + later)[0] == own[0];
    }
  }

  lemma {:induction false} EndKeeps(u: State)
    ensures var v := EndGroup(u);
      && v.log == u.log && v.found == u.found && v.out == u.out && MoodOf(v) == Close(MoodOf(u), u.found, false)
  {}

  /** An open group ends where the next begins. */
  lemma {:induction false} OpenCloses(w: World, l: seq<Event>, m: Mood, found: bool)
    requires (l != [] ==> l[0].top) && (found ==> w.all)
    ensures ShowFrom(w, l, m, found, true) == ShowFrom(w, l, Close(m, found, false), found, false)
  {
    hide ShowEvent, GivesSomething;
  }

  lemma {:induction false} TopsRecorded(w: World, c: Context, es: seq<Entry>, ts: seq<Tree>, s: State)
    returns (l: seq<Event>)
    requires Fits(es, ts) && 0 < |s.li|
    ensures ScanRecorded(w, c, es, s, Tops(w, c, es, ts, s), l)
    decreases Left(w, s), w.nameMax - c.depth, Count(ts), 1
  {
    hide Head, Kids, HeadLog, Recorded, Right, GroupsRecorded, StopHere, EndGroup;
    l := [];
    if ts == [] {
      NothingRecorded(w, c, es, s);
    } else {
      var own := HeadRecorded(w, c, es, ts[0].i, s);
      var r := Head(w, c, es, ts[0].i, s);
      if r.Bad? {
        l := own;
      } else if r.Stay? {
        var later := TopsRecorded(w, c, es, ts[1..], r.s);
        HeadThen(w, c, es, s, r.s, own, Tops(w, c, es, ts[1..], r.s), later);
        l := own + later;
      } else {
        var kids := KidsRecorded(w, c, es, ts[0].kids, 1, r.s);
        var k := Kids(w, c, es, ts[0].kids, 1, r.s);
        l := own + kids;
        if k.Failed? {
          GroupFails(w, c, es, s, r.s, own, k, kids);
        } else if k.s.found && !w.all {
          GroupStops(w, c, es, s, r.s, own, k.s, kids);
        } else {
          EndLeft(w, k.s);
          var later := TopsRecorded(w, c, es, ts[1..], EndGroup(k.s));
          GroupThen(w, c, es, s, r.s, own, k.s, kids, Tops(w, c, es, ts[1..], EndGroup(k.s)), later);
          l := l + later;
        }
      }
    }
  }

  lemma {:induction false} EndLeft(w: World, u: State)
    ensures |EndGroup(u).li| == |u.li| && EndGroup(u).indirs == u.indirs
  {}

  lemma {:induction false} NothingRecorded(w: World, c: Context, es: seq<Entry>, s: State)
    ensures GroupsRecorded(w, c, es, s, s, [])
  {
    assert s.log + [] == s.log && s.out + "" == s.out;
  }

  lemma {:induction false} GroupFails(w: World, c: Context, es: seq<Entry>, s: State, t: State, own: seq<Event>,
                                      r: Outcome, kids: seq<Event>)
    requires HeadLog(w, c, es, s, Down(t), own) && r.Failed? && PartIs(w, c, es, t, r, kids)
    ensures ScanRecorded(w, c, es, s, r, own + kids)
  {
    hide RightEvent, ShowEvent, GivesSomething;
    EventRight(w, c, es, own[0]);
    assert own == [own[0]];
    RightConcat(w, c, es, own, kids);
    assert s.log + own + kids == s.log + (own + kids);
  }

  /** The log of every scan is right and makes up what it prints. */
  lemma {:induction false} ScanIsRecorded(w: World, c: Context, es: seq<Entry>, s: State) returns (l: seq<Event>)
    ensures ScanRecorded(w, c, es, s, Scan(w, c, es, s), l)
    decreases Left(w, s), w.nameMax - c.depth, 1 + Count(Forest(es, 0)), 2
  {
    hide Tops, Forest, Right, GroupsRecorded, Descend;
    LevelsKeep(s, 0, 0, false, Erred(0, Entry(0, Plain, 0, false, 0, false, "", false), c, true, 0, 0, Nothing));
    l := TopsRecorded(w, c, es, Forest(es, 0), Descend(s, 0));
    FromRoom(w, c, es, s, Tops(w, c, es, Forest(es, 0), Descend(s, 0)), l);
  }

  lemma {:induction false} FromRoom(w: World, c: Context, es: seq<Entry>, s: State, r: Outcome, l: seq<Event>)
    requires ScanRecorded(w, c, es, Descend(s, 0), r, l)
    ensures ScanRecorded(w, c, es, s, r, l)
  {
    hide Right, ShowFrom;
  }

  lemma {:induction false} ListsAreRecorded(w: World, c: Context, ls: seq<seq<Entry>>, s: State)
    ensures ListsRecorded(w, c, ls, s, Lists(w, c, ls, s))
    decreases Left(w, s), w.nameMax - c.depth, Bulk(ls), 3
  {
    hide Scan, Right, ShowFrom, GroupsRecorded, UpToResult;
    if ls != [] {
      var s0 := s.(ret := false, found := false, log := []);
      var l := ScanIsRecorded(w, c, ls[0], s0);
      match Scan(w, c, ls[0], s0)
      case Failed(log) => assert log == l by { assert [] + l == l; }
      case Went(t) =>
        FirstList(w, c, ls[0], s, s0, t, l);
        if !t.ret && |ls| != 1 {
          ListsAreRecorded(w, c, ls[1..], t);
          ListsThen(w, c, ls, s, t, Lists(w, c, ls[1..], t));
        } else {
          OneUpTo(w, ls, l, MoodOf(s));
        }
    }
  }

  /** What one of several lists prints. */
  ghost predicate ListIs(w: World, c: Context, es: seq<Entry>, s: State, t: State) {
    Right(w, c, es, t.log) && Prints(s, t, ShowLists(w, [Log(t.log)], MoodOf(s)))
  }

  lemma {:induction false} FirstList(w: World, c: Context, es: seq<Entry>, s: State, s0: State, t: State,
                                     l: seq<Event>)
    requires s0 == s.(ret := false, found := false, log := []) && GroupsRecorded(w, c, es, s0, t, l)
    ensures t.log == l && ListIs(w, c, es, s, t)
  {
    hide Right, ShowFrom;
    assert [] + l == l && [Log(l)] + [] == [Log(l)];
    ShowListsFirst(w, l, [], MoodOf(s));
    var a := ShowFrom(w, l, MoodOf(s).(ret := false), false, false);
    ShowListsFirst(w, l, [], a.mood);
    assert MoodOf(s0) == MoodOf(s).(ret := false) && a.text + "" == a.text;
  }

  lemma {:induction false} OneUpTo(w: World, ls: seq<seq<Entry>>, l: seq<Event>, m: Mood)
    requires |ls| > 1 ==> ShowLists(w, [Log(l)], m).mood.ret
    ensures UpToResult(w, ls, [Log(l)], m)
  {}

  lemma {:induction false} ShowListsFirst(w: World, l: seq<Event>, ls: seq<Log>, m: Mood)
    ensures var a := ShowFrom(w, l, m.(ret := false), false, false);
      var b := ShowLists(w, ls, a.mood);
      ShowLists(w, [Log(l)] + ls, m) == Shown(a.text + b.text, b.mood)
    ensures ls == [] ==> ShowLists(w, ls, m) == Shown("", m)
  {
    hide ShowFrom;
    assert ([Log(l)] + ls)[0] == Log(l) && ([Log(l)] + ls)[1..] == ls;
  }

  lemma {:induction false} ShowListsThen(w: World, l: seq<Event>, ls: seq<Log>, m: Mood)
    ensures var a := ShowLists(w, [Log(l)], m);
      var b := ShowLists(w, ls, a.mood);
      ShowLists(w, [Log(l)] + ls, m) == Shown(a.text + b.text, b.mood)
  {
    ShowListsFirst(w, l, [], m);
    ShowListsFirst(w, l, ls, m);
    var a := ShowFrom(w, l, m.(ret := false), false, false);
    ShowListsFirst(w, l, [], a.mood);
    assert [Log(l)] + [] == [Log(l)] && a.text + "" == a.text;
  }

  lemma {:induction false} ListsThen(w: World, c: Context, ls: seq<seq<Entry>>, s: State, t: State, r: Outcomes)
    requires ls != [] && ListIs(w, c, ls[0], s, t) && !t.ret && ListsRecorded(w, c, ls[1..], t, r)
    ensures ListsRecorded(w, c, ls, s, Behind(t.log, r))
  {
    hide Right, ShowFrom, ShowLists, UpToResult;
    var logs := Behind(t.log, r).logs;
    forall n | 0 <= n < |logs| ensures Right(w, c, ls[n], logs[n].events) {
      if n > 0 { assert ls[n] == ls[1..][n - 1] && logs[n] == r.logs[n - 1]; }
    }
    if r.AllWent? {
      ShowListsThen(w, t.log, r.logs, MoodOf(s));
      var a, b := ShowLists(w, [Log(t.log)], MoodOf(s)), ShowLists(w, r.logs, MoodOf(t));
      assert s.out + a.text + b.text == s.out + (a.text + b.text);
      UpToThen(w, ls, t.log, r.logs, MoodOf(s), MoodOf(t));
    }
  }

  lemma {:induction false} UpToThen(w: World, ls: seq<seq<Entry>>, l: seq<Event>, logs: seq<Log>, m: Mood, m': Mood)
    requires ls != [] && ShowLists(w, [Log(l)], m).mood == m' && !m'.ret && UpToResult(w, ls[1..], logs, m')
    ensures UpToResult(w, ls, [Log(l)] + logs, m)
  {
    hide ShowLists;
    ShowListsThen(w, l, logs, m);
    forall n | 0 < n < 1 + |logs| ensures !ShowLists(w, ([Log(l)] + logs)[..n], m).mood.ret {
      assert ([Log(l)] + logs)[..n] == [Log(l)] + logs[..n - 1];
      ShowListsThen(w, l, logs[..n - 1], m);
      if n == 1 { ShowListsFirst(w, l, [], m'); }
    }
  }

  // ---------- a whole run ----------

  /** What a run over all lists says: the page of the lists scanned; without MAGIC_CONTINUE those up to
      the first with a result, otherwise all; and whether there was a result. */
  ghost predicate RunRecorded(w: World, c: Context, ls: seq<seq<Entry>>, rv: bool, s: State, r: Outcomes) {
    && |r.logs| <= |ls| && (forall n :: 0 <= n < |r.logs| ==> Right(w, c, ls[n], r.logs[n].events))
    && (r.AllWent? ==>
          && r.s.out == s.out + ShowLists(w, r.logs, MoodOf(s)).text
          && (if w.all then |r.logs| == |ls| else UpToResult(w, ls, r.logs, MoodOf(s)))
          && (r.s.ret <==> rv || exists n :: 0 < n <= |r.logs| && ShowLists(w, r.logs[..n], MoodOf(s)).mood.ret))
  }

  lemma {:induction false} RunIsRecorded(w: World, c: Context, ls: seq<seq<Entry>>, rv: bool, s: State)
    ensures RunRecorded(w, c, ls, rv, s, Run(w, c, ls, rv, s))
    decreases |ls|
  {
    hide Scan, Right, ShowFrom, GroupsRecorded, UpToResult;
    if ls == [] {
      assert s.out + "" == s.out;
      NoLists(w, MoodOf(s));
    } else {
      var s0 := s.(ret := false, found := false, log := []);
      var l := ScanIsRecorded(w, c, ls[0], s0);
      match Scan(w, c, ls[0], s0)
      case Failed(log) => assert log == l by { assert [] + l == l; }
      case Went(t) =>
        FirstList(w, c, ls[0], s, s0, t, l);
        if t.ret && !w.all {
          OneUpTo(w, ls, l, MoodOf(s));
          assert [Log(l)][..1] == [Log(l)];
        } else {
          RunIsRecorded(w, c, ls[1..], rv || t.ret, t);
          RunThen(w, c, ls, rv, s, t, Run(w, c, ls[1..], rv || t.ret, t));
        }
    }
  }

  lemma {:induction false} NoLists(w: World, m: Mood)
    ensures ShowLists(w, [], m) == Shown("", m) && UpToResult(w, [], [], m)
  {}

  lemma {:induction false} RunThen(w: World, c: Context, ls: seq<seq<Entry>>, rv: bool, s: State, t: State,
                                   r: Outcomes)
    requires ls != [] && ListIs(w, c, ls[0], s, t) && (t.ret ==> w.all)
    requires RunRecorded(w, c, ls[1..], rv || t.ret, t, r)
    ensures RunRecorded(w, c, ls, rv, s, Behind(t.log, r))
  {
    hide Right, ShowFrom, ShowLists, UpToResult;
    var logs := Behind(t.log, r).logs;
    forall n | 0 <= n < |logs| ensures Right(w, c, ls[n], logs[n].events) {
      if n > 0 { assert ls[n] == ls[1..][n - 1] && logs[n] == r.logs[n - 1]; }
    }
    if r.AllWent? {
      ShowListsThen(w, t.log, r.logs, MoodOf(s));
      var a, b := ShowLists(w, [Log(t.log)], MoodOf(s)), ShowLists(w, r.logs, MoodOf(t));
      assert s.out + a.text + b.text == s.out + (a.text + b.text);
      if !w.all { UpToThen(w, ls, t.log, r.logs, MoodOf(s), MoodOf(t)); }
      ResultsThen(w, t.log, r.logs, MoodOf(s), MoodOf(t));
    }
  }

  lemma {:induction false} ResultsThen(w: World, l: seq<Event>, logs: seq<Log>, m: Mood, m': Mood)
    requires ShowLists(w, [Log(l)], m).mood == m'
    ensures (exists n :: 0 < n <= 1 + |logs| && ShowLists(w, ([Log(l)] + logs)[..n], m).mood.ret) <==>
            m'.ret || exists n :: 0 < n <= |logs| && ShowLists(w, logs[..n], m').mood.ret
  {
    hide ShowLists;
    var all := [Log(l)] + logs;
    forall n | 0 < n <= 1 + |logs|
      ensures ShowLists(w, all[..n], m).mood.ret == if n == 1 then m'.ret else ShowLists(w, logs[..n - 1], m').mood.ret
    {
      assert all[..n] == [Log(l)] + logs[..n - 1];
      ShowListsThen(w, l, logs[..n - 1], m);
      if n == 1 { ShowListsFirst(w, l, [], m'); }
    }
    if m'.ret { assert ShowLists(w, all[..1], m).mood.ret; }
    if n :| 0 < n <= |logs| && ShowLists(w, logs[..n], m').mood.ret { assert ShowLists(w, all[..n + 1], m).mood.ret; }
  }

  /** A run that comes to an end prints the page of its logs. */
  lemma {:induction false} RunPrints(w: World, c: Context, ls: seq<seq<Entry>>, rv: bool, s: State)
    requires s.out == ""
    ensures var r := Run(w, c, ls, rv, s); r.AllWent? ==> r.s.out == ShowLists(w, r.logs, MoodOf(s)).text
  {
    hide Right, ShowLists, UpToResult, Run;
    RunIsRecorded(w, c, ls, rv, s);
    var t := ShowLists(w, Run(w, c, ls, rv, s).logs, MoodOf(s)).text;
    assert "" + t == t;
  }
}
