/** By which uses and indirect scans an entry comes to be tested, and in what context that is
    (src/softmagic.c). */
module Ways {
  import opened Wrappers
  import opened Entries
  import opened Magic
  import opened Output
  import opened Record

  /** A step from a list into another: by a use at an offset, with the other byte order or not, or by an
      indirect scan from an offset on. */
  datatype Way = Using(off: int, flips: bool) | Into(from: int)

  ghost predicate Opens(ev: Event, way: Way, sub: seq<Event>) {
    match ev.inner
    case Used(off, _, l) => ev.e.kind.Use? && way == Using(off, ev.e.kind.flips) && sub == l
    case Part(from, ls) => way == Into(from) && exists m :: 0 <= m < |ls| && sub == ls[m].events
    case _ => false
  }

  /** In the scans that this one has started, and those they have, the event is reached by these ways. */
  ghost predicate Leads(l: seq<Event>, ways: seq<Way>, ev: Event)
    decreases |ways|
  {
    if ways == [] then ev in l
    else exists n, sub :: 0 <= n < |l| && Opens(l[n], ways[0], sub) && Leads(sub, ways[1..], ev)
  }

  /** The ways behind the last indirect scan. */
  function Since(ways: seq<Way>): (r: seq<Way>)
  {
    if ways == [] then []
    else if HasInto(ways) then Since(ways[1..]) else ways
  }

  predicate HasInto(ways: seq<Way>) { exists n :: 0 <= n < |ways| && ways[n].Into? }

  /** The sum of the offsets of uses, and of those of indirect scans. */
  function Offsets(ways: seq<Way>): int {
    if ways == [] then 0 else (if ways[0].Using? then ways[0].off else 0) + Offsets(ways[1..])
  }

  function Froms(ways: seq<Way>): int {
    if ways == [] then 0 else (if ways[0].Into? then ways[0].from else 0) + Froms(ways[1..])
  }

  function Uses(ways: seq<Way>): nat {
    if ways == [] then 0 else (if ways[0].Using? then 1 else 0) + Uses(ways[1..])
  }

  /** How many of the uses turn the byte order round. */
  function Turns(ways: seq<Way>): nat {
    if ways == [] then 0 else (if ways[0].Using? && ways[0].flips then 1 else 0) + Turns(ways[1..])
  }

  /** The context that ways lead to: the part of the file that the indirect scans have led to, with
      offsets counted from the sum of those of the uses since the last of these, in the byte order that
      as many turns give, for binary tests if there was such a scan at all, and with every use
      counted. */
  function Reached(c: Context, ways: seq<Way>): Context {
    Context(c.start + Froms(ways), (if HasInto(ways) then 0 else c.base) + Offsets(Since(ways)),
            (Turns(Since(ways)) % 2 == 1) != (if HasInto(ways) then false else c.flip),
            if HasInto(ways) then BinTest else c.mode, c.depth + Uses(ways))
  }

  /** In a right log every event is tested in the context that the ways to it lead to. */
  lemma {:induction false} WaysPlace(w: World, c: Context, es: seq<Entry>, l: seq<Event>, ways: seq<Way>, ev: Event)
    requires Right(w, c, es, l) && Leads(l, ways, ev)
    ensures ev.c == Reached(c, ways)
    decreases |ways|
  {
    hide RightInner, Told;
    if ways != [] {
      var n, sub :| 0 <= n < |l| && Opens(l[n], ways[0], sub) && Leads(sub, ways[1..], ev);
      var c', es' := StepInto(w, c, l[n], ways[0], sub);
      WaysPlace(w, c', es', sub, ways[1..], ev);
      WaysAdd(c, c', ways);
    } else {
      var n :| 0 <= n < |l| && l[n] == ev;
    }
  }

  lemma {:induction false} WaysAdd(c: Context, c': Context, ways: seq<Way>)
    requires ways != []
    requires match ways[0]
             case Using(off, flips) => c' == c.(base := c.base + off, flip := c.flip != flips, depth := c.depth + 1)
             case Into(from) => c' == Context(c.start + from, 0, false, BinTest, c.depth)
    ensures Reached(c, ways) == Reached(c', ways[1..])
  {
    hide HasInto, Since;
    WaysFirst(ways);
  }

  /** One step further. */
  lemma {:induction false} StepInto(w: World, c: Context, ev: Event, way: Way, sub: seq<Event>)
    returns (c': Context, es: seq<Entry>)
    requires RightEvent(w, c, ev) && Opens(ev, way, sub)
    ensures Right(w, c', es, sub)
    ensures match way
            case Using(off, flips) => c' == c.(base := c.base + off, flip := c.flip != flips, depth := c.depth + 1)
            case Into(from) => c' == Context(c.start + from, 0, false, BinTest, c.depth)
  {
    hide Told, Right;
    match ev.inner
    case Used(off, us, l) =>
      c', es := Context(c.start, c.base + off, c.flip != ev.e.kind.flips, c.mode, c.depth + 1), us;
    case Part(from, ls) =>
      var m :| 0 <= m < |ls| && sub == ls[m].events;
      c', es := Context(c.start + from, 0, false, BinTest, c.depth), w.main[m];
  }

  lemma {:induction false} WaysFirst(ways: seq<Way>)
    requires ways != []
    ensures HasInto(ways) <==> ways[0].Into? || HasInto(ways[1..])
    ensures Since(ways) == if HasInto(ways) then Since(ways[1..]) else ways
    ensures !HasInto(ways[1..]) ==> Since(ways[1..]) == ways[1..]
  {
    if HasInto(ways[1..]) {
      var n :| 0 <= n < |ways[1..]| && ways[1..][n].Into?;
      assert ways[n + 1].Into?;
    }
    if n :| 0 < n < |ways| && ways[n].Into? { assert ways[1..][n - 1].Into?; }
  }

  // ---------- of any scan ----------

  /** The log of a scan, up to an error if there is one. */
  ghost predicate Logged(s: State, r: Outcome, l: seq<Event>) {
    match r
    case Failed(log) => log == s.log + l
    case Went(t) => t.log == s.log + l
  }

  lemma {:induction false} LoggedOnce(w: World, c: Context, es: seq<Entry>, s: State, r: Outcome, l: seq<Event>,
                                      m: seq<Event>)
    requires Logged(s, r, l) && ScanRecorded(w, c, es, s, r, m)
    ensures l == m
  {
    hide Right, ShowFrom, SomeGives;
    var log := match r case Failed(k) => k case Went(t) => t.log;
    assert l == log[|s.log|..] && m == log[|s.log|..];
  }

  /** What a scan prints is the page of its log. */
  lemma {:induction false} PrintsItsLog(w: World, c: Context, es: seq<Entry>, s: State, l: seq<Event>)
    requires Scan(w, c, es, s).Went? && Logged(s, Scan(w, c, es, s), l)
    ensures Prints(s, Scan(w, c, es, s).s, ShowFrom(w, l, MoodOf(s), s.found, false))
    ensures Scan(w, c, es, s).s.found <==> s.found || SomeGives(l)
  {
    hide Scan, Right, ShowFrom, SomeGives;
    var m := ScanIsRecorded(w, c, es, s);
    LoggedOnce(w, c, es, s, Scan(w, c, es, s), l, m);
  }

  /** Every entry tested by a scan, or by those it has started, is tested as its log says, in the context
      that the ways to it give. */
  lemma {:induction false} TestedAsLogged(w: World, c: Context, es: seq<Entry>, s: State, l: seq<Event>,
                                          ways: seq<Way>, ev: Event)
    requires Logged(s, Scan(w, c, es, s), l) && Leads(l, ways, ev)
    ensures ev.c == Reached(c, ways)
    ensures ev.place == ev.e.offset + (if ev.e.relative && !ev.top then ev.up else 0) && (!ev.erred ==> Told(w, ev))
  {
    hide Scan, Right, ShowFrom, SomeGives, Told;
    var m := ScanIsRecorded(w, c, es, s);
    LoggedOnce(w, c, es, s, Scan(w, c, es, s), l, m);
    RightOf(w, c, es, s, Scan(w, c, es, s), l);
    WaysPlace(w, c, es, l, ways, ev);
    WaysTold(w, c, es, l, ways, ev);
  }

  lemma {:induction false} RightOf(w: World, c: Context, es: seq<Entry>, s: State, r: Outcome, l: seq<Event>)
    requires ScanRecorded(w, c, es, s, r, l)
    ensures Right(w, c, es, l)
  {
    hide Right, ShowFrom, SomeGives;
  }

  lemma {:induction false} WaysTold(w: World, c: Context, es: seq<Entry>, l: seq<Event>, ways: seq<Way>, ev: Event)
    requires Right(w, c, es, l) && Leads(l, ways, ev)
    ensures ev.place == ev.e.offset + (if ev.e.relative && !ev.top then ev.up else 0) && (!ev.erred ==> Told(w, ev))
    decreases |ways|
  {
    hide RightInner, Told;
    if ways != [] {
      var n, sub :| 0 <= n < |l| && Opens(l[n], ways[0], sub) && Leads(sub, ways[1..], ev);
      var c', es' := StepInto(w, c, l[n], ways[0], sub);
      WaysTold(w, c', es', sub, ways[1..], ev);
    } else {
      var n :| 0 <= n < |l| && l[n] == ev;
    }
  }
}
