/** What a list of magic entries says about a file: a walk over the forest of tests
    (src/softmagic.c). */
module Magic {
  import opened Wrappers
  import opened Entries

  datatype Mode = BinTest | TextTest

  /** How a list is being scanned: the part of the file, where offsets count from in it, the byte
      order, the kind of test asked for, and how many names have been followed to get here. */
  datatype Context = Context(start: int, base: int, flip: bool, mode: Mode, depth: nat)

  /** The offset of a test after indirection: an error, no such place, or a place. */
  datatype Resolved = Broken | Lost | At(offset: int)

  datatype Verdict = Error | Miss | Hit

  /** The file and what the tests need to know about it: whether a top-level entry applies to this
      kind of file; the place of a test, which may depend on the end of what the parent matched;
      whether there is a value to test, and the outcome; the end of a match if it lies inside the
      file, and the text of a description; the lists by name, and all lists; and the limits. */
  datatype World = World(
    size: int,
    applies: (Entry, Context) -> bool,
    resolve: (Entry, Context, int, int) -> Resolved,
    holds: (Entry, Context, int) -> bool,
    check: (Entry, Context, int) -> Verdict,
    endOf: (Entry, Context, int) -> Option<int>,
    text: (Entry, Context, int) -> string,
    named: string -> Option<seq<Entry>>,
    main: seq<seq<Entry>>,
    nameMax: nat,
    indirMax: nat,
    noDesc: bool,
    all: bool)

  /** Where the last match of a level ended, and whether there has been one. */
  datatype LevelInfo = LevelInfo(off: int, gotMatch: bool)

  /** An entry was tested in a context: at the top or below a match; the end recorded for its parent's
      level then; the place asked for and the offset after the test; the scan it started; whether there
      was an error; whether it matched and counted, and then the end of its match if that lies inside
      the file; and whether the scan it started found something. */
  datatype Event = Event(
    i: nat,
    e: Entry,
    c: Context,
    top: bool,
    up: int,
    place: int,
    at: int,
    inner: Inner,
    erred: bool,
    fired: bool,
    end: Option<int>,
    finds: bool)

  /** What a test did besides: nothing, write a name, scan a used list from an offset on, or scan the
      lists again on the part of the file from an offset on, with the logs of these scans. */
  datatype Inner =
    | Nothing
    | Named
    | Used(off: int, es: seq<Entry>, log: seq<Event>)
    | Part(from: int, logs: seq<Log>)

  /** The log of one list. */
  datatype Log = Log(events: seq<Event>)

  /** An end was recorded for a level, or its flag was set or reset, by the scan itself or by one an
      indirect entry started. */
  datatype Mark = End(level: nat, end: int, inner: bool) | Flag(level: nat, got: bool, inner: bool)

  /** What a scan changes: the output; whether something has been printed since the last separator,
      whether a blank is due, whether this is the first line, whether to return 1, and whether
      anything has been found; the levels; the offset of the last test; and the number of indirect
      scans. The log of this scan and the marks are there to speak about it. */
  datatype State = State(
    out: string,
    printed: bool,
    needSep: bool,
    firstLine: bool,
    ret: bool,
    found: bool,
    li: seq<LevelInfo>,
    offset: int,
    indirs: nat,
    log: seq<Event>,
    marks: seq<Mark>)

  /** An error, with the log of the scan up to it, or the state at the end. */
  datatype Outcome = Failed(log: seq<Event>) | Went(s: State)

  /** The same for several lists, with one log for each. */
  datatype Outcomes = AllFailed(logs: seq<Log>) | AllWent(s: State, logs: seq<Log>)

  /** What there is to test: an error, nothing, or something; for the scan of an entry, whether it
      found anything. */
  datatype Fetch = Failing(inner: Inner) | Zero(s: State, inner: Inner) | Value(s: State, value: bool, inner: Inner)

  datatype Tried = Broke(inner: Inner) | Missed(s: State, inner: Inner) | Met(s: State, finds: bool, inner: Inner)

  /** After one entry: an error, on with the next of the level, or on with its dependents. */
  datatype Step = Bad(log: seq<Event>) | Stay(s: State) | Down(s: State)

  const SEPARATOR: string := "\n- "

  // ---------- the parts of one step ----------

  /** The levels with room for one more, where nothing has matched yet. */
  function Room(li: seq<LevelInfo>, level: nat): (r: seq<LevelInfo>)
    ensures |r| > level && |r| >= |li| && !r[level].gotMatch
    ensures forall k :: 0 <= k < |li| ==> r[k].off == li[k].off && (k != level ==> r[k] == li[k])
  {
    var l := if level >= |li| then li + seq(20 + level - |li|, _ => LevelInfo(0, false)) else li;
    l[level := LevelInfo(l[level].off, false)]
  }

  function Descend(s: State, level: nat): (t: State)
    ensures |t.li| > level && |t.li| >= |s.li| && t.indirs == s.indirs
  {
    s.(li := Room(s.li, level), marks := s.marks + [Flag(level, false, false)])
  }

  function SetGot(s: State, level: nat, got: bool): (t: State)
    requires level < |s.li|
    ensures |t.li| == |s.li| && t.indirs == s.indirs
  {
    s.(li := s.li[level := LevelInfo(s.li[level].off, got)], marks := s.marks + [Flag(level, got, false)])
  }

  function SetEnd(s: State, level: nat, end: int): (t: State)
    requires level < |s.li|
    ensures |t.li| == |s.li| && t.indirs == s.indirs
  {
    s.(li := s.li[level := LevelInfo(end, s.li[level].gotMatch)], marks := s.marks + [End(level, end, false)])
  }

  function Note(s: State, ev: Event): (t: State)
    ensures |t.li| == |s.li| && t.indirs == s.indirs
  {
    s.(log := s.log + [ev])
  }

  /** The text of a description; the scans that an entry starts print their own. */
  function Description(w: World, c: Context, e: Entry, off: int): string {
    if e.kind.Use? || e.kind.Name? || e.kind.Indirect? then "" else w.text(e, c, off)
  }

  /** A top-level entry has matched. */
  function Announce(w: World, c: Context, e: Entry, s: State): (t: State)
    ensures |t.li| == |s.li| && t.indirs == s.indirs
  {
    if e.desc == "" then s
    else if w.noDesc then s.(found := true)
    else
      s.(out := s.out + (if s.firstLine then "" else SEPARATOR) + Description(w, c, e, s.offset),
         printed := true, needSep := true, ret := true, found := true)
  }

  /** A continuation has matched. */
  function Continue(w: World, c: Context, e: Entry, s: State): (t: State)
    ensures |t.li| == |s.li| && t.indirs == s.indirs
  {
    if e.desc == "" then s
    else if w.noDesc then s.(found := true)
    else
      s.(out := s.out + (if !s.printed && !s.firstLine then SEPARATOR else "")
                      + (if s.needSep && !e.noSpace then " " else "") + Description(w, c, e, s.offset),
         printed := true, needSep := true, ret := true, found := true)
  }

  /** The end of a group of continuations, when the scan stops there and when it goes on. */
  function StopHere(s: State): (t: State)
    ensures t.indirs == s.indirs && |t.li| == |s.li|
  {
    if s.printed then s.(firstLine := false) else s
  }

  function EndGroup(s: State): (t: State)
    ensures t.indirs == s.indirs && |t.li| == |s.li|
  {
    if s.found then s.(printed := false, firstLine := false) else StopHere(s)
  }

  function Place(e: Entry, up: int): int {
    e.offset + if e.relative then up else 0
  }

  /** How much there is of this part of the file. */
  predicate InPart(w: World, c: Context, off: int) {
    0 <= off <= w.size - c.start
  }

  // ---------- the scans an entry starts ----------

  function Follow(c: Context, off: int, flips: bool): Context {
    c.(base := off + c.base, flip := if flips then !c.flip else c.flip, depth := c.depth + 1)
  }

  /** In front of a used list. */
  function EnterList(s: State, noSpace: bool): (t: State)
    ensures t.indirs == s.indirs && |t.li| == |s.li|
  {
    s.(found := false, needSep := s.needSep && !noSpace, log := [])
  }

  /** After a used list: its finds count, its separator only if it printed, and the levels are as
      before. */
  function LeaveList(was: State, s: State): (t: State)
    ensures t.indirs == s.indirs && |t.li| == |was.li|
  {
    s.(found := was.found || s.found, needSep := if s.ret then s.needSep else was.needSep,
       li := was.li, offset := was.offset, log := was.log, marks := was.marks)
  }

  function Within(c: Context, off: int): Context {
    Context(c.start + off, 0, false, BinTest, c.depth)
  }

  /** In front of an indirect scan, whose output is kept apart. */
  function EnterPart(s: State): (t: State)
    ensures t.indirs == s.indirs + 1 && |t.li| == |s.li|
  {
    s.(out := "", ret := false, found := false, indirs := s.indirs + 1, log := [], marks := [])
  }

  function InnerMarks(ms: seq<Mark>): seq<Mark> {
    seq(|ms|, i requires 0 <= i < |ms| => ms[i].(inner := true))
  }

  /** After an indirect scan: the levels stay as it left them. */
  function LeavePart(was: State, s: State): (t: State)
    ensures t.indirs == s.indirs && |t.li| == |s.li|
  {
    s.(out := was.out, ret := was.ret, found := was.found, log := was.log, marks := was.marks + InnerMarks(s.marks))
  }

  /** It has found something: its output goes behind the description of the entry. */
  function Adopt(w: World, s: State, text: string, out: string): (t: State)
    ensures t.indirs == s.indirs && |t.li| == |s.li|
  {
    s.(out := s.out + (if w.noDesc then "" else text) + out)
  }

  // ---------- the walk ----------

  function Left(w: World, s: State): nat {
    if s.indirs < w.indirMax then w.indirMax - s.indirs else 0
  }

  function Bulk(ls: seq<seq<Entry>>): nat {
    if ls == [] then 0 else 2 + Count(Forest(ls[0], 0)) + Bulk(ls[1..])
  }

  ghost predicate Keeps(w: World, s: State, t: State) {
    |t.li| >= |s.li| && s.indirs <= t.indirs && (t.indirs == s.indirs || t.indirs <= w.indirMax)
  }

  ghost predicate KeepsAll(w: World, s: State, r: Outcome) {
    r.Went? ==> Keeps(w, s, r.s)
  }

  /** A used list, from the offset of its entry on. */
  function GetUse(w: World, c: Context, e: Entry, name: string, flips: bool, s: State): (r: Fetch)
    requires s.indirs < w.indirMax && c.depth < w.nameMax
    ensures !r.Failing? ==> Keeps(w, s, r.s)
    decreases Left(w, s), w.nameMax - c.depth, 0, 0
  {
    if !InPart(w, c, s.offset) then Zero(s, Nothing)
    else match w.named(name)
      case None => Failing(Nothing)
      case Some(es) =>
        match Scan(w, Follow(c, s.offset, flips), es, EnterList(s, e.noSpace))
        case Failed(l) => Failing(Used(s.offset, es, l))
        case Went(v) =>
          var t := LeaveList(s, v);
          var used := Used(s.offset, es, v.log);
          if !v.ret && !t.found then Zero(t, used) else Value(t, v.found, used)
  }

  /** All lists again, on the part of the file from the offset of the entry on. */
  function GetIndirect(w: World, c: Context, e: Entry, based: bool, s: State): (r: Fetch)
    requires s.indirs < w.indirMax && c.depth < w.nameMax
    ensures !r.Failing? ==> Keeps(w, s, r.s)
    decreases Left(w, s), w.nameMax - c.depth, 0, 0
  {
    var from := s.offset + if based then c.base else 0;
    if from == 0 || !InPart(w, c, from) then Zero(s, Nothing)
    else match Lists(w, Within(c, from), w.main, EnterPart(s))
      case AllFailed(ls) => Failing(Part(from, ls))
      case AllWent(v, ls) =>
        var t := LeavePart(s, v);
        if v.ret then Value(Adopt(w, t, w.text(e, c, from), v.out), true, Part(from, ls)) else Zero(t, Part(from, ls))
  }

  /** What there is to test, with the limits on names and indirect scans checked first. */
  function Get(w: World, c: Context, e: Entry, off: int, up: int, s: State): (r: Fetch)
    ensures !r.Failing? ==> Keeps(w, s, r.s)
    decreases Left(w, s), w.nameMax - c.depth, 0, 1
  {
    if s.indirs >= w.indirMax || c.depth >= w.nameMax then Failing(Nothing)
    else match w.resolve(e, c, off, up)
      case Broken => Failing(Nothing)
      case Lost => Zero(s.(offset := off), Nothing)
      case At(to) =>
        match e.kind
        case Name => Value(s.(offset := to, out := if w.noDesc then s.out else s.out + e.desc), false, Named)
        case Use(name, flips) => GetUse(w, c, e, name, flips, s.(offset := to))
        case Indirect(based) => GetIndirect(w, c, e, based, s.(offset := to))
        case _ =>
          if w.holds(e, c, to) then Value(s.(offset := to), false, Nothing) else Zero(s.(offset := to), Nothing)
  }

  /** Whether it is what the entry asks for; a used list must have found something. */
  function Check(w: World, c: Context, e: Entry, off: int, value: bool): Verdict {
    match e.kind
    case Name => Hit
    case Use(_, _) => if value then Hit else Miss
    case Indirect(_) => Hit
    case _ => w.check(e, c, off)
  }

  /** One test. */
  function Try(w: World, c: Context, e: Entry, off: int, up: int, s: State): (r: Tried)
    ensures !r.Broke? ==> Keeps(w, s, r.s)
    decreases Left(w, s), w.nameMax - c.depth, 0, 2
  {
    match Get(w, c, e, off, up, s)
    case Failing(inner) => Broke(inner)
    case Zero(t, inner) => if e.negated then Met(t, false, inner) else Missed(t, inner)
    case Value(t, value, inner) =>
      var u := if e.kind.Indirect? then t.(found := true, ret := true) else t;
      match Check(w, c, e, u.offset, value)
      case Error => Broke(inner)
      case Miss => Missed(u, inner)
      case Hit => Met(u, value, inner)
  }

  /** A test that gave an error, and one in vain. */
  function Erred(i: nat, e: Entry, c: Context, top: bool, up: int, place: int, inner: Inner): Event {
    Event(i, e, c, top, up, place, place, inner, true, false, None, false)
  }

  function Vain(i: nat, e: Entry, c: Context, top: bool, up: int, place: int, at: int, inner: Inner): Event {
    Event(i, e, c, top, up, place, at, inner, false, false, None, false)
  }

  /** An entry at the current level, above 0. */
  function One(w: World, c: Context, es: seq<Entry>, i: nat, level: nat, s: State): (r: Step)
    requires i < |es| && 0 < level < |s.li|
    ensures !r.Bad? ==> Keeps(w, s, r.s)
    ensures r.Down? ==> level + 1 < |r.s.li|
    decreases Left(w, s), w.nameMax - c.depth, 0, 3
  {
    var e, up := es[i], s.li[level - 1].off;
    var place := Place(e, up);
    match Try(w, c, e, place, up, s)
    case Broke(inner) => Bad(s.log + [Erred(i, e, c, false, up, place, inner)])
    case Missed(t, inner) => Stay(Note(t, Vain(i, e, c, false, up, place, t.offset, inner)))
    case Met(t, finds, inner) =>
      var ev := Vain(i, e, c, false, up, place, t.offset, inner);
      if e.kind.Default? && t.li[level].gotMatch then Stay(Note(t, ev))
      else
        var u := Continue(w, c, e, SetGot(t, level, !e.kind.Clear?));
        var end := w.endOf(e, c, u.offset);
        var done := ev.(fired := true, end := end, finds := finds);
        match end
        case None => Stay(Note(Descend(u, level), done))
        case Some(off) => Down(Note(Descend(SetEnd(u, level, off), level + 1), done))
  }

  /** A top-level entry. */
  function Head(w: World, c: Context, es: seq<Entry>, i: nat, s: State): (r: Step)
    requires i < |es| && 0 < |s.li|
    ensures !r.Bad? ==> Keeps(w, s, r.s)
    ensures r.Down? ==> 1 < |r.s.li|
    decreases Left(w, s), w.nameMax - c.depth, 0, 3
  {
    var e := es[i];
    if !e.kind.Name? && !w.applies(e, c) then Stay(s)
    else match Try(w, c, e, e.offset, 0, s)
      case Broke(inner) => Bad(s.log + [Erred(i, e, c, true, 0, e.offset, inner)])
      case Missed(t, inner) => Stay(Note(t, Vain(i, e, c, true, 0, e.offset, t.offset, inner)))
      case Met(t, finds, inner) =>
        var u := Announce(w, c, e, t);
        var end := w.endOf(e, c, u.offset);
        var done := Vain(i, e, c, true, 0, e.offset, t.offset, inner).(fired := true, end := end, finds := finds);
        match end
        case None => Stay(Note(u, done))
        case Some(off) => Down(Note(Descend(SetEnd(u, 0, off), 1), done))
  }

  /** One tree of a level above 0. */
  function Branch(w: World, c: Context, es: seq<Entry>, t: Tree, level: nat, s: State): (r: Outcome)
    requires t.i < |es| && Fits(es, t.kids) && 0 < level < |s.li|
    ensures KeepsAll(w, s, r)
    decreases Left(w, s), w.nameMax - c.depth, 1 + Count(t.kids), 0
  {
    match One(w, c, es, t.i, level, s)
    case Bad(l) => Failed(l)
    case Stay(u) => Went(u)
    case Down(u) => Kids(w, c, es, t.kids, level + 1, u)
  }

  /** The trees that depend on one match, in order. */
  function Kids(w: World, c: Context, es: seq<Entry>, ts: seq<Tree>, level: nat, s: State): (r: Outcome)
    requires Fits(es, ts) && 0 < level < |s.li|
    ensures KeepsAll(w, s, r)
    decreases Left(w, s), w.nameMax - c.depth, Count(ts), 1
  {
    if ts == [] then Went(s)
    else match Branch(w, c, es, ts[0], level, s)
      case Failed(l) => Failed(l)
      case Went(t) => Kids(w, c, es, ts[1..], level, t)
  }

  /** The top-level trees, up to the first whose match ends inside the file and after which something
      has been found, unless all are asked for. */
  function Tops(w: World, c: Context, es: seq<Entry>, ts: seq<Tree>, s: State): (r: Outcome)
    requires Fits(es, ts) && 0 < |s.li|
    ensures KeepsAll(w, s, r)
    decreases Left(w, s), w.nameMax - c.depth, Count(ts), 1
  {
    if ts == [] then Went(s)
    else match Head(w, c, es, ts[0].i, s)
      case Bad(l) => Failed(l)
      case Stay(t) => Tops(w, c, es, ts[1..], t)
      case Down(t) =>
        match Kids(w, c, es, ts[0].kids, 1, t)
        case Failed(l) => Failed(l)
        case Went(u) => if u.found && !w.all then Went(StopHere(u)) else Tops(w, c, es, ts[1..], EndGroup(u))
  }

  /** A list from its beginning. */
  function Scan(w: World, c: Context, es: seq<Entry>, s: State): (r: Outcome)
    ensures KeepsAll(w, s, r)
    decreases Left(w, s), w.nameMax - c.depth, 1 + Count(Forest(es, 0)), 2
  {
    Tops(w, c, es, Forest(es, 0), Descend(s, 0))
  }

  /** The lists one after the other, up to the first that gives 1. Without any there is an error. */
  function Lists(w: World, c: Context, ls: seq<seq<Entry>>, s: State): (r: Outcomes)
    ensures r.AllWent? ==> Keeps(w, s, r.s)
    decreases Left(w, s), w.nameMax - c.depth, Bulk(ls), 3
  {
    if ls == [] then AllFailed([])
    else match Scan(w, c, ls[0], s.(ret := false, found := false, log := []))
      case Failed(l) => AllFailed([Log(l)])
      case Went(t) => if t.ret || |ls| == 1 then AllWent(t, [Log(t.log)]) else Behind(t.log, Lists(w, c, ls[1..], t))
  }

  /** The outcome of several lists, with the log of one in front. */
  function Behind(l: seq<Event>, r: Outcomes): (r': Outcomes)
    ensures r'.AllWent? <==> r.AllWent?
    ensures r'.AllWent? ==> r'.s == r.s
  {
    r.(logs := [Log(l)] + r.logs)
  }

  /** All lists on the whole file: up to the first that gives 1, unless all are asked for. rv says
      whether one has. */
  function Run(w: World, c: Context, ls: seq<seq<Entry>>, rv: bool, s: State): (r: Outcomes)
    decreases |ls|
  {
    if ls == [] then AllWent(s.(ret := rv), [])
    else match Scan(w, c, ls[0], s.(ret := false, found := false, log := []))
      case Failed(l) => AllFailed([Log(l)])
      case Went(t) =>
        if t.ret && !w.all then AllWent(t, [Log(t.log)]) else Behind(t.log, Run(w, c, ls[1..], rv || t.ret, t))
  }
}
