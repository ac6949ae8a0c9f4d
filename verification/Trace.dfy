/** Which entries a scan tests, and where it stops (src/softmagic.c). */
module Trace {
  import opened Wrappers
  import opened Entries
  import opened Magic
  import Levels
  import SoftMagic

  ghost predicate Tested(l: seq<Event>, k: nat) {
    exists n :: 0 <= n < |l| && l[n].i == k
  }

  /** The entry has matched and counted, and its match ended inside the file. */
  ghost predicate Entered(l: seq<Event>, k: nat) {
    exists n :: 0 <= n < |l| && l[n].i == k && l[n].fired && l[n].end.Some?
  }

  /** A match that gives a description, or starts a scan that finds something. */
  predicate Gives(es: seq<Entry>, ev: Event) {
    ev.i < |es| && ev.fired && (es[ev.i].desc != "" || ev.finds)
  }

  /** One of the entries in front of n gives something. */
  ghost predicate Given(es: seq<Entry>, l: seq<Event>, n: nat) {
    exists m :: 0 <= m < |l| && l[m].i < n && Gives(es, l[m])
  }

  ghost predicate Ranges(l: seq<Event>, i: nat, j: nat) {
    forall n :: 0 <= n < |l| ==> i <= l[n].i < j
  }

  predicate Applies(w: World, c: Context, e: Entry) {
    e.kind.Name? || w.applies(e, c)
  }

  // ---------- logs of parts ----------

  lemma {:induction false} InConcat(a: seq<Event>, b: seq<Event>, k: nat)
    ensures Tested(a + b, k) <==> Tested(a, k) || Tested(b, k)
    ensures Entered(a + b, k) <==> Entered(a, k) || Entered(b, k)
  {
    var l := a + b;
    assert forall n :: 0 <= n < |a| ==> l[n] == a[n];
    assert forall n :: 0 <= n < |b| ==> l[|a| + n] == b[n];
    assert forall n :: |a| <= n < |l| ==> l[n] == b[n - |a|];
    if n :| 0 <= n < |b| && b[n].i == k { assert l[|a| + n].i == k; }
    if n :| 0 <= n < |b| && b[n].i == k && b[n].fired && b[n].end.Some? { assert l[|a| + n].i == k; }
    if n :| 0 <= n < |a| && a[n].i == k { assert l[n].i == k; }
    if n :| 0 <= n < |a| && a[n].i == k && a[n].fired && a[n].end.Some? { assert l[n].i == k; }
  }

  lemma {:induction false} GivenConcat(es: seq<Entry>, a: seq<Event>, b: seq<Event>, n: nat)
    ensures Given(es, a + b, n) <==> Given(es, a, n) || Given(es, b, n)
  {
    hide Gives;
    var l := a + b;
    assert forall m :: 0 <= m < |a| ==> l[m] == a[m];
    assert forall m :: |a| <= m < |l| ==> l[m] == b[m - |a|];
    if m :| 0 <= m < |b| && b[m].i < n && Gives(es, b[m]) { assert l[|a| + m] == b[m]; }
    if m :| 0 <= m < |a| && a[m].i < n && Gives(es, a[m]) { assert l[m] == a[m]; }
  }

  lemma {:induction false} RangesConcat(a: seq<Event>, b: seq<Event>, i: nat, j: nat)
    ensures Ranges(a + b, i, j) <==> Ranges(a, i, j) && Ranges(b, i, j)
  {
    var l := a + b;
    assert forall n :: 0 <= n < |a| ==> l[n] == a[n];
    if Ranges(l, i, j) {
      forall n | 0 <= n < |b| ensures i <= b[n].i < j { assert l[|a| + n] == b[n]; }
    }
  }

  lemma {:induction false} RangesWiden(l: seq<Event>, i: nat, j: nat, i': nat, j': nat)
    requires Ranges(l, i, j) && i' <= i && j <= j'
    ensures Ranges(l, i', j')
  {}

  lemma {:induction false} OutOfRange(l: seq<Event>, i: nat, j: nat, k: nat)
    requires Ranges(l, i, j) && !(i <= k < j)
    ensures !Tested(l, k) && !Entered(l, k)
  {}

  lemma {:induction false} EnteredTested(l: seq<Event>, k: nat)
    requires Entered(l, k)
    ensures Tested(l, k)
  {}

  lemma {:induction false} OneEvent(es: seq<Entry>, ev: Event, k: nat)
    ensures Tested([ev], k) <==> ev.i == k
    ensures Entered([ev], k) <==> ev.i == k && ev.fired && ev.end.Some?
    ensures Given(es, [ev], k) <==> ev.i < k && Gives(es, ev)
    ensures Ranges([ev], ev.i, ev.i + 1)
  {
    assert [ev][0] == ev;
  }

  // ---------- one step ----------

  /** The log of a top-level entry that leads to its continuations. */
  predicate Entering(own: seq<Event>) {
    own != [] && own[0].fired && own[0].end.Some?
  }

  /** The log of a scan up to its end, or up to an error. */
  function LogOf(r: Outcome): seq<Event> {
    match r
    case Failed(l) => l
    case Went(s) => s.log
  }

  function StepLog(r: Step): seq<Event> {
    match r
    case Bad(l) => l
    case Stay(s) => s.log
    case Down(s) => s.log
  }

  /** The last event is that of entry j - 1. */
  predicate EndsBefore(l: seq<Event>, j: nat) {
    l != [] && l[|l| - 1].i + 1 == j
  }

  /** What a fetch changes of the log and of what has been found. */
  ghost predicate Fetches(e: Entry, s: State, f: Fetch) {
    match f
    case Failing(_) => true
    case Zero(t, _) => t.log == s.log && t.found == s.found
    case Value(t, value, _) =>
      t.log == s.log && t.found == (s.found || (value && e.kind.Use?)) && (value ==> e.kind.Use? || e.kind.Indirect?)
      && (e.kind.Indirect? ==> value)
  }

  lemma {:induction false} GetUseTrace(w: World, c: Context, e: Entry, name: string, flips: bool, s: State)
    requires e.kind.Use? && s.indirs < w.indirMax && c.depth < w.nameMax
    ensures Fetches(e, s, GetUse(w, c, e, name, flips, s))
  {
    hide Scan;
  }

  lemma {:induction false} GetIndirectTrace(w: World, c: Context, e: Entry, based: bool, s: State)
    requires e.kind.Indirect? && s.indirs < w.indirMax && c.depth < w.nameMax
    ensures Fetches(e, s, GetIndirect(w, c, e, based, s))
  {
    hide Lists;
  }

  lemma {:induction false} GetTrace(w: World, c: Context, e: Entry, off: int, up: int, s: State)
    ensures Fetches(e, s, Get(w, c, e, off, up, s))
  {
    hide GetUse, GetIndirect;
    if s.indirs < w.indirMax && c.depth < w.nameMax && w.resolve(e, c, off, up).At? {
      var t := s.(offset := w.resolve(e, c, off, up).offset);
      match e.kind
      case Use(name, flips) => GetUseTrace(w, c, e, name, flips, t);
      case Indirect(based) => GetIndirectTrace(w, c, e, based, t);
      case _ =>
    }
  }

  /** A test finds something only by a scan of its own, and writes no log of this one. */
  lemma {:induction false} TryTrace(w: World, c: Context, e: Entry, off: int, up: int, s: State)
    ensures match Try(w, c, e, off, up, s)
            case Broke(_) => true
            case Missed(t, _) => t.log == s.log && t.found == s.found
            case Met(t, finds, _) =>
              t.log == s.log && t.found == (s.found || finds) && (finds ==> e.kind.Use? || e.kind.Indirect?)
  {
    hide Get;
    GetTrace(w, c, e, off, up, s);
  }

  /** One entry is one event. */
  lemma {:induction false} OneTrace(w: World, c: Context, es: seq<Entry>, i: nat, level: nat, s: State)
      returns (ev: Event)
    requires i < |es| && 0 < level < |s.li|
    ensures var r := One(w, c, es, i, level, s);
      && ev.i == i && ev.up == s.li[level - 1].off && StepLog(r) == s.log + [ev]
      && (!r.Bad? ==> r.s.found == (s.found || Gives(es, ev)))
      && (r.Down? <==> ev.fired && ev.end.Some?) && (r.Down? ==> ev.end == Some(r.s.li[level].off))
  {
    hide Try, Continue;
    var up := s.li[level - 1].off;
    TryTrace(w, c, es[i], Place(es[i], up), up, s);
    var r := One(w, c, es, i, level, s);
    if !r.Bad? {
      var t := Try(w, c, es[i], Place(es[i], up), up, s).s;
      Levels.ContinueKeeps(w, c, es[i], SetGot(t, level, !es[i].kind.Clear?));
      ContinueTrace(w, c, es[i], SetGot(t, level, !es[i].kind.Clear?));
    }
    ev := StepLog(r)[|s.log|];
  }

  lemma {:induction false} ContinueTrace(w: World, c: Context, e: Entry, s: State)
    ensures Continue(w, c, e, s).log == s.log && Continue(w, c, e, s).found == (s.found || e.desc != "")
    ensures Announce(w, c, e, s).log == s.log && Announce(w, c, e, s).found == (s.found || e.desc != "")
  {}

  lemma {:induction false} HeadTrace(w: World, c: Context, es: seq<Entry>, i: nat, s: State) returns (l: seq<Event>)
    requires i < |es| && 0 < |s.li|
    ensures var r := Head(w, c, es, i, s);
      && StepLog(r) == s.log + l
      && (if Applies(w, c, es[i]) then |l| == 1 && l[0].i == i && l[0].up == 0 else l == [])
      && (!r.Bad? ==> r.s.found == (s.found || (l != [] && Gives(es, l[0]))))
      && (r.Bad? ==> l != []) && (r.Down? <==> Entering(l))
      && (r.Down? ==> l[0].end == Some(r.s.li[0].off))
  {
    hide Try, Announce;
    TryTrace(w, c, es[i], es[i].offset, 0, s);
    var r := Head(w, c, es, i, s);
    if !r.Bad? && Applies(w, c, es[i]) {
      var t := Try(w, c, es[i], es[i].offset, 0, s).s;
      Levels.ContinueKeeps(w, c, es[i], t);
      ContinueTrace(w, c, es[i], t);
    }
    l := StepLog(r)[|s.log|..];
  }

  // ---------- a level ----------

  /** The log of the entries from i to j at this level and above: tested are those of the level, and
      those that depend on a match that ended inside the file. */
  ghost predicate Traced(es: seq<Entry>, level: nat, i: nat, j: nat, l: seq<Event>) {
    && j <= |es| && Ranges(l, i, j)
    && forall k :: i <= k < j ==> (Tested(l, k) <==> es[k].level == level || Depended(es, l, i, k))
  }

  ghost predicate Depended(es: seq<Entry>, l: seq<Event>, i: nat, k: nat) {
    exists p: nat :: i <= p && Depends(es, p, k) && Entered(l, p)
  }

  /** Behind the span of i nothing depends on an entry inside it. */
  lemma {:induction false} Apart(es: seq<Entry>, level: nat, i: nat, m: nat, p: nat, k: nat)
    requires Spans(es, level, i, m) && i <= p < m <= k
    ensures !Depends(es, p, k)
  {}

  /** i is an entry of the level, and those behind it up to m are above. */
  ghost predicate Heads(es: seq<Entry>, level: nat, i: nat, m: nat) {
    i < m <= |es| && es[i].level == level && forall k :: i < k < m ==> es[k].level > level
  }

  lemma {:induction false} Inside(es: seq<Entry>, level: nat, i: nat, m: nat, k: nat)
    requires Heads(es, level, i, m) && i < k < m
    ensures Depends(es, i, k) <==> es[k].level == level + 1
  {}

  /** An entry, the entries that depend on it, and its siblings. */
  lemma {:induction false} NodeTraced(es: seq<Entry>, level: nat, i: nat, m: nat, j: nat, ev: Event, kids: seq<Event>,
                                      others: seq<Event>)
    requires Heads(es, level, i, m) && m <= j && ev.i == i && (m < j ==> Spans(es, level, i, m))
    requires if ev.fired && ev.end.Some? then Traced(es, level + 1, i + 1, m, kids) else kids == []
    requires Traced(es, level, m, j, others)
    ensures Traced(es, level, i, j, [ev] + kids + others)
  {
    hide Tested, Entered, Depends, Ranges, Gives, Given;
    var l := [ev] + kids + others;
    OneEvent(es, ev, i);
    RangesWiden([ev], i, i + 1, i, j);
    if kids == [] { NoRange(i, j); } else { RangesWiden(kids, i + 1, m, i, j); }
    RangesWiden(others, m, j, i, j);
    RangesConcat([ev], kids, i, j);
    RangesConcat([ev] + kids, others, i, j);
    forall k: nat | i <= k < j ensures Tested(l, k) <==> es[k].level == level || Depended(es, l, i, k) {
      if k == i {
        LogParts(es, ev, kids, others, k);
      } else if k < m {
        InsideTraced(es, level, i, m, j, ev, kids, others, k);
      } else {
        BehindTraced(es, level, i, m, j, ev, kids, others, k);
      }
    }
  }

  /** The same when an error occurs at the entry or among those that depend on it. */
  lemma {:induction false} NodeCut(es: seq<Entry>, level: nat, i: nat, j: nat, ev: Event, kids: seq<Event>)
    requires Heads(es, level, i, j) && ev.i == i
    requires if ev.fired && ev.end.Some? then Traced(es, level + 1, i + 1, j, kids) else kids == []
    ensures Traced(es, level, i, j, [ev] + kids)
  {
    hide Traced;
    NoneTraced(es, level, j);
    NodeTraced(es, level, i, j, j, ev, kids, []);
    assert [ev] + kids + [] == [ev] + kids;
  }

  lemma {:induction false} NoRange(i: nat, j: nat)
    ensures Ranges([], i, j)
  {}

  lemma {:induction false} LogParts(es: seq<Entry>, ev: Event, kids: seq<Event>, others: seq<Event>, k: nat)
    ensures var l := [ev] + kids + others;
      && (Tested(l, k) <==> k == ev.i || Tested(kids, k) || Tested(others, k))
      && (Entered(l, k) <==> (k == ev.i && ev.fired && ev.end.Some?) || Entered(kids, k) || Entered(others, k))
      && (Given(es, l, k) <==> (ev.i < k && Gives(es, ev)) || Given(es, kids, k) || Given(es, others, k))
  {
    hide Tested, Entered, Given, Gives;
    InConcat([ev], kids, k);
    InConcat([ev] + kids, others, k);
    GivenConcat(es, [ev], kids, k);
    GivenConcat(es, [ev] + kids, others, k);
    OneEvent(es, ev, k);
  }

  lemma {:induction false} InsideTraced(es: seq<Entry>, level: nat, i: nat, m: nat, j: nat, ev: Event,
                                        kids: seq<Event>, others: seq<Event>, k: nat)
    requires Heads(es, level, i, m) && i < k < m <= j && ev.i == i && Ranges(others, m, j)
    requires if ev.fired && ev.end.Some? then Traced(es, level + 1, i + 1, m, kids) else kids == []
    ensures var l := [ev] + kids + others; Tested(l, k) <==> es[k].level == level || Depended(es, l, i, k)
  {
    hide Tested, Entered, Depends, Ranges, Given;
    var l := [ev] + kids + others;
    LogParts(es, ev, kids, others, k);
    OutOfRange(others, m, j, k);
    forall p: nat | p < m
      ensures Entered(l, p) <==> (p == i && ev.fired && ev.end.Some?) || Entered(kids, p)
    {
      LogParts(es, ev, kids, others, p);
      OutOfRange(others, m, j, p);
    }
    DependsEarlier(es, k);
    Inside(es, level, i, m, k);
    if ev.fired && ev.end.Some? {
      forall p: nat | p <= i ensures !Entered(kids, p) { OutOfRange(kids, i + 1, m, p); }
    } else {
      forall p: nat ensures !Entered(kids, p) && !Tested(kids, p) { NoEvents(p); }
    }
  }

  lemma {:induction false} BehindTraced(es: seq<Entry>, level: nat, i: nat, m: nat, j: nat, ev: Event,
                                        kids: seq<Event>, others: seq<Event>, k: nat)
    requires Spans(es, level, i, m) && m <= k < j && ev.i == i && Traced(es, level, m, j, others)
    requires if ev.fired && ev.end.Some? then Traced(es, level + 1, i + 1, m, kids) else kids == []
    ensures var l := [ev] + kids + others; Tested(l, k) <==> es[k].level == level || Depended(es, l, i, k)
  {
    hide Tested, Entered, Depends, Ranges, Given;
    var l := [ev] + kids + others;
    forall p: nat | p >= m
      ensures (Entered(l, p) <==> Entered(others, p)) && (Tested(l, p) <==> Tested(others, p))
    {
      LogParts(es, ev, kids, others, p);
      if kids == [] { NoEvents(p); } else { OutOfRange(kids, i + 1, m, p); }
    }
    forall p: nat | i <= p < m ensures !Depends(es, p, k) { Apart(es, level, i, m, p, k); }
  }

  lemma {:induction false} DependsEarlier(es: seq<Entry>, k: nat)
    ensures forall p: nat :: Depends(es, p, k) ==> p < k
  {}

  lemma {:induction false} NoEvents(k: nat)
    ensures !Tested([], k) && !Entered([], k)
  {}

  // ---------- the ends handed down ----------

  /** Each entry has been tested from the end of the match it depends on. */
  ghost predicate Handed(es: seq<Entry>, l: seq<Event>) {
    forall m, n :: 0 <= m < |l| && 0 <= n < |l| && Depends(es, l[m].i, l[n].i) ==> l[m].end == Some(l[n].up)
  }

  /** The entries of this level have been tested from this end. */
  ghost predicate Seen(es: seq<Entry>, l: seq<Event>, level: nat, up: int) {
    forall n :: 0 <= n < |l| && l[n].i < |es| && es[l[n].i].level == level ==> l[n].up == up
  }

  lemma {:induction false} NoneHanded(es: seq<Entry>, level: nat, up: int)
    ensures Handed(es, []) && Seen(es, [], level, up)
  {}

  lemma {:induction false} NodeHanded(es: seq<Entry>, level: nat, i: nat, m: nat, j: nat, ev: Event, kids: seq<Event>,
                                      others: seq<Event>, up: int)
    requires Heads(es, level, i, m) && m <= j <= |es| && (m < j ==> Spans(es, level, i, m))
    requires ev.i == i && ev.up == up && Ranges(kids, i + 1, m) && Ranges(others, m, j)
    requires Handed(es, kids) && (kids != [] ==> ev.end.Some? && Seen(es, kids, level + 1, ev.end.value))
    requires Handed(es, others) && Seen(es, others, level, up)
    ensures Handed(es, [ev] + kids + others) && Seen(es, [ev] + kids + others, level, up)
  {
    hide Depends, Handed, Seen, Spans;
    DependsUpward(es);
    assert Handed(es, [ev] + kids) && Seen(es, [ev] + kids, level, up) by {
      HandedFirst(es, level, i, m, ev, kids);
    }
    RangesWiden(kids, i + 1, m, i, m);
    OneEvent(es, ev, 0);
    RangesWiden([ev], i, i + 1, i, m);
    RangesConcat([ev], kids, i, m);
    HandedBehind(es, level, i, m, j, [ev] + kids, others, up);
  }

  lemma {:induction false} DependsUpward(es: seq<Entry>)
    ensures forall p: nat, k: nat {:trigger Depends(es, p, k)} :: Depends(es, p, k) ==> p < k
  {}

  lemma {:induction false} HandedFirst(es: seq<Entry>, level: nat, i: nat, m: nat, ev: Event, kids: seq<Event>)
    requires Heads(es, level, i, m) && ev.i == i && Ranges(kids, i + 1, m)
    requires Handed(es, kids) && (kids != [] ==> ev.end.Some? && Seen(es, kids, level + 1, ev.end.value))
    ensures Handed(es, [ev] + kids) && Seen(es, [ev] + kids, level, ev.up)
  {
    hide Depends;
    var l := [ev] + kids;
    assert forall n :: 0 < n < |l| ==> l[n] == kids[n - 1];
    DependsUpward(es);
    forall a, b | 0 <= a < |l| && 0 <= b < |l| && Depends(es, l[a].i, l[b].i) ensures l[a].end == Some(l[b].up) {
      if a == 0 && b > 0 {
        Inside(es, level, i, m, l[b].i);
      } else if a > 0 && b > 0 {
        assert Depends(es, kids[a - 1].i, kids[b - 1].i);
      }
    }
  }

  lemma {:induction false} HandedBehind(es: seq<Entry>, level: nat, i: nat, m: nat, j: nat, front: seq<Event>,
                                        others: seq<Event>, up: int)
    requires m <= j && (m < j ==> Spans(es, level, i, m)) && Ranges(front, i, m) && Ranges(others, m, j)
    requires Handed(es, front) && Seen(es, front, level, up) && Handed(es, others) && Seen(es, others, level, up)
    ensures Handed(es, front + others) && Seen(es, front + others, level, up)
  {
    hide Depends, Spans;
    var l := front + others;
    assert forall n :: |front| <= n < |l| ==> l[n] == others[n - |front|];
    DependsUpward(es);
    forall a, b | 0 <= a < |l| && 0 <= b < |l| && Depends(es, l[a].i, l[b].i) ensures l[a].end == Some(l[b].up) {
      if a < |front| <= b {
        Apart(es, level, i, m, l[a].i, l[b].i);
      } else if a >= |front| && b >= |front| {
        assert Depends(es, others[a - |front|].i, others[b - |front|].i);
      }
    }
  }

  /** Without indirect entries a sibling and its dependents leave the end it was tested from. */
  lemma {:induction false} NodeQuiet(w: World, c: Context, es: seq<Entry>, t: Tree, level: nat, s: State, u: State)
    requires t.i < |es| && Fits(es, t.kids) && 0 < level < |s.li| && Levels.NoIndirect(es)
    requires Branch(w, c, es, t, level, s) == Went(u)
    ensures level <= |u.li| && u.li[level - 1] == s.li[level - 1]
  {
    hide Branch, Levels.Marked;
    Levels.BranchMarks(w, c, es, t, level, s);
    Levels.MarkedQuiet(s, u, level, level - 1);
  }

  /** What the trees of a level write to the log: all of them, or up to the error, which is at entry
      j - 1. Without indirect entries they are tested from the end of their parent's match. */
  ghost predicate KidsLog(w: World, c: Context, es: seq<Entry>, level: nat, i: nat, s: State, l: seq<Event>, j: nat)
    requires i <= |es| && 0 < level < |s.li|
  {
    var r := Kids(w, c, es, Parse(es, level, i).0, level, s);
    && LogOf(r) == s.log + l && Traced(es, level, i, j, l) && i <= j <= Parse(es, level, i).1
    && (if r.Went? then j == Parse(es, level, i).1 && (r.s.found <==> s.found || Given(es, l, |es|))
        else EndsBefore(l, j))
    && (Levels.NoIndirect(es) ==> Handed(es, l) && Seen(es, l, level, s.li[level - 1].off))
  }

  lemma {:induction false} KidsTrace(w: World, c: Context, es: seq<Entry>, level: nat, i: nat, s: State)
      returns (l: seq<Event>, j: nat)
    requires i <= |es| && 0 < level < |s.li|
    ensures KidsLog(w, c, es, level, i, s, l, j)
    decreases |es| - i, 2
  {
    hide One, Kids, Traced, Given, Handed, Seen, Levels.NoIndirect;
    if i == |es| || es[i].level < level {
      SoftMagic.NoKids(w, c, es, level, s);
      l, j := [], i;
      NoneTraced(es, level, i);
      NoneHanded(es, level, s.li[level - 1].off);
    } else if es[i].level > level {
      l, j := KidsTrace(w, c, es, level, i + 1, s);
      SkipTraced(es, level, i, j, l);
    } else {
      l, j := NodeTrace(w, c, es, level, i, s);
    }
  }

  lemma {:induction false} NoneTraced(es: seq<Entry>, level: nat, i: nat)
    requires i <= |es|
    ensures Traced(es, level, i, i, []) && !Given(es, [], |es|)
  {}

  lemma {:induction false} SkipTraced(es: seq<Entry>, level: nat, i: nat, j: nat, l: seq<Event>)
    requires i < |es| && es[i].level > level && Traced(es, level, i + 1, j, l) && i < j
    ensures Traced(es, level, i, j, l)
  {
    hide Tested, Entered;
    OutOfRange(l, i + 1, j, i);
    DependsEarlier(es, i);
  }

  /** What an entry and those that depend on it write to the log, up to an error at entry j - 1 if there
      is one. */
  ghost predicate NodeLog(w: World, c: Context, es: seq<Entry>, level: nat, i: nat, s: State, ev: Event,
                          kids: seq<Event>, j: nat)
    requires i < |es| && 0 < level < |s.li|
  {
    var r := Branch(w, c, es, Tree(i, Parse(es, level + 1, i + 1).0), level, s);
    && ev.i == i && ev.up == s.li[level - 1].off && LogOf(r) == s.log + ([ev] + kids)
    && i < j <= Parse(es, level + 1, i + 1).1
    && (if ev.fired && ev.end.Some? then Traced(es, level + 1, i + 1, j, kids) else kids == [])
    && (if r.Went? then
          j == Parse(es, level + 1, i + 1).1 && (r.s.found <==> s.found || Given(es, [ev] + kids, |es|))
        else EndsBefore([ev] + kids, j))
    && (Levels.NoIndirect(es) && kids != [] ==> Handed(es, kids) && Seen(es, kids, level + 1, ev.end.value))
  }

  lemma {:induction false} NodeTrace(w: World, c: Context, es: seq<Entry>, level: nat, i: nat, s: State)
      returns (l: seq<Event>, j: nat)
    requires i < |es| && 0 < level < |s.li| && es[i].level == level
    ensures KidsLog(w, c, es, level, i, s, l, j)
    decreases |es| - i, 1
  {
    hide Branch, Parse, NodeLog, KidsLog;
    var ev, kids, m := BranchTrace(w, c, es, level, i, s);
    var r := Branch(w, c, es, Tree(i, Parse(es, level + 1, i + 1).0), level, s);
    if r.Failed? {
      l, j := [ev] + kids, m;
      NodeFails(w, c, es, level, i, s, ev, kids, m);
    } else {
      var others;
      others, j := KidsTrace(w, c, es, level, Parse(es, level + 1, i + 1).1, r.s);
      l := [ev] + kids + others;
      NodeGoesOn(w, c, es, level, i, s, ev, kids, m, others, j);
    }
  }

  lemma {:induction false} BranchTrace(w: World, c: Context, es: seq<Entry>, level: nat, i: nat, s: State)
      returns (ev: Event, kids: seq<Event>, j: nat)
    requires i < |es| && 0 < level < |s.li| && es[i].level == level
    ensures NodeLog(w, c, es, level, i, s, ev, kids, j)
    decreases |es| - i, 0
  {
    hide One, Kids, Traced, Given, Parse, Gives, Handed, Seen, Levels.NoIndirect;
    ev := OneTrace(w, c, es, i, level, s);
    var r := One(w, c, es, i, level, s);
    OneEvent(es, ev, |es|);
    if r.Down? {
      kids, j := KidsTrace(w, c, es, level + 1, i + 1, r.s);
      GivenConcat(es, [ev], kids, |es|);
      assert s.log + [ev] + kids == s.log + ([ev] + kids);
    } else {
      kids, j := [], if r.Bad? then i + 1 else Parse(es, level + 1, i + 1).1;
      assert [ev] + kids == [ev];
    }
  }

  /** The trees of a level from one of its entries on. */
  lemma {:induction false} KidsBranch(w: World, c: Context, es: seq<Entry>, level: nat, i: nat, s: State)
    requires i < |es| && 0 < level < |s.li| && es[i].level == level
    ensures var (kids, m) := Parse(es, level + 1, i + 1);
      Kids(w, c, es, Parse(es, level, i).0, level, s) ==
      match Branch(w, c, es, Tree(i, kids), level, s)
      case Failed(l) => Failed(l)
      case Went(t) => Kids(w, c, es, Parse(es, level, m).0, level, t)
    ensures Parse(es, level, i).1 == Parse(es, level, Parse(es, level + 1, i + 1).1).1
    ensures Spans(es, level, i, Parse(es, level + 1, i + 1).1)
  {
    hide One, Kids, Parse;
    var (kids, m) := Parse(es, level + 1, i + 1);
    SoftMagic.ParseHere(es, i, level);
    SoftMagic.KidsFirst(w, c, es, Tree(i, kids), Parse(es, level, m).0, level, s);
  }

  lemma {:induction false} NodeFails(w: World, c: Context, es: seq<Entry>, level: nat, i: nat, s: State, ev: Event,
                                     kids: seq<Event>, j: nat)
    requires i < |es| && 0 < level < |s.li| && es[i].level == level && NodeLog(w, c, es, level, i, s, ev, kids, j)
    requires Branch(w, c, es, Tree(i, Parse(es, level + 1, i + 1).0), level, s).Failed?
    ensures KidsLog(w, c, es, level, i, s, [ev] + kids, j)
  {
    hide Branch, Kids, Traced, Given, Parse, Handed, Seen, Levels.NoIndirect, Spans, Heads;
    KidsBranch(w, c, es, level, i, s);
    HeadsLess(es, level, i, Parse(es, level + 1, i + 1).1, j);
    NodeCut(es, level, i, j, ev, kids);
    if Levels.NoIndirect(es) { CutHanded(es, level, i, j, ev, kids); }
  }

  lemma {:induction false} NodeGoesOn(w: World, c: Context, es: seq<Entry>, level: nat, i: nat, s: State, ev: Event,
                                      kids: seq<Event>, m: nat, others: seq<Event>, j: nat)
    requires i < |es| && 0 < level < |s.li| && es[i].level == level && NodeLog(w, c, es, level, i, s, ev, kids, m)
    requires var r := Branch(w, c, es, Tree(i, Parse(es, level + 1, i + 1).0), level, s);
      r.Went? && KidsLog(w, c, es, level, Parse(es, level + 1, i + 1).1, r.s, others, j)
    ensures KidsLog(w, c, es, level, i, s, [ev] + kids + others, j)
  {
    hide Branch, Kids, Traced, Given, Parse, Handed, Seen, Levels.NoIndirect, Spans, Heads;
    KidsBranch(w, c, es, level, i, s);
    HeadsLess(es, level, i, m, m);
    NodeTraced(es, level, i, m, j, ev, kids, others);
    GivenConcat(es, [ev] + kids, others, |es|);
    var t := Tree(i, Parse(es, level + 1, i + 1).0);
    if Levels.NoIndirect(es) {
      NodeQuiet(w, c, es, t, level, s, Branch(w, c, es, t, level, s).s);
      SiblingsHanded(es, level, i, m, j, ev, kids, others);
    }
    var l := [ev] + kids + others;
    assert s.log + ([ev] + kids) + others == s.log + l;
    if others != [] { assert l[|l| - 1] == others[|others| - 1]; }
  }

  lemma {:induction false} HeadsLess(es: seq<Entry>, level: nat, i: nat, m: nat, j: nat)
    requires Spans(es, level, i, m) && i < j <= m
    ensures Heads(es, level, i, j)
  {}

  lemma {:induction false} CutHanded(es: seq<Entry>, level: nat, i: nat, j: nat, ev: Event, kids: seq<Event>)
    requires Heads(es, level, i, j) && ev.i == i
    requires if ev.fired && ev.end.Some? then Traced(es, level + 1, i + 1, j, kids) else kids == []
    requires kids != [] ==> Handed(es, kids) && Seen(es, kids, level + 1, ev.end.value)
    ensures Handed(es, [ev] + kids) && Seen(es, [ev] + kids, level, ev.up)
  {
    hide Handed, Seen;
    NoneTraced(es, level, j);
    NoneHanded(es, level, ev.up);
    SiblingsHanded(es, level, i, j, j, ev, kids, []);
    assert [ev] + kids + [] == [ev] + kids;
  }

  lemma {:induction false} SiblingsHanded(es: seq<Entry>, level: nat, i: nat, m: nat, j: nat, ev: Event,
                                          kids: seq<Event>, others: seq<Event>)
    requires Heads(es, level, i, m) && m <= j && (m < j ==> Spans(es, level, i, m)) && ev.i == i
    requires if ev.fired && ev.end.Some? then Traced(es, level + 1, i + 1, m, kids) else kids == []
    requires Traced(es, level, m, j, others)
    requires kids != [] ==> Handed(es, kids) && Seen(es, kids, level + 1, ev.end.value)
    requires Handed(es, others) && Seen(es, others, level, ev.up)
    ensures Handed(es, [ev] + kids + others) && Seen(es, [ev] + kids + others, level, ev.up)
  {
    hide Handed, Seen, Tested, Spans;
    if kids == [] {
      NoneHanded(es, level + 1, 0);
      NoRange(i + 1, m);
    }
    NodeHanded(es, level, i, m, j, ev, kids, others, ev.up);
  }

  // ---------- the groups ----------

  /** An earlier group has stopped the scan: its top-level match ended inside the file, and by its end
      something had been found. */
  ghost predicate Stopped(w: World, es: seq<Entry>, found: bool, l: seq<Event>, i: nat, k: nat)
    requires k <= |es|
  {
    !w.all && exists q: nat :: i <= q < k && es[q].level == 0 && Entered(l, q) && (found || Given(es, l, Next(es, q)))
  }

  /** The log of the groups from i to j: tested are the top-level entries that apply, up to where the
      scan stops, and the entries that depend on a match that ended inside the file. */
  ghost predicate GroupsTraced(w: World, c: Context, es: seq<Entry>, found: bool, i: nat, j: nat, l: seq<Event>) {
    && j <= |es| && Ranges(l, i, j)
    && (forall k :: i <= k < j && es[k].level > 0 ==> (Tested(l, k) <==> Depended(es, l, i, k)))
    && (forall k :: i <= k < j && es[k].level == 0 ==>
        (Tested(l, k) <==> Applies(w, c, es[k]) && !Stopped(w, es, found, l, i, k)))
  }

  /** A group: its own event if it applies, those of its continuations, and those of later groups. */
  datatype Group = Group(own: seq<Event>, kids: seq<Event>, later: seq<Event>, stops: bool) {
    function Log(): seq<Event> { own + kids + later }
  }

  ghost predicate Found(es: seq<Entry>, found: bool, g: Group, m: nat) {
    found || Given(es, g.own + g.kids, m)
  }

  ghost predicate IsGroup(w: World, c: Context, es: seq<Entry>, found: bool, i: nat, m: nat, j: nat, g: Group) {
    && i < m <= j <= |es| && es[i].level == 0 && Next(es, i) == m
    && (if Applies(w, c, es[i]) then |g.own| == 1 && g.own[0].i == i else g.own == [])
    && (if Entering(g.own) then Traced(es, 1, i + 1, m, g.kids) else g.kids == [])
    && (g.stops <==> Entering(g.own) && Found(es, found, g, m) && !w.all)
    && (if g.stops then g.later == [] else GroupsTraced(w, c, es, Found(es, found, g, m), m, j, g.later))
  }

  lemma {:induction false} GroupRanges(w: World, c: Context, es: seq<Entry>, found: bool, i: nat, m: nat, j: nat,
                                       g: Group)
    requires IsGroup(w, c, es, found, i, m, j, g)
    ensures Ranges(g.own, i, i + 1) && Ranges(g.kids, i + 1, m) && Ranges(g.later, m, j)
    ensures Ranges(g.Log(), i, j)
  {
    hide Applies, Found, Tested;
    RangesWiden(g.own, i, i + 1, i, j);
    RangesWiden(g.kids, i + 1, m, i, j);
    RangesWiden(g.later, m, j, i, j);
    RangesConcat(g.own, g.kids, i, j);
    RangesConcat(g.own + g.kids, g.later, i, j);
  }

  lemma {:induction false} GroupParts(w: World, c: Context, es: seq<Entry>, found: bool, i: nat, m: nat, j: nat,
                                      g: Group, k: nat)
    requires IsGroup(w, c, es, found, i, m, j, g)
    ensures Tested(g.Log(), k) <==> (k == i && g.own != []) || Tested(g.kids, k) || Tested(g.later, k)
    ensures Entered(g.Log(), k) <==> (k == i && Entering(g.own)) || Entered(g.kids, k) || Entered(g.later, k)
  {
    InConcat(g.own, g.kids, k);
    InConcat(g.own + g.kids, g.later, k);
    if g.own != [] {
      assert g.own == [g.own[0]];
      OneEvent(es, g.own[0], k);
    } else {
      NoEvents(k);
    }
  }

  /** What had been found by the end of this group, or of a later one. */
  lemma {:induction false} GroupGiven(w: World, c: Context, es: seq<Entry>, found: bool, i: nat, m: nat, j: nat,
                                      g: Group, n: nat)
    requires IsGroup(w, c, es, found, i, m, j, g) && m <= n
    ensures found || Given(es, g.Log(), n) <==> Found(es, found, g, m) || Given(es, g.later, n)
    ensures !Given(es, g.later, m)
  {
    hide Gives, Tested, Entered;
    GroupRanges(w, c, es, found, i, m, j, g);
    GivenConcat(es, g.own + g.kids, g.later, n);
    RangesWiden(g.own, i, i + 1, i, m);
    RangesWiden(g.kids, i + 1, m, i, m);
    RangesConcat(g.own, g.kids, i, m);
    GivenWithin(es, g.own + g.kids, i, m, n);
    NotGivenBefore(es, g.later, m, j);
  }

  lemma {:induction false} GivenWithin(es: seq<Entry>, l: seq<Event>, i: nat, m: nat, n: nat)
    requires Ranges(l, i, m) && m <= n
    ensures Given(es, l, n) <==> Given(es, l, m)
  {
    hide Gives;
  }

  lemma {:induction false} NotGivenBefore(es: seq<Entry>, l: seq<Event>, m: nat, j: nat)
    requires Ranges(l, m, j)
    ensures !Given(es, l, m)
  {
    hide Gives;
  }

  lemma {:induction false} GroupInside(w: World, c: Context, es: seq<Entry>, found: bool, i: nat, m: nat, j: nat,
                                       g: Group, k: nat)
    requires IsGroup(w, c, es, found, i, m, j, g) && i < k < m
    ensures Tested(g.Log(), k) <==> Depended(es, g.Log(), i, k)
  {
    hide Tested, Entered, Depends, Ranges, Given, Applies;
    GroupRanges(w, c, es, found, i, m, j, g);
    GroupParts(w, c, es, found, i, m, j, g, k);
    OutOfRange(g.later, m, j, k);
    forall p: nat | p < m
      ensures Entered(g.Log(), p) <==> (p == i && Entering(g.own)) || Entered(g.kids, p)
    {
      GroupParts(w, c, es, found, i, m, j, g, p);
      OutOfRange(g.later, m, j, p);
    }
    DependsEarlier(es, k);
    SpansGroup(es, i, m);
    Inside(es, 0, i, m, k);
    if Entering(g.own) {
      forall p: nat | p <= i ensures !Entered(g.kids, p) { OutOfRange(g.kids, i + 1, m, p); }
    } else {
      forall p: nat ensures !Entered(g.kids, p) && !Tested(g.kids, p) { NoEvents(p); }
    }
  }

  lemma {:induction false} SpansGroup(es: seq<Entry>, i: nat, m: nat)
    requires i < |es| && es[i].level == 0 && m == Next(es, i)
    ensures Spans(es, 0, i, m)
  {}

  lemma {:induction false} GroupBehind(w: World, c: Context, es: seq<Entry>, found: bool, i: nat, m: nat, j: nat,
                                       g: Group, k: nat)
    requires IsGroup(w, c, es, found, i, m, j, g) && m <= k < j && es[k].level > 0
    ensures Tested(g.Log(), k) <==> Depended(es, g.Log(), i, k)
  {
    hide Tested, Entered, Depends, Ranges, Given, Applies, Found, Stopped;
    GroupRanges(w, c, es, found, i, m, j, g);
    forall p: nat | p >= m
      ensures (Entered(g.Log(), p) <==> Entered(g.later, p)) && (Tested(g.Log(), p) <==> Tested(g.later, p))
    {
      GroupParts(w, c, es, found, i, m, j, g, p);
      OutOfRange(g.kids, i + 1, m, p);
    }
    SpansGroup(es, i, m);
    forall p: nat | i <= p < m ensures !Depends(es, p, k) { Apart(es, 0, i, m, p, k); }
    forall p: nat ensures !Entered([], p) && !Tested([], p) { NoEvents(p); }
  }

  lemma {:induction false} GroupNext(w: World, c: Context, es: seq<Entry>, found: bool, i: nat, m: nat, j: nat,
                                     g: Group, k: nat)
    requires IsGroup(w, c, es, found, i, m, j, g) && m <= k < j && es[k].level == 0
    ensures Tested(g.Log(), k) <==> Applies(w, c, es[k]) && !Stopped(w, es, found, g.Log(), i, k)
  {
    hide Tested, Entered, Given, Applies, Found, Ranges, Traced;
    GroupRanges(w, c, es, found, i, m, j, g);
    GroupParts(w, c, es, found, i, m, j, g, k);
    OutOfRange(g.kids, i + 1, m, k);
    GroupParts(w, c, es, found, i, m, j, g, i);
    GroupGiven(w, c, es, found, i, m, j, g, m);
    if g.stops {
      NoEvents(k);
      assert Stopped(w, es, found, g.Log(), i, k);
    } else {
      LaterStops(w, c, es, found, i, m, j, g, k);
    }
  }

  lemma {:induction false} LaterStops(w: World, c: Context, es: seq<Entry>, found: bool, i: nat, m: nat, j: nat,
                                      g: Group, k: nat)
    requires IsGroup(w, c, es, found, i, m, j, g) && m <= k < j && !g.stops
    ensures Stopped(w, es, found, g.Log(), i, k) <==> Stopped(w, es, Found(es, found, g, m), g.later, m, k)
  {
    hide Tested, Entered, Given, Applies, Found, Ranges, Traced, GroupsTraced;
    GroupRanges(w, c, es, found, i, m, j, g);
    forall q: nat | q < k && es[q].level == 0
      ensures i <= q && Entered(g.Log(), q) && (found || Given(es, g.Log(), Next(es, q))) && !w.all <==>
              m <= q && Entered(g.later, q) && (Found(es, found, g, m) || Given(es, g.later, Next(es, q))) && !w.all
    {
      GroupParts(w, c, es, found, i, m, j, g, q);
      OutOfRange(g.kids, i + 1, m, i);
      OutOfRange(g.later, m, j, i);
      GroupGiven(w, c, es, found, i, m, j, g, m);
      if m <= q {
        OutOfRange(g.kids, i + 1, m, q);
        GroupGiven(w, c, es, found, i, m, j, g, Next(es, q));
      }
    }
  }

  lemma {:induction false} GroupTraced(w: World, c: Context, es: seq<Entry>, found: bool, i: nat, m: nat, j: nat,
                                       g: Group)
    requires IsGroup(w, c, es, found, i, m, j, g)
    ensures GroupsTraced(w, c, es, found, i, j, g.Log())
  {
    hide Tested, Entered, Given, Applies, Found, Ranges, Traced, Depended, Stopped, IsGroup;
    GroupRanges(w, c, es, found, i, m, j, g);
    GroupBounds(w, c, es, found, i, m, j, g);
    var l := g.Log();
    forall k | i <= k < j && es[k].level > 0 ensures Tested(l, k) <==> Depended(es, l, i, k) {
      if k < m { GroupInside(w, c, es, found, i, m, j, g, k); } else { GroupBehind(w, c, es, found, i, m, j, g, k); }
    }
    forall k | i <= k < j && es[k].level == 0
      ensures Tested(l, k) <==> Applies(w, c, es[k]) && !Stopped(w, es, found, l, i, k)
    {
      if k == i { GroupFirst(w, c, es, found, i, m, j, g); } else { GroupNext(w, c, es, found, i, m, j, g, k); }
    }
  }

  lemma {:induction false} GroupBounds(w: World, c: Context, es: seq<Entry>, found: bool, i: nat, m: nat, j: nat,
                                       g: Group)
    requires IsGroup(w, c, es, found, i, m, j, g)
    ensures i < m <= j <= |es| && es[i].level == 0 && forall k :: i < k < m ==> es[k].level > 0
  {
    hide Found, Traced, GroupsTraced, Applies;
  }

  lemma {:induction false} GroupFirst(w: World, c: Context, es: seq<Entry>, found: bool, i: nat, m: nat, j: nat,
                                      g: Group)
    requires IsGroup(w, c, es, found, i, m, j, g)
    ensures Tested(g.Log(), i) <==> Applies(w, c, es[i])
    ensures !Stopped(w, es, found, g.Log(), i, i)
  {
    hide Tested, Entered, Given, Applies, Found, Traced;
    GroupRanges(w, c, es, found, i, m, j, g);
    GroupParts(w, c, es, found, i, m, j, g, i);
    OutOfRange(g.kids, i + 1, m, i);
    OutOfRange(g.later, m, j, i);
  }

  /** The state after a group: behind its continuations if there is any need to look at them. */
  ghost function AfterGroup(w: World, c: Context, es: seq<Entry>, i: nat, s: State): (r: Outcome)
    requires i < |es| && 0 < |s.li|
    ensures r.Went? ==> 0 < |r.s.li|
  {
    match Head(w, c, es, i, s)
    case Bad(l) => Failed(l)
    case Stay(t) => Went(t)
    case Down(t) => Kids(w, c, es, Parse(es, 1, i + 1).0, 1, t)
  }

  /** The scan stops behind a group: its top-level match ended inside the file, and something has been
      found. */
  ghost predicate StopsBehind(w: World, c: Context, es: seq<Entry>, i: nat, s: State)
    requires i < |es| && 0 < |s.li|
  {
    AfterGroup(w, c, es, i, s).Went? && Head(w, c, es, i, s).Down? && AfterGroup(w, c, es, i, s).s.found && !w.all
  }

  /** The state in front of the next group. */
  ghost function NextGroup(w: World, c: Context, es: seq<Entry>, i: nat, s: State): (t: State)
    requires i < |es| && 0 < |s.li| && AfterGroup(w, c, es, i, s).Went?
    ensures 0 < |t.li|
  {
    var u := AfterGroup(w, c, es, i, s).s;
    if Head(w, c, es, i, s).Down? then EndGroup(u) else u
  }

  /** What a group writes to the log: its own event and those of its continuations, or those up to the
      error, which is at entry j - 1. */
  ghost predicate GroupLog(w: World, c: Context, es: seq<Entry>, i: nat, s: State, own: seq<Event>, kids: seq<Event>,
                           j: nat)
    requires i < |es| && 0 < |s.li|
  {
    var r := AfterGroup(w, c, es, i, s);
    && LogOf(r) == s.log + (own + kids) && i < j <= Next(es, i)
    && (if Applies(w, c, es[i]) then |own| == 1 && own[0].i == i && own[0].up == 0 else own == [])
    && (if Entering(own) then Traced(es, 1, i + 1, j, kids) else kids == [])
    && (if r.Went? then
          && j == Next(es, i) && (r.s.found <==> s.found || Given(es, own + kids, j))
          && (Entering(own) <==> Head(w, c, es, i, s).Down?)
        else own != [] && EndsBefore(own + kids, j))
    && (Levels.NoIndirect(es) ==> Handed(es, kids) && (kids != [] ==> Seen(es, kids, 1, own[0].end.value)))
  }

  lemma {:induction false} GroupTrace(w: World, c: Context, es: seq<Entry>, i: nat, s: State)
    returns (own: seq<Event>, kids: seq<Event>, j: nat)
    requires i < |es| && es[i].level == 0 && 0 < |s.li|
    ensures GroupLog(w, c, es, i, s, own, kids, j)
  {
    hide Head, Kids, Traced, Given, Applies, Parse, Gives, Handed, Seen, Levels.NoIndirect;
    own := HeadTrace(w, c, es, i, s);
    kids, j := [], Next(es, i);
    var r := Head(w, c, es, i, s);
    NoneHanded(es, 1, 0);
    if r.Bad? {
      j := i + 1;
      assert own + kids == own;
      return;
    }
    if r.Down? { kids, j := KidsTrace(w, c, es, 1, i + 1, r.s); }
    if AfterGroup(w, c, es, i, s).Went? {
      if kids == [] { NoneTraced(es, 1, i); }
      FoundInGroup(es, s.found, i, Next(es, i), own, kids);
    }
    assert s.log + own + kids == s.log + (own + kids);
  }

  /** The log of a group in which an error occurs. */
  lemma {:induction false} GroupCut(w: World, c: Context, es: seq<Entry>, found: bool, i: nat, j: nat, own: seq<Event>,
                                    kids: seq<Event>)
    requires Heads(es, 0, i, j) && Applies(w, c, es[i]) && |own| == 1 && own[0].i == i
    requires if Entering(own) then Traced(es, 1, i + 1, j, kids) else kids == []
    ensures GroupsTraced(w, c, es, found, i, j, own + kids)
  {
    hide Tested, Entered, Given, Applies;
    NodeCut(es, 0, i, j, own[0], kids);
    assert [own[0]] + kids == own + kids;
    LogParts(es, own[0], kids, [], i);
    assert own + kids + [] == own + kids;
    forall k | i < k < j && es[k].level > 0 ensures Tested(own + kids, k) <==> Depended(es, own + kids, i, k) {}
  }

  /** The groups one after the other. */
  lemma {:induction false} TopsAfter(w: World, c: Context, es: seq<Entry>, i: nat, s: State)
    requires i < |es| && 0 < |s.li|
    ensures var r := AfterGroup(w, c, es, i, s);
      Tops(w, c, es, Forest(es, i), s) ==
      if r.Failed? then r
      else if StopsBehind(w, c, es, i, s) then Went(StopHere(r.s))
      else Tops(w, c, es, Forest(es, Next(es, i)), NextGroup(w, c, es, i, s))
  {
    hide Head, Kids, Tops, Parse, Forest;
    SoftMagic.TopsFirst(w, c, es, i, s);
  }

  lemma {:induction false} GroupEnds(u: State)
    ensures StopHere(u).log == u.log && StopHere(u).found == u.found
    ensures EndGroup(u).log == u.log && EndGroup(u).found == u.found
  {}

  /** What the groups from i on write to the log: all of them, or up to the error at entry j - 1. */
  ghost predicate TopsLog(w: World, c: Context, es: seq<Entry>, i: nat, s: State, l: seq<Event>, j: nat)
    requires i <= |es| && 0 < |s.li|
  {
    var r := Tops(w, c, es, Forest(es, i), s);
    && LogOf(r) == s.log + l && (if r.Went? then j == |es| else EndsBefore(l, j))
    && GroupsTraced(w, c, es, s.found, i, j, l)
    && (Levels.NoIndirect(es) ==> Handed(es, l) && Seen(es, l, 0, 0))
  }

  lemma {:induction false} TopsTrace(w: World, c: Context, es: seq<Entry>, i: nat, s: State)
    returns (l: seq<Event>, j: nat)
    requires i <= |es| && (i < |es| ==> es[i].level == 0) && 0 < |s.li|
    ensures TopsLog(w, c, es, i, s, l, j)
    decreases |es| - i
  {
    hide Tops, GroupsTraced, Forest, AfterGroup, StopsBehind, NextGroup, GroupLog, TopsLog;
    if i == |es| {
      l, j := [], i;
      NoTops(w, c, es, s);
    } else {
      var own, kids, m := GroupTrace(w, c, es, i, s);
      if AfterGroup(w, c, es, i, s).Failed? {
        l, j := own + kids, m;
        TopsFail(w, c, es, i, s, own, kids, m);
      } else if StopsBehind(w, c, es, i, s) {
        l, j := own + kids, |es|;
        TopsStop(w, c, es, i, s, own, kids, m);
      } else {
        var later;
        later, j := TopsTrace(w, c, es, Next(es, i), NextGroup(w, c, es, i, s));
        l := own + kids + later;
        TopsGoOn(w, c, es, i, s, own, kids, m, later, j);
      }
    }
  }

  lemma {:induction false} NoTops(w: World, c: Context, es: seq<Entry>, s: State)
    requires 0 < |s.li|
    ensures TopsLog(w, c, es, |es|, s, [], |es|)
  {
    hide Tops, Forest, GroupsTraced;
    SoftMagic.NoMoreTops(w, c, es, s);
    NoGroups(w, c, es, s.found);
    NoneHanded(es, 0, 0);
  }

  lemma {:induction false} TopsFail(w: World, c: Context, es: seq<Entry>, i: nat, s: State, own: seq<Event>,
                                    kids: seq<Event>, m: nat)
    requires i < |es| && es[i].level == 0 && 0 < |s.li| && GroupLog(w, c, es, i, s, own, kids, m)
    requires AfterGroup(w, c, es, i, s).Failed?
    ensures TopsLog(w, c, es, i, s, own + kids, m)
  {
    hide Tops, Forest, GroupsTraced, Traced, Given, Applies, AfterGroup, StopsBehind, NextGroup, Next, Handed, Seen,
         Levels.NoIndirect;
    TopsAfter(w, c, es, i, s);
    NextHeads(es, i, m);
    GroupCut(w, c, es, s.found, i, m, own, kids);
    if Levels.NoIndirect(es) {
      NoneHanded(es, 0, 0);
      NoRange(m, m);
      GroupHanded(w, c, es, i, m, m, own, kids, []);
      assert own + kids + [] == own + kids;
    }
  }

  lemma {:induction false} TopsStop(w: World, c: Context, es: seq<Entry>, i: nat, s: State, own: seq<Event>,
                                    kids: seq<Event>, m: nat)
    requires i < |es| && es[i].level == 0 && 0 < |s.li| && GroupLog(w, c, es, i, s, own, kids, m)
    requires AfterGroup(w, c, es, i, s).Went? && StopsBehind(w, c, es, i, s)
    ensures TopsLog(w, c, es, i, s, own + kids, |es|)
  {
    hide Tops, Forest, GroupsTraced, Traced, Given, Applies, AfterGroup, NextGroup, Next, Handed, Seen,
         Levels.NoIndirect, StopHere, Head;
    TopsAfter(w, c, es, i, s);
    GroupEnds(AfterGroup(w, c, es, i, s).s);
    assert own + kids + [] == own + kids;
    GroupTraced(w, c, es, s.found, i, Next(es, i), |es|, Group(own, kids, [], true));
    if Levels.NoIndirect(es) {
      NoneHanded(es, 0, 0);
      NoRange(Next(es, i), |es|);
      GroupHanded(w, c, es, i, Next(es, i), |es|, own, kids, []);
    }
  }

  lemma {:induction false} TopsGoOn(w: World, c: Context, es: seq<Entry>, i: nat, s: State, own: seq<Event>,
                                    kids: seq<Event>, m: nat, later: seq<Event>, j: nat)
    requires i < |es| && es[i].level == 0 && 0 < |s.li| && GroupLog(w, c, es, i, s, own, kids, m)
    requires AfterGroup(w, c, es, i, s).Went? && !StopsBehind(w, c, es, i, s)
    requires TopsLog(w, c, es, Next(es, i), NextGroup(w, c, es, i, s), later, j)
    ensures TopsLog(w, c, es, i, s, own + kids + later, j)
  {
    hide Tops, Forest, GroupsTraced, Traced, Given, Applies, AfterGroup, Next, Handed, Seen, Levels.NoIndirect,
         EndGroup, Head;
    TopsAfter(w, c, es, i, s);
    GroupEnds(AfterGroup(w, c, es, i, s).s);
    LaterBehind(w, c, es, NextGroup(w, c, es, i, s).found, Next(es, i), j, later,
                Tops(w, c, es, Forest(es, Next(es, i)), NextGroup(w, c, es, i, s)).Went?);
    assert s.log + (own + kids) + later == s.log + (own + kids + later);
    GroupTraced(w, c, es, s.found, i, Next(es, i), j, Group(own, kids, later, false));
    if Levels.NoIndirect(es) { GroupHanded(w, c, es, i, Next(es, i), j, own, kids, later); }
    if later != [] { assert (own + kids + later)[|own + kids + later| - 1] == later[|later| - 1]; }
  }

  lemma {:induction false} LaterBehind(w: World, c: Context, es: seq<Entry>, found: bool, m: nat, j: nat,
                                       later: seq<Event>, went: bool)
    requires GroupsTraced(w, c, es, found, m, j, later) && m <= |es|
    requires if went then j == |es| else EndsBefore(later, j)
    ensures Ranges(later, m, j) && m <= j <= |es|
  {
    hide Tested, Depended, Stopped;
  }

  lemma {:induction false} NextHeads(es: seq<Entry>, i: nat, j: nat)
    requires i < |es| && i < j <= Next(es, i) && es[i].level == 0
    ensures Heads(es, 0, i, j) && (j == Next(es, i) ==> Spans(es, 0, i, j))
  {}

  lemma {:induction false} GroupHanded(w: World, c: Context, es: seq<Entry>, i: nat, m: nat, j: nat, own: seq<Event>,
                                       kids: seq<Event>, later: seq<Event>)
    requires i < |es| && es[i].level == 0 && i < m <= Next(es, i) && m <= j <= |es| && (m < j ==> m == Next(es, i))
    requires own == [] ==> kids == []
    requires own != [] ==> |own| == 1 && own[0].i == i && own[0].up == 0
    requires if Entering(own) then Traced(es, 1, i + 1, m, kids) else kids == []
    requires Handed(es, kids) && (kids != [] ==> Seen(es, kids, 1, own[0].end.value))
    requires Ranges(later, m, j) && Handed(es, later) && Seen(es, later, 0, 0)
    ensures Handed(es, own + kids + later) && Seen(es, own + kids + later, 0, 0)
  {
    hide Handed, Seen, Tested, Entered;
    if own == [] {
      assert own + kids + later == later;
    } else {
      NextHeads(es, i, m);
      if kids == [] { NoRange(i + 1, m); }
      NodeHanded(es, 0, i, m, j, own[0], kids, later, 0);
      assert [own[0]] + kids + later == own + kids + later;
    }
  }

  /** The state when it is the turn of the top-level entry k, if it ever is, from the turn of i on. */
  ghost function TopTurn(w: World, c: Context, es: seq<Entry>, i: nat, k: nat, s: State): (r: Option<State>)
    requires i <= |es| && 0 < |s.li|
    ensures r.Some? ==> 0 < |r.value.li|
    decreases |es| - i
  {
    if i == k then Some(s)
    else if i == |es| || AfterGroup(w, c, es, i, s).Failed? || StopsBehind(w, c, es, i, s) then None
    else TopTurn(w, c, es, Next(es, i), k, NextGroup(w, c, es, i, s))
  }

  /** The turn of a top-level entry comes exactly when no earlier group has failed or stopped the
      scan. */
  lemma {:induction false} TurnComes(w: World, c: Context, es: seq<Entry>, i: nat, k: nat, s: State)
    requires i <= k < |es| && es[i].level == 0 && es[k].level == 0 && 0 < |s.li|
    ensures TopTurn(w, c, es, i, k, s).Some? <==>
            forall q: nat :: i <= q < k && es[q].level == 0 && TopTurn(w, c, es, i, q, s).Some? ==>
              var t := TopTurn(w, c, es, i, q, s).value;
              AfterGroup(w, c, es, q, t).Went? && !StopsBehind(w, c, es, q, t)
    decreases |es| - i
  {
    hide AfterGroup, StopsBehind, NextGroup;
    if i < k {
      assert TopTurn(w, c, es, i, i, s) == Some(s);
      if AfterGroup(w, c, es, i, s).Went? && !StopsBehind(w, c, es, i, s) {
        var v := NextGroup(w, c, es, i, s);
        TurnComes(w, c, es, Next(es, i), k, v);
        forall q: nat | i < q <= k && es[q].level == 0
          ensures Next(es, i) <= q && TopTurn(w, c, es, i, q, s) == TopTurn(w, c, es, Next(es, i), q, v)
        {}
      }
    }
  }

  /** From its turn on the scan goes on with that entry. */
  lemma {:induction false} TopsTakeTurns(w: World, c: Context, es: seq<Entry>, i: nat, k: nat, s: State)
    requires i <= k <= |es| && 0 < |s.li| && TopTurn(w, c, es, i, k, s).Some?
    ensures Tops(w, c, es, Forest(es, i), s) == Tops(w, c, es, Forest(es, k), TopTurn(w, c, es, i, k, s).value)
    decreases |es| - i
  {
    hide AfterGroup, StopsBehind, NextGroup, Tops, Forest, StopHere;
    if i < k {
      TopsAfter(w, c, es, i, s);
      TurnsAhead(w, c, es, Next(es, i), k, NextGroup(w, c, es, i, s));
      TopsTakeTurns(w, c, es, Next(es, i), k, NextGroup(w, c, es, i, s));
    }
  }

  lemma {:induction false} TurnsAhead(w: World, c: Context, es: seq<Entry>, i: nat, k: nat, s: State)
    requires i <= |es| && 0 < |s.li| && TopTurn(w, c, es, i, k, s).Some?
    ensures i <= k
    decreases |es| - i
  {
    hide AfterGroup, StopsBehind, NextGroup;
    if i != k { TurnsAhead(w, c, es, Next(es, i), k, NextGroup(w, c, es, i, s)); }
  }

  lemma {:induction false} NoGroups(w: World, c: Context, es: seq<Entry>, found: bool)
    ensures GroupsTraced(w, c, es, found, |es|, |es|, [])
  {}

  lemma {:induction false} FoundInGroup(es: seq<Entry>, found: bool, i: nat, m: nat, own: seq<Event>, kids: seq<Event>)
    requires i < m <= |es| && |own| <= 1 && (own != [] ==> own[0].i == i)
    requires kids == [] || Traced(es, 1, i + 1, m, kids)
    ensures found || Given(es, own + kids, m) <==> (found || (own != [] && Gives(es, own[0]))) || Given(es, kids, |es|)
  {
    hide Gives, Tested;
    GivenConcat(es, own, kids, m);
    if own != [] {
      assert own == [own[0]];
      OneEvent(es, own[0], m);
    }
    if kids != [] { GivenWithin(es, kids, i + 1, m, |es|); }
  }

  // ---------- the whole list ----------

  /** The log of a list that has been scanned to its end, to where the scan stops, or to an error. */
  ghost predicate IsLog(w: World, c: Context, es: seq<Entry>, s: State, l: seq<Event>) {
    LogOf(Scan(w, c, es, s)) == s.log + l
  }

  /** No error has occurred in front of the entry: if there is one at all, it is at the last entry
      tested. */
  ghost predicate Reached(w: World, c: Context, es: seq<Entry>, s: State, l: seq<Event>, k: nat) {
    Scan(w, c, es, s).Went? || (l != [] && k <= l[|l| - 1].i)
  }

  lemma {:induction false} LogTraced(w: World, c: Context, es: seq<Entry>, s: State, l: seq<Event>) returns (j: nat)
    requires IsLog(w, c, es, s, l) && es != [] && es[0].level == 0
    ensures GroupsTraced(w, c, es, s.found, 0, j, l)
    ensures if Scan(w, c, es, s).Went? then j == |es| else EndsBefore(l, j)
    ensures Levels.NoIndirect(es) ==> Handed(es, l)
  {
    hide Tops, GroupsTraced, Handed, Seen, Levels.NoIndirect;
    var m: seq<Event>;
    m, j := TopsTrace(w, c, es, 0, Descend(s, 0));
    SameSuffix(s.log, l, m);
  }

  lemma {:induction false} SameSuffix(a: seq<Event>, l: seq<Event>, m: seq<Event>)
    requires a + l == a + m
    ensures l == m
  {
    assert l == (a + l)[|a|..] && m == (a + m)[|a|..];
  }

  /** An entry above level 0 is tested exactly when the nearest preceding entry of a lower level is
      one level lower and has matched, with the end of its match inside the file. A top-level entry
      is tested exactly when it applies and no earlier group, whose top-level match ended inside the
      file, has left something found. Behind an error nothing is tested. */
  lemma {:induction false} TestedEntries(w: World, c: Context, es: seq<Entry>, s: State, l: seq<Event>, k: nat)
    requires IsLog(w, c, es, s, l) && k < |es| && es[0].level == 0
    ensures Reached(w, c, es, s, l, k) && es[k].level > 0 ==>
              (Tested(l, k) <==> exists p: nat :: Depends(es, p, k) && Entered(l, p))
    ensures Reached(w, c, es, s, l, k) && es[k].level == 0 ==>
              (Tested(l, k) <==>
               Applies(w, c, es[k])
               && (w.all || !exists q: nat :: q < k && es[q].level == 0 && Entered(l, q)
                                              && (s.found || Given(es, l, Next(es, q)))))
    ensures !Reached(w, c, es, s, l, k) ==> !Tested(l, k)
  {
    hide Scan, Tested, Entered, Depends, Given, Applies;
    var j := LogTraced(w, c, es, s, l);
    if k >= j { OutOfRange(l, 0, j, k); }
    if p: nat :| Depends(es, p, k) && Entered(l, p) { assert 0 <= p && Depended(es, l, 0, k); }
  }

  /** In a list without indirect entries every entry above level 0 that is tested has been tested from
      the end that was recorded when the entry it depends on matched, used lists or not. */
  lemma {:induction false} EndHandedDown(w: World, c: Context, es: seq<Entry>, s: State, l: seq<Event>, p: nat, n: nat)
    requires IsLog(w, c, es, s, l) && es != [] && es[0].level == 0 && Levels.NoIndirect(es)
    requires n < |l| && Depends(es, p, l[n].i)
    ensures Entered(l, p) && forall m :: 0 <= m < |l| && l[m].i == p ==> l[m].end == Some(l[n].up)
  {
    hide Scan, Depends, Given, Applies, Levels.NoIndirect, IsLog;
    var j := LogTraced(w, c, es, s, l);
    var k := l[n].i;
    assert Tested(l, k);
    DependsOnOne(es, p, k);
    TestedEntries(w, c, es, s, l, k);
  }

  lemma {:induction false} DependsOnOne(es: seq<Entry>, p: nat, k: nat)
    requires Depends(es, p, k)
    ensures es[k].level > 0 && forall q: nat {:trigger Depends(es, q, k)} :: Depends(es, q, k) ==> q == p
  {}

  /** The first group that gives something. */
  ghost predicate FirstGiver(es: seq<Entry>, l: seq<Event>, f: nat) {
    f < |es| && es[f].level == 0 && !Given(es, l, f) && Given(es, l, Next(es, f))
  }

  /** Without MAGIC_CONTINUE the scan stops at the first group that gives a description, as far as it
      goes without an error, exactly when the top-level match of that group ends inside the file, or
      no later group applies. */
  lemma {:induction false} StopRule(w: World, c: Context, es: seq<Entry>, s: State, l: seq<Event>, f: nat)
    requires IsLog(w, c, es, s, l) && es != [] && es[0].level == 0 && !s.found && !w.all
    requires FirstGiver(es, l, f)
    ensures (forall k :: f < k < |es| && es[k].level == 0 && Reached(w, c, es, s, l, k) ==> !Tested(l, k)) <==>
            Entered(l, f)
            || forall k :: f < k < |es| && es[k].level == 0 && Reached(w, c, es, s, l, k) ==> !Applies(w, c, es[k])
  {
    hide Tested, Entered, Given, Applies, IsLog, Next, Reached;
    forall k | f < k < |es| && es[k].level == 0 && Reached(w, c, es, s, l, k)
      ensures Entered(l, f) ==> !Tested(l, k)
      ensures !Applies(w, c, es[k]) ==> !Tested(l, k)
      ensures Applies(w, c, es[k]) && !Tested(l, k) && !Entered(l, f) ==>
                exists q :: f < q < k && es[q].level == 0 && Tested(l, q) && Reached(w, c, es, s, l, q)
    {
      TestedEntries(w, c, es, s, l, k);
      if Applies(w, c, es[k]) && !Tested(l, k) && !Entered(l, f) {
        var q: nat :| q < k && es[q].level == 0 && Entered(l, q) && Given(es, l, Next(es, q));
        EnteredTested(l, q);
        if q < f { GivenMore(es, l, q, f); }
        assert q > f;
        TestedEntries(w, c, es, s, l, q);
      }
    }
  }

  /** What is given by the end of an earlier group is given before a later one. */
  lemma {:induction false} GivenMore(es: seq<Entry>, l: seq<Event>, q: nat, f: nat)
    requires q < f < |es| && es[f].level == 0 && Given(es, l, Next(es, q))
    ensures Given(es, l, f)
  {
    hide Gives;
    assert Next(es, q) <= f;
  }
}
