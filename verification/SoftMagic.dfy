/** match and mget: the scan of flat lists of entries with an array of levels, and the proof that it
    walks the forest (src/softmagic.c). */
module SoftMagic {
  import opened Wrappers
  import opened Entries
  import opened Magic
  import Output
  import Record
  import Causes

  // ---------- what remains of a group ----------

  /** What remains of a group at entry i, when level is the current one: the rest of the siblings
      there, then the rest at the levels below it. */
  ghost function Unwind(w: World, c: Context, es: seq<Entry>, i: nat, level: nat, s: State): Outcome
    requires i <= |es| && level < |s.li|
    decreases level
  {
    if level == 0 then Went(s)
    else
      var p := Parse(es, level, i);
      var r := Kids(w, c, es, p.0, level, s);
      if r.Failed? then r else Unwind(w, c, es, p.1, level - 1, r.s)
  }

  lemma {:induction false} UnwindLevel(w: World, c: Context, es: seq<Entry>, i: nat, level: nat, s: State)
    requires i <= |es| && 0 < level < |s.li|
    ensures Unwind(w, c, es, i, level, s) == Then(w, c, es, Parse(es, level, i).1, level,
            Kids(w, c, es, Parse(es, level, i).0, level, s))
  {
    hide Kids, Parse;
  }

  ghost function Then(w: World, c: Context, es: seq<Entry>, j: nat, level: nat, r: Outcome): Outcome
    requires j <= |es| && 0 < level && (r.Went? ==> level < |r.s.li|)
  {
    match r
    case Failed(l) => Failed(l)
    case Went(t) => Unwind(w, c, es, j, level - 1, t)
  }

  /** An entry above the current level is passed over. */
  lemma {:induction false} UnwindOver(w: World, c: Context, es: seq<Entry>, i: nat, level: nat, s: State)
    requires i < |es| && 0 < level < |s.li| && es[i].level > level
    ensures Unwind(w, c, es, i, level, s) == Unwind(w, c, es, i + 1, level, s)
  {
    hide Kids;
  }

  /** An entry below the current level ends that level. */
  lemma {:induction false} UnwindDown(w: World, c: Context, es: seq<Entry>, i: nat, level: nat, to: nat, s: State)
    requires i <= |es| && to <= level < |s.li| && (i < |es| ==> es[i].level <= to) && (i == |es| ==> to == 0)
    ensures Unwind(w, c, es, i, level, s) == Unwind(w, c, es, i, to, s)
    decreases level
  {
    if to < level {
      hide Kids;
      NoKids(w, c, es, level, s);
      UnwindDown(w, c, es, i, level - 1, to, s);
    }
  }

  lemma {:induction false} NoKids(w: World, c: Context, es: seq<Entry>, level: nat, s: State)
    requires 0 < level < |s.li|
    ensures Kids(w, c, es, [], level, s) == Went(s)
  {}

  /** The first entry at the current level, split off from its siblings. */
  lemma {:induction false} ParseHere(es: seq<Entry>, i: nat, level: nat)
    requires i < |es| && es[i].level == level
    ensures
      var (kids, j) := Parse(es, level + 1, i + 1);
      var (others, k) := Parse(es, level, j);
      && Parse(es, level, i) == ([Tree(i, kids)] + others, k)
      && Parse(es, level, i + 1) == (others, k)
  {
    ParseSkips(es, level, i + 1, Parse(es, level + 1, i + 1).1);
  }

  /** What becomes of a group after an entry at the current level. */
  ghost function Onward(w: World, c: Context, es: seq<Entry>, i: nat, level: nat, r: Step): Outcome
    requires i < |es| && (r.Stay? ==> level < |r.s.li|) && (r.Down? ==> level + 1 < |r.s.li|)
  {
    match r
    case Bad(l) => Failed(l)
    case Stay(t) => Unwind(w, c, es, i + 1, level, t)
    case Down(t) => Unwind(w, c, es, i + 1, level + 1, t)
  }

  /** What remains before an entry at the current level is what remains after it has been tried. */
  lemma {:induction false} UnwindTries(w: World, c: Context, es: seq<Entry>, i: nat, level: nat, s: State)
    requires i < |es| && 0 < level < |s.li| && es[i].level == level
    ensures Unwind(w, c, es, i, level, s) == Onward(w, c, es, i, level, One(w, c, es, i, level, s))
  {
    hide One, Kids, Parse, Unwind;
    var (kids, j) := Parse(es, level + 1, i + 1);
    var (others, k) := Parse(es, level, j);
    ParseHere(es, i, level);
    UnwindLevel(w, c, es, i, level, s);
    KidsFirst(w, c, es, Tree(i, kids), others, level, s);
    match One(w, c, es, i, level, s)
    case Bad(_) =>
    case Stay(t) => UnwindLevel(w, c, es, i + 1, level, t);
    case Down(t) =>
      UnwindLevel(w, c, es, i + 1, level + 1, t);
      match Kids(w, c, es, kids, level + 1, t)
      case Failed(_) =>
      case Went(u) => UnwindLevel(w, c, es, j, level, u);
  }

  lemma {:induction false} KidsFirst(w: World, c: Context, es: seq<Entry>, t: Tree, others: seq<Tree>, level: nat,
                                     s: State)
    requires Fits(es, [t] + others) && Fits(es, others) && Fits(es, t.kids) && t.i < |es| && 0 < level < |s.li|
    ensures Kids(w, c, es, [t] + others, level, s) ==
            match One(w, c, es, t.i, level, s)
            case Bad(l) => Failed(l)
            case Stay(u) => Kids(w, c, es, others, level, u)
            case Down(u) =>
              match Kids(w, c, es, t.kids, level + 1, u)
              case Failed(l) => Failed(l)
              case Went(v) => Kids(w, c, es, others, level, v)
  {
    hide One;
    assert ([t] + others)[0] == t && ([t] + others)[1..] == others;
  }

  /** The groups from entry i on. */
  lemma {:induction false} TopsFirst(w: World, c: Context, es: seq<Entry>, i: nat, s: State)
    requires i < |es| && 0 < |s.li|
    ensures Tops(w, c, es, Forest(es, i), s) ==
            match Head(w, c, es, i, s)
            case Bad(l) => Failed(l)
            case Stay(t) => Tops(w, c, es, Forest(es, Next(es, i)), t)
            case Down(t) =>
              match Kids(w, c, es, Parse(es, 1, i + 1).0, 1, t)
              case Failed(l) => Failed(l)
              case Went(u) =>
                if u.found && !w.all then Went(StopHere(u)) else Tops(w, c, es, Forest(es, Next(es, i)), EndGroup(u))
  {
    hide Head, Kids, Parse, Forest;
    ForestFirst(es, i);
    TopsSplit(w, c, es, Tree(i, Parse(es, 1, i + 1).0), Forest(es, Next(es, i)), s);
  }

  lemma {:induction false} ForestFirst(es: seq<Entry>, i: nat)
    requires i < |es|
    ensures Forest(es, i) == [Tree(i, Parse(es, 1, i + 1).0)] + Forest(es, Next(es, i))
  {
    hide Parse;
  }

  lemma {:induction false} TopsSplit(w: World, c: Context, es: seq<Entry>, t: Tree, others: seq<Tree>, s: State)
    requires Fits(es, [t] + others) && Fits(es, others) && Fits(es, t.kids) && t.i < |es| && 0 < |s.li|
    ensures Tops(w, c, es, [t] + others, s) ==
            match Head(w, c, es, t.i, s)
            case Bad(l) => Failed(l)
            case Stay(u) => Tops(w, c, es, others, u)
            case Down(u) =>
              match Kids(w, c, es, t.kids, 1, u)
              case Failed(l) => Failed(l)
              case Went(v) => if v.found && !w.all then Went(StopHere(v)) else Tops(w, c, es, others, EndGroup(v))
  {
    hide Head, Kids;
    assert ([t] + others)[0] == t && ([t] + others)[1..] == others;
  }

  lemma {:induction false} NothingLeft(w: World, c: Context, es: seq<Entry>, i: nat, s: State)
    requires i <= |es| && |s.li| > 0
    ensures Unwind(w, c, es, i, 0, s) == Went(s)
  {}

  lemma {:induction false} NoMoreTops(w: World, c: Context, es: seq<Entry>, s: State)
    requires 0 < |s.li|
    ensures Tops(w, c, es, Forest(es, |es|), s) == Went(s)
  {}

  // ---------- the scan ----------

  /** The state of a scan. */
  class MagicSet {
    const w: World
    var li: seq<LevelInfo>
    var out: string
    var printedSomething: bool
    var needSeparator: bool
    var firstLine: bool
    var returnVal: bool
    var foundMatch: bool
    var offset: int
    var indirCount: nat
    var nameCount: nat
    ghost var log: seq<Event>
    ghost var marks: seq<Mark>

    ghost function S(): State
      reads this
    {
      State(out, printedSomething, needSeparator, firstLine, returnVal, foundMatch, li, offset, indirCount, log, marks)
    }

    /** The counters are within their limits. */
    predicate Limits()
      reads this
    {
      indirCount <= w.indirMax && nameCount <= w.nameMax
    }

    /** Names that have been followed have been left again, and indirect scans are never uncounted. */
    twostate predicate Counts()
      reads this
    {
      Limits() && nameCount == old(nameCount) && old(indirCount) <= indirCount
    }

    /** The result of mget. */
    ghost predicate Fetched(f: Fetch, rv: int, value: bool, inner: Inner)
      reads this
    {
      f.inner == inner &&
      match f
      case Failing(_) => rv == -1
      case Zero(s, _) => rv == 0 && S() == s
      case Value(s, v, _) => rv == 1 && S() == s && value == v
    }

    /** The result of match. */
    ghost predicate Ran(r: Outcome, ok: bool)
      reads this
    {
      match r
      case Failed(l) => !ok && log == l
      case Went(s) => ok && S() == s
    }

    /** What has become of an entry. */
    ghost predicate Did(r: Step, ok: bool, down: bool)
      reads this
    {
      match r
      case Bad(l) => !ok && log == l
      case Stay(s) => ok && !down && S() == s
      case Down(s) => ok && down && S() == s
    }

    constructor (w: World)
      ensures this.w == w && S() == State("", false, false, true, false, false, [], 0, 0, [], []) && nameCount == 0
    {
      this.w := w;
      li, out, offset, indirCount, nameCount := [], "", 0, 0, 0;
      printedSomething, needSeparator, firstLine, returnVal, foundMatch := false, false, true, false, false;
      log, marks := [], [];
    }

    /** file_check_mem: room for the level, where nothing has matched yet. */
    method CheckMem(level: nat)
      modifies this`li, this`marks
      ensures S() == Descend(old(S()), level)
    {
      if level >= |li| {
        li := li + seq(20 + level - |li|, _ => LevelInfo(0, false));
      }
      li := li[level := LevelInfo(li[level].off, false)];
      marks := marks + [Flag(level, false, false)];
    }

    /** What has been tried is noted. */
    ghost method NoteEvent(ev: Event)
      modifies this`log
      ensures S() == Note(old(S()), ev)
    {
      log := log + [ev];
    }

    /** The end of a match. */
    method RecordEnd(level: nat, end: int)
      requires level < |li|
      modifies this`li, this`marks
      ensures S() == SetEnd(old(S()), level, end)
    {
      li := li[level := LevelInfo(end, li[level].gotMatch)];
      marks := marks + [End(level, end, false)];
    }

    /** Whether there has been a match. */
    method RecordMatch(level: nat, got: bool)
      requires level < |li|
      modifies this`li, this`marks
      ensures S() == SetGot(old(S()), level, got)
    {
      li := li[level := LevelInfo(li[level].off, got)];
      marks := marks + [Flag(level, got, false)];
    }

    /** The description of a top-level match. */
    method PrintFirst(c: Context, m: Entry)
      modifies this`out, this`printedSomething, this`needSeparator, this`returnVal, this`foundMatch
      ensures S() == Announce(w, c, m, old(S()))
    {
      if m.desc != "" {
        foundMatch := true;
        if !w.noDesc {
          returnVal := true;
          needSeparator := true;
          printedSomething := true;
          if !firstLine { out := out + SEPARATOR; }
          out := out + Description(w, c, m, offset);
        }
      }
    }

    /** The description of a continuation that has matched. */
    method PrintNext(c: Context, m: Entry)
      modifies this`out, this`printedSomething, this`needSeparator, this`returnVal, this`foundMatch
      ensures S() == Continue(w, c, m, old(S()))
    {
      hide Description;
      if m.desc == "" { return; }
      foundMatch := true;
      if w.noDesc { return; }
      returnVal := true;
      PrintGap(m);
      out := out + Description(w, c, m, offset);
      needSeparator := true;
    }

    /** What goes in front of a description: a separator, a blank, or nothing. */
    method PrintGap(m: Entry)
      modifies this`out, this`printedSomething
      ensures printedSomething
      ensures out == old(out) + (if !old(printedSomething) && !firstLine then SEPARATOR else "")
                              + (if needSeparator && !m.noSpace then " " else "")
    {
      if !printedSomething {
        printedSomething := true;
        if !firstLine { out := out + SEPARATOR; }
      }
      if needSeparator && !m.noSpace { out := out + " "; }
    }

    /** FILE_USE: the list with the name is scanned in the place of the test. The value that is left
        behind tells whether it found something. */
    method GetUse(m: Entry, name: string, flips: bool, c: Context) returns (rv: int, value: bool, ghost inner: Inner)
      requires Limits() && c.depth == nameCount < w.nameMax && indirCount < w.indirMax
      modifies this
      ensures Counts()
      ensures Fetched(Magic.GetUse(w, c, m, name, flips, old(S())), rv, value, inner)
      decreases w.indirMax - indirCount, w.nameMax - nameCount, 0
    {
      hide Scan, EnterList, LeaveList, InPart;
      value, inner := false, Nothing;
      if !InPart(w, c, offset) { return 0, false, inner; }
      var es := w.named(name);
      if es.None? { return -1, false, inner; }
      ghost var was := S();
      var saved, savedOffset, oneedSeparator, found := li, offset, needSeparator, foundMatch;
      EnterUse(m.noSpace);
      nameCount := nameCount + 1;
      var ok := Match(es.value, Follow(c, offset, flips));
      nameCount := nameCount - 1;
      inner := Used(savedOffset, es.value, log);
      if !ok { return -1, false, inner; }
      value := foundMatch;
      LeaveUse(found, saved, oneedSeparator, savedOffset, was);
      rv := if returnVal || foundMatch then 1 else 0;
    }

    /** The state in front of a used list. */
    method EnterUse(noSpace: bool)
      modifies this`foundMatch, this`needSeparator, this`log
      ensures S() == EnterList(old(S()), noSpace)
    {
      if noSpace { needSeparator := false; }
      foundMatch := false;
      log := [];
    }

    /** The state after a used list. */
    method LeaveUse(found: bool, saved: seq<LevelInfo>, oneedSeparator: bool, savedOffset: int, ghost was: State)
      requires found == was.found && saved == was.li && oneedSeparator == was.needSep && savedOffset == was.offset
      modifies this`foundMatch, this`li, this`needSeparator, this`offset, this`log, this`marks
      ensures S() == LeaveList(was, old(S()))
    {
      foundMatch := found || foundMatch;
      li := saved;
      if !returnVal { needSeparator := oneedSeparator; }
      offset := savedOffset;
      log := was.log;
      marks := was.marks;
    }

    /** FILE_INDIRECT: all lists are scanned again, with the output kept apart and the levels
        shared. */
    method GetIndirect(m: Entry, based: bool, c: Context) returns (rv: int, value: bool, ghost inner: Inner)
      requires Limits() && c.depth == nameCount < w.nameMax && indirCount < w.indirMax
      modifies this
      ensures Counts()
      ensures Fetched(Magic.GetIndirect(w, c, m, based, old(S())), rv, value, inner)
      decreases w.indirMax - indirCount, w.nameMax - nameCount, 0
    {
      hide Lists, EnterPart, LeavePart, Adopt, InPart;
      inner := Nothing;
      var from := offset;
      if based { from := from + c.base; }
      if from == 0 || !InPart(w, c, from) { return 0, false, inner; }
      ghost var was := S();
      var pushed, found, ret := out, foundMatch, returnVal;
      EnterIndirect();
      ghost var logs;
      rv, logs := ScanLists(Within(c, from));
      inner := Part(from, logs);
      if rv == -1 { return -1, false, inner; }
      var rbuf := out;
      LeaveIndirect(pushed, found, ret, was);
      if rv == 1 { PrintIndirect(w.text(m, c, from), rbuf); }
      value := rv == 1;
    }

    method EnterIndirect()
      modifies this`out, this`indirCount, this`foundMatch, this`returnVal, this`log, this`marks
      ensures S() == EnterPart(old(S()))
    {
      out := "";
      indirCount := indirCount + 1;
      foundMatch, returnVal, log, marks := false, false, [], [];
    }

    /** The description of the entry and what the scan has printed. */
    method PrintIndirect(text: string, rbuf: string)
      modifies this`out
      ensures S() == Adopt(w, old(S()), text, rbuf)
    {
      if !w.noDesc { out := out + text; }
      out := out + rbuf;
    }

    /** The lists one after the other, each with results of its own, until one gives 1. */
    method ScanLists(c: Context) returns (rv: int, ghost logs: seq<Log>)
      requires Limits() && c.depth == nameCount
      modifies this
      ensures Counts()
      ensures logs == Lists(w, c, w.main, old(S())).logs
      ensures match Lists(w, c, w.main, old(S()))
              case AllFailed(_) => rv == -1
              case AllWent(s, _) => S() == s && rv == if s.ret then 1 else 0
      decreases w.indirMax - indirCount, w.nameMax - nameCount, 7
    {
      hide Scan, Lists;
      rv, logs := -1, [];
      var i := 0;
      AllLists(w, c, w.main, S());
      while i < |w.main|
        invariant i <= |w.main| && Counts() && c.depth == nameCount
        invariant i < |w.main| ==> Gone(logs, Lists(w, c, w.main[i..], S())) == Lists(w, c, w.main, old(S()))
        invariant i == |w.main| ==> |w.main| == 0 && rv == -1 && logs == []
      {
        NextList(w, c, w.main, i, S());
        GoneOn(logs, Lists(w, c, w.main[i..], S()));
        returnVal, foundMatch, log := false, false, [];
        var ok := Match(w.main[i], c);
        logs := logs + [Log(log)];
        if !ok { return -1, logs; }
        rv := if returnVal then 1 else 0;
        i := i + 1;
        if rv != 0 || i == |w.main| { return; }
      }
    }

    /** The state after an indirect scan. */
    method LeaveIndirect(pushed: string, found: bool, ret: bool, ghost was: State)
      requires pushed == was.out && found == was.found && ret == was.ret
      modifies this`out, this`foundMatch, this`returnVal, this`log, this`marks
      ensures S() == LeavePart(was, old(S()))
    {
      out, foundMatch, returnVal := pushed, found, ret;
      log, marks := was.log, was.marks + InnerMarks(marks);
    }

    /** mget: -1 for an error, 0 if there is nothing to test, 1 if there is. */
    method Get(m: Entry, c: Context, off: int, up: int) returns (rv: int, value: bool, ghost inner: Inner)
      requires Limits() && c.depth == nameCount
      modifies this
      ensures Counts()
      ensures Fetched(Magic.Get(w, c, m, off, up, old(S())), rv, value, inner)
      ensures old(indirCount) >= w.indirMax || nameCount >= w.nameMax ==> rv == -1
      decreases w.indirMax - indirCount, w.nameMax - nameCount, 1
    {
      hide Magic.GetUse, Magic.GetIndirect;
      value, inner := false, Nothing;
      if indirCount >= w.indirMax || nameCount >= w.nameMax { return -1, false, inner; }
      match w.resolve(m, c, off, up)
      case Broken => return -1, false, inner;
      case Lost =>
        offset := off;
        return 0, false, inner;
      case At(to) =>
      offset := to;
      match m.kind
      case Name =>
        if !w.noDesc { out := out + m.desc; }
        rv, inner := 1, Named;
      case Use(name, flips) =>
        rv, value, inner := GetUse(m, name, flips, c);
      case Indirect(based) =>
        rv, value, inner := GetIndirect(m, based, c);
      case _ =>
        rv := if w.holds(m, c, to) then 1 else 0;
    }

    /** mget, magiccheck and what match does between them: -1 for an error, 0 for no match, 1 for a
        match. */
    method Test(m: Entry, c: Context, off: int, up: int) returns (rv: int, ghost finds: bool, ghost inner: Inner)
      requires Limits() && c.depth == nameCount
      modifies this
      ensures Counts()
      ensures inner == Try(w, c, m, off, up, old(S())).inner
      ensures match Try(w, c, m, off, up, old(S()))
              case Broke(_) => rv == -1
              case Missed(s, _) => rv == 0 && S() == s
              case Met(s, f, _) => rv == 1 && S() == s && finds == f
      decreases w.indirMax - indirCount, w.nameMax - nameCount, 2
    {
      hide Magic.Get;
      var value;
      rv, value, inner := Get(m, c, off, up);
      finds := value;
      if rv == 0 {
        finds := false;
        return if m.negated then 1 else 0, finds, inner;
      }
      if rv == 1 {
        if m.kind.Indirect? {
          foundMatch := true;
          returnVal := true;
        }
        match Check(w, c, m, offset, value)
        case Error => rv := -1;
        case Miss => rv := 0;
        case Hit =>
      }
    }

    /** The body of the inner loop of match, for an entry at the current level. */
    method OneContinuation(es: seq<Entry>, magindex: nat, level: nat, c: Context) returns (contLevel: nat, ok: bool)
      requires Limits() && magindex < |es| && 0 < level < |li| && c.depth == nameCount
      modifies this
      ensures Counts() && level <= contLevel <= level + 1
      ensures Did(One(w, c, es, magindex, level, old(S())), ok, contLevel == level + 1)
      decreases w.indirMax - indirCount, w.nameMax - nameCount, 3
    {
      hide Try, Continue, Note, SetEnd, SetGot, Descend, Vain, Magic.Erred;
      var m := es[magindex];
      contLevel := level;
      var off := m.offset;
      if m.relative { off := off + li[contLevel - 1].off; }
      ghost var up, was := li[contLevel - 1].off, log;
      var rv, finds, inner := Test(m, c, off, li[contLevel - 1].off);
      if rv == -1 {
        log := was + [Magic.Erred(magindex, m, c, false, up, off, inner)];
        return contLevel, false;
      }
      ghost var ev := Vain(magindex, m, c, false, up, off, offset, inner);
      if rv == 0 || (m.kind.Default? && li[contLevel].gotMatch) {
        NoteEvent(ev);
        return contLevel, true;
      }
      contLevel := Proceed(m, ev, level, c, finds);
      ok := true;
    }

    /** The part of that behind a match. */
    method Proceed(m: Entry, ghost ev: Event, level: nat, c: Context, ghost finds: bool)
      returns (contLevel: nat)
      requires 0 < level < |li|
      modifies this`li, this`out, this`printedSomething, this`needSeparator, this`returnVal, this`foundMatch, this`log,
               this`marks
      ensures level <= contLevel <= level + 1
      ensures var u := Continue(w, c, m, SetGot(old(S()), level, !m.kind.Clear?));
        var end := w.endOf(m, c, u.offset);
        var done := ev.(fired := true, end := end, finds := finds);
        match end
        case None => contLevel == level && S() == Note(Descend(u, level), done)
        case Some(off) => contLevel == level + 1 && S() == Note(Descend(SetEnd(u, level, off), level + 1), done)
    {
      hide Continue, Note, SetEnd, SetGot, Descend;
      contLevel := level;
      RecordMatch(contLevel, !m.kind.Clear?);
      PrintNext(c, m);
      var end := w.endOf(m, c, offset);
      if end.None? {
        contLevel := contLevel - 1;
      } else {
        RecordEnd(contLevel, end.value);
      }
      contLevel := contLevel + 1;
      CheckMem(contLevel);
      NoteEvent(ev.(fired := true, end := end, finds := finds));
    }

    /** The part of match for a top-level entry. */
    method OneGroup(es: seq<Entry>, magindex: nat, c: Context) returns (down: bool, ok: bool)
      requires Limits() && magindex < |es| && 0 < |li| && c.depth == nameCount
      modifies this
      ensures Counts()
      ensures Did(Head(w, c, es, magindex, old(S())), ok, down)
      decreases w.indirMax - indirCount, w.nameMax - nameCount, 3
    {
      hide Try, Announce, Note, SetEnd, Descend;
      var m := es[magindex];
      if !m.kind.Name? && !w.applies(m, c) { return false, true; }
      ghost var was := log;
      var rv, finds, inner := Test(m, c, m.offset, 0);
      if rv == -1 {
        log := was + [Magic.Erred(magindex, m, c, true, 0, m.offset, inner)];
        return false, false;
      }
      ghost var ev := Vain(magindex, m, c, true, 0, m.offset, offset, inner);
      if rv == 0 {
        NoteEvent(ev);
        return false, true;
      }
      PrintFirst(c, m);
      var end := w.endOf(m, c, offset);
      if end.None? {
        NoteEvent(ev.(fired := true, finds := finds));
        return false, true;
      }
      RecordEnd(0, end.value);
      CheckMem(1);
      NoteEvent(ev.(fired := true, end := end, finds := finds));
      return true, true;
    }

    /** Skip the rest of a group: the last of its entries. */
    method Flush(es: seq<Entry>, start: nat) returns (magindex: nat)
      requires start < |es|
      ensures magindex + 1 == Next(es, start)
    {
      magindex := start;
      while magindex + 1 < |es| && es[magindex + 1].level != 0
        invariant start <= magindex < |es|
        invariant forall k :: start < k <= magindex ==> es[k].level != 0
      {
        magindex := magindex + 1;
      }
    }

    /** The inner loop of match: the continuations of a top-level entry. */
    method Continuations(es: seq<Entry>, start: nat, c: Context) returns (ok: bool, magindex: nat)
      requires Limits() && start < |es| && c.depth == nameCount && |li| > 1
      modifies this
      ensures Counts()
      ensures Ran(Kids(w, c, es, Parse(es, 1, start + 1).0, 1, old(S())), ok)
      ensures magindex < |es| && (ok ==> magindex + 1 == Next(es, start) && |li| > 0)
      decreases w.indirMax - indirCount, w.nameMax - nameCount, 4
    {
      hide Kids, Unwind, Parse, One, Did;
      ghost var goal := Unwind(w, c, es, start + 1, 1, S());
      OneLevel(w, c, es, start + 1, S());
      magindex := start;
      var contLevel := 1;
      while magindex + 1 < |es| && es[magindex + 1].level != 0
        invariant start <= magindex < |es| && 1 <= contLevel < |li| && Counts() && c.depth == nameCount
        invariant forall k :: start < k <= magindex ==> es[k].level != 0
        invariant Unwind(w, c, es, magindex + 1, contLevel, S()) == goal
        decreases |es| - magindex
      {
        magindex := magindex + 1;
        var m := es[magindex];
        if contLevel < m.level {
          UnwindOver(w, c, es, magindex, contLevel, S());
          continue;
        }
        UnwindDown(w, c, es, magindex, contLevel, m.level, S());
        contLevel := m.level;
        ghost var was := S();
        UnwindTries(w, c, es, magindex, contLevel, was);
        contLevel, ok := OneContinuation(es, magindex, contLevel, c);
        DidOnward(One(w, c, es, magindex, m.level, was), es, magindex, m.level, c, ok, contLevel);
        if !ok { return; }
      }
      UnwindDown(w, c, es, magindex + 1, contLevel, 0, S());
      NothingLeft(w, c, es, magindex + 1, S());
      NextIs(es, start, magindex + 1);
      ok := true;
    }

    lemma {:induction false} DidOnward(r: Step, es: seq<Entry>, i: nat, level: nat, c: Context, ok: bool,
                                       contLevel: nat)
      requires i < |es| && (r.Stay? ==> level < |r.s.li|) && (r.Down? ==> level + 1 < |r.s.li|)
      requires Did(r, ok, contLevel == level + 1) && level <= contLevel <= level + 1
      ensures !ok ==> Onward(w, c, es, i, level, r) == Failed(log)
      ensures ok ==> contLevel < |li| && Onward(w, c, es, i, level, r) == Unwind(w, c, es, i + 1, contLevel, S())
    {
      hide Unwind;
    }

    /** The end of a group that has been gone through. */
    method CloseGroup() returns (stop: bool)
      modifies this`firstLine, this`printedSomething
      ensures stop <==> old(S()).found && !w.all
      ensures S() == if stop then StopHere(old(S())) else EndGroup(old(S()))
    {
      if printedSomething { firstLine := false; }
      if foundMatch {
        if !w.all { return true; }
        printedSomething := false;
        firstLine := false;
      }
      stop := false;
    }

    /** One group: its top-level entry, and its continuations if that matches; magindex becomes its
        last entry. */
    method GoThrough(es: seq<Entry>, start: nat, c: Context) returns (ok: bool, stop: bool, magindex: nat)
      requires Limits() && start < |es| && 0 < |li| && c.depth == nameCount
      modifies this
      ensures Counts() && magindex < |es|
      ensures ok && !stop ==> magindex + 1 == Next(es, start) && |li| > 0
      ensures match Head(w, c, es, start, old(S()))
              case Bad(l) => !ok && log == l
              case Stay(t) => ok && !stop && S() == t
              case Down(t) =>
                match Kids(w, c, es, Parse(es, 1, start + 1).0, 1, t)
                case Failed(l) => !ok && log == l
                case Went(u) => ok && (stop <==> u.found && !w.all) && S() == if stop then StopHere(u) else EndGroup(u)
      decreases w.indirMax - indirCount, w.nameMax - nameCount, 5
    {
      hide Head, Kids, Parse, StopHere, EndGroup;
      stop, magindex := false, start;
      var down;
      down, ok := OneGroup(es, start, c);
      if !ok { return; }
      if !down {
        magindex := Flush(es, start);
        return;
      }
      ok, magindex := Continuations(es, start, c);
      if ok { stop := CloseGroup(); }
    }

    /** match */
    method Match(es: seq<Entry>, c: Context) returns (ok: bool)
      requires Limits() && c.depth == nameCount
      modifies this
      ensures Counts()
      ensures Ran(Scan(w, c, es, old(S())), ok)
      decreases w.indirMax - indirCount, w.nameMax - nameCount, 6
    {
      hide Tops, Forest, Kids, Parse, Head, StopHere, EndGroup, Descend;
      CheckMem(0);
      ghost var goal := Tops(w, c, es, Forest(es, 0), S());
      var magindex := 0;
      while magindex < |es|
        invariant magindex <= |es| && Counts() && c.depth == nameCount && |li| > 0
        invariant Tops(w, c, es, Forest(es, magindex), S()) == goal
      {
        TopsFirst(w, c, es, magindex, S());
        var stop;
        ok, stop, magindex := GoThrough(es, magindex, c);
        if !ok || stop { return; }
        magindex := magindex + 1;
      }
      NoMoreTops(w, c, es, S());
      ok := true;
    }

    /** file_softmagic: all lists on the whole file, from a fresh start. */
    method FileSoftmagic(mode: Mode) returns (rv: int, ghost logs: seq<Log>)
      requires indirCount == 0 && nameCount == 0
      requires S() == State("", false, false, true, false, false, li, offset, 0, log, marks)
      modifies this
      ensures Limits() && nameCount == 0
      ensures logs == Run(w, Context(0, 0, false, mode, 0), w.main, false, old(S())).logs
      ensures match Run(w, Context(0, 0, false, mode, 0), w.main, false, old(S()))
              case AllFailed(_) => rv == -1
              case AllWent(s, _) => out == s.out && indirCount == s.indirs && rv == if s.ret then 1 else 0
      ensures rv == -1 <==> logs != [] && Causes.EndsBadly(logs[|logs| - 1].events)
      ensures rv != -1 ==> indirCount == Causes.BegunOf(logs)
      ensures rv != -1 ==> out == Output.ShowLists(w, logs, Output.Mood(false, false, true, false)).text
    {
      hide Scan, Run, Output.ShowLists, Causes.EndsBadly, Causes.BegunOf, Says, Gone;
      var c := Context(0, 0, false, mode, 0);
      ghost var r := Run(w, c, w.main, false, S());
      RunSays(w, c, S(), r);
      rv, logs := 0, [];
      var i := 0;
      AllRun(w, c, w.main, S());
      GoneNone(Run(w, c, w.main, false, S()));
      while i < |w.main|
        invariant i <= |w.main| && Limits() && nameCount == 0 && (rv == 0 || rv == 1)
        invariant Gone(logs, Run(w, c, w.main[i..], rv == 1, S())) == Run(w, c, w.main, false, old(S()))
      {
        NextRun(w, c, w.main, i, rv == 1, S());
        GoneOn(logs, Run(w, c, w.main[i..], rv == 1, S()));
        returnVal, foundMatch, log := false, false, [];
        var ok := Match(w.main[i], c);
        logs := logs + [Log(log)];
        if !ok {
          SaysFailed(w, r);
          return -1, logs;
        }
        if returnVal {
          if !w.all {
            SaysWent(w, r);
            return 1, logs;
          }
          rv := 1;
        }
        i := i + 1;
      }
      EndRun(w, c, w.main, rv == 1, S());
      GoneOn(logs, Run(w, c, w.main[i..], rv == 1, S()));
      SaysWent(w, r);
    }
  }

  /** What is said of a run. */
  ghost predicate Says(w: World, r: Outcomes) {
    match r
    case AllFailed(logs) => logs != [] && Causes.EndsBadly(logs[|logs| - 1].events)
    case AllWent(s, logs) =>
      && !(logs != [] && Causes.EndsBadly(logs[|logs| - 1].events)) && s.indirs == Causes.BegunOf(logs)
      && s.out == Output.ShowLists(w, logs, Output.Mood(false, false, true, false)).text
  }

  lemma {:induction false} SaysFailed(w: World, r: Outcomes)
    requires Says(w, r) && r.AllFailed?
    ensures r.logs != [] && Causes.EndsBadly(r.logs[|r.logs| - 1].events)
  {}

  lemma {:induction false} SaysWent(w: World, r: Outcomes)
    requires Says(w, r) && r.AllWent?
    ensures !(r.logs != [] && Causes.EndsBadly(r.logs[|r.logs| - 1].events))
    ensures r.s.indirs == Causes.BegunOf(r.logs)
    ensures r.s.out == Output.ShowLists(w, r.logs, Output.Mood(false, false, true, false)).text
  {}

  lemma {:induction false} RunSays(w: World, c: Context, s: State, r: Outcomes)
    requires r == Run(w, c, w.main, false, s) && s.indirs == 0 && s.out == ""
    requires !s.printed && !s.needSep && s.firstLine && !s.ret
    ensures Says(w, r)
  {
    hide Run, Causes.EndsBadly, Causes.BegunOf, Output.ShowLists;
    Causes.RunEnds(w, c, w.main, s);
    Record.RunPrints(w, c, w.main, false, s);
  }

  /** The outcome of several lists, with the logs of those before. */
  function Gone(logs: seq<Log>, r: Outcomes): Outcomes { r.(logs := logs + r.logs) }

  lemma {:induction false} GoneNone(r: Outcomes)
    ensures Gone([], r) == r
  {
    assert [] + r.logs == r.logs;
  }

  lemma {:induction false} GoneOn(logs: seq<Log>, r: Outcomes)
    ensures r.logs != [] ==>
              var next := r.logs[1..];
              Gone(logs, r) == Gone(logs + [r.logs[0]], r.(logs := next))
    ensures Gone(logs, r).logs == logs + r.logs && (Gone(logs, r).AllWent? <==> r.AllWent?)
    ensures r.AllWent? ==> Gone(logs, r).s == r.s
  {
    if r.logs != [] { assert logs + [r.logs[0]] + r.logs[1..] == logs + r.logs; }
  }

  lemma {:induction false} OneLevel(w: World, c: Context, es: seq<Entry>, i: nat, s: State)
    requires i <= |es| && |s.li| > 1
    ensures Unwind(w, c, es, i, 1, s) == Kids(w, c, es, Parse(es, 1, i).0, 1, s)
  {
    hide Kids, Parse;
  }

  lemma {:induction false} AllLists(w: World, c: Context, ls: seq<seq<Entry>>, s: State)
    ensures ls[0..] == ls
    ensures ls == [] ==> Lists(w, c, ls, s) == AllFailed([])
    ensures Gone([], Lists(w, c, ls, s)) == Lists(w, c, ls, s)
  {
    GoneNone(Lists(w, c, ls, s));
  }

  lemma {:induction false} NextList(w: World, c: Context, ls: seq<seq<Entry>>, i: nat, s: State)
    requires i < |ls|
    ensures Lists(w, c, ls[i..], s) ==
            match Scan(w, c, ls[i], s.(ret := false, found := false, log := []))
            case Failed(l) => AllFailed([Log(l)])
            case Went(t) =>
              if t.ret || i + 1 == |ls| then AllWent(t, [Log(t.log)]) else Behind(t.log, Lists(w, c, ls[i + 1..], t))
  {
    hide Scan;
    assert ls[i..][0] == ls[i] && ls[i..][1..] == ls[i + 1..];
  }

  lemma {:induction false} AllRun(w: World, c: Context, ls: seq<seq<Entry>>, s: State)
    ensures ls[0..] == ls
  {}

  lemma {:induction false} EndRun(w: World, c: Context, ls: seq<seq<Entry>>, rv: bool, s: State)
    ensures Run(w, c, ls[|ls|..], rv, s) == AllWent(s.(ret := rv), [])
  {}

  lemma {:induction false} NextRun(w: World, c: Context, ls: seq<seq<Entry>>, i: nat, rv: bool, s: State)
    requires i < |ls|
    ensures Run(w, c, ls[i..], rv, s) ==
            match Scan(w, c, ls[i], s.(ret := false, found := false, log := []))
            case Failed(l) => AllFailed([Log(l)])
            case Went(t) =>
              if t.ret && !w.all then AllWent(t, [Log(t.log)])
              else Behind(t.log, Run(w, c, ls[i + 1..], rv || t.ret, t))
  {
    hide Scan;
    assert ls[i..][0] == ls[i] && ls[i..][1..] == ls[i + 1..];
  }
}
