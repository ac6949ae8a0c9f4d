/** What a scan does to the vector as a whole: it is a stable partition, and scanning the result again
    finds the same options, with one exception (src/missing/getopt_long.c). */
module Rescan {
  import opened Wrappers
  import opened Options

  // ---------- a stable partition ----------

  /** The elements of s that the mask marks in this way, in their order. */
  function Pick(s: seq<Str>, mask: seq<bool>, want: bool): (r: seq<Str>)
    requires |s| == |mask|
  {
    if s == [] then []
    else if mask[0] == want then [s[0]] + Pick(s[1..], mask[1..], want)
    else Pick(s[1..], mask[1..], want)
  }

  lemma {:induction false} PickConcat(a: seq<Str>, m: seq<bool>, b: seq<Str>, n: seq<bool>, want: bool)
    requires |a| == |m| && |b| == |n|
    ensures Pick(a + b, m + n, want) == Pick(a, m, want) + Pick(b, n, want)
  {
    if a == [] {
      assert a + b == b && m + n == n;
    } else {
      assert (a + b)[1..] == a[1..] + b && (m + n)[1..] == m[1..] + n;
      PickConcat(a[1..], m[1..], b, n, want);
    }
  }

  lemma {:induction false} PickAll(a: seq<Str>, m: seq<bool>, kind: bool)
    requires |a| == |m| && forall j :: 0 <= j < |m| ==> m[j] == kind
    ensures Pick(a, m, kind) == a && Pick(a, m, !kind) == []
  {
    if a != [] { PickAll(a[1..], m[1..], kind); }
  }

  /** The scanned elements are the options and the others, both in their old order, and none of the
      others looks like an option. */
  lemma {:induction false} StablePartition(c: Config, args: seq<Str>, i: nat, rest: Str) returns (mask: seq<bool>)
    requires i <= |args| && (rest != "" ==> i < |args|)
    ensures var t := Scan(c, args, i, rest);
      && |mask| == t.next - i
      && t.opts == Pick(args[i..t.next], mask, true)
      && t.nonopts == Pick(args[i..t.next], mask, false)
      && forall a :: a in t.nonopts ==> !IsOption(a)
    decreases |args| - i, Size(args, i, rest)
  {
    hide OptionStep, IsOption, Pick;
    var t := Scan(c, args, i, rest);
    PickAll([], [], true);
    PickAll([], [], false);
    mask := [];
    if i < |args| {
      if rest != "" || IsOption(args[i]) {
        match OptionStep(c, args, i, rest)
        case Last(next) =>
          mask := seq(next - i, _ => true);
          PickAll(args[i..next], mask, true);
        case Told(_, next, more) =>
          var later := StablePartition(c, args, next, more);
          mask := Front(args, i, next, t.next, true, later);
      } else if c.InOrder() || c.Permute() {
        var later := StablePartition(c, args, i + 1, "");
        mask := Front(args, i, i + 1, t.next, c.InOrder(), later);
      }
    }
  }

  lemma Front(args: seq<Str>, i: nat, mid: nat, end: nat, kind: bool, later: seq<bool>) returns (mask: seq<bool>)
    requires i <= mid <= end <= |args| && |later| == end - mid
    ensures |mask| == end - i
    ensures Pick(args[i..end], mask, kind) == args[i..mid] + Pick(args[mid..end], later, kind)
    ensures Pick(args[i..end], mask, !kind) == Pick(args[mid..end], later, !kind)
  {
    var first := seq(mid - i, _ => kind);
    mask := first + later;
    PickAll(args[i..mid], first, kind);
    assert args[i..end] == args[i..mid] + args[mid..end];
    PickConcat(args[i..mid], first, args[mid..end], later, true);
    PickConcat(args[i..mid], first, args[mid..end], later, false);
  }

  // ---------- the same options in another vector ----------

  /** A complaint about an argument that should have followed. */
  predicate IsMissing(r: Report) { r.complaint.RecArgChar? || r.complaint.RecArgString? }

  predicate Missing(t: Tally) { t.reports != [] && IsMissing(t.reports[|t.reports| - 1]) }

  function Moved(s: Step, d: int): Step
    requires s.next + d >= 0
  {
    s.(next := s.next + d)
  }

  /** The elements from i up to next are also at k. */
  ghost predicate SameAt(args: seq<Str>, i: nat, next: nat, other: seq<Str>, k: nat) {
    i <= next <= |args| && k + (next - i) <= |other| && other[k..k + (next - i)] == args[i..next]
  }

  lemma SameFurther(args: seq<Str>, i: nat, next: nat, other: seq<Str>, k: nat, j: nat)
    requires SameAt(args, i, next, other, k) && i + j < next
    ensures k + j < |other| && other[k + j] == args[i + j]
    ensures SameAt(args, i + j, next, other, k + j)
  {
    assert other[k..k + (next - i)][j] == args[i..next][j];
    assert other[k..k + (next - i)][j..] == args[i..next][j..];
  }

  /** The letter asks for a long option: it is W, and a semicolon follows it among the letters. */
  predicate AsksLong(c: Config, letter: char) {
    letter == 'W' && CharAt(c.options, c.LetterAt(letter) + 1) == ';'
  }

  /** What becomes of the complaint r about a missing argument when the elements y do follow: a letter
      or a long option has the first of them for its argument; -W is read with the first of them for
      the name of a long option, or for the mark when that is empty. */
  ghost predicate Supplied(c: Config, r: Report, y: seq<Str>, v: Step)
    requires IsMissing(r) && y != []
  {
    match r.complaint
    case RecArgChar(letter) =>
      v == if AsksLong(c, letter) then LongStep(c, y, 0, y[0])
           else Told(Report(letter as int, Some(y[0]), None, None, Silent), 1, "")
    case RecArgString(name) =>
      var m := Lookup(c.longs, name);
      m.Unique? && v == Told(Report(ValueOf(c.longs[m.k]), Some(y[0]), None, Some(m.k), Silent), 1, "")
  }

  /** The step s, taken at i in one vector and as u at k in another that agrees, is the same, unless
      an argument was missing that the other vector provides. */
  ghost predicate Corresponds(c: Config, s: Step, args: seq<Str>, i: nat, u: Step, other: seq<Str>, k: nat)
    requires i <= s.next
  {
    var d := k + (s.next - i);
    if s.Told? && IsMissing(s.report) && d < |other| then
      u.next >= d && Supplied(c, s.report, other[d..], Moved(u, -d))
    else
      u == Moved(s, k - i)
  }

  lemma LongMoves(c: Config, args: seq<Str>, i: nat, name: Str, other: seq<Str>, k: nat)
    requires i < |args| && SameAt(args, i, LongStep(c, args, i, name).next, other, k)
    ensures k < |other| && Corresponds(c, LongStep(c, args, i, name), args, i, LongStep(c, other, k, name), other, k)
  {
    hide Lookup;
    if i + 1 < LongStep(c, args, i, name).next {
      SameFurther(args, i, LongStep(c, args, i, name).next, other, k, 1);
    }
    assert name[..|name|] == name;
  }

  /** A long option is read in the same way in what is left of the vector. */
  lemma LongBehind(c: Config, other: seq<Str>, d: nat, name: Str)
    requires d < |other|
    ensures LongStep(c, other, d, name) == Moved(LongStep(c, other[d..], 0, name), d)
  {
    hide Lookup;
  }

  lemma LetterMoves(c: Config, args: seq<Str>, i: nat, rest: Str, other: seq<Str>, k: nat)
    requires i < |args| && k < |other| && rest != "" && SameAt(args, i, LetterStep(c, args, i, rest).next, other, k)
    ensures Corresponds(c, LetterStep(c, args, i, rest), args, i, LetterStep(c, other, k, rest), other, k)
  {
    hide LongStep;
    var s := LetterStep(c, args, i, rest);
    if i + 1 < s.next { SameFurther(args, i, s.next, other, k, 1); }
    var letter, more, o := rest[0], rest[1..], c.LetterAt(rest[0]);
    if letter != ':' && o < |c.options| && letter == 'W' && CharAt(c.options, o + 1) == ';' {
      if more != "" {
        LongMoves(c, args, i, more, other, k);
      } else if i + 1 < |args| {
        LongMoves(c, args, i + 1, args[i + 1], other, k + 1);
      } else if k + 1 < |other| {
        LongBehind(c, other, k + 1, other[k + 1]);
      }
    }
  }

  lemma OptionMoves(c: Config, args: seq<Str>, i: nat, rest: Str, other: seq<Str>, k: nat)
    requires i < |args| && k < |other| && (rest == "" ==> IsOption(args[i]) && other[k] == args[i])
    requires SameAt(args, i, OptionStep(c, args, i, rest).next, other, k)
    ensures Corresponds(c, OptionStep(c, args, i, rest), args, i, OptionStep(c, other, k, rest), other, k)
  {
    hide LongStep, LetterStep, SameAt, Corresponds;
    if rest != "" { LetterMoves(c, args, i, rest, other, k); }
    else if args[i][1] == '-' { LongMoves(c, args, i, args[i][2..], other, k); }
    else { LetterMoves(c, args, i, args[i][1..], other, k); }
  }

  lemma LongMissing(c: Config, args: seq<Str>, i: nat, name: Str)
    requires i < |args|
    ensures LongStep(c, args, i, name).Told? && IsMissing(LongStep(c, args, i, name).report) ==>
            LongStep(c, args, i, name).next == |args|
  {
    hide Lookup;
  }

  /** An argument is missing only at the end of the vector. */
  lemma OptionMissing(c: Config, args: seq<Str>, i: nat, rest: Str)
    requires i < |args| && (rest == "" ==> IsOption(args[i]))
    ensures OptionStep(c, args, i, rest).Told? && IsMissing(OptionStep(c, args, i, rest).report) ==>
              OptionStep(c, args, i, rest).next == |args|
  {
    hide LongStep;
    var letters := if rest != "" then rest else args[i][1..];
    LongMissing(c, args, i, letters[1..]);
    if i + 1 < |args| { LongMissing(c, args, i + 1, args[i + 1]); }
  }

  /** An option begun at an element takes up that element. */
  lemma {:induction false} TakesElement(c: Config, args: seq<Str>, i: nat, rest: Str)
    requires i < |args| && (rest == "" ==> IsOption(args[i]))
    ensures Scan(c, args, i, rest).opts != [] && Scan(c, args, i, rest).opts[0] == args[i]
    decreases |args| - i, Size(args, i, rest)
  {
    hide OptionStep;
    match OptionStep(c, args, i, rest)
    case Last(_) =>
    case Told(_, next, more) => if next == i { TakesElement(c, args, next, more); }
  }

  lemma {:induction false} MissingAtEnd(c: Config, args: seq<Str>, i: nat, rest: Str)
    requires i <= |args| && (rest != "" ==> i < |args|) && c.Permute()
    ensures Missing(Scan(c, args, i, rest)) ==> Scan(c, args, i, rest).next == |args| && !Scan(c, args, i, rest).marked
    ensures !Scan(c, args, i, rest).marked ==> Scan(c, args, i, rest).next == |args|
    decreases |args| - i, Size(args, i, rest)
  {
    hide OptionStep;
    if i < |args| {
      if rest != "" || IsOption(args[i]) {
        OptionMissing(c, args, i, rest);
        match OptionStep(c, args, i, rest)
        case Last(_) =>
        case Told(_, next, more) => MissingAtEnd(c, args, next, more);
      } else {
        MissingAtEnd(c, args, i + 1, "");
      }
    }
  }

  /** Scanning a run of elements that are not options passes over all of them. */
  lemma {:induction false} ScanPlain(c: Config, args: seq<Str>, i: nat)
    requires i <= |args| && c.Permute() && forall j :: i <= j < |args| ==> !IsOption(args[j])
    ensures Scan(c, args, i, "") == Tally([], [], args[i..], false, |args|)
    decreases |args| - i
  {
    if i < |args| { ScanPlain(c, args, i + 1); }
  }

  /** The options of a scan, with the elements y behind them, are scanned as before. */
  lemma {:induction false} ScanAgain(c: Config, args: seq<Str>, i: nat, rest: Str, other: seq<Str>, k: nat, y: seq<Str>)
    requires i <= |args| && (rest != "" ==> i < |args|) && c.Permute()
    requires k <= |other| && other[k..] == Scan(c, args, i, rest).opts + y
    requires !Scan(c, args, i, rest).marked ==> forall a :: a in y ==> !IsOption(a)
    ensures rest != "" ==> k < |other|
    ensures Again(c, Scan(c, args, i, rest), Scan(c, other, k, rest), k, |other|, y)
    decreases |args| - i, Size(args, i, rest)
  {
    hide OptionStep, IsOption, Corresponds, SameAt, Scan, Again;
    var t := Scan(c, args, i, rest);
    if i < |args| && (rest != "" || IsOption(args[i])) {
      var s := OptionStep(c, args, i, rest);
      ScanOption(c, args, i, rest);
      OptionAhead(c, args, i, rest, other, k, y);
      if s.Told? && IsMissing(s.report) && y != [] {
        ScanEnds(c, args, |args|);
        assert [] + y == y;
        FoundAfterAll(c, args, i, rest, other, k, y);
      } else if s.Told? {
        ScanAgain(c, args, s.next, s.rest, other, k + (s.next - i), y);
        OneMore(c, args, i, rest, other, k, y);
      } else {
        MarkAgain(c, args, i, rest, other, k, y);
      }
    } else if i < |args| {
      ScanPassed(c, args, i);
      ScanAgain(c, args, i + 1, "", other, k, y);
      PassedAgain(c, Scan(c, args, i, ""), Scan(c, args, i + 1, ""), Scan(c, other, k, ""), k, |other|, y);
    } else {
      ScanEnds(c, args, i);
      forall j | k <= j < |other| ensures !IsOption(other[j]) { assert other[j] == other[k..][j - k]; }
      ScanPlain(c, other, k);
      PlainAgain(c, t, k, other, y);
    }
  }

  lemma PlainAgain(c: Config, t: Tally, k: nat, other: seq<Str>, y: seq<Str>)
    requires t.reports == [] && t.opts == [] && !t.marked && k <= |other| && other[k..] == y
    ensures Again(c, t, Tally([], [], other[k..], false, |other|), k, |other|, y)
  {}

  /** The elements of an option come first in a vector that begins with the options of its scan. */
  lemma OptionFits(c: Config, args: seq<Str>, i: nat, rest: Str, other: seq<Str>, k: nat, y: seq<Str>)
    requires i < |args| && (rest == "" ==> IsOption(args[i]))
    requires k <= |other| && other[k..] == Scan(c, args, i, rest).opts + y
    ensures k < |other| && other[k] == args[i]
    ensures var s := OptionStep(c, args, i, rest);
      && SameAt(args, i, s.next, other, k)
      && k + (s.next - i) <= |other|
      && other[k + (s.next - i)..] == (if s.Told? then Scan(c, args, s.next, s.rest).opts else []) + y
  {
    hide OptionStep, IsOption, SameAt, Scan;
    ScanOption(c, args, i, rest);
    TakesElement(c, args, i, rest);
    assert other[k] == other[k..][0];
    var s := OptionStep(c, args, i, rest);
    OptsBehind(args, i, s.next, other, k, if s.Told? then Scan(c, args, s.next, s.rest).opts else [], y);
  }

  lemma OptionAhead(c: Config, args: seq<Str>, i: nat, rest: Str, other: seq<Str>, k: nat, y: seq<Str>)
    requires i < |args| && (rest == "" ==> IsOption(args[i]))
    requires k <= |other| && other[k..] == Scan(c, args, i, rest).opts + y
    ensures k < |other| && other[k] == args[i]
    ensures var s, u := OptionStep(c, args, i, rest), OptionStep(c, other, k, rest);
      && SameAt(args, i, s.next, other, k)
      && other[k + (s.next - i)..] == (if s.Told? then Scan(c, args, s.next, s.rest).opts else []) + y
      && (s.Told? && IsMissing(s.report) ==> s.next == |args|)
      && if s.Told? && IsMissing(s.report) && y != [] then
           u.next >= k + (s.next - i) && Supplied(c, s.report, y, Moved(u, -(k + (s.next - i))))
         else u == Moved(s, k - i)
  {
    hide OptionStep, IsOption, Corresponds, SameAt, Scan, Supplied;
    OptionFits(c, args, i, rest, other, k, y);
    var s := OptionStep(c, args, i, rest);
    OptionMoves(c, args, i, rest, other, k);
    OptionMissing(c, args, i, rest);
    ScanEnds(c, args, |args|);
    assert |other[k + (s.next - i)..]| >= |y|;
    StepsAlike(c, s, args, i, OptionStep(c, other, k, rest), other, k);
    assert [] + y == y;
  }

  lemma PassedAgain(c: Config, t: Tally, later: Tally, u: Tally, k: nat, size: nat, y: seq<Str>)
    requires Again(c, later, u, k, size, y) && t.reports == later.reports && t.opts == later.opts
             && t.marked == later.marked
    ensures Again(c, t, u, k, size, y)
  {}

  /** The scan of a vector in which the missing argument is supplied by y, as v says. */
  function Resumed(t: Tally, v: Step, k: nat, size: nat, y: seq<Str>): Tally
    requires Missing(t) && v.next <= |y|
  {
    var reports := t.reports[..|t.reports| - 1];
    if v.Told? then Tally(reports + [v.report], t.opts + y[..v.next], y[v.next..], false, size)
    else Tally(reports, t.opts + y[..v.next], [], true, k + |t.opts| + v.next)
  }

  /** The scans again of two vectors, and of what is left of them after the same step. */
  ghost predicate Again(c: Config, t: Tally, u: Tally, k: nat, size: nat, y: seq<Str>) {
    if Missing(t) && y != [] then
      exists v :: Supplied(c, t.reports[|t.reports| - 1], y, v) && v.next <= |y| && u == Resumed(t, v, k, size, y)
    else u == Tally(t.reports, t.opts, if t.marked then [] else y, t.marked, if t.marked then k + |t.opts| else size)
  }

  lemma FoundAfterAll(c: Config, args: seq<Str>, i: nat, rest: Str, other: seq<Str>, k: nat, y: seq<Str>)
    requires i < |args| && k < |other| && (rest == "" ==> IsOption(args[i]) && IsOption(other[k]))
    requires var s, u := OptionStep(c, args, i, rest), OptionStep(c, other, k, rest);
      && s.Told? && s.next == |args| && IsMissing(s.report)
      && SameAt(args, i, |args|, other, k) && other[k + (|args| - i)..] == y && y != []
      && u.next >= k + (|args| - i) && Supplied(c, s.report, y, Moved(u, -(k + (|args| - i))))
    requires c.Permute() && forall a :: a in y ==> !IsOption(a)
    ensures Again(c, Scan(c, args, i, rest), Scan(c, other, k, rest), k, |other|, y)
  {
    hide OptionStep, IsOption, Scan, Supplied, SameAt, Again;
    var s, u, d := OptionStep(c, args, i, rest), OptionStep(c, other, k, rest), k + (|args| - i);
    var v := Moved(u, -d);
    SuppliedEnds(c, s.report, y, v);
    ScanAtEnd(c, args, i, rest);
    Sequels(args, i, other, k, y, d + v.next);
    ScanOnward(c, other, k, rest);
    SuppliedHere(c, s.report, args[i..], v, |args|, k, |other|, y);
  }

  /** The last option of a vector. */
  lemma ScanAtEnd(c: Config, args: seq<Str>, i: nat, rest: Str)
    requires i < |args| && (rest == "" ==> IsOption(args[i]))
    requires var s := OptionStep(c, args, i, rest); s.Told? && s.next == |args| && s.rest == ""
    ensures Scan(c, args, i, rest) == Tally([OptionStep(c, args, i, rest).report], args[i..], [], false, |args|)
  {
    hide OptionStep, IsOption, Scan;
    var s := OptionStep(c, args, i, rest);
    ScanOption(c, args, i, rest);
    ScanEnds(c, args, |args|);
    assert args[i..|args|] + [] == args[i..] && [s.report] + [] == [s.report];
  }

  /** The last option of a vector, with elements that are none behind it. */
  lemma ScanOnward(c: Config, args: seq<Str>, i: nat, rest: Str)
    requires i < |args| && (rest == "" ==> IsOption(args[i])) && c.Permute()
    requires var s := OptionStep(c, args, i, rest);
      (s.Told? ==> s.rest == "") && forall j :: s.next <= j < |args| ==> !IsOption(args[j])
    ensures var s := OptionStep(c, args, i, rest);
      Scan(c, args, i, rest) ==
      if s.Told? then Tally([s.report], args[i..s.next], args[s.next..], false, |args|)
      else Tally([], args[i..s.next], [], true, s.next)
  {
    hide OptionStep, IsOption, Scan;
    var s := OptionStep(c, args, i, rest);
    ScanOption(c, args, i, rest);
    assert args[i..s.next] + [] == args[i..s.next];
    if s.Told? {
      ScanPlain(c, args, s.next);
      assert [s.report] + [] == [s.report];
    }
  }

  lemma Sequels(args: seq<Str>, i: nat, other: seq<Str>, k: nat, y: seq<Str>, m: nat)
    requires SameAt(args, i, |args|, other, k) && other[k + (|args| - i)..] == y
    requires k + (|args| - i) <= m <= |other| && forall a :: a in y ==> !IsOption(a)
    ensures other[k..m] == args[i..] + y[..m - k - (|args| - i)]
    ensures other[m..] == y[m - k - (|args| - i)..]
    ensures forall j :: m <= j < |other| ==> !IsOption(other[j])
  {
    hide IsOption;
    var d := k + (|args| - i);
    assert other[k..d] == args[i..] && other[d..m] == other[d..][..m - d];
    assert other[k..m] == other[k..d] + other[d..m];
    forall j | m <= j < |other| ensures !IsOption(other[j]) { assert other[j] == y[j - d]; }
  }

  lemma SuppliedHere(c: Config, r: Report, own: seq<Str>, v: Step, next: nat, k: nat, size: nat,
                     y: seq<Str>)
    requires IsMissing(r) && y != [] && Supplied(c, r, y, v) && v.next <= |y|
    ensures Again(c, Tally([r], own, [], false, next), if v.Told?
                  then Tally([v.report], own + y[..v.next], y[v.next..], false, size)
                  else Tally([], own + y[..v.next], [], true, k + |own| + v.next), k, size, y)
  {
    hide Supplied;
  }

  lemma SuppliedEnds(c: Config, r: Report, y: seq<Str>, v: Step)
    requires IsMissing(r) && y != [] && Supplied(c, r, y, v)
    ensures v.next <= |y| && (v.Told? ==> v.rest == "" && v.report != r)
  {
    hide LongStep;
    NoRecArgChar(c, y, 0, y[0]);
  }

  lemma NoRecArgChar(c: Config, args: seq<Str>, i: nat, name: Str)
    requires i < |args|
    ensures LongStep(c, args, i, name).Told? ==> !LongStep(c, args, i, name).report.complaint.RecArgChar?
  {
    hide Lookup;
  }

  lemma MarkAgain(c: Config, args: seq<Str>, i: nat, rest: Str, other: seq<Str>, k: nat, y: seq<Str>)
    requires i < |args| && k < |other| && (rest == "" ==> IsOption(args[i]) && IsOption(other[k]))
    requires var s := OptionStep(c, args, i, rest);
      && s.Last? && SameAt(args, i, s.next, other, k) && OptionStep(c, other, k, rest) == Moved(s, k - i)
    ensures Again(c, Scan(c, args, i, rest), Scan(c, other, k, rest), k, |other|, y)
  {
    hide OptionStep, IsOption;
  }

  lemma OneMore(c: Config, args: seq<Str>, i: nat, rest: Str, other: seq<Str>, k: nat, y: seq<Str>)
    requires i < |args| && k < |other| && (rest == "" ==> IsOption(args[i]) && IsOption(other[k]))
    requires var s := OptionStep(c, args, i, rest);
      && s.Told? && !(IsMissing(s.report) && y != []) && SameAt(args, i, s.next, other, k)
      && OptionStep(c, other, k, rest) == Moved(s, k - i)
      && Again(c, Scan(c, args, s.next, s.rest), Scan(c, other, k + (s.next - i), s.rest), k + (s.next - i), |other|, y)
    ensures Again(c, Scan(c, args, i, rest), Scan(c, other, k, rest), k, |other|, y)
  {
    hide OptionStep, IsOption, Scan, Again;
    var s := OptionStep(c, args, i, rest);
    ScanOption(c, args, i, rest);
    ScanOption(c, other, k, rest);
    AgainBehind(c, s.report, args[i..s.next], Scan(c, args, s.next, s.rest),
                Scan(c, other, k + (s.next - i), s.rest), k, |other|, y);
  }

  /** One more option in front of both. */
  lemma AgainBehind(c: Config, r: Report, own: seq<Str>, t: Tally, u: Tally, k: nat, size: nat, y: seq<Str>)
    requires Again(c, t, u, k + |own|, size, y) && !(IsMissing(r) && y != [])
    ensures Again(c, t.(reports := [r] + t.reports, opts := own + t.opts),
                  u.(reports := [r] + u.reports, opts := own + u.opts), k, size, y)
  {
    hide Supplied;
    var rs := [r] + t.reports;
    if t.reports != [] { assert rs[|rs| - 1] == t.reports[|t.reports| - 1]; }
    if Missing(t) && y != [] {
      var v :| Supplied(c, t.reports[|t.reports| - 1], y, v) && v.next <= |y|
               && u == Resumed(t, v, k + |own|, size, y);
      ResumedBehind(r, own, t, v, k, size, y);
      assert Supplied(c, rs[|rs| - 1], y, v);
    }
  }

  lemma ResumedBehind(r: Report, own: seq<Str>, t: Tally, v: Step, k: nat, size: nat, y: seq<Str>)
    requires Missing(t) && v.next <= |y|
    ensures var u := Resumed(t, v, k + |own|, size, y);
      var t' := t.(reports := [r] + t.reports, opts := own + t.opts);
      Missing(t') && Resumed(t', v, k, size, y) == u.(reports := [r] + u.reports, opts := own + u.opts)
  {
    var n, rs := |t.reports|, [r] + t.reports;
    assert rs[n] == t.reports[n - 1] && rs[..n] == [r] + t.reports[..n - 1];
    if v.Told? { assert rs[..n] + [v.report] == [r] + (t.reports[..n - 1] + [v.report]); }
    assert (own + t.opts) + y[..v.next] == own + (t.opts + y[..v.next]);
  }

  lemma OptsBehind(args: seq<Str>, i: nat, next: nat, other: seq<Str>, k: nat, later: seq<Str>, y: seq<Str>)
    requires i <= next <= |args| && k <= |other| && other[k..] == args[i..next] + later + y
    ensures SameAt(args, i, next, other, k)
    ensures k + (next - i) <= |other| && other[k + (next - i)..] == later + y
  {
    assert other[k..][..next - i] == args[i..next];
    assert other[k..][next - i..] == later + y;
  }

  lemma StepsAlike(c: Config, s: Step, args: seq<Str>, i: nat, u: Step, other: seq<Str>, k: nat)
    requires i <= s.next && Corresponds(c, s, args, i, u, other, k)
    ensures var d := k + (s.next - i);
      if s.Told? && IsMissing(s.report) && d < |other| then
        u.next >= d && Supplied(c, s.report, other[d..], Moved(u, -d))
      else u == Moved(s, k - i)
  {}

  // ---------- scanning the sorted vector ----------

  /** A scan of the vector that a scan left behind finds the same options and moves nothing, unless
      an argument was missing at the end of the vector while others had been passed over. */
  lemma SortedIsSettled(c: Config, args: seq<Str>, begin: nat)
    requires 1 <= begin <= |args|
    ensures var t := Scan(c, args, begin, "");
      var sorted := Sorted(args, begin, t);
      var u := Scan(c, sorted, begin, "");
      && (u.reports == t.reports <==> !(Missing(t) && t.nonopts != []))
      && (u.reports == t.reports ==> u.opts == t.opts && Sorted(sorted, begin, u) == sorted)
  {
    hide Scan, Sorted, Missing, Pick, Supplied, Resumed, Again;
    var t := Scan(c, args, begin, "");
    if t.nonopts == [] {
      NothingPassedOver(c, args, begin, "");
      SortedSame(args, begin, t);
    } else if Missing(t) {
      var v := MissingIsSupplied(c, args, begin);
      ResumedDiffers(c, t, v, begin, |args|, t.nonopts);
    } else {
      SortedAgain(c, args, begin);
      Settles(c, args, begin, t, Scan(c, Sorted(args, begin, t), begin, ""));
    }
  }

  /** When an argument was missing while others had been passed over, the vector left behind supplies
      it from among these: all reports but the last are as before, and the last becomes the letter or
      long option with the first of them for its argument, or what -W makes of that; the options now
      have that element with them. */
  lemma MissingIsSupplied(c: Config, args: seq<Str>, begin: nat) returns (v: Step)
    requires 1 <= begin <= |args|
    requires Missing(Scan(c, args, begin, "")) && Scan(c, args, begin, "").nonopts != []
    ensures var t := Scan(c, args, begin, "");
      var sorted := Sorted(args, begin, t);
      && Supplied(c, t.reports[|t.reports| - 1], t.nonopts, v)
      && v.next <= |t.nonopts| && Scan(c, sorted, begin, "") == Resumed(t, v, begin, |args|, t.nonopts)
  {
    hide Scan, Sorted, Pick, Supplied, Resumed;
    var t := Scan(c, args, begin, "");
    SortedAgain(c, args, begin);
    MissingAtEnd(c, args, begin, "");
    assert t.nonopts + args[|args|..] == t.nonopts;
    v :| Supplied(c, t.reports[|t.reports| - 1], t.nonopts, v) && v.next <= |t.nonopts|
         && Scan(c, Sorted(args, begin, t), begin, "") == Resumed(t, v, begin, |args|, t.nonopts);
  }

  lemma SortedAgain(c: Config, args: seq<Str>, begin: nat)
    requires 1 <= begin <= |args| && Scan(c, args, begin, "").nonopts != []
    ensures c.Permute()
    ensures var t := Scan(c, args, begin, "");
      && |Sorted(args, begin, t)| == |args| && (!t.marked ==> t.next == |args|)
      && Again(c, t, Scan(c, Sorted(args, begin, t), begin, ""), begin, |args|, t.nonopts + args[t.next..])
  {
    hide Scan, Sorted, Missing, Pick, Again;
    var t := Scan(c, args, begin, "");
    PassedOverPermutes(c, args, begin, "");
    var mask := StablePartition(c, args, begin, "");
    MissingAtEnd(c, args, begin, "");
    SortedParts(args, begin, t);
    PickSplits(args[begin..t.next], mask);
    ScanAgain(c, args, begin, "", Sorted(args, begin, t), begin, t.nonopts + args[t.next..]);
  }

  lemma {:induction false} PickSplits(s: seq<Str>, mask: seq<bool>)
    requires |s| == |mask|
    ensures |Pick(s, mask, true)| + |Pick(s, mask, false)| == |s|
  {
    if s != [] { PickSplits(s[1..], mask[1..]); }
  }

  lemma ResumedDiffers(c: Config, t: Tally, v: Step, k: nat, size: nat, y: seq<Str>)
    requires Missing(t) && y != [] && Supplied(c, t.reports[|t.reports| - 1], y, v) && v.next <= |y|
    ensures Resumed(t, v, k, size, y).reports != t.reports
  {
    hide Supplied;
    var n := |t.reports| - 1;
    SuppliedEnds(c, t.reports[n], y, v);
    if v.Told? { assert Resumed(t, v, k, size, y).reports[n] == v.report; }
  }

  // ---------- inputs ----------

  /** Scanned again, an option finds its argument among the elements passed over. */
  lemma ArgumentTurnsUp(c: Config, args: seq<Str>)
    requires c == Config("a:", [], false) && args == ["p", "x", "-a"]
    ensures var t := Scan(c, args, 1, "");
      && t.reports == [Report('?' as int, None, Some('a' as int), None, RecArgChar('a'))]
      && Sorted(args, 1, t) == ["p", "-a", "x"]
      && Scan(c, Sorted(args, 1, t), 1, "").reports == [Report('a' as int, Some("x"), None, None, Silent)]
  {
    assert args[2][1..] == "a" && c.LetterAt('a') == 0;
    OneOption(c, args, ["p", "-a", "x"]);
    hide OptionStep, Scan;
  }

  /** Scanned again, -W finds an empty element and takes it for the mark. */
  lemma MarkTurnsUp(c: Config, args: seq<Str>)
    requires c == Config("W;", [], false) && args == ["p", "", "-W"]
    ensures var t := Scan(c, args, 1, "");
      && t.reports == [Report('?' as int, None, Some('W' as int), None, RecArgChar('W'))]
      && Sorted(args, 1, t) == ["p", "-W", ""]
      && Scan(c, Sorted(args, 1, t), 1, "") == Tally([], ["-W", ""], [], true, 3)
  {
    assert args[2][1..] == "W" && c.LetterAt('W') == 0;
    OneOption(c, args, ["p", "-W", ""]);
    hide OptionStep, Scan;
  }

  /** A vector of one argument and one option, and the same with the option in front. */
  lemma OneOption(c: Config, args: seq<Str>, sorted: seq<Str>)
    requires c.Permute() && |args| == 3 && !IsOption(args[1]) && IsOption(args[2])
    requires sorted == [args[0], args[2], args[1]]
    requires var s, u := OptionStep(c, args, 2, ""), OptionStep(c, sorted, 1, "");
      s.Told? && s.next == 3 && s.rest == "" && u.next == 3 && (u.Told? ==> u.rest == "")
    ensures var s, u, t := OptionStep(c, args, 2, ""), OptionStep(c, sorted, 1, ""), Scan(c, args, 1, "");
      && t.reports == [s.report] && Sorted(args, 1, t) == sorted
      && Scan(c, sorted, 1, "") ==
         if u.Told? then Tally([u.report], [args[2], args[1]], [], false, 3)
         else Tally([], [args[2], args[1]], [], true, 3)
  {
    hide OptionStep, IsOption, Scan;
    ScanPassed(c, args, 1);
    ScanAtEnd(c, args, 2, "");
    ScanOnward(c, sorted, 1, "");
    assert args[2..] == [args[2]] && [args[1]] + [] == [args[1]];
    assert args[..1] + [args[2]] + [args[1]] + args[3..] == sorted;
    assert sorted[1..3] == [args[2], args[1]] && sorted[3..] == [];
  }

  lemma SortedSame(args: seq<Str>, begin: nat, t: Tally)
    requires t.nonopts == [] && begin <= t.next <= |args| && t.opts == args[begin..t.next]
    ensures Sorted(args, begin, t) == args
  {}

  lemma SortedParts(args: seq<Str>, begin: nat, t: Tally)
    requires begin <= t.next <= |args|
    ensures begin <= |Sorted(args, begin, t)|
    ensures Sorted(args, begin, t)[begin..] == t.opts + (t.nonopts + args[t.next..])
    ensures Sorted(args, begin, t)[..begin] == args[..begin]
  {}

  lemma Settles(c: Config, args: seq<Str>, begin: nat, t: Tally, u: Tally)
    requires begin <= t.next <= |args| && (!t.marked ==> t.next == |args|)
    requires Again(c, t, u, begin, |Sorted(args, begin, t)|, t.nonopts + args[t.next..]) && !Missing(t)
    ensures u.reports == t.reports && u.opts == t.opts
            && Sorted(Sorted(args, begin, t), begin, u) == Sorted(args, begin, t)
  {
    var sorted := Sorted(args, begin, t);
    SortedParts(args, begin, t);
    assert sorted == sorted[..begin] + sorted[begin..];
    if t.marked {
      assert sorted[begin + |t.opts|..] == sorted[begin..][|t.opts|..];
    } else {
      assert sorted[|sorted|..] == [];
    }
  }

  lemma {:induction false} NothingPassedOver(c: Config, args: seq<Str>, i: nat, rest: Str)
    requires i <= |args| && (rest != "" ==> i < |args|) && Scan(c, args, i, rest).nonopts == []
    ensures Scan(c, args, i, rest).opts == args[i..Scan(c, args, i, rest).next]
    decreases |args| - i, Size(args, i, rest)
  {
    hide OptionStep;
    if i < |args| {
      if rest != "" || IsOption(args[i]) {
        match OptionStep(c, args, i, rest)
        case Last(_) =>
        case Told(_, next, more) => NothingPassedOver(c, args, next, more);
      } else if c.InOrder() {
        NothingPassedOver(c, args, i + 1, "");
      }
    }
  }

  lemma {:induction false} PassedOverPermutes(c: Config, args: seq<Str>, i: nat, rest: Str)
    requires i <= |args| && (rest != "" ==> i < |args|) && Scan(c, args, i, rest).nonopts != []
    ensures c.Permute()
    decreases |args| - i, Size(args, i, rest)
  {
    hide OptionStep;
    if i < |args| {
      if rest != "" || IsOption(args[i]) {
        match OptionStep(c, args, i, rest)
        case Last(_) =>
        case Told(_, next, more) => PassedOverPermutes(c, args, next, more);
      } else if c.InOrder() {
        PassedOverPermutes(c, args, i + 1, "");
      }
    }
  }
}
