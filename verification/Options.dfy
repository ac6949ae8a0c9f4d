/** What a command line means: the scan of an argument vector that is never reordered
    (src/missing/getopt_long.c). */
module Options {
  import opened Wrappers

  type Str = seq<char>

  datatype HasArg = NoArgument | RequiredArgument | OptionalArgument

  /** A long option; flag names the variable that is to receive the value, if any. */
  datatype LongOption = LongOption(name: Str, hasArg: HasArg, flag: Option<nat>, val: int)

  datatype Config = Config(options: Str, longs: seq<LongOption>, posixly: bool) {
    predicate IgnoreFirst() { CharAt(options, 0) == '-' || CharAt(options, 0) == '+' }
    predicate Permute() { !posixly && !IgnoreFirst() }
    predicate InOrder() { !posixly && CharAt(options, 0) == '-' }

    /** What is returned for a missing or superfluous argument. */
    function BadArg(): int {
      if (IgnoreFirst() && CharAt(options, 1) == ':') || CharAt(options, 0) == ':' then ':' as int else '?' as int
    }

    /** The place of an option letter in the list of letters, or the end of the list. */
    function LetterAt(c: char): (k: nat)
      ensures k <= |options|
    {
      IndexOf(options, c, if IgnoreFirst() then 1 else 0)
    }
  }

  const BADCH: int := '?' as int
  const INORDER: int := 1

  /** The complaint a bad option gives rise to. */
  datatype Complaint =
    | Silent
    | IllOptChar(c: char)
    | RecArgChar(c: char)
    | RecArgString(name: Str)
    | Ambig(name: Str)
    | NoArg(name: Str)
    | IllOptString(name: Str)

  /** What one call tells: the value returned, optarg, optopt if it is set, the index of the long
      option, and the complaint. */
  datatype Report = Report(ret: int, optarg: Option<Str>, optopt: Option<int>, index: Option<nat>, complaint: Complaint)

  /** The character at k, or NUL at the end. */
  function CharAt(s: Str, k: nat): char {
    if k < |s| then s[k] else '\0'
  }

  function IndexOf(s: Str, c: char, from: nat): (k: nat)
    requires from <= |s| || from == 1
    ensures k <= |s|
    ensures forall j :: from <= j < k ==> s[j] != c
    ensures k < |s| ==> from <= k && s[k] == c
    decreases |s| - from
  {
    if from >= |s| then |s|
    else if s[from] == c then from
    else IndexOf(s, c, from + 1)
  }

  // ---------- long options ----------

  datatype LongMatch = Unique(k: nat) | Ambiguous | Unknown

  predicate Abbreviates(cur: Str, name: Str) { cur <= name }

  predicate Identical(x: LongOption, y: LongOption) {
    x.hasArg == y.hasArg && x.flag == y.flag && x.val == y.val
  }

  predicate Fits(x: LongOption, cur: Str, exact: bool) {
    if exact then x.name == cur else Abbreviates(cur, x.name)
  }

  /** The first entry from i on with this name, or with this beginning. */
  function First(longs: seq<LongOption>, cur: Str, exact: bool, i: nat): (k: nat)
    requires i <= |longs|
    ensures i <= k <= |longs|
    ensures forall j :: i <= j < k ==> !Fits(longs[j], cur, exact)
    ensures k < |longs| ==> Fits(longs[k], cur, exact)
    decreases |longs| - i
  {
    if i == |longs| || Fits(longs[i], cur, exact) then i else First(longs, cur, exact, i + 1)
  }

  /** What a possibly abbreviated name stands for: the first option with exactly this name, or else
      what all options with this beginning agree on. */
  function Lookup(longs: seq<LongOption>, cur: Str): (m: LongMatch)
    ensures m.Unique? ==> m.k < |longs| && Abbreviates(cur, longs[m.k].name)
  {
    var e := First(longs, cur, true, 0);
    var p := First(longs, cur, false, 0);
    if e < |longs| then Unique(e)
    else if p == |longs| then Unknown
    else if forall j :: p < j < |longs| && Abbreviates(cur, longs[j].name) ==> Identical(longs[j], longs[p])
    then Unique(p)
    else Ambiguous
  }

  /** What a possibly abbreviated name means, said of the table alone. A full name wins, the first entry
      of it if there are several. Otherwise the first entry that begins so is meant if all that begin
      so agree on the argument, the variable and the value; the name is ambiguous if two of them do
      not, and unknown if there is none. */
  ghost predicate Means(longs: seq<LongOption>, cur: Str, m: LongMatch) {
    match m
    case Unique(k) =>
      && k < |longs|
      && (|| (longs[k].name == cur && forall j :: 0 <= j < k ==> longs[j].name != cur)
          || (&& (forall j :: 0 <= j < |longs| ==> longs[j].name != cur)
              && cur <= longs[k].name && (forall j :: 0 <= j < k ==> !(cur <= longs[j].name))
              && forall j :: 0 <= j < |longs| && cur <= longs[j].name ==>
                   && longs[j].hasArg == longs[k].hasArg && longs[j].flag == longs[k].flag
                   && longs[j].val == longs[k].val))
    case Ambiguous =>
      && (forall j :: 0 <= j < |longs| ==> longs[j].name != cur)
      && exists i, j :: 0 <= i < j < |longs| && cur <= longs[i].name && cur <= longs[j].name
           && !(longs[j].hasArg == longs[i].hasArg && longs[j].flag == longs[i].flag && longs[j].val == longs[i].val)
    case Unknown => forall j :: 0 <= j < |longs| ==> !(cur <= longs[j].name)
  }

  lemma LookupMeans(longs: seq<LongOption>, cur: Str, m: LongMatch)
    ensures Means(longs, cur, m) <==> m == Lookup(longs, cur)
  {
    assert forall j :: 0 <= j < |longs| ==> (Fits(longs[j], cur, true) <==> longs[j].name == cur);
    assert forall j :: 0 <= j < |longs| ==> (Fits(longs[j], cur, false) <==> cur <= longs[j].name);
  }

  // ---------- one option ----------

  /** One option read: a report, with the element and the rest of the element to go on with; or the
      mark that ends all options, with the element behind it. */
  datatype Step = Told(report: Report, next: nat, rest: Str) | Last(next: nat)

  /** The value returned for a long option. */
  function ValueOf(x: LongOption): int { if x.flag == None then x.val else 0 }

  /** A long option: name is what follows the dashes in element i. */
  function LongStep(c: Config, args: seq<Str>, i: nat, name: Str): (s: Step)
    requires i < |args|
    ensures i < s.next <= |args| && (s.Told? ==> s.rest == "")
  {
    var eq := IndexOf(name, '=', 0);
    var cur := name[..eq];
    if name == "" then Last(i + 1)
    else match Lookup(c.longs, cur)
      case Ambiguous => Told(Report(BADCH, None, Some(0), None, Ambig(cur)), i + 1, "")
      case Unknown => Told(Report(BADCH, None, Some(0), None, IllOptString(name)), i + 1, "")
      case Unique(k) =>
        var x := c.longs[k];
        var code := ValueOf(x);
        if x.hasArg == NoArgument && eq < |name| then
          Told(Report(c.BadArg(), None, Some(code), None, NoArg(cur)), i + 1, "")
        else if x.hasArg == RequiredArgument && eq == |name| && i + 1 == |args| then
          Told(Report(c.BadArg(), None, Some(code), None, RecArgString(name)), i + 1, "")
        else if x.hasArg == RequiredArgument && eq == |name| then
          Told(Report(code, Some(args[i + 1]), None, Some(k), Silent), i + 2, "")
        else
          Told(Report(code, if eq < |name| then Some(name[eq + 1..]) else None, None, Some(k), Silent), i + 1, "")
  }

  /** An option letter: rest is what is left of element i. */
  function LetterStep(c: Config, args: seq<Str>, i: nat, rest: Str): (s: Step)
    requires i < |args| && rest != ""
    ensures i <= s.next <= |args| && (s.Told? && s.next == i ==> |s.rest| < |rest|)
    ensures s.Last? ==> i < s.next
    ensures s.Told? && s.rest != "" ==> s.next == i
    ensures s.Told? && s.rest == "" ==> i < s.next
  {
    var letter, more := rest[0], rest[1..];
    var o := c.LetterAt(letter);
    var after := if more == "" then i + 1 else i;
    if letter == ':' || o == |c.options| then
      Told(Report(BADCH, None, Some(letter as int), None, IllOptChar(letter)), after, more)
    else if letter == 'W' && CharAt(c.options, o + 1) == ';' then
      if more != "" then LongStep(c, args, i, more)
      else if i + 1 == |args| then
        Told(Report(c.BadArg(), None, Some(letter as int), None, RecArgChar(letter)), i + 1, "")
      else LongStep(c, args, i + 1, args[i + 1])
    else if CharAt(c.options, o + 1) != ':' then
      Told(Report(letter as int, None, None, None, Silent), after, more)
    else if more != "" then
      Told(Report(letter as int, Some(more), None, None, Silent), i + 1, "")
    else if CharAt(c.options, o + 2) == ':' then
      Told(Report(letter as int, None, None, None, Silent), i + 1, "")
    else if i + 1 == |args| then
      Told(Report(c.BadArg(), None, Some(letter as int), None, RecArgChar(letter)), i + 1, "")
    else
      Told(Report(letter as int, Some(args[i + 1]), None, None, Silent), i + 2, "")
  }

  // ---------- the whole vector ----------

  predicate IsOption(a: Str) { |a| > 1 && a[0] == '-' }

  /** The option at element i, of which rest is still to be read unless it is empty. */
  function OptionStep(c: Config, args: seq<Str>, i: nat, rest: Str): (s: Step)
    requires i < |args| && (rest == "" ==> IsOption(args[i]))
    ensures i <= s.next <= |args|
    ensures s.Told? && s.rest != "" ==> s.next == i
    ensures s.Told? && s.rest == "" ==> i < s.next
    ensures s.Last? ==> i < s.next
    ensures s.Told? && s.next == i && rest != "" ==> |s.rest| < |rest|
    ensures s.Told? && s.next == i && rest == "" ==> |s.rest| < |args[i]|
  {
    if rest != "" then LetterStep(c, args, i, rest)
    else if args[i][1] == '-' then LongStep(c, args, i, args[i][2..])
    else LetterStep(c, args, i, args[i][1..])
  }

  /** The outcome of a scan: the reports in order, the elements taken as options and their
      arguments, the elements passed over, whether a mark ended the options, and the first element
      not looked at. */
  datatype Tally = Tally(reports: seq<Report>, opts: seq<Str>, nonopts: seq<Str>, marked: bool, next: nat)

  function Size(args: seq<Str>, i: nat, rest: Str): nat {
    if rest != "" then |rest| else if i < |args| then |args[i]| + 1 else 0
  }

  /** The scan from element i on, of which rest is still to be read unless it is empty. */
  function Scan(c: Config, args: seq<Str>, i: nat, rest: Str): (t: Tally)
    requires rest != "" ==> i < |args|
    ensures i <= t.next && (i <= |args| ==> t.next <= |args|)
    decreases |args| - i, Size(args, i, rest)
  {
    if i >= |args| then Tally([], [], [], false, i)
    else if rest != "" || IsOption(args[i]) then
      match OptionStep(c, args, i, rest)
      case Last(next) => Tally([], args[i..next], [], true, next)
      case Told(report, next, more) =>
        var t := Scan(c, args, next, more);
        t.(reports := [report] + t.reports, opts := args[i..next] + t.opts)
    else if c.InOrder() then
      var t := Scan(c, args, i + 1, "");
      t.(reports := [Report(INORDER, Some(args[i]), None, None, Silent)] + t.reports, opts := [args[i]] + t.opts)
    else if c.Permute() then
      var t := Scan(c, args, i + 1, "");
      t.(nonopts := [args[i]] + t.nonopts)
    else Tally([], [], [], false, i)
  }

  /** The scan of an option, in terms of what follows. */
  lemma ScanOption(c: Config, args: seq<Str>, i: nat, rest: Str)
    requires i < |args| && (rest == "" ==> IsOption(args[i]))
    ensures var s, t := OptionStep(c, args, i, rest), Scan(c, args, i, rest);
      if s.Told? then
        var u := Scan(c, args, s.next, s.rest);
        t == Tally([s.report] + u.reports, args[i..s.next] + u.opts, u.nonopts, u.marked, u.next)
      else t == Tally([], args[i..s.next] + [], [], true, s.next)
  {
    hide OptionStep;
  }

  lemma ScanPassed(c: Config, args: seq<Str>, i: nat)
    requires i < |args| && !IsOption(args[i]) && c.Permute()
    ensures var u := Scan(c, args, i + 1, ""); Scan(c, args, i, "") == u.(nonopts := [args[i]] + u.nonopts)
  {}

  lemma ScanEnds(c: Config, args: seq<Str>, i: nat)
    requires i == |args|
    ensures Scan(c, args, i, "") == Tally([], [], [], false, i)
  {}

  /** The vector a scan from element begin leaves behind. */
  function Sorted(args: seq<Str>, begin: nat, t: Tally): (r: seq<Str>) {
    if begin <= t.next <= |args| then args[..begin] + t.opts + t.nonopts + args[t.next..] else args
  }

  /** What a caller sees who takes -1 for the end of the scan. */
  function BeforeEnd(reports: seq<Report>): (r: seq<Report>)
    ensures r <= reports
  {
    if reports == [] || reports[0].ret == -1 then [] else [reports[0]] + BeforeEnd(reports[1..])
  }

  lemma {:induction false} BeforeEndAt(reports: seq<Report>, n: nat)
    requires n <= |reports| && forall k :: 0 <= k < n ==> reports[k].ret != -1
    requires n < |reports| ==> reports[n].ret == -1
    ensures BeforeEnd(reports) == reports[..n]
  {
    if n > 0 { BeforeEndAt(reports[1..], n - 1); }
  }

  /** No long option without a variable of its own has the value that means the end. */
  ghost predicate Distinguishable(c: Config) {
    forall k :: 0 <= k < |c.longs| && c.longs[k].flag == None ==> c.longs[k].val != -1
  }

  lemma LongNotMinusOne(c: Config, args: seq<Str>, i: nat, name: Str)
    requires Distinguishable(c) && i < |args|
    ensures LongStep(c, args, i, name).Told? ==> LongStep(c, args, i, name).report.ret != -1
  {
    hide Lookup;
  }

  lemma LetterNotMinusOne(c: Config, args: seq<Str>, i: nat, rest: Str)
    requires Distinguishable(c) && i < |args| && rest != ""
    ensures LetterStep(c, args, i, rest).Told? ==> LetterStep(c, args, i, rest).report.ret != -1
  {
    hide LongStep, Distinguishable;
    LongNotMinusOne(c, args, i, rest[1..]);
    if i + 1 < |args| { LongNotMinusOne(c, args, i + 1, args[i + 1]); }
  }

  lemma StepNotMinusOne(c: Config, args: seq<Str>, i: nat, rest: Str)
    requires Distinguishable(c) && i < |args| && (rest != "" || IsOption(args[i]))
    ensures OptionStep(c, args, i, rest).Told? ==> OptionStep(c, args, i, rest).report.ret != -1
  {
    hide LongStep, LetterStep, Distinguishable;
    if rest != "" { LetterNotMinusOne(c, args, i, rest); }
    else if args[i][1] == '-' { LongNotMinusOne(c, args, i, args[i][2..]); }
    else { LetterNotMinusOne(c, args, i, args[i][1..]); }
  }

  /** No report is mistaken for the end of the scan. */
  lemma {:induction false} NoMinusOne(c: Config, args: seq<Str>, i: nat, rest: Str)
    requires Distinguishable(c)
    requires rest != "" ==> i < |args|
    ensures forall r :: r in Scan(c, args, i, rest).reports ==> r.ret != -1
    decreases |args| - i, Size(args, i, rest)
  {
    hide OptionStep;
    if i < |args| {
      if rest != "" || IsOption(args[i]) {
        StepNotMinusOne(c, args, i, rest);
        match OptionStep(c, args, i, rest)
        case Last(_) =>
        case Told(report, next, more) => NoMinusOne(c, args, next, more);
      } else if c.InOrder() || c.Permute() {
        NoMinusOne(c, args, i + 1, "");
      }
    }
  }
}
