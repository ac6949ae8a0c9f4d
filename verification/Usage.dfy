/** The grammar of command lines: what may be written, and what it tells the program
    (src/missing/getopt_long.c). */
module Usage {
  import opened Wrappers
  import opened Options

  // ---------- the option letters ----------

  /** The letters, without the sign in front that asks for another order. */
  function Letters(c: Config): Str {
    if c.options != "" && (c.options[0] == '-' || c.options[0] == '+') then c.options[1..] else c.options
  }

  /** Arguments between options are passed over. */
  predicate PassesOver(c: Config) {
    !c.posixly && (c.options == "" || (c.options[0] != '-' && c.options[0] != '+'))
  }

  /** Arguments between options are told like options. */
  predicate TellsAll(c: Config) {
    !c.posixly && c.options != "" && c.options[0] == '-'
  }

  /** What is returned for an argument that is missing or one too many: a colon in front of the letters
      asks for a colon. */
  function Fault(c: Config): int {
    if Letters(c) != "" && Letters(c)[0] == ':' then ':' as int else '?' as int
  }

  predicate Sign(s: Str, k: nat, sign: char) { k < |s| && s[k] == sign }

  /** The first place of a letter. */
  ghost predicate First(s: Str, x: char, k: nat) {
    k < |s| && s[k] == x && forall j :: 0 <= j < k ==> s[j] != x
  }

  ghost predicate IsUnknown(c: Config, x: char) { x == ':' || x !in Letters(c) }

  /** W with a semicolon: what comes next is a long option. */
  ghost predicate AsksLong(c: Config, x: char) {
    x == 'W' && exists k: nat :: First(Letters(c), x, k) && Sign(Letters(c), k + 1, ';')
  }

  ghost predicate TakesNone(c: Config, x: char) {
    x != ':' && !AsksLong(c, x) && exists k: nat :: First(Letters(c), x, k) && !Sign(Letters(c), k + 1, ':')
  }

  /** A letter with one colon must have an argument, one with two may have one in the same element. */
  ghost predicate MustHave(c: Config, x: char) {
    x != ':' && exists k: nat ::
      First(Letters(c), x, k) && Sign(Letters(c), k + 1, ':') && !Sign(Letters(c), k + 2, ':')
  }

  ghost predicate MayHave(c: Config, x: char) {
    x != ':' && exists k: nat ::
      First(Letters(c), x, k) && Sign(Letters(c), k + 1, ':') && Sign(Letters(c), k + 2, ':')
  }

  // ---------- what may be written ----------

  /** A long option: what the name means in the table, the name as it is written, the argument behind
      an equals sign, and the element taken as its argument. */
  datatype LongUse = LongUse(means: LongMatch, name: Str, arg: Option<Str>, next: Option<Str>)

  /** How a cluster of letters ends: with a letter and its argument in the same element or in the next
      one, a letter that goes without, one whose argument is lacking at the end of the line, or W with
      a long option in the same element or in the next one, or with an empty next one. */
  datatype End =
    | Nothing
    | Joined(x: char, arg: Str)
    | Apart(x: char, arg: Str)
    | Without(x: char)
    | Lacking(x: char)
    | LongJoined(u: LongUse)
    | LongApart(u: LongUse)
    | MarkApart

  datatype Item = Argument(a: Str) | Cluster(letters: seq<char>, end: End) | Long(u: LongUse) | Mark

  function Text(u: LongUse): Str {
    u.name + if u.arg.Some? then "=" + u.arg.value else ""
  }

  function More(next: Option<Str>): seq<Str> {
    if next.Some? then [next.value] else []
  }

  /** The end of a cluster: the rest of its element, and the elements behind. */
  function EndText(e: End): Str {
    match e
    case Nothing => ""
    case Joined(x, arg) => [x] + arg
    case Apart(x, _) => [x]
    case Without(x) => [x]
    case Lacking(x) => [x]
    case LongJoined(u) => "W" + Text(u)
    case LongApart(_) => "W"
    case MarkApart => "W"
  }

  function EndMore(e: End): seq<Str> {
    match e
    case Apart(_, arg) => [arg]
    case LongJoined(u) => More(u.next)
    case LongApart(u) => [Text(u)] + More(u.next)
    case MarkApart => [""]
    case _ => []
  }

  function Elements(it: Item): (r: seq<Str>)
    ensures |r| > 0
  {
    match it
    case Argument(a) => [a]
    case Cluster(letters, end) => ["-" + letters + EndText(end)] + EndMore(end)
    case Long(u) => ["--" + Text(u)] + More(u.next)
    case Mark => ["--"]
  }

  /** A long option with these elements behind it. One that must have an argument takes the next
      element unless there is none or an equals sign gives it one. */
  ghost predicate LongFits(c: Config, u: LongUse, behind: seq<Str>) {
    && Text(u) != "" && '=' !in u.name && Means(c.longs, u.name, u.means)
    && if u.means.Unique? && c.longs[u.means.k].hasArg == RequiredArgument && u.arg == None then
         u.next == None ==> behind == []
       else u.next == None
  }

  ghost predicate EndFits(c: Config, e: End, behind: seq<Str>) {
    match e
    case Nothing => true
    case Joined(x, arg) => (MustHave(c, x) || MayHave(c, x)) && arg != ""
    case Apart(x, _) => MustHave(c, x)
    case Without(x) => MayHave(c, x)
    case Lacking(x) => (MustHave(c, x) || AsksLong(c, x)) && behind == []
    case LongJoined(u) => AsksLong(c, 'W') && LongFits(c, u, behind)
    case LongApart(u) => AsksLong(c, 'W') && LongFits(c, u, behind)
    case MarkApart => AsksLong(c, 'W')
  }

  ghost predicate ItemFits(c: Config, it: Item, behind: seq<Str>) {
    match it
    case Argument(a) => |a| < 2 || a[0] != '-'
    case Cluster(letters, end) =>
      && letters + EndText(end) != "" && (letters + EndText(end))[0] != '-'
      && (forall x :: x in letters ==> IsUnknown(c, x) || TakesNone(c, x)) && EndFits(c, end, behind)
    case Long(u) => LongFits(c, u, behind)
    case Mark => true
  }

  predicate IsMark(it: Item) { it.Mark? || (it.Cluster? && it.end.MarkApart?) }

  /** The line consists of these items and the rest. The rest is behind a mark, or begins with an
      argument at which the options end, or is empty. */
  ghost predicate Written(c: Config, line: seq<Str>, items: seq<Item>, rest: seq<Str>, marked: bool)
    decreases |items|
  {
    if items == [] then
      line == rest && !marked && (rest == [] || (ItemFits(c, Argument(rest[0]), []) && !PassesOver(c) && !TellsAll(c)))
    else exists behind ::
      && line == Elements(items[0]) + behind && ItemFits(c, items[0], behind)
      && (items[0].Argument? ==> PassesOver(c) || TellsAll(c))
      && if IsMark(items[0]) then |items| == 1 && marked && rest == behind
         else Written(c, behind, items[1..], rest, marked)
  }

  // ---------- what it tells ----------

  ghost function LetterReport(c: Config, x: char): Report {
    if IsUnknown(c, x) then Report('?' as int, None, Some(x as int), None, IllOptChar(x))
    else Report(x as int, None, None, None, Silent)
  }

  /** What a long option tells; nothing if it means no entry of the table. */
  function LongReport(c: Config, u: LongUse): seq<Report> {
    match u.means
    case Unknown => [Report('?' as int, None, Some(0), None, IllOptString(Text(u)))]
    case Ambiguous => [Report('?' as int, None, Some(0), None, Ambig(u.name))]
    case Unique(k) =>
      if k >= |c.longs| then []
      else
        var x := c.longs[k];
        var value := if x.flag == None then x.val else 0;
        if x.hasArg == NoArgument && u.arg.Some? then [Report(Fault(c), None, Some(value), None, NoArg(u.name))]
        else if x.hasArg == RequiredArgument && u.arg == None && u.next == None then
          [Report(Fault(c), None, Some(value), None, RecArgString(u.name))]
        else [Report(value, if u.arg.Some? then u.arg else u.next, None, Some(k), Silent)]
  }

  function EndReport(c: Config, e: End): seq<Report> {
    match e
    case Nothing => []
    case Joined(x, arg) => [Report(x as int, Some(arg), None, None, Silent)]
    case Apart(x, arg) => [Report(x as int, Some(arg), None, None, Silent)]
    case Without(x) => [Report(x as int, None, None, None, Silent)]
    case Lacking(x) => [Report(Fault(c), None, Some(x as int), None, RecArgChar(x))]
    case LongJoined(u) => LongReport(c, u)
    case LongApart(u) => LongReport(c, u)
    case MarkApart => []
  }

  ghost function LetterReports(c: Config, letters: seq<char>): seq<Report> {
    if letters == [] then [] else [LetterReport(c, letters[0])] + LetterReports(c, letters[1..])
  }

  ghost function ItemReports(c: Config, it: Item): seq<Report> {
    match it
    case Argument(a) => if TellsAll(c) then [Report(1, Some(a), None, None, Silent)] else []
    case Cluster(letters, end) => LetterReports(c, letters) + EndReport(c, end)
    case Long(u) => LongReport(c, u)
    case Mark => []
  }

  ghost function Reports(c: Config, items: seq<Item>): seq<Report> {
    if items == [] then [] else ItemReports(c, items[0]) + Reports(c, items[1..])
  }

  /** The elements of the items, of those that are passed over or of the others. */
  function Taken(c: Config, items: seq<Item>, passed: bool): seq<Str> {
    if items == [] then []
    else (if (items[0].Argument? && PassesOver(c)) == passed then Elements(items[0]) else [])
         + Taken(c, items[1..], passed)
  }

  // ---------- the scan of an item ----------

  /** The place of a letter, in the letters without their sign. */
  lemma LetterPlace(c: Config, x: char)
    ensures var o, from := c.LetterAt(x), |c.options| - |Letters(c)|;
      && (o == |c.options| <==> x !in Letters(c))
      && (o < |c.options| ==> o >= from && First(Letters(c), x, o - from))
      && forall k: nat :: First(Letters(c), x, k) ==> k == o - from
  {
    var o, from := c.LetterAt(x), |c.options| - |Letters(c)|;
    assert forall j :: 0 <= j < |Letters(c)| ==> Letters(c)[j] == c.options[from + j];
    if o < |c.options| {
      assert Letters(c)[o - from] == x;
      forall j | 0 <= j < o - from ensures Letters(c)[j] != x { assert c.options[from + j] != x; }
    } else {
      forall j | 0 <= j < |Letters(c)| ensures Letters(c)[j] != x { assert c.options[from + j] != x; }
    }
  }

  /** The kinds of letters, by what stands behind them. */
  lemma LetterKinds(c: Config, x: char)
    ensures var o := c.LetterAt(x);
      && (IsUnknown(c, x) <==> x == ':' || o == |c.options|)
      && (AsksLong(c, x) <==> x == 'W' && o < |c.options| && CharAt(c.options, o + 1) == ';')
      && (TakesNone(c, x) <==> !IsUnknown(c, x) && !AsksLong(c, x) && CharAt(c.options, o + 1) != ':')
      && (MustHave(c, x) <==> !IsUnknown(c, x) && CharAt(c.options, o + 1) == ':' && CharAt(c.options, o + 2) != ':')
      && (MayHave(c, x) <==> !IsUnknown(c, x) && CharAt(c.options, o + 1) == ':' && CharAt(c.options, o + 2) == ':')
  {
    hide First, Sign, CharAt;
    LetterPlace(c, x);
    var o, from := c.LetterAt(x), |c.options| - |Letters(c)|;
    if o < |c.options| {
      var k := o - from;
      assert First(Letters(c), x, k);
      SignAt(c, k + 1, ':');
      SignAt(c, k + 1, ';');
      SignAt(c, k + 2, ':');
    } else {
      forall k: nat ensures !First(Letters(c), x, k) { FirstIn(Letters(c), x, k); }
    }
  }

  lemma FirstIn(s: Str, x: char, k: nat)
    ensures First(s, x, k) ==> x in s
  {}

  lemma SignAt(c: Config, k: nat, sign: char)
    requires sign != '\0'
    ensures Sign(Letters(c), k, sign) <==> CharAt(c.options, |c.options| - |Letters(c)| + k) == sign
  {}

  lemma Orders(c: Config)
    ensures PassesOver(c) == c.Permute() && TellsAll(c) == c.InOrder() && Fault(c) == c.BadArg()
  {}

  /** One letter of a cluster. */
  lemma LetterScans(c: Config, args: seq<Str>, i: nat, x: char, more: Str)
    requires i < |args| && (IsUnknown(c, x) || TakesNone(c, x))
    ensures LetterStep(c, args, i, [x] + more) ==
            Told(LetterReport(c, x), if more == "" then i + 1 else i, more)
  {
    hide IsUnknown, TakesNone, AsksLong, LongStep;
    LetterKinds(c, x);
    assert ([x] + more)[1..] == more;
  }

  /** A long option. */
  lemma LongScans(c: Config, args: seq<Str>, i: nat, u: LongUse)
    requires i + 1 + |More(u.next)| <= |args| && LongFits(c, u, args[i + 1 + |More(u.next)|..])
    requires u.next.Some? ==> args[i + 1] == u.next.value
    ensures |LongReport(c, u)| == 1
    ensures LongStep(c, args, i, Text(u)) == Told(LongReport(c, u)[0], i + 1 + |More(u.next)|, "")
  {
    hide Lookup, Means, Fault, Config.BadArg;
    Orders(c);
    LookupMeans(c.longs, u.name, u.means);
    UniqueIn(c.longs, u.name, u.means);
    var eq := IndexOf(Text(u), '=', 0);
    assert eq == |u.name| by { Equals(u); }
    assert Text(u)[..eq] == u.name;
    if u.arg.Some? { assert Text(u)[eq + 1..] == u.arg.value; } else { assert Text(u) == u.name; }
  }

  lemma UniqueIn(longs: seq<LongOption>, cur: Str, m: LongMatch)
    requires Means(longs, cur, m)
    ensures m.Unique? ==> m.k < |longs|
  {}

  lemma Equals(u: LongUse)
    requires '=' !in u.name
    ensures IndexOf(Text(u), '=', 0) == |u.name|
  {
    var t, k := Text(u), IndexOf(Text(u), '=', 0);
    assert forall j :: 0 <= j < |u.name| ==> t[j] == u.name[j];
    if u.arg.Some? { assert t[|u.name|] == '='; }
  }

  /** The end of a cluster. */
  lemma EndScans(c: Config, args: seq<Str>, i: nat, e: End)
    requires i < |args| && e != Nothing && i + 1 + |EndMore(e)| <= |args|
    requires EndMore(e) == args[i + 1..i + 1 + |EndMore(e)|] && EndFits(c, e, args[i + 1 + |EndMore(e)|..])
    ensures EndText(e) != "" && (e.MarkApart? || |EndReport(c, e)| == 1)
    ensures LetterStep(c, args, i, EndText(e)) ==
            if e.MarkApart? then Last(i + 2) else Told(EndReport(c, e)[0], i + 1 + |EndMore(e)|, "")
  {
    hide IsUnknown, TakesNone, AsksLong, MustHave, MayHave, LongStep, LongFits, LongReport, Fault, Config.BadArg;
    var text := EndText(e);
    LetterKinds(c, text[0]);
    Orders(c);
    match e
    case LongJoined(u) =>
      assert text[1..] == Text(u);
      TextIs(c, u, args[i + 1 + |EndMore(e)|..]);
      if u.next.Some? { assert EndMore(e)[0] == u.next.value; }
      LongScans(c, args, i, u);
    case LongApart(u) =>
      assert EndMore(e)[0] == Text(u) && args[i + 1] == Text(u);
      if u.next.Some? { assert EndMore(e)[1] == u.next.value; }
      LongScans(c, args, i + 1, u);
    case MarkApart =>
      assert EndMore(e)[0] == "" && args[i + 1] == "";
      NoName(c, args, i + 1);
    case Joined(x, arg) => assert text[1..] == arg;
    case Apart(x, arg) => assert EndMore(e)[0] == arg;
    case _ =>
  }

  lemma TextIs(c: Config, u: LongUse, behind: seq<Str>)
    requires LongFits(c, u, behind)
    ensures Text(u) != ""
  {}

  lemma NoName(c: Config, args: seq<Str>, i: nat)
    requires i < |args|
    ensures LongStep(c, args, i, "") == Last(i + 1)
  {}

  /** The tally of a scan with more in front. */
  function Behind(reports: seq<Report>, opts: seq<Str>, t: Tally): Tally {
    t.(reports := reports + t.reports, opts := opts + t.opts)
  }

  lemma BehindTwice(r: seq<Report>, o: seq<Str>, r': seq<Report>, o': seq<Str>, t: Tally)
    ensures Behind(r, o, Behind(r', o', t)) == Behind(r + r', o + o', t)
  {
    assert r + (r' + t.reports) == (r + r') + t.reports && o + (o' + t.opts) == (o + o') + t.opts;
  }

  /** What comes behind an item: nothing if it is a mark. */
  ghost function Further(c: Config, args: seq<Str>, n: nat, it: Item): Tally {
    if IsMark(it) then Tally([], [], [], true, n) else Scan(c, args, n, "")
  }

  lemma OptionTold(c: Config, args: seq<Str>, i: nat, rest: Str, s: Step)
    requires i < |args| && (rest == "" ==> IsOption(args[i])) && OptionStep(c, args, i, rest) == s
    ensures Scan(c, args, i, rest) ==
            if s.Told? then Behind([s.report], args[i..s.next], Scan(c, args, s.next, s.rest))
            else Behind([], args[i..s.next], Tally([], [], [], true, s.next))
  {
    hide OptionStep, IsOption, Scan;
    ScanOption(c, args, i, rest);
  }

  /** The end of a cluster, which is all that is left of it. */
  lemma ClusterEnds(c: Config, args: seq<Str>, i: nat, e: End)
    requires EndText(e) != "" && i + 1 + |EndMore(e)| <= |args|
    requires EndMore(e) == args[i + 1..i + 1 + |EndMore(e)|] && EndFits(c, e, args[i + 1 + |EndMore(e)|..])
    ensures var n := i + 1 + |EndMore(e)|;
      Scan(c, args, i, EndText(e)) == Behind(EndReport(c, e), args[i..n], Further(c, args, n, Cluster("", e)))
  {
    hide Scan, LetterStep, EndFits, EndReport;
    EndIsThere(e);
    EndScans(c, args, i, e);
    if e.MarkApart? { NoReport(c, e); } else { assert EndReport(c, e) == [EndReport(c, e)[0]]; }
    OptionTold(c, args, i, EndText(e), LetterStep(c, args, i, EndText(e)));
  }

  /** A cluster, of which these letters and the end are still to be read. */
  lemma {:induction false} ClusterScans(c: Config, args: seq<Str>, i: nat, letters: Str, e: End)
    requires letters + EndText(e) != "" && i + 1 + |EndMore(e)| <= |args|
    requires forall x :: x in letters ==> IsUnknown(c, x) || TakesNone(c, x)
    requires EndMore(e) == args[i + 1..i + 1 + |EndMore(e)|] && EndFits(c, e, args[i + 1 + |EndMore(e)|..])
    ensures var n := i + 1 + |EndMore(e)|;
      Scan(c, args, i, letters + EndText(e)) ==
      Behind(LetterReports(c, letters) + EndReport(c, e), args[i..n], Further(c, args, n, Cluster(letters, e)))
    decreases |letters|
  {
    hide Scan, LetterStep, IsUnknown, TakesNone, LetterReport, EndFits, EndReport, Behind;
    var n, rest := i + 1 + |EndMore(e)|, letters + EndText(e);
    if letters == [] {
      assert rest == EndText(e);
      ClusterEnds(c, args, i, e);
      assert LetterReports(c, letters) + EndReport(c, e) == EndReport(c, e);
    } else {
      var x, more := letters[0], letters[1..] + EndText(e);
      assert rest == [x] + more;
      LetterScans(c, args, i, x, more);
      OptionTold(c, args, i, rest, LetterStep(c, args, i, rest));
      if more == "" {
        LastLetter(c, letters, e);
      } else {
        ClusterScans(c, args, i, letters[1..], e);
        LettersFirst(c, args, i, n, letters, e);
      }
    }
  }

  lemma LastLetter(c: Config, letters: Str, e: End)
    requires letters != "" && letters[1..] + EndText(e) == ""
    ensures e == Nothing && EndMore(e) == []
    ensures LetterReports(c, letters) + EndReport(c, e) == [LetterReport(c, letters[0])]
  {
    hide LetterReport;
    NoEnd(c, e);
    assert letters == [letters[0]] && LetterReports(c, letters[1..]) == [];
  }

  lemma LettersFirst(c: Config, args: seq<Str>, i: nat, n: nat, letters: Str, e: End)
    requires letters != "" && i <= n <= |args|
    ensures var t := Further(c, args, n, Cluster(letters, e));
      Behind([LetterReport(c, letters[0])], args[i..i],
             Behind(LetterReports(c, letters[1..]) + EndReport(c, e), args[i..n], t)) ==
      Behind(LetterReports(c, letters) + EndReport(c, e), args[i..n], t)
  {
    hide EndReport, LetterReport, Behind, Scan;
    var first, others := [LetterReport(c, letters[0])], LetterReports(c, letters[1..]);
    BehindTwice(first, args[i..i], others + EndReport(c, e), args[i..n], Further(c, args, n, Cluster(letters, e)));
    assert args[i..i] + args[i..n] == args[i..n];
    assert first + (others + EndReport(c, e)) == LetterReports(c, letters) + EndReport(c, e);
  }

  lemma EndIsThere(e: End)
    requires EndText(e) != ""
    ensures e != Nothing
  {}

  lemma NoEnd(c: Config, e: End)
    requires EndText(e) == ""
    ensures e == Nothing && EndReport(c, e) == [] && EndMore(e) == []
  {}

  lemma NoReport(c: Config, e: End)
    requires e.MarkApart?
    ensures EndReport(c, e) == [] && EndMore(e) == [""]
  {}

  /** A cluster is read from its second character on. */
  lemma ClusterBegins(c: Config, args: seq<Str>, i: nat, text: Str)
    requires i < |args| && args[i] == "-" + text && text != "" && text[0] != '-'
    ensures Scan(c, args, i, "") == Scan(c, args, i, text)
  {
    hide Scan, LetterStep, Behind;
    assert args[i][1..] == text;
    OptionTold(c, args, i, "", LetterStep(c, args, i, text));
    OptionTold(c, args, i, text, LetterStep(c, args, i, text));
  }

  lemma ClusterElements(args: seq<Str>, i: nat, letters: Str, e: End, behind: seq<Str>)
    requires i <= |args| && args[i..] == Elements(Cluster(letters, e)) + behind
    ensures var n := i + 1 + |EndMore(e)|;
      && i < |args| && n <= |args| && args[i] == "-" + (letters + EndText(e))
      && args[i + 1..n] == EndMore(e) && args[n..] == behind
  {
    hide EndText, EndMore;
    var n := i + 1 + |EndMore(e)|;
    assert args[i] == args[i..][0] && "-" + letters + EndText(e) == "-" + (letters + EndText(e));
    assert args[i + 1..n] == args[i..][1..n - i] && args[n..] == args[i..][n - i..];
  }

  lemma ClusterScanned(c: Config, args: seq<Str>, i: nat, letters: Str, e: End, behind: seq<Str>)
    requires i <= |args| && args[i..] == Elements(Cluster(letters, e)) + behind
    requires ItemFits(c, Cluster(letters, e), behind)
    ensures var it := Cluster(letters, e);
      var n := i + |Elements(it)|;
      n <= |args| && Scan(c, args, i, "") == Behind(ItemReports(c, it), args[i..n], Further(c, args, n, it))
  {
    hide Scan, IsUnknown, TakesNone, LetterReport, EndFits, EndReport, Further, EndText, EndMore, Behind;
    ClusterElements(args, i, letters, e, behind);
    ClusterBegins(c, args, i, letters + EndText(e));
    ClusterScans(c, args, i, letters, e);
  }

  lemma LongScanned(c: Config, args: seq<Str>, i: nat, it: Item, behind: seq<Str>)
    requires it.Long? && i <= |args| && args[i..] == Elements(it) + behind && ItemFits(c, it, behind)
    ensures var n := i + |Elements(it)|;
      n <= |args| && Scan(c, args, i, "") == Behind(ItemReports(c, it), args[i..n], Further(c, args, n, it))
  {
    hide Scan, LetterStep, LongStep, LongFits, LongReport;
    var u, n := it.u, i + |Elements(it)|;
    assert args[i] == args[i..][0] && args[i] == "--" + Text(u);
    assert behind == args[i..][n - i..] && args[n..] == args[i..][n - i..];
    if u.next.Some? { assert args[i + 1] == args[i..][1]; }
    assert args[i][2..] == Text(u);
    LongScans(c, args, i, u);
    OptionTold(c, args, i, "", OptionStep(c, args, i, ""));
    assert LongReport(c, u) == [LongReport(c, u)[0]];
  }

  lemma MarkScanned(c: Config, args: seq<Str>, i: nat, behind: seq<Str>)
    requires i <= |args| && args[i..] == ["--"] + behind
    ensures i < |args| && Scan(c, args, i, "") == Behind([], args[i..i + 1], Tally([], [], [], true, i + 1))
  {
    hide Scan;
    assert args[i] == args[i..][0] && args[i][2..] == "";
    NoName(c, args, i);
    OptionTold(c, args, i, "", OptionStep(c, args, i, ""));
  }

  /** The scan of a line that begins with an item. */
  lemma ItemScans(c: Config, args: seq<Str>, i: nat, it: Item, behind: seq<Str>)
    requires i <= |args| && args[i..] == Elements(it) + behind && ItemFits(c, it, behind)
    requires it.Argument? ==> PassesOver(c) || TellsAll(c)
    ensures i + |Elements(it)| <= |args| && args[i + |Elements(it)|..] == behind
    ensures var t := Further(c, args, i + |Elements(it)|, it);
      Scan(c, args, i, "") ==
      if it.Argument? && PassesOver(c) then t.(nonopts := Elements(it) + t.nonopts)
      else Behind(ItemReports(c, it), Elements(it), t)
  {
    hide LetterStep, LongStep, EndFits, LongFits, LetterReports, EndReport, LongReport, Elements, Scan;
    var n := i + |Elements(it)|;
    assert args[n..] == args[i..][n - i..] && args[i..n] == args[i..][..n - i];
    Orders(c);
    match it
    case Argument(a) =>
      ElementsAre(a);
      ArgumentScans(c, args, i, a, behind);
    case Cluster(letters, e) => ClusterScanned(c, args, i, letters, e, behind);
    case Long(_) => LongScanned(c, args, i, it, behind);
    case Mark =>
      ElementsAre("");
      MarkScanned(c, args, i, behind);
  }

  lemma ElementsAre(a: Str)
    ensures Elements(Mark) == ["--"] && Elements(Argument(a)) == [a]
  {}

  lemma ArgumentScans(c: Config, args: seq<Str>, i: nat, a: Str, behind: seq<Str>)
    requires i <= |args| && args[i..] == Elements(Argument(a)) + behind && ItemFits(c, Argument(a), behind)
    requires PassesOver(c) || TellsAll(c)
    ensures i < |args|
    ensures var t := Scan(c, args, i + 1, "");
      Scan(c, args, i, "") ==
      if PassesOver(c) then t.(nonopts := Elements(Argument(a)) + t.nonopts)
      else Behind(ItemReports(c, Argument(a)), Elements(Argument(a)), t)
  {
    hide OptionStep;
    assert args[i] == args[i..][0];
    Orders(c);
  }

  // ---------- the scan of a line ----------

  /** What a line written in this way tells, in the scan from element i on. */
  ghost function Tells(c: Config, items: seq<Item>, marked: bool, next: nat): Tally {
    Tally(Reports(c, items), Taken(c, items, false), Taken(c, items, true), marked, next)
  }

  /** A line tells exactly what its items tell, in order, however it is written. */
  lemma {:induction false} LineIsTold(c: Config, args: seq<Str>, i: nat, items: seq<Item>, rest: seq<Str>, marked: bool)
    requires i <= |args| && Written(c, args[i..], items, rest, marked)
    ensures |rest| <= |args| && Scan(c, args, i, "") == Tells(c, items, marked, |args| - |rest|)
    decreases |items|
  {
    hide Scan, ItemFits, Elements, ItemReports;
    if items == [] {
      NothingMore(c, args, i, rest);
    } else {
      var behind :|
        && args[i..] == Elements(items[0]) + behind && ItemFits(c, items[0], behind)
        && (items[0].Argument? ==> PassesOver(c) || TellsAll(c))
        && if IsMark(items[0]) then |items| == 1 && marked && rest == behind
           else Written(c, behind, items[1..], rest, marked);
      ItemScans(c, args, i, items[0], behind);
      if IsMark(items[0]) {
        assert items[1..] == [];
        assert Reports(c, items) == ItemReports(c, items[0]) && Taken(c, items, false) == Elements(items[0]);
      } else {
        LineIsTold(c, args, i + |Elements(items[0])|, items[1..], rest, marked);
        if items[0].Argument? && PassesOver(c) { NoReports(c, items); }
      }
    }
  }

  lemma NoReports(c: Config, items: seq<Item>)
    requires items != [] && items[0].Argument? && PassesOver(c)
    ensures Reports(c, items) == Reports(c, items[1..])
  {
    assert ItemReports(c, items[0]) == [];
  }

  lemma NothingMore(c: Config, args: seq<Str>, i: nat, rest: seq<Str>)
    requires i <= |args| && Written(c, args[i..], [], rest, false)
    ensures |rest| <= |args| && Scan(c, args, i, "") == Tells(c, [], false, |args| - |rest|)
  {
    hide OptionStep;
    Orders(c);
    if i < |args| { assert rest[0] == args[i]; }
  }

  // ---------- every line is written in some way ----------

  /** A long option, from what follows the dashes and the elements behind. */
  lemma LongIsWritten(c: Config, name: Str, tail: seq<Str>) returns (u: LongUse, behind: seq<Str>)
    requires name != ""
    ensures Text(u) == name && tail == More(u.next) + behind && LongFits(c, u, behind)
  {
    hide Means, Lookup;
    var eq := IndexOf(name, '=', 0);
    var cur := name[..eq];
    var m := Lookup(c.longs, cur);
    LookupMeans(c.longs, cur, m);
    UniqueIn(c.longs, cur, m);
    u := LongUse(m, cur, if eq < |name| then Some(name[eq + 1..]) else None, None);
    behind := tail;
    if m.Unique? && c.longs[m.k].hasArg == RequiredArgument && u.arg == None && tail != [] {
      u, behind := u.(next := Some(tail[0])), tail[1..];
    }
    if eq < |name| { assert cur + "=" + name[eq + 1..] == name; }
  }

  /** A cluster, from its letters and the elements behind. */
  lemma {:induction false} ClusterIsWritten(c: Config, text: Str, tail: seq<Str>)
    returns (letters: Str, e: End, behind: seq<Str>)
    requires text != ""
    ensures text == letters + EndText(e) && tail == EndMore(e) + behind && EndFits(c, e, behind)
    ensures forall x :: x in letters ==> IsUnknown(c, x) || TakesNone(c, x)
    decreases |text|
  {
    hide IsUnknown, AsksLong, TakesNone, MustHave, MayHave, LongFits;
    var x, more := text[0], text[1..];
    LetterKinds(c, x);
    if IsUnknown(c, x) || TakesNone(c, x) {
      if more == "" {
        letters, e, behind := [x], Nothing, tail;
      } else {
        letters, e, behind := ClusterIsWritten(c, more, tail);
        assert text == [x] + letters + EndText(e);
        letters := [x] + letters;
      }
    } else if AsksLong(c, x) {
      letters := "";
      AsksOnly(c, x);
      e, behind := LongEndIsWritten(c, more, tail);
    } else {
      letters, behind := "", tail;
      if more != "" {
        e := Joined(x, more);
      } else if MayHave(c, x) {
        e := Without(x);
      } else if tail == [] {
        e := Lacking(x);
      } else {
        e, behind := Apart(x, tail[0]), tail[1..];
      }
    }
  }

  lemma AsksOnly(c: Config, x: char)
    requires AsksLong(c, x)
    ensures x == 'W'
  {}

  lemma LongEndIsWritten(c: Config, more: Str, tail: seq<Str>) returns (e: End, behind: seq<Str>)
    requires AsksLong(c, 'W')
    ensures EndText(e) == "W" + more && tail == EndMore(e) + behind && EndFits(c, e, behind)
  {
    hide AsksLong, LongFits;
    behind := tail;
    if more != "" {
      var u;
      u, behind := LongIsWritten(c, more, tail);
      e := LongJoined(u);
    } else if tail == [] {
      e := Lacking('W');
    } else if tail[0] == "" {
      e, behind := MarkApart, tail[1..];
    } else {
      var u;
      u, behind := LongIsWritten(c, tail[0], tail[1..]);
      e := LongApart(u);
    }
  }

  lemma {:induction false} LineIsWritten(c: Config, line: seq<Str>)
    returns (items: seq<Item>, rest: seq<Str>, marked: bool)
    ensures Written(c, line, items, rest, marked)
    decreases |line|
  {
    hide EndFits, LongFits, IsUnknown, TakesNone;
    items, rest, marked := [], line, false;
    if line != [] && (IsOption(line[0]) || PassesOver(c) || TellsAll(c)) {
      var it, behind := ItemIsWritten(c, line);
      if IsMark(it) {
        items, rest, marked := [it], behind, true;
      } else {
        items, rest, marked := LineIsWritten(c, behind);
        assert ([it] + items)[1..] == items;
        items := [it] + items;
      }
      assert items[0] == it;
    }
  }

  /** The first item of a line. */
  lemma ItemIsWritten(c: Config, line: seq<Str>) returns (it: Item, behind: seq<Str>)
    requires line != []
    ensures line == Elements(it) + behind && ItemFits(c, it, behind) && (it.Argument? <==> !IsOption(line[0]))
  {
    hide EndFits, LongFits, IsUnknown, TakesNone, EndText, EndMore, Text;
    var a, tail := line[0], line[1..];
    if !IsOption(a) {
      it, behind := Argument(a), tail;
    } else if a[1] != '-' {
      var letters, e;
      letters, e, behind := ClusterIsWritten(c, a[1..], tail);
      it := Cluster(letters, e);
      assert "-" + letters + EndText(e) == "-" + (letters + EndText(e)) == a;
      assert [a] + EndMore(e) + behind == [a] + (EndMore(e) + behind);
    } else if a == "--" {
      it, behind := Mark, tail;
    } else {
      var u;
      u, behind := LongIsWritten(c, a[2..], tail);
      it := Long(u);
      assert "--" + a[2..] == a && [a] + More(u.next) + behind == [a] + (More(u.next) + behind);
    }
  }

  /** Every scan tells what its line tells, written in some way, and no other way of writing that line
      tells anything else. */
  lemma ScanIsUsage(c: Config, args: seq<Str>, i: nat) returns (items: seq<Item>, rest: seq<Str>, marked: bool)
    requires i <= |args|
    ensures Written(c, args[i..], items, rest, marked)
    ensures |rest| <= |args| && Scan(c, args, i, "") == Tells(c, items, marked, |args| - |rest|)
    ensures forall items', rest', marked' :: Written(c, args[i..], items', rest', marked') ==>
              Reports(c, items') == Reports(c, items) && Taken(c, items', true) == Taken(c, items, true)
              && rest' == rest && marked' == marked
  {
    hide Written, Reports, Taken, Scan;
    items, rest, marked := LineIsWritten(c, args[i..]);
    LineIsTold(c, args, i, items, rest, marked);
    forall items', rest', marked' | Written(c, args[i..], items', rest', marked')
      ensures Reports(c, items') == Reports(c, items) && Taken(c, items', true) == Taken(c, items, true)
              && rest' == rest && marked' == marked
    {
      LineIsTold(c, args, i, items', rest', marked');
      RestEnds(c, args[i..], items, rest, marked);
      RestEnds(c, args[i..], items', rest', marked');
    }
  }

  lemma {:induction false} RestEnds(c: Config, line: seq<Str>, items: seq<Item>, rest: seq<Str>, marked: bool)
    requires Written(c, line, items, rest, marked)
    ensures |rest| <= |line| && rest == line[|line| - |rest|..]
    decreases |items|
  {
    hide ItemFits;
    if items != [] {
      var behind :|
        && line == Elements(items[0]) + behind && ItemFits(c, items[0], behind)
        && (items[0].Argument? ==> PassesOver(c) || TellsAll(c))
        && if IsMark(items[0]) then |items| == 1 && marked && rest == behind
           else Written(c, behind, items[1..], rest, marked);
      if !IsMark(items[0]) { RestEnds(c, behind, items[1..], rest, marked); }
    }
  }

  /** What a caller gets for a line who calls until -1: its reports, up to the first that is -1 itself;
      if there is none, the vector holds the items that are no arguments, the arguments passed over,
      and the rest. */
  ghost predicate Delivers(c: Config, args: seq<Str>, i: nat, reports: seq<Report>, now: seq<Str>)
    requires i <= |args|
  {
    forall items, rest, marked :: Written(c, args[i..], items, rest, marked) ==>
      && reports == BeforeEnd(Reports(c, items))
      && (reports == Reports(c, items) ==>
            now == args[..i] + Taken(c, items, false) + Taken(c, items, true) + rest)
  }

  lemma ScanDelivers(c: Config, args: seq<Str>, i: nat, reports: seq<Report>, now: seq<Str>)
    requires i <= |args| && reports == BeforeEnd(Scan(c, args, i, "").reports)
    requires reports == Scan(c, args, i, "").reports ==> now == Sorted(args, i, Scan(c, args, i, ""))
    ensures Delivers(c, args, i, reports, now)
  {
    hide Written, Reports, Taken, Scan;
    forall items, rest, marked | Written(c, args[i..], items, rest, marked)
      ensures reports == BeforeEnd(Reports(c, items))
      ensures reports == Reports(c, items) ==>
                now == args[..i] + Taken(c, items, false) + Taken(c, items, true) + rest
    {
      LineIsTold(c, args, i, items, rest, marked);
      RestEnds(c, args[i..], items, rest, marked);
      assert args[|args| - |rest|..] == rest;
    }
  }
}
