/** getopt_long: the scanner that moves options in front of the other arguments as it goes
    (src/missing/getopt_long.c). */
module Getopt {
  import opened Wrappers
  import opened Options
  import opened Exchange
  import Usage

  /** How the vector, args at first, is laid out when the scan that began at begin has reached optind:
      options, then the arguments passed over, then the options found since, then what has not been
      looked at. Between two options, some option has been found since unless pending. */
  ghost predicate Laid(args: seq<Str>, now: seq<Str>, begin: nat, optind: nat, nonoptStart: int, nonoptEnd: int,
                       opts: seq<Str>, nonopts: seq<Str>, pending: bool)
  {
    && 1 <= begin <= optind
    && if optind > |args| then
         now == args && begin == optind && opts == [] && nonopts == [] && nonoptStart == -1 && nonoptEnd == -1
       else
         && |now| == |args| && now[..begin] == args[..begin] && now[optind..] == args[optind..]
         && (if nonoptStart == -1 then
               nonoptEnd == -1 && nonopts == [] && opts == now[begin..optind]
             else if nonoptEnd == -1 then
               && begin <= nonoptStart < optind
               && opts == now[begin..nonoptStart] && nonopts == now[nonoptStart..optind]
             else
               && begin <= nonoptStart < nonoptEnd <= optind && (pending || nonoptEnd < optind)
               && opts == now[begin..nonoptStart] + now[nonoptEnd..optind] && nonopts == now[nonoptStart..nonoptEnd])
  }

  /** An option takes up the elements up to next. */
  lemma LaidOption(args: seq<Str>, now: seq<Str>, begin: nat, optind: nat, nonoptStart: int, nonoptEnd: int,
                   opts: seq<Str>, nonopts: seq<Str>, pending: bool, next: nat)
    requires Laid(args, now, begin, optind, nonoptStart, nonoptEnd, opts, nonopts, pending)
    requires nonoptStart == -1 || nonoptEnd != -1
    requires optind <= next <= |args|
    ensures Laid(args, now, begin, next, nonoptStart, nonoptEnd, opts + args[optind..next], nonopts,
                 pending && optind == next)
  {
    Tails(args, now, optind, next);
    if nonoptEnd == -1 {
      Grows(now, [], begin, optind, next);
    } else {
      Grows(now, now[begin..nonoptStart], nonoptEnd, optind, next);
    }
  }

  lemma Grows(s: seq<Str>, front: seq<Str>, i: nat, j: nat, k: nat)
    requires i <= j <= k <= |s|
    ensures (front + s[i..j]) + s[j..k] == front + s[i..k]
    ensures s[i..j] + s[j..k] == s[i..k]
  {
    assert s[i..j] + s[j..k] == s[i..k];
  }

  lemma Tails(args: seq<Str>, now: seq<Str>, i: nat, j: nat)
    requires i <= j <= |args| == |now| && now[i..] == args[i..]
    ensures now[i..j] == args[i..j] && now[j..] == args[j..]
    ensures i < j ==> now[i] == args[i]
    ensures i + 1 < j ==> now[i + 1] == args[i + 1]
  {
    assert now[i..j] == now[i..][..j - i] && args[i..j] == args[i..][..j - i];
    assert now[j..] == now[i..][j - i..] && args[j..] == args[i..][j - i..];
    assert i < j ==> now[i] == now[i..][0] && args[i] == args[i..][0];
    assert i + 1 < j ==> now[i + 1] == now[i..][1] && args[i + 1] == args[i..][1];
  }

  /** An argument is passed over. */
  lemma LaidNonOption(args: seq<Str>, now: seq<Str>, begin: nat, optind: nat, nonoptStart: int,
                      opts: seq<Str>, nonopts: seq<Str>, pending: bool)
    requires Laid(args, now, begin, optind, nonoptStart, -1, opts, nonopts, pending) && optind < |args|
    ensures Laid(args, now, begin, optind + 1, if nonoptStart == -1 then optind else nonoptStart, -1,
                 opts, nonopts + [args[optind]], pending)
  {
    Tails(args, now, optind, optind + 1);
    if nonoptStart != -1 {
      assert now[nonoptStart..optind + 1] == now[nonoptStart..optind] + [now[optind]];
    }
  }

  /** The options found since the arguments passed over move in front of them. */
  lemma LaidExchanged(args: seq<Str>, was: seq<Str>, begin: nat, optind: nat, nonoptStart: nat, nonoptEnd: nat,
                      opts: seq<Str>, nonopts: seq<Str>)
    requires Laid(args, was, begin, optind, nonoptStart, nonoptEnd, opts, nonopts, false)
    ensures begin <= nonoptStart < nonoptEnd < optind <= |was|
    ensures Laid(args, Exchanged(was, nonoptStart, nonoptEnd, optind), begin, optind,
                 optind - (nonoptEnd - nonoptStart), -1, opts, nonopts, false)
  {
    var now := Exchanged(was, nonoptStart, nonoptEnd, optind);
    var seam := optind - (nonoptEnd - nonoptStart);
    assert now[optind..] == was[optind..];
    assert now[..begin] == was[..begin];
    assert now[begin..seam] == was[begin..nonoptStart] + was[nonoptEnd..optind];
    assert now[seam..optind] == was[nonoptStart..nonoptEnd];
  }

  /** With nothing more to be found the vector is sorted. */
  lemma LaidSorted(args: seq<Str>, now: seq<Str>, begin: nat, optind: nat, nonoptStart: int,
                   opts: seq<Str>, nonopts: seq<Str>, pending: bool, t: Tally)
    requires Laid(args, now, begin, optind, nonoptStart, -1, opts, nonopts, pending)
    requires t.opts == opts && t.nonopts == nonopts && t.next == optind
    ensures now == Sorted(args, begin, t)
    ensures begin + |opts| == if nonoptStart == -1 then (if optind <= |args| then optind else begin) else nonoptStart
  {
    if optind <= |args| {
      assert now == now[..begin] + now[begin..optind] + now[optind..];
      if nonoptStart != -1 {
        assert now[begin..optind] == now[begin..nonoptStart] + now[nonoptStart..optind];
      }
    }
  }

  /** A tally with what was taken and passed over before. */
  function After(opts: seq<Str>, nonopts: seq<Str>, t: Tally): Tally {
    t.(opts := opts + t.opts, nonopts := nonopts + t.nonopts)
  }

  /** The tally from an option at element i on, read by the step s. */
  function Take(c: Config, args: seq<Str>, opts: seq<Str>, nonopts: seq<Str>, i: nat, s: Step): Tally
    requires i <= s.next <= |args| && (s.Told? && s.rest != "" ==> s.next < |args|)
  {
    match s
    case Last(next) => Tally([], opts + args[i..next], nonopts, true, next)
    case Told(report, next, rest) =>
      var t := After(opts + args[i..next], nonopts, Scan(c, args, next, rest));
      t.(reports := [report] + t.reports)
  }

  /** The elements up to mid may be taken up before. */
  lemma TakeLater(c: Config, args: seq<Str>, opts: seq<Str>, nonopts: seq<Str>, i: nat, mid: nat, s: Step)
    requires i <= mid <= s.next <= |args| && (s.Told? && s.rest != "" ==> s.next < |args|)
    ensures Take(c, args, opts, nonopts, i, s) == Take(c, args, opts + args[i..mid], nonopts, mid, s)
  {
    hide Scan;
    assert args[i..s.next] == args[i..mid] + args[mid..s.next];
    assert opts + args[i..s.next] == (opts + args[i..mid]) + args[mid..s.next];
  }

  lemma ScanTakes(c: Config, args: seq<Str>, opts: seq<Str>, nonopts: seq<Str>, i: nat, rest: Str)
    requires i < |args| && (rest != "" || IsOption(args[i]))
    ensures After(opts, nonopts, Scan(c, args, i, rest)) ==
            Take(c, args, opts, nonopts, i, OptionStep(c, args, i, rest))
  {
    match OptionStep(c, args, i, rest)
    case Last(next) =>
    case Told(report, next, more) =>
      var t := Scan(c, args, next, more);
      assert (opts + args[i..next]) + t.opts == opts + (args[i..next] + t.opts);
  }

  lemma ScanPasses(c: Config, args: seq<Str>, opts: seq<Str>, nonopts: seq<Str>, i: nat)
    requires i < |args| && !IsOption(args[i]) && c.Permute()
    ensures After(opts, nonopts, Scan(c, args, i, "")) == After(opts, nonopts + [args[i]], Scan(c, args, i + 1, ""))
  {
    var t := Scan(c, args, i + 1, "");
    assert nonopts + ([args[i]] + t.nonopts) == (nonopts + [args[i]]) + t.nonopts;
  }

  lemma ScanInOrder(c: Config, args: seq<Str>, opts: seq<Str>, nonopts: seq<Str>, i: nat)
    requires i < |args| && !IsOption(args[i]) && c.InOrder()
    ensures
      var t := After(opts + args[i..i + 1], nonopts, Scan(c, args, i + 1, ""));
      After(opts, nonopts, Scan(c, args, i, "")) ==
          t.(reports := [Report(INORDER, Some(args[i]), None, None, Silent)] + t.reports)
  {
    var t := Scan(c, args, i + 1, "");
    assert args[i..i + 1] == [args[i]];
    assert opts + ([args[i]] + t.opts) == (opts + [args[i]]) + t.opts;
  }

  lemma ScanStops(c: Config, args: seq<Str>, opts: seq<Str>, nonopts: seq<Str>, i: nat)
    requires i >= |args| || (!IsOption(args[i]) && !c.InOrder() && !c.Permute())
    ensures After(opts, nonopts, Scan(c, args, i, "")) == Tally([], opts, nonopts, false, i)
  {
    assert opts + [] == opts && nonopts + [] == nonopts;
  }

  /** The state that calls of getopt_long share. */
  class Scanner {
    var optind: nat
    var optarg: Option<Str>
    var optopt: int
    var optreset: bool
    var place: Str
    var nonoptStart: int
    var nonoptEnd: int
    var flags: map<nat, int>

    const c: Config
    const nargv: array<Str>

    ghost var args: seq<Str>
    ghost var begin: nat
    ghost var opts: seq<Str>
    ghost var nonopts: seq<Str>

    /** optreset, like optind 0, starts a new scan. */
    function Position(): nat reads this { if optind == 0 then 1 else optind }
    function Pending(): Str reads this { if optreset then "" else place }

    ghost predicate Valid()
      reads this, nargv
    {
      && |args| == nargv.Length
      && (nonoptStart != -1 && !optreset ==> c.Permute())
      && (if optreset then
            begin == Position() && opts == [] && nonopts == [] && nargv[..] == args
          else
            && Laid(args, nargv[..], begin, Position(), nonoptStart, nonoptEnd, opts, nonopts, place != "")
            && (place != "" ==> Position() < |args| && (nonoptStart == -1 || nonoptEnd != -1)))
    }

    /** Before the first call. */
    ghost predicate Fresh()
      reads this, nargv
    {
      Valid() && args == nargv[..] && opts == [] && nonopts == [] && begin == Position() && Pending() == ""
    }

    /** What the calls from now on will have told and taken in the end, together with what was taken
        up to now. */
    ghost function Outlook(): Tally
      reads this
      requires Pending() != "" ==> Position() < |args|
    {
      After(opts, nonopts, Scan(c, args, Position(), Pending()))
    }

    /** The first call begins at element 1 of an untouched vector. */
    constructor (c: Config, nargv: array<Str>)
      ensures this.c == c && this.nargv == nargv && Fresh() && begin == 1
    {
      this.c := c;
      this.nargv := nargv;
      optind := 1;
      optarg := None;
      optopt := '?' as int;
      optreset := false;
      place := "";
      nonoptStart := -1;
      nonoptEnd := -1;
      flags := map[];
      args := nargv[..];
      begin := 1;
      opts := [];
      nonopts := [];
    }

    /** Between the steps of a call: everything up to optind is accounted for. */
    ghost predicate Here(pending: bool)
      reads this`optind, this`nonoptStart, this`nonoptEnd, this`args, this`begin, this`opts, this`nonopts, nargv
    {
      && optind > 0 && |args| == nargv.Length && (nonoptStart != -1 ==> c.Permute())
      && Laid(args, nargv[..], begin, optind, nonoptStart, nonoptEnd, opts, nonopts, pending)
    }

    /** An option has been found at optind, and what s reads is still to come. */
    ghost predicate Found(t: Tally, s: Step)
      reads this`optind, this`nonoptStart, this`nonoptEnd, this`args, this`begin, this`opts, this`nonopts, nargv
    {
      && Here(true) && (nonoptStart == -1 || nonoptEnd != -1)
      && optind <= s.next <= |args| && (s.Told? && s.rest != "" ==> s.next < |args|)
      && t == Take(c, args, opts, nonopts, optind, s)
    }

    /** A report has been made and the scan goes on. */
    ghost predicate Reported(t: Tally, report: Report)
      reads this, nargv
    {
      && Valid() && !optreset && optind > 0
      && t == Outlook().(reports := [report] + Outlook().reports)
    }

    /** The scan is over: the vector is sorted and optind is the first argument that is no option. */
    ghost predicate Finished(t: Tally)
      reads this, nargv
    {
      t.reports == [] && nargv[..] == Sorted(args, begin, t) && optind == begin + |t.opts|
    }

    /** The elements up to next belong to the option at optind. */
    ghost method Account(pending: bool, next: nat)
      requires Here(pending) && optind <= next <= |args| && (nonoptStart == -1 || nonoptEnd != -1)
      modifies this`opts
      ensures opts == old(opts) + args[optind..next]
      ensures Laid(args, nargv[..], begin, next, nonoptStart, nonoptEnd, opts, nonopts, pending && optind == next)
    {
      LaidOption(args, nargv[..], begin, optind, nonoptStart, nonoptEnd, opts, nonopts, pending, next);
      opts := opts + args[optind..next];
    }

    /** The options found since the arguments passed over move in front of them. */
    method Permute()
      requires Here(false) && nonoptEnd != -1
      modifies nargv
      ensures 1 <= begin <= nonoptStart < nonoptEnd < optind
      ensures Laid(args, nargv[..], begin, optind, optind - (nonoptEnd - nonoptStart), -1, opts, nonopts, false)
    {
      LaidExchanged(args, nargv[..], begin, optind, nonoptStart, nonoptEnd, opts, nonopts);
      PermuteArgs(nonoptStart, nonoptEnd, optind, nargv);
    }

    /** The last exchange leaves the vector sorted. */
    method PermuteLast(ghost t: Tally)
      requires Here(false) && nonoptEnd != -1
      requires t.opts == opts && t.nonopts == nonopts && t.next == optind
      modifies this`optind, nargv
      ensures nargv[..] == Sorted(args, begin, t) && optind == begin + |t.opts|
    {
      hide Sorted;
      Permute();
      LaidSorted(args, nargv[..], begin, optind, optind - (nonoptEnd - nonoptStart), opts, nonopts, false, t);
      optind := optind - (nonoptEnd - nonoptStart);
    }

    /** The end of the scan at optind. */
    method Finish(ghost t: Tally)
      requires Here(false)
      requires t.reports == [] && t.opts == opts && t.nonopts == nonopts && t.next == optind
      modifies this`optind, this`nonoptStart, this`nonoptEnd, nargv
      ensures Finished(t) && nonoptStart == -1 && nonoptEnd == -1
    {
      hide Sorted;
      if nonoptEnd != -1 {
        PermuteLast(t);
      } else {
        LaidSorted(args, nargv[..], begin, optind, nonoptStart, opts, nonopts, false, t);
        if nonoptStart != -1 { optind := nonoptStart; }
      }
      nonoptStart := -1;
      nonoptEnd := -1;
    }

    lemma NoneYet()
      requires Here(false)
      ensures nonoptStart == -1 ==> nonoptEnd == -1
    {}

    /** One argument that is no option is passed over. */
    method PassOver()
      requires Here(false) && optind < |args| && c.Permute()
      modifies this`optind, this`nonoptStart, this`nonoptEnd, this`nonopts, nargv
      ensures Here(false) && optind == old(optind) + 1 && nonoptEnd == -1
      ensures nonopts == old(nonopts) + [args[old(optind)]]
    {
      hide Laid;
      NoneYet();
      if nonoptStart == -1 {
        LaidNonOption(args, nargv[..], begin, optind, -1, opts, nonopts, false);
        nonoptStart := optind;
      } else if nonoptEnd != -1 {
        Permute();
        nonoptStart := optind - (nonoptEnd - nonoptStart);
        nonoptEnd := -1;
        LaidNonOption(args, nargv[..], begin, optind, nonoptStart, opts, nonopts, false);
      } else {
        LaidNonOption(args, nargv[..], begin, optind, nonoptStart, opts, nonopts, false);
      }
      nonopts := nonopts + [args[optind]];
      optind := optind + 1;
    }

    /** The next element of the vector has not been moved. */
    lemma NextElement(pending: bool)
      requires Here(pending) && optind < |args|
      ensures nargv[optind] == args[optind]
      ensures optind + 1 < |args| ==> nargv[optind + 1] == args[optind + 1]
    {
      Tails(args, nargv[..], optind, if optind + 1 < |args| then optind + 2 else optind + 1);
    }

    /** An option begins here. */
    lemma Marks()
      requires Here(false)
      ensures Laid(args, nargv[..], begin, optind, nonoptStart,
                   if nonoptStart != -1 && nonoptEnd == -1 then optind else nonoptEnd, opts, nonopts, true)
    {
      if nonoptStart != -1 && nonoptEnd == -1 {
        assert nargv[..][optind..optind] == [];
      }
    }

    /** An argument that is reported in its place. */
    method TakeInOrder()
      requires Here(false) && optind < |args| && !optreset && place == "" && nonoptStart == -1
      requires c.InOrder() && !IsOption(args[optind])
      modifies this`optind, this`optarg, this`opts
      ensures Reported(old(Outlook()), Report(INORDER, optarg, None, None, Silent))
    {
      hide Laid, Scan, After;
      ScanInOrder(c, args, opts, nonopts, optind);
      NextElement(false);
      optarg := Some(nargv[optind]);
      Account(false, optind + 1);
      optind := optind + 1;
      Goes();
    }

    lemma Goes()
      requires Here(false) && !optreset && place == ""
      ensures Valid()
    {}

    /** An option begins at optind: place moves behind its dashes. */
    method TakeOption() returns (long: bool)
      requires Here(false) && optind < |args| && !optreset
      requires place == args[optind] && IsOption(args[optind])
      modifies this`nonoptEnd, this`place
      ensures long ==> Found(After(opts, nonopts, Scan(c, args, optind, "")), LongStep(c, args, optind, place))
      ensures !long ==>
        place != "" && Found(After(opts, nonopts, Scan(c, args, optind, "")), LetterStep(c, args, optind, place))
    {
      hide Laid, Scan, After, LongStep, LetterStep, Take;
      ScanTakes(c, args, opts, nonopts, optind, "");
      Marks();
      if nonoptStart != -1 && nonoptEnd == -1 { nonoptEnd := optind; }
      place := place[1..];
      long := place[0] == '-';
      if long { place := place[1..]; }
    }

    /** What a call, or a part of one, that stopped early has done: -1 for the end of the scan, -2 for
        a long option at optind, INORDER for a report. */
    ghost predicate Stopped(t: Tally, ret: int)
      reads this, nargv
    {
      if ret == -1 then Finished(t)
      else if ret == -2 then !optreset && optind < |args| && Found(t, LongStep(c, args, optind, place))
      else ret == INORDER && Reported(t, Report(INORDER, optarg, None, None, Silent))
    }

    /** An option letter is next. */
    ghost predicate AtLetter(t: Tally)
      reads this, nargv
    {
      place != "" && optind < |args| && Found(t, LetterStep(c, args, optind, place))
    }

    /** The next element of the vector: passed over, or the end of the scan, or an option. */
    method Look() returns (again: bool, ret: Option<int>)
      requires Here(false) && !optreset && place == ""
      modifies this`optind, this`place, this`optarg, this`nonoptStart, this`nonoptEnd, this`opts, this`nonopts, nargv
      ensures again ==> Here(false) && optind == old(optind) + 1 <= |args| && place == "" && optarg == old(optarg)
      ensures again ==> Outlook() == old(Outlook())
      ensures !again && ret.Some? ==> Stopped(old(Outlook()), ret.value)
      ensures !again && ret == Some(-2) ==> optarg == old(optarg)
      ensures !again && ret.None? ==> AtLetter(old(Outlook())) && optarg == old(optarg)
    {
      hide Laid, Scan, After, LongStep, LetterStep, Take, Found, Finished, Reported, Sorted;
      if optind >= nargv.Length {
        ScanStops(c, args, opts, nonopts, optind);
        Finish(old(Outlook()));
        return false, Some(-1);
      }
      NextElement(false);
      place := nargv[optind];
      if IsOption(place) {
        var long := TakeOption();
        return false, if long then Some(-2) else None;
      }
      place := "";
      if c.InOrder() {
        TakeInOrder();
        return false, Some(INORDER);
      }
      if !c.Permute() {
        ScanStops(c, args, opts, nonopts, optind);
        Stays(old(Outlook()));
        return false, Some(-1);
      }
      ScanPasses(c, args, opts, nonopts, optind);
      PassOver();
      return true, None;
    }

    /** The part of getopt_internal that updates the scanning pointer: it ends the call, or leaves
        place at an option letter. */
    method Seek() returns (ret: Option<int>)
      requires Valid() && optind > 0 && (optreset ==> nonoptStart == -1 && nonoptEnd == -1)
      modifies this`optind, this`place, this`optarg, this`optreset, this`nonoptStart, this`nonoptEnd, this`opts,
               this`nonopts, nargv
      ensures ret.Some? ==> Stopped(old(Outlook()), ret.value)
      ensures ret == Some(-2) ==> optarg == old(optarg)
      ensures ret.None? ==> AtLetter(old(Outlook())) && optarg == old(optarg) && !optreset
    {
      hide Laid, Scan, After, LongStep, LetterStep, Take, Stopped, AtLetter;
      Starts();
      if !optreset && place != "" {
        InTheMiddle();
        return None;
      }
      optreset := false;
      place := "";
      var again := true;
      ret := None;
      while again
        invariant again ==> Here(false) && !optreset && place == "" && optarg == old(optarg)
        invariant again ==> Outlook() == old(Outlook())
        invariant !again && ret.Some? ==> Stopped(old(Outlook()), ret.value)
        invariant !again && ret == Some(-2) ==> optarg == old(optarg)
        invariant !again && ret.None? ==> AtLetter(old(Outlook())) && optarg == old(optarg) && !optreset
        decreases again, |args| - optind
      {
        again, ret := Look();
      }
    }

    lemma InTheMiddle()
      requires Valid() && optind > 0 && !optreset && place != ""
      ensures AtLetter(Outlook())
    {
      hide Scan, After, LongStep, LetterStep, Take;
      ScanTakes(c, args, opts, nonopts, optind, place);
    }

    lemma Starts()
      requires Valid() && optind > 0 && (optreset ==> nonoptStart == -1 && nonoptEnd == -1)
      ensures Here(Pending() != "")
    {}

    /** Nothing has been passed over when the scan stops here. */
    lemma Stays(t: Tally)
      requires Here(false) && optind <= |args| && nonoptStart == -1
      requires t == Tally([], opts, nonopts, false, optind)
      ensures Finished(t)
    {
      LaidSorted(args, nargv[..], begin, optind, -1, opts, nonopts, false, t);
    }

    /** What getopt_internal leaves to its caller: as Stopped, or an option letter has been reported. */
    ghost predicate Internal(t: Tally, retval: int, complaint: Complaint)
      reads this, nargv
    {
      if retval < 0 then Stopped(t, retval)
      else Reported(t, Report(retval, optarg, if complaint.Silent? then None else Some(optopt), None, complaint))
    }

    /** A step reads on to next, where rest is still to be read. */
    ghost method Move(t: Tally, report: Report, next: nat, rest: Str)
      requires optind <= next <= |args| && (rest != "" ==> next < |args|)
      requires Found(t, Told(report, next, rest))
      requires rest == "" ==> optind < next
      modifies this`opts
      ensures opts == old(opts) + args[optind..next]
      ensures Laid(args, nargv[..], begin, next, nonoptStart, nonoptEnd, opts, nonopts, rest != "")
      ensures var u := After(opts, nonopts, Scan(c, args, next, rest)); t == u.(reports := [report] + u.reports)
    {
      hide Scan, After;
      Account(true, next);
    }

    /** The element that a -W takes up is the option itself; its name is the next element. */
    ghost method MoveToLong(t: Tally)
      requires optind + 1 < |args| && Found(t, LongStep(c, args, optind + 1, args[optind + 1]))
      modifies this`opts
      ensures opts == old(opts) + args[optind..optind + 1]
      ensures Laid(args, nargv[..], begin, optind + 1, nonoptStart, nonoptEnd, opts, nonopts, true)
      ensures t == Take(c, args, opts, nonopts, optind + 1, LongStep(c, args, optind + 1, args[optind + 1]))
    {
      hide Scan, LongStep, Take;
      TakeLater(c, args, opts, nonopts, optind, optind + 1, LongStep(c, args, optind + 1, args[optind + 1]));
      Account(true, optind + 1);
    }

    /** With the elements accounted for, the report is made. */
    lemma Tells(t: Tally, report: Report)
      requires Here(place != "") && !optreset && (nonoptStart == -1 || nonoptEnd != -1)
               && (place != "" ==> optind < |args|)
      requires var u := After(opts, nonopts, Scan(c, args, optind, place)); t == u.(reports := [report] + u.reports)
      ensures Reported(t, report)
    {
      hide Laid, Scan, After;
    }

    /** A letter that introduces a long option: the rest of the element or the next one. */
    method LongLetter(ghost t: Tally, optchar: char) returns (retval: int, complaint: Complaint)
      requires !optreset && optind < |args| && optarg == None && Found(t, WStep(optchar))
      modifies this`optind, this`place, this`optopt, this`opts
      ensures retval != -1 && Internal(t, retval, complaint) && optarg == old(optarg)
    {
      hide Laid, Scan, After, LongStep, Take;
      if place != "" { return -2, Silent; }
      NextElement(true);
      if optind + 1 >= nargv.Length {
        Move(t, WStep(optchar).report, optind + 1, "");
        optind := optind + 1;
        optopt := optchar as int;
        return c.BadArg(), RecArgChar(optchar);
      }
      place := nargv[optind + 1];
      MoveToLong(t);
      optind := optind + 1;
      return -2, Silent;
    }

    ghost function WStep(optchar: char): Step
      reads this`args, this`optind, this`place
      requires optind < |args|
    {
      if place != "" then LongStep(c, args, optind, place)
      else if optind + 1 == |args| then
        Told(Report(c.BadArg(), None, Some(optchar as int), None, RecArgChar(optchar)), optind + 1, "")
      else LongStep(c, args, optind + 1, args[optind + 1])
    }

    /** The argument of a letter: the rest of the element, or the next one unless optional. */
    method Argument(ghost t: Tally, optchar: char, optional: bool) returns (retval: int, complaint: Complaint)
      requires !optreset && optind < |args| && optarg == None && Found(t, ArgumentStep(optchar, optional))
      modifies this`optind, this`place, this`optopt, this`optarg, this`opts
      ensures retval != -1 && Internal(t, retval, complaint)
      ensures retval == -2 ==> optarg == None
    {
      hide Laid, Scan, After, LongStep, Take, Reported;
      NextElement(true);
      ghost var s := ArgumentStep(optchar, optional);
      Move(t, s.report, s.next, s.rest);
      if place != "" {
        optarg := Some(place);
      } else if !optional {
        optind := optind + 1;
        if optind >= nargv.Length {
          optopt := optchar as int;
          Tells(t, s.report);
          return c.BadArg(), RecArgChar(optchar);
        }
        optarg := Some(nargv[optind]);
      }
      place := "";
      optind := optind + 1;
      Tells(t, s.report);
      return optchar as int, Silent;
    }

    ghost function ArgumentStep(optchar: char, optional: bool): Step
      reads this`args, this`optind, this`place
      requires optind < |args|
    {
      if place != "" then Told(Report(optchar as int, Some(place), None, None, Silent), optind + 1, "")
      else if optional then Told(Report(optchar as int, None, None, None, Silent), optind + 1, "")
      else if optind + 1 == |args| then
        Told(Report(c.BadArg(), None, Some(optchar as int), None, RecArgChar(optchar)), optind + 1, "")
      else Told(Report(optchar as int, Some(args[optind + 1]), None, None, Silent), optind + 2, "")
    }

    /** The letter at place. */
    method Letter(ghost t: Tally) returns (retval: int, complaint: Complaint)
      requires AtLetter(t) && optarg == None && !optreset
      modifies this`optind, this`place, this`optarg, this`optopt, this`opts
      ensures retval != -1 && Internal(t, retval, complaint)
      ensures retval == -2 ==> optarg == None
    {
      hide Laid, Scan, After, LongStep, Take, Reported;
      ghost var s := LetterStep(c, args, optind, place);
      var optchar := place[0];
      var oli := c.LetterAt(optchar);
      place := place[1..];
      if optchar == ':' || oli == |c.options| {
        Move(t, s.report, s.next, s.rest);
        if place == "" { optind := optind + 1; }
        optopt := optchar as int;
        Tells(t, s.report);
        return BADCH, IllOptChar(optchar);
      }
      if optchar == 'W' && CharAt(c.options, oli + 1) == ';' {
        retval, complaint := LongLetter(t, optchar);
        return;
      }
      if CharAt(c.options, oli + 1) != ':' {
        Move(t, s.report, s.next, s.rest);
        if place == "" { optind := optind + 1; }
        Tells(t, s.report);
        return optchar as int, Silent;
      }
      retval, complaint := Argument(t, optchar, CharAt(c.options, oli + 2) == ':');
    }

    /** getopt_internal */
    method GetoptInternal() returns (retval: int, complaint: Complaint)
      requires Valid()
      modifies this`optind, this`place, this`optarg, this`optopt, this`optreset, this`nonoptStart, this`nonoptEnd,
               this`opts, this`nonopts, nargv
      ensures Internal(old(Outlook()), retval, complaint)
      ensures retval == -2 ==> optarg == None
    {
      hide Laid, Scan, After, LongStep, LetterStep, Take, AtLetter, Reported;
      optarg := None;
      if optind == 0 { optind := 1; }
      if optreset {
        nonoptStart := -1;
        nonoptEnd := -1;
      }
      var stop := Seek();
      if stop.Some? {
        return stop.value, Silent;
      }
      retval, complaint := Letter(old(Outlook()));
    }

    /** The entry of the table that a name stands for: a loop over the table. */
    method FindLong(cur: Str) returns (match_: int, ambiguous: bool)
      ensures -1 <= match_ < |c.longs|
      ensures Means(c.longs, cur, if ambiguous then Ambiguous else if match_ == -1 then Unknown else Unique(match_))
      ensures Lookup(c.longs, cur) == if ambiguous then Ambiguous else if match_ == -1 then Unknown else Unique(match_)
    {
      hide Means;
      LookupMeans(c.longs, cur, Lookup(c.longs, cur));
      match_ := -1;
      ambiguous := false;
      for i := 0 to |c.longs|
        invariant -1 <= match_ < i
        invariant forall j :: 0 <= j < i ==> c.longs[j].name != cur
        invariant match_ == -1 ==> !ambiguous && forall j :: 0 <= j < i ==> !Abbreviates(cur, c.longs[j].name)
        invariant match_ != -1 ==>
          && Abbreviates(cur, c.longs[match_].name)
          && (forall j :: 0 <= j < match_ ==> !Abbreviates(cur, c.longs[j].name))
          && (ambiguous <==>
                exists j :: match_ < j < i && Abbreviates(cur, c.longs[j].name)
                            && !Identical(c.longs[j], c.longs[match_]))
      {
        if cur <= c.longs[i].name {
          if |c.longs[i].name| == |cur| {
            return i, false;
          }
          if match_ == -1 {
            match_ := i;
          } else if !Identical(c.longs[i], c.longs[match_]) {
            ambiguous := true;
          }
        }
      }
    }

    /** What getopt_long leaves: the end of the scan, or a report. */
    ghost predicate Answered(t: Tally, retval: int, idx: Option<nat>, complaint: Complaint, done: bool)
      reads this, nargv
    {
      if done then retval == -1 && Finished(t)
      else Reported(t, Report(retval, optarg, if complaint.Silent? then None else Some(optopt), idx, complaint))
    }

    /** The mark at the element before optind ends the options. */
    method Mark(ghost t: Tally)
      requires Found(t, Last(optind + 1))
      modifies this`optind, this`nonoptStart, this`nonoptEnd, this`opts, nargv
      ensures Finished(t)
    {
      hide Laid, Scan, Sorted, After;
      Account(true, optind + 1);
      optind := optind + 1;
      if nonoptEnd != -1 {
        PermuteLast(t);
      } else {
        LaidSorted(args, nargv[..], begin, optind, nonoptStart, opts, nonopts, false, t);
      }
      nonoptStart := -1;
      nonoptEnd := -1;
    }

    /** The name and argument of a long option, when optind is already behind its element. */
    method ReadLong(currentArgv: Str) returns (retval: int, idx: Option<nat>, complaint: Complaint)
      requires 0 < optind <= |args| == nargv.Length && optarg == None && currentArgv != ""
      requires optind < |args| ==> nargv[optind] == args[optind]
      modifies this`optind, this`optarg, this`optopt, this`flags
      ensures Told(Report(retval, optarg, if complaint.Silent? then None else Some(optopt), idx, complaint), optind, "")
           == LongStep(c, args, old(optind) - 1, currentArgv)
      ensures flags == NewFlags(old(flags), idx) && (retval == -1 ==> flags == old(flags))
    {
      hide Lookup, Laid;
      idx, complaint := None, Silent;
      var hasEqual := IndexOf(currentArgv, '=', 0);
      var name := currentArgv[..hasEqual];
      var match_, ambiguous := FindLong(name);
      if ambiguous {
        optopt := 0;
        return BADCH, None, Ambig(name);
      }
      if match_ == -1 {
        optopt := 0;
        return BADCH, None, IllOptString(currentArgv);
      }
      var option := c.longs[match_];
      if option.hasArg == NoArgument && hasEqual < |currentArgv| {
        optopt := if option.flag == None then option.val else 0;
        return c.BadArg(), None, NoArg(name);
      }
      if option.hasArg == RequiredArgument || option.hasArg == OptionalArgument {
        if hasEqual < |currentArgv| {
          optarg := Some(currentArgv[hasEqual + 1..]);
        } else if option.hasArg == RequiredArgument {
          optarg := if optind < nargv.Length then Some(nargv[optind]) else None;
          optind := optind + 1;
        }
      }
      if option.hasArg == RequiredArgument && optarg == None {
        optopt := if option.flag == None then option.val else 0;
        optind := optind - 1;
        return c.BadArg(), None, RecArgString(currentArgv);
      }
      if option.flag.Some? {
        flags := flags[option.flag.value := option.val];
        retval := 0;
      } else {
        retval := option.val;
      }
      idx := Some(match_);
    }

    /** The variables after the option idx has been found: its own, if it has one, holds its value. */
    ghost function NewFlags(was: map<nat, int>, idx: Option<nat>): map<nat, int> {
      if idx.Some? && idx.value < |c.longs| && c.longs[idx.value].flag.Some? then
        was[c.longs[idx.value].flag.value := c.longs[idx.value].val]
      else was
    }

    /** A long option, or the mark, whose name is at place. */
    method Long(ghost t: Tally) returns (retval: int, idx: Option<nat>, complaint: Complaint, ghost done: bool)
      requires !optreset && optind < |args| && optarg == None && Found(t, LongStep(c, args, optind, place))
      modifies this`optind, this`place, this`optarg, this`optopt, this`nonoptStart, this`nonoptEnd, this`opts,
               this`flags, nargv
      ensures Answered(t, retval, idx, complaint, done)
      ensures flags == NewFlags(old(flags), idx) && (retval == -1 ==> flags == old(flags))
    {
      hide Laid, Scan, After, Take, LongStep, Finished, Reported;
      ghost var s := LongStep(c, args, optind, place);
      var currentArgv := place;
      place := "";
      MarkOrName(optind, currentArgv);
      if currentArgv == "" {
        Mark(t);
        return -1, None, Silent, true;
      }
      NextElement(true);
      Move(t, s.report, s.next, s.rest);
      optind := optind + 1;
      retval, idx, complaint := ReadLong(currentArgv);
      done := false;
      Tells(t, s.report);
    }

    lemma MarkOrName(i: nat, name: Str)
      requires i < |args|
      ensures if name == "" then LongStep(c, args, i, name) == Last(i + 1) else LongStep(c, args, i, name).Told?
    {}

    /** getopt_long; done tells the end of the scan from an option whose value happens to be -1. */
    method GetoptLong() returns (retval: int, idx: Option<nat>, complaint: Complaint, ghost done: bool)
      requires Valid()
      modifies this, nargv
      ensures args == old(args) && begin == old(begin)
      ensures Answered(old(Outlook()), retval, idx, complaint, done)
      ensures flags == NewFlags(old(flags), idx) && (retval == -1 ==> flags == old(flags))
    {
      hide Laid, Scan, After, Take, LongStep, Finished, Reported;
      retval, complaint := GetoptInternal();
      idx, done := None, retval == -1;
      if retval == -2 {
        retval, idx, complaint, done := Long(old(Outlook()));
      }
    }

    /** The loop of a caller that calls getopt_long until it returns -1: it gets the reports of the
        scan, up to the first long option whose own value is -1 if there is one. The scan could then
        go on behind that option; otherwise the vector is left sorted. */
    method ScanAll() returns (reports: seq<Report>)
      requires Fresh()
      modifies this, nargv
      ensures var t := Scan(c, old(nargv[..]), old(Position()), "");
        && reports == BeforeEnd(t.reports)
        && (Distinguishable(c) ==> reports == t.reports)
        && (if reports == t.reports then
              nargv[..] == Sorted(old(nargv[..]), old(Position()), t) && optind == old(Position()) + |t.opts|
            else
              Valid() && args == old(nargv[..]) && begin == old(Position())
              && t == Outlook().(reports := reports + [t.reports[|reports|]] + Outlook().reports))
      ensures Stored(reports, old(flags), flags)
      ensures old(Position()) <= |old(nargv[..])| ==>
                Usage.Delivers(c, old(nargv[..]), old(Position()), reports, nargv[..])
    {
      hide Laid, Scan, After, Sorted, Answered, Distinguishable, Usage.Delivers;
      reports := [];
      ghost var t := Scan(c, args, Position(), "");
      NothingYet(t);
      if Distinguishable(c) { NoMinusOne(c, args, Position(), ""); }
      while true
        invariant Valid() && args == old(nargv[..]) && begin == old(Position())
        invariant t == Outlook().(reports := reports + Outlook().reports)
        invariant forall r :: r in reports ==> r.ret != -1
        invariant Stored(reports, old(flags), flags)
        decreases |Outlook().reports|
      {
        ghost var left, was := Outlook().reports, flags;
        var end, report := NextReport(t, reports);
        if end {
          EndsThere(reports, left);
          if old(Position()) <= |old(nargv[..])| {
            Usage.ScanDelivers(c, old(nargv[..]), old(Position()), reports, nargv[..]);
          }
          return;
        }
        StoresNext(reports, report, old(flags), was, flags);
        reports := reports + [report];
      }
    }

    /** The report is of a long option that stores its value in the variable. */
    ghost predicate Stores(r: Report, v: nat) {
      r.index.Some? && r.index.value < |c.longs| && c.longs[r.index.value].flag == Some(v)
    }

    /** The last report that stores there is number n. */
    ghost predicate LastStores(reports: seq<Report>, v: nat, n: nat) {
      n < |reports| && Stores(reports[n], v) && forall m :: n < m < |reports| ==> !Stores(reports[m], v)
    }

    /** A variable holds the value of the last long option that stores there, or what it held before. */
    ghost predicate Stored(reports: seq<Report>, was: map<nat, int>, now: map<nat, int>) {
      forall v: nat :: StoredIn(reports, was, now, v)
    }

    ghost predicate StoredIn(reports: seq<Report>, was: map<nat, int>, now: map<nat, int>, v: nat) {
      && (forall n: nat :: LastStores(reports, v, n) ==>
            v in now && now[v] == c.longs[reports[n].index.value].val)
      && ((forall n :: 0 <= n < |reports| ==> !Stores(reports[n], v)) ==>
            (v in now <==> v in was) && (v in was ==> now[v] == was[v]))
    }

    lemma StoresNext(reports: seq<Report>, r: Report, first: map<nat, int>, was: map<nat, int>, now: map<nat, int>)
      requires Stored(reports, first, was) && now == NewFlags(was, r.index)
      ensures Stored(reports + [r], first, now)
    {
      hide StoredIn, Stores;
      forall v: nat ensures StoredIn(reports + [r], first, now, v) { StoresOne(reports, r, first, was, now, v); }
    }

    lemma StoresOne(reports: seq<Report>, r: Report, first: map<nat, int>, was: map<nat, int>, now: map<nat, int>,
                    v: nat)
      requires StoredIn(reports, first, was, v) && now == NewFlags(was, r.index)
      ensures StoredIn(reports + [r], first, now, v)
    {
      var all := reports + [r];
      assert all[|reports|] == r && forall n :: 0 <= n < |reports| ==> all[n] == reports[n];
      forall n: nat | LastStores(all, v, n)
        ensures if n == |reports| then Stores(r, v) else LastStores(reports, v, n) && !Stores(r, v)
      {
        if n < |reports| { assert !Stores(all[|reports|], v); }
      }
      if Stores(r, v) { assert !(forall n :: 0 <= n < |all| ==> !Stores(all[n], v)); }
    }

    lemma EndsThere(before: seq<Report>, left: seq<Report>)
      requires (forall r :: r in before ==> r.ret != -1) && (left != [] ==> left[0].ret == -1)
      ensures before == BeforeEnd(before + left)
    {
      BeforeEndAt(before + left, |before|);
      assert (before + left)[..|before|] == before;
    }

    /** One call of that loop. */
    method NextReport(ghost t: Tally, ghost before: seq<Report>) returns (end: bool, report: Report)
      requires Valid() && t == Outlook().(reports := before + Outlook().reports)
      modifies this, nargv
      ensures args == old(args) && begin == old(begin)
      ensures end && old(Outlook().reports) == [] ==>
                t.reports == before && nargv[..] == Sorted(args, begin, t) && optind == begin + |t.opts|
      ensures old(Outlook().reports) != [] ==>
                && end == (old(Outlook().reports)[0].ret == -1) && Valid()
                && t == Outlook().(reports := before + [old(Outlook().reports)[0]] + Outlook().reports)
                && |Outlook().reports| < old(|Outlook().reports|)
      ensures !end ==> old(Outlook().reports) != [] && report == old(Outlook().reports)[0] && report.ret != -1
      ensures flags == NewFlags(old(flags), report.index) && (end ==> flags == old(flags))
    {
      hide Laid, Scan, After, Sorted, Answered;
      ghost var left := Outlook();
      var retval, idx, complaint, done := GetoptLong();
      AnsweredMeans(left, retval, idx, complaint, done);
      SortedIgnores(args, begin, t, left);
      end := retval == -1;
      report := Report(retval, optarg, if complaint.Silent? then None else Some(optopt), idx, complaint);
    }

    lemma AnsweredMeans(t: Tally, retval: int, idx: Option<nat>, complaint: Complaint, done: bool)
      requires Answered(t, retval, idx, complaint, done)
      ensures done ==> retval == -1 && t.reports == []
      ensures done ==> nargv[..] == Sorted(args, begin, t) && optind == begin + |t.opts|
      ensures !done ==> Valid() && (Pending() != "" ==> Position() < |args|)
      ensures !done ==>
        var report := Report(retval, optarg, if complaint.Silent? then None else Some(optopt), idx, complaint);
        t == Outlook().(reports := [report] + Outlook().reports)
    {
      hide Laid, Scan, After, Sorted;
    }

    lemma SortedIgnores(args: seq<Str>, begin: nat, t: Tally, u: Tally)
      requires t.opts == u.opts && t.nonopts == u.nonopts && t.next == u.next
      ensures Sorted(args, begin, t) == Sorted(args, begin, u)
    {}

    lemma NothingYet(t: Tally)
      ensures After([], [], t) == t
    {}
  }
}
