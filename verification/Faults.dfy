/** What is wrong with a pattern that is refused: the text up to some place is written as it should be,
    and there stands the fault (src/missing/regcomp.c). */
module Faults {
  import opened Strip
  import opened Syntax
  import opened Grammar

  // ---------- counts and bounds ----------

  /** A count, all of its digits. */
  ghost predicate WholeCount(t: Word, p: nat, q: nat, n: nat) {
    SpellsCount(t, p, q, n) && !(q < |t| && IsDigit(t[q]))
  }

  ghost predicate NoCount(t: Word, p: nat) {
    forall q: nat, n: nat :: !WholeCount(t, p, q, n)
  }

  /** A count and a comma. */
  ghost predicate CountComma(t: Word, p: nat, m: nat, n: nat) {
    WholeCount(t, p, m, n) && See(t, m, ',' as int)
  }

  /** Two counts. */
  ghost predicate TwoCounts(t: Word, p: nat, m: nat, n: nat, q: nat, k: nat) {
    CountComma(t, p, m, n) && WholeCount(t, m + 1, q, k)
  }

  /** The counts of a bound. */
  ghost predicate SpellsLimits(t: Word, p: nat, q: nat, lo: nat, hi: Limit) {
    || (WholeCount(t, p, q, lo) && !See(t, q, ',' as int) && hi == UpTo(lo))
    || (q > 0 && CountComma(t, p, q - 1, lo) && !(q < |t| && IsDigit(t[q])) && hi == Unbounded)
    || (hi.UpTo? && lo <= hi.n && exists m: nat :: TwoCounts(t, p, m, lo, q, hi.n))
  }

  /** A comma and a digit, but no count there. */
  ghost predicate NoUpper(t: Word, p: nat, m: nat, n: nat) {
    CountComma(t, p, m, n) && m + 1 < |t| && IsDigit(t[m + 1]) && NoCount(t, m + 1)
  }

  ghost predicate Unclosed(t: Word, p: nat, q: nat, lo: nat, hi: Limit, x: Error) {
    SpellsLimits(t, p, q, lo, hi) && !See(t, q, '}' as int) && x == if LaterBrace(t, q) then BADBR else EBRACE
  }

  /** After the opening brace: a count that is none or too large, an upper limit below the lower one, no
      closing brace behind the counts although one follows, or no closing brace at all. */
  ghost predicate BoundFault(t: Word, p: nat, x: Error) {
    || (x == BADBR && NoCount(t, p))
    || (x == BADBR && exists m: nat, n: nat :: NoUpper(t, p, m, n))
    || (x == BADBR && exists m: nat, n: nat, q: nat, k: nat :: TwoCounts(t, p, m, n, q, k) && k < n)
    || exists q: nat, lo: nat, hi: Limit :: Unclosed(t, p, q, lo, hi, x)
  }

  /** A repetition operator that is none: a brace in front of neither a digit nor a comma, or a fault in
      the bound. */
  ghost predicate SuffixFault(t: Word, p: nat, x: Error) {
    && See(t, p, '{' as int)
    && if p + 1 < |t| && (IsDigit(t[p + 1]) || t[p + 1] == ',' as int) then BoundFault(t, p + 1, x) else x == BADRPT
  }

  // ---------- bracket expressions ----------

  /** A range goes on here. */
  predicate RangeFollows(t: Word, p: nat) {
    See(t, p, '-' as int) && p + 1 < |t| && t[p + 1] != ']' as int
  }

  /** A character that is not the beginning of a range, or a range. */
  ghost predicate WholeTerm(t: Word, p: nat, q: nat) {
    p < q && (exists cs :: SpellsTerm(t, p, q, cs)) && t[p] != ']' as int && (q == p + 1 ==> !RangeFollows(t, q))
  }

  ghost predicate WholeTerms(t: Word, p: nat, q: nat)
    decreases q - p
  {
    p <= q <= |t| && (p == q || exists m: nat :: p < m <= q && WholeTerm(t, p, m) && WholeTerms(t, m, q))
  }

  /** A dash where no range can begin, or the ends of a range in the wrong order; named classes and
      collating elements are outside this grammar. */
  ghost predicate TermFault(t: Word, p: nat, x: Error) {
    p < |t| &&
    if See2(t, p, '[' as int, ':' as int) || See2(t, p, '[' as int, '=' as int) then x == NotModelled
    else if t[p] == '-' as int then x == ERANGE
    else if See2(t, p, '[' as int, '.' as int) then x == NotModelled
    else
      RangeFollows(t, p + 1)
      && if See2(t, p + 2, '[' as int, '.' as int) then x == NotModelled else t[p] > t[p + 2] && x == ERANGE
  }

  /** After the opening bracket: a fault in one of the terms, or no closing bracket. */
  ghost predicate BracketFault(t: Word, p: nat, x: Error) {
    if WordAnchor(t, p) then x == NotModelled
    else exists m: nat, n: nat, first :: ListFault(t, p, m, n, first, x)
  }

  /** The terms from m to n are right. */
  ghost predicate ListFault(t: Word, p: nat, m: nat, n: nat, first: set<Byte>, x: Error) {
    && SpellsFirst(t, if See(t, p, '^' as int) then p + 1 else p, m, first) && WholeTerms(t, m, n)
    && if n == |t| then x == EBRACK else !Closes(t, n) && TermFault(t, n, x)
  }

  // ---------- expressions ----------

  /** A piece, with all of its repetition operator. */
  ghost predicate WholePiece(t: Word, p: nat, q: nat) {
    exists e :: SpellsPiece(t, p, q, e) && if e.Rep? then !Doubled(t, q) else !(q < |t| && IsRepetition(t[q]))
  }

  ghost predicate WholePieces(t: Word, p: nat, q: nat)
    decreases q - p
  {
    p <= q <= |t| && (p == q || exists m: nat :: p < m <= q && WholePiece(t, p, m) && WholePieces(t, m, q))
  }

  /** An expression up to the end of the text. */
  ghost predicate GoesOn(t: Word, p: nat) { exists e :: SpellsRe(t, p, |t|, e) }

  /** A fault at the beginning of an atom, or inside it: a group that is not closed or a closing
      parenthesis too many, a repetition of nothing, a backslash at the end or in front of what may not
      be escaped. Anchors are outside this grammar. */
  ghost predicate AtomFault(t: Word, p: nat, x: Error)
    decreases |t| - p, 0
  {
    p < |t| &&
    if t[p] == '(' as int then
      if p + 1 == |t| then x == EPAREN
      else t[p + 1] != ')' as int && (ReFault(t, p + 1, true, x) || (x == EPAREN && GoesOn(t, p + 1)))
    else if t[p] == ')' as int then x == EPAREN
    else if t[p] == '^' as int || t[p] == '$' as int then x == NotModelled
    else if t[p] == '|' as int then x == EEMPTY
    else if IsRepetition(t[p]) then x == BADRPT
    else if t[p] == '[' as int then BracketFault(t, p + 1, x)
    else
      && t[p] == '\\' as int
      && if p + 1 == |t| then x == EESCAPE
         else if t[p + 1] == '<' as int || t[p + 1] == '>' as int then x == NotModelled
         else !MayEscape(t[p + 1]) && x == EESCAPE
  }

  /** A fault in an atom or in its repetition operator, or a second such operator. */
  ghost predicate PieceFault(t: Word, p: nat, x: Error)
    decreases |t| - p, 1
  {
    || AtomFault(t, p, x)
    || (exists q: nat, e :: SpellsAtom(t, p, q, e) && SuffixFault(t, q, x))
    || (x == BADRPT && exists q: nat, e :: SpellsPiece(t, p, q, e) && e.Rep? && Doubled(t, q))
  }

  /** A fault behind the first pieces of a branch. */
  ghost predicate BranchFault(t: Word, p: nat, inner: bool, x: Error)
    decreases |t| - p, 2
  {
    exists q: nat :: p <= q <= |t| && WholePieces(t, p, q) && !BranchEnds(t, q, inner) && PieceFault(t, q, x)
  }

  ghost predicate VoidBranch(t: Word, p: nat, inner: bool) {
    exists q: nat, e :: SpellsBranch(t, p, q, e) && BranchEnds(t, q, inner) && Void(e)
  }

  /** A fault in the first branch, a first branch that is empty or takes up no code, or a fault behind
      its bar. */
  ghost predicate ReFault(t: Word, p: nat, inner: bool, x: Error)
    decreases |t| - p, 3
  {
    || BranchFault(t, p, inner, x)
    || (x == EEMPTY && BranchEnds(t, p, inner))
    || (x == EEMPTY && VoidBranch(t, p, inner))
    || BarFault(t, p, inner, x)
  }

  /** A fault behind the bar that ends the first branch. */
  ghost predicate BarFault(t: Word, p: nat, inner: bool, x: Error)
    decreases |t| - p, 2
  {
    exists q: nat, e ::
      p <= q < |t| && SpellsBranch(t, p, q, e) && !Void(e) && t[q] == '|' as int && ReFault(t, q + 1, inner, x)
  }

  // ---------- the reader refuses exactly that ----------

  lemma {:induction false} CountRefused(t: Word, p: nat)
    requires p <= |t|
    ensures ParseCount(t, p) == Err(BADBR) <==> NoCount(t, p)
    ensures ParseCount(t, p).Err? ==> ParseCount(t, p).error == BADBR
    ensures forall q: nat, n: nat :: ParseCount(t, p) == Ok(n, q) <==> WholeCount(t, p, q, n)
  {
    CountSpells(t, p, 0);
    forall q: nat, n: nat ensures ParseCount(t, p) == Ok(n, q) <==> WholeCount(t, p, q, n) {
      if WholeCount(t, p, q, n) { CountReads(t, p, q, 0); }
      if ParseCount(t, p) == Ok(n, q) { CountStops(t, p, 0); }
    }
  }

  /** Reading a count stops behind its digits unless it is too large. */
  lemma {:induction false} CountStops(t: Word, p: nat, n: nat)
    requires p <= |t|
    ensures var (m, q) := CountFrom(t, p, n); m <= DUPMAX ==> !(q < |t| && IsDigit(t[q]))
    decreases |t| - p
  {
    if p < |t| && IsDigit(t[p]) && n <= DUPMAX { CountStops(t, p + 1, n * 10 + (t[p] - '0' as int)); }
  }

  lemma {:induction false} LimitsRefused(t: Word, p: nat)
    requires p <= |t|
    ensures forall q: nat, lo: nat, hi: Limit :: ParseLimits(t, p) == Ok((lo, hi), q) <==> SpellsLimits(t, p, q, lo, hi)
  {
    forall q: nat, lo: nat, hi: Limit
      ensures ParseLimits(t, p) == Ok((lo, hi), q) <==> SpellsLimits(t, p, q, lo, hi)
    {
      LimitsRead(t, p, q, lo, hi);
      LimitsSpelled(t, p, q, lo, hi);
    }
  }

  lemma {:induction false} CountFits(t: Word, p: nat, q: nat, n: nat)
    requires WholeCount(t, p, q, n)
    ensures p < q <= |t| && ParseCount(t, p) == Ok(n, q)
  {
    CountRefused(t, p);
  }

  lemma {:induction false} LimitsRead(t: Word, p: nat, q: nat, lo: nat, hi: Limit)
    requires p <= |t|
    ensures SpellsLimits(t, p, q, lo, hi) ==> ParseLimits(t, p) == Ok((lo, hi), q)
  {
    hide WholeCount, ParseCount;
    if WholeCount(t, p, q, lo) && !See(t, q, ',' as int) && hi == UpTo(lo) {
      CountFits(t, p, q, lo);
    } else if q > 0 && CountComma(t, p, q - 1, lo) && !(q < |t| && IsDigit(t[q])) && hi == Unbounded {
      CountFits(t, p, q - 1, lo);
    } else if SpellsLimits(t, p, q, lo, hi) {
      var m: nat :| TwoCounts(t, p, m, lo, q, hi.n);
      CountFits(t, p, m, lo);
      CountFits(t, m + 1, q, hi.n);
      CountBegins(t, m + 1, q, hi.n);
    }
  }

  lemma {:induction false} CountBegins(t: Word, p: nat, q: nat, n: nat)
    requires WholeCount(t, p, q, n)
    ensures p < |t| && IsDigit(t[p])
  {}

  lemma {:induction false} LimitsSpelled(t: Word, p: nat, q: nat, lo: nat, hi: Limit)
    requires p <= |t|
    ensures ParseLimits(t, p) == Ok((lo, hi), q) ==> SpellsLimits(t, p, q, lo, hi)
  {
    hide WholeCount, ParseCount;
    CountRefused(t, p);
    match ParseCount(t, p)
    case Err(_) =>
    case Ok(n, m) =>
      if See(t, m, ',' as int) && IsDigit(Peek(t, m + 1)) {
        CountRefused(t, m + 1);
        match ParseCount(t, m + 1)
        case Err(_) =>
        case Ok(k, r) => assert TwoCounts(t, p, m, n, r, k);
      }
  }

  /** The counts of a bound are refused exactly if there is a fault in them. */
  lemma {:induction false} LimitsFaulty(t: Word, p: nat)
    requires p <= |t|
    ensures ParseLimits(t, p).Err? <==>
            || NoCount(t, p)
            || (exists m: nat, n: nat :: NoUpper(t, p, m, n))
            || exists m: nat, n: nat, q: nat, k: nat :: TwoCounts(t, p, m, n, q, k) && k < n
    ensures ParseLimits(t, p).Err? ==> ParseLimits(t, p).error == BADBR
  {
    hide WholeCount, ParseCount, NoCount;
    CountRefused(t, p);
    if m: nat, n: nat :| NoUpper(t, p, m, n) { CountRefused(t, m + 1); }
    if m: nat, n: nat, q: nat, k: nat :| TwoCounts(t, p, m, n, q, k) && k < n {
      CountFits(t, p, m, n);
      CountFits(t, m + 1, q, k);
      CountBegins(t, m + 1, q, k);
    }
    match ParseCount(t, p)
    case Err(_) =>
    case Ok(n, m) =>
      CountOnly(t, p, m, n);
      if See(t, m, ',' as int) && IsDigit(Peek(t, m + 1)) {
        CountRefused(t, m + 1);
        match ParseCount(t, m + 1)
        case Err(_) => assert NoUpper(t, p, m, n);
        case Ok(k, q) => assert TwoCounts(t, p, m, n, q, k);
      }
  }

  lemma {:induction false} CountOnly(t: Word, p: nat, q: nat, n: nat)
    requires p <= |t| && ParseCount(t, p) == Ok(n, q)
    ensures !NoCount(t, p) && forall m: nat, k: nat :: WholeCount(t, p, m, k) ==> m == q && k == n
  {
    CountRefused(t, p);
  }

  lemma {:induction false} BoundRefused(t: Word, p: nat, x: Error)
    requires p <= |t|
    ensures ParseBounds(t, p) == Err(x) <==> BoundFault(t, p, x)
  {
    hide SpellsLimits, ParseLimits, NoCount, NoUpper, TwoCounts, LaterBrace;
    LimitsRefused(t, p);
    LimitsFaulty(t, p);
    match ParseLimits(t, p)
    case Err(_) =>
    case Ok((lo, hi), q) =>
      assert Unclosed(t, p, q, lo, hi, x) <==>
             !See(t, q, '}' as int) && x == if LaterBrace(t, q) then BADBR else EBRACE;
  }

  lemma {:induction false} SuffixRefused(t: Word, p: nat, x: Error)
    requires p < |t| && IsRepetition(t[p])
    ensures ParseSuffix(t, p) == Err(x) <==> SuffixFault(t, p, x)
  {
    hide ParseBounds, BoundFault;
    if t[p] == '{' as int { BoundRefused(t, p + 1, x); }
  }

  // ---------- bracket expressions ----------

  lemma {:induction false} TermRefused(t: Word, p: nat, x: Error)
    requires p < |t|
    ensures ParseTerm(t, p) == Err(x) <==> TermFault(t, p, x)
  {}

  lemma {:induction false} TermWhole(t: Word, p: nat)
    requires p < |t| && t[p] != ']' as int
    ensures forall q: nat :: WholeTerm(t, p, q) <==> ParseTerm(t, p).Ok? && ParseTerm(t, p).next == q
  {
    hide ParseTerm, SpellsTerm;
    TermSpells(t, p);
    forall q: nat ensures WholeTerm(t, p, q) <==> ParseTerm(t, p).Ok? && ParseTerm(t, p).next == q {
      if WholeTerm(t, p, q) {
        var cs :| SpellsTerm(t, p, q, cs);
        TermReads(t, p, q, cs);
      }
      if ParseTerm(t, p).Ok? && ParseTerm(t, p).next == q { TermEnds(t, p, q); }
    }
  }

  /** A character that is read alone does not begin a range. */
  lemma {:induction false} TermEnds(t: Word, p: nat, q: nat)
    requires p < |t| && ParseTerm(t, p).Ok? && ParseTerm(t, p).next == q
    ensures q == p + 1 ==> !RangeFollows(t, q)
  {}

  lemma {:induction false} TermsRefused(t: Word, p: nat, bmp: set<Byte>, x: Error)
    requires p <= |t|
    ensures ParseTerms(t, p, bmp) == Err(x) <==>
            exists n: nat :: WholeTerms(t, p, n) && n < |t| && !Closes(t, n) && TermFault(t, n, x)
    decreases |t| - p
  {
    hide ParseTerm, TermFault, WholeTerm, WholeTerms;
    TermsFirst(t, p);
    if p < |t| && t[p] != ']' as int && !See2(t, p, '-' as int, ']' as int) {
      TermRefused(t, p, x);
      TermWhole(t, p);
      match ParseTerm(t, p)
      case Err(y) =>
      case Ok(cs, m) => TermsRefused(t, m, bmp + cs, x);
    } else {
      forall m: nat ensures !(p < m && WholeTerm(t, p, m)) { TermNone(t, p, m); }
    }
  }

  lemma {:induction false} TermsFirst(t: Word, p: nat)
    requires p <= |t|
    ensures WholeTerms(t, p, p)
    ensures forall n: nat :: WholeTerms(t, p, n) <==>
              n == p || exists m: nat :: p < m && WholeTerm(t, p, m) && WholeTerms(t, m, n)
  {
    hide WholeTerm;
    forall m: nat, n: nat ensures WholeTerms(t, m, n) ==> m <= n <= |t| {}
  }

  lemma {:induction false} TermsWhole(t: Word, p: nat, bmp: set<Byte>, n: nat)
    requires p <= |t|
    ensures ParseTerms(t, p, bmp).Ok? && ParseTerms(t, p, bmp).next == n <==>
            WholeTerms(t, p, n) && (n == |t| || Closes(t, n))
    decreases |t| - p
  {
    hide ParseTerm, WholeTerm, WholeTerms;
    TermsFirst(t, p);
    if p < |t| && t[p] != ']' as int && !See2(t, p, '-' as int, ']' as int) {
      TermWhole(t, p);
      match ParseTerm(t, p)
      case Err(_) =>
      case Ok(cs, m) => TermsWhole(t, m, bmp + cs, n);
    } else {
      forall m: nat ensures !(p < m && WholeTerm(t, p, m)) { TermNone(t, p, m); }
    }
  }

  lemma {:induction false} TermNone(t: Word, p: nat, m: nat)
    requires p <= |t| && (p < |t| ==> Closes(t, p))
    ensures !(p < m && WholeTerm(t, p, m))
  {}

  /** The beginning of a bracket expression is read in one way. */
  lemma {:induction false} ListFaultIs(t: Word, p: nat, k: nat, n: nat, other: set<Byte>, x: Error)
    requires p <= |t|
    ensures ListFault(t, p, k, n, other, x) <==>
            && BracketStart(t, p) == (See(t, p, '^' as int), other, k) && WholeTerms(t, k, n)
            && if n == |t| then x == EBRACK else !Closes(t, n) && TermFault(t, n, x)
  {
    hide WholeTerms, TermFault;
  }

  lemma {:induction false} BracketRefused(t: Word, p: nat, x: Error)
    requires p <= |t|
    ensures ParseBracket(t, p) == Err(x) <==> BracketFault(t, p, x)
  {
    hide ParseTerms, WholeTerms, TermFault, BracketStart, ListFault, BracketEnd, Closes;
    if !WordAnchor(t, p) {
      var (invert, first, m) := BracketStart(t, p);
      StartMark(t, p);
      TermsRefused(t, m, first, x);
      forall k: nat, n: nat, other ensures ListFault(t, p, k, n, other, x) <==>
          && BracketStart(t, p) == (See(t, p, '^' as int), other, k) && WholeTerms(t, k, n)
          && if n == |t| then x == EBRACK else !Closes(t, n) && TermFault(t, n, x) {
        ListFaultIs(t, p, k, n, other, x);
      }
      forall n: nat { TermsWhole(t, m, first, n); }
      if k: nat, l: nat, other :| ListFault(t, p, k, l, other, x) { TermsIn(t, m, l); }
      match ParseTerms(t, m, first)
      case Err(_) =>
        if n: nat :| WholeTerms(t, m, n) && n < |t| && !Closes(t, n) && TermFault(t, n, x) {
          assert ListFault(t, p, m, n, first, x);
        }
      case Ok(all, n) =>
        EndRefused(t, n, all, x);
        if n == |t| && x == EBRACK { assert ListFault(t, p, m, n, first, x); }
    }
  }

  lemma {:induction false} TermsIn(t: Word, p: nat, q: nat)
    requires WholeTerms(t, p, q)
    ensures p <= q <= |t|
  {}

  lemma {:induction false} StartMark(t: Word, p: nat)
    requires p <= |t|
    ensures BracketStart(t, p).0 == See(t, p, '^' as int)
  {}

  lemma {:induction false} EndRefused(t: Word, n: nat, bmp: set<Byte>, x: Error)
    requires n <= |t| && (n == |t| || Closes(t, n))
    ensures BracketEnd(t, n, bmp) == Err(x) <==> n == |t| && x == EBRACK
  {}

  // ---------- expressions ----------

  lemma {:induction false} AtomRefused(t: Word, p: nat, x: Error)
    requires p < |t|
    ensures ParseAtom(t, p) == Err(x) <==> AtomFault(t, p, x)
    decreases |t| - p, 0
  {
    hide ParseBracket, BracketFault, ParseRe, ReFault, GoesOn;
    if t[p] == '(' as int && p + 1 < |t| && t[p + 1] != ')' as int {
      ReRefused(t, p + 1, true, x);
      GroupOpen(t, p + 1);
    } else if t[p] == '[' as int {
      BracketRefused(t, p + 1, x);
    }
  }

  /** An inner expression ends at a closing parenthesis or at the end of the text. */
  lemma {:induction false} GroupOpen(t: Word, p: nat)
    requires p <= |t|
    ensures ParseRe(t, p, true).Ok? ==> See(t, ParseRe(t, p, true).next, ')' as int) || ParseRe(t, p, true).next == |t|
    ensures ParseRe(t, p, true).Ok? && ParseRe(t, p, true).next == |t| <==> GoesOn(t, p)
  {
    hide ParseRe, SpellsRe;
    InnerEnds(t, p);
    ReSpells(t, p, true);
    if e :| SpellsRe(t, p, |t|, e) { ReReads(t, p, |t|, e, true); }
    if ParseRe(t, p, true).Ok? && ParseRe(t, p, true).next == |t| {
      assert SpellsRe(t, p, |t|, ParseRe(t, p, true).value);
    }
  }

  lemma {:induction false} InnerEnds(t: Word, p: nat)
    requires p <= |t|
    ensures ParseRe(t, p, true).Ok? ==> See(t, ParseRe(t, p, true).next, ')' as int) || ParseRe(t, p, true).next == |t|
    decreases |t| - p
  {
    hide ParseBranch;
    BranchStops(t, p, true, Empty);
    match ParseBranch(t, p, true, Empty)
    case Err(_) =>
    case Ok(e, q) => if See(t, q, '|' as int) { InnerEnds(t, q + 1); }
  }

  lemma {:induction false} BranchStops(t: Word, p: nat, inner: bool, sofar: Ere)
    requires p <= |t|
    ensures ParseBranch(t, p, inner, sofar).Ok? ==> BranchEnds(t, ParseBranch(t, p, inner, sofar).next, inner)
    decreases |t| - p
  {
    hide ParsePiece;
    if !BranchEnds(t, p, inner) {
      match ParsePiece(t, p)
      case Err(_) =>
      case Ok(e, q) => BranchStops(t, q, inner, if sofar == Empty then e else Seq(sofar, e));
    }
  }

  lemma {:induction false} PieceWhole(t: Word, p: nat)
    requires p < |t|
    ensures forall q: nat :: WholePiece(t, p, q) <==> ParsePiece(t, p).Ok? && ParsePiece(t, p).next == q
  {
    hide ParsePiece, SpellsPiece;
    PieceSpells(t, p);
    forall q: nat ensures WholePiece(t, p, q) <==> ParsePiece(t, p).Ok? && ParsePiece(t, p).next == q {
      if WholePiece(t, p, q) {
        var e :| SpellsPiece(t, p, q, e) && if e.Rep? then !Doubled(t, q) else !(q < |t| && IsRepetition(t[q]));
        PieceReads(t, p, q, e);
      }
      if ParsePiece(t, p).Ok? && ParsePiece(t, p).next == q { PieceEnds(t, p); }
    }
  }

  /** Behind a piece that has been read nothing more belongs to it. */
  lemma {:induction false} PieceEnds(t: Word, p: nat)
    requires p < |t|
    ensures match ParsePiece(t, p)
            case Ok(e, q) => if e.Rep? then !Doubled(t, q) else !(q < |t| && IsRepetition(t[q]))
            case Err(_) => true
  {
    hide ParseSuffix;
    AtomSpells(t, p);
  }

  lemma {:induction false} PieceRefused(t: Word, p: nat, x: Error)
    requires p < |t|
    ensures ParsePiece(t, p) == Err(x) <==> PieceFault(t, p, x)
    decreases |t| - p, 1
  {
    hide ParseAtom, AtomFault, ParseSuffix, SuffixFault, SpellsAtom, SpellsSuffix;
    AtomRefused(t, p, x);
    AtomSpells(t, p);
    forall q: nat, e | SpellsAtom(t, p, q, e) ensures ParseAtom(t, p) == Ok(e, q) { AtomReads(t, p, q, e); }
    match ParseAtom(t, p)
    case Err(_) => NoRepeated(t, p);
    case Ok(a, q) =>
      if q < |t| && IsRepetition(t[q]) {
        SuffixRefused(t, q, x);
        SuffixSpells(t, q);
        RepeatedReads(t, p, q, a);
        match ParseSuffix(t, q)
        case Err(_) =>
        case Ok((lo, hi), r) => assert SpellsPiece(t, p, r, Rep(a, lo, hi));
      } else {
        RepeatedReads(t, p, q, a);
        NoSuffix(t, q, x);
      }
  }

  lemma {:induction false} NoSuffix(t: Word, p: nat, x: Error)
    requires !(p < |t| && IsRepetition(t[p]))
    ensures !SuffixFault(t, p, x)
  {}

  /** A repeated atom is read as far as its operator. */
  lemma {:induction false} RepeatedReads(t: Word, p: nat, m: nat, a: Ere)
    requires p < |t| && ParseAtom(t, p) == Ok(a, m)
    ensures forall q: nat, e :: SpellsPiece(t, p, q, e) && e.Rep? ==>
              m < |t| && IsRepetition(t[m]) && e.e == a && ParseSuffix(t, m) == Ok((e.lo, e.hi), q)
  {
    hide ParseAtom, ParseSuffix, SpellsAtom, SpellsSuffix;
    forall q: nat, e | SpellsPiece(t, p, q, e) && e.Rep?
      ensures m < |t| && IsRepetition(t[m]) && e.e == a && ParseSuffix(t, m) == Ok((e.lo, e.hi), q)
    {
      var k: nat :| SpellsAtom(t, p, k, e.e) && SpellsSuffix(t, k, q, e.lo, e.hi);
      AtomReads(t, p, k, e.e);
      SuffixReads(t, k, q, e.lo, e.hi);
      SuffixIn(t, k, q, e.lo, e.hi);
    }
  }

  lemma {:induction false} SuffixIn(t: Word, p: nat, q: nat, lo: nat, hi: Limit)
    requires SpellsSuffix(t, p, q, lo, hi)
    ensures p < |t|
  {}

  lemma {:induction false} NoRepeated(t: Word, p: nat)
    requires p < |t| && ParseAtom(t, p).Err?
    ensures forall q: nat, e :: SpellsPiece(t, p, q, e) ==> !e.Rep?
  {
    hide ParseAtom, SpellsAtom, SpellsSuffix;
    forall q: nat, e | SpellsPiece(t, p, q, e) ensures !e.Rep? {
      if e.Rep? {
        var k: nat :| SpellsAtom(t, p, k, e.e) && SpellsSuffix(t, k, q, e.lo, e.hi);
        AtomReads(t, p, k, e.e);
      }
    }
  }

  /** The pieces of a branch from p on. */
  lemma {:induction false} PiecesFirst(t: Word, p: nat)
    requires p <= |t|
    ensures WholePieces(t, p, p)
    ensures forall n: nat :: WholePieces(t, p, n) ==> p <= n <= |t|
    ensures forall n: nat :: WholePieces(t, p, n) <==>
              n == p || exists m: nat :: p < m && WholePiece(t, p, m) && WholePieces(t, m, n)
  {
    hide WholePiece;
    forall m: nat, n: nat ensures WholePieces(t, m, n) ==> m <= n <= |t| {}
  }

  /** A branch is read piece by piece. */
  lemma {:induction false} BranchParts(t: Word, p: nat, inner: bool, sofar: Ere)
    requires p <= |t|
    ensures BranchEnds(t, p, inner) ==> ParseBranch(t, p, inner, sofar) == Ok(sofar, p)
    ensures !BranchEnds(t, p, inner) ==>
              && p < |t|
              && ParseBranch(t, p, inner, sofar) ==
                 match ParsePiece(t, p)
                 case Err(x) => Err(x)
                 case Ok(e, q) => ParseBranch(t, q, inner, if sofar == Empty then e else Seq(sofar, e))
  {
    hide ParsePiece;
  }

  lemma {:induction false} BranchRefused(t: Word, p: nat, inner: bool, sofar: Ere, x: Error)
    requires p <= |t|
    ensures ParseBranch(t, p, inner, sofar) == Err(x) <==> BranchFault(t, p, inner, x)
    decreases |t| - p, 2
  {
    hide ParsePiece, PieceFault, WholePiece, WholePieces, ParseBranch, BranchFault, BranchEnds;
    BranchParts(t, p, inner, sofar);
    if BranchEnds(t, p, inner) {
      NoFaultBehind(t, p, inner, x);
    } else {
      PieceRefused(t, p, x);
      PieceWhole(t, p);
      match ParsePiece(t, p)
      case Err(_) => FaultHere(t, p, inner, x);
      case Ok(e, m) =>
        BranchRefused(t, m, inner, if sofar == Empty then e else Seq(sofar, e), x);
        FaultBehind(t, p, m, inner, x);
    }
  }

  lemma {:induction false} NoFaultBehind(t: Word, p: nat, inner: bool, x: Error)
    requires p <= |t| && BranchEnds(t, p, inner)
    ensures !BranchFault(t, p, inner, x)
  {
    hide PieceFault, WholePiece, WholePieces;
    PiecesFirst(t, p);
    forall m: nat ensures !WholePiece(t, p, m) { NoPiece(t, p, m, inner); }
  }

  lemma {:induction false} FaultHere(t: Word, p: nat, inner: bool, x: Error)
    requires p < |t| && !BranchEnds(t, p, inner) && forall m: nat :: !WholePiece(t, p, m)
    ensures BranchFault(t, p, inner, x) <==> PieceFault(t, p, x)
  {
    hide PieceFault, WholePiece, WholePieces, BranchEnds;
    PiecesFirst(t, p);
  }

  /** A fault behind the first piece of a branch. */
  lemma {:induction false} FaultBehind(t: Word, p: nat, m: nat, inner: bool, x: Error)
    requires p < |t| && !PieceFault(t, p, x) && p < m <= |t| && forall q: nat :: WholePiece(t, p, q) <==> q == m
    ensures BranchFault(t, p, inner, x) <==> BranchFault(t, m, inner, x)
  {
    hide PieceFault, WholePiece, WholePieces;
    PiecesFirst(t, p);
    if q: nat :| p <= q <= |t| && WholePieces(t, p, q) && !BranchEnds(t, q, inner) && PieceFault(t, q, x) {
      PiecesFirst(t, m);
      assert WholePieces(t, m, q);
    }
    if q: nat :| m <= q <= |t| && WholePieces(t, m, q) && !BranchEnds(t, q, inner) && PieceFault(t, q, x) {
      assert WholePieces(t, p, q);
    }
  }

  lemma {:induction false} NoPiece(t: Word, p: nat, m: nat, inner: bool)
    requires BranchEnds(t, p, inner)
    ensures !WholePiece(t, p, m)
  {
    hide SpellsPiece;
    if WholePiece(t, p, m) {
      var e :| SpellsPiece(t, p, m, e) && if e.Rep? then !Doubled(t, m) else !(m < |t| && IsRepetition(t[m]));
      PieceStarts(t, p, m, e);
    }
  }

  /** What is said of a pattern that is refused, once. */
  lemma {:induction false} ReParts(t: Word, p: nat, inner: bool, x: Error)
    requires p <= |t|
    ensures ReFault(t, p, inner, x) <==>
            || BranchFault(t, p, inner, x)
            || (x == EEMPTY && BranchEnds(t, p, inner))
            || (x == EEMPTY && VoidBranch(t, p, inner))
            || BarFault(t, p, inner, x)
    ensures ParseRe(t, p, inner) == Err(x) <==>
            match ParseBranch(t, p, inner, Empty)
            case Err(y) => x == y
            case Ok(e, q) =>
              if Void(e) then x == EEMPTY else See(t, q, '|' as int) && ParseRe(t, q + 1, inner) == Err(x)
  {
    hide ParseBranch, SpellsBranch, BranchEnds, Void, PieceFault, WholePieces, VoidBranch;
  }

  /** A pattern is refused exactly if there is a fault in it, and with the error of that fault. */
  lemma {:induction false} ReRefused(t: Word, p: nat, inner: bool, x: Error)
    requires p <= |t|
    ensures ParseRe(t, p, inner) == Err(x) <==> ReFault(t, p, inner, x)
    decreases |t| - p, 3
  {
    hide ParseBranch, BranchFault, SpellsBranch, ReFault, ParseRe;
    BranchRefused(t, p, inner, Empty, x);
    BranchStops(t, p, inner, Empty);
    BranchOnly(t, p, inner);
    ReParts(t, p, inner, x);
    match ParseBranch(t, p, inner, Empty)
    case Err(_) =>
    case Ok(e, q) =>
      if !Void(e) && See(t, q, '|' as int) { ReRefused(t, q + 1, inner, x); }
  }

  /** A branch that ends where branches end is the one that is read, unless it is empty. */
  lemma {:induction false} BranchOnly(t: Word, p: nat, inner: bool)
    requires p <= |t|
    ensures forall q: nat, e :: SpellsBranch(t, p, q, e) && BranchEnds(t, q, inner) ==>
              ParseBranch(t, p, inner, Empty) == Ok(e, q) && e != Empty && !BranchEnds(t, p, inner)
    ensures BranchEnds(t, p, inner) ==> ParseBranch(t, p, inner, Empty) == Ok(Empty, p)
    ensures ParseBranch(t, p, inner, Empty).Ok? ==>
              var e, q := ParseBranch(t, p, inner, Empty).value, ParseBranch(t, p, inner, Empty).next;
              if BranchEnds(t, p, inner) then e == Empty && q == p else SpellsBranch(t, p, q, e)
  {
    hide SpellsBranch;
    BranchSpells(t, p, p, inner, Empty);
    if !BranchEnds(t, p, inner) && ParsePiece(t, p).Ok? {
      BranchGrows(t, ParsePiece(t, p).next, inner, ParsePiece(t, p).value);
    }
    forall q: nat, e | SpellsBranch(t, p, q, e) && BranchEnds(t, q, inner)
      ensures ParseBranch(t, p, inner, Empty) == Ok(e, q) && e != Empty && !BranchEnds(t, p, inner)
    {
      BranchStarts(t, p, q, e);
      BranchReads(t, p, q, e, inner);
    }
  }

  lemma {:induction false} BranchGrows(t: Word, p: nat, inner: bool, sofar: Ere)
    requires p <= |t| && sofar != Empty
    ensures ParseBranch(t, p, inner, sofar).Ok? ==> ParseBranch(t, p, inner, sofar).value != Empty
    decreases |t| - p
  {
    hide ParsePiece;
    if !BranchEnds(t, p, inner) && ParsePiece(t, p).Ok? {
      BranchGrows(t, ParsePiece(t, p).next, inner, Seq(sofar, ParsePiece(t, p).value));
    }
  }

  /** What is wrong with a pattern as a whole. */
  ghost predicate PatternFault(t: Word, x: Error) { ReFault(t, 0, false, x) }

  /** A pattern has a fault of one kind only, and it has one exactly if it is not one the grammar spells. */
  lemma {:induction false} OneFault(t: Word, x: Error, y: Error)
    requires PatternFault(t, x) && PatternFault(t, y)
    ensures x == y && forall e :: !SpellsRe(t, 0, |t|, e)
  {
    hide ReFault, SpellsRe;
    ReRefused(t, 0, false, x);
    ReRefused(t, 0, false, y);
    forall e ensures !SpellsRe(t, 0, |t|, e) { ReaderIsGrammar(t, e); }
  }
}
