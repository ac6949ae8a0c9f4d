/** The grammar of patterns (section 9.5.3 of IEEE Std 1003.1-2008), as a relation between a piece of
    text and a tree, and the proof that the reader accepts exactly the grammar. */
module Grammar {
  import opened Strip
  import opened Syntax

  /** Stands for itself. */
  predicate Ordinary(c: Byte) {
    && c != '(' as int && c != ')' as int && c != '^' as int && c != '$' as int && c != '|' as int
    && !IsRepetition(c) && c != '.' as int && c != '[' as int && c != '\\' as int
  }

  predicate Digits(t: Word, p: nat, q: nat) {
    p < q <= |t| && forall i :: p <= i < q ==> IsDigit(t[i])
  }

  /** The number the digits from p to q write, after those before p have written n. */
  function Number(t: Word, p: nat, q: nat, n: nat): nat
    requires p <= q <= |t| && forall i :: p <= i < q ==> IsDigit(t[i])
    decreases q - p
  {
    if p == q then n
    else
      assert IsDigit(t[p]);
      Number(t, p + 1, q, n * 10 + (t[p] - '0' as int))
  }

  /** A count of at most DUPMAX. */
  predicate SpellsCount(t: Word, p: nat, q: nat, n: nat) {
    Digits(t, p, q) && Number(t, p, q, 0) == n && n <= DUPMAX
  }

  /** A repetition operator from p to q. */
  ghost predicate SpellsSuffix(t: Word, p: nat, q: nat, lo: nat, hi: Limit) {
    p < q <= |t| &&
    ( (q == p + 1 && t[p] == '*' as int && lo == 0 && hi == Unbounded)
    || (q == p + 1 && t[p] == '+' as int && lo == 1 && hi == Unbounded)
    || (q == p + 1 && t[p] == '?' as int && lo == 0 && hi == UpTo(1))
    || (t[p] == '{' as int && t[q - 1] == '}' as int && p + 2 < q &&
        ( (hi == UpTo(lo) && SpellsCount(t, p + 1, q - 1, lo))
        || (hi == Unbounded && t[q - 2] == ',' as int && SpellsCount(t, p + 1, q - 2, lo))
        || (hi.UpTo? && lo <= hi.n && exists m: nat ::
              m < q && SpellsCount(t, p + 1, m, lo) && t[m] == ',' as int && SpellsCount(t, m + 1, q - 1, hi.n)))))
  }

  // ---------- bracket expressions ----------

  /** A character of a bracket expression: anything that does not open a collating symbol. */
  predicate SpellsSymbol(t: Word, p: nat, q: nat, c: Byte) {
    q == p + 1 <= |t| && t[p] == c && !See2(t, p, '[' as int, '.' as int)
  }

  /** A character or a range; neither begins with a dash, and a dash may end a range. */
  predicate SpellsTerm(t: Word, p: nat, q: nat, cs: set<Byte>) {
    && p < q <= |t| && t[p] != '-' as int
    && !See2(t, p, '[' as int, ':' as int) && !See2(t, p, '[' as int, '=' as int)
    && SpellsSymbol(t, p, p + 1, t[p])
    && (|| (q == p + 1 && cs == {t[p]})
        || (q == p + 3 && t[p + 1] == '-' as int && t[p + 2] != ']' as int && SpellsSymbol(t, p + 2, q, t[p + 2])
            && t[p] <= t[p + 2] && cs == Interval(t[p], t[p + 2])))
  }

  /** A list of terms, none of which begins like the end of the expression. */
  ghost predicate SpellsTerms(t: Word, p: nat, q: nat, cs: set<Byte>)
    decreases q - p
  {
    if p >= q then p == q <= |t| && cs == {}
    else exists m: nat, a: set<Byte>, b: set<Byte> ::
      p < m <= q && SpellsTerm(t, p, m, a) && t[p] != ']' as int && SpellsTerms(t, m, q, b) && cs == a + b
  }

  /** A first character that stands for itself there only, or none. */
  predicate SpellsFirst(t: Word, p: nat, q: nat, first: set<Byte>) {
    if See(t, p, ']' as int) || See(t, p, '-' as int) then q == p + 1 && first == {t[p]} else q == p && first == {}
  }

  /** A final dash, or none, and the closing bracket. */
  predicate SpellsLast(t: Word, p: nat, q: nat, last: set<Byte>) {
    if See(t, p, '-' as int) then q == p + 2 <= |t| && t[p + 1] == ']' as int && last == {'-' as int}
    else q == p + 1 <= |t| && t[p] == ']' as int && last == {}
  }

  /** A bracket expression, after the opening bracket, with a complement mark or without. */
  ghost predicate SpellsBracket(t: Word, p: nat, q: nat, cs: CSet) {
    exists m: nat, n: nat, first: set<Byte>, all: set<Byte>, last: set<Byte> ::
        SpellsList(t, p, q, cs, m, n, first, all, last)
  }

  /** Its parts: the terms are those from m to n. */
  ghost predicate SpellsList(t: Word, p: nat, q: nat, cs: CSet, m: nat, n: nat, first: set<Byte>, all: set<Byte>,
                             last: set<Byte>) {
    && cs.invert == See(t, p, '^' as int)
    && SpellsFirst(t, if cs.invert then p + 1 else p, m, first) && SpellsTerms(t, m, n, all)
        && SpellsLast(t, n, q, last)
    && cs.bmp == first + all + last
  }

  // ---------- expressions ----------

  ghost predicate SpellsAtom(t: Word, p: nat, q: nat, e: Ere)
    decreases e, 0
  {
    p < q <= |t| &&
    match e
    case Chr(c) =>
      || (q == p + 1 && t[p] == c && Ordinary(c))
      || (q == p + 2 && t[p] == '\\' as int && t[p + 1] == c && MayEscape(c) && c != '<' as int && c != '>' as int)
    case Any => q == p + 1 && t[p] == '.' as int
    case Bracket(cs) => t[p] == '[' as int && SpellsBracket(t, p + 1, q, cs)
    case Sub(a) =>
      && t[p] == '(' as int && t[q - 1] == ')' as int && p + 1 < q
      && (if a == Empty then q == p + 2 else p + 1 < q - 1 && SpellsRe(t, p + 1, q - 1, a))
    case _ => false
  }

  ghost predicate SpellsPiece(t: Word, p: nat, q: nat, e: Ere)
    decreases e, 1
  {
    match e
    case Rep(a, lo, hi) => exists m: nat :: SpellsAtom(t, p, m, a) && SpellsSuffix(t, m, q, lo, hi)
    case _ => SpellsAtom(t, p, q, e)
  }

  ghost predicate SpellsBranch(t: Word, p: nat, q: nat, e: Ere)
    decreases e, 2
  {
    match e
    case Seq(a, b) => exists m: nat :: SpellsBranch(t, p, m, a) && SpellsPiece(t, m, q, b)
    case _ => SpellsPiece(t, p, q, e)
  }

  /** A whole expression: branches, each of which takes up code, separated by bars. */
  ghost predicate SpellsRe(t: Word, p: nat, q: nat, e: Ere)
    decreases e, 3
  {
    match e
    case Or(a, b) =>
      && !Void(a)
      && exists m: nat :: m < |t| && SpellsBranch(t, p, m, a) && t[m] == '|' as int && SpellsRe(t, m + 1, q, b)
    case _ => !Void(e) && SpellsBranch(t, p, q, e)
  }

  // ---------- every spelling is read ----------

  lemma {:induction false} CountReads(t: Word, p: nat, q: nat, n: nat)
    requires p <= q <= |t| && forall i :: p <= i < q ==> IsDigit(t[i])
    requires Number(t, p, q, n) <= DUPMAX && !(q < |t| && IsDigit(t[q]))
    ensures CountFrom(t, p, n) == (Number(t, p, q, n), q)
    decreases q - p
  {
    if p < q {
      NumberGrows(t, p, q, n);
      CountReads(t, p + 1, q, n * 10 + (t[p] - '0' as int));
    }
  }

  lemma {:induction false} NumberGrows(t: Word, p: nat, q: nat, n: nat)
    requires p <= q <= |t| && forall i :: p <= i < q ==> IsDigit(t[i])
    ensures Number(t, p, q, n) >= n
    decreases q - p
  {
    if p < q { NumberGrows(t, p + 1, q, n * 10 + (t[p] - '0' as int)); }
  }

  lemma SuffixReads(t: Word, p: nat, q: nat, lo: nat, hi: Limit)
    requires SpellsSuffix(t, p, q, lo, hi)
    ensures IsRepetition(t[p]) && ParseSuffix(t, p) == Ok((lo, hi), q)
  {
    if t[p] == '{' as int {
      BoundReads(t, p, q, lo, hi);
    }
  }

  lemma BoundReads(t: Word, p: nat, q: nat, lo: nat, hi: Limit)
    requires SpellsSuffix(t, p, q, lo, hi) && t[p] == '{' as int
    ensures IsDigit(t[p + 1]) && ParseBounds(t, p + 1) == Ok((lo, hi), q)
  {
    hide SpellsCount, ParseCount, LaterBrace;
    if hi == UpTo(lo) && SpellsCount(t, p + 1, q - 1, lo) {
      CountRead(t, p + 1, q - 1, lo);
    } else if hi == Unbounded {
      CountRead(t, p + 1, q - 2, lo);
    } else {
      var m: nat :| m < q && SpellsCount(t, p + 1, m, lo) && t[m] == ',' as int && SpellsCount(t, m + 1, q - 1, hi.n);
      CountRead(t, p + 1, m, lo);
      CountRead(t, m + 1, q - 1, hi.n);
    }
  }

  lemma CountRead(t: Word, p: nat, q: nat, n: nat)
    requires SpellsCount(t, p, q, n) && q < |t| && !IsDigit(t[q])
    ensures p < q && IsDigit(t[p]) && ParseCount(t, p) == Ok(n, q)
  {
    CountReads(t, p, q, 0);
  }

  lemma TermReads(t: Word, p: nat, q: nat, cs: set<Byte>)
    requires SpellsTerm(t, p, q, cs)
    requires q == p + 1 ==> !(See(t, q, '-' as int) && q + 1 < |t| && t[q + 1] != ']' as int)
    ensures ParseTerm(t, p) == Ok(cs, q)
  {
    if q == p + 1 {
      assert ParseSymbol(t, p) == Ok(t[p], p + 1);
    } else {
      assert ParseSymbol(t, p) == Ok(t[p], p + 1);
      assert t[p + 2] != '-' as int ==> ParseSymbol(t, p + 2) == Ok(t[p + 2], q);
    }
  }

  /** What may follow a list of terms. */
  predicate Closes(t: Word, q: nat) {
    See(t, q, ']' as int) || See2(t, q, '-' as int, ']' as int)
  }

  lemma {:induction false} TermsRead(t: Word, p: nat, q: nat, cs: set<Byte>, bmp: set<Byte>)
    requires SpellsTerms(t, p, q, cs) && Closes(t, q)
    ensures p <= |t| && ParseTerms(t, p, bmp) == Ok(bmp + cs, q)
    decreases q - p
  {
    hide SpellsTerm, ParseTerm;
    if p < q {
      var m: nat, a: set<Byte>, b: set<Byte> :|
        p < m <= q && SpellsTerm(t, p, m, a) && t[p] != ']' as int && SpellsTerms(t, m, q, b) && cs == a + b;
      TermsBegin(t, m, q, b);
      TermBegins(t, p, m, a);
      TermReads(t, p, m, a);
      TermsRead(t, m, q, b, bmp + a);
      assert bmp + a + b == bmp + cs;
    } else {
      assert bmp + cs == bmp;
    }
  }

  lemma TermBegins(t: Word, p: nat, q: nat, cs: set<Byte>)
    requires SpellsTerm(t, p, q, cs)
    ensures p < q <= |t| && t[p] != '-' as int
  {}

  /** What comes after a term is not the middle of a range. */
  lemma TermsBegin(t: Word, p: nat, q: nat, cs: set<Byte>)
    requires SpellsTerms(t, p, q, cs) && Closes(t, q)
    ensures !(See(t, p, '-' as int) && p + 1 < |t| && t[p + 1] != ']' as int)
  {
    if p < q {
      var m: nat, a: set<Byte>, b: set<Byte> :|
        p < m <= q && SpellsTerm(t, p, m, a) && t[p] != ']' as int && SpellsTerms(t, m, q, b) && cs == a + b;
    }
  }

  lemma BracketReads(t: Word, p: nat, q: nat, cs: CSet)
    requires SpellsBracket(t, p, q, cs)
    ensures p < q <= |t| && ParseBracket(t, p) == Ok(cs, q)
  {
    hide SpellsList, ParseBracket;
    var m: nat, n: nat, first: set<Byte>, all: set<Byte>, last: set<Byte> :|
        SpellsList(t, p, q, cs, m, n, first, all, last);
    ListReads(t, p, q, cs, m, n, first, all, last);
  }

  lemma ListReads(t: Word, p: nat, q: nat, cs: CSet, m: nat, n: nat, first: set<Byte>, all: set<Byte>, last: set<Byte>)
    requires SpellsList(t, p, q, cs, m, n, first, all, last)
    ensures p < q <= |t| && ParseBracket(t, p) == Ok(cs, q)
  {
    hide SpellsTerms, ParseTerms, SpellsTerm;
    TermsFit(t, m, n, all);
    TermsRead(t, m, n, all, first);
    NoAnchor(t, p, m, n, all);
    assert BracketStart(t, p) == (cs.invert, first, m);
    assert last == {} ==> first + all + last == first + all;
    assert BracketEnd(t, n, first + all) == Ok(cs.bmp, q);
  }

  lemma {:induction false} TermsFit(t: Word, p: nat, q: nat, cs: set<Byte>)
    requires SpellsTerms(t, p, q, cs)
    ensures p <= q <= |t|
    decreases q - p
  {
    if p < q {
      var m: nat, a: set<Byte>, b: set<Byte> :|
        p < m <= q && SpellsTerm(t, p, m, a) && t[p] != ']' as int && SpellsTerms(t, m, q, b) && cs == a + b;
      TermsFit(t, m, q, b);
    }
  }

  /** A word anchor is no bracket expression. */
  lemma NoAnchor(t: Word, p: nat, m: nat, n: nat, all: set<Byte>)
    requires SpellsTerms(t, m, n, all) && Closes(t, n) && (p == m || !See(t, p, '[' as int))
    ensures !WordAnchor(t, p)
  {
    if p < n && p == m {
      var k: nat, a: set<Byte>, b: set<Byte> :|
        m < k <= n && SpellsTerm(t, m, k, a) && t[m] != ']' as int && SpellsTerms(t, k, n, b) && all == a + b;
    }
  }

  /** The first character of an atom is neither a repetition operator nor the end of a branch. */
  lemma AtomStarts(t: Word, p: nat, q: nat, e: Ere)
    requires SpellsAtom(t, p, q, e)
    ensures p < |t| && !IsRepetition(t[p]) && !BranchEnds(t, p, true)
  {
    hide SpellsBracket, SpellsRe;
  }

  lemma PieceStarts(t: Word, p: nat, q: nat, e: Ere)
    requires SpellsPiece(t, p, q, e)
    ensures p < q <= |t| && !IsRepetition(t[p]) && !BranchEnds(t, p, true)
  {
    if e.Rep? {
      var m: nat :| SpellsAtom(t, p, m, e.e) && SpellsSuffix(t, m, q, e.lo, e.hi);
      AtomStarts(t, p, m, e.e);
    } else {
      AtomStarts(t, p, q, e);
    }
  }

  lemma {:induction false} AtomReads(t: Word, p: nat, q: nat, e: Ere)
    requires SpellsAtom(t, p, q, e)
    ensures p < |t| && ParseAtom(t, p) == Ok(e, q)
    decreases e, 0
  {
    hide SpellsBracket, ParseBracket;
    match e
    case Sub(a) => if a != Empty { SubReads(t, p, q, a); }
    case Bracket(cs) => BracketReads(t, p + 1, q, cs);
    case _ =>
  }

  lemma {:induction false} SubReads(t: Word, p: nat, q: nat, a: Ere)
    requires a != Empty && SpellsAtom(t, p, q, Sub(a))
    ensures p < |t| && ParseAtom(t, p) == Ok(Sub(a), q)
    decreases a, 4
  {
    ReStarts(t, p + 1, q - 1, a);
    ReReads(t, p + 1, q - 1, a, true);
  }

  lemma {:induction false} PieceReads(t: Word, p: nat, q: nat, e: Ere)
    requires SpellsPiece(t, p, q, e)
    requires if e.Rep? then !Doubled(t, q) else q >= |t| || !IsRepetition(t[q])
    ensures p < |t| && ParsePiece(t, p) == Ok(e, q)
    decreases e, 1
  {
    hide SpellsAtom, SpellsSuffix, ParseAtom, ParseSuffix;
    if e.Rep? {
      var m: nat :| SpellsAtom(t, p, m, e.e) && SpellsSuffix(t, m, q, e.lo, e.hi);
      AtomReads(t, p, m, e.e);
      SuffixReads(t, m, q, e.lo, e.hi);
    } else {
      AtomReads(t, p, q, e);
      NoRepetition(t, p, q, e);
    }
  }

  lemma NoRepetition(t: Word, p: nat, q: nat, e: Ere)
    requires SpellsAtom(t, p, q, e)
    ensures !e.Rep?
  {
    hide SpellsBracket, SpellsRe;
  }

  lemma {:induction false} BranchStarts(t: Word, p: nat, q: nat, e: Ere)
    requires SpellsBranch(t, p, q, e)
    ensures p < q <= |t| && !IsRepetition(t[p]) && !BranchEnds(t, p, true)
    decreases e
  {
    match e
    case Seq(a, b) =>
      var m: nat :| SpellsBranch(t, p, m, a) && SpellsPiece(t, m, q, b);
      BranchStarts(t, p, m, a);
      PieceStarts(t, m, q, b);
    case _ => PieceStarts(t, p, q, e);
  }

  lemma {:induction false} ReStarts(t: Word, p: nat, q: nat, e: Ere)
    requires SpellsRe(t, p, q, e)
    ensures p < q <= |t| && !BranchEnds(t, p, true)
    decreases e
  {
    match e
    case Or(a, b) =>
      var m: nat :| m < |t| && SpellsBranch(t, p, m, a) && t[m] == '|' as int && SpellsRe(t, m + 1, q, b);
      BranchStarts(t, p, m, a);
      ReStarts(t, m + 1, q, b);
    case _ => BranchStarts(t, p, q, e);
  }

  /** Reading a branch gets from p to q with the tree e in hand. */
  lemma {:induction false} BranchReads(t: Word, p: nat, q: nat, e: Ere, inner: bool)
    requires SpellsBranch(t, p, q, e)
    requires q >= |t| || !IsRepetition(t[q])
    ensures p <= |t| && q <= |t| && e != Empty
    ensures ParseBranch(t, p, inner, Empty) == ParseBranch(t, q, inner, e)
    decreases e, 2
  {
    if e.Seq? {
      var m: nat :| SpellsBranch(t, p, m, e.first) && SpellsPiece(t, m, q, e.second);
      PieceStarts(t, m, q, e.second);
      BranchStarts(t, p, m, e.first);
      BranchReads(t, p, m, e.first, inner);
      PieceReads(t, m, q, e.second);
    } else {
      PieceStarts(t, p, q, e);
      PieceReads(t, p, q, e);
    }
  }

  lemma {:induction false} ReReads(t: Word, p: nat, q: nat, e: Ere, inner: bool)
    requires SpellsRe(t, p, q, e)
    requires q == |t| || (q < |t| && inner && t[q] == ')' as int)
    ensures p <= |t| && ParseRe(t, p, inner) == Ok(e, q)
    decreases e, 3
  {
    hide SpellsBranch;
    if e.Or? {
      var m: nat :| m < |t| && SpellsBranch(t, p, m, e.left) && t[m] == '|' as int && SpellsRe(t, m + 1, q, e.right);
      BranchReads(t, p, m, e.left, inner);
      assert ParseBranch(t, m, inner, e.left) == Ok(e.left, m);
      ReReads(t, m + 1, q, e.right, inner);
    } else {
      BranchReads(t, p, q, e, inner);
      assert ParseBranch(t, q, inner, e) == Ok(e, q);
    }
  }

  // ---------- everything read is a spelling ----------

  lemma {:induction false} CountSpells(t: Word, p: nat, n: nat)
    requires p <= |t|
    ensures
      var (m, q) := CountFrom(t, p, n);
      p <= q <= |t| && (forall i :: p <= i < q ==> IsDigit(t[i])) && Number(t, p, q, n) == m
    decreases |t| - p
  {
    if p < |t| && IsDigit(t[p]) && n <= DUPMAX { CountSpells(t, p + 1, n * 10 + (t[p] - '0' as int)); }
  }

  lemma LimitsSpell(t: Word, p: nat)
    requires p < |t| && t[p] == '{' as int
    ensures match ParseBounds(t, p + 1)
            case Ok((lo, hi), q) => SpellsSuffix(t, p, q, lo, hi)
            case Err(_) => true
  {
    CountSpells(t, p + 1, 0);
    match ParseCount(t, p + 1)
    case Err(_) =>
    case Ok(n, q) =>
      assert SpellsCount(t, p + 1, q, n);
      if See(t, q, ',' as int) && IsDigit(Peek(t, q + 1)) { CountSpells(t, q + 1, 0); }
  }

  lemma SuffixSpells(t: Word, p: nat)
    requires p < |t| && IsRepetition(t[p])
    ensures match ParseSuffix(t, p)
            case Ok((lo, hi), q) => SpellsSuffix(t, p, q, lo, hi)
            case Err(_) => true
  {
    if t[p] == '{' as int { LimitsSpell(t, p); }
  }

  lemma TermSpells(t: Word, p: nat)
    requires p < |t|
    ensures match ParseTerm(t, p) case Ok(cs, q) => SpellsTerm(t, p, q, cs) case Err(_) => true
  {}

  lemma {:induction false} TermsSpell(t: Word, p: nat, bmp: set<Byte>)
    requires p <= |t|
    ensures match ParseTerms(t, p, bmp)
            case Ok(all, q) => (q == |t| || Closes(t, q)) && exists cs :: SpellsTerms(t, p, q, cs) && all == bmp + cs
            case Err(_) => true
    decreases |t| - p
  {
    hide SpellsTerm, ParseTerm;
    if p < |t| && t[p] != ']' as int && !See2(t, p, '-' as int, ']' as int) {
      TermSpells(t, p);
      match ParseTerm(t, p)
      case Err(_) =>
      case Ok(a, m) =>
        TermsSpell(t, m, bmp + a);
        match ParseTerms(t, m, bmp + a)
        case Err(_) =>
        case Ok(all, q) =>
          var b :| SpellsTerms(t, m, q, b) && all == bmp + a + b;
          assert SpellsTerms(t, p, q, a + b);
          assert bmp + a + b == bmp + (a + b);
    } else {
      assert SpellsTerms(t, p, p, {}) && bmp + {} == bmp;
    }
  }

  lemma BracketSpells(t: Word, p: nat)
    requires p <= |t|
    ensures match ParseBracket(t, p) case Ok(cs, q) => SpellsBracket(t, p, q, cs) case Err(_) => true
  {
    hide SpellsTerms, ParseTerms, SpellsBracket;
    var (invert, first, m) := BracketStart(t, p);
    TermsSpell(t, m, first);
    match ParseBracket(t, p)
    case Err(_) =>
    case Ok(cs, q) =>
      var n := ParseTerms(t, m, first).next;
      var all :| SpellsTerms(t, m, n, all) && ParseTerms(t, m, first).value == first + all;
      ListSpells(t, p, m, n, q, first, all, cs);
  }

  lemma ListSpells(t: Word, p: nat, m: nat, n: nat, q: nat, first: set<Byte>, all: set<Byte>, cs: CSet)
    requires p <= |t| && BracketStart(t, p) == (cs.invert, first, m) && SpellsTerms(t, m, n, all)
    requires n <= |t| && BracketEnd(t, n, first + all) == Ok(cs.bmp, q)
    ensures SpellsBracket(t, p, q, cs)
  {
    hide SpellsTerms;
    var last := if See(t, n, '-' as int) then {'-' as int} else {};
    assert SpellsFirst(t, if cs.invert then p + 1 else p, m, first) && SpellsLast(t, n, q, last);
    assert cs.bmp == first + all + last;
    assert SpellsList(t, p, q, cs, m, n, first, all, last);
  }

  lemma {:induction false} AtomSpells(t: Word, p: nat)
    requires p < |t|
    ensures match ParseAtom(t, p) case Ok(e, q) => SpellsAtom(t, p, q, e) && !e.Rep? && !e.Seq? && !e.Or?
            case Err(_) => true
    decreases |t| - p, 0
  {
    hide SpellsBracket, ParseBracket, SpellsRe, ParseRe;
    if t[p] == '(' as int && p + 1 < |t| && t[p + 1] != ')' as int { ReSpells(t, p + 1, true); }
    if t[p] == '[' as int { BracketSpells(t, p + 1); }
  }

  lemma {:induction false} PieceSpells(t: Word, p: nat)
    requires p < |t|
    ensures match ParsePiece(t, p) case Ok(e, q) => SpellsPiece(t, p, q, e) && !e.Seq? && !e.Or? case Err(_) => true
    decreases |t| - p, 1
  {
    hide SpellsSuffix, SpellsAtom, ParseAtom, ParseSuffix;
    AtomSpells(t, p);
    match ParseAtom(t, p)
    case Err(_) =>
    case Ok(a, q) => if q < |t| && IsRepetition(t[q]) { SuffixSpells(t, q); }
  }

  lemma {:induction false} BranchSpells(t: Word, p0: nat, p: nat, inner: bool, sofar: Ere)
    requires p <= |t| && if sofar == Empty then p == p0 else SpellsBranch(t, p0, p, sofar) && !sofar.Or?
    ensures match ParseBranch(t, p, inner, sofar)
            case Ok(e, q) => (e == Empty || SpellsBranch(t, p0, q, e)) && !e.Or?
            case Err(_) => true
    decreases |t| - p, 2
  {
    hide SpellsPiece, ParsePiece;
    if !BranchEnds(t, p, inner) {
      PieceSpells(t, p);
      match ParsePiece(t, p)
      case Err(_) =>
      case Ok(e, q) =>
        assert sofar != Empty ==> SpellsBranch(t, p0, q, Seq(sofar, e));
        BranchSpells(t, p0, q, inner, if sofar == Empty then e else Seq(sofar, e));
    }
  }

  lemma {:induction false} ReSpells(t: Word, p: nat, inner: bool)
    requires p <= |t|
    ensures match ParseRe(t, p, inner) case Ok(e, q) => SpellsRe(t, p, q, e) && e != Empty case Err(_) => true
    decreases |t| - p, 3
  {
    hide SpellsBranch, ParseBranch;
    BranchSpells(t, p, p, inner, Empty);
    match ParseBranch(t, p, inner, Empty)
    case Err(_) =>
    case Ok(e, q) => if !Void(e) && See(t, q, '|' as int) { ReSpells(t, q + 1, inner); }
  }

  /** Reading a pattern gives a tree exactly when the pattern spells that tree. */
  lemma ReaderIsGrammar(t: Word, e: Ere)
    ensures ParseRe(t, 0, false) == Ok(e, |t|) <==> SpellsRe(t, 0, |t|, e)
  {
    if SpellsRe(t, 0, |t|, e) { ReReads(t, 0, |t|, e, false); }
    ReSpells(t, 0, false);
  }

  /** No pattern spells two trees. */
  lemma Unambiguous(t: Word, e: Ere, f: Ere)
    requires SpellsRe(t, 0, |t|, e) && SpellsRe(t, 0, |t|, f)
    ensures e == f
  {
    ReaderIsGrammar(t, e);
    ReaderIsGrammar(t, f);
  }
}
