/** Extended regular expressions as trees, the languages they denote, and the reading of a pattern
    (sections 9.4 and 9.5.3 of IEEE Std 1003.1-2008; src/missing/regcomp.c). */
module Syntax {
  import opened Strip
  import opened Language

  datatype Limit = Unbounded | UpTo(n: nat)

  datatype Ere =
    | Empty
    | Chr(c: Byte)
    | Any
    | Bracket(cs: CSet)
    | Sub(e: Ere)
    | Seq(first: Ere, second: Ere)
    | Or(left: Ere, right: Ere)
    | Rep(e: Ere, lo: nat, hi: Limit)

  const NEWLINE: Byte := 10

  /** The characters a single-character expression stands for. Under REG_NEWLINE a dot and a
      complemented bracket expression leave the newline out. */
  predicate DotMatches(newline: bool, c: Byte) {
    !(newline && c == NEWLINE)
  }

  predicate BracketMatches(cs: CSet, newline: bool, c: Byte) {
    CHIN(cs, c) && !(newline && cs.invert && c == NEWLINE)
  }

  ghost function AnyChars(newline: bool): set<Byte> {
    set c: Byte | DotMatches(newline, c)
  }

  ghost function BracketChars(cs: CSet, newline: bool): set<Byte> {
    set c: Byte | BracketMatches(cs, newline, c)
  }

  ghost predicate Within(n: nat, lo: nat, hi: Limit) {
    lo <= n && (hi.UpTo? ==> n <= hi.n)
  }

  ghost predicate SomeRepetition(a: Lang, lo: nat, hi: Limit, w: Word) {
    exists n: nat :: Within(n, lo, hi) && w in Power(a, n)
  }

  /** The words that consist of lo to hi words of a. */
  ghost function Between(a: Lang, lo: nat, hi: Limit): Lang {
    iset w: Word | SomeRepetition(a, lo, hi, w)
  }

  /** The language a tree denotes. */
  ghost function Denotes(e: Ere, newline: bool): Lang {
    match e
    case Empty => UNIT
    case Chr(c) => Chars({c})
    case Any => Chars(AnyChars(newline))
    case Bracket(cs) => Chars(BracketChars(cs, newline))
    case Sub(a) => Denotes(a, newline)
    case Seq(a, b) => Concat(Denotes(a, newline), Denotes(b, newline))
    case Or(a, b) => Denotes(a, newline) + Denotes(b, newline)
    case Rep(a, lo, hi) => Between(Denotes(a, newline), lo, hi)
  }

  /** The tree takes up no code: it was written with zero repetitions only. */
  predicate Void(e: Ere) {
    match e
    case Empty => true
    case Seq(a, b) => Void(a) && Void(b)
    case Rep(_, _, hi) => hi == UpTo(0)
    case _ => false
  }

  // ---------- reading a pattern ----------

  /** REG_ error codes. NotModelled stands for anchors, word anchors, and named classes. */
  datatype Error = EEMPTY | EPAREN | BADRPT | EESCAPE | EBRACE | BADBR | EBRACK | ERANGE | NotModelled

  datatype Parsed<T> = Ok(value: T, next: nat) | Err(error: Error)

  const DUPMAX: nat := 255
  const INFINITY: nat := DUPMAX + 1

  predicate IsDigit(c: Byte) { '0' as int <= c <= '9' as int }

  predicate IsAlpha(c: Byte) { 'A' as int <= c <= 'Z' as int || 'a' as int <= c <= 'z' as int }

  predicate IsRepetition(c: Byte) { c == '*' as int || c == '+' as int || c == '?' as int || c == '{' as int }

  predicate MayEscape(c: Byte) {
    !(IsAlpha(c) || c == '\'' as int || c == '`' as int)
  }

  /** The character at p, or the terminating NUL. */
  function Peek(t: Word, p: nat): Byte {
    if p < |t| then t[p] else 0
  }

  predicate See(t: Word, p: nat, c: Byte) {
    p < |t| && t[p] == c
  }

  function CountFrom(t: Word, p: nat, count: nat): (r: (nat, nat))
    ensures r.1 >= p && (p <= |t| ==> r.1 <= |t|)
    decreases |t| - p
  {
    if p < |t| && IsDigit(t[p]) && count <= DUPMAX then CountFrom(t, p + 1, count * 10 + (t[p] - '0' as int))
    else (count, p)
  }

  function ParseCount(t: Word, p: nat): (r: Parsed<nat>)
    requires p <= |t|
    ensures r.Ok? ==> p < r.next <= |t| && r.value <= DUPMAX
  {
    var (n, q) := CountFrom(t, p, 0);
    if q > p && n <= DUPMAX then Ok(n, q) else Err(BADBR)
  }

  predicate LaterBrace(t: Word, p: nat) {
    exists q: nat :: p <= q < |t| && t[q] == '}' as int
  }

  /** The counts of a bound, after the opening brace. */
  function ParseLimits(t: Word, p: nat): (r: Parsed<(nat, Limit)>)
    requires p <= |t|
    ensures r.Ok? ==> p < r.next <= |t|
  {
    match ParseCount(t, p)
    case Err(x) => Err(x)
    case Ok(n, q) =>
      if See(t, q, ',' as int) then
        if IsDigit(Peek(t, q + 1)) then
          match ParseCount(t, q + 1)
          case Err(x) => Err(x)
          case Ok(k, q2) => if n <= k then Ok((n, UpTo(k)), q2) else Err(BADBR)
        else Ok((n, Unbounded), q + 1)
      else Ok((n, UpTo(n)), q)
  }

  /** The inside of {...}, after the opening brace. */
  function ParseBounds(t: Word, p: nat): (r: Parsed<(nat, Limit)>)
    requires p <= |t|
    ensures r.Ok? ==> p < r.next <= |t|
  {
    match ParseLimits(t, p)
    case Err(x) => Err(x)
    case Ok(limits, q) =>
      if See(t, q, '}' as int) then Ok(limits, q + 1)
      else if LaterBrace(t, q) then Err(BADBR)
      else Err(EBRACE)
  }

  predicate See2(t: Word, p: nat, c: Byte, d: Byte) {
    p + 1 < |t| && t[p] == c && t[p + 1] == d
  }

  /** One character of a bracket expression; collating symbols are not modelled. */
  function ParseSymbol(t: Word, p: nat): (r: Parsed<Byte>)
    requires p < |t|
    ensures r.Ok? ==> r.next == p + 1
  {
    if See2(t, p, '[' as int, '.' as int) then Err(NotModelled) else Ok(t[p], p + 1)
  }

  predicate InOrder(a: Byte, c: Byte, b: Byte) {
    a <= c <= b
  }

  function Interval(a: Byte, b: Byte): set<Byte> {
    set c: Byte | InOrder(a, c, b)
  }

  /** One character or range. */
  function ParseTerm(t: Word, p: nat): (r: Parsed<set<Byte>>)
    requires p < |t|
    ensures r.Ok? ==> p < r.next <= |t|
  {
    if See2(t, p, '[' as int, ':' as int) || See2(t, p, '[' as int, '=' as int) then Err(NotModelled)
    else if t[p] == '-' as int then Err(ERANGE)
    else
      match ParseSymbol(t, p)
      case Err(x) => Err(x)
      case Ok(a, q) =>
        if See(t, q, '-' as int) && q + 1 < |t| && t[q + 1] != ']' as int then
          match (if t[q + 1] == '-' as int then Ok('-' as int, q + 2) else ParseSymbol(t, q + 1))
          case Err(x) => Err(x)
          case Ok(b, q2) => if a <= b then Ok(Interval(a, b), q2) else Err(ERANGE)
        else Ok({a}, q)
  }

  function ParseTerms(t: Word, p: nat, bmp: set<Byte>): (r: Parsed<set<Byte>>)
    requires p <= |t|
    ensures r.Ok? ==> p <= r.next <= |t|
    decreases |t| - p
  {
    if p < |t| && t[p] != ']' as int && !See2(t, p, '-' as int, ']' as int) then
      match ParseTerm(t, p)
      case Err(x) => Err(x)
      case Ok(cs, q) => ParseTerms(t, q, bmp + cs)
    else Ok(bmp, p)
  }

  predicate WordAnchor(t: Word, p: nat) {
    p + 5 < |t| && t[p] == '[' as int && t[p + 1] == ':' as int && (t[p + 2] == '<' as int || t[p + 2] == '>' as int)
    && t[p + 3] == ':' as int && t[p + 4] == ']' as int && t[p + 5] == ']' as int
  }

  /** The complement mark and a leading bracket or dash, which stand for themselves there. */
  function BracketStart(t: Word, p: nat): (r: (bool, set<Byte>, nat))
    requires p <= |t|
    ensures p <= r.2 <= |t|
  {
    var invert := See(t, p, '^' as int);
    var q := if invert then p + 1 else p;
    if See(t, q, ']' as int) then (invert, {']' as int}, q + 1)
    else if See(t, q, '-' as int) then (invert, {'-' as int}, q + 1)
    else (invert, {}, q)
  }

  /** A final dash, and the closing bracket. */
  function BracketEnd(t: Word, p: nat, bmp: set<Byte>): (r: Parsed<set<Byte>>)
    requires p <= |t|
    ensures r.Ok? ==> p < r.next <= |t|
  {
    var dash := See(t, p, '-' as int);
    var q := if dash then p + 1 else p;
    if See(t, q, ']' as int) then Ok(if dash then bmp + {'-' as int} else bmp, q + 1) else Err(EBRACK)
  }

  /** A bracket expression, after the opening bracket. */
  function ParseBracket(t: Word, p: nat): (r: Parsed<CSet>)
    requires p <= |t|
    ensures r.Ok? ==> p < r.next <= |t|
  {
    if WordAnchor(t, p) then Err(NotModelled)
    else
      var (invert, first, q) := BracketStart(t, p);
      match ParseTerms(t, q, first)
      case Err(x) => Err(x)
      case Ok(all, q2) =>
        match BracketEnd(t, q2, all)
        case Err(x) => Err(x)
        case Ok(bmp, q3) => Ok(CSet(bmp, invert), q3)
  }

  function ParseAtom(t: Word, p: nat): (r: Parsed<Ere>)
    requires p < |t|
    ensures r.Ok? ==> p < r.next <= |t| && r.value != Empty
    decreases |t| - p, 0
  {
    var c := t[p];
    if c == '(' as int then
      if p + 1 >= |t| then Err(EPAREN)
      else if t[p + 1] == ')' as int then Ok(Sub(Empty), p + 2)
      else
        match ParseRe(t, p + 1, true)
        case Err(x) => Err(x)
        case Ok(e, q) => if See(t, q, ')' as int) then Ok(Sub(e), q + 1) else Err(EPAREN)
    else if c == ')' as int then Err(EPAREN)
    else if c == '^' as int || c == '$' as int then Err(NotModelled)
    else if c == '|' as int then Err(EEMPTY)
    else if IsRepetition(c) then Err(BADRPT)
    else if c == '.' as int then Ok(Any, p + 1)
    else if c == '[' as int then
      match ParseBracket(t, p + 1)
      case Err(x) => Err(x)
      case Ok(cs, q) => Ok(Bracket(cs), q)
    else if c == '\\' as int then
      if p + 1 >= |t| then Err(EESCAPE)
      else if t[p + 1] == '<' as int || t[p + 1] == '>' as int then Err(NotModelled)
      else if MayEscape(t[p + 1]) then Ok(Chr(t[p + 1]), p + 2)
      else Err(EESCAPE)
    else Ok(Chr(c), p + 1)
  }

  /** A repetition operator at p, if there is one. */
  function ParseSuffix(t: Word, p: nat): (r: Parsed<(nat, Limit)>)
    requires p < |t| && IsRepetition(t[p])
    ensures r.Ok? ==> p < r.next <= |t|
  {
    if t[p] == '*' as int then Ok((0, Unbounded), p + 1)
    else if t[p] == '+' as int then Ok((1, Unbounded), p + 1)
    else if t[p] == '?' as int then Ok((0, UpTo(1)), p + 1)
    else if p + 1 < |t| && (IsDigit(t[p + 1]) || t[p + 1] == ',' as int) then ParseBounds(t, p + 1)
    else Err(BADRPT)
  }

  /** A second repetition operator would follow. */
  predicate Doubled(t: Word, p: nat) {
    p < |t| && (t[p] == '*' as int || t[p] == '+' as int || t[p] == '?' as int
                || (t[p] == '{' as int && p + 1 < |t| && IsDigit(t[p + 1])))
  }

  /** An atom with its repetition operator. */
  function ParsePiece(t: Word, p: nat): (r: Parsed<Ere>)
    requires p < |t|
    ensures r.Ok? ==> p < r.next <= |t| && r.value != Empty
    decreases |t| - p, 1
  {
    match ParseAtom(t, p)
    case Err(x) => Err(x)
    case Ok(a, q) =>
      if q < |t| && IsRepetition(t[q]) then
        match ParseSuffix(t, q)
        case Err(x) => Err(x)
        case Ok((lo, hi), q2) => if Doubled(t, q2) then Err(BADRPT) else Ok(Rep(a, lo, hi), q2)
      else Ok(a, q)
  }

  /** Nothing more belongs to the branch. */
  predicate BranchEnds(t: Word, p: nat, inner: bool) {
    p >= |t| || t[p] == '|' as int || (inner && t[p] == ')' as int)
  }

  /** The rest of a branch after the pieces read so far. */
  function ParseBranch(t: Word, p: nat, inner: bool, sofar: Ere): (r: Parsed<Ere>)
    requires p <= |t|
    ensures r.Ok? ==> p <= r.next <= |t|
    decreases |t| - p, 2
  {
    if BranchEnds(t, p, inner) then Ok(sofar, p)
    else
      match ParsePiece(t, p)
      case Err(x) => Err(x)
      case Ok(e, q) => ParseBranch(t, q, inner, if sofar == Empty then e else Seq(sofar, e))
  }

  /** Branches separated by bars. */
  function ParseRe(t: Word, p: nat, inner: bool): (r: Parsed<Ere>)
    requires p <= |t|
    ensures r.Ok? ==> p <= r.next <= |t|
    decreases |t| - p, 3
  {
    match ParseBranch(t, p, inner, Empty)
    case Err(x) => Err(x)
    case Ok(e, q) =>
      if Void(e) then Err(EEMPTY)
      else if See(t, q, '|' as int) then
        match ParseRe(t, q + 1, inner)
        case Err(x) => Err(x)
        case Ok(f, q2) => Ok(Or(e, f), q2)
      else Ok(e, q)
  }
}
