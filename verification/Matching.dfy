/** The matcher: prescreen for the mandatory literal, fast walk, and the search for the leftmost start
    and the longest end (src/missing/engine.c, src/missing/regexec.c). */
module Matching {
  import opened Wrappers
  import opened Strip
  import opened Language
  import opened Node
  import opened Runs
  import opened ColdStart
  import opened Must
  import MustSound
  import BoyerMoore
  import opened Walk
  import opened States

  /** What compilation leaves for execution: the program, the mandatory literal with its jump
      tables if it is long enough to have them, and the flags. */
  datatype Guts = Guts(
    prog: Prog,
    lit: Literal,
    charjump: Option<seq<nat>>,
    matchjump: Option<seq<nat>>,
    newline: bool,
    nosub: bool,
    nbol: nat,
    neol: nat)

  /** The parts of a compiled pattern belong to the program that accepts the words of x. */
  ghost predicate Fitting(g: Guts, x: Node) {
    && Compiled(g.prog, x)
    && (g.lit.Literal? ==>
          && |g.lit.must| > 0 && g.lit.moffset >= -1
          && (forall w: Word :: w in Accepts(x) ==> MustSound.Has(w, g.lit.must, g.lit.moffset))
          && (g.charjump.Some? && g.matchjump.Some? ==>
                BoyerMoore.Tables(g.lit.must, g.charjump.value, g.matchjump.value)))
  }

  /** The subject from i to j is one of the words. */
  ghost predicate Piece(l: Lang, text: Word, i: int, j: int) {
    0 <= i <= j <= |text| && text[i..j] in l
  }

  /** Sections 9.1 and 9.4 of IEEE Std 1003.1-2008: of all pieces of the subject in the language the
      one that starts first and, among those, ends last. */
  ghost predicate LeftmostLongest(l: Lang, text: Word, so: int, eo: int) {
    && Piece(l, text, so, eo)
    && (forall i, j :: i < so ==> !Piece(l, text, i, j))
    && (forall j :: j > eo ==> !Piece(l, text, so, j))
  }

  lemma PiecesAreHits(g: Prog, x: Node, text: Word, i: int, j: int)
    requires g.Ok() && Compiled(g, x)
    ensures Piece(Accepts(x), text, i, j) <==> Hit(g, text, i, j)
  {
    hide Compiled, Reach;
    if 0 <= i <= j <= |text| { RunsAreAccepted(g, x, text[i..j]); }
  }

  lemma CompiledIsCold(g: Prog, x: Node)
    requires g.Ok() && Compiled(g, x)
    ensures Cold(g)
  {
    hide Compiled, Reach;
    forall q: nat | g.lo <= q < g.hi && IsConsuming(g.strip[q]) ensures !Reach(g, g.lo, [], q + 1) {
      NoSilentReach(g, x, q);
    }
  }

  /** A piece of the language holds the literal, not much behind its start. */
  lemma PieceHasMust(l: Lang, must: Word, moffset: int, text: Word, i: int, j: int) returns (k: int)
    requires Piece(l, text, i, j) && forall w: Word :: w in l ==> MustSound.Has(w, must, moffset)
    ensures BoyerMoore.OccursAt(must, text, i + k) && 0 <= k && (moffset > -1 ==> k <= moffset)
  {
    var w := text[i..j];
    var n: nat :| (moffset > -1 ==> n <= moffset) && BoyerMoore.OccursAt(must, w, n);
    k := n;
    assert forall m :: 0 <= m < |w| ==> w[m] == text[i + m];
    forall m | 0 <= m < |must| ensures text[i + k + m] == must[m] {
      assert w[n + m] == must[m];
      assert w[n + m] == text[i + (n + m)];
    }
  }

  /** The position nchar characters before cur, unless that is not behind start. */
  function StepBack(start: nat, cur: int, nchar: int): Option<nat> {
    if cur - nchar > start then Some(cur - nchar) else None
  }

  /** Look for the mandatory literal and move the start of the search up to it. */
  method Prescreen(g: Guts, text: Word, ghost x: Node) returns (possible: bool, start: nat)
    requires Fitting(g, x)
    ensures possible ==> start <= |text| && NoneStartsBefore(Accepts(x), text, start)
    ensures !possible ==> !SomePiece(Accepts(x), text)
  {
    hide Compiled, Accepts, MustSound.Has;
    start := 0;
    possible := true;
    if g.lit.Literal? {
      var must, moffset := g.lit.must, g.lit.moffset;
      var found, dp;
      if g.charjump.Some? && g.matchjump.Some? {
        found, dp := BoyerMoore.Search(must, g.charjump.value, g.matchjump.value, text);
      } else {
        found, dp := BoyerMoore.NaiveSearch(must, text);
      }
      forall i, j | !found || (moffset > -1 && i < dp - moffset) ensures !Piece(Accepts(x), text, i, j) {
        if Piece(Accepts(x), text, i, j) {
          var k := PieceHasMust(Accepts(x), must, moffset, text, i, j);
        }
      }
      if !found { return false, 0; }
      if moffset > -1 {
        var nstart := StepBack(start, dp, moffset);
        if nstart.Some? { start := nstart.value; }
      }
    }
  }

  /** Every piece starts at or after position n. */
  ghost predicate NoneStartsBefore(l: Lang, text: Word, n: int) {
    forall i, j :: i < n ==> !Piece(l, text, i, j)
  }

  ghost predicate SomePiece(l: Lang, text: Word) {
    exists i, j :: Piece(l, text, i, j)
  }

  /** What the fast walk reports, said of pieces. */
  lemma FastMeansPieces(g: Prog, x: Node, text: Word, start: nat, found: bool, m: nat)
    requires g.Ok() && Compiled(g, x) && start <= |text|
    requires FastResult(g, text, start, |text|, found, m)
    requires NoneStartsBefore(Accepts(x), text, start)
    ensures found <==> SomePiece(Accepts(x), text)
    ensures NoneStartsBefore(Accepts(x), text, m)
  {
    hide Compiled, Reach, Hit, Piece, Accepts;
    forall i, j ensures Piece(Accepts(x), text, i, j) <==> Hit(g, text, i, j) {
      PiecesAreHits(g, x, text, i, j);
    }
    forall i, j | Piece(Accepts(x), text, i, j) ensures 0 <= i <= j <= |text| {
      PieceInRange(Accepts(x), text, i, j);
    }
  }

  lemma PieceInRange(l: Lang, text: Word, i: int, j: int)
    requires Piece(l, text, i, j)
    ensures 0 <= i <= j <= |text|
  {}

  /** A slow walk that fails rules its start out; one that succeeds ends the search. */
  lemma SlowMeansPieces(g: Prog, x: Node, text: Word, start: nat, e: Option<nat>)
    requires g.Ok() && Compiled(g, x) && start <= |text|
    requires LongestBefore(g, text, start, |text| + 1, e)
    requires NoneStartsBefore(Accepts(x), text, start)
    ensures e.None? ==> NoneStartsBefore(Accepts(x), text, start + 1)
    ensures e.Some? ==> LeftmostLongest(Accepts(x), text, start, e.value)
  {
    hide Compiled, Reach, Hit, Piece, Accepts;
    forall j ensures Piece(Accepts(x), text, start, j) <==> Hit(g, text, start, j) {
      PiecesAreHits(g, x, text, start, j);
    }
    forall i, j | Piece(Accepts(x), text, i, j) ensures 0 <= i <= j <= |text| {
      PieceInRange(Accepts(x), text, i, j);
    }
  }

  /** matcher, for callers that ask for at most one pair of offsets. */
  method Matcher(g: Guts, text: Word, nmatch: nat, notbol: bool, noteol: bool, small: bool, ghost x: Node)
    returns (matched: bool, so: int, eo: int)
    requires Fitting(g, x) && nmatch <= 1
    requires small ==> |g.prog.strip| <= 64
    ensures matched <==> SomePiece(Accepts(x), text)
    ensures matched && nmatch == 1 && !g.nosub ==> LeftmostLongest(Accepts(x), text, so, eo)
  {
    var nm := if g.nosub then 0 else nmatch;
    so, eo := -1, -1;
    FittingParts(g, x);
    var possible, start := Prescreen(g, text, x);
    hide Compiled, Cold, Accepts, Fitting, Piece, LeftmostLongest, FastResult, LongestBefore;
    if !possible { return false, -1, -1; }
    var m := new Match(g.prog, text, g.newline, notbol, noteol, g.nbol, g.neol, small);
    var end := m.Walk(start, |text|, true);
    FastMeansPieces(g.prog, x, text, start, end.Some?, m.coldp);
    FastInRange(g.prog, text, start, |text|, end.Some?, m.coldp);
    matched := end.Some?;
    if matched && nm != 0 {
      eo := FindStart(m, x);
      so := m.coldp;
    }
  }

  lemma FittingParts(g: Guts, x: Node)
    requires Fitting(g, x)
    ensures Compiled(g.prog, x) && g.prog.Ok() && Cold(g.prog)
  {
    CompiledOk(g.prog, x);
    CompiledIsCold(g.prog, x);
  }

  lemma FastInRange(g: Prog, text: Word, begin: nat, stop: nat, found: bool, m: nat)
    requires g.Ok() && FastResult(g, text, begin, stop, found, m)
    ensures begin <= m <= stop
  {}

  /** Walk slowly from the cold position on until a walk succeeds. */
  method FindStart(m: Match, ghost x: Node) returns (end: nat)
    requires m.Valid() && Cold(m.g) && Compiled(m.g, x) && m.coldp <= |m.text|
    requires SomePiece(Accepts(x), m.text) && NoneStartsBefore(Accepts(x), m.text, m.coldp)
    modifies m`coldp, m.st`mask, m.st.cells, m.freshSt`mask, m.freshSt.cells, m.tmp`mask, m.tmp.cells
    ensures LeftmostLongest(Accepts(x), m.text, m.coldp, end)
  {
    hide Compiled, Cold, Accepts, Piece, LeftmostLongest, LongestBefore, StateSet.View, StateSet.Valid;
    while true
      invariant m.Valid() && m.coldp <= |m.text|
      invariant NoneStartsBefore(Accepts(x), m.text, m.coldp)
      decreases |m.text| - m.coldp
    {
      var e := m.Walk(m.coldp, |m.text|, false);
      SlowMeansPieces(m.g, x, m.text, m.coldp, e);
      if e.Some? { return e.value; }
      StillAhead(Accepts(x), m.text, m.coldp + 1);
      m.coldp := m.coldp + 1;
    }
  }

  lemma StillAhead(l: Lang, text: Word, n: int)
    requires SomePiece(l, text) && NoneStartsBefore(l, text, n)
    ensures n <= |text|
  {}
}
