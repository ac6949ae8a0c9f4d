/** regcomp and regexec: a pattern is read, compiled and analysed once, and then finds the leftmost
    longest match of any subject (src/missing/regcomp.c, src/missing/regexec.c). */
module Regex {
  import opened Wrappers
  import opened Strip
  import opened Language
  import opened Node
  import opened Runs
  import opened Syntax
  import opened Must
  import MustSound
  import BoyerMoore
  import Compile
  import Grammar
  import Faults
  import opened Matching

  datatype Compiling = Ready(guts: Guts) | Rejected(error: Error)

  /** The outermost level stops only at the end of the pattern. */
  lemma {:induction false} OuterReadsAll(t: Word, p: nat)
    requires p <= |t|
    ensures match ParseRe(t, p, false) case Ok(_, q) => q == |t| case Err(_) => true
    decreases |t| - p
  {
    OuterBranch(t, p, Empty);
    match ParseBranch(t, p, false, Empty)
    case Err(_) =>
    case Ok(e, q) => if See(t, q, '|' as int) { OuterReadsAll(t, q + 1); }
  }

  lemma {:induction false} OuterBranch(t: Word, p: nat, sofar: Ere)
    requires p <= |t|
    ensures match ParseBranch(t, p, false, sofar) case Ok(_, q) => q == |t| || t[q] == '|' as int case Err(_) => true
    decreases |t| - p
  {
    if !Syntax.BranchEnds(t, p, false) {
      match ParsePiece(t, p)
      case Err(_) =>
      case Ok(e, q) => OuterBranch(t, q, if sofar == Empty then e else Seq(sofar, e));
    }
  }

  /** The strip that p_re leaves between its two end markers is one the machine can run. */
  lemma StripIsCompiled(strip: seq<Op>, sets: seq<CSet>, x: Node)
    requires strip == [OEnd] + Code(x) + [OEnd] && Compile.Usable(x, sets)
    ensures Runs.Compiled(Prog(strip, sets, 1, |strip| - 1), x)
  {
    hide At, Valid, IsChain;
    assert Holds(strip, 1, Code(x)) by {
      forall k | 0 <= k < Len(x) ensures strip[1 + k] == Code(x)[k] {}
    }
    CodeIsAt(strip, 1, x);
  }

  /** The literal and its tables fit the program. */
  method Analyse(prog: Prog, newline: bool, nosub: bool, ghost x: Node) returns (g: Guts)
    requires prog.Ok() && Runs.Compiled(prog, x)
    ensures Fitting(g, x) && g.prog == prog && g.newline == newline && g.nosub == nosub
  {
    hide Runs.Compiled, Accepts;
    var bad, lit := FindMust(prog);
    MustSound.MustIsMandatory(prog, x);
    ghost var s := ScanFrom(prog, prog.lo, FIRST).scan;
    g := Guts(prog, lit, None, None, newline, nosub, 0, 0);
    if lit.Literal? && |lit.must| > 3 {
      var charjump := BoyerMoore.ComputeJumps(lit.must);
      var matchjump := BoyerMoore.ComputeMatchJumps(lit.must);
      g := g.(charjump := Some(charjump[..]), matchjump := Some(matchjump[..]));
    }
  }

  /** What a compiled pattern is for: it belongs to code that accepts exactly these words. */
  ghost predicate Implements(g: Guts, l: Lang) {
    exists x: Node :: Fitting(g, x) && Accepts(x) == l
  }

  lemma ImplementsWords(g: Guts, x: Node)
    requires Fitting(g, x)
    ensures Implements(g, Accepts(x))
  {}

  /** regcomp */
  method Regcomp(pattern: Word, newline: bool, nosub: bool) returns (r: Compiling)
    requires forall i :: 0 <= i < |pattern| ==> pattern[i] < 128
    ensures r.Rejected? ==> ParseRe(pattern, 0, false) == Err(r.error)
    ensures forall x :: r == Rejected(x) <==> Faults.PatternFault(pattern, x)
    ensures r.Ready? ==>
      exists e :: ParseRe(pattern, 0, false) == Ok(e, |pattern|) && Implements(r.guts, Denotes(e, newline))
    ensures r.Ready? ==> r.guts.nosub == nosub
  {
    hide Runs.Compiled, Accepts, Denotes, Fitting, ParseRe, Code, Compile.Usable, Implements, Faults.ReFault;
    forall x { Faults.ReRefused(pattern, 0, false, x); }
    var outcome, prog, x := Translate(pattern, newline);
    if outcome.Some? { return Rejected(outcome.value); }
    CompiledOk(prog, x);
    var g := Analyse(prog, newline, nosub, x);
    ImplementsWords(g, x);
    r := Ready(g);
  }

  /** What has been read when there is no error is the whole pattern, and the strip is its code. */
  lemma Translated(pattern: Word, strip: seq<Op>, sets: seq<CSet>, x: Node, e: Ere, q: nat, newline: bool)
    requires ParseRe(pattern, 0, false) == Ok(e, q) && Compile.GoodFor(x, e, sets, newline)
    requires strip == [OEnd] + Code(x) + [OEnd]
    ensures Runs.Compiled(Prog(strip, sets, 1, |strip| - 1), x)
    ensures ParseRe(pattern, 0, false) == Ok(e, |pattern|) && Accepts(x) == Denotes(e, newline)
  {
    hide Runs.Compiled, Accepts, Denotes, ParseRe, Code, Compile.Usable;
    OuterReadsAll(pattern, 0);
    StripIsCompiled(strip, sets, x);
  }

  /** The part of regcomp that writes the strip. */
  method Translate(pattern: Word, newline: bool) returns (outcome: Option<Error>, prog: Prog, ghost x: Node)
    ensures outcome.Some? ==> ParseRe(pattern, 0, false) == Err(outcome.value)
    ensures outcome.None? ==> Runs.Compiled(prog, x)
    ensures outcome.None? ==>
      exists e :: ParseRe(pattern, 0, false) == Ok(e, |pattern|) && Accepts(x) == Denotes(e, newline)
  {
    hide Runs.Compiled, Accepts, Denotes, ParseRe, Code, Compile.Usable, Compile.GoodFor;
    prog := Prog([], [], 0, 0);
    var p := new Compile.Parser(pattern, newline);
    assert pattern == p.buf[..p.end];
    p.DoEmit(OEnd);
    assert p.strip == [OEnd];
    x := p.PRe(false, pattern);
    if p.error.Some? { return Some(p.error.value), prog, x; }
    ghost var e := ParseRe(pattern, 0, false).value;
    p.DoEmit(OEnd);
    Translated(pattern, p.strip, p.sets, x, e, p.next, newline);
    return None, Prog(p.strip, p.sets, 1, |p.strip| - 1), x;
  }

  /** regexec, on a subject without multibyte characters: strips of at most 64 operators run on
      bitmasks unless large asks for arrays. */
  method Regexec(g: Guts, text: Word, nmatch: nat, notbol: bool, noteol: bool, large: bool, ghost l: Lang)
    returns (matched: bool, so: int, eo: int)
    requires Implements(g, l) && nmatch <= 1
    ensures matched <==> SomePiece(l, text)
    ensures matched && nmatch == 1 && !g.nosub ==> LeftmostLongest(l, text, so, eo)
  {
    hide Runs.Compiled, Accepts, Fitting;
    var small := |g.prog.strip| <= 64 && !large;
    ghost var x: Node :| Fitting(g, x) && Accepts(x) == l;
    matched, so, eo := Matcher(g, text, nmatch, notbol, noteol, small, x);
  }

  /** Compile a pattern and search a subject: what the two together promise to a caller, in terms of
      the grammar and the meaning of patterns alone. */
  method CompileAndSearch(pattern: Word, newline: bool, nosub: bool, text: Word, nmatch: nat, notbol: bool,
                          noteol: bool, large: bool)
    returns (outcome: Option<Error>, matched: bool, so: int, eo: int)
    requires forall i :: 0 <= i < |pattern| ==> pattern[i] < 128
    requires nmatch <= 1
    ensures outcome == None <==> exists e :: Grammar.SpellsRe(pattern, 0, |pattern|, e)
    ensures forall x :: outcome == Some(x) <==> Faults.PatternFault(pattern, x)
    ensures forall e :: Grammar.SpellsRe(pattern, 0, |pattern|, e) ==>
              && (matched <==> SomePiece(Denotes(e, newline), text))
              && (matched && nmatch == 1 && !nosub ==> LeftmostLongest(Denotes(e, newline), text, so, eo))
  {
    hide Implements, Denotes, ParseRe, Grammar.SpellsRe, LeftmostLongest, SomePiece, Faults.PatternFault;
    forall e ensures Grammar.SpellsRe(pattern, 0, |pattern|, e) <==> ParseRe(pattern, 0, false) == Ok(e, |pattern|) {
      Grammar.ReaderIsGrammar(pattern, e);
    }
    var r := Regcomp(pattern, newline, nosub);
    matched, so, eo := false, -1, -1;
    match r
    case Rejected(error) => outcome := Some(error);
    case Ready(g) =>
      outcome := None;
      ghost var e :| ParseRe(pattern, 0, false) == Ok(e, |pattern|) && Implements(g, Denotes(e, newline));
      assert Grammar.SpellsRe(pattern, 0, |pattern|, e);
      matched, so, eo := Regexec(g, text, nmatch, notbol, noteol, large, Denotes(e, newline));
  }
}
