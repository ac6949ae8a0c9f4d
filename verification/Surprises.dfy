/** Inputs at which a scan does something one might not expect (src/softmagic.c). */
module Surprises {
  import opened Wrappers
  import opened Entries
  import opened Magic
  import opened Siblings
  import Levels
  import SoftMagic

  /** What the tests of the file below look for: strings of five and of seven bytes, or any quad. The
      source does not ask whether all eight bytes of a quad lie inside the file. */
  const SHORT: nat := 0
  const LONG: nat := 1
  const QUAD: nat := 2

  /** How much of the file a match takes up. */
  function Width(e: Entry): int {
    if !e.kind.Plain? then 0 else if e.test == QUAD then 8 else if e.test == LONG then 7 else 5
  }

  /** A file of 20 bytes, in which the short string is everywhere and the long one is not at the
      beginning. A quad at offset 16 matches, and its end, 24, lies outside. */
  ghost function File(): World {
    World(
      20,
      (e: Entry, c: Context) => true,
      (e: Entry, c: Context, off: int, up: int) => At(off),
      (e: Entry, c: Context, off: int) => true,
      (e: Entry, c: Context, off: int) => if e.test == LONG && c.start == 0 then Miss else Hit,
      (e: Entry, c: Context, off: int) =>
        if off + Width(e) > 20 - c.start then None else Some(off + Width(e)),
      (e: Entry, c: Context, off: int) => e.desc,
      (name: string) => None,
      [[Simple(0, LONG, "m")]],
      1, 2, false, false)
  }

  const WHOLE := Context(0, 0, false, BinTest, 0)
  const FRESH := State("", false, false, true, false, false, [], 0, 0, [], [])

  function Simple(level: nat, test: nat, desc: string): Entry {
    Entry(level, Plain, test, false, if test == QUAD then 16 else 0, false, desc, false)
  }

  lemma {:induction false} SimpleLevels()
    ensures forall level: nat, test: nat, desc: string {:trigger Simple(level, test, desc)} ::
            Simple(level, test, desc).level == level
  {}

  /** A plain test that holds. */
  lemma {:induction false} TestHolds(e: Entry, c: Context, off: int, up: int, s: State)
    requires (e.kind.Plain? || e.kind.Default?) && s.indirs < 2 && c.depth < 1 && !(e.test == LONG && c.start == 0)
    ensures Try(File(), c, e, off, up, s) == Met(s.(offset := off), false, Nothing)
    ensures File().endOf(e, c, off) == if off + Width(e) > 20 - c.start then None else Some(off + Width(e))
  {
    EndIs(e, c, off);
  }

  lemma {:induction false} EndIs(e: Entry, c: Context, off: int)
    ensures File().endOf(e, c, off) == if off + Width(e) > 20 - c.start then None else Some(off + Width(e))
  {}

  /** A top-level entry without dependents. */
  lemma {:induction false} AloneParses(es: seq<Entry>, i: nat)
    requires i < |es| && (i + 1 < |es| ==> es[i + 1].level == 0)
    ensures Parse(es, 1, i + 1) == ([], i + 1) && Forest(es, i) == [Tree(i, [])] + Forest(es, i + 1)
  {}

  /** A top-level entry with two dependents. */
  lemma {:induction false} FamilyParses(es: seq<Entry>)
    requires |es| == 3 && es[0].level == 0 && es[1].level == 1 && es[2].level == 1
    ensures Forest(es, 0) == [Tree(0, [Tree(1, []), Tree(2, [])])]
  {
    var none: seq<Tree> := [];
    assert [Tree(2, none)] + none == [Tree(2, none)]
           && [Tree(1, none)] + [Tree(2, none)] == [Tree(1, none), Tree(2, none)];
    assert Parse(es, 2, 2) == (none, 2) && Parse(es, 2, 3) == (none, 3) && Parse(es, 1, 3) == (none, 3);
    assert Parse(es, 1, 2) == ([Tree(2, none)], 3);
    assert Parse(es, 1, 1) == ([Tree(1, none), Tree(2, none)], 3);
    assert Forest(es, 3) == none;
  }

  /** The family of a top-level match, one member after the other. */
  lemma {:induction false} FamilyGoes(w: World, c: Context, es: seq<Entry>, s: State, t: State, u: State)
    requires |es| == 3 && 1 < |s.li| && One(w, c, es, 1, 1, s) == Stay(t) && 1 < |t.li|
    requires One(w, c, es, 2, 1, t) == Down(u) && 2 < |u.li|
    ensures Kids(w, c, es, [Tree(1, []), Tree(2, [])], 1, s) == Went(u)
  {
    hide One;
    var kids := [Tree(1, []), Tree(2, [])];
    assert kids[1..] == [Tree(2, [])] && kids[1..][1..] == [];
    SoftMagic.NoKids(w, c, es, 2, u);
    SoftMagic.NoKids(w, c, es, 1, u);
    assert Kids(w, c, es, kids[1..], 1, t) == Went(u);
  }

  /** The match of a top-level entry that says "t" and ends at 5. */
  lemma {:induction false} FirstMatches(es: seq<Entry>)
    requires |es| > 0 && es[0] == Simple(0, SHORT, "t")
    ensures var r := Head(File(), WHOLE, es, 0, Descend(FRESH, 0));
      && r.Down? && 1 < |r.s.li| && r.s.li[0].off == 5 && !r.s.li[1].gotMatch && r.s.indirs == 0
      && r.s.out == "t" && r.s.printed && r.s.needSep
  {
    hide Try;
    TestHolds(es[0], WHOLE, 0, 0, Descend(FRESH, 0));
  }

  /** A match that ends outside the file is printed but forgotten: the default beside it is printed
      as well. */
  lemma {:induction false} BadEndForgets(es: seq<Entry>)
    requires es == [Simple(0, SHORT, "t"), Simple(1, QUAD, "a"), Simple(1, SHORT, "b").(kind := Default)]
    ensures Scan(File(), WHOLE, es, FRESH).Went? && Scan(File(), WHOLE, es, FRESH).s.out == "t a b"
  {
    hide *;
    assert Simple(1, SHORT, "b").(kind := Default).level == Simple(1, SHORT, "b").level;
    SimpleLevels();
    FamilyParses(es);
    FirstMatches(es);
    var s1 := Head(File(), WHOLE, es, 0, Descend(FRESH, 0)).s;
    MatchOutside(es, s1);
    var s2 := One(File(), WHOLE, es, 1, 1, s1).s;
    DefaultMatches(es, s2);
    FamilyGoes(File(), WHOLE, es, s1, s2, One(File(), WHOLE, es, 2, 1, s2).s);
    GroupPrints(es, s1);
  }

  /** A dependent that says "a". */
  lemma {:induction false} MatchOutside(es: seq<Entry>, s: State)
    requires |es| == 3 && es[1] == Simple(1, QUAD, "a")
    requires 1 < |s.li| && s.indirs == 0 && s.printed && s.needSep
    ensures var r := One(File(), WHOLE, es, 1, 1, s);
      r.Stay? && 1 < |r.s.li| && !r.s.li[1].gotMatch && r.s.indirs == 0 && r.s.out == s.out + " " + "a" && r.s.printed
          && r.s.needSep
  {
    hide Try;
    TestHolds(es[1], WHOLE, 16, s.li[0].off, s);
  }

  /** A default that says "b". */
  lemma {:induction false} DefaultMatches(es: seq<Entry>, s: State)
    requires |es| == 3 && es[2] == Simple(1, SHORT, "b").(kind := Default)
    requires 1 < |s.li| && !s.li[1].gotMatch && s.indirs == 0 && s.printed && s.needSep
    ensures var r := One(File(), WHOLE, es, 2, 1, s); r.Down? && 2 < |r.s.li| && r.s.out == s.out + " " + "b"
  {
    hide Try;
    TestHolds(es[2], WHOLE, 0, s.li[0].off, s);
  }

  /** What a list with one group prints. */
  lemma {:induction false} GroupPrints(es: seq<Entry>, s: State)
    requires Forest(es, 0) == [Tree(0, [Tree(1, []), Tree(2, [])])] && |es| == 3
    requires Head(File(), WHOLE, es, 0, Descend(FRESH, 0)) == Down(s) && 1 < |s.li|
    requires Kids(File(), WHOLE, es, [Tree(1, []), Tree(2, [])], 1, s).Went?
    ensures Scan(File(), WHOLE, es, FRESH).Went?
    ensures Scan(File(), WHOLE, es, FRESH).s.out == Kids(File(), WHOLE, es, [Tree(1, []), Tree(2, [])], 1, s).s.out
  {
    hide Forest, Kids, Head, File;
    var ts := Forest(es, 0);
    assert ts[1..] == [];
    var u := Kids(File(), WHOLE, es, ts[0].kids, 1, s).s;
    assert Tops(File(), WHOLE, es, [], EndGroup(u)) == Went(EndGroup(u));
  }

  /** A top-level match that ends outside the file is printed but does not end the scan: the next one
      is printed right behind it. */
  lemma {:induction false} BadEndGoesOn(es: seq<Entry>)
    requires es == [Simple(0, QUAD, "a"), Simple(0, SHORT, "b")]
    ensures Scan(File(), WHOLE, es, FRESH).Went? && Scan(File(), WHOLE, es, FRESH).s.out == "a" + "b"
  {
    hide *;
    SimpleLevels();
    PairParses(es);
    FirstOutside(es);
    var s := Head(File(), WHOLE, es, 0, Descend(FRESH, 0)).s;
    SecondMatches(es, s);
    PairPrints(es, s, Head(File(), WHOLE, es, 1, s).s);
  }

  lemma {:induction false} PairParses(es: seq<Entry>)
    requires |es| == 2 && es[0].level == 0 && es[1].level == 0
    ensures Forest(es, 0) == [Tree(0, []), Tree(1, [])]
  {
    AloneParses(es, 0);
    AloneParses(es, 1);
    assert Forest(es, 2) == [];
  }

  lemma {:induction false} FirstOutside(es: seq<Entry>)
    requires |es| == 2 && es[0] == Simple(0, QUAD, "a")
    ensures var r := Head(File(), WHOLE, es, 0, Descend(FRESH, 0));
      r.Stay? && 0 < |r.s.li| && r.s.indirs == 0 && r.s.firstLine && r.s.out == "a"
  {
    hide Try;
    TestHolds(es[0], WHOLE, 16, 0, Descend(FRESH, 0));
  }

  lemma {:induction false} SecondMatches(es: seq<Entry>, s: State)
    requires |es| == 2 && es[1] == Simple(0, SHORT, "b") && 0 < |s.li| && s.indirs == 0 && s.firstLine
    ensures var r := Head(File(), WHOLE, es, 1, s); r.Down? && 1 < |r.s.li| && r.s.out == s.out + "b" && r.s.found
  {
    hide Try;
    TestHolds(es[1], WHOLE, 0, 0, s);
  }

  /** What a list of two entries prints when the first does not end the scan. */
  lemma {:induction false} PairPrints(es: seq<Entry>, s: State, t: State)
    requires |es| == 2 && Forest(es, 0) == [Tree(0, []), Tree(1, [])]
    requires Head(File(), WHOLE, es, 0, Descend(FRESH, 0)) == Stay(s) && 0 < |s.li|
    requires Head(File(), WHOLE, es, 1, s) == Down(t) && 1 < |t.li| && t.found
    ensures Scan(File(), WHOLE, es, FRESH) == Went(StopHere(t)) && StopHere(t).out == t.out
  {
    hide Forest, Head;
    SoftMagic.NoKids(File(), WHOLE, es, 1, t);
    var ts := Forest(es, 0);
    assert ts[1..] == [Tree(1, [])] && ts[1..][1..] == [];
    assert Tops(File(), WHOLE, es, ts[1..], s) == Went(StopHere(t));
  }

  /** The scan that the indirect entry of the next lemma starts. */
  lemma {:induction false} InnerScan(c: Context, s: State)
    requires c == Within(WHOLE, 1) && s.indirs == 1 && 1 < |s.li|
    ensures Lists(File(), c, File().main, s).AllWent?
    ensures var t := Lists(File(), c, File().main, s).s; t.ret && t.li[0].off == 7 && |t.li| >= |s.li| && t.offset == 0
  {
    var es := [Simple(0, LONG, "m")];
    AloneParses(es, 0);
    assert File().main == [es] && Forest(es, 1) == [];
    hide Parse, Forest, Try, Kids;
    assert Forest(es, 0) == [Tree(0, [])];
    var s0 := Descend(s.(ret := false, found := false, log := []), 0);
    TestHolds(es[0], c, 0, 0, s0);
    var s1 := Head(File(), c, es, 0, s0).s;
    SoftMagic.NoKids(File(), c, es, 1, s1);
    assert Scan(File(), c, es, s.(ret := false, found := false, log := [])) == Went(StopHere(s1));
  }

  /** The entry that starts it. */
  lemma {:induction false} IndirectTried(e: Entry, s: State)
    requires e == Simple(1, SHORT, "").(kind := Indirect(false), offset := 1)
    requires s.indirs == 0 && 1 < |s.li|
    ensures var r := Try(File(), WHOLE, e, 1, s.li[0].off, s);
      r.Met? && |r.s.li| >= |s.li| && r.s.li[0].off == 7 && r.s.offset == 0
  {
    hide Lists, Adopt;
    var u := s.(offset := 1);
    InnerScan(Within(WHOLE, 1), EnterPart(u));
    var v := Lists(File(), Within(WHOLE, 1), File().main, EnterPart(u)).s;
    var t := Adopt(File(), LeavePart(u, v), File().text(e, WHOLE, 1), v.out);
    AdoptKeeps(File(), LeavePart(u, v), File().text(e, WHOLE, 1), v.out);
    var r := GetIndirect(File(), WHOLE, e, false, u);
    assert r.Value? && r.s == t && r.value;
  }

  lemma {:induction false} AdoptKeeps(w: World, s: State, text: string, out: string)
    ensures Adopt(w, s, text, out).li == s.li && Adopt(w, s, text, out).offset == s.offset
  {}

  lemma {:induction false} IndirectTurn(es: seq<Entry>, s: State)
    requires |es| == 3 && es[1] == Simple(1, SHORT, "").(kind := Indirect(false), offset := 1) && s.indirs == 0
             && 1 < |s.li|
    ensures var r := Branch(File(), WHOLE, es, Tree(1, []), 1, s); r.Went? && 1 < |r.s.li| && r.s.li[0].off == 7
  {
    hide Try, Continue, Kids;
    IndirectTried(es[1], s);
    var t := Try(File(), WHOLE, es[1], 1, s.li[0].off, s).s;
    Levels.ContinueKeeps(File(), WHOLE, es[1], SetGot(t, 1, true));
    EndIs(es[1], WHOLE, 0);
    SoftMagic.NoKids(File(), WHOLE, es, 2, One(File(), WHOLE, es, 1, 1, s).s);
  }

  /** A scan that an indirect entry starts moves the end that the next relative sibling counts from:
      the match of their parent ends at 5, but the sibling is tested at 7. */
  lemma {:induction false} IndirectMovesEnd(es: seq<Entry>)
    requires es == [Simple(0, SHORT, "t"), Simple(1, SHORT, "").(kind := Indirect(false), offset := 1),
             Simple(1, SHORT, "b").(relative := true)]
    ensures Forest(es, 0) == [Tree(0, [Tree(1, []), Tree(2, [])])]
    ensures var r := Head(File(), WHOLE, es, 0, Descend(FRESH, 0));
      && r.Down? && File().endOf(es[0], WHOLE, 0) == Some(5) && r.s.li[0].off == 5
      && match Turn(File(), WHOLE, es, [Tree(1, []), Tree(2, [])], 1, r.s, 1)
         case None => false
         case Some(t) => Place(es[2], t.li[0].off) == 7
  {
    hide Parse, Forest, Branch, Head, Turn, One, Try, Kids, Scan, Tops;
    FamilyParses(es);
    FirstMatches(es);
    TestHolds(es[0], WHOLE, 0, 0, Descend(FRESH, 0));
    var s := Head(File(), WHOLE, es, 0, Descend(FRESH, 0)).s;
    IndirectTurn(es, s);
    FirstTurn(File(), WHOLE, es, [Tree(1, []), Tree(2, [])], 1, s);
  }

  lemma {:induction false} FirstTurn(w: World, c: Context, es: seq<Entry>, ts: seq<Tree>, level: nat, s: State)
    requires Fits(es, ts) && 0 < level < |s.li| && ts != [] && Branch(w, c, es, ts[0], level, s).Went?
    ensures Turn(w, c, es, ts, level, s, 1) == Some(Branch(w, c, es, ts[0], level, s).s)
  {
    hide Branch;
    assert Turn(w, c, es, ts, level, s, 0) == Some(s);
  }
}
