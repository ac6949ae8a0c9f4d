/** Languages of words and the operations regular expressions are made of. */
module Language {
  import opened Strip

  type Lang = iset<Word>

  ghost const UNIT: Lang := iset{[]}

  ghost function Chars(cs: set<Byte>): Lang {
    iset w: Word | |w| == 1 && w[0] in cs
  }

  ghost predicate Splits(a: Lang, b: Lang, w: Word) {
    exists k: nat :: k <= |w| && w[..k] in a && w[k..] in b
  }

  ghost function Concat(a: Lang, b: Lang): Lang {
    iset w: Word | Splits(a, b, w)
  }

  ghost function Power(a: Lang, n: nat): Lang {
    if n == 0 then UNIT else Concat(Power(a, n - 1), a)
  }

  ghost predicate SomePower(a: Lang, lo: nat, w: Word) {
    exists n: nat :: n >= lo && w in Power(a, n)
  }

  /** At least lo words of a, one after the other. */
  ghost function AtLeast(a: Lang, lo: nat): Lang {
    iset w: Word | SomePower(a, lo, w)
  }

  lemma InConcat(a: Lang, b: Lang, u: Word, v: Word)
    requires u in a && v in b
    ensures u + v in Concat(a, b)
  {
    var w := u + v;
    assert w[..|u|] == u && w[|u|..] == v;
  }

  lemma SplitConcat(a: Lang, b: Lang, w: Word) returns (k: nat)
    requires w in Concat(a, b)
    ensures k <= |w| && w[..k] in a && w[k..] in b && w[..k] + w[k..] == w
  {
    k :| k <= |w| && w[..k] in a && w[k..] in b;
  }

  lemma UnitConcat(a: Lang)
    ensures Concat(UNIT, a) == a
  {
    forall w: Word | w in a ensures w in Concat(UNIT, a) {
      InConcat(UNIT, a, [], w);
      assert [] + w == w;
    }
    forall w: Word | w in Concat(UNIT, a) ensures w in a {
      var k := SplitConcat(UNIT, a, w);
      assert w == w[k..];
    }
  }

  lemma ConcatUnit(a: Lang)
    ensures Concat(a, UNIT) == a
  {
    forall w: Word | w in a ensures w in Concat(a, UNIT) {
      InConcat(a, UNIT, w, []);
      assert w + [] == w;
    }
    forall w: Word | w in Concat(a, UNIT) ensures w in a {
      var k := SplitConcat(a, UNIT, w);
      assert w == w[..k];
    }
  }

  lemma ConcatMonotone(a: Lang, b: Lang, c: Lang, d: Lang)
    requires a <= c && b <= d
    ensures Concat(a, b) <= Concat(c, d)
  {}

  lemma ConcatAssoc(a: Lang, b: Lang, c: Lang)
    ensures Concat(Concat(a, b), c) == Concat(a, Concat(b, c))
  {
    forall w: Word | w in Concat(Concat(a, b), c) ensures w in Concat(a, Concat(b, c)) {
      var k := SplitConcat(Concat(a, b), c, w);
      var j := SplitConcat(a, b, w[..k]);
      InConcat(b, c, w[..k][j..], w[k..]);
      InConcat(a, Concat(b, c), w[..k][..j], w[..k][j..] + w[k..]);
      assert w == w[..k][..j] + (w[..k][j..] + w[k..]);
    }
    forall w: Word | w in Concat(a, Concat(b, c)) ensures w in Concat(Concat(a, b), c) {
      var k := SplitConcat(a, Concat(b, c), w);
      var j := SplitConcat(b, c, w[k..]);
      InConcat(a, b, w[..k], w[k..][..j]);
      InConcat(Concat(a, b), c, w[..k] + w[k..][..j], w[k..][j..]);
      assert w == w[..k] + w[k..][..j] + w[k..][j..];
    }
  }

  lemma ConcatUnion(a: Lang, b: Lang, c: Lang)
    ensures Concat(a + b, c) == Concat(a, c) + Concat(b, c)
    ensures Concat(c, a + b) == Concat(c, a) + Concat(c, b)
  {}

  /** Adding a word of a to a word of the star stays in it. */
  lemma StarAbsorbs(a: Lang)
    ensures Concat(AtLeast(a, 0), a) == AtLeast(a, 1)
  {
    forall w: Word | w in Concat(AtLeast(a, 0), a) ensures w in AtLeast(a, 1) {
      var k := SplitConcat(AtLeast(a, 0), a, w);
      var n: nat :| n >= 0 && w[..k] in Power(a, n);
      InConcat(Power(a, n), a, w[..k], w[k..]);
      assert w in Power(a, n + 1) && n + 1 >= 1;
    }
    forall w: Word | w in AtLeast(a, 1) ensures w in Concat(AtLeast(a, 0), a) {
      var n: nat :| n >= 1 && w in Power(a, n);
      var k := SplitConcat(Power(a, n - 1), a, w);
      assert w[..k] in AtLeast(a, 0);
      InConcat(AtLeast(a, 0), a, w[..k], w[k..]);
    }
  }

  lemma StarIsMany(a: Lang)
    ensures AtLeast(a, 0) == UNIT + AtLeast(a, 1)
  {
    assert [] in Power(a, 0);
    forall w: Word | w in AtLeast(a, 0) ensures w in UNIT + AtLeast(a, 1) {
      var n: nat :| n >= 0 && w in Power(a, n);
    }
  }
}
