/** The compiled form of a regular expression: a flat strip of operators whose operands are
    relative offsets, and the moves between positions of a strip (src/missing/regex2.h). */
module Strip {

  /** A subject or pattern character, after the conversion to unsigned char. */
  type Byte = c: int | 0 <= c < 256

  type Word = seq<Byte>

  /** A bracket expression: the bitmap of its members, and whether it is complemented. */
  datatype CSet = CSet(bmp: set<Byte>, invert: bool)

  predicate CHIN(cs: CSet, c: Byte) {
    (c in cs.bmp) != cs.invert
  }

  datatype Op =
    | OEnd
    | OChar(ch: Byte)
    | OAny
    | OAnyOf(index: nat)
    | OPlus_(fwd: nat)
    | O_Plus(back: nat)
    | OQuest_(fwd: nat)
    | O_Quest(back: nat)
    | OLParen(sub: nat)
    | ORParen(sub: nat)
    | OCh_(fwd: nat)
    | OOr1(back: nat)
    | OOr2(fwd: nat)
    | O_Ch(back: nat)

  predicate Consumes(sets: seq<CSet>, op: Op, c: Byte) {
    match op
    case OChar(ch) => c == ch
    case OAny => true
    case OAnyOf(k) => k < |sets| && CHIN(sets[k], c)
    case _ => false
  }

  predicate IsConsuming(op: Op) {
    op.OChar? || op.OAny? || op.OAnyOf?
  }

  /** A strip with its set table, entered at lo and finished on reaching the end marker at hi. */
  datatype Prog = Prog(strip: seq<Op>, sets: seq<CSet>, lo: nat, hi: nat) {

    /** What the operator at q needs of its surroundings before a machine may execute it:
        its jumps stay between lo and hi, and branch links form a chain that moves forward. */
    predicate OpOk(q: nat)
      requires lo <= q < hi < |strip|
    {
      match strip[q]
      case OEnd => false
      case OAnyOf(k) => k < |sets|
      case O_Plus(n) => 1 <= n && lo + n <= q
      case OQuest_(n) => 1 <= n && q + n <= hi
      case OCh_(n) => q + n < hi && strip[q + n].OOr2?
      case OOr1(n) => q + 1 < hi && strip[q + 1].OOr2?
      case OOr2(n) => 1 <= n && q + n < hi && (strip[q + n].OOr2? || strip[q + n].O_Ch?)
      case _ => true
    }

    /** Every operator in lo..hi is usable and the strip ends with an end marker at hi. */
    ghost predicate Ok() {
      && 1 <= lo <= hi < |strip|
      && strip[hi] == OEnd
      && forall q: nat :: lo <= q < hi ==> OpOk(q)
    }
  }

  /** The position of the O_CH that ends the chain of branches linked from q. */
  function ChEnd(g: Prog, q: nat): (r: nat)
    requires g.Ok()
    requires g.lo <= q < g.hi && (g.strip[q].OOr2? || g.strip[q].O_Ch?)
    ensures q <= r < g.hi && g.strip[r].O_Ch?
    decreases g.hi - q
  {
    if g.strip[q].O_Ch? then q
    else
      assert g.OpOk(q);
      ChEnd(g, q + g.strip[q].fwd)
  }

  /** The positions reachable from q in one move that consumes nothing. */
  ghost predicate Eps(g: Prog, q: nat, r: nat)
    requires g.Ok()
  {
    g.lo <= q < g.hi &&
    match g.strip[q]
    case OEnd => false
    case OChar(_) => false
    case OAny => false
    case OAnyOf(_) => false
    case O_Plus(n) => r == q + 1 || r == q - n
    case OQuest_(n) => r == q + 1 || r == q + n
    case OCh_(n) => r == q + 1 || r == q + n
    case OOr1(_) => (assert g.OpOk(q); r == ChEnd(g, q + 1) + 1)
    case OOr2(n) =>
      (assert g.OpOk(q);
       r == q + 1 || (!g.strip[q + n].O_Ch? && r == q + n))
    case _ => r == q + 1
  }

  lemma EpsInRange(g: Prog, q: nat, r: nat)
    requires g.Ok()
    requires Eps(g, q, r)
    ensures g.lo <= r <= g.hi
  {
    assert g.OpOk(q);
  }

  /** One move from q to r consuming u: a character passes a consuming operator, nothing passes
      any other. */
  ghost predicate Move(g: Prog, q: nat, u: Word, r: nat)
    requires g.Ok()
  {
    if u == [] then Eps(g, q, r)
    else |u| == 1 && g.lo <= q < g.hi && r == q + 1 && Consumes(g.sets, g.strip[q], u[0])
  }

  /** q is reached from q0 in n moves that together consume w. */
  ghost predicate ReachN(g: Prog, q0: nat, w: Word, q: nat, n: nat)
    requires g.Ok()
    decreases n
  {
    if n == 0 then q == q0 && w == []
    else exists m: nat, k: nat :: k <= |w| && ReachN(g, q0, w[..k], m, n - 1) && Move(g, m, w[k..], q)
  }

  ghost predicate Reach(g: Prog, q0: nat, w: Word, q: nat)
    requires g.Ok()
  {
    exists n: nat :: ReachN(g, q0, w, q, n)
  }

  lemma ReachRefl(g: Prog, q: nat)
    requires g.Ok()
    ensures Reach(g, q, [], q)
  {
    assert ReachN(g, q, [], q, 0);
  }

  lemma ReachMove(g: Prog, q0: nat, w: Word, m: nat, u: Word, q: nat)
    requires g.Ok()
    requires Reach(g, q0, w, m) && Move(g, m, u, q)
    ensures Reach(g, q0, w + u, q)
  {
    hide Move, Eps;
    var n: nat :| ReachN(g, q0, w, m, n);
    var v := w + u;
    assert v[..|w|] == w && v[|w|..] == u;
    assert ReachN(g, q0, v, q, n + 1);
  }

  /** Runs compose: the words they consume are concatenated. */
  lemma ReachTrans(g: Prog, q0: nat, v: Word, m: nat, w: Word, q: nat)
    requires g.Ok()
    requires Reach(g, q0, v, m) && Reach(g, m, w, q)
    ensures Reach(g, q0, v + w, q)
  {
    hide ReachN;
    var n: nat :| ReachN(g, m, w, q, n);
    ReachTransN(g, q0, v, m, w, q, n);
  }

  lemma {:induction false} ReachTransN(g: Prog, q0: nat, v: Word, m: nat, w: Word, q: nat, n: nat)
    requires g.Ok()
    requires Reach(g, q0, v, m) && ReachN(g, m, w, q, n)
    ensures Reach(g, q0, v + w, q)
    decreases n
  {
    hide Move, Reach, Eps;
    if n == 0 {
      assert v + w == v;
    } else {
      var p: nat, k: nat :| k <= |w| && ReachN(g, m, w[..k], p, n - 1) && Move(g, p, w[k..], q);
      ReachTransN(g, q0, v, m, w[..k], p, n - 1);
      ReachMove(g, q0, v + w[..k], p, w[k..], q);
      assert v + w[..k] + w[k..] == v + w;
    }
  }
}
