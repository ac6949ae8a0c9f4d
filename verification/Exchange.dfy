/** Two neighbouring blocks of an array change places, in place (src/missing/getopt_long.c). */
module Exchange {

  ghost predicate IsCombination(g: int, a: int, b: int) {
    exists x: int, y: int {:trigger x * a, y * b} :: g == x * a + y * b
  }

  /** The greatest common divisor, as a divisor of both that is a combination of both. */
  method Gcd(a0: nat, b0: nat) returns (b: nat)
    requires a0 > 0 && b0 > 0
    ensures b > 0 && a0 % b == 0 && b0 % b == 0 && IsCombination(b, a0, b0)
  {
    var a := a0;
    b := b0;
    var c := a % b;
    ghost var x, y, u, v := 1, 0, 0, 1;
    while c != 0
      invariant a > 0 && b > 0 && c == a % b
      invariant a == x * a0 + y * b0 && b == u * a0 + v * b0
      invariant forall d: nat :: d > 0 && a % d == 0 && b % d == 0 ==> a0 % d == 0 && b0 % d == 0
      decreases c
    {
      ghost var q := a / b;
      Remainder(a, b);
      CombineSteps(q, a, b, x, y, u, v, a0, b0);
      x, y, u, v := u, v, x - q * u, y - q * v;
      a := b;
      b := c;
      c := a % b;
    }
    Unique(b, b, 1, 0);
  }

  lemma CombineSteps(q: int, a: int, b: int, x: int, y: int, u: int, v: int, m: int, n: int)
    requires a == x * m + y * n && b == u * m + v * n
    ensures a - q * b == (x - q * u) * m + (y - q * v) * n
  {
    assert q * b == q * (u * m) + q * (v * n);
    assert q * (u * m) == (q * u) * m && q * (v * n) == (q * v) * n;
  }

  /** Whatever divides a divisor and a remainder divides the dividend. */
  lemma Remainder(a: nat, b: nat)
    requires b > 0
    ensures a % b == a - (a / b) * b
    ensures forall d: nat :: d > 0 && b % d == 0 && (a % b) % d == 0 ==> a % d == 0
  {
    forall d: nat | d > 0 && b % d == 0 && (a % b) % d == 0 ensures a % d == 0 {
      var i, j := b / d, (a % b) / d;
      Sum(a / b, d, i, 1, j);
      Unique(a, d, (a / b) * i + 1 * j, 0);
    }
  }

  /** A combination of multiples of d is a multiple of d. */
  lemma Sum(x: int, d: int, i: int, y: int, j: int)
    ensures x * (d * i) + y * (d * j) == d * (x * i + y * j)
  {
    assert x * (d * i) == d * (x * i);
    assert y * (d * j) == d * (y * j);
  }

  /** A divisor that is a combination is the greatest one. */
  lemma GcdIsGreatest(g: nat, a: nat, b: nat, d: nat)
    requires g > 0 && IsCombination(g, a, b)
    requires d > 0 && a % d == 0 && b % d == 0
    ensures g % d == 0 && d <= g
  {
    var x: int, y: int :| g == x * a + y * b;
    var z := x * (a / d) + y * (b / d);
    assert g == d * z by {
      assert a == d * (a / d) && b == d * (b / d);
      Sum(x, d, a / d, y, b / d);
    }
    Unique(g, d, z, 0);
    Positive(d, z);
  }

  lemma Positive(d: nat, z: int)
    requires d * z > 0
    ensures z >= 1 && d * z >= d
  {
    Scaled(d, z);
  }

  /** Division with remainder has one answer. */
  lemma Unique(m: int, n: nat, q: int, r: int)
    requires n > 0 && m == n * q + r && 0 <= r < n
    ensures m % n == r && m / n == q
  {
    var z := q - m / n;
    assert m == n * (m / n) + m % n;
    assert n * z == n * q - n * (m / n);
    Scaled(n, z);
  }

  lemma Scaled(n: int, z: int)
    requires n >= 0
    ensures z >= 1 ==> n * z >= n
    ensures z <= -1 ==> n * z <= -n
    ensures z <= 0 ==> n * z <= 0
  {
    if z >= 1 {
      assert n * z == n + n * (z - 1);
    } else if z <= -1 {
      assert n * -z == n + n * (-z - 1);
    }
  }

  // ---------- the cycles ----------

  /** The k-th position of the cycle through c when everything moves up by b among n places. */
  function Place(n: nat, b: nat, c: nat, k: nat): (p: nat)
    requires n > 0
    ensures p < n
  {
    (c + k * b) % n
  }

  lemma PlaceNext(n: nat, b: nat, c: nat, k: nat)
    requires 0 < b < n && c < n
    ensures Place(n, b, c, 0) == c
    ensures Place(n, b, c, k + 1) ==
            if Place(n, b, c, k) >= n - b then Place(n, b, c, k) - (n - b) else Place(n, b, c, k) + b
  {
    assert 0 * b == 0;
    Unique(c, n, 0, c);
    var m := c + k * b;
    assert m == n * (m / n) + m % n;
    assert c + (k + 1) * b == m + b;
    if m % n >= n - b {
      Unique(m + b, n, m / n + 1, m % n - (n - b));
    } else {
      Unique(m + b, n, m / n, m % n + b);
    }
  }

  /** The sizes of the blocks and of the cycles: g cycles of the length w. */
  ghost predicate Cycles(n: nat, b: nat, g: nat, w: nat) {
    && 0 < b < n && 0 < g && 0 < w && n == w * g && b % g == 0
    && IsCombination(g, n, b)
  }

  lemma CyclesOf(a: nat, b: nat, g: nat)
    requires a > 0 && b > 0 && g > 0 && a % g == 0 && b % g == 0 && IsCombination(g, a, b)
    ensures Cycles(a + b, b, g, (a + b) / g) && g <= b
  {
    CombinationOf(a, b, g);
    hide IsCombination;
    Divided(a, g);
    Divided(b, g);
    CycleCount(a, b, g, a / g, b / g);
  }

  lemma Divided(a: nat, g: nat)
    requires g > 0 && a % g == 0
    ensures a == g * (a / g)
  {}

  /** The number of the cycles' elements, from the numbers of the blocks'. */
  lemma CycleCount(a: nat, b: nat, g: nat, i: nat, j: nat)
    requires a > 0 && b > 0 && g > 0 && a == g * i && b == g * j
    ensures (a + b) / g == i + j && i + j > 0 && a + b == (i + j) * g && g <= b
  {
    var w := i + j;
    assert g * w == g * i + g * j;
    Unique(a + b, g, w, 0);
    Positive(g, w);
    Positive(g, j);
  }

  lemma CombinationOf(a: nat, b: nat, g: nat)
    requires IsCombination(g, a, b)
    ensures IsCombination(g, a + b, b)
  {
    var x: int, y: int :| g == x * a + y * b;
    Swap(x, y, a, b);
    Combined(g, a + b, b, x, y - x);
  }

  lemma Combined(g: int, a: int, b: int, x: int, y: int)
    requires g == x * a + y * b
    ensures IsCombination(g, a, b)
  {}

  lemma Swap(x: int, y: int, a: int, b: int)
    ensures x * a + y * b == x * (a + b) + (y - x) * b
  {}

  /** Adding a multiple of n keeps the remainder. */
  lemma Shift(m: int, n: nat, t: int)
    requires n > 0
    ensures (m + n * t) % n == m % n
  {
    assert n * (m / n + t) == n * (m / n) + n * t;
    Unique(m + n * t, n, m / n + t, m % n);
  }

  /** A cycle stays among the positions with the same remainder. */
  lemma PlaceClass(n: nat, b: nat, g: nat, w: nat, c: nat, k: nat)
    requires Cycles(n, b, g, w) && c < n
    ensures Place(n, b, c, k) % g == c % g
  {
    hide IsCombination;
    SameClass(Place(n, b, c, k), c, k, b, g, b / g, w, n, (c + k * b) / n);
  }

  lemma SameClass(p: int, c: int, k: int, b: int, g: nat, j: int, w: int, n: int, t: int)
    requires b == g * j && n == w * g && p == c + k * b - n * t && g > 0
    ensures p % g == c % g
  {
    assert k * (g * j) == g * (k * j);
    assert (w * g) * t == g * (w * t);
    assert g * (k * j - w * t) == g * (k * j) - g * (w * t);
    Shift(c, g, k * j - w * t);
  }

  /** A cycle passes every position with its remainder. */
  lemma PlaceMeets(n: nat, b: nat, g: nat, w: nat, c: nat, p: nat) returns (k: nat)
    requires Cycles(n, b, g, w) && c < n && p < n && p % g == c % g
    ensures k < w && Place(n, b, c, k) == p
  {
    var x: int, y: int :| g == x * n + y * b;
    var t := p / g - c / g;
    var j := b / g;
    k := (t * y) % w;
    var s := (t * y) / w;
    Congruent(p, c, g);
    assert b == g * j;
    Meeting(n, b, g, w, c, p, x, y, t, j, k, s);
    Unique(c + k * b, n, -(t * x + s * j), p);
  }

  lemma Congruent(p: nat, c: nat, g: nat)
    requires g > 0 && p % g == c % g
    ensures p - c == g * (p / g - c / g)
  {
    assert g * (p / g - c / g) == g * (p / g) - g * (c / g);
  }

  lemma Meeting(n: int, b: int, g: int, w: int, c: int, p: int, x: int, y: int, t: int, j: int, k: int, s: int)
    requires n == w * g && b == g * j && g == x * n + y * b && p - c == g * t && t * y == w * s + k
    ensures c + k * b == n * (-(t * x + s * j)) + p
  {
    var z := t * y;
    calc {
      g * t;
      t * (x * n + y * b);
      t * (x * n) + t * (y * b);
      { assert t * (x * n) == n * (t * x); assert t * (y * b) == z * b; }
      n * (t * x) + z * b;
      { assert z * b == (w * s) * b + k * b; }
      n * (t * x) + (w * s) * b + k * b;
      { Regroup(w, s, g, j); }
      n * (t * x) + n * (s * j) + k * b;
    }
    assert n * (-(t * x + s * j)) == -(n * (t * x)) - n * (s * j);
  }

  lemma Regroup(w: int, s: int, g: int, j: int)
    ensures (w * s) * (g * j) == (w * g) * (s * j)
  {
    calc {
      (w * s) * (g * j);
      w * (s * (g * j));
      { assert s * (g * j) == g * (s * j); }
      w * (g * (s * j));
      (w * g) * (s * j);
    }
  }

  /** A cycle returns to its start after w steps. */
  lemma PlaceReturns(n: nat, b: nat, g: nat, w: nat, c: nat)
    requires Cycles(n, b, g, w) && c < n
    ensures Place(n, b, c, w) == c
  {
    var j := b / g;
    assert w * b == n * j by { assert b == g * j; assert w * (g * j) == (w * g) * j; }
    Unique(c + w * b, n, j, c);
  }

  /** A cycle does not pass a position twice before that. */
  lemma PlaceDistinct(n: nat, b: nat, g: nat, w: nat, c: nat, k: nat, m: nat)
    requires Cycles(n, b, g, w) && c < n && k < m < k + w
    ensures Place(n, b, c, k) != Place(n, b, c, m)
  {
    if Place(n, b, c, k) == Place(n, b, c, m) {
      var x: int, y: int :| g == x * n + y * b;
      var d := m - k;
      var z := (c + m * b) / n - (c + k * b) / n;
      SamePlace(n, b, c, k, m);
      // n divides d * g, which is smaller
      TooSmall(n, b, g, w, x, y, d, z);
    }
  }

  lemma SamePlace(n: nat, b: nat, c: nat, k: nat, m: nat)
    requires n > 0 && (c + k * b) % n == (c + m * b) % n
    ensures (m - k) * b == n * ((c + m * b) / n - (c + k * b) / n)
  {
    assert (m - k) * b == m * b - k * b;
    assert n * ((c + m * b) / n - (c + k * b) / n) == n * ((c + m * b) / n) - n * ((c + k * b) / n);
  }

  lemma TooSmall(n: nat, b: nat, g: nat, w: nat, x: int, y: int, d: nat, z: int)
    requires n == w * g && g == x * n + y * b && 0 < d < w && g > 0
    ensures d * b != n * z
  {
    Between(d, w, g);
    if d * b == n * z {
      Multiple(n, b, g, x, y, d, z);
      Positive(n, d * x + y * z);
    }
  }

  lemma Between(d: nat, w: nat, g: nat)
    requires 0 < d < w && g > 0
    ensures 0 < d * g < w * g
  {
    Scaled(g, d);
    Scaled(g, w - d);
    assert g * (w - d) == g * w - g * d;
  }

  lemma Multiple(n: int, b: int, g: int, x: int, y: int, d: int, z: int)
    requires g == x * n + y * b && d * b == n * z
    ensures d * g == n * (d * x + y * z)
  {
    calc {
      d * g;
      d * (x * n + y * b);
      { Spread(d, x * n, y * b); }
      d * (x * n) + d * (y * b);
      { Reorder(d, x, n); Reorder(d, y, b); }
      n * (d * x) + y * (d * b);
      n * (d * x) + y * (n * z);
      { Reorder(y, n, z); }
      n * (d * x) + n * (y * z);
      { Spread(n, d * x, y * z); }
      n * (d * x + y * z);
    }
  }

  lemma Spread(a: int, b: int, c: int)
    ensures a * (b + c) == a * b + a * c
  {}

  lemma Reorder(a: int, b: int, c: int)
    ensures a * (b * c) == c * (a * b) && a * (b * c) == b * (a * c)
  {}

  // ---------- the exchange ----------

  /** The last b elements in front of the others. */
  function Rotated<T>(s: seq<T>, b: nat): (r: seq<T>)
    requires b <= |s|
    ensures |r| == |s|
  {
    s[|s| - b..] + s[..|s| - b]
  }

  /** After j swaps along the cycle through c: the places passed are final, the first place holds
      what the next one is to get, and nothing else changed. */
  ghost predicate Progress<T>(now: seq<T>, was: seq<T>, s: seq<T>, b: nat, c: nat, j: nat, w: nat) {
    && |now| == |was| == |s| && 0 < b < |s| && c < |s|
    && (forall k: nat :: 1 <= k <= j && k < w ==> now[Place(|s|, b, c, k)] == Rotated(s, b)[Place(|s|, b, c, k)])
    && now[c] == (if j < w then s[Place(|s|, b, c, j)] else Rotated(s, b)[c])
    && (forall k: nat :: j < k < w ==> now[Place(|s|, b, c, k)] == s[Place(|s|, b, c, k)])
    && (forall q: nat :: q < |s| && (forall k: nat :: k < w ==> Place(|s|, b, c, k) != q) ==> now[q] == was[q])
  }

  lemma Begin<T>(was: seq<T>, s: seq<T>, b: nat, g: nat, w: nat, c: nat)
    requires |was| == |s| && Cycles(|s|, b, g, w) && c < |s|
    requires forall p: nat :: p < |s| && p % g == c % g ==> was[p] == s[p]
    ensures Progress(was, was, s, b, c, 0, w)
  {
    PlaceReturns(|s|, b, g, w, c);
    PlaceNext(|s|, b, c, 0);
    forall k: nat | k < w ensures was[Place(|s|, b, c, k)] == s[Place(|s|, b, c, k)] {
      PlaceClass(|s|, b, g, w, c, k);
    }
  }

  lemma CycleSizes(n: nat, b: nat, g: nat, w: nat)
    requires Cycles(n, b, g, w)
    ensures 0 < b < n && 0 < w && 0 < g
  {
    hide IsCombination;
  }

  lemma Swapped<T>(before: seq<T>, now: seq<T>, was: seq<T>, s: seq<T>, b: nat, g: nat, w: nat, c: nat, j: nat)
    requires Progress(before, was, s, b, c, j, w) && Cycles(|s|, b, g, w) && j < w
    requires now == before[Place(|s|, b, c, j + 1) := before[c]][c := before[Place(|s|, b, c, j + 1)]]
    ensures Progress(now, was, s, b, c, j + 1, w)
  {
    hide Cycles, Place;
    var n := |s|;
    var next := Place(n, b, c, j + 1);
    CycleSizes(n, b, g, w);
    PlaceNext(n, b, c, j);
    assert Rotated(s, b)[next] == s[Place(n, b, c, j)];
    PlaceReturns(n, b, g, w, c);
    PlaceNext(n, b, c, 0);
    forall k: nat | k < w && k != j + 1 ensures Place(n, b, c, k) != next || (k == 0 && j + 1 == w) {
      if k < j + 1 {
        if 0 < k { PlaceDistinct(n, b, g, w, c, k, j + 1); }
        if k == 0 && j + 1 < w { PlaceDistinct(n, b, g, w, c, 0, j + 1); }
      } else {
        PlaceDistinct(n, b, g, w, c, j + 1, k);
      }
    }
    forall k: nat | 0 < k < w ensures Place(n, b, c, k) != c {
      PlaceDistinct(n, b, g, w, c, 0, k);
    }
  }

  lemma AllDone<T>(now: seq<T>, was: seq<T>, s: seq<T>, b: nat, g: nat, w: nat, c: nat)
    requires Progress(now, was, s, b, c, w, w) && Cycles(|s|, b, g, w)
    ensures forall p: nat :: p < |s| ==> now[p] == if p % g == c % g then Rotated(s, b)[p] else was[p]
  {
    var n := |s|;
    PlaceReturns(n, b, g, w, c);
    PlaceNext(n, b, c, 0);
    forall p: nat | p < n ensures now[p] == if p % g == c % g then Rotated(s, b)[p] else was[p] {
      if p % g == c % g {
        var k := PlaceMeets(n, b, g, w, c, p);
      } else {
        forall k: nat | k < w ensures Place(n, b, c, k) != p { PlaceClass(n, b, g, w, c, k); }
      }
    }
  }

  lemma Offset(a: nat, g: nat, i: nat)
    requires i < g && a % g == 0
    ensures (a + i) % g == i
  {
    assert a == g * (a / g);
    Unique(a + i, g, a / g, i);
  }

  /** The block lo..mid changes places with the block mid..hi. */
  function Exchanged<T>(s: seq<T>, lo: nat, mid: nat, hi: nat): (r: seq<T>)
    requires lo <= mid <= hi <= |s|
    ensures |r| == |s|
  {
    s[..lo] + s[mid..hi] + s[lo..mid] + s[hi..]
  }

  lemma RotatedIsExchanged<T>(was: seq<T>, now: seq<T>, lo: nat, mid: nat, hi: nat)
    requires lo <= mid <= hi <= |was| == |now|
    requires now[..lo] == was[..lo] && now[hi..] == was[hi..] && now[lo..hi] == Rotated(was[lo..hi], hi - mid)
    ensures now == Exchanged(was, lo, mid, hi)
  {
    assert now == now[..lo] + now[lo..hi] + now[hi..];
    assert was[lo..hi][mid - lo..] == was[mid..hi];
    assert was[lo..hi][..mid - lo] == was[lo..mid];
  }

  /** permute_args */
  method PermuteArgs<T>(lo: nat, mid: nat, hi: nat, nargv: array<T>)
    requires lo < mid < hi <= nargv.Length
    modifies nargv
    ensures nargv[..] == Exchanged(old(nargv[..]), lo, mid, hi)
  {
    var nnonopts := mid - lo;
    var nopts := hi - mid;
    var ncycle := Gcd(nnonopts, nopts);
    var cyclelen := (hi - lo) / ncycle;
    CyclesOf(nnonopts, nopts, ncycle);
    ghost var was := nargv[..];
    ghost var s := nargv[lo..hi];
    for i := 0 to ncycle
      invariant forall p: nat :: p < |s| ==> nargv[lo..hi][p] == if p % ncycle < i then Rotated(s, nopts)[p] else s[p]
      invariant nargv[..lo] == was[..lo] && nargv[hi..] == was[hi..]
    {
      Cycle(lo, mid, hi, nargv, ncycle, cyclelen, i, s);
    }
    assert nargv[lo..hi] == Rotated(s, nopts);
    RotatedIsExchanged(was, nargv[..], lo, mid, hi);
  }

  method SwapElements<T>(nargv: array<T>, pos: nat, cstart: nat)
    requires pos < nargv.Length && cstart < nargv.Length
    modifies nargv
    ensures nargv[..] == old(nargv[..])[pos := old(nargv[cstart])][cstart := old(nargv[pos])]
  {
    var swap := nargv[pos];
    nargv[pos] := nargv[cstart];
    nargv[cstart] := swap;
  }

  /** Nothing but the elements from lo to hi has changed. */
  ghost predicate SameAround<T>(now: seq<T>, was: seq<T>, lo: nat, hi: nat) {
    lo <= hi <= |was| == |now| && now[..lo] == was[..lo] && now[hi..] == was[hi..]
  }

  lemma SameAtFirst<T>(s: seq<T>, lo: nat, hi: nat)
    requires lo <= hi <= |s|
    ensures SameAround(s, s, lo, hi)
  {}

  lemma SameThen<T>(a: seq<T>, b: seq<T>, c: seq<T>, lo: nat, hi: nat)
    requires SameAround(a, b, lo, hi) && SameAround(b, c, lo, hi)
    ensures SameAround(a, c, lo, hi)
  {}

  lemma SwapInside<T>(was: seq<T>, now: seq<T>, lo: nat, hi: nat, i: nat, j: nat)
    requires lo <= i < hi <= |was| && lo <= j < hi && now == was[i := was[j]][j := was[i]]
    ensures SameAround(now, was, lo, hi)
    ensures now[lo..hi] == was[lo..hi][i - lo := was[lo..hi][j - lo]][j - lo := was[lo..hi][i - lo]]
  {}

  /** One cycle: the inner loop of permute_args. */
  method Cycle<T>(lo: nat, mid: nat, hi: nat, nargv: array<T>, ghost ncycle: nat, cyclelen: nat, i: nat,
                  ghost s: seq<T>)
    requires lo < mid < hi <= nargv.Length && |s| == hi - lo
    requires Cycles(hi - lo, hi - mid, ncycle, cyclelen) && i < ncycle <= hi - mid && (mid - lo) % ncycle == 0
    requires forall p: nat :: p < |s| && p % ncycle == i ==> nargv[lo..hi][p] == s[p]
    modifies nargv
    ensures forall p: nat :: p < |s| ==>
              nargv[lo..hi][p] == if p % ncycle == i then Rotated(s, hi - mid)[p] else old(nargv[lo..hi])[p]
    ensures SameAround(nargv[..], old(nargv[..]), lo, hi)
  {
    hide Cycles, Progress, Place, Rotated, SameAround;
    SameAtFirst(nargv[..], lo, hi);
    ghost var b, was := hi - mid, nargv[..];
    var cstart := mid + i;
    var pos := cstart;
    ghost var c: nat := cstart - lo;
    Offset(mid - lo, ncycle, i);
    PlaceNext(|s|, b, c, 0);
    Begin(was[lo..hi], s, b, ncycle, cyclelen, c);
    for j := 0 to cyclelen
      invariant lo <= pos < hi && pos - lo == Place(|s|, b, c, j)
      invariant SameAround(nargv[..], was, lo, hi)
      invariant Progress(nargv[lo..hi], was[lo..hi], s, b, c, j, cyclelen)
    {
      ghost var all := nargv[..];
      pos := CycleStep(lo, mid, hi, nargv, cstart, pos, j, was[lo..hi], s, ncycle, cyclelen);
      SameThen(nargv[..], all, was, lo, hi);
    }
    AllDone(nargv[lo..hi], was[lo..hi], s, b, ncycle, cyclelen, c);
  }

  /** The next position of a cycle gets its element. */
  method CycleStep<T>(lo: nat, mid: nat, hi: nat, nargv: array<T>, cstart: nat, last: nat, ghost j: nat,
                      ghost was: seq<T>, ghost s: seq<T>, ghost ncycle: nat, ghost cyclelen: nat) returns (pos: nat)
    requires lo < mid < hi <= nargv.Length && |s| == hi - lo && lo <= cstart < hi && lo <= last < hi
    requires Cycles(hi - lo, hi - mid, ncycle, cyclelen) && j < cyclelen
    requires last - lo == Place(|s|, hi - mid, cstart - lo, j)
    requires Progress(nargv[lo..hi], was, s, hi - mid, cstart - lo, j, cyclelen)
    modifies nargv
    ensures lo <= pos < hi && pos - lo == Place(|s|, hi - mid, cstart - lo, j + 1)
    ensures SameAround(nargv[..], old(nargv[..]), lo, hi)
    ensures Progress(nargv[lo..hi], was, s, hi - mid, cstart - lo, j + 1, cyclelen)
  {
    hide Cycles, Progress, Place, SameAround;
    ghost var all, before := nargv[..], nargv[lo..hi];
    PlaceNext(|s|, hi - mid, cstart - lo, j);
    pos := last;
    if pos >= mid {
      pos := pos - (mid - lo);
    } else {
      pos := pos + (hi - mid);
    }
    SwapElements(nargv, pos, cstart);
    SwapInside(all, nargv[..], lo, hi, pos, cstart);
    Swapped(before, nargv[lo..hi], was, s, hi - mid, ncycle, cyclelen, cstart - lo, j);
  }
}
