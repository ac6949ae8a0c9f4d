/** The search for the mandatory literal: its jump tables (src/missing/regcomp.c) and the scan that
    uses them (src/missing/engine.c). */
module BoyerMoore {
  import opened Strip

  predicate OccursAt(must: Word, text: Word, i: int) {
    0 <= i && i + |must| <= |text| && forall k :: 0 <= k < |must| ==> text[i + k] == must[k]
  }

  /** must does not start anywhere before position n. */
  ghost predicate AbsentBefore(must: Word, text: Word, n: int) {
    forall i :: 0 <= i < n ==> !OccursAt(must, text, i)
  }

  // ---------- the character table ----------

  /** How far the last occurrence of c is from the last place of must; its length if there is none. */
  ghost predicate IsCharJump(must: Word, c: Byte, jump: nat) {
    && jump <= |must|
    && (forall k :: |must| - jump <= k < |must| ==> must[k] != c)
    && (jump < |must| ==> must[|must| - 1 - jump] == c)
  }

  method ComputeJumps(must: Word) returns (charjump: array<nat>)
    ensures fresh(charjump) && charjump.Length == 256
    ensures forall c: Byte :: IsCharJump(must, c, charjump[c])
  {
    charjump := new nat[256];
    for ch := 0 to 256
      invariant forall c :: 0 <= c < ch ==> charjump[c] == |must|
    {
      charjump[ch] := |must|;
    }
    for mindex := 0 to |must|
      invariant forall c: Byte :: charjump[c] <= |must|
      invariant forall c: Byte, k :: |must| - charjump[c] <= k < mindex ==> must[k] != c
      invariant forall c: Byte :: charjump[c] < |must| ==>
                  |must| - 1 - charjump[c] < mindex && must[|must| - 1 - charjump[c]] == c
    {
      charjump[must[mindex]] := |must| - mindex - 1;
    }
  }

  // ---------- the match table ----------

  /** What follows place s of must also follows place k. */
  ghost predicate Follows(must: Word, k: int, s: int) {
    -1 <= k < s < |must| && forall i :: s < i < |must| ==> must[i] == must[i - (s - k)]
  }

  /** Having matched must behind place j and failed at j, moving must by t places is not ruled out
      by must itself. */
  ghost predicate Feasible(must: Word, j: int, t: int) {
    && 0 <= j < |must| && 1 <= t <= |must|
    && (forall k :: j < k < |must| && t <= k ==> must[k - t] == must[k])
    && (t <= j ==> must[j - t] != must[j])
  }

  /** The least feasible move, counted from the place of the failure. */
  ghost predicate IsMatchJump(must: Word, j: nat, jump: nat) {
    && Feasible(must, j, jump - (|must| - 1 - j))
    && forall t :: Feasible(must, j, t) ==> jump <= t + |must| - 1 - j
  }

  /** s is the first place after k that k follows, or the length if there is none. */
  ghost predicate IsNext(must: Word, k: int, s: int) {
    && -1 <= k < s <= |must|
    && (s < |must| ==> Follows(must, k, s))
    && forall i :: k < i < s ==> !Follows(must, k, i)
  }

  /** The places k follows after s are the places s follows. */
  lemma FollowsChain(must: Word, k: int, s: int, r: int)
    requires Follows(must, k, s) && s < r
    ensures Follows(must, k, r) <==> Follows(must, s, r)
  {
    if Follows(must, k, r) {
      forall i | r < i < |must| ensures must[i] == must[i - (r - s)] {
        assert must[i - (r - s)] == must[i - (r - s) - (s - k)];
        assert must[i] == must[i - (r - k)];
      }
    }
    if Follows(must, s, r) {
      forall i | r < i < |must| ensures must[i] == must[i - (r - k)] {
        assert must[i] == must[i - (r - s)];
        assert must[i - (r - s)] == must[i - (r - s) - (s - k)];
      }
    }
  }

  /** After the step from s to its own next place nothing in between has been passed over. */
  lemma NextInChain(must: Word, k: int, s: int, r: int)
    requires Follows(must, k, s) && IsNext(must, s, r)
    ensures r < |must| ==> Follows(must, k, r)
    ensures forall i :: s < i < r ==> !Follows(must, k, i)
  {
    forall i | s < i <= r && i < |must| ensures Follows(must, k, i) <==> Follows(must, s, i) {
      FollowsChain(must, k, s, i);
    }
  }

  /** Equal characters extend a repetition to the left, and only they do. */
  lemma FollowsLeft(must: Word, k: int, s: int)
    requires 0 <= k < s < |must|
    ensures Follows(must, k - 1, s - 1) <==> Follows(must, k, s) && must[k] == must[s]
  {
    if Follows(must, k - 1, s - 1) {
      assert must[s - (s - k)] == must[s];
    }
  }

  /** The table entries so far are feasible. */
  ghost predicate AllFeasible(must: Word, jumps: seq<int>) {
    |jumps| == |must| && forall j :: 0 <= j < |must| ==> Feasible(must, j, jumps[j] - (|must| - 1 - j))
  }

  /** The entries take every failure with a repetition that starts after place k into account. */
  ghost predicate InnerSafe(must: Word, jumps: seq<int>, k: int) {
    |jumps| == |must| &&
    forall i, s :: k < i && 0 <= i && Follows(must, i, s) && must[i] != must[s] ==> jumps[s] <= |must| - 1 - i
  }

  /** The entries before place n take every prefix of must that is also its end into account. */
  ghost predicate PrefixSafe(must: Word, jumps: seq<int>, n: int) {
    |jumps| == |must| &&
    forall j, s :: 0 <= j < n && j <= s && j < |must| && Follows(must, -1, s) ==> jumps[j] <= |must| + s - j
  }

  lemma InnerFeasible(must: Word, k: int, s: int)
    requires 0 <= k && Follows(must, k, s) && must[k] != must[s]
    ensures Feasible(must, s, s - k)
  {
    forall i | s < i < |must| && s - k <= i ensures must[i - (s - k)] == must[i] {}
  }

  lemma PrefixFeasible(must: Word, j: int, s: int)
    requires 0 <= j <= s && Follows(must, -1, s)
    ensures Feasible(must, j, s + 1)
  {
    forall k | j < k < |must| && s + 1 <= k ensures must[k - (s + 1)] == must[k] {
      assert k - (s - (-1)) == k - (s + 1);
    }
  }

  /** Both kinds of safety together leave no feasible move out. */
  lemma SafeIsLeast(must: Word, jumps: seq<int>, j: nat)
    requires j < |must| && AllFeasible(must, jumps)
    requires InnerSafe(must, jumps, -1) && PrefixSafe(must, jumps, |must|)
    requires forall i :: 0 <= i < |must| ==> jumps[i] <= 2 * |must| - i - 1
    ensures jumps[j] >= 0 && IsMatchJump(must, j, jumps[j])
  {
    forall t | Feasible(must, j, t) ensures jumps[j] <= t + |must| - 1 - j {
      if t <= j {
        assert Follows(must, j - t, j) by {
          forall i | j < i < |must| ensures must[i - (j - (j - t))] == must[i] {
            assert must[i - t] == must[i];
          }
        }
      } else if t < |must| {
        assert Follows(must, -1, t - 1) by {
          forall i | t - 1 < i < |must| ensures must[i - ((t - 1) - (-1))] == must[i] {
            assert must[i - t] == must[i];
          }
        }
      }
    }
  }

  /** Lower entry s of the table to v if it is larger. */
  ghost predicate Lowered(a: seq<int>, b: seq<int>, s: int, v: int) {
    |a| == |b| && 0 <= s < |a| && b == a[s := if a[s] < v then a[s] else v]
  }

  lemma LowerKeeps(must: Word, a: seq<int>, b: seq<int>, s: int, v: int, k: int, n: int)
    requires Lowered(a, b, s, v)
    ensures AllFeasible(must, a) && Feasible(must, s, v - (|must| - 1 - s)) ==> AllFeasible(must, b)
    ensures InnerSafe(must, a, k) ==> InnerSafe(must, b, k)
    ensures PrefixSafe(must, a, n) ==> PrefixSafe(must, b, n)
  {}

  /** The entry that place k, followed by s, accounts for. */
  ghost predicate Accounted(must: Word, jumps: seq<int>, k: int, s: int) {
    |jumps| == |must| && 0 <= k && (0 <= s < |must| && Follows(must, k, s) && must[k] != must[s] ==>
        jumps[s] <= |must| - 1 - k)
  }

  /** When the chain of k stops at s, what lies behind s was accounted for by s itself. */
  lemma ChainStops(must: Word, jumps: seq<int>, k: int, s: int)
    requires 0 <= k && InnerSafe(must, jumps, k) && k < s <= |must|
    requires s < |must| ==> Follows(must, k, s) && must[k] == must[s]
    requires forall i :: k < i < s ==> Accounted(must, jumps, k, i)
    ensures InnerSafe(must, jumps, k - 1)
  {
    forall i, r | k - 1 < i && 0 <= i && Follows(must, i, r) && must[i] != must[r]
      ensures jumps[r] <= |must| - 1 - i
    {
      if i == k {
        if r < s {
          assert Accounted(must, jumps, k, r);
        } else if r > s {
          FollowsChain(must, k, s, r);
        }
      }
    }
  }

  /** The next place, one character further left. */
  lemma NextLeft(must: Word, k: int, s: int)
    requires 0 <= k < s <= |must|
    requires s < |must| ==> Follows(must, k, s) && must[k] == must[s]
    requires forall i :: k < i < s && Follows(must, k, i) ==> must[k] != must[i]
    ensures IsNext(must, k - 1, s - 1)
  {
    if s < |must| { FollowsLeft(must, k, s); }
    var left := k - 1;
    forall i | left < i < s - 1 ensures !Follows(must, left, i) {
      FollowsLeft(must, k, i + 1);
    }
  }

  /** computematchjumps: the suffix pass along the chain of repetitions, then the prefix passes. */
  method ComputeMatchJumps(must: Word) returns (matchjump: array<int>)
    requires |must| > 0
    ensures fresh(matchjump) && matchjump.Length == |must|
    ensures forall j: nat :: j < |must| ==> matchjump[j] >= 0 && IsMatchJump(must, j, matchjump[j])
  {
    var mlen := |must|;
    var pmatches := new int[mlen];
    matchjump := new int[mlen];
    for mindex := 0 to mlen
      invariant forall i :: 0 <= i < mindex ==> matchjump[i] == 2 * mlen - i - 1
    {
      matchjump[mindex] := 2 * mlen - mindex - 1;
    }
    var suffix := SuffixPass(must, pmatches, matchjump);
    PrefixPass(must, pmatches, matchjump, suffix);
    hide AllFeasible, Capped;
    forall j: nat | j < mlen ensures matchjump[j] >= 0 && IsMatchJump(must, j, matchjump[j]) {
      SafeIsLeast(must, matchjump[..], j);
    }
  }

  ghost predicate Capped(must: Word, jumps: seq<int>) {
    |jumps| == |must| && forall i :: 0 <= i < |must| ==> jumps[i] <= 2 * |must| - i - 1
  }

  ghost predicate Sound(must: Word, jumps: seq<int>) {
    AllFeasible(must, jumps) && Capped(must, jumps)
  }

  ghost predicate Linked(must: Word, pm: seq<int>, n: int) {
    |pm| == |must| && forall i :: 0 <= i && n <= i < |must| ==> IsNext(must, i, pm[i])
  }

  ghost predicate ChainDone(must: Word, jumps: seq<int>, k: int, s: int) {
    && 0 <= k
    && (forall i :: k < i < s ==> Accounted(must, jumps, k, i))
    && (forall i :: k < i < s && Follows(must, k, i) ==> must[k] != must[i])
  }

  lemma AccountedStep(must: Word, a: seq<int>, b: seq<int>, k: int, s: int, r: int)
    requires 0 <= k && ChainDone(must, a, k, s) && Lowered(a, b, s, |must| - k - 1)
    requires |a| == |must| && forall i :: s < i < r ==> !Follows(must, k, i)
    ensures forall i :: k < i < r ==> Accounted(must, b, k, i)
  {
    hide Follows;
    forall i | k < i < r ensures Accounted(must, b, k, i) {
      if i < s { assert Accounted(must, a, k, i); }
    }
  }

  /** One step along the chain of k, past a place s where the characters differ. */
  lemma ChainStep(must: Word, a: seq<int>, b: seq<int>, k: int, s: int, r: int)
    requires 0 <= k && Follows(must, k, s) && must[k] != must[s]
    requires Sound(must, a) && InnerSafe(must, a, k) && ChainDone(must, a, k, s)
    requires Lowered(a, b, s, |must| - k - 1) && IsNext(must, s, r)
    ensures Sound(must, b) && InnerSafe(must, b, k) && ChainDone(must, b, k, r)
    ensures r < |must| ==> Follows(must, k, r)
  {
    hide AllFeasible, InnerSafe, Accounted, Feasible;
    InnerFeasible(must, k, s);
    LowerKeeps(must, a, b, s, |must| - k - 1, k, 0);
    NextInChain(must, k, s, r);
    AccountedStep(must, a, b, k, s, r);
  }

  /** Every entry is as large as can be. */
  lemma FirstJumps(must: Word, jumps: seq<int>)
    requires |jumps| == |must| && forall i :: 0 <= i < |must| ==> jumps[i] == 2 * |must| - i - 1
    ensures Sound(must, jumps) && InnerSafe(must, jumps, |must| - 1)
  {}

  lemma NoneLinked(must: Word, pm: seq<int>)
    requires |pm| == |must|
    ensures Linked(must, pm, |must|)
  {}

  lemma OneLinked(must: Word, was: seq<int>, pm: seq<int>, n: int, next: int)
    requires Linked(must, was, n + 1) && 0 <= n < |must| && pm == was[n := next] && IsNext(must, n, next)
    ensures Linked(must, pm, n)
  {
    hide IsNext;
  }

  lemma LastNext(must: Word)
    requires |must| > 0
    ensures IsNext(must, |must| - 1, |must|)
  {}

  /** Fill pmatches with the chain of repetitions and account for every failure inside one. */
  method SuffixPass(must: Word, pmatches: array<int>, matchjump: array<int>) returns (suffix: int)
    requires pmatches != matchjump && pmatches.Length == matchjump.Length == |must| > 0
    requires forall i :: 0 <= i < |must| ==> matchjump[i] == 2 * |must| - i - 1
    modifies pmatches, matchjump
    ensures Sound(must, matchjump[..]) && InnerSafe(must, matchjump[..], -1)
    ensures Linked(must, pmatches[..], 0)
    ensures IsNext(must, -1, suffix) && suffix < |must|
  {
    hide Sound, InnerSafe, Follows, IsNext, Linked;
    var mlen := |must|;
    suffix := mlen;
    var mindex := mlen;
    FirstJumps(must, matchjump[..]);
    NoneLinked(must, pmatches[..]);
    while mindex > 0
      invariant 0 <= mindex <= mlen
      invariant if mindex == mlen then suffix == mlen else IsNext(must, mindex - 1, suffix) && suffix < mlen
      invariant Linked(must, pmatches[..], mindex)
      invariant Sound(must, matchjump[..]) && InnerSafe(must, matchjump[..], mindex - 1)
    {
      ghost var links := pmatches[..];
      mindex := mindex - 1;
      if suffix == mlen { LastNext(must); }
      pmatches[mindex] := suffix;
      OneLinked(must, links, pmatches[..], mindex, suffix);
      suffix := FollowChain(must, pmatches, matchjump, mindex, suffix);
      NextLeft(must, mindex, suffix);
      suffix := suffix - 1;
    }
  }

  /** The inner loop of the suffix pass. */
  method FollowChain(must: Word, pmatches: array<int>, matchjump: array<int>, mindex: int, start: int)
      returns (suffix: int)
    requires pmatches != matchjump && pmatches.Length == matchjump.Length == |must| && 0 <= mindex < |must|
    requires IsNext(must, mindex, start) && Linked(must, pmatches[..], mindex)
    requires Sound(must, matchjump[..]) && InnerSafe(must, matchjump[..], mindex)
    modifies matchjump
    ensures mindex < suffix <= |must|
    ensures suffix < |must| ==> Follows(must, mindex, suffix) && must[mindex] == must[suffix]
    ensures forall i :: mindex < i < suffix && Follows(must, mindex, i) ==> must[mindex] != must[i]
    ensures Sound(must, matchjump[..]) && InnerSafe(must, matchjump[..], mindex - 1)
  {
    hide Sound, InnerSafe, Accounted, Follows;
    var mlen := |must|;
    suffix := start;
    assert ChainDone(must, matchjump[..], mindex, suffix) by { ChainStart(must, matchjump[..], mindex, suffix); }
    while suffix < mlen && must[mindex] != must[suffix]
      invariant mindex < suffix <= mlen
      invariant suffix < mlen ==> Follows(must, mindex, suffix)
      invariant Sound(must, matchjump[..]) && InnerSafe(must, matchjump[..], mindex)
      invariant ChainDone(must, matchjump[..], mindex, suffix)
      decreases mlen - suffix
    {
      ghost var before := matchjump[..];
      assert IsNext(must, suffix, pmatches[..][suffix]);
      matchjump[suffix] := if matchjump[suffix] < mlen - mindex - 1 then matchjump[suffix] else mlen - mindex - 1;
      ChainStep(must, before, matchjump[..], mindex, suffix, pmatches[suffix]);
      suffix := pmatches[suffix];
    }
    ChainStops(must, matchjump[..], mindex, suffix);
  }

  lemma ChainStart(must: Word, jumps: seq<int>, k: int, s: int)
    requires 0 <= k && IsNext(must, k, s) && |jumps| == |must|
    ensures ChainDone(must, jumps, k, s)
  {}

  /** Place b ends the longest prefix of must looked at that is also its end, e the next shorter
      one, and the entries before n are accounted for, as are those up to b. */
  ghost predicate PrefixState(must: Word, jumps: seq<int>, b: int, e: int, n: int) {
    && -1 <= b < e <= |must| && 0 <= n && b <= n
    && (e < |must| ==> Follows(must, -1, e))
    && (forall i :: b < i < e ==> !Follows(must, -1, i))
    && PrefixSafe(must, jumps, if n <= b then b + 1 else n)
  }

  /** Lowering entry n for the prefix that ends at e extends the accounted entries. */
  lemma PrefixStep(must: Word, x: seq<int>, y: seq<int>, b: int, e: int, n: int)
    requires Sound(must, x) && InnerSafe(must, x, -1)
    requires PrefixState(must, x, b, e, n) && n <= e && n < |must|
    requires Lowered(x, y, n, |must| + e - n)
    ensures Sound(must, y) && InnerSafe(must, y, -1)
    ensures PrefixState(must, y, b, e, n + 1)
  {
    hide Sound, AllFeasible, Feasible, Follows, InnerSafe, PrefixSafe;
    StepFeasible(must, x, y, e, n);
    LowerKeeps(must, x, y, n, |must| + e - n, -1, if n <= b then b + 1 else n);
    StepSafe(must, y, b, e, n);
    SoundParts(must, x, y, n, |must| + e - n);
  }

  /** The lower entry is that of a feasible move, or the entry stays. */
  lemma StepFeasible(must: Word, x: seq<int>, y: seq<int>, e: int, n: int)
    requires Sound(must, x) && Lowered(x, y, n, |must| + e - n) && 0 <= n <= e <= |must| && n < |must|
    requires e < |must| ==> Follows(must, -1, e)
    ensures y == x || Feasible(must, n, e + 1)
  {
    hide Feasible, Follows;
    if e < |must| { PrefixFeasible(must, n, e); }
  }

  lemma SoundParts(must: Word, x: seq<int>, y: seq<int>, n: int, v: int)
    requires Sound(must, x) && Lowered(x, y, n, v)
    ensures AllFeasible(must, x) && (AllFeasible(must, y) ==> Sound(must, y))
  {
    hide AllFeasible;
  }

  /** One more entry is accounted for. */
  lemma StepSafe(must: Word, y: seq<int>, b: int, e: int, n: int)
    requires PrefixSafe(must, y, if n <= b then b + 1 else n) && -1 <= b < e && b <= n <= e && n < |must|
    requires 0 <= n && y[n] <= |must| + e - n && forall i :: b < i < e ==> !Follows(must, -1, i)
    ensures PrefixSafe(must, y, if n + 1 <= b then b + 1 else n + 1)
  {
    hide Follows;
  }

  /** On to the next shorter prefix. */
  lemma PrefixNext(must: Word, jumps: seq<int>, b: int, e: int, f: int)
    requires PrefixState(must, jumps, b, e, e + 1) && e < |must| && IsNext(must, e, f)
    ensures PrefixState(must, jumps, e, f, e + 1)
  {
    NextInChain(must, -1, e, f);
  }

  /** The inner loop of the prefix pass: up to the end of this repetition. */
  method Lower(must: Word, matchjump: array<int>, ghost b: int, ssuffix: int, start: int) returns (suffix: int)
    requires matchjump.Length == |must| > 0 && 0 <= start <= |must| && b <= start && b < ssuffix
             && (start < |must| ==> start <= ssuffix)
    requires Sound(must, matchjump[..]) && InnerSafe(must, matchjump[..], -1)
    requires PrefixState(must, matchjump[..], b, ssuffix, start)
    modifies matchjump
    ensures start <= suffix <= |must| && !(suffix <= ssuffix && suffix < |must|)
            && (suffix < |must| ==> suffix == ssuffix + 1)
    ensures Sound(must, matchjump[..]) && InnerSafe(must, matchjump[..], -1)
    ensures PrefixState(must, matchjump[..], b, ssuffix, suffix)
  {
    hide Sound, InnerSafe, Follows, PrefixState;
    var mlen := |must|;
    suffix := start;
    while suffix <= ssuffix && suffix < mlen
      invariant start <= suffix <= mlen && (start < mlen ==> suffix <= ssuffix + 1)
      invariant Sound(must, matchjump[..]) && InnerSafe(must, matchjump[..], -1)
      invariant PrefixState(must, matchjump[..], b, ssuffix, suffix)
    {
      ghost var before := matchjump[..];
      var jump := mlen + ssuffix - suffix;
      matchjump[suffix] := if matchjump[suffix] < jump then matchjump[suffix] else jump;
      PrefixStep(must, before, matchjump[..], b, ssuffix, suffix);
      suffix := suffix + 1;
    }
  }

  /** Account for the prefixes of must that are also its end, the longest first. */
  method PrefixPass(must: Word, pmatches: array<int>, matchjump: array<int>, start: int)
    requires pmatches != matchjump && pmatches.Length == matchjump.Length == |must| > 0
    requires Sound(must, matchjump[..]) && InnerSafe(must, matchjump[..], -1)
    requires Linked(must, pmatches[..], 0)
    requires IsNext(must, -1, start) && start < |must|
    modifies matchjump
    ensures Sound(must, matchjump[..]) && InnerSafe(must, matchjump[..], -1)
    ensures PrefixSafe(must, matchjump[..], |must|)
  {
    hide Sound, InnerSafe, Follows;
    var mlen, suffix := |must|, start;
    var mindex := 0;
    while mindex <= suffix
      invariant 0 <= mindex <= suffix + 1
      invariant Sound(must, matchjump[..]) && InnerSafe(must, matchjump[..], -1)
      invariant PrefixState(must, matchjump[..], -1, suffix, mindex)
    {
      ghost var before := matchjump[..];
      var jump := mlen + suffix - mindex;
      matchjump[mindex] := if matchjump[mindex] < jump then matchjump[mindex] else jump;
      PrefixStep(must, before, matchjump[..], -1, suffix, mindex);
      mindex := mindex + 1;
    }
    var ssuffix := pmatches[suffix];
    ghost var b := suffix;
    assert IsNext(must, suffix, pmatches[..][suffix]);
    PrefixNext(must, matchjump[..], -1, suffix, ssuffix);
    while suffix < mlen
      invariant suffix <= mlen && b <= suffix && b < ssuffix
      invariant Sound(must, matchjump[..]) && InnerSafe(must, matchjump[..], -1)
      invariant PrefixState(must, matchjump[..], b, ssuffix, suffix)
      invariant suffix < mlen ==> suffix <= ssuffix
    {
      suffix := Lower(must, matchjump, b, ssuffix, suffix);
      if suffix < mlen {
        assert IsNext(must, ssuffix, pmatches[..][ssuffix]);
        PrefixNext(must, matchjump[..], b, ssuffix, pmatches[ssuffix]);
        b := ssuffix;
        ssuffix := pmatches[ssuffix];
      }
    }
  }

  // ---------- the search ----------

  /** The tables of a literal, as regcomp leaves them behind. */
  ghost predicate Tables(must: Word, charjump: seq<nat>, matchjump: seq<nat>) {
    && |must| > 1 && |charjump| == 256 && |matchjump| == |must|
    && (forall c: Byte :: IsCharJump(must, c, charjump[c]))
    && (forall j: nat :: j < |must| ==> IsMatchJump(must, j, matchjump[j]))
  }

  /** A character of the subject rules out every occurrence that would put another one there. */
  lemma CharJumpSafe(must: Word, text: Word, dp: int, jump: nat, i: int)
    requires 0 <= dp < |text| && IsCharJump(must, text[dp], jump)
    requires OccursAt(must, text, i) && i <= dp < i + |must|
    ensures i + |must| - 1 >= dp + jump
  {
    var k := dp - i;
    assert text[i + k] == must[k];
  }

  /** Failing at place j of must, aligned at i0, with everything behind it matched, the next
      occurrence is no nearer than the least feasible move. */
  lemma MatchJumpSafe(must: Word, text: Word, i0: int, j: nat, jump: nat, i: int)
    requires 0 <= i0 && i0 + |must| <= |text| && j < |must| && IsMatchJump(must, j, jump)
    requires forall k :: j < k < |must| ==> text[i0 + k] == must[k]
    requires text[i0 + j] != must[j]
    requires OccursAt(must, text, i) && i0 < i
    ensures i + |must| - 1 >= i0 + j + jump
  {
    var t := i - i0;
    if t <= |must| {
      assert Feasible(must, j, t) by {
        forall k | j < k < |must| && t <= k ensures must[k - t] == must[k] {
          assert text[i + (k - t)] == must[k - t];
          assert text[i0 + k] == must[k];
        }
        if t <= j { assert text[i + (j - t)] == must[j - t]; }
      }
    } else {
      assert Feasible(must, j, jump - (|must| - 1 - j));
    }
  }

  /** The prescreen of matcher: the first occurrence of must, or none. */
  method Search(must: Word, charjump: seq<nat>, matchjump: seq<nat>, text: Word) returns (found: bool, dp: int)
    requires Tables(must, charjump, matchjump)
    ensures found ==> OccursAt(must, text, dp) && AbsentBefore(must, text, dp)
    ensures !found ==> forall i :: !OccursAt(must, text, i)
  {
    var mlen, stop := |must|, |text|;
    var pp := mlen - 1;
    dp := mlen - 1;
    while dp < stop
      invariant mlen - 1 <= dp && pp == mlen - 1
      invariant AbsentBefore(must, text, dp - (mlen - 1))
      decreases stop - dp
    {
      dp := Skip(must, charjump, text, dp);
      if dp >= stop { break; }
      ghost var end := dp;
      dp, pp := Compare(must, text, dp);
      if text[dp] == must[pp] {
        assert pp == 0;
        break;
      }
      var mj, cj := matchjump[pp], charjump[text[dp]];
      assert IsMatchJump(must, pp, mj) && IsCharJump(must, text[dp], cj);
      ghost var next := dp + if cj < mj then mj else cj;
      assert dp == end - (mlen - 1) + pp;
      JumpSafe(must, text, end - (mlen - 1), pp, mj, cj, next);
      dp := dp + if cj < mj then mj else cj;
      pp := mlen - 1;
    }
    found := pp == 0;
  }

  /** The larger of the two jumps passes no occurrence and makes progress. */
  lemma JumpSafe(must: Word, text: Word, i0: int, j: nat, mj: nat, cj: nat, next: int)
    requires 0 <= i0 && i0 + |must| <= |text| && j < |must|
    requires IsMatchJump(must, j, mj) && IsCharJump(must, text[i0 + j], cj)
    requires forall k :: j < k < |must| ==> text[i0 + k] == must[k]
    requires text[i0 + j] != must[j]
    requires AbsentBefore(must, text, i0)
    requires next == i0 + j + (if cj < mj then mj else cj)
    ensures AbsentBefore(must, text, next - (|must| - 1)) && next > i0 + |must| - 1
  {
    assert Feasible(must, j, mj - (|must| - 1 - j));
    forall i | 0 <= i < next - (|must| - 1) ensures !OccursAt(must, text, i) {
      if OccursAt(must, text, i) {
        if i > i0 {
          MatchJumpSafe(must, text, i0, j, mj, i);
          if i <= i0 + j { CharJumpSafe(must, text, i0 + j, cj, i); }
        }
      }
    }
  }

  /** The fast skip: move on by character jumps until the character under the last place fits. */
  method Skip(must: Word, charjump: seq<nat>, text: Word, start: int) returns (dp: int)
    requires |must| > 1 && |charjump| == 256 && forall c: Byte :: IsCharJump(must, c, charjump[c])
    requires |must| - 1 <= start && AbsentBefore(must, text, start - (|must| - 1))
    ensures start <= dp && AbsentBefore(must, text, dp - (|must| - 1))
    ensures dp < |text| ==> text[dp] == must[|must| - 1]
  {
    dp := start;
    while dp < |text| && charjump[text[dp]] != 0
      invariant start <= dp && AbsentBefore(must, text, dp - (|must| - 1))
      decreases |text| - dp
    {
      var jump := charjump[text[dp]];
      forall i | 0 <= i < dp + jump - (|must| - 1) ensures !OccursAt(must, text, i) {
        if OccursAt(must, text, i) && i <= dp { CharJumpSafe(must, text, dp, jump, i); }
      }
      dp := dp + jump;
    }
  }

  /** The backward comparison from the place before the last. */
  method Compare(must: Word, text: Word, end: int) returns (dp: int, pp: int)
    requires |must| > 1 && |must| - 1 <= end < |text| && text[end] == must[|must| - 1]
    ensures 0 <= pp < |must| - 1 && dp == end - (|must| - 1) + pp
    ensures forall k :: pp < k < |must| ==> text[end - (|must| - 1) + k] == must[k]
    ensures text[dp] == must[pp] ==> pp == 0
    ensures text[dp] == must[pp] ==> OccursAt(must, text, dp)
  {
    dp, pp := end - 1, |must| - 2;
    while text[dp] == must[pp] && pp != 0
      invariant 0 <= pp < |must| - 1 && dp == end - (|must| - 1) + pp
      invariant forall k :: pp < k < |must| ==> text[end - (|must| - 1) + k] == must[k]
    {
      dp, pp := dp - 1, pp - 1;
    }
  }

  lemma PieceOccurs(must: Word, text: Word, i: nat)
    requires |must| > 0
    ensures OccursAt(must, text, i) <==> i + |must| <= |text| && text[i] == must[0] && text[i..i + |must|] == must
  {
    if i + |must| <= |text| {
      var piece := text[i..i + |must|];
      assert forall k :: 0 <= k < |must| ==> piece[k] == text[i + k];
      assert text[i] == text[i + 0];
    }
  }

  /** The search for literals too short for the tables. */
  method NaiveSearch(must: Word, text: Word) returns (found: bool, dp: int)
    requires |must| > 0
    ensures found ==> OccursAt(must, text, dp) && AbsentBefore(must, text, dp)
    ensures !found ==> forall i :: !OccursAt(must, text, i)
  {
    dp := 0;
    while dp < |text|
      invariant 0 <= dp <= |text| && AbsentBefore(must, text, dp)
    {
      PieceOccurs(must, text, dp);
      if text[dp] == must[0] && |text| - dp >= |must| && text[dp..dp + |must|] == must {
        return true, dp;
      }
      dp := dp + 1;
    }
    found := false;
  }
}
