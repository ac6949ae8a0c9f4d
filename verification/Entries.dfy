/** Magic entries: the flat list with continuation levels, and the forest it stands for
    (src/softmagic.c). */
module Entries {

  /** A used list is scanned in the place of its entry. An indirect entry scans all lists again, on
      the part of the file from its offset on; a based one counts from where its own list does. */
  datatype Kind = Plain | Default | Clear | Name | Use(name: string, flips: bool) | Indirect(based: bool)

  /** A line of a magic file: what it tests, where, and what it says. A relative offset counts from
      the end of what the parent matched; a negated test matches when there is nothing to test. */
  datatype Entry = Entry(
    level: nat,
    kind: Kind,
    test: nat,
    relative: bool,
    offset: int,
    negated: bool,
    desc: string,
    noSpace: bool)

  /** An entry, by its index, with the entries that depend on it. */
  datatype Tree = Tree(i: nat, kids: seq<Tree>)

  function Count(ts: seq<Tree>): nat {
    if ts == [] then 0 else 1 + Count(ts[0].kids) + Count(ts[1..])
  }

  ghost predicate Fits(es: seq<Entry>, ts: seq<Tree>)
    decreases ts
  {
    forall k :: 0 <= k < |ts| ==> ts[k].i < |es| && Fits(es, ts[k].kids)
  }

  /** The trees of entries at this level from i on, up to the first entry of a lower level. An entry
      that skips a level depends on nothing that can match and is left out. */
  function Parse(es: seq<Entry>, level: nat, i: nat): (r: (seq<Tree>, nat))
    requires i <= |es|
    ensures i <= r.1 <= |es| && Fits(es, r.0)
    ensures r.1 < |es| ==> es[r.1].level < level
    ensures forall k :: i <= k < r.1 ==> es[k].level >= level
    decreases |es| - i
  {
    if i == |es| || es[i].level < level then ([], i)
    else if es[i].level > level then Parse(es, level, i + 1)
    else
      var (kids, j) := Parse(es, level + 1, i + 1);
      var (others, k) := Parse(es, level, j);
      assert forall n :: 0 < n <= |others| ==> ([Tree(i, kids)] + others)[n] == others[n - 1];
      ([Tree(i, kids)] + others, k)
  }

  /** The top-level entries from i on, each with its continuations. */
  function Forest(es: seq<Entry>, i: nat): (ts: seq<Tree>)
    requires i <= |es|
    ensures Fits(es, ts)
    decreases |es| - i
  {
    if i == |es| then []
    else
      var (kids, j) := Parse(es, 1, i + 1);
      var others := Forest(es, j);
      assert forall n :: 0 < n <= |others| ==> ([Tree(i, kids)] + others)[n] == others[n - 1];
      [Tree(i, kids)] + others
  }

  /** The first entry of the next group. */
  function Next(es: seq<Entry>, i: nat): (j: nat)
    requires i < |es|
    ensures i < j <= |es|
    ensures j < |es| ==> es[j].level == 0
    ensures forall k :: i < k < j ==> es[k].level > 0
  {
    Parse(es, 1, i + 1).1
  }

  lemma {:induction false} NextIs(es: seq<Entry>, i: nat, j: nat)
    requires i < j <= |es| && (forall k :: i < k < j ==> es[k].level != 0) && (j < |es| ==> es[j].level == 0)
    ensures Next(es, i) == j
  {}

  /** Entries above the level are no siblings. */
  lemma {:induction false} ParseSkips(es: seq<Entry>, level: nat, i: nat, j: nat)
    requires i <= j <= |es| && forall k :: i <= k < j ==> es[k].level > level
    ensures Parse(es, level, i) == Parse(es, level, j)
    decreases j - i
  {
    if i < j { ParseSkips(es, level, i + 1, j); }
  }

  // ---------- who depends on whom ----------

  /** p is the nearest preceding entry of a lower level, and exactly one level lower. */
  ghost predicate Depends(es: seq<Entry>, p: nat, k: nat) {
    && p < k < |es| && es[k].level == es[p].level + 1
    && forall m :: p < m < k ==> es[m].level >= es[k].level
  }

  /** From the entry p, dependence leads down to the level without leaving the entries from i on. */
  ghost predicate Rooted(es: seq<Entry>, level: nat, i: nat, p: nat)
    decreases p
  {
    i <= p < |es| && (es[p].level == level || exists q: nat :: q < p && Depends(es, q, p) && Rooted(es, level, i, q))
  }

  ghost predicate IsRoot(ts: seq<Tree>, k: nat) {
    exists n :: 0 <= n < |ts| && ts[n].i == k
  }

  /** Somewhere among the trees, k hangs directly below p. */
  ghost predicate Below(ts: seq<Tree>, p: nat, k: nat)
    decreases ts
  {
    ts != [] && ((ts[0].i == p && IsRoot(ts[0].kids, k)) || Below(ts[0].kids, p, k) || Below(ts[1..], p, k))
  }

  ghost predicate Increasing(ts: seq<Tree>) {
    forall m, n :: 0 <= m < n < |ts| ==> ts[m].i < ts[n].i
  }

  lemma {:induction false} RootAt(ts: seq<Tree>, n: nat)
    requires n < |ts|
    ensures IsRoot(ts, ts[n].i)
  {}

  lemma {:induction false} RootCons(t: Tree, others: seq<Tree>, k: nat)
    ensures IsRoot([t] + others, k) <==> t.i == k || IsRoot(others, k)
  {
    var ts := [t] + others;
    assert ts[0] == t;
    assert forall n :: 0 < n < |ts| ==> ts[n] == others[n - 1];
    if n :| 0 <= n < |others| && others[n].i == k { assert ts[n + 1] == others[n]; }
  }

  lemma {:induction false} BelowCons(t: Tree, others: seq<Tree>, p: nat, k: nat)
    ensures Below([t] + others, p, k) <==> (t.i == p && IsRoot(t.kids, k)) || Below(t.kids, p, k) || Below(others, p, k)
  {
    assert ([t] + others)[1..] == others;
  }

  lemma {:induction false} NoTrees(es: seq<Entry>, level: nat, i: nat)
    ensures forall k: nat :: !IsRoot([], k)
    ensures forall p: nat, k: nat :: !Below([], p, k)
    ensures forall p: nat, k: nat :: k < i && Depends(es, p, k) ==> !Rooted(es, level, i, p)
  {}

  /** An entry that skips a level leads nowhere. */
  lemma {:induction false} RootedSkips(es: seq<Entry>, level: nat, i: nat, p: nat)
    requires i < |es| && es[i].level > level
    ensures Rooted(es, level, i, p) <==> Rooted(es, level, i + 1, p)
    decreases p
  {
    forall q: nat | q < p ensures Rooted(es, level, i, q) <==> Rooted(es, level, i + 1, q) {
      RootedSkips(es, level, i, q);
    }
  }

  lemma {:induction false} RootedAbove(es: seq<Entry>, level: nat, i: nat, p: nat)
    requires Rooted(es, level, i, p)
    ensures es[p].level >= level
    decreases p
  {
    if es[p].level != level {
      var q: nat :| q < p && Depends(es, q, p) && Rooted(es, level, i, q);
      RootedAbove(es, level, i, q);
    }
  }

  /** i is an entry of the level, and m the first one behind it that is not above the level. */
  ghost predicate Spans(es: seq<Entry>, level: nat, i: nat, m: nat) {
    && i < m <= |es| && es[i].level == level && (m < |es| ==> es[m].level <= level)
    && forall k :: i < k < m ==> es[k].level > level
  }

  lemma {:induction false} RootedInside(es: seq<Entry>, level: nat, i: nat, m: nat, p: nat)
    requires Spans(es, level, i, m) && i < p < m
    ensures Rooted(es, level, i, p) <==> Rooted(es, level + 1, i + 1, p)
    decreases p
  {
    forall q: nat | i < q < p ensures Rooted(es, level, i, q) <==> Rooted(es, level + 1, i + 1, q) {
      RootedInside(es, level, i, m, q);
    }
    if es[p].level == level + 1 {
      assert Rooted(es, level, i, i);
      assert Depends(es, i, p);
    }
  }

  lemma {:induction false} RootedBehind(es: seq<Entry>, level: nat, i: nat, m: nat, p: nat)
    requires Spans(es, level, i, m) && m <= p
    ensures Rooted(es, level, i, p) <==> Rooted(es, level, m, p)
    decreases p
  {
    forall q: nat | m <= q < p ensures Rooted(es, level, i, q) <==> Rooted(es, level, m, q) {
      RootedBehind(es, level, i, m, q);
    }
    forall q: nat | q < m && p < |es| && Depends(es, q, p) ensures !Rooted(es, level, i, q) {
      if Rooted(es, level, i, q) { RootedAbove(es, level, i, q); }
    }
  }

  /** Dependence around i, seen from the entries inside its span and from those behind it. */
  lemma {:induction false} NodeDepends(es: seq<Entry>, level: nat, i: nat, m: nat, p: nat, k: nat)
    requires Spans(es, level, i, m)
    ensures Depends(es, p, k) && Rooted(es, level, i, p) <==>
            || (p == i && i + 1 <= k < m && es[k].level == level + 1)
            || (k < m && Depends(es, p, k) && Rooted(es, level + 1, i + 1, p))
            || (Depends(es, p, k) && Rooted(es, level, m, p))
  {
    if p < i {
    } else if p == i {
      assert Rooted(es, level, i, i);
    } else if p < m {
      RootedInside(es, level, i, m, p);
    } else {
      RootedBehind(es, level, i, m, p);
    }
  }

  /** What ParseDepends says of the trees from entry i on. */
  ghost predicate Faithful(es: seq<Entry>, level: nat, i: nat)
    requires i <= |es|
  {
    var (ts, j) := Parse(es, level, i);
    && Increasing(ts)
    && (forall k: nat :: IsRoot(ts, k) <==> i <= k < j && es[k].level == level)
    && (forall p: nat, k: nat :: Below(ts, p, k) <==> k < j && Depends(es, p, k) && Rooted(es, level, i, p))
  }

  lemma {:induction false} NodeCase(es: seq<Entry>, level: nat, i: nat)
    requires i < |es| && es[i].level == level
    requires Faithful(es, level + 1, i + 1) && Faithful(es, level, Parse(es, level + 1, i + 1).1)
    ensures Faithful(es, level, i)
  {
    hide Below, IsRoot, Depends, Rooted;
    var (kids, m) := Parse(es, level + 1, i + 1);
    var (others, j) := Parse(es, level, m);
    var ts := [Tree(i, kids)] + others;
    assert Parse(es, level, i) == (ts, j);
    forall k: nat ensures IsRoot(ts, k) <==> i <= k < j && es[k].level == level { RootCons(Tree(i, kids), others, k); }
    forall p: nat, k: nat
      ensures Below(ts, p, k) <==> k < j && Depends(es, p, k) && Rooted(es, level, i, p)
    {
      BelowCons(Tree(i, kids), others, p, k);
      NodeDepends(es, level, i, m, p, k);
    }
    forall t | 0 <= t < |others| ensures others[t].i > i { RootAt(others, t); }
  }

  /** The trees are the entries of their level, in order, and hang together as the entries depend on
      each other. */
  lemma {:induction false} ParseDepends(es: seq<Entry>, level: nat, i: nat)
    requires i <= |es|
    ensures Faithful(es, level, i)
    decreases |es| - i
  {
    hide Below, IsRoot, Depends, Rooted;
    if i == |es| || es[i].level < level {
      NoTrees(es, level, i);
    } else if es[i].level > level {
      ParseDepends(es, level, i + 1);
      forall p: nat ensures Rooted(es, level, i, p) <==> Rooted(es, level, i + 1, p) { RootedSkips(es, level, i, p); }
    } else {
      ParseDepends(es, level + 1, i + 1);
      ParseDepends(es, level, Parse(es, level + 1, i + 1).1);
      NodeCase(es, level, i);
    }
  }

  lemma {:induction false} ForestIsParse(es: seq<Entry>, i: nat)
    requires i <= |es| && (i < |es| ==> es[i].level == 0)
    ensures Parse(es, 0, i) == (Forest(es, i), |es|)
    decreases |es| - i
  {
    if i < |es| { ForestIsParse(es, Parse(es, 1, i + 1).1); }
  }

  /** In the forest the top-level entries are the roots, in order, and an entry hangs below the
      nearest preceding entry of a lower level if that is exactly one level lower and in the forest
      itself. */
  lemma {:induction false} ForestDepends(es: seq<Entry>)
    requires es != [] ==> es[0].level == 0
    ensures var ts := Forest(es, 0);
      && Increasing(ts)
      && (forall k: nat :: IsRoot(ts, k) <==> k < |es| && es[k].level == 0)
      && (forall p: nat, k: nat :: Below(ts, p, k) <==> Depends(es, p, k) && Rooted(es, 0, 0, p))
  {
    hide Below, IsRoot, Rooted, Increasing;
    ForestIsParse(es, 0);
    ParseDepends(es, 0, 0);
  }
}
