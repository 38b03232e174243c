/** The two greedy selectors. Each walks every unordered pair of available
    players in `itertools.combinations` order — index pairs `(i, j)` with
    `i < j`, in lexicographic order — and keeps the first pair that beats
    the best so far. */
module Selection {
  import opened Roster
  import opened Scoring

  /** Index pair `(k, l)` comes before `(i, j)` in `combinations` order. */
  predicate Precedes(k: int, l: int, i: int, j: int)
  {
    k < i || (k == i && l < j)
  }

  /** `(s[i], s[j])` has the largest spread among all pairs of `s`, and every
      pair enumerated before it has a strictly smaller one: it is the pair a
      strict `>` scan keeps. */
  ghost predicate IsWidest(s: seq<Player>, i: int, j: int)
  {
    && 0 <= i < j < |s|
    && (forall k, l :: 0 <= k < l < |s| ==> Spread(s[k], s[l]) <= Spread(s[i], s[j]))
    && (forall k, l :: 0 <= k < l < |s| && Precedes(k, l, i, j) ==> Spread(s[k], s[l]) < Spread(s[i], s[j]))
  }

  /** `(s[i], s[j])` has the smallest `PairingScore` against `sent` among all
      pairs of `s`, and every pair enumerated before it scores strictly
      higher: it is the pair a strict `<` scan keeps. */
  ghost predicate IsClosestCounter(sent: seq<Player>, s: seq<Player>, i: int, j: int)
  {
    && 0 <= i < j < |s|
    && (forall k, l :: 0 <= k < l < |s| ==> PairingScore(sent, Pair(s[i], s[j])) <= PairingScore(sent, Pair(s[k], s[l])))
    && (forall k, l :: 0 <= k < l < |s| && Precedes(k, l, i, j) ==> PairingScore(sent, Pair(s[i], s[j])) < PairingScore(sent, Pair(s[k], s[l])))
  }

  /** What `get_best_pair(pool, used)` returns: `None` exactly when fewer
      than two players are available, otherwise the widest available pair,
      earliest on ties. */
  ghost predicate IsBestPair(pool: seq<Player>, used: set<string>, r: Option<Pair>)
  {
    var s := Available(pool, used);
    && (r.None? <==> |s| < 2)
    && (r.Some? ==> exists i, j :: IsWidest(s, i, j) && r.value == Pair(s[i], s[j]))
  }

  /** What `get_best_counter(sent, pool, used)` returns: `None` exactly when
      fewer than two players are available, otherwise the available pair
      with the lowest score against `sent`, earliest on ties. */
  ghost predicate IsBestCounter(sent: seq<Player>, pool: seq<Player>, used: set<string>, r: Option<Pair>)
  {
    var s := Available(pool, used);
    && (r.None? <==> |s| < 2)
    && (r.Some? ==> exists i, j :: IsClosestCounter(sent, s, i, j) && r.value == Pair(s[i], s[j]))
  }

  /** `get_best_pair`: the available pair with the largest handicap spread.
      Its two players are available and stand in the pool in that order. */
  method BestPair(pool: seq<Player>, used: set<string>) returns (best: Option<Pair>)
    ensures IsBestPair(pool, used, best)
    ensures best.Some? ==> best.value.first.name !in used && best.value.second.name !in used
    ensures best.Some? ==> exists k, l :: 0 <= k < l < |pool| && pool[k] == best.value.first && pool[l] == best.value.second
  {
    var avail := Available(pool, used);
    var n := |avail|;
    var bestSpread: real := -1.0;
    best := None;
    ghost var bi, bj := 0, 0;
    var i := 0;
    while i < n
      invariant 0 <= i <= n
      invariant best.None? <==> (i == 0 || n < 2)
      invariant best.None? ==> bestSpread == -1.0
      invariant best.Some? ==> 0 <= bi < bj < n && bi < i && best.value == Pair(avail[bi], avail[bj]) && bestSpread == Spread(avail[bi], avail[bj])
      invariant forall k, l {:trigger Spread(avail[k], avail[l])} :: 0 <= k < l < n && k < i ==> Spread(avail[k], avail[l]) <= bestSpread
      invariant best.Some? ==> forall k, l {:trigger Spread(avail[k], avail[l])} :: 0 <= k < l < n && Precedes(k, l, bi, bj) ==> Spread(avail[k], avail[l]) < bestSpread
    {
      var j := i + 1;
      while j < n
        invariant i + 1 <= j <= n
        invariant best.None? <==> (i == 0 && j == 1)
        invariant best.None? ==> bestSpread == -1.0
        invariant best.Some? ==> 0 <= bi < bj < n && Precedes(bi, bj, i, j) && best.value == Pair(avail[bi], avail[bj]) && bestSpread == Spread(avail[bi], avail[bj])
        invariant forall k, l {:trigger Spread(avail[k], avail[l])} :: 0 <= k < l < n && Precedes(k, l, i, j) ==> Spread(avail[k], avail[l]) <= bestSpread
        invariant best.Some? ==> forall k, l {:trigger Spread(avail[k], avail[l])} :: 0 <= k < l < n && Precedes(k, l, bi, bj) ==> Spread(avail[k], avail[l]) < bestSpread
      {
        var spread := Spread(avail[i], avail[j]);
        if spread > bestSpread {
          bestSpread := spread;
          best := Some(Pair(avail[i], avail[j]));
          bi, bj := i, j;
        }
        j := j + 1;
      }
      i := i + 1;
    }
    if best.Some? {
      assert IsWidest(avail, bi, bj);
      AvailableMembers(pool, used);
      assert avail[bi] in avail && avail[bj] in avail;
      AvailableKeepsOrder(pool, used, bi, bj);
    }
  }

  /** `get_best_counter`: the available pair whose `PairingScore` against
      `sent` is lowest. The source starts from an infinite best score, which
      any first candidate beats; here that is "no best pair yet". */
  method BestCounter(sent: seq<Player>, pool: seq<Player>, used: set<string>) returns (best: Option<Pair>)
    ensures IsBestCounter(sent, pool, used, best)
    ensures best.Some? ==> best.value.first.name !in used && best.value.second.name !in used
    ensures best.Some? ==> exists k, l :: 0 <= k < l < |pool| && pool[k] == best.value.first && pool[l] == best.value.second
  {
    var avail := Available(pool, used);
    var n := |avail|;
    var bestScore: real := 0.0;
    best := None;
    ghost var bi, bj := 0, 0;
    var i := 0;
    while i < n
      invariant 0 <= i <= n
      invariant best.None? <==> (i == 0 || n < 2)
      invariant best.Some? ==> 0 <= bi < bj < n && bi < i && best.value == Pair(avail[bi], avail[bj]) && bestScore == PairingScore(sent, best.value)
      invariant best.Some? ==> forall k, l {:trigger PairingScore(sent, Pair(avail[k], avail[l]))} :: 0 <= k < l < n && k < i ==> bestScore <= PairingScore(sent, Pair(avail[k], avail[l]))
      invariant best.Some? ==> forall k, l {:trigger PairingScore(sent, Pair(avail[k], avail[l]))} :: 0 <= k < l < n && Precedes(k, l, bi, bj) ==> bestScore < PairingScore(sent, Pair(avail[k], avail[l]))
    {
      var j := i + 1;
      while j < n
        invariant i + 1 <= j <= n
        invariant best.None? <==> (i == 0 && j == 1)
        invariant best.Some? ==> 0 <= bi < bj < n && Precedes(bi, bj, i, j) && best.value == Pair(avail[bi], avail[bj]) && bestScore == PairingScore(sent, best.value)
        invariant best.Some? ==> forall k, l {:trigger PairingScore(sent, Pair(avail[k], avail[l]))} :: 0 <= k < l < n && Precedes(k, l, i, j) ==> bestScore <= PairingScore(sent, Pair(avail[k], avail[l]))
        invariant best.Some? ==> forall k, l {:trigger PairingScore(sent, Pair(avail[k], avail[l]))} :: 0 <= k < l < n && Precedes(k, l, bi, bj) ==> bestScore < PairingScore(sent, Pair(avail[k], avail[l]))
      {
        var score := PairingScore(sent, Pair(avail[i], avail[j]));
        if best.None? || score < bestScore {
          bestScore := score;
          best := Some(Pair(avail[i], avail[j]));
          bi, bj := i, j;
        }
        j := j + 1;
      }
      i := i + 1;
    }
    if best.Some? {
      assert IsClosestCounter(sent, avail, bi, bj);
      AvailableMembers(pool, used);
      assert avail[bi] in avail && avail[bj] in avail;
      AvailableKeepsOrder(pool, used, bi, bj);
    }
  }

  /** Lexicographic order on index pairs is total. */
  lemma PrecedesTotal(i: int, j: int, i': int, j': int)
    ensures (i, j) == (i', j') || Precedes(i, j, i', j') || Precedes(i', j', i, j)
  {
  }

  /** At most one index pair is the widest: the scan's choice is determined
      by the available list. */
  lemma WidestIsUnique(s: seq<Player>, i: int, j: int, i': int, j': int)
    requires IsWidest(s, i, j) && IsWidest(s, i', j')
    ensures i == i' && j == j'
  {
    PrecedesTotal(i, j, i', j');
  }

  /** At most one index pair is the closest counter. */
  lemma ClosestCounterIsUnique(sent: seq<Player>, s: seq<Player>, i: int, j: int, i': int, j': int)
    requires IsClosestCounter(sent, s, i, j) && IsClosestCounter(sent, s, i', j')
    ensures i == i' && j == j'
  {
    PrecedesTotal(i, j, i', j');
  }

  /** `get_best_pair` is deterministic: two results that both meet its
      contract on the same pool and used set are equal. */
  lemma BestPairDeterministic(pool: seq<Player>, used: set<string>, r1: Option<Pair>, r2: Option<Pair>)
    requires IsBestPair(pool, used, r1) && IsBestPair(pool, used, r2)
    ensures r1 == r2
  {
    if r1.Some? {
      var s := Available(pool, used);
      var i1, j1 :| IsWidest(s, i1, j1) && r1.value == Pair(s[i1], s[j1]);
      var i2, j2 :| IsWidest(s, i2, j2) && r2.value == Pair(s[i2], s[j2]);
      WidestIsUnique(s, i1, j1, i2, j2);
    }
  }

  /** `get_best_counter` is deterministic in the same sense. */
  lemma BestCounterDeterministic(sent: seq<Player>, pool: seq<Player>, used: set<string>, r1: Option<Pair>, r2: Option<Pair>)
    requires IsBestCounter(sent, pool, used, r1) && IsBestCounter(sent, pool, used, r2)
    ensures r1 == r2
  {
    if r1.Some? {
      var s := Available(pool, used);
      var i1, j1 :| IsClosestCounter(sent, s, i1, j1) && r1.value == Pair(s[i1], s[j1]);
      var i2, j2 :| IsClosestCounter(sent, s, i2, j2) && r2.value == Pair(s[i2], s[j2]);
      ClosestCounterIsUnique(sent, s, i1, j1, i2, j2);
    }
  }
}
