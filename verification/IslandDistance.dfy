/** Which grids and labels make the data race harmless, read off the grid and the labels alone. */
module IslandDistance {
  import opened Arithmetic
  import opened Race
  import opened Islands
  import opened IslandExit
  import opened IslandTheorems
  import opened IslandFrontier
  import opened IslandSchedules
  import opened IslandHarmless

  // ---- How far positive labels have spread

  /** The nodes next to a closed switch that touches `lit`. */
  function Beside(g: Grid, lit: set<nat>): set<nat> { set t: nat | t < g.cns && Fed(g, lit, t) }

  predicate Fed(g: Grid, lit: set<nat>, t: nat) { exists l :: l in g.links && l.node == t && Feeds(g, lit, t, l.switch) }

  /** `front` is the frontier; `lit` nodes carry the top of their island, `warm` nodes at least 0. */
  datatype Spread = Spread(front: set<nat>, lit: set<nat>, warm: set<nat>) {
    /** The lit nodes that push their label in the next step. */
    function Glow(): set<nat> { front * lit }
  }

  function Grow(g: Grid, x: Spread): Spread {
    Spread(Beside(g, x.front), x.lit + x.warm * Beside(g, x.Glow()), x.warm + Beside(g, x.Glow()))
  }

  /** `n` steps from the first frontier and the first labels; an unseeded node takes two steps. */
  function SpreadOut(g: Grid, x: Spread, n: nat): Spread { Iterated(y => Grow(g, y), x, n) }

  function Iterated<T>(f: T -> T, x: T, n: nat): T {
    if n == 0 then x else f(Iterated(f, x, n - 1))
  }

  lemma {:induction false} FixedPoint<T>(f: T -> T, x: T, n: nat, m: nat)
    requires n <= m && f(Iterated(f, x, n)) == Iterated(f, x, n)
    ensures Iterated(f, x, m) == Iterated(f, x, n)
  {
    if n < m {
      FixedPoint(f, x, n, m - 1);
    }
  }

  lemma SpreadNext(g: Grid, x: Spread, n: nat)
    ensures SpreadOut(g, x, 0) == x && SpreadOut(g, x, n + 1) == Grow(g, SpreadOut(g, x, n))
  {
  }

  function Source(s: Loop): Spread {
    Spread(s.frontier, set c: nat | c < |s.cn| && s.cn[c] > 0, set c: nat | c < |s.cn| && s.cn[c] >= 0)
  }

  /** Some test passes: a node is next to a higher one in the frontier. */
  ghost predicate Goes(g: Grid, x: Spread) {
    || (exists t :: t !in x.lit && t in Beside(g, x.Glow()))
    || (exists t :: t !in x.warm && t in Beside(g, x.front * x.warm))
  }

  predicate Touches(g: Grid, b: nat, lit: set<nat>) { exists l :: l in g.links && l.switch == b && l.node in lit }

  /** Two closed switches lead from `lit` to `t`. */
  ghost predicate FedTwice(g: Grid, lit: set<nat>, t: nat) {
    exists b: nat, d: nat :: b != d && Feeds(g, lit, t, b) && Feeds(g, lit, t, d)
  }

  predicate Feeds(g: Grid, lit: set<nat>, t: nat, b: nat) {
    Closed(g, b) && Link(t, b) in g.links && Touches(g, b, lit)
  }

  /** As long as the spread goes on, no node that it has yet to light is next to two closed switches that
      touch lit frontier nodes. */
  ghost predicate SingleFed(g: Grid, s: Loop)
    requires Shaped(g, s)
  {
    forall n: nat :: SingleFedAt(g, s, n)
  }

  ghost predicate SingleFedAt(g: Grid, s: Loop, n: nat)
    requires Shaped(g, s)
  {
    GoesBefore(g, Source(s), n) ==> NoneFedTwice(g, SpreadOut(g, Source(s), n))
  }

  ghost predicate GoesBefore(g: Grid, x: Spread, n: nat) { forall i: nat :: i < n ==> Goes(g, SpreadOut(g, x, i)) }

  ghost predicate NoneFedTwice(g: Grid, x: Spread) { forall t :: t !in x.lit ==> !FedTwice(g, x.Glow(), t) }

  lemma BesideIff(g: Grid, lit: set<nat>, t: nat)
    requires Wired(g)
    ensures t in Beside(g, lit) <==> exists b: nat :: Feeds(g, lit, t, b)
  {
    if b: nat :| Feeds(g, lit, t, b) {
      assert Link(t, b) in g.links && Link(t, b).node == t;
    }
  }

  // ---- The synchronous loop is the spread

  /** The label a node has in the spread. */
  function Shown(x: Spread, top: int, c: nat): int { if c in x.lit then top else if c in x.warm then 0 else -1 }

  /** `a` shows the spread `x`, on islands `k` that settle at `top`. */
  ghost predicate Shows(g: Grid, s: Loop, k: set<nat>, top: seq<int>, x: Spread, a: Loop) {
    && Tiered(g, k, top, s) && Grounded(g, a) && a.frontier == x.front && x.front <= k
    && (forall c :: c in k ==> a.cn[c] == Shown(x, top[c], c) && (c in x.lit ==> top[c] > 0))
    && x.lit <= x.warm && (forall c :: c in k && c !in x.warm ==> s.cn[c] == -1)
  }

  lemma StartShows(g: Grid, s: Loop, k: set<nat>, top: seq<int>)
    requires Tiered(g, k, top, s)
    ensures Shows(g, s, k, top, Source(s), s)
  {
    var x := Source(s);
    forall c | c in k ensures s.cn[c] == Shown(x, top[c], c) && (c in x.lit ==> top[c] > 0) {
      assert Tier(top[c], s.cn[c]);
    }
  }

  lemma SameTop(g: Grid, s: Loop, k: set<nat>, top: seq<int>, t: nat, c: nat, b: nat)
    requires Tiered(g, k, top, s) && t in k && Closed(g, b) && Link(t, b) in g.links && Link(c, b) in g.links
    ensures c in k && top[c] == top[t]
  {
    assert Adjacent(g, t, c);
  }

  lemma HotFeeds(g: Grid, s: Loop, k: set<nat>, top: seq<int>, x: Spread, a: Loop, l: Link)
    requires Shows(g, s, k, top, x, a) && l in Tasks(g, a.frontier) && Hot(Lifted(g, a), a.cn, l)
    ensures l.node in k && l.node !in x.lit && Feeds(g, x.Glow(), l.node, l.switch)
  {
    var c := GroundedLabel(g, a, l);
    assert l == Link(l.node, l.switch);
    SameTop(g, s, k, top, c, l.node, l.switch);
    assert a.cn[c] == Shown(x, top[c], c) && a.cn[l.node] == Shown(x, top[l.node], l.node);
    assert Link(c, l.switch).node in x.Glow();
  }

  lemma FeedsHot(g: Grid, s: Loop, k: set<nat>, top: seq<int>, x: Spread, a: Loop, t: nat, b: nat)
    requires Shows(g, s, k, top, x, a) && t !in x.lit && Feeds(g, x.Glow(), t, b)
    ensures t in k && Link(t, b) in Tasks(g, a.frontier) && Hot(Lifted(g, a), a.cn, Link(t, b))
    ensures Lifted(g, a)[b] == top[t] > 0
  {
    var n :| n in g.links && n.switch == b && n.node in x.Glow();
    assert n == Link(n.node, b);
    SameTop(g, s, k, top, n.node, t, b);
    Across(g, a, [], n.node, t, b);
    assert a.cn[n.node] == top[t] && a.cn[t] == Shown(x, top[t], t);
    var c := GroundedLabel(g, a, Link(t, b));
    SameTop(g, s, k, top, t, c, b);
    assert a.cn[c] == Shown(x, top[c], c);
  }

  lemma NodeFed(g: Grid, s: Loop, k: set<nat>, top: seq<int>, x: Spread, a: Loop, t: nat, b: nat)
    requires Shows(g, s, k, top, x, a) && t !in x.lit && Feeds(g, x.Glow(), t, b)
    ensures t in k && top[t] > 0 && SyncRound(g, a).cn[t] == a.cn[t] + top[t]
  {
    var bd, tasks := Lifted(g, a), Tasks(g, a.frontier);
    FeedsHot(g, s, k, top, x, a, t, b);
    var v := SyncRound(g, a).cn[t];
    SyncIsSettled(bd, a.cn, tasks, SyncRound(g, a).cn);
    assert Settled(bd, a.cn, tasks, t, v);
    assert v >= a.cn[t] + bd[Link(t, b).switch];
    var l :| l in tasks && l.node == t && Hot(bd, a.cn, l) && v == a.cn[t] + bd[l.switch];
    HotFeeds(g, s, k, top, x, a, l);
    FeedsHot(g, s, k, top, x, a, t, l.switch);
  }

  lemma NodeUnfed(g: Grid, s: Loop, k: set<nat>, top: seq<int>, x: Spread, a: Loop, t: nat)
    requires Shows(g, s, k, top, x, a) && t in k && (t in x.lit || forall b: nat :: !Feeds(g, x.Glow(), t, b))
    ensures SyncRound(g, a).cn[t] == a.cn[t]
  {
    var bd, tasks, v := Lifted(g, a), Tasks(g, a.frontier), SyncRound(g, a).cn[t];
    SyncIsSettled(bd, a.cn, tasks, SyncRound(g, a).cn);
    assert Settled(bd, a.cn, tasks, t, v);
    if v != a.cn[t] {
      var l :| l in tasks && l.node == t && Hot(bd, a.cn, l) && v == a.cn[t] + bd[l.switch];
      HotFeeds(g, s, k, top, x, a, l);
    }
  }

  /** One synchronous round is one step of the spread. */
  lemma NodeGrows(g: Grid, s: Loop, k: set<nat>, top: seq<int>, x: Spread, a: Loop, t: nat)
    requires Shows(g, s, k, top, x, a) && t in k
    ensures SyncRound(g, a).cn[t] == Shown(Grow(g, x), top[t], t) && (t in Grow(g, x).lit ==> top[t] > 0)
  {
    BesideIff(g, x.Glow(), t);
    if t !in x.lit && t in Beside(g, x.Glow()) {
      var b: nat :| Feeds(g, x.Glow(), t, b);
      NodeFed(g, s, k, top, x, a, t, b);
      assert Tier(top[t], s.cn[t]);
    } else {
      NodeUnfed(g, s, k, top, x, a, t);
    }
  }

  /** The next frontier. */
  lemma FrontGrows(g: Grid, front: set<nat>)
    requires Wired(g)
    ensures (set l | l in Tasks(g, front) :: l.node) == Beside(g, front)
  {
    forall t | t in Beside(g, front) ensures t in set l | l in Tasks(g, front) :: l.node {
      var l :| l in g.links && l.node == t && Feeds(g, front, t, l.switch);
      var n :| n in g.links && n.switch == l.switch && n.node in front;
      assert l.switch in Reached(g, front);
    }
    forall l | l in Tasks(g, front) ensures l.node in Beside(g, front) {
      var n :| n in g.links && n.node in front && n.switch == l.switch;
      assert l == Link(l.node, l.switch);
      assert Feeds(g, front, l.node, l.switch);
      BesideIff(g, front, l.node);
    }
  }

  lemma SyncGrounded(g: Grid, a: Loop)
    requires Grounded(g, a)
    ensures Grounded(g, SyncRound(g, a)) && (Looping(SyncRound(g, a)) <==> !Level(g, a))
  {
    var sched := SyncExists(g, a);
    RoundGrounded(g, a, sched);
    ExitIff(g, a, sched);
    SameGrounded(g, Round(g, a, sched), SyncRound(g, a));
  }

  lemma SameGrounded(g: Grid, a: Loop, b: Loop)
    requires Grounded(g, a) && Same(a, b)
    ensures Grounded(g, b)
  {
    forall e: nat | Closed(g, e) ensures GroundedAt(g, b, e) {
      assert GroundedAt(g, a, e);
    }
  }

  lemma RoundShows(g: Grid, s: Loop, k: set<nat>, top: seq<int>, x: Spread, a: Loop)
    requires Shows(g, s, k, top, x, a)
    ensures Shows(g, s, k, top, Grow(g, x), SyncRound(g, a))
  {
    SyncGrounded(g, a);
    FrontGrows(g, x.front);
    FrontierStays(g, a, [], k);
    forall c | c in k
      ensures SyncRound(g, a).cn[c] == Shown(Grow(g, x), top[c], c) && (c in Grow(g, x).lit ==> top[c] > 0)
    {
      NodeGrows(g, s, k, top, x, a, c);
    }
  }

  /** After n synchronous rounds frontier and labels are the spread after n steps. */
  lemma {:induction false} RoundsShow(g: Grid, s: Loop, k: set<nat>, top: seq<int>, n: nat, x: Spread, a: Loop)
    requires Tiered(g, k, top, s) && x == SpreadOut(g, Source(s), n) && a == SyncRounds(g, s, n)
    ensures Shows(g, s, k, top, x, a)
  {
    if n == 0 {
      StartShows(g, s, k, top);
    } else {
      var x0, a0 := SpreadOut(g, Source(s), n - 1), SyncRounds(g, s, n - 1);
      SpreadNext(g, Source(s), n - 1);
      RoundsShow(g, s, k, top, n - 1, x0, a0);
      RoundShows(g, s, k, top, x0, a0);
    }
  }

  /** The loop goes on exactly when the spread does. */
  lemma LevelIffStill(g: Grid, s: Loop, k: set<nat>, top: seq<int>, x: Spread, a: Loop)
    requires Shows(g, s, k, top, x, a)
    ensures Level(g, a) <==> !Goes(g, x)
  {
    if c: nat, d: nat :| c in a.frontier && Adjacent(g, c, d) && d < g.cns && a.cn[c] > a.cn[d] {
      HigherGoes(g, s, k, top, x, a, c, d);
    }
    if t :| t !in x.lit && t in Beside(g, x.Glow()) {
      var c := BesideFrom(g, x.Glow(), t);
      assert a.cn[c] == Shown(x, top[c], c) && a.cn[t] == Shown(x, top[t], t);
    } else if t :| t !in x.warm && t in Beside(g, x.front * x.warm) {
      var c := BesideFrom(g, x.front * x.warm, t);
      assert a.cn[c] == Shown(x, top[c], c) && a.cn[t] == Shown(x, top[t], t);
    }
  }

  lemma HigherGoes(g: Grid, s: Loop, k: set<nat>, top: seq<int>, x: Spread, a: Loop, c: nat, d: nat)
    requires Shows(g, s, k, top, x, a) && c in a.frontier && Adjacent(g, c, d) && d < g.cns && a.cn[c] > a.cn[d]
    ensures Goes(g, x)
  {
    assert a.cn[c] == Shown(x, top[c], c) && a.cn[d] == Shown(x, top[d], d) && top[c] == top[d];
    if c in x.lit {
      AdjacentFeeds(g, x.Glow(), c, d);
      BesideIff(g, x.Glow(), d);
    } else {
      AdjacentFeeds(g, x.front * x.warm, c, d);
      BesideIff(g, x.front * x.warm, d);
    }
  }

  lemma BesideFrom(g: Grid, lit: set<nat>, t: nat) returns (c: nat)
    requires Wired(g) && t in Beside(g, lit)
    ensures c in lit && Adjacent(g, c, t)
  {
    BesideIff(g, lit, t);
    c := FedFrom(g, lit, t);
  }

  lemma FedFrom(g: Grid, lit: set<nat>, c: nat) returns (d: nat)
    requires exists b: nat :: Feeds(g, lit, c, b)
    ensures d in lit && Adjacent(g, d, c)
  {
    var b: nat :| Feeds(g, lit, c, b);
    var l :| l in g.links && l.switch == b && l.node in lit;
    assert l == Link(l.node, b);
    d := l.node;
  }

  lemma AdjacentFeeds(g: Grid, lit: set<nat>, c: nat, d: nat)
    requires c in lit && Adjacent(g, c, d)
    ensures exists b: nat :: Feeds(g, lit, d, b)
  {
    var b: nat :| Closed(g, b) && Link(c, b) in g.links && Link(d, b) in g.links;
    assert Link(c, b).node in lit && Link(c, b).switch == b;
    assert Feeds(g, lit, d, b);
  }

  // ---- Calm rounds

  lemma FedTwiceIsRough(g: Grid, s: Loop, k: set<nat>, top: seq<int>, x: Spread, a: Loop, t: nat)
    requires Shows(g, s, k, top, x, a) && t !in x.lit && FedTwice(g, x.Glow(), t)
    ensures !Calm(g, a)
  {
    var b: nat, d: nat :| b != d && Feeds(g, x.Glow(), t, b) && Feeds(g, x.Glow(), t, d);
    FeedsHot(g, s, k, top, x, a, t, b);
    FeedsHot(g, s, k, top, x, a, t, d);
    assert Link(t, b) != Link(t, d);
  }

  lemma RoughIsFedTwice(g: Grid, s: Loop, k: set<nat>, top: seq<int>, x: Spread, a: Loop) returns (t: nat)
    requires Shows(g, s, k, top, x, a) && !Calm(g, a)
    ensures t !in x.lit && FedTwice(g, x.Glow(), t)
  {
    var l, j := RoughPair(g, a);
    t := l.node;
    HotFeeds(g, s, k, top, x, a, l);
    HotFeeds(g, s, k, top, x, a, j);
    assert l == Link(t, l.switch) && j == Link(t, j.switch);
  }

  lemma RoughPair(g: Grid, a: Loop) returns (l: Link, j: Link)
    requires Shaped(g, a) && !Calm(g, a)
    ensures l != j && l.node == j.node && l in Tasks(g, a.frontier) && j in Tasks(g, a.frontier)
    ensures Hot(Lifted(g, a), a.cn, l) && Hot(Lifted(g, a), a.cn, j)
  {
    var bd, tasks := Lifted(g, a), Tasks(g, a.frontier);
    l, j :| l in tasks && j in tasks && l.node == j.node && Hot(bd, a.cn, l) && Hot(bd, a.cn, j) && l != j;
  }

  lemma NextLoops(g: Grid, s: Loop, k: set<nat>, top: seq<int>, i: nat)
    requires Tiered(g, k, top, s)
    ensures Looping(SyncRounds(g, s, i + 1)) <==> Goes(g, SpreadOut(g, Source(s), i))
  {
    var x, a := SpreadOut(g, Source(s), i), SyncRounds(g, s, i);
    RoundsShow(g, s, k, top, i, x, a);
    LevelIffStill(g, s, k, top, x, a);
    SyncGrounded(g, a);
  }

  lemma ReachesIffGoes(g: Grid, s: Loop, k: set<nat>, top: seq<int>, n: nat)
    requires Tiered(g, k, top, s) && Looping(s)
    ensures Reaches(g, s, n) <==> GoesBefore(g, Source(s), n)
  {
    forall i: nat | i < n ensures Looping(SyncRounds(g, s, i + 1)) <==> Goes(g, SpreadOut(g, Source(s), i)) {
      NextLoops(g, s, k, top, i);
    }
    if GoesBefore(g, Source(s), n) {
      forall i: nat | i <= n ensures Looping(SyncRounds(g, s, i)) {
        if i > 0 {
          assert Goes(g, SpreadOut(g, Source(s), i - 1));
          NextLoops(g, s, k, top, i - 1);
        }
      }
    }
  }

  lemma CalmIffFed(g: Grid, s: Loop, k: set<nat>, top: seq<int>, n: nat)
    requires Tiered(g, k, top, s)
    ensures Calm(g, SyncRounds(g, s, n)) <==> NoneFedTwice(g, SpreadOut(g, Source(s), n))
  {
    var x, a := SpreadOut(g, Source(s), n), SyncRounds(g, s, n);
    RoundsShow(g, s, k, top, n, x, a);
    if !Calm(g, a) {
      var t := RoughIsFedTwice(g, s, k, top, x, a);
    }
    if t :| t !in x.lit && FedTwice(g, x.Glow(), t) {
      FedTwiceIsRough(g, s, k, top, x, a, t);
    }
  }

  /** The rounds of the synchronous loop are calm exactly when grid, labels and frontier are single-fed. */
  lemma CalmIffSingleFed(g: Grid, s: Loop)
    requires Poised(g, s) && AllSettle(g, s)
    ensures AlwaysCalm(g, s) <==> SingleFed(g, s)
  {
    var top := GroundedTiered(g, s);
    var k := IslandsOf(g, s.frontier);
    forall n: nat ensures (Reaches(g, s, n) ==> Calm(g, SyncRounds(g, s, n))) <==> SingleFedAt(g, s, n) {
      ReachesIffGoes(g, s, k, top, n);
      CalmIffFed(g, s, k, top, n);
    }
  }

  /** Every grid, every frontier, all labels that settle under fused reads: with separate reads every run
      exits, or some run gets where none exits any more, and the spread of the labels decides which. */
  lemma SingleFedIffExits(g: Grid, s: Loop)
    requires Poised(g, s) && AllSettle(g, s)
    ensures SingleFed(g, s) <==> EndsWithin(g, s, 3 * g.cns)
    ensures Isolated(g, s.frontier) ==> (SingleFed(g, s) <==> EndsWithin(g, s, 2 * g.cns))
    ensures TwoValued(g, s) ==> (SingleFed(g, s) <==> EndsWithin(g, s, g.cns))
    ensures SingleFed(g, s) <==> !exists prefix :: Doomed(g, s, prefix)
  {
    CalmIffSingleFed(g, s);
    CalmOrDoomed(g, s);
  }

  // ---- The spread stops after 3 * cns + 1 steps

  function Size(x: Spread): nat { |x.front| + |x.lit| + |x.warm| }

  ghost predicate Inside(g: Grid, x: Spread) {
    forall c :: c in x.front || c in x.lit || c in x.warm ==> c < g.cns
  }

  /** Every node of the frontier stays in it. */
  predicate Alive(g: Grid, x: Spread) { x.front <= Beside(g, x.front) }

  lemma AliveNext(g: Grid, x: Spread)
    requires Wired(g)
    ensures Alive(g, Grow(g, x))
  {
    forall t | t in Beside(g, x.front) ensures t in Beside(g, Beside(g, x.front)) {
      BesideIff(g, x.front, t);
      var b: nat :| Feeds(g, x.front, t, b);
      assert Link(t, b).node in Beside(g, x.front) && Link(t, b).switch == b;
      assert Feeds(g, Beside(g, x.front), t, b);
      BesideIff(g, Beside(g, x.front), t);
    }
  }

  lemma GrowSize(g: Grid, x: Spread)
    requires Inside(g, x) && Alive(g, x)
    ensures Inside(g, Grow(g, x)) && (Grow(g, x) == x || Size(Grow(g, x)) > Size(x))
  {
    LargerSize(x, Grow(g, x));
  }

  lemma LargerSize(x: Spread, y: Spread)
    requires x.front <= y.front && x.lit <= y.lit && x.warm <= y.warm
    ensures y == x || Size(y) > Size(x)
  {
    StrictSubset(x.front, y.front);
    StrictSubset(x.lit, y.lit);
    StrictSubset(x.warm, y.warm);
  }

  ghost predicate StopsAt(g: Grid, x: Spread, i: nat) { Grow(g, SpreadOut(g, x, i)) == SpreadOut(g, x, i) }

  /** After n + 1 steps the spread has stopped or holds at least n entries. */
  ghost predicate Climbs(g: Grid, x: Spread, n: nat) {
    var y := SpreadOut(g, x, n + 1);
    Inside(g, y) && Alive(g, y) && ((exists i: nat :: i <= n && StopsAt(g, x, i)) || Size(y) >= n)
  }

  lemma ClimbsFirst(g: Grid, x: Spread)
    requires Wired(g) && Inside(g, x)
    ensures Climbs(g, x, 0)
  {
    SpreadNext(g, x, 0);
    AliveNext(g, x);
  }

  lemma ClimbsOn(g: Grid, x: Spread, n: nat)
    requires Wired(g) && Climbs(g, x, n)
    ensures Climbs(g, x, n + 1)
  {
    var y := SpreadOut(g, x, n + 1);
    SpreadNext(g, x, n + 1);
    GrowSize(g, y);
    AliveNext(g, y);
    if i: nat :| i <= n && StopsAt(g, x, i) {
      assert i <= n + 1 && StopsAt(g, x, i);
    } else if Grow(g, y) == y {
      assert n + 1 <= n + 1 && StopsAt(g, x, n + 1);
    }
  }

  lemma SpreadClimbs(g: Grid, x: Spread, n: nat)
    requires Wired(g) && Inside(g, x)
    ensures Climbs(g, x, n)
  {
    ClimbsFirst(g, x);
    forall m: nat | Climbs(g, x, m) ensures Climbs(g, x, m + 1) {
      ClimbsOn(g, x, m);
    }
    Upward((m: nat) => Climbs(g, x, m), n);
  }

  lemma {:induction false} Upward(p: nat -> bool, n: nat)
    requires p(0) && forall m: nat | p(m) :: p(m + 1)
    ensures p(n)
  {
    if n > 0 {
      Upward(p, n - 1);
    }
  }

  lemma SpreadStops(g: Grid, x: Spread, n: nat, m: nat)
    requires n <= m && StopsAt(g, x, n)
    ensures SpreadOut(g, x, m) == SpreadOut(g, x, n)
  {
    FixedPoint(y => Grow(g, y), x, n, m);
  }

  /** So the condition asks about finitely many steps. */
  lemma SingleFedBounded(g: Grid, s: Loop)
    requires Grounded(g, s)
    ensures SingleFed(g, s) <==> forall n: nat :: n <= 3 * g.cns + 1 ==> SingleFedAt(g, s, n)
  {
    var x, most := Source(s), 3 * g.cns + 1;
    SpreadClimbs(g, x, most);
    var y := SpreadOut(g, x, most + 1);
    BelowSize(y.front, g.cns);
    BelowSize(y.lit, g.cns);
    BelowSize(y.warm, g.cns);
    var i: nat :| i <= most && StopsAt(g, x, i);
    forall n: nat | n > most ensures SingleFedAt(g, s, i) ==> SingleFedAt(g, s, n) {
      SpreadStops(g, x, i, n);
    }
  }

  // ---- Labels 0 and M with fused reads: when the loop exits, and with which labels

  ghost predicate Plain(k: set<nat>, top: seq<int>, a: Loop) {
    forall c :: c in k && c < |top| && c < |a.cn| ==> top[c] == -1 || a.cn[c] >= 0
  }

  lemma FusedNode(g: Grid, s: Loop, k: set<nat>, top: seq<int>, x: Spread, a: Loop, sched: seq<Link>, t: nat)
    requires Shows(g, s, k, top, x, a) && Tiered(g, k, top, a) && Plain(k, top, a) && t in k
    requires Complete(Raced(g, a, sched)) && Fused(Lifted(g, a), Begin(a.cn, Tasks(g, a.frontier)), sched)
    ensures |Round(g, a, sched).cn| == g.cns && Round(g, a, sched).cn[t] == Shown(Grow(g, x), top[t], t)
  {
    RoundShaped(g, a, sched);
    NodeTier(g, k, top, a, sched, t);
    BesideIff(g, x.Glow(), t);
    if t !in x.lit && t in Beside(g, x.Glow()) {
      var b: nat :| Feeds(g, x.Glow(), t, b);
      FeedsHot(g, s, k, top, x, a, t, b);
      HotRises(g, a, sched, Link(t, b));
    } else if t !in x.lit {
      forall l | l in Tasks(g, a.frontier) && l.node == t ensures Lifted(g, a)[l.switch] <= Max(a.cn[t], 0) {
        if Hot(Lifted(g, a), a.cn, l) {
          HotFeeds(g, s, k, top, x, a, l);
        }
      }
      UnseededStill(g, k, top, a, t);
      Unmoved(g, a, sched, t);
    }
  }

  lemma UnseededStill(g: Grid, k: set<nat>, top: seq<int>, a: Loop, t: nat)
    requires Tiered(g, k, top, a) && Plain(k, top, a) && t in k
    ensures a.cn[t] < 0 ==> forall l :: l in Tasks(g, a.frontier) && l.node == t ==> Lifted(g, a)[l.switch] <= a.cn[t]
  {
    forall l | a.cn[t] < 0 && l in Tasks(g, a.frontier) && l.node == t ensures Lifted(g, a)[l.switch] <= a.cn[t] {
      LiftedTier(g, k, top, a, l);
    }
  }

  lemma FusedRoundShows(g: Grid, s: Loop, k: set<nat>, top: seq<int>, x: Spread, a: Loop, sched: seq<Link>)
    requires Shows(g, s, k, top, x, a) && Tiered(g, k, top, a) && Plain(k, top, a)
    requires Complete(Raced(g, a, sched)) && Fused(Lifted(g, a), Begin(a.cn, Tasks(g, a.frontier)), sched)
    ensures Shows(g, s, k, top, Grow(g, x), Round(g, a, sched))
    ensures Looping(Round(g, a, sched)) <==> Goes(g, x)
  {
    RoundGrounded(g, a, sched);
    FrontGrows(g, x.front);
    FrontierStays(g, a, sched, k);
    forall c | c in k
      ensures Round(g, a, sched).cn[c] == Shown(Grow(g, x), top[c], c) && (c in Grow(g, x).lit ==> top[c] > 0)
    {
      FusedNode(g, s, k, top, x, a, sched, c);
      NodeGrows(g, s, k, top, x, a, c);
    }
    ExitIff(g, a, sched);
    LevelIffStill(g, s, k, top, x, a);
  }

  lemma {:induction false} FusedRunShows(g: Grid, s: Loop, k: set<nat>, top: seq<int>, scheds: seq<seq<Link>>)
    requires Tiered(g, k, top, s) && Plain(k, top, s) && IsRun(g, s, scheds) && FusedRun(g, s, scheds)
    ensures Shows(g, s, k, top, SpreadOut(g, Source(s), |scheds|), Rounds(g, s, scheds))
    ensures |scheds| > 0 ==> (Looping(Rounds(g, s, scheds)) <==> Goes(g, SpreadOut(g, Source(s), |scheds| - 1)))
  {
    if scheds == [] {
      SpreadNext(g, Source(s), 0);
      StartShows(g, s, k, top);
    } else {
      var prefix := scheds[..|scheds| - 1];
      FusedRunShows(g, s, k, top, prefix);
      PlainRunsDown(g, k, top, s, prefix);
      SpreadNext(g, Source(s), |prefix|);
      FusedRoundShows(g, s, k, top, SpreadOut(g, Source(s), |prefix|), Rounds(g, s, prefix), scheds[|prefix|]);
    }
  }

  /** The island of `c` carries two labels. */
  ghost predicate TwoLabels(g: Grid, cn: seq<int>, c: nat) {
    exists d, e :: d in IslandOf(g, c) && e in IslandOf(g, c) && d < |cn| && e < |cn| && cn[d] != cn[e]
  }

  ghost predicate PartlyLit(g: Grid, lit: set<nat>, c: nat) {
    exists d, e :: d in IslandOf(g, c) && e in IslandOf(g, c) && d in lit && e !in lit
  }

  /** Labels 0 and M, any frontier, fused reads. The loop exits with the first step in which the spread
      stands still. Then an island is left with two labels exactly when it is partly lit. */
  lemma ExitsWhenStill(g: Grid, s: Loop, scheds: seq<seq<Link>>, c: nat)
    requires Poised(g, s) && TwoValued(g, s) && IsRun(g, s, scheds) && FusedRun(g, s, scheds)
    requires |scheds| > 0 && c in s.frontier
    ensures Looping(Rounds(g, s, scheds)) <==> Goes(g, SpreadOut(g, Source(s), |scheds| - 1))
    ensures TwoLabels(g, Rounds(g, s, scheds).cn, c) <==> PartlyLit(g, SpreadOut(g, Source(s), |scheds|).lit, c)
  {
    FusedPictured(g, s, scheds);
    PicturedIff(g, s, SpreadOut(g, Source(s), |scheds|), Rounds(g, s, scheds), c);
  }

  /** `a` shows the spread `x` on the islands that the frontier touches. */
  ghost predicate Pictured(g: Grid, s: Loop, x: Spread, a: Loop) {
    exists top :: PicturedBy(g, s, top, x, a)
  }

  ghost predicate PicturedBy(g: Grid, s: Loop, top: seq<int>, x: Spread, a: Loop) {
    var k := IslandsOf(g, s.frontier);
    Shows(g, s, k, top, x, a) && Tiered(g, k, top, a) && Plain(k, top, a) && forall c :: c in s.frontier ==> OneTop(g, top, c)
  }

  lemma FusedPictured(g: Grid, s: Loop, scheds: seq<seq<Link>>)
    requires Poised(g, s) && TwoValued(g, s) && IsRun(g, s, scheds) && FusedRun(g, s, scheds)
    ensures Pictured(g, s, SpreadOut(g, Source(s), |scheds|), Rounds(g, s, scheds))
    ensures |scheds| > 0 ==> (Looping(Rounds(g, s, scheds)) <==> Goes(g, SpreadOut(g, Source(s), |scheds| - 1)))
  {
    var top := PlainTiered(g, s);
    var k := IslandsOf(g, s.frontier);
    FusedRunShows(g, s, k, top, scheds);
    PlainRunsDown(g, k, top, s, scheds);
    forall c | c in s.frontier ensures OneTop(g, top, c) {
      TopOnIsland(g, s, top, c);
    }
    assert PicturedBy(g, s, top, SpreadOut(g, Source(s), |scheds|), Rounds(g, s, scheds));
  }

  lemma PicturedIff(g: Grid, s: Loop, x: Spread, a: Loop, c: nat)
    requires Pictured(g, s, x, a) && c in s.frontier
    ensures TwoLabels(g, a.cn, c) <==> PartlyLit(g, x.lit, c)
  {
    var top :| PicturedBy(g, s, top, x, a);
    forall d | d in IslandOf(g, c) ensures d in IslandsOf(g, s.frontier) {
      assert Homed(g, s.frontier, d);
    }
    PartlyLitIff(g, s, IslandsOf(g, s.frontier), top, x, a, c);
  }

  lemma PlainTiered(g: Grid, s: Loop) returns (top: seq<int>)
    requires Grounded(g, s) && TwoValued(g, s)
    ensures Tiered(g, IslandsOf(g, s.frontier), top, s) && Plain(IslandsOf(g, s.frontier), top, s)
    ensures forall c: nat :: c < g.cns ==> IsTop(g, s.cn, c, top[c])
  {
    TwoValuedSettles(g, s);
    top := GroundedTiered(g, s);
    forall d | d in IslandsOf(g, s.frontier) ensures top[d] == -1 || s.cn[d] >= 0 {
      HomeTwoValued(g, s, top, d);
    }
  }

  ghost predicate OneTop(g: Grid, top: seq<int>, c: nat) {
    forall d, e :: d in IslandOf(g, c) && e in IslandOf(g, c) && d < |top| && e < |top| ==> top[d] == top[e]
  }

  lemma TopOnIsland(g: Grid, s: Loop, top: seq<int>, c: nat)
    requires |top| == g.cns == |s.cn| && c in s.frontier
    requires forall c: nat :: c < g.cns ==> IsTop(g, s.cn, c, top[c])
    ensures OneTop(g, top, c)
  {
    forall d, e | d in IslandOf(g, c) && e in IslandOf(g, c) ensures top[d] == top[e] {
      SameIslandTop(g, s.cn, top, c, d, e);
    }
  }

  lemma SameIslandTop(g: Grid, cn: seq<int>, top: seq<int>, c: nat, d: nat, e: nat)
    requires d in IslandOf(g, c) && e in IslandOf(g, c) && |top| == g.cns == |cn|
    requires forall f: nat :: f < g.cns ==> IsTop(g, cn, f, top[f])
    ensures top[d] == top[e]
  {
    JoinedSymmetric(g, c, d);
    JoinedTransitive(g, d, c, e);
    assert IsTop(g, cn, d, top[d]) && IsTop(g, cn, e, top[e]);
    TopShared(g, cn, d, e, top[d], top[e]);
  }

  lemma PartlyLitIff(g: Grid, s: Loop, k: set<nat>, top: seq<int>, x: Spread, a: Loop, c: nat)
    requires Shows(g, s, k, top, x, a) && Tiered(g, k, top, a) && Plain(k, top, a) && IslandOf(g, c) <= k
    requires OneTop(g, top, c)
    ensures TwoLabels(g, a.cn, c) <==> PartlyLit(g, x.lit, c)
  {
    forall d, e | d in IslandOf(g, c) && e in IslandOf(g, c)
      ensures a.cn[d] != a.cn[e] <==> (d in x.lit) != (e in x.lit)
    {
      ShownDiffer(g, s, k, top, x, a, d, e);
    }
  }

  lemma ShownDiffer(g: Grid, s: Loop, k: set<nat>, top: seq<int>, x: Spread, a: Loop, d: nat, e: nat)
    requires Shows(g, s, k, top, x, a) && Tiered(g, k, top, a) && Plain(k, top, a) && d in k && e in k && top[d] == top[e]
    ensures a.cn[d] != a.cn[e] <==> (d in x.lit) != (e in x.lit)
  {
    assert a.cn[d] == Shown(x, top[d], d) && a.cn[e] == Shown(x, top[e], e);
    assert Tier(top[d], a.cn[d]) && Tier(top[e], a.cn[e]);
  }

  // ---- Labels 0 and M from a frontier of whole islands: distance

  /** At most `n` steps over closed switches away from a frontier node with a positive label. */
  ghost predicate Within(g: Grid, s: Loop, c: nat, n: nat) {
    exists p :: Path(g, p) && |p| <= n + 1 && p[0] in Source(s).Glow() && p[|p| - 1] == c
  }

  ghost predicate AtDistance(g: Grid, s: Loop, c: nat, d: nat) {
    Within(g, s, c, d) && (d > 0 ==> !Within(g, s, c, d - 1))
  }

  /** A closed switch between `t` and a node at distance `d`. */
  ghost predicate LeadsTo(g: Grid, s: Loop, d: nat, b: nat, t: nat) {
    Closed(g, b) && Link(t, b) in g.links && exists c: nat :: Link(c, b) in g.links && AtDistance(g, s, c, d)
  }

  /** No node at distance d + 1 is next to two closed switches that touch nodes at distance d. */
  ghost predicate OneWayIn(g: Grid, s: Loop) {
    forall d: nat, t: nat, b: nat, e: nat ::
      LeadsTo(g, s, d, b, t) && LeadsTo(g, s, d, e, t) && AtDistance(g, s, t, d + 1) ==> b == e
  }

  lemma OneMore(g: Grid, q: seq<nat>, c: nat) returns (p: seq<nat>)
    requires Path(g, q) && Adjacent(g, q[|q| - 1], c)
    ensures Path(g, p) && |p| == |q| + 1 && p[0] == q[0] && p[|p| - 1] == c
  {
    var last := q[|q| - 1];
    assert Path(g, [last, c]);
    PathsMeet(g, q, [last, c]);
    p := q + [last, c][1..];
  }

  lemma OneFurther(g: Grid, s: Loop, c: nat, t: nat, n: nat)
    requires Within(g, s, c, n) && Adjacent(g, c, t)
    ensures Within(g, s, t, n + 1)
  {
    var p :| Path(g, p) && |p| <= n + 1 && p[0] in Source(s).Glow() && p[|p| - 1] == c;
    var longer := OneMore(g, p, t);
  }

  lemma StillWithin(g: Grid, s: Loop, c: nat, n: nat)
    requires Within(g, s, c, n)
    ensures Within(g, s, c, n + 1)
  {
    var p :| Path(g, p) && |p| <= n + 1 && p[0] in Source(s).Glow() && p[|p| - 1] == c;
  }

  /** A node within n + 1 steps is within n, or next to one that is. */
  lemma OneNearer(g: Grid, s: Loop, c: nat, n: nat) returns (d: nat)
    requires Within(g, s, c, n + 1)
    ensures Within(g, s, c, n) || (Within(g, s, d, n) && Adjacent(g, d, c))
  {
    var p :| Path(g, p) && |p| <= n + 2 && p[0] in Source(s).Glow() && p[|p| - 1] == c;
    d := c;
    if |p| > n + 1 {
      d := p[|p| - 2];
      assert Path(g, p[..|p| - 1]);
      assert Adjacent(g, p[|p| - 2], p[|p| - 2 + 1]);
    }
  }

  lemma WithinFrontier(g: Grid, s: Loop, t: nat, n: nat)
    requires Isolated(g, s.frontier) && Within(g, s, t, n)
    ensures t in s.frontier
  {
    var p :| Path(g, p) && |p| <= n + 1 && p[0] in Source(s).Glow() && p[|p| - 1] == t;
    PathStays(g, p, s.frontier);
  }

  /** The spread from a frontier of whole islands: the frontier stays, up to nodes without a closed switch. */
  ghost predicate Whole(g: Grid, s: Loop, x: Spread) {
    && x.front <= s.frontier && Source(s).warm <= x.warm
    && forall c :: c in s.frontier && HasClosed(g, c) ==> c in x.front
  }

  lemma WholeNext(g: Grid, s: Loop, x: Spread)
    requires Wired(g) && Isolated(g, s.frontier) && Whole(g, s, x)
    ensures Whole(g, s, Grow(g, x))
  {
    forall c | c in s.frontier && HasClosed(g, c) ensures c in Beside(g, x.front) {
      var l :| l in g.links && l.node == c && Closed(g, l.switch);
      assert l == Link(c, l.switch);
      assert Feeds(g, x.front, c, l.switch);
      BesideIff(g, x.front, c);
    }
    forall c | c in Beside(g, x.front) ensures c in s.frontier {
      var d := BesideFrom(g, x.front, c);
    }
  }

  lemma {:induction false} StaysWhole(g: Grid, s: Loop, n: nat)
    requires Wired(g) && Isolated(g, s.frontier)
    ensures Whole(g, s, SpreadOut(g, Source(s), n))
  {
    SpreadNext(g, Source(s), if n == 0 then 0 else n - 1);
    if n > 0 {
      StaysWhole(g, s, n - 1);
      WholeNext(g, s, SpreadOut(g, Source(s), n - 1));
    }
  }

  /** Every node within reach of a positive label is seeded. */
  ghost predicate SeededAround(g: Grid, s: Loop) {
    forall c, n: nat :: Within(g, s, c, n) ==> c in Source(s).warm
  }

  lemma TwoValuedSeeded(g: Grid, s: Loop)
    requires Grounded(g, s) && TwoValued(g, s) && Isolated(g, s.frontier)
    ensures SeededAround(g, s)
  {
    forall c, n: nat | Within(g, s, c, n) ensures c in Source(s).warm {
      var p :| Path(g, p) && |p| <= n + 1 && p[0] in Source(s).Glow() && p[|p| - 1] == c;
      assert PathFrom(g, p, p[0], c);
      WithinFrontier(g, s, c, n);
      IslandOfIsIsland(g, p[0]);
      assert c in IslandOf(g, p[0]) && TwoValuedIsland(IslandOf(g, p[0]), s.cn);
    }
  }

  /** The lit frontier nodes are those within `n`. */
  ghost predicate Ball(g: Grid, s: Loop, x: Spread, n: nat) {
    forall c :: c in s.frontier ==> (c in x.lit <==> Within(g, s, c, n))
  }

  lemma BallNext(g: Grid, s: Loop, x: Spread, n: nat)
    requires Wired(g) && Isolated(g, s.frontier) && SeededAround(g, s) && Whole(g, s, x) && Ball(g, s, x, n)
    ensures Ball(g, s, Grow(g, x), n + 1)
  {
    forall c | c in s.frontier ensures c in Grow(g, x).lit <==> Within(g, s, c, n + 1) {
      if c in x.lit {
        StillWithin(g, s, c, n);
      } else if c in Grow(g, x).lit {
        var d := BesideFrom(g, x.Glow(), c);
        OneFurther(g, s, d, c, n);
      }
      if Within(g, s, c, n + 1) && c !in x.lit {
        var d := OneNearer(g, s, c, n);
        EntersBall(g, s, x, n, d, c);
      }
    }
  }

  lemma EntersBall(g: Grid, s: Loop, x: Spread, n: nat, d: nat, c: nat)
    requires Wired(g) && Isolated(g, s.frontier) && SeededAround(g, s) && Whole(g, s, x) && Ball(g, s, x, n)
    requires Within(g, s, d, n) && Adjacent(g, d, c) && Within(g, s, c, n + 1)
    ensures c in Beside(g, x.Glow()) && c in x.warm
  {
    WithinFrontier(g, s, d, n);
    var b: nat :| Closed(g, b) && Link(d, b) in g.links && Link(c, b) in g.links;
    assert HasClosed(g, d) by { assert Link(d, b).node == d && Link(d, b).switch == b; }
    AdjacentFeeds(g, x.Glow(), d, c);
    BesideIff(g, x.Glow(), c);
  }

  /** On labels 0 and M, from whole islands, the lit nodes after n steps are the ball of radius n around
      the nodes with a positive label. */
  lemma LitIsBall(g: Grid, s: Loop, n: nat)
    requires Wired(g) && Isolated(g, s.frontier) && SeededAround(g, s)
    ensures BallAt(g, s, n)
  {
    SpreadNext(g, Source(s), 0);
    BallStart(g, s);
    forall m: nat | BallAt(g, s, m) ensures BallAt(g, s, m + 1) {
      StaysWhole(g, s, m);
      BallNext(g, s, SpreadOut(g, Source(s), m), m);
      SpreadNext(g, Source(s), m);
    }
    Upward((m: nat) => BallAt(g, s, m), n);
  }

  ghost predicate BallAt(g: Grid, s: Loop, n: nat) { Ball(g, s, SpreadOut(g, Source(s), n), n) }

  lemma BallStart(g: Grid, s: Loop)
    ensures Ball(g, s, Source(s), 0)
  {
    forall c | c in s.frontier && c in Source(s).lit ensures Within(g, s, c, 0) {
      assert Path(g, [c]);
    }
  }

  /** For a node outside the ball, a switch that touches the ball touches its edge. */
  lemma FeedsIffLeads(g: Grid, s: Loop, x: Spread, n: nat, b: nat, t: nat)
    requires Wired(g) && Isolated(g, s.frontier) && Whole(g, s, x) && Ball(g, s, x, n) && t !in x.lit
    ensures Feeds(g, x.Glow(), t, b) <==> LeadsTo(g, s, n, b, t)
    ensures LeadsTo(g, s, n, b, t) ==> AtDistance(g, s, t, n + 1)
  {
    if Feeds(g, x.Glow(), t, b) {
      var l :| l in g.links && l.switch == b && l.node in x.Glow();
      assert l == Link(l.node, b);
      assert Adjacent(g, l.node, t);
      if n > 0 && Within(g, s, l.node, n - 1) {
        OneFurther(g, s, l.node, t, n - 1);
      }
      assert AtDistance(g, s, l.node, n);
    }
    if LeadsTo(g, s, n, b, t) {
      var c: nat :| Link(c, b) in g.links && AtDistance(g, s, c, n);
      WithinFrontier(g, s, c, n);
      assert HasClosed(g, c) by { assert Link(c, b).node == c && Link(c, b).switch == b; }
      assert Link(c, b).node in x.Glow() && Link(c, b).switch == b;
      assert Adjacent(g, c, t);
      OneFurther(g, s, c, t, n);
    }
  }

  /** A node further out: at every smaller distance the ball still grows. */
  lemma {:induction false} GoesUpTo(g: Grid, s: Loop, t: nat, d: nat, i: nat)
    requires Wired(g) && Isolated(g, s.frontier) && SeededAround(g, s)
    requires Within(g, s, t, d) && !Within(g, s, t, i) && i < d
    ensures Goes(g, SpreadOut(g, Source(s), i))
    decreases d
  {
    var c := OneNearer(g, s, t, d - 1);
    if d - 1 == i {
      var x := SpreadOut(g, Source(s), i);
      StaysWhole(g, s, i);
      LitIsBall(g, s, i);
      WithinFrontier(g, s, t, d);
      EntersBall(g, s, x, i, c, t);
    } else if Within(g, s, t, d - 1) {
      GoesUpTo(g, s, t, d - 1, i);
    } else {
      StaysOutside(g, s, c, t, i, d - 1);
      GoesUpTo(g, s, c, d - 1, i);
    }
  }

  lemma StaysOutside(g: Grid, s: Loop, c: nat, t: nat, i: nat, n: nat)
    requires Adjacent(g, c, t) && i < n && !Within(g, s, t, n)
    ensures !Within(g, s, c, i)
  {
    OutsideBefore(g, s, t, n, i + 1);
    if Within(g, s, c, i) {
      OneFurther(g, s, c, t, i);
    }
  }

  lemma {:induction false} OutsideBefore(g: Grid, s: Loop, t: nat, n: nat, i: nat)
    requires !Within(g, s, t, n) && i <= n
    ensures !Within(g, s, t, i)
    decreases n - i
  {
    if i < n {
      OutsideBefore(g, s, t, n, i + 1);
      if Within(g, s, t, i) {
        StillWithin(g, s, t, i);
      }
    }
  }

  lemma SingleFedIffOneWayIn(g: Grid, s: Loop)
    requires Grounded(g, s) && TwoValued(g, s) && Isolated(g, s.frontier)
    ensures SingleFed(g, s) <==> OneWayIn(g, s)
  {
    TwoValuedSeeded(g, s);
    if d: nat, t: nat, b: nat, e: nat :| LeadsTo(g, s, d, b, t) && LeadsTo(g, s, d, e, t) && AtDistance(g, s, t, d + 1) && b != e {
      TwoWaysIn(g, s, d, t, b, e);
    }
    if n: nat :| !SingleFedAt(g, s, n) {
      FedFromTwoWays(g, s, n);
    }
  }

  lemma FedFromTwoWays(g: Grid, s: Loop, n: nat)
    requires Wired(g) && Shaped(g, s) && Isolated(g, s.frontier) && SeededAround(g, s) && !SingleFedAt(g, s, n)
    ensures !OneWayIn(g, s)
  {
    var x := SpreadOut(g, Source(s), n);
    StaysWhole(g, s, n);
    LitIsBall(g, s, n);
    var t :| t !in x.lit && FedTwice(g, x.Glow(), t);
    var b: nat, e: nat :| b != e && Feeds(g, x.Glow(), t, b) && Feeds(g, x.Glow(), t, e);
    FeedsIffLeads(g, s, x, n, b, t);
    FeedsIffLeads(g, s, x, n, e, t);
  }

  lemma TwoWaysIn(g: Grid, s: Loop, d: nat, t: nat, b: nat, e: nat)
    requires Wired(g) && Shaped(g, s) && Isolated(g, s.frontier) && SeededAround(g, s) && b != e
    requires LeadsTo(g, s, d, b, t) && LeadsTo(g, s, d, e, t) && AtDistance(g, s, t, d + 1)
    ensures !SingleFedAt(g, s, d)
  {
    var x := SpreadOut(g, Source(s), d);
    StaysWhole(g, s, d);
    LitIsBall(g, s, d);
    WithinFrontier(g, s, t, d + 1);
    FeedsIffLeads(g, s, x, d, b, t);
    FeedsIffLeads(g, s, x, d, e, t);
    assert FedTwice(g, x.Glow(), t);
    StillGoes(g, s, t, d);
  }

  lemma StillGoes(g: Grid, s: Loop, t: nat, d: nat)
    requires Wired(g) && Shaped(g, s) && Isolated(g, s.frontier) && SeededAround(g, s) && AtDistance(g, s, t, d + 1)
    ensures GoesBefore(g, Source(s), d)
  {
    forall i: nat | i < d ensures Goes(g, SpreadOut(g, Source(s), i)) {
      OutsideBefore(g, s, t, d, i);
      GoesUpTo(g, s, t, d + 1, i);
    }
  }

  /** Labels 0 and M on each island, or none seeded, and any frontier: with separate reads every schedule
      exits within cns + 1 rounds exactly when grid, labels and frontier are single-fed; otherwise some
      run gets where none exits any more. From a frontier of whole islands this says that no node at a
      distance d > 0 from the nodes labelled M is next to two closed switches that touch nodes at
      distance d - 1. */
  lemma ExitsAlwaysIff(g: Grid, s: Loop)
    requires Poised(g, s) && TwoValued(g, s)
    ensures SingleFed(g, s) <==> EndsWithin(g, s, g.cns)
    ensures SingleFed(g, s) <==> !exists prefix :: Doomed(g, s, prefix)
    ensures Isolated(g, s.frontier) ==> (SingleFed(g, s) <==> OneWayIn(g, s))
  {
    TwoValuedSettles(g, s);
    CalmIffSingleFed(g, s);
    CalmOrDoomed(g, s);
    if Isolated(g, s.frontier) {
      SingleFedIffOneWayIn(g, s);
    }
  }

  /** On a grid of any size: two closed switches from positive frontier labels to a node without one are
      enough to doom some run. */
  lemma ParallelSwitchesDoom(g: Grid, s: Loop, t: nat, b: nat, d: nat)
    requires Poised(g, s) && AllSettle(g, s) && t < g.cns && s.cn[t] <= 0 && b != d
    requires Feeds(g, Source(s).Glow(), t, b) && Feeds(g, Source(s).Glow(), t, d)
    ensures exists prefix :: Doomed(g, s, prefix)
  {
    SpreadNext(g, Source(s), 0);
    assert FedTwice(g, Source(s).Glow(), t);
    assert !SingleFedAt(g, s, 0);
    SingleFedIffExits(g, s);
  }
}
