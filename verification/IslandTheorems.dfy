/** The exit theorem in terms of the labels a run starts with, and what the data race does to it. */
module IslandTheorems {
  import opened Race
  import opened Islands
  import opened IslandExit

  /** As the loop starts: counters 0 and 1, switches at -1, labels seeded from -1, and any frontier. */
  ghost predicate Started(g: Grid, s: Loop) {
    && Shaped(g, s) && s.counter == 0 && s.previous == 1
    && (forall b :: 0 <= b < g.switches ==> s.bd[b] == -1)
    && (forall c :: 0 <= c < g.cns ==> s.cn[c] >= -1)
    && (forall c :: c in s.frontier ==> c < g.cns)
  }

  /** A state the loop goes on from. */
  ghost predicate Poised(g: Grid, s: Loop) { Grounded(g, s) && Looping(s) }

  lemma StartPoised(g: Grid, s: Loop)
    requires Started(g, s)
    ensures Poised(g, s)
  {
    forall b: nat | Closed(g, b) ensures GroundedAt(g, s, b) {
    }
  }

  /** Every state of a run but the last is one, too. */
  lemma RunPoised(g: Grid, s: Loop, scheds: seq<seq<Link>>)
    requires Poised(g, s) && Looping(Rounds(g, s, scheds))
    ensures Poised(g, Rounds(g, s, scheds))
  {
    RoundsGrounded(g, s, scheds);
  }

  /** The island of node `c`. */
  ghost function IslandOf(g: Grid, c: nat): set<nat> { set d: nat | d < g.cns && Joined(g, c, d) }

  /** All unseeded; or 0 and one positive label; or -1, 0 and 1 with a 1 among them. */
  ghost predicate Settles(k: set<nat>, cn: seq<int>) {
    || (forall c :: c in k && c < |cn| ==> cn[c] == -1)
    || (exists m :: m >= 0 && ZeroOr(k, cn, m))
    || (Only3(k, cn, 1) && exists c :: At(k, cn, c, 1))
  }

  ghost predicate ZeroOr(k: set<nat>, cn: seq<int>, m: int) {
    forall c :: c in k && c < |cn| ==> cn[c] == 0 || cn[c] == m
  }

  /** Nothing lies between the two conditions. */
  lemma SettlesOrHopeless(k: set<nat>, cn: seq<int>)
    requires k != {} && forall c :: c in k ==> c < |cn| && cn[c] >= -1
    ensures Settles(k, cn) <==> !Hopeless(k, cn)
  {
    var t := Highest(cn, k);
    var m := cn[t];
    assert At(k, cn, t, m);
    if !TwoPositive(k, cn) {
      forall c | c in k ensures cn[c] == -1 || cn[c] == 0 || cn[c] == m {
        assert At(k, cn, c, cn[c]);
      }
      assert Only3(k, cn, m);
      if c :| c in k && cn[c] == -1 {
        assert At(k, cn, c, -1);
        if m >= 2 {
          assert UnseededHigh(k, cn, m);
        }
      } else {
        assert ZeroOr(k, cn, m);
      }
    }
    if Hopeless(k, cn) {
      HopelessNeverSettles(k, cn);
    }
  }

  lemma HopelessNeverSettles(k: set<nat>, cn: seq<int>)
    requires Hopeless(k, cn)
    ensures !Settles(k, cn)
  {
    if TwoPositive(k, cn) {
      var c, d, v, w :| At(k, cn, c, v) && At(k, cn, d, w) && 0 < v < w;
    } else if UnseededZero(k, cn) {
      var c :| At(k, cn, c, -1);
      var d :| At(k, cn, d, 0);
    } else {
      var m :| UnseededHigh(k, cn, m);
      var c :| At(k, cn, c, -1);
      var d :| At(k, cn, d, m);
    }
  }

  // ---- Islands as sets

  lemma JoinedSelf(g: Grid, c: nat)
    ensures Joined(g, c, c)
  {
    assert PathFrom(g, [c], c, c);
  }

  lemma {:induction false} PathReversed(g: Grid, p: seq<nat>) returns (q: seq<nat>)
    requires Path(g, p)
    ensures PathFrom(g, q, p[|p| - 1], p[0])
  {
    if |p| == 1 {
      q := p;
    } else {
      var c, d := p[|p| - 2], p[|p| - 1];
      assert Adjacent(g, c, p[|p| - 2 + 1]);
      AdjacentSymmetric(g, c, d);
      assert Path(g, p[..|p| - 1]);
      var rest := PathReversed(g, p[..|p| - 1]);
      q := [d] + rest;
      forall i | 0 <= i < |q| - 1 ensures Adjacent(g, q[i], q[i + 1]) {
        if i > 0 { assert Adjacent(g, rest[i - 1], rest[i - 1 + 1]); }
      }
    }
  }

  lemma PathsMeet(g: Grid, p: seq<nat>, q: seq<nat>)
    requires Path(g, p) && Path(g, q) && p[|p| - 1] == q[0]
    ensures PathFrom(g, p + q[1..], p[0], q[|q| - 1])
  {
    var r := p + q[1..];
    forall i | 0 <= i < |r| - 1 ensures Adjacent(g, r[i], r[i + 1]) {
      if i < |p| - 1 {
        assert Adjacent(g, p[i], p[i + 1]);
      } else {
        var j := i - (|p| - 1);
        assert Adjacent(g, q[j], q[j + 1]);
      }
    }
  }

  lemma JoinedSymmetric(g: Grid, c: nat, d: nat)
    requires Joined(g, c, d)
    ensures Joined(g, d, c)
  {
    var p :| PathFrom(g, p, c, d);
    var q := PathReversed(g, p);
  }

  lemma JoinedTransitive(g: Grid, c: nat, d: nat, e: nat)
    requires Joined(g, c, d) && Joined(g, d, e)
    ensures Joined(g, c, e)
  {
    var p :| PathFrom(g, p, c, d);
    var q :| PathFrom(g, q, d, e);
    PathsMeet(g, p, q);
  }

  lemma AdjacentJoined(g: Grid, c: nat, d: nat)
    requires Adjacent(g, c, d)
    ensures Joined(g, c, d)
  {
    assert PathFrom(g, [c, d], c, d);
  }

  lemma IslandOfIsIsland(g: Grid, c: nat)
    requires Wired(g) && c < g.cns
    ensures Island(g, IslandOf(g, c)) && c in IslandOf(g, c)
  {
    JoinedSelf(g, c);
    var k := IslandOf(g, c);
    forall d: nat, e: nat | d in k && Adjacent(g, d, e) ensures e in k {
      AdjacentJoined(g, d, e);
      JoinedTransitive(g, c, d, e);
      var b: nat :| Closed(g, b) && Link(d, b) in g.links && Link(e, b) in g.links;
    }
    forall d, e | d in k && e in k ensures Joined(g, d, e) {
      JoinedSymmetric(g, c, d);
      JoinedTransitive(g, d, c, e);
    }
  }

  lemma IslandInside(g: Grid, c: nat, k: set<nat>)
    requires Isolated(g, k) && c in k
    ensures IslandOf(g, c) <= k
  {
    forall d | d in IslandOf(g, c) ensures d in k {
      var p :| PathFrom(g, p, c, d);
      PathStays(g, p, k);
    }
  }

  // ---- Divergence

  /** An island inside the frontier. */
  lemma GroundedWatched(g: Grid, s: Loop, c: nat)
    requires Grounded(g, s) && Isolated(g, s.frontier) && c in s.frontier
    ensures Watched(g, IslandOf(g, c), s) && Island(g, IslandOf(g, c))
  {
    IslandOfIsIsland(g, c);
    IslandInside(g, c, s.frontier);
    var k := IslandOf(g, c);
    forall l | l in g.links && l.node in k && Closed(g, l.switch) ensures AnchoredAt(g, s, l.switch) {
      assert GroundedAt(g, s, l.switch);
      assert Link(l.node, l.switch) in g.links && s.cn[l.node] >= -1;
    }
  }

  /** A frontier of whole islands, one of which does not settle: the loop never exits, under any schedule. */
  lemma Diverges(g: Grid, s: Loop, c: nat, scheds: seq<seq<Link>>)
    requires Poised(g, s) && Isolated(g, s.frontier)
    requires c in s.frontier && !Settles(IslandOf(g, c), s.cn) && IsRun(g, s, scheds)
    ensures Looping(Rounds(g, s, scheds))
  {
    GroundedWatched(g, s, c);
    SettlesOrHopeless(IslandOf(g, c), s.cn);
    NeverExits(g, IslandOf(g, c), s, scheds);
  }

  // ---- Termination

  /** The highest label on the node's island. */
  ghost predicate IsTop(g: Grid, cn: seq<int>, c: nat, v: int) {
    && (exists d :: d in IslandOf(g, c) && d < |cn| && cn[d] == v)
    && forall d :: d in IslandOf(g, c) && d < |cn| ==> cn[d] <= v
  }

  lemma {:induction false} Tops(g: Grid, cn: seq<int>, n: nat) returns (top: seq<int>)
    requires Wired(g) && n <= g.cns == |cn|
    ensures |top| == n && forall c: nat :: c < n ==> IsTop(g, cn, c, top[c])
  {
    if n == 0 {
      top := [];
    } else {
      top := Tops(g, cn, n - 1);
      IslandOfIsIsland(g, n - 1);
      var d := Highest(cn, IslandOf(g, n - 1));
      top := top + [cn[d]];
    }
  }

  lemma TopShared(g: Grid, cn: seq<int>, c: nat, d: nat, v: int, w: int)
    requires Joined(g, c, d) && IsTop(g, cn, c, v) && IsTop(g, cn, d, w)
    ensures v == w
  {
    var e :| e in IslandOf(g, c) && e < |cn| && cn[e] == v;
    JoinedSymmetric(g, c, d);
    JoinedTransitive(g, d, c, e);
    var f :| f in IslandOf(g, d) && f < |cn| && cn[f] == w;
    JoinedTransitive(g, c, d, f);
  }

  lemma TopHeld(g: Grid, top: seq<int>, cn: seq<int>, c: nat)
    requires c < |top| && IsTop(g, cn, c, top[c])
    ensures HeldNear(g, top, cn, c)
  {
    var d :| d in IslandOf(g, c) && d < |cn| && cn[d] == top[c];
    JoinedSymmetric(g, c, d);
    var p :| PathFrom(g, p, d, c);
  }

  lemma SettledTier(k: set<nat>, cn: seq<int>, c: nat, top: int)
    requires Settles(k, cn) && c in k && c < |cn|
    requires (exists d :: d in k && d < |cn| && cn[d] == top) && forall d :: d in k && d < |cn| ==> cn[d] <= top
    ensures Tier(top, cn[c])
  {
    if Only3(k, cn, 1) && exists d :: At(k, cn, d, 1) {
      var d :| At(k, cn, d, 1);
    }
  }

  /** The islands that the frontier touches. */
  ghost function IslandsOf(g: Grid, frontier: set<nat>): set<nat> { set d: nat | d < g.cns && Homed(g, frontier, d) }

  ghost predicate Homed(g: Grid, frontier: set<nat>, d: nat) { exists c :: c in frontier && Joined(g, c, d) }

  lemma IslandsAreIsolated(g: Grid, frontier: set<nat>)
    requires Wired(g) && forall c :: c in frontier ==> c < g.cns
    ensures Isolated(g, IslandsOf(g, frontier)) && frontier <= IslandsOf(g, frontier)
    ensures Isolated(g, frontier) ==> IslandsOf(g, frontier) == frontier
  {
    forall d, e | d in IslandsOf(g, frontier) && Adjacent(g, d, e) ensures e in IslandsOf(g, frontier) {
      var c :| c in frontier && Joined(g, c, d);
      AdjacentJoined(g, d, e);
      JoinedTransitive(g, c, d, e);
      var b: nat :| Closed(g, b) && Link(d, b) in g.links && Link(e, b) in g.links;
    }
    forall c | c in frontier ensures c in IslandsOf(g, frontier) {
      JoinedSelf(g, c);
    }
    if Isolated(g, frontier) {
      forall d | d in IslandsOf(g, frontier) ensures d in frontier {
        var c :| c in frontier && Joined(g, c, d);
        IslandInside(g, c, frontier);
        assert d in IslandOf(g, c);
      }
    }
  }

  /** Every island that the frontier touches settles. */
  ghost predicate AllSettle(g: Grid, s: Loop) {
    forall c :: c in s.frontier ==> Settles(IslandOf(g, c), s.cn)
  }

  lemma HomeTier(g: Grid, s: Loop, top: seq<int>, d: nat)
    requires Grounded(g, s) && AllSettle(g, s) && |top| == g.cns && d in IslandsOf(g, s.frontier)
    requires forall c: nat :: c < g.cns ==> IsTop(g, s.cn, c, top[c])
    ensures top[d] >= -1 && Tier(top[d], s.cn[d]) && HeldNear(g, top, s.cn, d)
  {
    var c :| c in s.frontier && Joined(g, c, d);
    assert IsTop(g, s.cn, c, top[c]) && IsTop(g, s.cn, d, top[d]);
    TopShared(g, s.cn, c, d, top[c], top[d]);
    assert d in IslandOf(g, c);
    SettledTier(IslandOf(g, c), s.cn, d, top[c]);
    TopHeld(g, top, s.cn, d);
  }

  lemma GroundedTiered(g: Grid, s: Loop) returns (top: seq<int>)
    requires Grounded(g, s) && AllSettle(g, s)
    ensures Tiered(g, IslandsOf(g, s.frontier), top, s) && forall c: nat :: c < g.cns ==> IsTop(g, s.cn, c, top[c])
  {
    top := Tops(g, s.cn, g.cns);
    var k := IslandsOf(g, s.frontier);
    IslandsAreIsolated(g, s.frontier);
    forall c | c in k ensures top[c] >= -1 && Tier(top[c], s.cn[c]) && HeldNear(g, top, s.cn, c) {
      HomeTier(g, s, top, c);
    }
    forall c: nat, d: nat | c in k && Adjacent(g, c, d) ensures top[c] == top[d] {
      AdjacentJoined(g, c, d);
      assert IsTop(g, s.cn, c, top[c]) && IsTop(g, s.cn, d, top[d]);
      TopShared(g, s.cn, c, d, top[c], top[d]);
    }
  }

  lemma {:induction false} PotentialBounded(k: set<nat>, top: seq<int>, cn: seq<int>, n: nat, most: nat)
    requires n <= |top| && n <= |cn| && forall c :: c in k && c < n ==> Climb(top[c], cn[c]) <= most
    ensures Potential(k, top, cn, n) <= most * n
  {
    if n > 0 {
      PotentialBounded(k, top, cn, n - 1, most);
      assert most * n == most * (n - 1) + most;
    }
  }

  lemma UnseenBounded(g: Grid, k: set<nat>, frontier: set<nat>)
    requires forall c :: c in k ==> c < g.cns
    ensures |Unseen(g, k, frontier)| <= g.cns && (k == frontier ==> |Unseen(g, k, frontier)| == 0)
  {
    BelowSize(Unseen(g, k, frontier), g.cns);
    if k == frontier {
      assert Unseen(g, k, frontier) == {};
    }
  }

  /** Every island that the frontier touches settles: with fused reads the loop exits within 3 * cns + 1
      rounds, under every schedule. A frontier of whole islands takes 2 * cns + 1, and leaves every node
      with the highest label its island started with. */
  lemma Terminates(g: Grid, s: Loop, scheds: seq<seq<Link>>)
    requires Poised(g, s) && AllSettle(g, s) && IsRun(g, s, scheds) && FusedRun(g, s, scheds)
    ensures Looping(Rounds(g, s, scheds)) ==> |scheds| <= 3 * g.cns
    ensures Looping(Rounds(g, s, scheds)) && Isolated(g, s.frontier) ==> |scheds| <= 2 * g.cns
    ensures !Looping(Rounds(g, s, scheds)) && Isolated(g, s.frontier) ==>
              forall c :: c in s.frontier ==> IsTop(g, s.cn, c, Rounds(g, s, scheds).cn[c])
  {
    var top := GroundedTiered(g, s);
    var k := IslandsOf(g, s.frontier);
    IslandsAreIsolated(g, s.frontier);
    RunsDown(g, k, top, s, scheds);
    PotentialBounded(k, top, s.cn, g.cns, 2);
    UnseenBounded(g, k, s.frontier);
    if !Looping(Rounds(g, s, scheds)) && Isolated(g, s.frontier) {
      forall c | c in s.frontier ensures IsTop(g, s.cn, c, Rounds(g, s, scheds).cn[c]) {
        EndsAtTop(g, s, top, scheds, c);
      }
    }
  }

  lemma EndsAtTop(g: Grid, s: Loop, top: seq<int>, scheds: seq<seq<Link>>, c: nat)
    requires Poised(g, s) && Isolated(g, s.frontier) && Tiered(g, s.frontier, top, Rounds(g, s, scheds))
    requires IsRun(g, s, scheds) && !Looping(Rounds(g, s, scheds)) && c in s.frontier && IsTop(g, s.cn, c, top[c])
    ensures IsTop(g, s.cn, c, Rounds(g, s, scheds).cn[c])
  {
    var s' := Rounds(g, s, scheds);
    assert HeldNear(g, top, s'.cn, c);
    var p :| Path(g, p) && p[|p| - 1] == c && p[0] < |s'.cn| && s'.cn[p[0]] == top[c];
    PathBack(g, p, s.frontier, top);
    assert PathFrom(g, p, p[0], c);
    IslandCorrect(g, s, scheds, s.frontier, p[0], c);
  }

  /** On each island that the frontier touches the labels are 0 and one other, or nothing is seeded. */
  ghost predicate TwoValued(g: Grid, s: Loop) {
    forall c :: c in s.frontier ==> TwoValuedIsland(IslandOf(g, c), s.cn)
  }

  ghost predicate TwoValuedIsland(k: set<nat>, cn: seq<int>) {
    (exists m :: m >= 0 && ZeroOr(k, cn, m)) || (forall c :: c in k && c < |cn| ==> cn[c] == -1)
  }

  lemma TwoValuedSettles(g: Grid, s: Loop)
    requires TwoValued(g, s)
    ensures AllSettle(g, s)
  {
    forall c | c in s.frontier ensures Settles(IslandOf(g, c), s.cn) {
      assert TwoValuedIsland(IslandOf(g, c), s.cn);
    }
  }

  /** Nothing is unseeded below a seed, and every label has at most one step to go. */
  lemma HomeTwoValued(g: Grid, s: Loop, top: seq<int>, d: nat)
    requires Grounded(g, s) && TwoValued(g, s) && |top| == g.cns && d in IslandsOf(g, s.frontier)
    requires forall c: nat :: c < g.cns ==> IsTop(g, s.cn, c, top[c])
    ensures (top[d] == -1 || s.cn[d] >= 0) && Climb(top[d], s.cn[d]) <= 1
  {
    var c :| c in s.frontier && Joined(g, c, d);
    assert IsTop(g, s.cn, c, top[c]) && IsTop(g, s.cn, d, top[d]);
    TopShared(g, s.cn, c, d, top[c], top[d]);
    assert d in IslandOf(g, c) && TwoValuedIsland(IslandOf(g, c), s.cn);
  }

  /** Labels 0 and M on each island, or none seeded, and any frontier: with fused reads the loop exits
      within cns + 1 rounds, and no label is ever other than 0 or the highest of its island. */
  lemma TerminatesFast(g: Grid, s: Loop, scheds: seq<seq<Link>>)
    requires Poised(g, s) && TwoValued(g, s) && IsRun(g, s, scheds) && FusedRun(g, s, scheds)
    ensures Looping(Rounds(g, s, scheds)) ==> |scheds| <= g.cns
    ensures forall c :: c in IslandsOf(g, s.frontier) ==>
              Rounds(g, s, scheds).cn[c] == 0 || IsTop(g, s.cn, c, Rounds(g, s, scheds).cn[c])
  {
    TwoValuedSettles(g, s);
    var top := GroundedTiered(g, s);
    var k := IslandsOf(g, s.frontier);
    forall c | c in k ensures (top[c] == -1 || s.cn[c] >= 0) && Climb(top[c], s.cn[c]) <= 1 {
      HomeTwoValued(g, s, top, c);
    }
    PlainRunsDown(g, k, top, s, scheds);
    PotentialBounded(k, top, s.cn, g.cns, 1);
    forall c | c in k
      ensures Rounds(g, s, scheds).cn[c] == 0 || IsTop(g, s.cn, c, Rounds(g, s, scheds).cn[c])
    {
      assert Tier(top[c], Rounds(g, s, scheds).cn[c]) && IsTop(g, s.cn, c, top[c]);
    }
  }

  // ---- Two nodes and one closed switch

  function Pair(): Grid { Grid(2, 1, {Link(0, 0), Link(1, 0)}, [1]) }

  /** Positive labels a and b: every run ends after one round if a == b, and no run ends otherwise. */
  lemma PairExitsIffEqual(a: int, b: int, scheds: seq<seq<Link>>)
    requires a >= 1 && b >= 1
    ensures var s := Loop([a, b], [-1], {0, 1}, 0, 1);
            && Shaped(Pair(), s)
            && (IsRun(Pair(), s, scheds) && |scheds| > 0 ==> (!Looping(Rounds(Pair(), s, scheds)) <==> a == b))
            && (IsRun(Pair(), s, scheds) && |scheds| > 1 ==> a != b)
  {
    var g, s := Pair(), Loop([a, b], [-1], {0, 1}, 0, 1);
    if IsRun(g, s, scheds) && |scheds| > 0 {
      if a == b {
        PairQuiet(a, scheds);
      } else {
        assert Started(g, s) by { PairIsolated(); }
        assert Adjacent(g, 0, 1) by { assert Closed(g, 0) && Link(0, 0) in g.links && Link(1, 0) in g.links; }
        AdjacentJoined(g, 0, 1);
        JoinedSelf(g, 0);
        var k := IslandOf(g, 0);
        assert At(k, s.cn, 0, a) && At(k, s.cn, 1, b);
        assert Hopeless(k, s.cn);
        GroundedWatched(g, s, 0);
        NeverExits(g, k, s, scheds);
      }
    }
  }

  lemma PairIsolated()
    ensures Isolated(Pair(), {0, 1})
  {
  }

  lemma PairQuiet(a: int, scheds: seq<seq<Link>>)
    requires a >= 1 && |scheds| > 0
    requires IsRun(Pair(), Loop([a, a], [-1], {0, 1}, 0, 1), scheds)
    ensures !Looping(Rounds(Pair(), Loop([a, a], [-1], {0, 1}, 0, 1), scheds)) && |scheds| == 1
    decreases |scheds|
  {
    var g, s := Pair(), Loop([a, a], [-1], {0, 1}, 0, 1);
    if |scheds| > 1 {
      PairQuiet(a, scheds[..|scheds| - 1]);
    } else {
      assert scheds[..0] == [];
      LiftedIsMax(g, s, 0);
      RoundShaped(g, s, scheds[0]);
      CounterStays(Lifted(g, s), s.cn, Tasks(g, s.frontier), scheds[0]);
    }
  }

  // ---- What the data race does

  /** Two closed switches in parallel between a node labelled 0 and one labelled m. */
  function Twin(): Grid { Grid(2, 2, {Link(0, 0), Link(1, 0), Link(0, 1), Link(1, 1)}, [1, 1]) }

  function TwinStart(m: int): Loop { Loop([0, m], [-1, -1], {0, 1}, 0, 1) }

  /** Both switches test node 0 before either writes, and the second read sees the first write. */
  function BadSchedule(): seq<Link> {
    [Link(0, 1), Link(0, 0), Link(0, 1), Link(0, 1), Link(0, 0), Link(0, 0), Link(1, 0), Link(1, 1)]
  }

  lemma TwinTasks()
    ensures Tasks(Twin(), {0, 1}) == Twin().links
  {
    var g := Twin();
    forall l | l in g.links ensures l in Tasks(g, {0, 1}) {
      assert l.node in {0, 1};
      assert l.switch in Reached(g, {0, 1});
    }
  }

  lemma TwinLifted(m: int)
    requires m > 0
    ensures Shaped(Twin(), TwinStart(m)) && Lifted(Twin(), TwinStart(m)) == [m, m]
  {
    var g, s := Twin(), TwinStart(m);
    TwinLiftedAt(m, 0);
    TwinLiftedAt(m, 1);
    assert |Lifted(g, s)| == 2;
  }

  lemma TwinLiftedAt(m: int, b: nat)
    requires m > 0 && b < 2
    ensures Shaped(Twin(), TwinStart(m)) && Lifted(Twin(), TwinStart(m))[b] == m
  {
    var g, s := Twin(), TwinStart(m);
    LiftedIsMax(g, s, b);
    assert Link(1, b) in g.links && 1 in s.frontier;
  }

  lemma BadRace(m: int)
    requires m > 0
    ensures var r := Run([m, m], Begin([0, m], Twin().links), BadSchedule());
            Complete(r) && r.cn == [2 * m, m]
  {
    var bd, r0 := [m, m], Begin([0, m], Twin().links);
    var l, k := Link(0, 0), Link(0, 1);
    BadTests(m, r0);
    var r3 := Run(bd, r0, [k, l, k]);
    BadWrites(m, r3);
    var r6 := Run(bd, r3, [k, l, l]);
    RunTwo(bd, r6, Link(1, 0), Link(1, 1));
    RunConcat(bd, r0, [k, l, k], [k, l, l]);
    RunConcat(bd, r0, [k, l, k] + [k, l, l], [Link(1, 0), Link(1, 1)]);
    assert BadSchedule() == [k, l, k] + [k, l, l] + [Link(1, 0), Link(1, 1)];
  }

  lemma BadTests(m: int, r: Race)
    requires m > 0 && r == Begin([0, m], Twin().links)
    ensures Run([m, m], r, [Link(0, 1), Link(0, 0), Link(0, 1)])
         == Race([0, m], r.stage[Link(0, 1) := Loaded(m)][Link(0, 0) := Passed], 2)
  {
    RunThree([m, m], r, Link(0, 1), Link(0, 0), Link(0, 1));
  }

  lemma BadWrites(m: int, r: Race)
    requires m > 0 && r.cn == [0, m] && {Link(0, 0), Link(0, 1)} <= r.stage.Keys
    requires r.stage[Link(0, 1)] == Loaded(m) && r.stage[Link(0, 0)] == Passed
    ensures Run([m, m], r, [Link(0, 1), Link(0, 0), Link(0, 0)])
         == Race([2 * m, m], r.stage[Link(0, 1) := Finished][Link(0, 0) := Finished], r.passed)
  {
    RunThree([m, m], r, Link(0, 1), Link(0, 0), Link(0, 0));
  }

  lemma RunTwo(bd: seq<int>, r: Race, a: Link, b: Link)
    ensures Run(bd, r, [a, b]) == Step(bd, Step(bd, r, a), b)
  {
    assert [a, b][..1] == [a] && [a][..0] == [];
    assert Run(bd, r, [a]) == Step(bd, r, a);
  }

  lemma BadRound(m: int)
    requires m > 0
    ensures Shaped(Twin(), TwinStart(m))
    ensures Complete(Raced(Twin(), TwinStart(m), BadSchedule()))
    ensures Round(Twin(), TwinStart(m), BadSchedule()).cn == [2 * m, m]
  {
    TwinLifted(m);
    TwinTasks();
    BadRace(m);
  }

  lemma TwinStarted(m: int)
    requires m > 0
    ensures Started(Twin(), TwinStart(m)) && Watched(Twin(), {0, 1}, TwinStart(m))
  {
    var g, s := Twin(), TwinStart(m);
    forall l | l in g.links && l.node in {0, 1} && Closed(g, l.switch) ensures AnchoredAt(g, s, l.switch) {
      assert Link(0, l.switch) in g.links && s.bd[l.switch] <= s.cn[0];
    }
  }

  lemma {:induction false} TwinForever(m: int, scheds: seq<seq<Link>>)
    requires m > 0 && |scheds| > 0 && scheds[0] == BadSchedule()
    ensures Shaped(Twin(), TwinStart(m))
    ensures var s := Rounds(Twin(), TwinStart(m), scheds);
            Watched(Twin(), {0, 1}, s) && Hopeless({0, 1}, s.cn)
  {
    var g, s := Twin(), TwinStart(m);
    TwinStarted(m);
    if |scheds| == 1 {
      assert scheds[..0] == [];
      BadRound(m);
      RoundWatched(g, {0, 1}, s, scheds[0]);
      var cn := Round(g, s, scheds[0]).cn;
      assert At({0, 1}, cn, 0, 2 * m) && At({0, 1}, cn, 1, m);
    } else {
      var prefix := scheds[..|scheds| - 1];
      TwinForever(m, prefix);
      RoundWatched(g, {0, 1}, Rounds(g, s, prefix), scheds[|scheds| - 1]);
      HopelessStays(g, {0, 1}, Rounds(g, s, prefix), scheds[|scheds| - 1]);
    }
  }

  /** Labels 0 and m: every run with fused reads exits within three rounds, yet after the bad schedule
      in the first round no run exits at all. */
  lemma DataRaceDiverges(m: int, scheds: seq<seq<Link>>)
    requires m > 0
    ensures Shaped(Twin(), TwinStart(m))
    ensures Complete(Raced(Twin(), TwinStart(m), BadSchedule()))
    ensures IsRun(Twin(), TwinStart(m), scheds) && FusedRun(Twin(), TwinStart(m), scheds) ==>
              Looping(Rounds(Twin(), TwinStart(m), scheds)) ==> |scheds| <= 2
    ensures IsRun(Twin(), TwinStart(m), scheds) && |scheds| > 0 && scheds[0] == BadSchedule() ==>
              Looping(Rounds(Twin(), TwinStart(m), scheds))
  {
    var g, s := Twin(), TwinStart(m);
    TwinStarted(m);
    BadRound(m);
    if IsRun(g, s, scheds) && FusedRun(g, s, scheds) {
      TwinTwoValued(m);
      TerminatesFast(g, s, scheds);
    }
    if IsRun(g, s, scheds) && |scheds| > 0 && scheds[0] == BadSchedule() {
      TwinLoops(m, scheds);
    }
  }

  lemma TwinTwoValued(m: int)
    requires m > 0
    ensures TwoValued(Twin(), TwinStart(m))
  {
    var g, s := Twin(), TwinStart(m);
    forall c | c in s.frontier ensures TwoValuedIsland(IslandOf(g, c), s.cn) {
      assert m >= 0 && ZeroOr(IslandOf(g, c), s.cn, m);
    }
  }

  lemma TwinLoops(m: int, scheds: seq<seq<Link>>)
    requires m > 0 && |scheds| > 0 && scheds[0] == BadSchedule()
    requires Shaped(Twin(), TwinStart(m)) && IsRun(Twin(), TwinStart(m), scheds)
    ensures Looping(Rounds(Twin(), TwinStart(m), scheds))
  {
    var g, s := Twin(), TwinStart(m);
    var prefix := scheds[..|scheds| - 1];
    if prefix == [] {
      TwinStarted(m);
    } else {
      TwinForever(m, prefix);
    }
    TwinForever(m, scheds);
    TwinIsIsland();
    HopelessLoops(g, {0, 1}, Rounds(g, s, prefix), scheds[|scheds| - 1]);
  }

  lemma TwinIsIsland()
    ensures Island(Twin(), {0, 1})
  {
    var g := Twin();
    forall c: nat, d: nat | c in {0, 1} && d in {0, 1} ensures Joined(g, c, d) {
      assert Closed(g, 0) && Link(c, 0) in g.links && Link(d, 0) in g.links;
      AdjacentJoined(g, c, d);
    }
  }
}
