/** First frontiers that hold only part of an island: what they still decide, and when they are whole. */
module IslandFrontier {
  import opened Race
  import opened Islands
  import opened IslandExit
  import opened IslandTheorems

  // ---- Two different positive labels joined inside the frontier: no exit

  /** Joined by a path that stays in the frontier. */
  ghost predicate Together(g: Grid, frontier: set<nat>, c: nat, d: nat) {
    exists p :: PathFrom(g, p, c, d) && Stays(p, frontier)
  }

  ghost predicate Stays(p: seq<nat>, k: set<nat>) { forall i :: 0 <= i < |p| ==> p[i] in k }

  ghost predicate Split(g: Grid, s: Loop) {
    exists c, d :: SplitAt(g, s, c, d)
  }

  ghost predicate SplitAt(g: Grid, s: Loop, c: nat, d: nat) {
    Together(g, s.frontier, c, d) && c < |s.cn| && d < |s.cn| && 0 < s.cn[c] < s.cn[d]
  }

  /** The part of the frontier around `c`. */
  ghost function Part(g: Grid, frontier: set<nat>, c: nat): set<nat> {
    set d | d in frontier && Together(g, frontier, c, d)
  }

  lemma TogetherNext(g: Grid, frontier: set<nat>, c: nat, d: nat, e: nat)
    requires Together(g, frontier, c, d) && Adjacent(g, d, e) && e in frontier
    ensures Together(g, frontier, c, e)
  {
    var p :| PathFrom(g, p, c, d) && Stays(p, frontier);
    assert Path(g, [d, e]);
    PathsMeet(g, p, [d, e]);
    assert Stays(p + [d, e][1..], frontier);
  }

  lemma TogetherBack(g: Grid, frontier: set<nat>, c: nat, d: nat, e: nat)
    requires Together(g, frontier, c, d) && Together(g, frontier, c, e)
    ensures Together(g, frontier, d, e)
  {
    var p :| PathFrom(g, p, c, d) && Stays(p, frontier);
    var q :| PathFrom(g, q, c, e) && Stays(q, frontier);
    var r := Reversed(g, p, frontier);
    PathsMeet(g, r, q);
    assert Stays(r + q[1..], frontier);
  }

  lemma {:induction false} Reversed(g: Grid, p: seq<nat>, k: set<nat>) returns (q: seq<nat>)
    requires Path(g, p) && Stays(p, k)
    ensures PathFrom(g, q, p[|p| - 1], p[0]) && Stays(q, k)
  {
    if |p| == 1 {
      q := p;
    } else {
      var c, d := p[|p| - 2], p[|p| - 1];
      assert Adjacent(g, c, p[|p| - 2 + 1]);
      AdjacentSymmetric(g, c, d);
      assert Path(g, p[..|p| - 1]);
      var rest := Reversed(g, p[..|p| - 1], k);
      assert Path(g, [d, c]);
      PathsMeet(g, [d, c], rest);
      q := [d, c] + rest[1..];
    }
  }

  lemma PartFeedsItself(g: Grid, s: Loop, c: nat)
    requires Grounded(g, s)
    ensures FromLabels(g, Part(g, s.frontier, c), s, Lifted(g, s))
  {
    var k := Part(g, s.frontier, c);
    forall l | l in Tasks(g, s.frontier) && l.node in k
      ensures exists e: nat :: e in k && e < g.cns && Lifted(g, s)[l.switch] == s.cn[e]
    {
      var e := GroundedLabel(g, s, l);
      AdjacentSymmetric(g, e, l.node);
      TogetherNext(g, s.frontier, c, l.node, e);
    }
  }

  /** What is joined inside a frontier is joined inside the next. */
  lemma TogetherStays(g: Grid, s: Loop, sched: seq<Link>, c: nat, d: nat)
    requires Shaped(g, s) && Together(g, s.frontier, c, d) && c != d
    ensures Together(g, Round(g, s, sched).frontier, c, d)
  {
    var p :| PathFrom(g, p, c, d) && Stays(p, s.frontier);
    forall i | 0 <= i < |p| ensures p[i] in Round(g, s, sched).frontier {
      var j := if i + 1 < |p| then i else i - 1;
      assert Adjacent(g, p[j], p[j + 1]);
      var b: nat :| Closed(g, b) && Link(p[j], b) in g.links && Link(p[j + 1], b) in g.links;
      Across(g, s, sched, p[j], p[i], b);
    }
    assert Stays(p, Round(g, s, sched).frontier);
  }

  lemma SplitStays(g: Grid, s: Loop, sched: seq<Link>)
    requires Grounded(g, s) && Split(g, s)
    ensures Split(g, Round(g, s, sched))
  {
    var c, d :| SplitAt(g, s, c, d);
    var k := Part(g, s.frontier, c);
    SplitPart(g, s, c, d);
    PartFeedsItself(g, s, c);
    TwoPositiveStays(g, k, s, sched);
    var cn := Round(g, s, sched).cn;
    var x, y, v, w :| At(k, cn, x, v) && At(k, cn, y, w) && 0 < v < w;
    TogetherBack(g, s.frontier, c, x, y);
    TogetherStays(g, s, sched, x, y);
    assert SplitAt(g, Round(g, s, sched), x, y);
  }

  lemma SplitPart(g: Grid, s: Loop, c: nat, d: nat)
    requires SplitAt(g, s, c, d)
    ensures TwoPositive(Part(g, s.frontier, c), s.cn)
  {
    var p :| PathFrom(g, p, c, d) && Stays(p, s.frontier);
    assert p[0] in s.frontier && p[|p| - 1] in s.frontier;
    assert PathFrom(g, [c], c, c) && Stays([c], s.frontier);
    var k := Part(g, s.frontier, c);
    assert At(k, s.cn, c, s.cn[c]) && At(k, s.cn, d, s.cn[d]);
  }

  lemma {:induction false} LevelPath(g: Grid, s: Loop, p: seq<nat>)
    requires Grounded(g, s) && Level(g, s) && Path(g, p) && Stays(p, s.frontier)
    ensures p[0] < g.cns && p[|p| - 1] < g.cns && s.cn[p[0]] == s.cn[p[|p| - 1]]
  {
    assert p[0] in s.frontier && p[|p| - 1] in s.frontier;
    if |p| > 1 {
      assert Path(g, p[..|p| - 1]);
      LevelPath(g, s, p[..|p| - 1]);
      assert p[|p| - 2] in s.frontier;
      assert Adjacent(g, p[|p| - 2], p[|p| - 2 + 1]);
      AdjacentSymmetric(g, p[|p| - 2], p[|p| - 1]);
    }
  }

  lemma SplitLoops(g: Grid, s: Loop, sched: seq<Link>)
    requires Grounded(g, s) && Split(g, s) && Complete(Raced(g, s, sched))
    ensures Looping(Round(g, s, sched))
  {
    ExitIff(g, s, sched);
    if Level(g, s) {
      var c, d :| SplitAt(g, s, c, d);
      var p :| PathFrom(g, p, c, d) && Stays(p, s.frontier);
      LevelPath(g, s, p);
    }
  }

  /** A state that no run leaves: poised, and split. */
  ghost predicate Lost(g: Grid, s: Loop) { Poised(g, s) && Split(g, s) }

  lemma LostRound(g: Grid, s: Loop, sched: seq<Link>)
    requires Lost(g, s) && Complete(Raced(g, s, sched))
    ensures Lost(g, Round(g, s, sched))
  {
    RoundGrounded(g, s, sched);
    SplitStays(g, s, sched);
    SplitLoops(g, s, sched);
  }

  /** Two different positive labels joined inside the frontier: the loop never exits, under any schedule. */
  lemma {:induction false} SplitNeverExits(g: Grid, s: Loop, scheds: seq<seq<Link>>)
    requires Lost(g, s) && IsRun(g, s, scheds)
    ensures Lost(g, Rounds(g, s, scheds))
  {
    if scheds != [] {
      SplitNeverExits(g, s, scheds[..|scheds| - 1]);
      LostRound(g, Rounds(g, s, scheds[..|scheds| - 1]), scheds[|scheds| - 1]);
    }
  }

  // ---- After cns + 1 rounds the frontier is made of whole islands

  /** A frontier of whole islands stays one. */
  lemma IsolatedStays(g: Grid, s: Loop, sched: seq<Link>)
    requires Shaped(g, s) && Isolated(g, s.frontier)
    ensures Isolated(g, Round(g, s, sched).frontier)
  {
    var s' := Round(g, s, sched);
    FrontierStays(g, s, sched, s.frontier);
    forall c, d | c in s'.frontier && Adjacent(g, c, d) ensures d in s'.frontier {
      var b: nat :| Closed(g, b) && Link(c, b) in g.links && Link(d, b) in g.links;
      Across(g, s, sched, c, d, b);
    }
  }

  lemma {:induction false} FrontierFills(g: Grid, s: Loop, k: set<nat>, scheds: seq<seq<Link>>)
    requires Shaped(g, s) && Isolated(g, k) && s.frontier <= k
    ensures Rounds(g, s, scheds).frontier <= k
    ensures Isolated(g, Rounds(g, s, scheds).frontier)
            || |Unseen(g, k, Rounds(g, s, scheds).frontier)| + |scheds| <= |Unseen(g, k, s.frontier)|
  {
    if scheds != [] {
      var before, last := Rounds(g, s, scheds[..|scheds| - 1]), scheds[|scheds| - 1];
      FrontierFills(g, s, k, scheds[..|scheds| - 1]);
      FrontierStays(g, before, last, k);
      SeesMore(g, k, before, last);
      if Isolated(g, before.frontier) {
        IsolatedStays(g, before, last);
      } else if Round(g, before, last).frontier <= before.frontier {
        FrontierClosed(g, before, last);
      }
    }
  }

  lemma FilledAfter(g: Grid, s: Loop, scheds: seq<seq<Link>>)
    requires Grounded(g, s) && |scheds| > g.cns
    ensures Isolated(g, Rounds(g, s, scheds).frontier)
  {
    var k := IslandsOf(g, s.frontier);
    IslandsAreIsolated(g, s.frontier);
    FrontierFills(g, s, k, scheds);
    UnseenBounded(g, k, s.frontier);
  }

  lemma {:induction false} RunsMeet(g: Grid, s: Loop, p: seq<seq<Link>>, q: seq<seq<Link>>)
    requires Shaped(g, s)
    ensures Rounds(g, s, p + q) == Rounds(g, Rounds(g, s, p), q)
    ensures IsRun(g, s, p + q) ==> IsRun(g, s, p) && IsRun(g, Rounds(g, s, p), q)
  {
    if q == [] {
      assert p + q == p;
    } else {
      RunsMeet(g, s, p, q[..|q| - 1]);
      assert (p + q)[..|p + q| - 1] == p + q[..|q| - 1];
    }
  }

  /** Whatever the first frontier: once cns + 1 rounds are over, the labels of that moment decide. If some
      island of the frontier does not settle, no run exits any more. If all do, every continuation with
      fused reads exits within 2 * cns + 1 rounds, at the highest labels. */
  lemma LateDecides(g: Grid, s: Loop, p: seq<seq<Link>>, q: seq<seq<Link>>)
    requires Poised(g, s) && IsRun(g, s, p + q) && |p| > g.cns && Looping(Rounds(g, s, p))
    ensures var a, b := Rounds(g, s, p), Rounds(g, s, p + q);
            && Isolated(g, a.frontier)
            && (!AllSettle(g, a) ==> Looping(b))
            && (AllSettle(g, a) && FusedRun(g, a, q) ==>
                  && (Looping(b) ==> |q| <= 2 * g.cns)
                  && (!Looping(b) ==> forall c :: c in a.frontier ==> IsTop(g, a.cn, c, b.cn[c])))
  {
    RunsMeet(g, s, p, q);
    RunPoised(g, s, p);
    FilledAfter(g, s, p);
    var a := Rounds(g, s, p);
    if c :| c in a.frontier && !Settles(IslandOf(g, c), a.cn) {
      Diverges(g, a, c, q);
    } else if FusedRun(g, a, q) {
      Terminates(g, a, q);
    }
  }

  // ---- An exit that leaves an island with two labels

  /** Three nodes in a row, joined by two closed switches. */
  function Row(): Grid { Grid(3, 2, {Link(0, 0), Link(1, 0), Link(1, 1), Link(2, 1)}, [1, 1]) }

  /** Labels 0, 0 and m, and only the first node in the frontier: every schedule exits after one round. */
  lemma RowExitsEarly(m: int, sched: seq<Link>)
    requires m > 0
    ensures var s := Loop([0, 0, m], [-1, -1], {0}, 0, 1);
            && Started(Row(), s) && Joined(Row(), 0, 2)
            && (Complete(Raced(Row(), s, sched)) ==>
                  !Looping(Round(Row(), s, sched)) && Round(Row(), s, sched).cn == [0, 0, m])
  {
    var g, s := Row(), Loop([0, 0, m], [-1, -1], {0}, 0, 1);
    StartPoised(g, s);
    assert Adjacent(g, 0, 1) by { assert Closed(g, 0) && Link(0, 0) in g.links && Link(1, 0) in g.links; }
    assert Adjacent(g, 1, 2) by { assert Closed(g, 1) && Link(1, 1) in g.links && Link(2, 1) in g.links; }
    AdjacentJoined(g, 0, 1);
    AdjacentJoined(g, 1, 2);
    JoinedTransitive(g, 0, 1, 2);
    if Complete(Raced(g, s, sched)) {
      ExitIff(g, s, sched);
    }
  }
}
