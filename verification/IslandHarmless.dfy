/** The loop with separate reads exits under all schedules exactly when no round of it can race. */
module IslandHarmless {
  import opened Race
  import opened Islands
  import opened IslandExit
  import opened IslandTheorems
  import opened IslandFrontier
  import opened IslandLoop
  import opened IslandSchedules

  // ---- Schedules that run the tasks one after the other

  lemma {:induction false} FusedFinish(bd: seq<int>, start: Race, sched: seq<Link>, todo: set<Link>) returns (all: seq<Link>)
    requires Ran(bd, start, sched, todo, Run(bd, start, sched)) && todo <= start.stage.Keys
    requires Fits(bd, start.cn, start.stage.Keys)
    ensures Ran(bd, start, all, {}, Run(bd, start, all))
    decreases todo
  {
    if todo == {} {
      all := sched;
    } else {
      var l :| l in todo;
      Rises(bd, start, sched);
      OneMoreTask(bd, start, sched, todo, Run(bd, start, sched), l);
      all := FusedFinish(bd, start, sched + [l, l, l], todo - {l});
    }
  }

  lemma FusedExists(g: Grid, s: Loop) returns (sched: seq<Link>)
    requires Shaped(g, s)
    ensures Complete(Raced(g, s, sched)) && Fused(Lifted(g, s), Begin(s.cn, Tasks(g, s.frontier)), sched)
    ensures OrderlyRound(g, s, sched)
  {
    RoundShaped(g, s, []);
    var start := Begin(s.cn, Tasks(g, s.frontier));
    assert start.stage == Stages(start.stage.Keys, start.stage.Keys);
    sched := FusedFinish(Lifted(g, s), start, [], start.stage.Keys);
  }

  ghost predicate HasFusedRun(g: Grid, s: Loop, n: nat)
    requires Shaped(g, s)
  {
    exists scheds :: |scheds| == n && SyncedFused(g, s, scheds)
  }

  /** A run with fused reads, each switch at one node at a time, through synchronous states. */
  ghost predicate SyncedFused(g: Grid, s: Loop, scheds: seq<seq<Link>>)
    requires Shaped(g, s)
  {
    Synced(g, s, scheds) && FusedRun(g, s, scheds) && OrderlyRun(g, s, scheds)
  }

  /** Through calm rounds there is a run with fused reads. */
  lemma {:induction false} FusedCalmRun(g: Grid, s: Loop, n: nat)
    requires Shaped(g, s) && CalmBefore(g, s, n) && (n > 0 ==> Reaches(g, s, n - 1))
    ensures HasFusedRun(g, s, n)
  {
    if n == 0 {
      assert SyncedFused(g, s, []);
    } else {
      FusedCalmRun(g, s, n - 1);
      FusedOneMore(g, s, n - 1);
    }
  }

  lemma FusedOneMore(g: Grid, s: Loop, n: nat)
    requires Shaped(g, s) && HasFusedRun(g, s, n) && Looping(SyncRounds(g, s, n)) && CalmBefore(g, s, n + 1)
    ensures HasFusedRun(g, s, n + 1)
  {
    var prefix :| |prefix| == n && SyncedFused(g, s, prefix);
    var scheds := FusedLonger(g, s, prefix);
    CalmRun(g, s, scheds);
  }

  lemma FusedLonger(g: Grid, s: Loop, prefix: seq<seq<Link>>) returns (scheds: seq<seq<Link>>)
    requires Shaped(g, s) && IsRun(g, s, prefix) && FusedRun(g, s, prefix) && Looping(Rounds(g, s, prefix))
    ensures |scheds| == |prefix| + 1 && IsRun(g, s, scheds) && FusedRun(g, s, scheds)
    ensures OrderlyRun(g, s, prefix) ==> OrderlyRun(g, s, scheds)
  {
    var last := FusedExists(g, Rounds(g, s, prefix));
    Extend(g, s, prefix, last);
    OrderlyExtend(g, s, prefix, last);
    FusedExtend(g, s, prefix, last);
    scheds := prefix + [last];
  }

  lemma FusedExtend(g: Grid, s: Loop, prefix: seq<seq<Link>>, last: seq<Link>)
    requires Shaped(g, s) && FusedRun(g, s, prefix)
    requires var a := Rounds(g, s, prefix); Fused(Lifted(g, a), Begin(a.cn, Tasks(g, a.frontier)), last)
    ensures FusedRun(g, s, prefix + [last])
  {
    assert (prefix + [last])[..|prefix|] == prefix;
  }

  lemma SyncedSame(g: Grid, s: Loop, x: seq<seq<Link>>, y: seq<seq<Link>>)
    requires Shaped(g, s) && Synced(g, s, x) && Synced(g, s, y) && |x| == |y|
    ensures Rounds(g, s, x).cn == Rounds(g, s, y).cn
    ensures Looping(Rounds(g, s, x)) <==> Looping(Rounds(g, s, y))
  {
  }

  // ---- Calm rounds: every schedule exits

  /** Every run of calm rounds, whatever its schedules and its frontier, exits within 3 * cns + 1 rounds;
      from a frontier of whole islands within 2 * cns + 1, with the highest label of each. On labels 0
      and M cns + 1 rounds are enough, and no label is ever other than these. */
  lemma CalmExits(g: Grid, s: Loop, scheds: seq<seq<Link>>)
    requires Poised(g, s) && AllSettle(g, s) && AlwaysCalm(g, s) && IsRun(g, s, scheds)
    ensures Looping(Rounds(g, s, scheds)) ==> WithinBounds(g, s, |scheds| + 1)
    ensures !Looping(Rounds(g, s, scheds)) && Isolated(g, s.frontier) ==>
              forall c :: c in s.frontier ==> IsTop(g, s.cn, c, Rounds(g, s, scheds).cn[c])
    ensures TwoValued(g, s) ==>
              forall c :: c in IslandsOf(g, s.frontier) ==>
                Rounds(g, s, scheds).cn[c] == 0 || IsTop(g, s.cn, c, Rounds(g, s, scheds).cn[c])
  {
    CalmRun(g, s, scheds);
    FusedCalmRun(g, s, |scheds|);
    var fused :| |fused| == |scheds| && SyncedFused(g, s, fused);
    SyncedSame(g, s, fused, scheds);
    Terminates(g, s, fused);
    if Looping(Rounds(g, s, scheds)) {
      RunBounds(g, s, fused);
    }
    if TwoValued(g, s) {
      TerminatesFast(g, s, fused);
    }
  }

  // ---- A round that can race: some schedule never exits

  /** Two tasks about to raise one node. */
  ghost predicate Rivals(g: Grid, k: set<nat>, top: seq<int>, a: Loop, l: Link, j: Link) {
    && Tiered(g, k, top, a) && l != j && l.node == j.node && l.node in k
    && l in Tasks(g, a.frontier) && j in Tasks(g, a.frontier)
    && Hot(Lifted(g, a), a.cn, l) && Hot(Lifted(g, a), a.cn, j)
  }

  /** And the node is labelled 0. */
  ghost predicate Rough(g: Grid, k: set<nat>, top: seq<int>, a: Loop, l: Link, j: Link) {
    Rivals(g, k, top, a, l, j) && a.cn[l.node] == 0
  }

  /** Rivals carry the top of their island; the node they would raise is labelled 0, or -1 below a 1. */
  lemma RivalLabels(g: Grid, k: set<nat>, top: seq<int>, a: Loop, l: Link, j: Link)
    requires Rivals(g, k, top, a, l, j)
    ensures Lifted(g, a)[l.switch] == Lifted(g, a)[j.switch] == top[l.node] > 0
    ensures a.cn[l.node] == 0 || (a.cn[l.node] == -1 && top[l.node] == 1)
  {
    LiftedTier(g, k, top, a, l);
    LiftedTier(g, k, top, a, j);
    assert Tier(top[l.node], a.cn[l.node]);
  }

  /** The schedule in which both tests come before both writes doubles the label. */
  lemma RoughSchedule(g: Grid, k: set<nat>, top: seq<int>, a: Loop, l: Link, j: Link) returns (sched: seq<Link>)
    requires Rough(g, k, top, a, l, j)
    ensures Complete(Raced(g, a, sched)) && Shaped(g, Round(g, a, sched))
    ensures Round(g, a, sched).cn[l.node] >= 2 * top[l.node] && OrderlyRound(g, a, sched)
  {
    RivalLabels(g, k, top, a, l, j);
    RoundShaped(g, a, []);
    var bd, tasks := Lifted(g, a), Tasks(g, a.frontier);
    DoubleCount(bd, a.cn, tasks, l, j);
    var first := [j, l, j, j, l, l];
    var r := Run(bd, Begin(a.cn, tasks), first);
    var rest := CanFinish(bd, r, tasks);
    sched := first + rest;
    RunConcat(bd, Begin(a.cn, tasks), first, rest);
    OrderlyConcat(bd, Begin(a.cn, tasks), first, rest);
    Rises(bd, r, rest);
    RoundShaped(g, a, sched);
  }

  /** A node that holds the top keeps it. */
  lemma TopStays(g: Grid, k: set<nat>, top: seq<int>, a: Loop, c: nat, sched: seq<Link>)
    requires Tiered(g, k, top, a) && c in k && a.cn[c] == top[c] >= 0
    ensures |Round(g, a, sched).cn| == g.cns && Round(g, a, sched).cn[c] == top[c]
  {
    forall l | l in Tasks(g, a.frontier) && l.node == c ensures Lifted(g, a)[l.switch] <= top[c] {
      LiftedTier(g, k, top, a, l);
    }
    Unmoved(g, a, sched, c);
  }

  /** The doubled label stands next to the one it was doubled from, both in the frontier. */
  lemma RoughSplits(g: Grid, k: set<nat>, top: seq<int>, a: Loop, l: Link, j: Link) returns (sched: seq<Link>)
    requires Rough(g, k, top, a, l, j)
    ensures Complete(Raced(g, a, sched)) && OrderlyRound(g, a, sched) && Lost(g, Round(g, a, sched))
  {
    var t := l.node;
    RivalLabels(g, k, top, a, l, j);
    sched := RoughSchedule(g, k, top, a, l, j);
    var c := GroundedLabel(g, a, l);
    TopStays(g, k, top, a, c, sched);
    BothAcross(g, a, sched, c, l);
    RoundGrounded(g, a, sched);
    RoundShaped(g, a, sched);
    CounterStays(Lifted(g, a), a.cn, Tasks(g, a.frontier), sched);
  }

  /** Two nodes across one switch stand in the next frontier, with the labels that the round left them. */
  lemma BothAcross(g: Grid, a: Loop, sched: seq<Link>, c: nat, l: Link)
    requires Shaped(g, a) && l in Tasks(g, a.frontier) && c in a.frontier && Link(c, l.switch) in g.links
    requires Shaped(g, Round(g, a, sched)) && 0 < Round(g, a, sched).cn[c] < Round(g, a, sched).cn[l.node]
    ensures Split(g, Round(g, a, sched))
  {
    var t, a' := l.node, Round(g, a, sched);
    assert l == Link(t, l.switch);
    Across(g, a, sched, c, c, l.switch);
    Across(g, a, sched, c, t, l.switch);
    assert PathFrom(g, [c, t], c, t) && Stays([c, t], a'.frontier);
    assert SplitAt(g, a', c, t);
  }

  /** No run that starts like `prefix` ever exits; and `prefix` is one in which each switch works on one
      node at a time. */
  ghost predicate Doomed(g: Grid, s: Loop, prefix: seq<seq<Link>>)
    requires Shaped(g, s)
  {
    && IsRun(g, s, prefix) && OrderlyRun(g, s, prefix)
    && forall scheds :: prefix <= scheds && IsRun(g, s, scheds) ==> Looping(Rounds(g, s, scheds))
  }

  lemma LostIsDoomed(g: Grid, s: Loop, prefix: seq<seq<Link>>)
    requires Shaped(g, s) && IsRun(g, s, prefix) && OrderlyRun(g, s, prefix) && Lost(g, Rounds(g, s, prefix))
    ensures Doomed(g, s, prefix)
  {
    forall scheds | prefix <= scheds && IsRun(g, s, scheds) ensures Looping(Rounds(g, s, scheds)) {
      var rest := scheds[|prefix|..];
      assert scheds == prefix + rest;
      RunsMeet(g, s, prefix, rest);
      SplitNeverExits(g, Rounds(g, s, prefix), rest);
    }
  }

  /** A doomed run can be made as long as one likes. */
  lemma {:induction false} Endless(g: Grid, s: Loop, prefix: seq<seq<Link>>, n: nat) returns (scheds: seq<seq<Link>>)
    requires Shaped(g, s) && Doomed(g, s, prefix)
    ensures |scheds| == |prefix| + n && prefix <= scheds && IsRun(g, s, scheds)
  {
    scheds := prefix;
    if n > 0 {
      var shorter := Endless(g, s, prefix, n - 1);
      var last := SyncExists(g, Rounds(g, s, shorter));
      Extend(g, s, shorter, last);
      scheds := shorter + [last];
    }
  }

  /** The first round of the synchronous loop that is not calm. */
  lemma {:induction false} FirstRough(g: Grid, s: Loop, n: nat) returns (k: nat)
    requires Shaped(g, s) && Reaches(g, s, n) && !Calm(g, SyncRounds(g, s, n))
    ensures Reaches(g, s, k) && !Calm(g, SyncRounds(g, s, k)) && CalmBefore(g, s, k)
  {
    if i: nat :| i < n && Reaches(g, s, i) && !Calm(g, SyncRounds(g, s, i)) {
      k := FirstRough(g, s, i);
    } else {
      k := n;
    }
  }

  lemma TaskInFrontier(g: Grid, k: set<nat>, a: Loop, l: Link)
    requires Shaped(g, a) && Isolated(g, k) && a.frontier <= k && l in Tasks(g, a.frontier)
    ensures l.node in k
  {
    FrontierStays(g, a, [], k);
    assert l.node in Round(g, a, []).frontier;
  }

  /** If the first rounds are calm and the next is not, some run is doomed. */
  lemma RoughDiverges(g: Grid, s: Loop, n: nat) returns (prefix: seq<seq<Link>>)
    requires Poised(g, s) && AllSettle(g, s)
    requires Reaches(g, s, n) && !Calm(g, SyncRounds(g, s, n)) && CalmBefore(g, s, n)
    ensures Doomed(g, s, prefix)
  {
    FusedCalmRun(g, s, n);
    var fused :| |fused| == n && SyncedFused(g, s, fused);
    SameRound(g, Rounds(g, s, fused), SyncRounds(g, s, n), []);
    prefix := RivalRun(g, s, fused);
  }

  lemma RivalRun(g: Grid, s: Loop, fused: seq<seq<Link>>) returns (prefix: seq<seq<Link>>)
    requires Poised(g, s) && AllSettle(g, s) && IsRun(g, s, fused) && FusedRun(g, s, fused) && OrderlyRun(g, s, fused)
    requires Looping(Rounds(g, s, fused)) && !Calm(g, Rounds(g, s, fused))
    ensures Doomed(g, s, prefix)
  {
    var top := GroundedTiered(g, s);
    var k := IslandsOf(g, s.frontier);
    RunsDown(g, k, top, s, fused);
    var a := Rounds(g, s, fused);
    var l, j := RivalTasks(g, k, top, a);
    RivalLabels(g, k, top, a, l, j);
    if a.cn[l.node] == 0 {
      prefix := RoughRun(g, s, fused, k, top, l, j);
    } else {
      var sched := RivalsStay(g, k, top, a, l, j);
      Extend(g, s, fused, sched);
      OrderlyExtend(g, s, fused, sched);
      prefix := RoughRun(g, s, fused + [sched], k, top, l, j);
    }
  }

  lemma RivalTasks(g: Grid, k: set<nat>, top: seq<int>, a: Loop) returns (l: Link, j: Link)
    requires Tiered(g, k, top, a) && !Calm(g, a)
    ensures Rivals(g, k, top, a, l, j)
  {
    var bd, tasks := Lifted(g, a), Tasks(g, a.frontier);
    l, j :| l in tasks && j in tasks && l.node == j.node && Hot(bd, a.cn, l) && Hot(bd, a.cn, j) && l != j;
    TaskInFrontier(g, k, a, l);
  }

  /** A synchronous round keeps every node in its tier. */
  lemma SyncTier(g: Grid, k: set<nat>, top: seq<int>, a: Loop, t: nat)
    requires Tiered(g, k, top, a) && t in k
    ensures Tier(top[t], SyncRound(g, a).cn[t])
  {
    var bd, tasks := Lifted(g, a), Tasks(g, a.frontier);
    var v := SyncRound(g, a).cn[t];
    SyncIsSettled(bd, a.cn, tasks, SyncRound(g, a).cn);
    assert Settled(bd, a.cn, tasks, t, v) && Tier(top[t], a.cn[t]);
    if v != a.cn[t] {
      var l :| l in tasks && l.node == t && Hot(bd, a.cn, l) && v == a.cn[t] + bd[l.switch];
      LiftedTier(g, k, top, a, l);
    }
  }

  /** Rivals of a node labelled -1: after a synchronous round they are rivals of the same node, now 0. */
  lemma RivalsStay(g: Grid, k: set<nat>, top: seq<int>, a: Loop, l: Link, j: Link) returns (sched: seq<Link>)
    requires Rivals(g, k, top, a, l, j) && a.cn[l.node] == -1
    ensures Complete(Raced(g, a, sched)) && Looping(Round(g, a, sched)) && OrderlyRound(g, a, sched)
    ensures Rough(g, k, top, Round(g, a, sched), l, j)
  {
    RivalLabels(g, k, top, a, l, j);
    sched := SyncExists(g, a);
    var a' := Round(g, a, sched);
    RoundShaped(g, a, sched);
    forall c | c in k ensures |a'.cn| == g.cns && Tier(top[c], a'.cn[c]) {
      SyncTier(g, k, top, a, c);
    }
    TieredIfNodes(g, k, top, a, sched);
    CounterStays(Lifted(g, a), a.cn, Tasks(g, a.frontier), sched);
    RaisedToZero(g, k, top, a, l, j);
    var c := GroundedLabel(g, a, l);
    assert l == Link(l.node, l.switch) && j == Link(l.node, j.switch);
    Across(g, a, sched, c, l.node, l.switch);
    StillHot(g, k, top, a', l, Lifted(g, a)[l.switch]);
    StillHot(g, k, top, a', j, Lifted(g, a)[j.switch]);
  }

  lemma RaisedToZero(g: Grid, k: set<nat>, top: seq<int>, a: Loop, l: Link, j: Link)
    requires Rivals(g, k, top, a, l, j) && a.cn[l.node] == -1
    ensures SyncRound(g, a).cn[l.node] == 0
  {
    var bd, tasks, t := Lifted(g, a), Tasks(g, a.frontier), l.node;
    var v := SyncRound(g, a).cn[t];
    RivalLabels(g, k, top, a, l, j);
    SyncIsSettled(bd, a.cn, tasks, SyncRound(g, a).cn);
    assert Settled(bd, a.cn, tasks, t, v);
    if v != a.cn[t] {
      var h :| h in tasks && h.node == t && Hot(bd, a.cn, h) && v == a.cn[t] + bd[h.switch];
      LiftedTier(g, k, top, a, h);
    }
  }

  /** A switch that carries the top is hot for every lower node next to it, in every later round. */
  lemma StillHot(g: Grid, k: set<nat>, top: seq<int>, a: Loop, l: Link, v: int)
    requires Tiered(g, k, top, a) && l in g.links && l.node in a.frontier && Closed(g, l.switch)
    requires a.bd[l.switch] >= v > a.cn[l.node] && v > 0
    ensures l in Tasks(g, a.frontier) && Hot(Lifted(g, a), a.cn, l)
  {
    LiftedIsMax(g, a, l.switch);
    assert l.switch in Reached(g, a.frontier);
  }

  lemma RoughRun(g: Grid, s: Loop, scheds: seq<seq<Link>>, k: set<nat>, top: seq<int>, l: Link, j: Link)
      returns (prefix: seq<seq<Link>>)
    requires Shaped(g, s) && IsRun(g, s, scheds) && OrderlyRun(g, s, scheds) && Looping(Rounds(g, s, scheds))
    requires Rough(g, k, top, Rounds(g, s, scheds), l, j)
    ensures Doomed(g, s, prefix)
  {
    var bad := RoughSplits(g, k, top, Rounds(g, s, scheds), l, j);
    Extend(g, s, scheds, bad);
    OrderlyExtend(g, s, scheds, bad);
    prefix := scheds + [bad];
    LostIsDoomed(g, s, prefix);
  }

  /** A run that is still going after `most` rounds. */
  ghost predicate StillGoing(g: Grid, s: Loop, scheds: seq<seq<Link>>, most: nat)
    requires Shaped(g, s)
  {
    IsRun(g, s, scheds) && Looping(Rounds(g, s, scheds)) && |scheds| > most
  }

  ghost predicate EndsWithin(g: Grid, s: Loop, most: nat)
    requires Shaped(g, s)
  {
    forall scheds :: !StillGoing(g, s, scheds, most)
  }

  lemma CalmEnds(g: Grid, s: Loop)
    requires Poised(g, s) && AllSettle(g, s) && AlwaysCalm(g, s)
    ensures EndsWithin(g, s, 3 * g.cns)
    ensures Isolated(g, s.frontier) ==> EndsWithin(g, s, 2 * g.cns)
    ensures TwoValued(g, s) ==> EndsWithin(g, s, g.cns)
  {
    forall scheds, most: nat | StillGoing(g, s, scheds, most) ensures WithinBounds(g, s, most + 2) {
      CalmExits(g, s, scheds);
    }
  }

  /** Some round not calm: after some prefix no run exits any more. */
  lemma RoughIsDoomed(g: Grid, s: Loop)
    requires Poised(g, s) && AllSettle(g, s) && !AlwaysCalm(g, s)
    ensures exists prefix :: Doomed(g, s, prefix)
  {
    var n: nat :| Reaches(g, s, n) && !Calm(g, SyncRounds(g, s, n));
    var k := FirstRough(g, s, n);
    var prefix := RoughDiverges(g, s, k);
  }

  lemma DoomedNeverEnds(g: Grid, s: Loop, prefix: seq<seq<Link>>, most: nat)
    requires Shaped(g, s) && Doomed(g, s, prefix)
    ensures !EndsWithin(g, s, most)
  {
    var scheds := Endless(g, s, prefix, most + 1);
    assert StillGoing(g, s, scheds, most);
  }

  /** If every island that the frontier touches settles with fused reads, then with separate reads there
      are two cases, whatever the frontier. All rounds of the synchronous loop are calm, and every schedule
      exits within 3 * cns + 1 rounds; 2 * cns + 1 from whole islands; cns + 1 on labels 0 and M. Or one
      round is not, and after some prefix no run exits any more. */
  lemma CalmOrDoomed(g: Grid, s: Loop)
    requires Poised(g, s) && AllSettle(g, s)
    ensures AlwaysCalm(g, s) <==> EndsWithin(g, s, 3 * g.cns)
    ensures Isolated(g, s.frontier) ==> (AlwaysCalm(g, s) <==> EndsWithin(g, s, 2 * g.cns))
    ensures TwoValued(g, s) ==> (AlwaysCalm(g, s) <==> EndsWithin(g, s, g.cns))
    ensures AlwaysCalm(g, s) <==> !exists prefix :: Doomed(g, s, prefix)
  {
    if AlwaysCalm(g, s) {
      CalmEnds(g, s);
      forall prefix ensures !Doomed(g, s, prefix) {
        if Doomed(g, s, prefix) {
          DoomedNeverEnds(g, s, prefix, 3 * g.cns);
        }
      }
    } else {
      RoughIsDoomed(g, s);
      var prefix :| Doomed(g, s, prefix);
      DoomedNeverEnds(g, s, prefix, 3 * g.cns);
      DoomedNeverEnds(g, s, prefix, 2 * g.cns);
      DoomedNeverEnds(g, s, prefix, g.cns);
    }
  }
}
