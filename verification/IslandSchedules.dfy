/** When the data race is harmless: exactly when every schedule of every round gives the same labels. */
module IslandSchedules {
  import opened Arithmetic
  import opened Race
  import opened Islands
  import opened IslandExit
  import opened IslandTheorems
  import opened IslandLoop

  // ---- The synchronous round: every task reads the labels the round started with

  /** The label of node `t` once the first `n` switches have pushed back. */
  function Pulled(bd: seq<int>, cn: seq<int>, tasks: set<Link>, t: nat, n: nat): int
    requires t < |cn| && n <= |bd|
  {
    if n == 0 then cn[t] else
    var v, l := Pulled(bd, cn, tasks, t, n - 1), Link(t, n - 1);
    if l in tasks && Hot(bd, cn, l) then Max(v, cn[t] + bd[n - 1]) else v
  }

  function SyncLabels(bd: seq<int>, cn: seq<int>, tasks: set<Link>): seq<int> {
    seq(|cn|, t requires 0 <= t < |cn| => Pulled(bd, cn, tasks, t, |bd|))
  }

  predicate SomePasses(bd: seq<int>, cn: seq<int>, tasks: set<Link>)
    requires Fits(bd, cn, tasks)
  {
    exists l :: l in tasks && bd[l.switch] > cn[l.node]
  }

  function SyncRound(g: Grid, s: Loop): (s': Loop)
    requires Shaped(g, s)
    ensures Shaped(g, s')
  {
    var bd, tasks := Lifted(g, s), Tasks(g, s.frontier);
    Loop(SyncLabels(bd, s.cn, tasks), bd, set l | l in tasks :: l.node,
         s.counter + (if SomePasses(bd, s.cn, tasks) then 1 else 0), s.counter)
  }

  function SyncRounds(g: Grid, s: Loop, n: nat): (s': Loop)
    requires Shaped(g, s)
    ensures Shaped(g, s')
  {
    if n == 0 then s else SyncRound(g, SyncRounds(g, s, n - 1))
  }

  lemma {:induction false} PulledSoFar(bd: seq<int>, cn: seq<int>, tasks: set<Link>, t: nat, n: nat)
    requires t < |cn| && n <= |bd|
    ensures var v := Pulled(bd, cn, tasks, t, n);
            && (v == cn[t] || exists l :: l in tasks && l.node == t && Hot(bd, cn, l) && v == cn[t] + bd[l.switch])
            && forall l :: l in tasks && l.node == t && l.switch < n && Hot(bd, cn, l) ==> v >= cn[t] + bd[l.switch]
  {
    if n > 0 {
      PulledSoFar(bd, cn, tasks, t, n - 1);
      forall l | l in tasks && l.node == t && l.switch < n && Hot(bd, cn, l)
        ensures l.switch < n - 1 || l == Link(t, n - 1)
      {
      }
    }
  }

  lemma SettledUnique(bd: seq<int>, cn: seq<int>, tasks: set<Link>, t: nat, v: int, w: int)
    requires t < |cn| && Settled(bd, cn, tasks, t, v) && Settled(bd, cn, tasks, t, w)
    ensures v == w
  {
  }

  lemma SyncIsSettled(bd: seq<int>, cn: seq<int>, tasks: set<Link>, cn': seq<int>)
    ensures AllSettled(bd, cn, tasks, cn') <==> cn' == SyncLabels(bd, cn, tasks)
  {
    var sync := SyncLabels(bd, cn, tasks);
    forall t: nat | t < |cn| ensures Settled(bd, cn, tasks, t, sync[t]) {
      PulledSoFar(bd, cn, tasks, t, |bd|);
    }
    if AllSettled(bd, cn, tasks, cn') {
      forall t: nat | t < |cn| ensures cn'[t] == sync[t] {
        SettledUnique(bd, cn, tasks, t, cn'[t], sync[t]);
      }
    }
  }

  // ---- Some schedule is synchronous: node by node, all test, then all read, then all write

  predicate Passes(bd: seq<int>, cn: seq<int>, l: Link)
    requires l.node < |cn| && l.switch < |bd|
  {
    bd[l.switch] > cn[l.node]
  }

  /** The races differ at node `n` only. */
  predicate SameBut(r: Race, r0: Race, n: nat) {
    && r.stage.Keys == r0.stage.Keys && |r.cn| == |r0.cn|
    && (forall l :: l in r.stage && l.node != n ==> r.stage[l] == r0.stage[l])
    && (forall t :: 0 <= t < |r.cn| && t != n ==> r.cn[t] == r0.cn[t])
  }

  function TasksOf(r: Race, n: nat): set<Link> { set l | l in r.stage && l.node == n }

  /** Node `n` is next: its tasks have not begun, and no other is under way. */
  predicate NodeNext(bd: seq<int>, r: Race, n: nat) {
    AtEase(r) && Fits(bd, r.cn, r.stage.Keys) && n < |r.cn| && forall l :: l in r.stage && l.node == n ==> r.stage[l] == Ready
  }

  ghost function StageAfter(bd: seq<int>, cn: seq<int>, l: Link, steps: int): Stage
    requires l.node < |cn| && l.switch < |bd|
  {
    if steps <= 0 then Ready
    else if !Passes(bd, cn, l) then Finished
    else if steps == 1 then Passed
    else Loaded(cn[l.node] + bd[l.switch])
  }

  /** No label has been written; the tasks of node `n` outside `todo` have taken `steps` steps, the others
      one less. */
  ghost predicate Marched(bd: seq<int>, r0: Race, r: Race, n: nat, todo: set<Link>, steps: nat) {
    && NodeNext(bd, r0, n) && SameBut(r, r0, n) && r.cn == r0.cn
    && forall l :: l in r.stage && l.node == n ==>
         r.stage[l] == StageAfter(bd, r0.cn, l, if l in todo then steps - 1 else steps)
  }

  /** Two tasks of one node have different switches. */
  lemma NodeFree(bd: seq<int>, r0: Race, r: Race, l: Link)
    requires NodeNext(bd, r0, l.node) && SameBut(r, r0, l.node)
    ensures Free(r, l)
  {
    forall j | j in r.stage && j != l && j.switch == l.switch ensures r.stage[j] == Ready || r.stage[j] == Finished {
      assert j.node != l.node;
      assert r.stage[j] == r0.stage[j];
    }
  }

  lemma RunOne(bd: seq<int>, r: Race, l: Link)
    ensures Run(bd, r, [l]) == Step(bd, r, l) && (Free(r, l) ==> Orderly(bd, r, [l]))
  {
    assert Run(bd, r, [l][..0]) == r;
  }

  lemma OneThen(bd: seq<int>, r: Race, l: Link, rest: seq<Link>)
    requires Free(r, l) && Orderly(bd, Step(bd, r, l), rest)
    ensures Run(bd, r, [l] + rest) == Run(bd, Step(bd, r, l), rest) && Orderly(bd, r, [l] + rest)
  {
    RunOne(bd, r, l);
    RunConcat(bd, r, [l], rest);
    OrderlyConcat(bd, r, [l], rest);
  }

  lemma {:induction false} March(bd: seq<int>, r0: Race, r: Race, n: nat, todo: set<Link>, steps: nat) returns (sched: seq<Link>)
    requires Marched(bd, r0, r, n, todo, steps) && todo <= TasksOf(r, n) && 1 <= steps <= 2
    ensures Marched(bd, r0, Run(bd, r, sched), n, {}, steps) && Orderly(bd, r, sched)
    decreases todo
  {
    if todo == {} {
      sched := [];
    } else {
      var l :| l in todo;
      MarchOne(bd, r0, r, n, todo, steps, l);
      var rest := March(bd, r0, Step(bd, r, l), n, todo - {l}, steps);
      NodeFree(bd, r0, r, l);
      OneThen(bd, r, l, rest);
      sched := [l] + rest;
    }
  }

  lemma MarchOne(bd: seq<int>, r0: Race, r: Race, n: nat, todo: set<Link>, steps: nat, l: Link)
    requires Marched(bd, r0, r, n, todo, steps) && l in todo && todo <= TasksOf(r, n) && 1 <= steps <= 2
    ensures Marched(bd, r0, Step(bd, r, l), n, todo - {l}, steps) && TasksOf(Step(bd, r, l), n) == TasksOf(r, n)
  {
  }

  /** Tasks of node `n` outside `todo` have written; the others are about to, or failed the test. */
  ghost predicate Writing(bd: seq<int>, r0: Race, r: Race, n: nat, todo: set<Link>) {
    && NodeNext(bd, r0, n) && SameBut(r, r0, n)
    && (forall l :: l in r.stage && l.node == n ==> r.stage[l] == if l in todo then StageAfter(bd, r0.cn, l, 2) else Finished)
    && Settled(bd, r0.cn, TasksOf(r0, n) - todo, n, r.cn[n])
  }

  lemma WriteOne(bd: seq<int>, r0: Race, r: Race, n: nat, todo: set<Link>, l: Link)
    requires Writing(bd, r0, r, n, todo) && l in todo && todo <= TasksOf(r0, n)
    ensures Writing(bd, r0, Step(bd, r, l), n, todo - {l})
  {
    var r' := Step(bd, r, l);
    var done := TasksOf(r0, n) - todo;
    assert TasksOf(r0, n) - (todo - {l}) == done + {l};
    assert r.stage[l] == StageAfter(bd, r0.cn, l, 2);
    WriteSettles(bd, r0.cn, done, l, r.cn[n], r'.cn[n]);
  }

  /** One more write, of a task that read the old labels. */
  lemma WriteSettles(bd: seq<int>, cn: seq<int>, done: set<Link>, l: Link, v: int, v': int)
    requires l.node < |cn| && l.switch < |bd| && Settled(bd, cn, done, l.node, v)
    requires v' == if Passes(bd, cn, l) then Max(v, cn[l.node] + bd[l.switch]) else v
    ensures Settled(bd, cn, done + {l}, l.node, v')
  {
    if v' != v {
      assert l in done + {l} && Hot(bd, cn, l);
    } else if v != cn[l.node] {
      var k :| k in done && k.node == l.node && Hot(bd, cn, k) && v == cn[l.node] + bd[k.switch];
      assert k in done + {l};
    }
  }

  lemma {:induction false} WriteAll(bd: seq<int>, r0: Race, r: Race, n: nat, todo: set<Link>) returns (sched: seq<Link>)
    requires Writing(bd, r0, r, n, todo) && todo <= TasksOf(r0, n)
    ensures Writing(bd, r0, Run(bd, r, sched), n, {}) && Orderly(bd, r, sched)
    decreases todo
  {
    if todo == {} {
      sched := [];
    } else {
      var l :| l in todo;
      WriteOne(bd, r0, r, n, todo, l);
      var rest := WriteAll(bd, r0, Step(bd, r, l), n, todo - {l});
      NodeFree(bd, r0, r, l);
      OneThen(bd, r, l, rest);
      sched := [l] + rest;
    }
  }

  /** Node `n` settles, and nothing else moves. */
  lemma NodeSync(bd: seq<int>, r0: Race, n: nat) returns (sched: seq<Link>)
    requires NodeNext(bd, r0, n)
    ensures Writing(bd, r0, Run(bd, r0, sched), n, {}) && Orderly(bd, r0, sched)
  {
    var a := March(bd, r0, r0, n, TasksOf(r0, n), 1);
    var r1 := Run(bd, r0, a);
    var b := March(bd, r0, r1, n, TasksOf(r1, n), 2);
    var r2 := Run(bd, r1, b);
    assert TasksOf(r0, n) - TasksOf(r0, n) == {};
    var c := WriteAll(bd, r0, r2, n, TasksOf(r0, n));
    sched := a + b + c;
    RunConcat(bd, r0, a, b);
    OrderlyConcat(bd, r0, a, b);
    RunConcat(bd, r0, a + b, c);
    OrderlyConcat(bd, r0, a + b, c);
  }

  /** The nodes below `n` have settled, and the others have yet to begin. */
  ghost predicate SettledBelow(bd: seq<int>, cn: seq<int>, tasks: set<Link>, r: Race, n: nat) {
    && r.stage.Keys == tasks && |r.cn| == |cn| && Fits(bd, cn, tasks) && n <= |cn|
    && (forall l :: l in r.stage ==> r.stage[l] == if l.node < n then Finished else Ready)
    && (forall t :: n <= t < |cn| ==> r.cn[t] == cn[t])
    && (forall t: nat :: t < n ==> Settled(bd, cn, tasks, t, r.cn[t]))
  }

  lemma SettledLocal(bd: seq<int>, cn: seq<int>, cn0: seq<int>, tasks: set<Link>, done: set<Link>, n: nat, v: int)
    requires n < |cn| == |cn0| && cn[n] == cn0[n] && Settled(bd, cn0, done, n, v)
    requires done <= tasks && forall l :: l in tasks && l.node == n ==> l in done
    ensures Settled(bd, cn, tasks, n, v)
  {
    forall l | l in tasks && l.node == n ensures Hot(bd, cn, l) <==> Hot(bd, cn0, l) {
    }
  }

  lemma {:induction false} SyncBelow(bd: seq<int>, cn: seq<int>, tasks: set<Link>, n: nat) returns (sched: seq<Link>)
    requires Fits(bd, cn, tasks) && n <= |cn|
    ensures SettledBelow(bd, cn, tasks, Run(bd, Begin(cn, tasks), sched), n) && Orderly(bd, Begin(cn, tasks), sched)
  {
    if n == 0 {
      sched := [];
    } else {
      var before := SyncBelow(bd, cn, tasks, n - 1);
      var r := Run(bd, Begin(cn, tasks), before);
      var more := NodeSync(bd, r, n - 1);
      sched := before + more;
      RunConcat(bd, Begin(cn, tasks), before, more);
      OrderlyConcat(bd, Begin(cn, tasks), before, more);
      NodeDone(bd, cn, tasks, r, Run(bd, r, more), n - 1);
    }
  }

  lemma NodeDone(bd: seq<int>, cn: seq<int>, tasks: set<Link>, r0: Race, r: Race, n: nat)
    requires SettledBelow(bd, cn, tasks, r0, n) && n < |cn| && Writing(bd, r0, r, n, {})
    ensures SettledBelow(bd, cn, tasks, r, n + 1)
  {
    SettledLocal(bd, cn, r0.cn, tasks, TasksOf(r0, n) - {}, n, r.cn[n]);
    forall l | l in r.stage ensures r.stage[l] == if l.node < n + 1 then Finished else Ready {
      assert l.node != n ==> r.stage[l] == r0.stage[l];
    }
  }

  /** Some interleaving in which each switch works on one node at a time is synchronous. */
  lemma SyncSchedule(bd: seq<int>, cn: seq<int>, tasks: set<Link>) returns (sched: seq<Link>)
    requires Fits(bd, cn, tasks)
    ensures var r := Run(bd, Begin(cn, tasks), sched);
            Complete(r) && r.cn == SyncLabels(bd, cn, tasks)
    ensures Orderly(bd, Begin(cn, tasks), sched)
  {
    sched := SyncBelow(bd, cn, tasks, |cn|);
    SyncIsSettled(bd, cn, tasks, Run(bd, Begin(cn, tasks), sched).cn);
  }

  // ---- Rounds

  /** Equal up to the counter's value. */
  predicate Same(s: Loop, t: Loop) {
    s.cn == t.cn && s.bd == t.bd && s.frontier == t.frontier && (Looping(s) <==> Looping(t))
  }

  /** No node is about to be raised by two switches. */
  ghost predicate Calm(g: Grid, s: Loop)
    requires Shaped(g, s)
  {
    RaceFree(Lifted(g, s), s.cn, Tasks(g, s.frontier))
  }

  /** In this round each switch works on one node at a time. */
  ghost predicate OrderlyRound(g: Grid, s: Loop, sched: seq<Link>)
    requires Shaped(g, s)
  {
    Orderly(Lifted(g, s), Begin(s.cn, Tasks(g, s.frontier)), sched)
  }

  /** In every round of the run it does. */
  ghost predicate OrderlyRun(g: Grid, s: Loop, scheds: seq<seq<Link>>)
    requires Shaped(g, s)
  {
    scheds == [] ||
    (OrderlyRun(g, s, scheds[..|scheds| - 1])
     && OrderlyRound(g, Rounds(g, s, scheds[..|scheds| - 1]), scheds[|scheds| - 1]))
  }

  /** Rounds do not depend on the counter. */
  lemma SameRound(g: Grid, s: Loop, t: Loop, sched: seq<Link>)
    requires Shaped(g, s) && Shaped(g, t) && Same(s, t)
    ensures Raced(g, s, sched) == Raced(g, t, sched) && Same(Round(g, s, sched), Round(g, t, sched))
    ensures OrderlyRound(g, s, sched) <==> OrderlyRound(g, t, sched)
    ensures Lifted(g, s) == Lifted(g, t) && Same(SyncRound(g, s), SyncRound(g, t)) && (Calm(g, s) <==> Calm(g, t))
  {
  }

  /** A complete round whose labels settle is the synchronous round. */
  lemma SettledRound(g: Grid, s: Loop, sched: seq<Link>)
    requires Shaped(g, s) && Complete(Raced(g, s, sched))
    ensures Raced(g, s, sched).cn == SyncRound(g, s).cn ==> Same(Round(g, s, sched), SyncRound(g, s))
  {
    RoundShaped(g, s, sched);
    CounterStays(Lifted(g, s), s.cn, Tasks(g, s.frontier), sched);
  }

  /** In a calm round every schedule gives the synchronous result. */
  lemma CalmRound(g: Grid, s: Loop, sched: seq<Link>)
    requires Shaped(g, s) && Calm(g, s) && Complete(Raced(g, s, sched))
    ensures Same(Round(g, s, sched), SyncRound(g, s))
  {
    RoundShaped(g, s, sched);
    var bd, tasks := Lifted(g, s), Tasks(g, s.frontier);
    Rises(bd, Begin(s.cn, tasks), sched);
    forall t: nat | t < |s.cn| ensures Settled(bd, s.cn, tasks, t, Raced(g, s, sched).cn[t]) {
      RaceFreeSettles(bd, s.cn, tasks, sched, t);
    }
    SyncIsSettled(bd, s.cn, tasks, Raced(g, s, sched).cn);
    SettledRound(g, s, sched);
  }

  lemma SyncExists(g: Grid, s: Loop) returns (sched: seq<Link>)
    requires Shaped(g, s)
    ensures Complete(Raced(g, s, sched)) && Same(Round(g, s, sched), SyncRound(g, s)) && OrderlyRound(g, s, sched)
  {
    RoundShaped(g, s, []);
    sched := SyncSchedule(Lifted(g, s), s.cn, Tasks(g, s.frontier));
    SettledRound(g, s, sched);
  }

  /** Otherwise some schedule gives another. */
  lemma StrayExists(g: Grid, s: Loop) returns (sched: seq<Link>)
    requires Shaped(g, s) && !Calm(g, s)
    ensures Complete(Raced(g, s, sched)) && Round(g, s, sched).cn != SyncRound(g, s).cn && OrderlyRound(g, s, sched)
  {
    RoundShaped(g, s, []);
    var bd, tasks := Lifted(g, s), Tasks(g, s.frontier);
    var t;
    sched, t := RaceOvershoots(bd, s.cn, tasks);
    SyncIsSettled(bd, s.cn, tasks, Raced(g, s, sched).cn);
  }

  // ---- Whole runs

  /** The synchronous loop takes at least `n + 1` rounds. */
  ghost predicate Reaches(g: Grid, s: Loop, n: nat)
    requires Shaped(g, s)
  {
    forall i: nat :: i <= n ==> Looping(SyncRounds(g, s, i))
  }

  /** Every round of the synchronous loop is calm. */
  ghost predicate AlwaysCalm(g: Grid, s: Loop)
    requires Shaped(g, s)
  {
    forall n: nat :: Reaches(g, s, n) ==> Calm(g, SyncRounds(g, s, n))
  }

  /** Its first `n` rounds are. */
  ghost predicate CalmBefore(g: Grid, s: Loop, n: nat)
    requires Shaped(g, s)
  {
    forall i: nat :: i < n && Reaches(g, s, i) ==> Calm(g, SyncRounds(g, s, i))
  }

  /** Through calm rounds every run, under any schedules, is the synchronous run. */
  lemma {:induction false} CalmRun(g: Grid, s: Loop, scheds: seq<seq<Link>>)
    requires Shaped(g, s) && CalmBefore(g, s, |scheds|) && IsRun(g, s, scheds)
    ensures Synced(g, s, scheds)
    ensures |scheds| > 0 ==> Reaches(g, s, |scheds| - 1)
  {
    if scheds != [] {
      var prefix, last := scheds[..|scheds| - 1], scheds[|scheds| - 1];
      CalmRun(g, s, prefix);
      var a, b := Rounds(g, s, prefix), SyncRounds(g, s, |prefix|);
      SameRound(g, a, b, last);
      assert Reaches(g, s, |prefix|);
      CalmRound(g, b, last);
    }
  }

  /** `scheds` takes the loop through the first rounds of the synchronous run. */
  ghost predicate Synced(g: Grid, s: Loop, scheds: seq<seq<Link>>)
    requires Shaped(g, s)
  {
    IsRun(g, s, scheds) && Same(Rounds(g, s, scheds), SyncRounds(g, s, |scheds|))
  }

  ghost predicate HasSyncRun(g: Grid, s: Loop, n: nat)
    requires Shaped(g, s)
  {
    exists scheds :: |scheds| == n && Synced(g, s, scheds) && OrderlyRun(g, s, scheds)
  }

  /** As long as it goes on, the synchronous run is a run. */
  lemma {:induction false} SyncRun(g: Grid, s: Loop, n: nat)
    requires Shaped(g, s) && (n > 0 ==> Reaches(g, s, n - 1))
    ensures HasSyncRun(g, s, n)
  {
    if n == 0 {
      NoRounds(g, s);
    } else {
      SyncRun(g, s, n - 1);
      SyncOneMore(g, s, n - 1);
    }
  }

  lemma NoRounds(g: Grid, s: Loop)
    requires Shaped(g, s)
    ensures HasSyncRun(g, s, 0)
  {
    assert Synced(g, s, []) && OrderlyRun(g, s, []);
  }

  lemma SyncOneMore(g: Grid, s: Loop, n: nat)
    requires Shaped(g, s) && HasSyncRun(g, s, n) && Looping(SyncRounds(g, s, n))
    ensures HasSyncRun(g, s, n + 1)
  {
    var prefix :| |prefix| == n && Synced(g, s, prefix) && OrderlyRun(g, s, prefix);
    var last := SyncFrom(g, Rounds(g, s, prefix), SyncRounds(g, s, n));
    ExtendSync(g, s, prefix, last);
    OrderlyExtend(g, s, prefix, last);
    assert |prefix + [last]| == n + 1;
  }

  lemma ExtendSync(g: Grid, s: Loop, prefix: seq<seq<Link>>, last: seq<Link>)
    requires Shaped(g, s) && IsRun(g, s, prefix) && Same(Rounds(g, s, prefix), SyncRounds(g, s, |prefix|))
    requires Looping(SyncRounds(g, s, |prefix|)) && Complete(Raced(g, Rounds(g, s, prefix), last))
    requires Same(Round(g, Rounds(g, s, prefix), last), SyncRound(g, SyncRounds(g, s, |prefix|)))
    ensures Synced(g, s, prefix + [last])
  {
    Extend(g, s, prefix, last);
  }

  lemma SyncFrom(g: Grid, a: Loop, b: Loop) returns (sched: seq<Link>)
    requires Shaped(g, a) && Shaped(g, b) && Same(a, b)
    ensures Complete(Raced(g, a, sched)) && Same(Round(g, a, sched), SyncRound(g, b)) && OrderlyRound(g, a, sched)
  {
    sched := SyncExists(g, b);
    SameRound(g, a, b, sched);
  }

  lemma Extend(g: Grid, s: Loop, scheds: seq<seq<Link>>, last: seq<Link>)
    requires Shaped(g, s)
    ensures Rounds(g, s, scheds + [last]) == Round(g, Rounds(g, s, scheds), last)
    ensures IsRun(g, s, scheds) && Looping(Rounds(g, s, scheds)) && Complete(Raced(g, Rounds(g, s, scheds), last))
            ==> IsRun(g, s, scheds + [last])
  {
    assert (scheds + [last])[..|scheds|] == scheds;
  }

  lemma OrderlyExtend(g: Grid, s: Loop, scheds: seq<seq<Link>>, last: seq<Link>)
    requires Shaped(g, s)
    ensures OrderlyRun(g, s, scheds + [last]) <==> OrderlyRun(g, s, scheds) && OrderlyRound(g, Rounds(g, s, scheds), last)
  {
    assert (scheds + [last])[..|scheds|] == scheds;
  }

  ghost predicate Agree(g: Grid, s: Loop, x: seq<seq<Link>>, y: seq<seq<Link>>)
    requires Shaped(g, s)
  {
    IsRun(g, s, x) && IsRun(g, s, y) && |x| == |y| ==> Same(Rounds(g, s, x), Rounds(g, s, y))
  }

  ghost predicate OrderlyAgree(g: Grid, s: Loop, x: seq<seq<Link>>, y: seq<seq<Link>>)
    requires Shaped(g, s)
  {
    OrderlyRun(g, s, x) && OrderlyRun(g, s, y) ==> Agree(g, s, x, y)
  }

  /** All runs agree, round by round and in when they end, exactly when every round of the synchronous
      loop is calm: for every grid, all labels and every frontier. Runs in which each switch works on one
      node at a time are enough to tell. */
  lemma IndependentIff(g: Grid, s: Loop)
    requires Shaped(g, s)
    ensures AlwaysCalm(g, s) <==> forall x, y :: Agree(g, s, x, y)
    ensures AlwaysCalm(g, s) <==> forall x, y :: OrderlyAgree(g, s, x, y)
  {
    if AlwaysCalm(g, s) {
      forall x, y ensures Agree(g, s, x, y) {
        if IsRun(g, s, x) && IsRun(g, s, y) && |x| == |y| {
          CalmRun(g, s, x);
          CalmRun(g, s, y);
        }
      }
    } else {
      var n: nat :| Reaches(g, s, n) && !Calm(g, SyncRounds(g, s, n));
      var x, y := Disagree(g, s, n);
      assert !Agree(g, s, x, y) && !OrderlyAgree(g, s, x, y);
    }
  }

  lemma Disagree(g: Grid, s: Loop, n: nat) returns (x: seq<seq<Link>>, y: seq<seq<Link>>)
    requires Shaped(g, s) && Reaches(g, s, n) && !Calm(g, SyncRounds(g, s, n))
    ensures IsRun(g, s, x) && IsRun(g, s, y) && |x| == |y| == n + 1
    ensures Rounds(g, s, x).cn != Rounds(g, s, y).cn && OrderlyRun(g, s, x) && OrderlyRun(g, s, y)
  {
    SyncRun(g, s, n);
    var prefix :| |prefix| == n && Synced(g, s, prefix) && OrderlyRun(g, s, prefix);
    var a, b := Rounds(g, s, prefix), SyncRounds(g, s, n);
    var good := SyncExists(g, b);
    var bad := StrayExists(g, b);
    SameRound(g, a, b, good);
    SameRound(g, a, b, bad);
    x, y := prefix + [good], prefix + [bad];
    Extend(g, s, prefix, good);
    Extend(g, s, prefix, bad);
    OrderlyExtend(g, s, prefix, good);
    OrderlyExtend(g, s, prefix, bad);
  }
}
