/** The labelling loop as it stands in the source: fields updated in place, rounds until the counter
    is stable. Nodes and switches are taken in any order, one task at a time. */
module IslandLoop {
  import opened Arithmetic
  import opened Race
  import opened Islands
  import opened IslandExit
  import opened IslandTheorems

  /** What one uninterrupted task leaves behind. */
  function AfterTask(bd: seq<int>, r: Race, l: Link): Race
    requires Active(bd, r, l)
  {
    var done := r.stage[l := Finished];
    if bd[l.switch] > r.cn[l.node]
    then Race(r.cn[l.node := Max(r.cn[l.node], r.cn[l.node] + bd[l.switch])], done, r.passed + 1)
    else Race(r.cn, done, r.passed)
  }

  lemma TaskAlone(bd: seq<int>, r: Race, l: Link)
    requires Active(bd, r, l) && r.stage[l] == Ready
    ensures Run(bd, r, [l, l, l]) == AfterTask(bd, r, l)
  {
    RunThree(bd, r, l, l, l);
    if bd[l.switch] > r.cn[l.node] {
      TaskPasses(bd, r, l);
    } else {
      assert Step(bd, r, l) == Race(r.cn, r.stage[l := Finished], r.passed);
    }
  }

  lemma TaskPasses(bd: seq<int>, r: Race, l: Link)
    requires Active(bd, r, l) && r.stage[l] == Ready && bd[l.switch] > r.cn[l.node]
    ensures Step(bd, Step(bd, Step(bd, r, l), l), l) == AfterTask(bd, r, l)
  {
    var sum := r.cn[l.node] + bd[l.switch];
    var r1 := Race(r.cn, r.stage[l := Passed], r.passed + 1);
    var r2 := Race(r.cn, r.stage[l := Loaded(sum)], r.passed + 1);
    assert Step(bd, r, l) == r1;
    assert Step(bd, r1, l) == r2;
    assert r2.stage[l := Finished] == r.stage[l := Finished];
  }

  lemma TaskFused(bd: seq<int>, r: Race, sched: seq<Link>, l: Link)
    requires Fused(bd, r, sched) && forall k :: !Pending(Run(bd, r, sched), k)
    ensures Fused(bd, r, sched + [l, l, l])
  {
    var s := sched + [l, l, l];
    forall n, k | 0 <= n < |s| && s[n] != k ensures !Pending(Run(bd, r, s[..n]), k) {
      if n <= |sched| {
        assert s[..n] == sched[..n];
        assert sched[..|sched|] == sched;
      } else {
        assert s[..n] == sched + [l, l, l][..n - |sched|];
        TaskPending(bd, r, sched, l, k, n - |sched|);
      }
    }
  }

  lemma {:induction false} TaskPending(bd: seq<int>, r: Race, sched: seq<Link>, l: Link, k: Link, n: nat)
    requires n <= 3 && !Pending(Run(bd, r, sched), k) && k != l
    ensures !Pending(Run(bd, r, sched + [l, l, l][..n]), k)
  {
    if n == 0 {
      assert sched + [l, l, l][..0] == sched;
    } else {
      TaskPending(bd, r, sched, l, k, n - 1);
      var before := sched + [l, l, l][..n - 1];
      assert sched + [l, l, l][..n] == before + [l];
      RunLast(bd, r, before, l);
      StepPending(bd, Run(bd, r, before), l, k);
    }
  }

  lemma RunLast(bd: seq<int>, r: Race, sched: seq<Link>, l: Link)
    ensures Run(bd, r, sched + [l]) == Step(bd, Run(bd, r, sched), l)
  {
    assert (sched + [l])[..|sched|] == sched;
  }

  lemma StepPending(bd: seq<int>, r: Race, l: Link, k: Link)
    requires !Pending(r, k) && k != l
    ensures !Pending(Step(bd, r, l), k)
  {
  }

  /** Tasks still to be run, among all. */
  ghost function Stages(tasks: set<Link>, todo: set<Link>): map<Link, Stage> {
    map l | l in tasks :: if l in todo then Ready else Finished
  }

  lemma StagesNext(tasks: set<Link>, todo: set<Link>, l: Link)
    requires l in todo && todo <= tasks
    ensures Stages(tasks, todo)[l := Finished] == Stages(tasks, todo - {l})
  {
  }

  /** `sched` has run the tasks outside `todo` to their end and started no other. */
  ghost predicate Ran(bd: seq<int>, start: Race, sched: seq<Link>, todo: set<Link>, r: Race) {
    && r == Run(bd, start, sched) && Fused(bd, start, sched) && Orderly(bd, start, sched)
    && r.stage == Stages(start.stage.Keys, todo)
  }

  lemma OneMoreTask(bd: seq<int>, start: Race, sched: seq<Link>, todo: set<Link>, r: Race, l: Link)
    requires Ran(bd, start, sched, todo, r) && l in todo && todo <= start.stage.Keys && Fits(bd, r.cn, start.stage.Keys)
    ensures Active(bd, r, l) && Fits(bd, AfterTask(bd, r, l).cn, start.stage.Keys)
    ensures Ran(bd, start, sched + [l, l, l], todo - {l}, AfterTask(bd, r, l))
  {
    assert l in start.stage;
    TaskAlone(bd, r, l);
    RunConcat(bd, start, sched, [l, l, l]);
    StagesNext(start.stage.Keys, todo, l);
    OneMoreInOrder(bd, start, sched, todo, r, l);
  }

  /** `order` lists the tasks outside `todo`, each once. */
  predicate Lists(order: seq<Link>, tasks: set<Link>, todo: set<Link>) {
    if order == [] then todo == tasks else
    var last := order[|order| - 1];
    last in tasks && last !in todo && Lists(order[..|order| - 1], tasks, todo + {last})
  }

  /** One task after the other, each without interruption. */
  function InTurn(bd: seq<int>, start: Race, order: seq<Link>): Race {
    if order == [] then start else
    var r, last := InTurn(bd, start, order[..|order| - 1]), order[|order| - 1];
    if Active(bd, r, last) then AfterTask(bd, r, last) else r
  }

  function Thrice(order: seq<Link>): seq<Link> {
    if order == [] then [] else Thrice(order[..|order| - 1]) + [order[|order| - 1], order[|order| - 1], order[|order| - 1]]
  }

  lemma {:induction false} InTurnRan(bd: seq<int>, cn: seq<int>, tasks: set<Link>, order: seq<Link>, todo: set<Link>)
    requires Lists(order, tasks, todo) && Fits(bd, cn, tasks)
    ensures var r := InTurn(bd, Begin(cn, tasks), order);
            Ran(bd, Begin(cn, tasks), Thrice(order), todo, r) && Fits(bd, r.cn, tasks) && todo <= tasks
  {
    var start := Begin(cn, tasks);
    assert start.stage.Keys == tasks;
    if order == [] {
      assert start.stage == Stages(tasks, todo);
    } else {
      var last, before := order[|order| - 1], order[..|order| - 1];
      InTurnRan(bd, cn, tasks, before, todo + {last});
      OneMoreTask(bd, start, Thrice(before), todo + {last}, InTurn(bd, start, before), last);
      assert todo + {last} - {last} == todo;
    }
  }

  lemma ListsNext(order: seq<Link>, tasks: set<Link>, todo: set<Link>, l: Link)
    requires Lists(order, tasks, todo) && l in todo && todo <= tasks
    ensures Lists(order + [l], tasks, todo - {l}) && todo - {l} <= tasks
  {
    assert (order + [l])[..|order|] == order && todo - {l} + {l} == todo;
  }

  lemma InTurnNext(bd: seq<int>, cn: seq<int>, tasks: set<Link>, order: seq<Link>, todo: set<Link>, l: Link)
    requires Lists(order, tasks, todo) && Fits(bd, cn, tasks) && l in todo
    ensures var r := InTurn(bd, Begin(cn, tasks), order);
            Active(bd, r, l) && InTurn(bd, Begin(cn, tasks), order + [l]) == AfterTask(bd, r, l)
  {
    InTurnRan(bd, cn, tasks, order, todo);
    assert Begin(cn, tasks).stage.Keys == tasks;
    assert (order + [l])[..|order|] == order;
  }

  lemma OneMoreInOrder(bd: seq<int>, start: Race, sched: seq<Link>, todo: set<Link>, r: Race, l: Link)
    requires Ran(bd, start, sched, todo, r)
    ensures Fused(bd, start, sched + [l, l, l]) && Orderly(bd, start, sched + [l, l, l])
  {
    NonePending(start.stage.Keys, todo, r);
    TaskFused(bd, start, sched, l);
    OrderlyTask(bd, r, l);
    OrderlyConcat(bd, start, sched, [l, l, l]);
  }

  lemma NonePending(tasks: set<Link>, todo: set<Link>, r: Race)
    requires r.stage == Stages(tasks, todo)
    ensures AtEase(r) && forall k :: !Pending(r, k)
  {
  }

  class Labelling {
    const g: Grid
    var cn: seq<int>
    var bd: seq<int>
    var frontier: set<nat>
    var counter: nat
    var previous: int

    function View(): Loop
      reads this
    {
      Loop(cn, bd, frontier, counter, previous)
    }

    constructor (g: Grid, labels: seq<int>, frontier: set<nat>)
      requires Wired(g) && |labels| == g.cns
      ensures this.g == g && View() == Loop(labels, seq(g.switches, _ => -1), frontier, 0, 1)
    {
      this.g := g;
      cn, bd, this.frontier := labels, seq(g.switches, _ => -1), frontier;
      counter, previous := 0, 1;
    }

    /** Every frontier node pushes its label to the switches next to it. */
    method PushToSwitches() returns (reached: set<nat>)
      requires Shaped(g, View())
      modifies `bd
      ensures reached == Reached(g, frontier)
      ensures bd == Lifted(g, old(View()))
    {
      var all := set l | l in g.links && l.node in frontier;
      var todo := all;
      reached := {};
      while todo != {}
        invariant todo <= all && |bd| == g.switches
        invariant reached == set l | l in all - todo :: l.switch
        invariant forall b :: 0 <= b < g.switches ==> bd[b] >= old(bd)[b]
        invariant forall l :: l in all - todo ==> bd[l.switch] >= cn[l.node]
        invariant forall b :: 0 <= b < g.switches ==> bd[b] == old(bd)[b] || PushedBy(all, cn, b, bd[b])
        decreases todo
      {
        var l :| l in todo;
        assert all - (todo - {l}) == (all - todo) + {l};
        if bd[l.switch] < cn[l.node] {
          assert PushedBy(all, cn, l.switch, cn[l.node]);
        }
        bd := bd[l.switch := Max(bd[l.switch], cn[l.node])];
        reached := reached + {l.switch};
        todo := todo - {l};
      }
      assert all - todo == all;
      forall b: nat | b < g.switches ensures bd[b] == Lifted(g, old(View()))[b] {
        LiftedIsMax(g, old(View()), b);
        forall c: nat | c in frontier && Link(c, b) in g.links ensures bd[b] >= cn[c] {
          assert Link(c, b) in all;
        }
      }
    }

    ghost predicate PushedBy(links: set<Link>, labels: seq<int>, b: nat, v: int) {
      exists l :: l in links && l.switch == b && l.node < |labels| && labels[l.node] == v
    }

    /** The test and the update, task by task. */
    method RunTasks(tasks: set<Link>) returns (ghost sched: seq<Link>)
      requires Fits(bd, cn, tasks)
      modifies `cn, `counter
      ensures var r := Run(bd, Begin(old(cn), tasks), sched);
              Complete(r) && cn == r.cn && counter == old(counter) + r.passed
      ensures Fused(bd, Begin(old(cn), tasks), sched) && Orderly(bd, Begin(old(cn), tasks), sched)
    {
      ghost var start, order := Begin(cn, tasks), [];
      var todo := tasks;
      while todo != {}
        invariant todo <= tasks && Lists(order, tasks, todo)
        invariant var r := InTurn(bd, start, order); cn == r.cn && counter == old(counter) + r.passed
        decreases todo
      {
        var l :| l in todo;
        InTurnNext(bd, start.cn, tasks, order, todo, l);
        ListsNext(order, tasks, todo, l);
        if bd[l.switch] > cn[l.node] {
          counter := counter + 1;
          var newTopoID := cn[l.node] + bd[l.switch];
          cn := cn[l.node := Max(cn[l.node], newTopoID)];
        }
        order, todo := order + [l], todo - {l};
      }
      InTurnRan(bd, start.cn, tasks, order, {});
      sched := Thrice(order);
    }

    /** Every reached closed switch pushes back; the nodes it looked at are the next frontier. */
    method PushBack(reached: set<nat>) returns (ghost sched: seq<Link>)
      requires Wired(g) && |cn| == g.cns && |bd| == g.switches && reached == Reached(g, frontier)
      modifies `cn, `frontier, `counter
      ensures var r := Run(bd, Begin(old(cn), Tasks(g, old(frontier))), sched);
              Complete(r) && cn == r.cn && counter == old(counter) + r.passed
      ensures Fused(bd, Begin(old(cn), Tasks(g, old(frontier))), sched)
      ensures Orderly(bd, Begin(old(cn), Tasks(g, old(frontier))), sched)
      ensures frontier == set l | l in Tasks(g, old(frontier)) :: l.node
    {
      var tasks := set l | l in g.links && l.switch in reached && Closed(g, l.switch);
      assert tasks == Tasks(g, frontier);
      sched := RunTasks(tasks);
      frontier := set l | l in tasks :: l.node;
    }

    method RunRound() returns (ghost sched: seq<Link>)
      requires Shaped(g, View())
      modifies this
      ensures View() == Round(g, old(View()), sched)
      ensures Complete(Raced(g, old(View()), sched))
      ensures Fused(Lifted(g, old(View())), Begin(old(cn), Tasks(g, old(frontier))), sched)
      ensures Orderly(Lifted(g, old(View())), Begin(old(cn), Tasks(g, old(frontier))), sched)
    {
      previous := counter;
      var reached := PushToSwitches();
      sched := PushBack(reached);
    }

    /** The loop, from any frontier, on labels that settle. */
    method RunToExit() returns (ghost scheds: seq<seq<Link>>)
      requires Poised(g, View()) && AllSettle(g, View())
      modifies this
      ensures View() == Rounds(g, old(View()), scheds) && !Looping(View())
      ensures IsRun(g, old(View()), scheds) && |scheds| <= 3 * g.cns + 1
      ensures Isolated(g, old(frontier)) ==>
                |scheds| <= 2 * g.cns + 1 && forall c :: c in old(frontier) ==> c < |cn| && IsTop(g, old(cn), c, cn[c])
      ensures TwoValued(g, old(View())) ==> |scheds| <= g.cns + 1
    {
      ghost var start := View();
      scheds := [];
      while previous != counter
        invariant View() == Rounds(g, start, scheds)
        invariant IsRun(g, start, scheds) && FusedRun(g, start, scheds)
        invariant WithinBounds(g, start, |scheds|)
        decreases 3 * g.cns + 1 - |scheds|
      {
        RunBounds(g, start, scheds);
        var sched := RunRound();
        assert (scheds + [sched])[..|scheds|] == scheds;
        scheds := scheds + [sched];
      }
      Terminates(g, start, scheds);
    }
  }

  ghost predicate WithinBounds(g: Grid, s: Loop, n: nat) {
    && n <= 3 * g.cns + 1 && (Isolated(g, s.frontier) ==> n <= 2 * g.cns + 1) && (TwoValued(g, s) ==> n <= g.cns + 1)
  }

  lemma RunBounds(g: Grid, s: Loop, scheds: seq<seq<Link>>)
    requires Poised(g, s) && AllSettle(g, s) && IsRun(g, s, scheds) && FusedRun(g, s, scheds)
    requires Looping(Rounds(g, s, scheds))
    ensures WithinBounds(g, s, |scheds| + 1) && |scheds| <= 3 * g.cns
  {
    Terminates(g, s, scheds);
    if TwoValued(g, s) {
      TerminatesFast(g, s, scheds);
    }
  }
}
