/** The racy half of a labelling round. One task per (connectivity node, closed switch) link runs

      if bd[switch] > cn[node] then counter++; new := cn[node] + bd[switch]; writeMax(cn[node], new)

    where the test and the addition read cn[node] separately. Each read and the write is one step, and
    tasks take their steps in any order. */
module Race {
  import opened Arithmetic

  /** A connectivity node and a switch next to it. */
  datatype Link = Link(node: nat, switch: nat)

  datatype Stage = Ready | Passed | Loaded(sum: int) | Finished

  datatype Race = Race(cn: seq<int>, stage: map<Link, Stage>, passed: nat)

  function Begin(cn: seq<int>, tasks: set<Link>): Race { Race(cn, map l | l in tasks :: Ready, 0) }

  predicate Active(bd: seq<int>, r: Race, l: Link) { l in r.stage && l.node < |r.cn| && l.switch < |bd| }

  /** The next step of task `l`; a link that is no task, or is finished, does nothing. */
  function Step(bd: seq<int>, r: Race, l: Link): Race {
    if !Active(bd, r, l) then r else
    match r.stage[l]
    case Ready =>
      if bd[l.switch] > r.cn[l.node] then r.(stage := r.stage[l := Passed], passed := r.passed + 1)
      else r.(stage := r.stage[l := Finished])
    case Passed => r.(stage := r.stage[l := Loaded(r.cn[l.node] + bd[l.switch])])
    case Loaded(sum) => r.(cn := r.cn[l.node := Max(r.cn[l.node], sum)], stage := r.stage[l := Finished])
    case Finished => r
  }

  function Run(bd: seq<int>, r: Race, sched: seq<Link>): Race {
    if sched == [] then r else Step(bd, Run(bd, r, sched[..|sched| - 1]), sched[|sched| - 1])
  }

  predicate Complete(r: Race) { forall l :: l in r.stage ==> r.stage[l] == Finished }

  /** The links belong to the grid whose labels these are. */
  predicate Fits(bd: seq<int>, cn: seq<int>, tasks: set<Link>) {
    forall l :: l in tasks ==> l.node < |cn| && l.switch < |bd|
  }

  /** The second read follows the test with nothing in between, as if the two reads were one. */
  ghost predicate Fused(bd: seq<int>, r: Race, sched: seq<Link>) {
    forall n, l :: 0 <= n < |sched| && Pending(Run(bd, r, sched[..n]), l) ==> sched[n] == l
  }

  predicate Pending(r: Race, l: Link) { l in r.stage && r.stage[l] == Passed }

  /** No other task of the switch is under way. */
  predicate Free(r: Race, l: Link) {
    forall j :: j in r.stage && j != l && j.switch == l.switch ==> r.stage[j] == Ready || r.stage[j] == Finished
  }

  /** Each switch works on one node at a time, as the loop over its nodes does. */
  ghost predicate Orderly(bd: seq<int>, r: Race, sched: seq<Link>) {
    sched == [] ||
    (Orderly(bd, r, sched[..|sched| - 1]) && Free(Run(bd, r, sched[..|sched| - 1]), sched[|sched| - 1]))
  }

  lemma {:induction false} OrderlyConcat(bd: seq<int>, r: Race, a: seq<Link>, b: seq<Link>)
    requires Orderly(bd, r, a) && Orderly(bd, Run(bd, r, a), b)
    ensures Orderly(bd, r, a + b)
  {
    if b == [] {
      assert a + b == a;
    } else {
      OrderlyConcat(bd, r, a, b[..|b| - 1]);
      RunConcat(bd, r, a, b[..|b| - 1]);
      OrderlyNext(bd, r, a + b[..|b| - 1], b[|b| - 1]);
      assert a + b == a + b[..|b| - 1] + [b[|b| - 1]];
    }
  }

  lemma OrderlyNext(bd: seq<int>, r: Race, sched: seq<Link>, l: Link)
    requires Orderly(bd, r, sched) && Free(Run(bd, r, sched), l)
    ensures Orderly(bd, r, sched + [l])
  {
    assert (sched + [l])[..|sched|] == sched;
  }

  lemma OrderlyThree(bd: seq<int>, r: Race, a: Link, b: Link, c: Link)
    requires Free(r, a) && Free(Step(bd, r, a), b) && Free(Step(bd, Step(bd, r, a), b), c)
    ensures Orderly(bd, r, [a, b, c])
  {
    assert [a, b, c][..2] == [a, b] && [a, b][..1] == [a] && [a][..0] == [];
    assert Orderly(bd, r, [a]) && Run(bd, r, [a]) == Step(bd, r, a);
    assert Orderly(bd, r, [a, b]) && Run(bd, r, [a, b]) == Step(bd, Step(bd, r, a), b);
  }

  /** A task's own steps leave its switch to it. */
  lemma StaysFree(bd: seq<int>, r: Race, l: Link)
    requires Free(r, l)
    ensures Free(Step(bd, r, l), l)
  {
  }

  lemma OrderlyTask(bd: seq<int>, r: Race, l: Link)
    requires Free(r, l)
    ensures Orderly(bd, r, [l, l, l])
  {
    StaysFree(bd, r, l);
    StaysFree(bd, Step(bd, r, l), l);
    OrderlyThree(bd, r, l, l, l);
  }

  /** No task is under way. */
  predicate AtEase(r: Race) { forall l :: l in r.stage ==> r.stage[l] == Ready || r.stage[l] == Finished }

  lemma {:induction false} RunConcat(bd: seq<int>, r: Race, a: seq<Link>, b: seq<Link>)
    ensures Run(bd, r, a + b) == Run(bd, Run(bd, r, a), b)
  {
    if b == [] {
      assert a + b == a;
    } else {
      RunConcat(bd, r, a, b[..|b| - 1]);
      assert (a + b)[..|a + b| - 1] == a + b[..|b| - 1];
    }
  }

  lemma FusedPrefix(bd: seq<int>, r: Race, sched: seq<Link>)
    requires Fused(bd, r, sched) && sched != []
    ensures Fused(bd, r, sched[..|sched| - 1])
  {
    var prefix := sched[..|sched| - 1];
    forall n, l | 0 <= n < |prefix| && Pending(Run(bd, r, prefix[..n]), l) ensures prefix[n] == l {
      assert prefix[..n] == sched[..n];
    }
  }

  /** The shape never changes, and labels never fall. */
  lemma {:induction false} Rises(bd: seq<int>, r: Race, sched: seq<Link>)
    ensures var r' := Run(bd, r, sched);
            && |r'.cn| == |r.cn| && r'.stage.Keys == r.stage.Keys
            && forall t :: 0 <= t < |r.cn| ==> r.cn[t] <= r'.cn[t]
  {
    if sched != [] {
      Rises(bd, r, sched[..|sched| - 1]);
    }
  }

  // ---- Rounds in which nothing passes the test

  ghost predicate Quiet(bd: seq<int>, cn: seq<int>, r: Race) {
    && r.cn == cn
    && forall l :: Active(bd, r, l) ==> r.stage[l] == Ready || (r.stage[l] == Finished && bd[l.switch] <= cn[l.node])
  }

  lemma {:induction false} StaysQuiet(bd: seq<int>, cn: seq<int>, tasks: set<Link>, sched: seq<Link>)
    ensures var r := Run(bd, Begin(cn, tasks), sched);
            r.passed == 0 ==> Quiet(bd, cn, r)
  {
    if sched != [] {
      StaysQuiet(bd, cn, tasks, sched[..|sched| - 1]);
    }
  }

  lemma {:induction false} NothingPasses(bd: seq<int>, cn: seq<int>, tasks: set<Link>, sched: seq<Link>)
    requires Fits(bd, cn, tasks) && forall l :: l in tasks ==> bd[l.switch] <= cn[l.node]
    ensures var r := Run(bd, Begin(cn, tasks), sched);
            && r.passed == 0 && r.cn == cn && r.stage.Keys == tasks
            && forall l :: l in r.stage ==> r.stage[l] == Ready || r.stage[l] == Finished
  {
    if sched != [] {
      NothingPasses(bd, cn, tasks, sched[..|sched| - 1]);
    }
  }

  /** The counter stays put exactly when no task's switch exceeds its node; then no label moves. */
  lemma CounterStays(bd: seq<int>, cn: seq<int>, tasks: set<Link>, sched: seq<Link>)
    requires Fits(bd, cn, tasks) && Complete(Run(bd, Begin(cn, tasks), sched))
    ensures var r := Run(bd, Begin(cn, tasks), sched);
            && (r.passed == 0 <==> forall l :: l in tasks ==> bd[l.switch] <= cn[l.node])
            && (r.passed == 0 ==> r.cn == cn)
  {
    StaysQuiet(bd, cn, tasks, sched);
    Rises(bd, Begin(cn, tasks), sched);
    if forall l :: l in tasks ==> bd[l.switch] <= cn[l.node] {
      NothingPasses(bd, cn, tasks, sched);
    }
    var r := Run(bd, Begin(cn, tasks), sched);
    if r.passed == 0 {
      forall l | l in tasks ensures bd[l.switch] <= cn[l.node] {
        assert Active(bd, r, l);
      }
    }
  }

  // ---- What a switch does to a node, in every schedule

  /** Task `l` has done its part: the node has reached its switch, or has grown by it. */
  predicate Served(bd: seq<int>, cn: seq<int>, r: Race, l: Link)
    requires Active(bd, r, l) && |r.cn| == |cn|
  {
    match r.stage[l]
    case Ready => true
    case Passed => true
    case Loaded(sum) => sum >= cn[l.node] + bd[l.switch]
    case Finished => r.cn[l.node] >= bd[l.switch] || r.cn[l.node] >= cn[l.node] + bd[l.switch]
  }

  lemma {:induction false} TaskServed(bd: seq<int>, cn: seq<int>, tasks: set<Link>, sched: seq<Link>, l: Link)
    requires l in tasks && l.node < |cn| && l.switch < |bd|
    ensures var r := Run(bd, Begin(cn, tasks), sched);
            Active(bd, r, l) && |r.cn| == |cn| && cn[l.node] <= r.cn[l.node] && Served(bd, cn, r, l)
  {
    if sched != [] {
      TaskServed(bd, cn, tasks, sched[..|sched| - 1], l);
    }
  }

  /** A node's label after any number of additions of `step`: unmoved, one rung up, or at least two. */
  predicate OnLadder(v: int, start: int, step: int) { v == start || v == start + step || v >= start + 2 * step }

  ghost predicate Climbing(bd: seq<int>, r: Race, t: nat, start: int, step: int)
    requires t < |r.cn|
  {
    && OnLadder(r.cn[t], start, step)
    && forall l :: Active(bd, r, l) && l.node == t && r.stage[l].Loaded? ==> OnLadder(r.stage[l].sum, start, step)
  }

  /** Only `step` and 0 can pass the test at node `t`. */
  predicate SingleStep(bd: seq<int>, tasks: set<Link>, t: nat, start: int, step: int) {
    forall l :: l in tasks && l.node == t && l.switch < |bd| ==> bd[l.switch] <= start || bd[l.switch] == 0 || bd[l.switch] == step
  }

  lemma {:induction false} Ladder(bd: seq<int>, cn: seq<int>, tasks: set<Link>, sched: seq<Link>, t: nat, step: int)
    requires t < |cn| && step > 0 && SingleStep(bd, tasks, t, cn[t], step)
    ensures var r := Run(bd, Begin(cn, tasks), sched);
            && |r.cn| == |cn| && r.stage.Keys == tasks && Climbing(bd, r, t, cn[t], step)
            && forall l :: Active(bd, r, l) && l.node == t && (r.stage[l].Passed? || r.stage[l].Loaded?) ==> bd[l.switch] > cn[t]
  {
    if sched != [] {
      Ladder(bd, cn, tasks, sched[..|sched| - 1], t, step);
    }
  }

  /** With fused reads a node never leaves a set of values that is closed under the additions that
      can pass the test. */
  ghost predicate ClosedUnder(bd: seq<int>, tasks: set<Link>, t: nat, ok: iset<int>) {
    forall l, v :: l in tasks && l.node == t && l.switch < |bd| && v in ok && bd[l.switch] > v ==> v + bd[l.switch] in ok
  }

  ghost predicate Inside(bd: seq<int>, r: Race, t: nat, ok: iset<int>)
    requires t < |r.cn|
  {
    && r.cn[t] in ok
    && forall l :: Active(bd, r, l) && l.node == t ==>
         && (r.stage[l].Loaded? ==> r.stage[l].sum in ok)
         && (r.stage[l].Passed? ==> bd[l.switch] > r.cn[t])
  }

  lemma StepInside(bd: seq<int>, r: Race, l: Link, t: nat, ok: iset<int>)
    requires t < |r.cn| && Inside(bd, r, t, ok) && ClosedUnder(bd, r.stage.Keys, t, ok)
    requires forall k :: Pending(r, k) ==> k == l
    ensures Inside(bd, Step(bd, r, l), t, ok)
  {
    var r' := Step(bd, r, l);
    forall k | Active(bd, r', k) && k.node == t
      ensures r'.stage[k].Loaded? ==> r'.stage[k].sum in ok
      ensures r'.stage[k].Passed? ==> bd[k.switch] > r'.cn[t]
    {
      assert Active(bd, r, k);
      assert Pending(r, k) ==> k == l;
    }
  }

  lemma {:induction false} FusedInside(bd: seq<int>, cn: seq<int>, tasks: set<Link>, sched: seq<Link>, t: nat, ok: iset<int>)
    requires t < |cn| && cn[t] in ok && ClosedUnder(bd, tasks, t, ok)
    requires Fused(bd, Begin(cn, tasks), sched)
    ensures var r := Run(bd, Begin(cn, tasks), sched);
            |r.cn| == |cn| && r.stage.Keys == tasks && Inside(bd, r, t, ok)
  {
    if sched != [] {
      var prefix := sched[..|sched| - 1];
      FusedPrefix(bd, Begin(cn, tasks), sched);
      FusedInside(bd, cn, tasks, prefix, t, ok);
      forall l | Pending(Run(bd, Begin(cn, tasks), prefix), l) ensures sched[|sched| - 1] == l {
        assert sched[..|prefix|] == prefix;
      }
      StepInside(bd, Run(bd, Begin(cn, tasks), prefix), sched[|sched| - 1], t, ok);
    }
  }

  // ---- Schedule independence of one round

  /** Passes the test on the old labels and would raise its node. */
  predicate Hot(bd: seq<int>, cn: seq<int>, l: Link) {
    l.node < |cn| && l.switch < |bd| && bd[l.switch] > cn[l.node] && bd[l.switch] > 0
  }

  /** The synchronous result at node `t`: every task reads the old label, the largest sum wins. */
  ghost predicate Settled(bd: seq<int>, cn: seq<int>, tasks: set<Link>, t: nat, v: int)
    requires t < |cn|
  {
    && (v == cn[t] || exists l :: l in tasks && l.node == t && Hot(bd, cn, l) && v == cn[t] + bd[l.switch])
    && forall l :: l in tasks && l.node == t && Hot(bd, cn, l) ==> v >= cn[t] + bd[l.switch]
  }

  ghost predicate AllSettled(bd: seq<int>, cn: seq<int>, tasks: set<Link>, cn': seq<int>) {
    |cn'| == |cn| && forall t: nat :: t < |cn| ==> Settled(bd, cn, tasks, t, cn'[t])
  }

  /** No node has two switches that would raise it. */
  ghost predicate RaceFree(bd: seq<int>, cn: seq<int>, tasks: set<Link>) {
    forall l, k :: l in tasks && k in tasks && l.node == k.node && Hot(bd, cn, l) && Hot(bd, cn, k) ==> l == k
  }

  ghost predicate InOrder(bd: seq<int>, cn: seq<int>, r: Race, l: Link)
    requires Active(bd, r, l) && |r.cn| == |cn|
  {
    var v := r.cn[l.node];
    if Hot(bd, cn, l) then
      match r.stage[l]
      case Ready => v == cn[l.node]
      case Passed => v == cn[l.node]
      case Loaded(sum) => v == cn[l.node] && sum == cn[l.node] + bd[l.switch]
      case Finished => v == cn[l.node] + bd[l.switch]
    else
      (r.stage[l].Passed? ==> bd[l.switch] <= 0) && (r.stage[l].Loaded? ==> r.stage[l].sum <= v)
  }

  /** A label that has moved was moved by a task that would raise it. */
  ghost predicate Explained(bd: seq<int>, cn: seq<int>, r: Race, t: nat)
    requires t < |cn| == |r.cn|
  {
    r.cn[t] == cn[t] || exists l :: l in r.stage && l.node == t && Hot(bd, cn, l)
  }

  lemma StepInOrder(bd: seq<int>, cn: seq<int>, r: Race, l: Link, k: Link)
    requires |r.cn| == |cn| && RaceFree(bd, cn, r.stage.Keys) && Active(bd, r, k)
    requires cn[k.node] <= r.cn[k.node] && InOrder(bd, cn, r, k)
    requires Active(bd, r, l) ==> cn[l.node] <= r.cn[l.node] && InOrder(bd, cn, r, l)
    ensures var r' := Step(bd, r, l);
            Active(bd, r', k) && |r'.cn| == |cn| && InOrder(bd, cn, r', k)
  {
    if Active(bd, r, l) && l != k && Hot(bd, cn, k) && l.node == k.node {
      assert !Hot(bd, cn, l);
    }
  }

  lemma {:induction false} AllInOrder(bd: seq<int>, cn: seq<int>, tasks: set<Link>, sched: seq<Link>)
    requires Fits(bd, cn, tasks) && RaceFree(bd, cn, tasks)
    ensures var r := Run(bd, Begin(cn, tasks), sched);
            && |r.cn| == |cn| && r.stage.Keys == tasks
            && (forall k :: Active(bd, r, k) ==> InOrder(bd, cn, r, k))
            && (forall t | 0 <= t < |cn| :: Explained(bd, cn, r, t))
  {
    Rises(bd, Begin(cn, tasks), sched);
    if sched != [] {
      var prefix, l := sched[..|sched| - 1], sched[|sched| - 1];
      AllInOrder(bd, cn, tasks, prefix);
      Rises(bd, Begin(cn, tasks), prefix);
      StepAllInOrder(bd, cn, Run(bd, Begin(cn, tasks), prefix), l);
    }
  }

  lemma StepAllInOrder(bd: seq<int>, cn: seq<int>, r: Race, l: Link)
    requires |r.cn| == |cn| && RaceFree(bd, cn, r.stage.Keys)
    requires forall t :: 0 <= t < |cn| ==> cn[t] <= r.cn[t]
    requires forall k :: Active(bd, r, k) ==> InOrder(bd, cn, r, k)
    requires forall t | 0 <= t < |cn| :: Explained(bd, cn, r, t)
    ensures var r' := Step(bd, r, l);
            && |r'.cn| == |cn|
            && (forall k :: Active(bd, r', k) ==> InOrder(bd, cn, r', k))
            && (forall t | 0 <= t < |cn| :: Explained(bd, cn, r', t))
  {
    var r' := Step(bd, r, l);
    forall k | Active(bd, r', k) ensures InOrder(bd, cn, r', k) {
      StepInOrder(bd, cn, r, l, k);
    }
    forall t | 0 <= t < |cn| ensures Explained(bd, cn, r', t) {
      assert Explained(bd, cn, r, t);
      if Active(bd, r, l) && l.node == t {
        assert InOrder(bd, cn, r, l);
      }
    }
  }

  /** Without competing switches, every schedule of the racy code gives the synchronous result. */
  lemma RaceFreeSettles(bd: seq<int>, cn: seq<int>, tasks: set<Link>, sched: seq<Link>, t: nat)
    requires Fits(bd, cn, tasks) && RaceFree(bd, cn, tasks) && t < |cn|
    requires Complete(Run(bd, Begin(cn, tasks), sched))
    ensures var r := Run(bd, Begin(cn, tasks), sched);
            |r.cn| == |cn| && Settled(bd, cn, tasks, t, r.cn[t])
  {
    AllInOrder(bd, cn, tasks, sched);
    var r := Run(bd, Begin(cn, tasks), sched);
    assert Explained(bd, cn, r, t);
    forall l | l in tasks && l.node == t && Hot(bd, cn, l) ensures r.cn[t] == cn[t] + bd[l.switch] {
      assert Active(bd, r, l) && InOrder(bd, cn, r, l);
    }
  }

  /** Three steps of one task finish it and leave every other task where it was. */
  lemma FinishOne(bd: seq<int>, r: Race, l: Link)
    requires Active(bd, r, l)
    ensures var r' := Run(bd, r, [l, l, l]);
            && r'.stage == r.stage[l := Finished] && |r'.cn| == |r.cn|
            && r.cn[l.node] <= r'.cn[l.node]
  {
    RunThree(bd, r, l, l, l);
    var r1 := Step(bd, r, l);
    var r2 := Step(bd, r1, l);
    assert r1.stage[l] == Finished || r2.stage[l] != Passed;
  }

  lemma RunThree(bd: seq<int>, r: Race, a: Link, b: Link, c: Link)
    ensures Run(bd, r, [a, b, c]) == Step(bd, Step(bd, Step(bd, r, a), b), c)
  {
    assert [a, b, c][..2] == [a, b] && [a, b][..1] == [a] && [a][..0] == [];
    assert Run(bd, r, [a, b, c]) == Step(bd, Run(bd, r, [a, b]), c);
    assert Run(bd, r, [a, b]) == Step(bd, Run(bd, r, [a]), b);
    assert Run(bd, r, [a]) == Step(bd, r, a);
  }

  /** Every race can be run to completion. */
  lemma {:induction false} CanFinish(bd: seq<int>, r: Race, todo: set<Link>) returns (sched: seq<Link>)
    requires Fits(bd, r.cn, todo) && todo <= r.stage.Keys
    requires forall l :: l in r.stage && l !in todo ==> r.stage[l] == Finished
    ensures Complete(Run(bd, r, sched)) && (AtEase(r) ==> Orderly(bd, r, sched))
    decreases todo
  {
    if todo == {} {
      sched := [];
    } else {
      var l :| l in todo;
      FinishOne(bd, r, l);
      if AtEase(r) {
        OrderlyTask(bd, r, l);
      }
      var rest := CanFinish(bd, Run(bd, r, [l, l, l]), todo - {l});
      sched := [l, l, l] + rest;
      RunConcat(bd, r, [l, l, l], rest);
      if AtEase(r) {
        OrderlyConcat(bd, r, [l, l, l], rest);
      }
    }
  }

  lemma {:induction false} Hottest(bd: seq<int>, tasks: set<Link>) returns (l: Link)
    requires tasks != {} && forall k :: k in tasks ==> k.switch < |bd|
    ensures l in tasks && forall k :: k in tasks ==> bd[k.switch] <= bd[l.switch]
    decreases tasks
  {
    l :| l in tasks;
    var rest := tasks - {l};
    forall j | j in tasks ensures j == l || j in rest {
    }
    if rest != {} {
      var k := Hottest(bd, rest);
      l := if bd[l.switch] < bd[k.switch] then k else l;
    }
  }

  /** Both tasks pass the test before either writes; the second read of `l` then sees `k`'s write. */
  lemma DoubleCount(bd: seq<int>, cn: seq<int>, tasks: set<Link>, l: Link, k: Link)
    requires l in tasks && k in tasks && l != k && l.node == k.node && Hot(bd, cn, l) && Hot(bd, cn, k)
    ensures var r := Run(bd, Begin(cn, tasks), [k, l, k, k, l, l]);
            && |r.cn| == |cn| && r.stage.Keys == tasks
            && r.cn[l.node] == cn[l.node] + bd[k.switch] + bd[l.switch]
            && AtEase(r) && Orderly(bd, Begin(cn, tasks), [k, l, k, k, l, l])
  {
    var r0 := Begin(cn, tasks);
    RunThree(bd, r0, k, l, k);
    var r3 := Run(bd, r0, [k, l, k]);
    assert r3 == Race(cn, r0.stage[k := Loaded(cn[k.node] + bd[k.switch])][l := Passed], 2);
    assert [k, l, k, k, l, l] == [k, l, k] + [k, l, l];
    RunConcat(bd, r0, [k, l, k], [k, l, l]);
    RunThree(bd, r3, k, l, l);
    DoubleOrderly(bd, cn, tasks, l, k);
    OrderlyConcat(bd, r0, [k, l, k], [k, l, l]);
  }

  /** Two tasks of one node belong to two switches, so they may overlap. */
  lemma DoubleOrderly(bd: seq<int>, cn: seq<int>, tasks: set<Link>, l: Link, k: Link)
    requires l in tasks && k in tasks && l != k && l.node == k.node
    ensures var r0 := Begin(cn, tasks);
            && Orderly(bd, r0, [k, l, k]) && Orderly(bd, Run(bd, r0, [k, l, k]), [k, l, l])
  {
    var r0 := Begin(cn, tasks);
    assert k.switch != l.switch;
    TwoAtWork(bd, r0, k, l, k);
    RunThree(bd, r0, k, l, k);
    TwoAtWork(bd, Run(bd, r0, [k, l, k]), k, l, l);
  }

  /** Only `k` and `l` are under way. */
  predicate OnlyTwo(r: Race, k: Link, l: Link) {
    forall j :: j in r.stage && j != k && j != l ==> r.stage[j] == Ready || r.stage[j] == Finished
  }

  lemma StepOnlyTwo(bd: seq<int>, r: Race, a: Link, b: Link, x: Link)
    requires OnlyTwo(r, a, b) && a.switch != b.switch && (x == a || x == b)
    ensures Free(r, x) && OnlyTwo(Step(bd, r, x), a, b)
  {
  }

  lemma TwoAtWork(bd: seq<int>, r: Race, a: Link, b: Link, c: Link)
    requires OnlyTwo(r, a, b) && a.switch != b.switch && (c == a || c == b)
    ensures Orderly(bd, r, [a, b, c]) && OnlyTwo(Run(bd, r, [a, b, c]), a, b)
  {
    StepOnlyTwo(bd, r, a, b, a);
    StepOnlyTwo(bd, Step(bd, r, a), a, b, b);
    StepOnlyTwo(bd, Step(bd, Step(bd, r, a), b), a, b, c);
    OrderlyThree(bd, r, a, b, c);
    RunThree(bd, r, a, b, c);
  }

  /** Two switches that would raise the same node: some schedule overshoots the synchronous result. */
  lemma RaceOvershoots(bd: seq<int>, cn: seq<int>, tasks: set<Link>)
      returns (sched: seq<Link>, t: nat)
    requires Fits(bd, cn, tasks) && !RaceFree(bd, cn, tasks)
    ensures var r := Run(bd, Begin(cn, tasks), sched);
            Complete(r) && t < |cn| == |r.cn| && !Settled(bd, cn, tasks, t, r.cn[t])
    ensures Orderly(bd, Begin(cn, tasks), sched)
  {
    var l0, k0 :| l0 in tasks && k0 in tasks && l0.node == k0.node && Hot(bd, cn, l0) && Hot(bd, cn, k0) && l0 != k0;
    t := l0.node;
    var rivals := set j | j in tasks && j.node == t && Hot(bd, cn, j);
    assert l0 in rivals;
    var l := Hottest(bd, rivals);
    var k := if k0 == l then l0 else k0;
    DoubleCount(bd, cn, tasks, l, k);
    var first := [k, l, k, k, l, l];
    var r := Run(bd, Begin(cn, tasks), first);
    var rest := CanFinish(bd, r, tasks);
    sched := first + rest;
    RunConcat(bd, Begin(cn, tasks), first, rest);
    OrderlyConcat(bd, Begin(cn, tasks), first, rest);
    Rises(bd, r, rest);
  }

  /** A round of the racy code is schedule-independent, equal to the synchronous round, exactly when no
      node has two switches that would raise it. Schedules in which each switch works on one node at a
      time are enough to tell. */
  lemma RaceFreeIffSettles(bd: seq<int>, cn: seq<int>, tasks: set<Link>)
    requires Fits(bd, cn, tasks)
    ensures RaceFree(bd, cn, tasks) <==>
              forall sched :: Complete(Run(bd, Begin(cn, tasks), sched)) ==>
                AllSettled(bd, cn, tasks, Run(bd, Begin(cn, tasks), sched).cn)
    ensures RaceFree(bd, cn, tasks) <==>
              forall sched :: Complete(Run(bd, Begin(cn, tasks), sched)) && Orderly(bd, Begin(cn, tasks), sched) ==>
                AllSettled(bd, cn, tasks, Run(bd, Begin(cn, tasks), sched).cn)
  {
    if RaceFree(bd, cn, tasks) {
      forall sched | Complete(Run(bd, Begin(cn, tasks), sched))
        ensures AllSettled(bd, cn, tasks, Run(bd, Begin(cn, tasks), sched).cn)
      {
        Rises(bd, Begin(cn, tasks), sched);
        forall t: nat | t < |cn| ensures Settled(bd, cn, tasks, t, Run(bd, Begin(cn, tasks), sched).cn[t]) {
          RaceFreeSettles(bd, cn, tasks, sched, t);
        }
      }
    } else {
      var sched, t := RaceOvershoots(bd, cn, tasks);
      assert !AllSettled(bd, cn, tasks, Run(bd, Begin(cn, tasks), sched).cn);
    }
  }
}
