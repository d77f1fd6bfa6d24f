/** `write`, `writeAdd` and `writeMax`: each worker loads a cell, computes, and tries to swap the result
    in; a failed swap starts over. Workers take these steps in any order. */
module AtomicWrites {

  datatype Kind = Overwrite | Add | Raise

  datatype Pc = Start | Loaded(was: int) | Done

  datatype Worker = Worker(addr: nat, kind: Kind, val: int, pc: Pc)

  datatype State = State(cells: map<nat, int>, workers: seq<Worker>)

  function Apply(kind: Kind, was: int, val: int): int {
    match kind
    case Overwrite => val
    case Add => was + val
    case Raise => if was > val then was else val
  }

  /** The next load or compare-and-swap of worker `i`. */
  function Step(s: State, i: nat): State {
    if i >= |s.workers| || s.workers[i].addr !in s.cells then s else
    var w := s.workers[i];
    match w.pc
    case Start => s.(workers := s.workers[i := w.(pc := Loaded(s.cells[w.addr]))])
    case Loaded(o) =>
      if s.cells[w.addr] == o
      then State(s.cells[w.addr := Apply(w.kind, o, w.val)], s.workers[i := w.(pc := Done)])
      else s.(workers := s.workers[i := w.(pc := Start)])
    case Done => s
  }

  function Run(s: State, sched: seq<nat>): State {
    if sched == [] then s else Step(Run(s, sched[..|sched| - 1]), sched[|sched| - 1])
  }

  predicate Fresh(s: State) {
    forall i :: 0 <= i < |s.workers| ==> s.workers[i].pc == Start && s.workers[i].addr in s.cells
  }

  predicate AllDone(s: State) { forall i :: 0 <= i < |s.workers| ==> s.workers[i].pc == Done }

  /** Only the program counters of the workers move. */
  predicate SameTasks(s: State, s': State) {
    && s'.cells.Keys == s.cells.Keys && |s'.workers| == |s.workers|
    && forall i :: 0 <= i < |s.workers| ==> s'.workers[i].(pc := Start) == s.workers[i].(pc := Start)
  }

  lemma {:induction false} RunSame(s: State, sched: seq<nat>)
    ensures SameTasks(s, Run(s, sched))
  {
    if sched != [] {
      RunSame(s, sched[..|sched| - 1]);
    }
  }

  /** A step is either invisible, or it is the whole operation done at once on the present value. */
  lemma StepIsAtomic(s: State, i: nat)
    ensures var s' := Step(s, i);
            || s'.cells == s.cells
            || (&& i < |s.workers| && s.workers[i].addr in s.cells
                && s'.cells == s.cells[s.workers[i].addr :=
                     Apply(s.workers[i].kind, s.cells[s.workers[i].addr], s.workers[i].val)]
                && !s.workers[i].pc.Done? && s'.workers == s.workers[i := s.workers[i].(pc := Done)])
  {
  }

  /** A worker left alone is done after at most three more steps. */
  lemma SoloFinishes(s: State, i: nat)
    requires i < |s.workers| && s.workers[i].addr in s.cells
    ensures Step(Step(Step(s, i), i), i).workers[i].pc == Done
  {
    var s1 := Step(s, i);
    var s2 := Step(s1, i);
    assert s1.workers[i].pc == Done || s2.workers[i].pc == Done || s2.workers[i].pc == Loaded(s2.cells[s.workers[i].addr]);
  }

  // ---- writeMax

  predicate OnlyKind(s: State, a: nat, kind: Kind) {
    forall i :: 0 <= i < |s.workers| && s.workers[i].addr == a ==> s.workers[i].kind == kind
  }

  /** `v` is the largest of `base` and the values of those workers on `a` that count. */
  ghost predicate IsLargest(v: int, base: int, workers: seq<Worker>, a: nat, doneOnly: bool) {
    && v >= base
    && (forall i :: 0 <= i < |workers| && Counts(workers[i], a, doneOnly) ==> v >= workers[i].val)
    && (v == base || exists i :: 0 <= i < |workers| && Counts(workers[i], a, doneOnly) && v == workers[i].val)
  }

  predicate Counts(w: Worker, a: nat, doneOnly: bool) { w.addr == a && (doneOnly ==> w.pc == Done) }

  lemma {:induction false} RaiseSoFar(s: State, sched: seq<nat>, a: nat)
    requires Fresh(s) && a in s.cells && OnlyKind(s, a, Raise)
    ensures var s' := Run(s, sched);
            SameTasks(s, s') && IsLargest(s'.cells[a], s.cells[a], s'.workers, a, true)
  {
    RunSame(s, sched);
    if sched != [] {
      var prefix, i := sched[..|sched| - 1], sched[|sched| - 1];
      RaiseSoFar(s, prefix, a);
      var p, s' := Run(s, prefix), Run(s, sched);
      forall j | 0 <= j < |s'.workers| && Counts(s'.workers[j], a, true) ensures s'.cells[a] >= s'.workers[j].val {
        assert j != i ==> Counts(p.workers[j], a, true);
      }
      if s'.cells[a] != p.cells[a] {
        assert Counts(s'.workers[i], a, true) && s'.cells[a] == s'.workers[i].val;
      } else if p.cells[a] != s.cells[a] {
        var j :| 0 <= j < |p.workers| && Counts(p.workers[j], a, true) && p.cells[a] == p.workers[j].val;
        assert Counts(s'.workers[j], a, true);
      }
    }
  }

  /** In every interleaving the cell ends as the largest of its first value and all written values. */
  lemma RaiseResult(s: State, sched: seq<nat>, a: nat)
    requires Fresh(s) && a in s.cells && OnlyKind(s, a, Raise) && AllDone(Run(s, sched))
    ensures a in Run(s, sched).cells && IsLargest(Run(s, sched).cells[a], s.cells[a], s.workers, a, false)
  {
    RaiseSoFar(s, sched, a);
    var s' := Run(s, sched);
    forall i | 0 <= i < |s.workers| ensures Counts(s.workers[i], a, false) <==> Counts(s'.workers[i], a, true)
      ensures s.workers[i].val == s'.workers[i].val
    {
      assert s'.workers[i].(pc := Start) == s.workers[i].(pc := Start);
    }
  }

  // ---- write

  /** `v` is the value of a finished worker on `a`, or nobody on `a` has finished. */
  ghost predicate IsWritten(v: int, base: int, workers: seq<Worker>, a: nat) {
    || (exists i :: 0 <= i < |workers| && Counts(workers[i], a, true) && v == workers[i].val)
    || (v == base && forall i :: 0 <= i < |workers| ==> !Counts(workers[i], a, true))
  }

  lemma {:induction false} WriteSoFar(s: State, sched: seq<nat>, a: nat)
    requires Fresh(s) && a in s.cells && OnlyKind(s, a, Overwrite)
    ensures var s' := Run(s, sched);
            SameTasks(s, s') && IsWritten(s'.cells[a], s.cells[a], s'.workers, a)
  {
    RunSame(s, sched);
    if sched != [] {
      var prefix, i := sched[..|sched| - 1], sched[|sched| - 1];
      WriteSoFar(s, prefix, a);
      var p, s' := Run(s, prefix), Run(s, sched);
      if i < |p.workers| && p.workers[i].pc != Done && s'.workers[i].pc == Done && p.workers[i].addr == a {
        assert p.workers[i].(pc := Start) == s.workers[i].(pc := Start);
        assert Counts(s'.workers[i], a, true) && s'.cells[a] == s'.workers[i].val;
      } else if j :| 0 <= j < |p.workers| && Counts(p.workers[j], a, true) && p.cells[a] == p.workers[j].val {
        assert Counts(s'.workers[j], a, true) && s'.cells[a] == p.cells[a];
      }
    }
  }

  /** In every interleaving a cell somebody writes ends with one of the written values. */
  lemma WriteResult(s: State, sched: seq<nat>, a: nat)
    requires Fresh(s) && a in s.cells && OnlyKind(s, a, Overwrite) && AllDone(Run(s, sched))
    requires exists i :: 0 <= i < |s.workers| && s.workers[i].addr == a
    ensures a in Run(s, sched).cells
    ensures exists i :: 0 <= i < |s.workers| && s.workers[i].addr == a && Run(s, sched).cells[a] == s.workers[i].val
  {
    WriteSoFar(s, sched, a);
    var s' := Run(s, sched);
    var i :| 0 <= i < |s.workers| && s.workers[i].addr == a;
    assert s'.workers[i].(pc := Start) == s.workers[i].(pc := Start);
    assert Counts(s'.workers[i], a, true);
    var j :| 0 <= j < |s'.workers| && Counts(s'.workers[j], a, true) && s'.cells[a] == s'.workers[j].val;
    assert s'.workers[j].(pc := Start) == s.workers[j].(pc := Start);
  }

  // ---- writeAdd

  function Added(workers: seq<Worker>, a: nat, doneOnly: bool): int {
    if workers == [] then 0 else
    var w := workers[|workers| - 1];
    Added(workers[..|workers| - 1], a, doneOnly) + if Counts(w, a, doneOnly) then w.val else 0
  }

  lemma {:induction false} AddedChange(workers: seq<Worker>, i: nat, w: Worker, a: nat)
    requires i < |workers|
    ensures Added(workers[i := w], a, true)
         == Added(workers, a, true) - (if Counts(workers[i], a, true) then workers[i].val else 0)
            + (if Counts(w, a, true) then w.val else 0)
  {
    var n := |workers| - 1;
    if i < n {
      AddedChange(workers[..n], i, w, a);
      assert workers[i := w][..n] == workers[..n][i := w];
    } else {
      assert workers[i := w][..n] == workers[..n];
    }
  }

  lemma {:induction false} AddedAll(workers: seq<Worker>, workers': seq<Worker>, a: nat)
    requires |workers| == |workers'|
    requires forall i :: 0 <= i < |workers| ==>
               workers'[i].pc == Done && workers'[i].(pc := Start) == workers[i].(pc := Start)
    ensures Added(workers', a, true) == Added(workers, a, false)
  {
    if workers != [] {
      AddedAll(workers[..|workers| - 1], workers'[..|workers| - 1], a);
    }
  }

  lemma {:induction false} AddedNone(workers: seq<Worker>, a: nat)
    requires forall i :: 0 <= i < |workers| ==> workers[i].pc == Start
    ensures Added(workers, a, true) == 0
  {
    if workers != [] {
      AddedNone(workers[..|workers| - 1], a);
    }
  }

  lemma {:induction false} AddSoFar(s: State, sched: seq<nat>, a: nat)
    requires Fresh(s) && a in s.cells && OnlyKind(s, a, Add)
    ensures var s' := Run(s, sched);
            SameTasks(s, s') && s'.cells[a] == s.cells[a] + Added(s'.workers, a, true)
  {
    RunSame(s, sched);
    if sched == [] {
      AddedNone(s.workers, a);
    } else {
      var prefix, i := sched[..|sched| - 1], sched[|sched| - 1];
      AddSoFar(s, prefix, a);
      var p := Run(s, prefix);
      if i < |p.workers| && p.workers[i].addr in p.cells && p.workers[i].pc != Done {
        AddedChange(p.workers, i, Step(p, i).workers[i], a);
        assert Step(p, i).workers == p.workers[i := Step(p, i).workers[i]];
        assert p.workers[i].(pc := Start) == s.workers[i].(pc := Start);
      }
    }
  }

  /** In every interleaving the cell ends as its first value plus the sum of all added values. */
  lemma AddResult(s: State, sched: seq<nat>, a: nat)
    requires Fresh(s) && a in s.cells && OnlyKind(s, a, Add) && AllDone(Run(s, sched))
    ensures a in Run(s, sched).cells && Run(s, sched).cells[a] == s.cells[a] + Added(s.workers, a, false)
  {
    AddSoFar(s, sched, a);
    AddedAll(s.workers, Run(s, sched).workers, a);
  }

  // ---- Seeding maxTopoID

  /** The writes of the seeding pass: equipment `e` raises each of its nodes, and itself once per node,
      to its own `nd`. */
  function SeedWrites(equipment: seq<nat>, nd: map<nat, int>, nodes: map<nat, seq<nat>>): seq<Worker>
    requires forall e :: e in equipment ==> e in nd && e in nodes
  {
    if equipment == [] then [] else
    var e := equipment[|equipment| - 1];
    SeedWrites(equipment[..|equipment| - 1], nd, nodes) + SeedOf(e, nd[e], nodes[e])
  }

  function SeedOf(e: nat, nd: int, nodes: seq<nat>): seq<Worker> {
    if nodes == [] then [] else
    SeedOf(e, nd, nodes[..|nodes| - 1])
      + [Worker(nodes[|nodes| - 1], Raise, nd, Start), Worker(e, Raise, nd, Start)]
  }

  /** Equipment `e` seeds vertex `v`. */
  predicate Seeds(e: nat, nodes: seq<nat>, v: nat) { v in nodes || (v == e && nodes != []) }

  lemma {:induction false} SeedOfWrites(e: nat, nd: int, nodes: seq<nat>, w: Worker)
    ensures w in SeedOf(e, nd, nodes) <==> w == Worker(w.addr, Raise, nd, Start) && Seeds(e, nodes, w.addr)
  {
    if nodes != [] {
      var rest, n := nodes[..|nodes| - 1], nodes[|nodes| - 1];
      SeedOfWrites(e, nd, rest, w);
      assert nodes == rest + [n];
    }
  }

  lemma {:induction false} SeedWritesAll(equipment: seq<nat>, nd: map<nat, int>, nodes: map<nat, seq<nat>>, w: Worker)
    requires forall e :: e in equipment ==> e in nd && e in nodes
    ensures w in SeedWrites(equipment, nd, nodes) <==>
              exists e :: e in equipment && w == Worker(w.addr, Raise, nd[e], Start) && Seeds(e, nodes[e], w.addr)
  {
    if equipment != [] {
      var rest, e := equipment[..|equipment| - 1], equipment[|equipment| - 1];
      SeedWritesAll(rest, nd, nodes, w);
      SeedOfWrites(e, nd[e], nodes[e], w);
      assert equipment == rest + [e];
    }
  }

  /** Whatever the interleaving, a vertex ends with the largest of its first label and the `nd` of the
      equipment that seeds it: seeding is schedule-independent and never lowers a label. */
  lemma SeedResult(labels: map<nat, int>, equipment: seq<nat>, nd: map<nat, int>, nodes: map<nat, seq<nat>>,
                   sched: seq<nat>, v: nat)
    requires forall e :: e in equipment ==> e in nd && e in nodes
    requires v in labels && forall w :: w in SeedWrites(equipment, nd, nodes) ==> w.addr in labels
    requires AllDone(Run(State(labels, SeedWrites(equipment, nd, nodes)), sched))
    ensures var value := At(Run(State(labels, SeedWrites(equipment, nd, nodes)), sched).cells, v);
            && value >= labels[v]
            && (forall e :: e in equipment && Seeds(e, nodes[e], v) ==> value >= nd[e])
            && (value == labels[v] || exists e :: e in equipment && Seeds(e, nodes[e], v) && value == nd[e])
  {
    var ws := SeedWrites(equipment, nd, nodes);
    var s := State(labels, ws);
    forall i | 0 <= i < |ws| ensures ws[i].kind == Raise && ws[i].pc == Start && ws[i].addr in labels {
      assert ws[i] in ws;
      SeedWritesAll(equipment, nd, nodes, ws[i]);
    }
    RaiseResult(s, sched, v);
    var value := Run(s, sched).cells[v];
    forall e | e in equipment && Seeds(e, nodes[e], v) ensures value >= nd[e] {
      SeedWritesAll(equipment, nd, nodes, Worker(v, Raise, nd[e], Start));
      var i :| 0 <= i < |ws| && ws[i] == Worker(v, Raise, nd[e], Start);
      assert Counts(ws[i], v, false);
    }
    if value != labels[v] {
      var i :| 0 <= i < |ws| && Counts(ws[i], v, false) && value == ws[i].val;
      assert ws[i] in ws;
      SeedWritesAll(equipment, nd, nodes, ws[i]);
    }
  }

  function At(m: map<nat, int>, v: nat): int { if v in m then m[v] else 0 }
}
