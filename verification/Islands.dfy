/** The island-labelling loop: connectivity nodes push their labels to the switches around them, closed
    switches push back, until a round passes no test. */
module Islands {
  import opened Arithmetic
  import opened Race

  /** Connectivity nodes are 0..cns, switches 0..switches; `point` is the switch position read from the graph. */
  datatype Grid = Grid(cns: nat, switches: nat, links: set<Link>, point: seq<int>)

  predicate Wired(g: Grid) {
    |g.point| == g.switches && forall l :: l in g.links ==> l.node < g.cns && l.switch < g.switches
  }

  predicate Closed(g: Grid, b: nat) { b < |g.point| && g.point[b] == 1 }

  /** `cn` is maxTopoID, `bd` maxBDID, `frontier` cnSet, `counter` sumCounter and `previous` sumOldCounter. */
  datatype Loop = Loop(cn: seq<int>, bd: seq<int>, frontier: set<nat>, counter: nat, previous: int)

  predicate Shaped(g: Grid, s: Loop) { Wired(g) && |s.cn| == g.cns && |s.bd| == g.switches }

  predicate Looping(s: Loop) { s.previous != s.counter }

  /** bdSet: the switches next to the frontier. */
  function Reached(g: Grid, frontier: set<nat>): set<nat> { set l | l in g.links && l.node in frontier :: l.switch }

  /** The largest of `base` and the labels of the first `n` nodes that are in the frontier, next to `b`. */
  function Pushed(g: Grid, cn: seq<int>, frontier: set<nat>, b: nat, base: int, n: nat): int
    requires n <= |cn|
  {
    if n == 0 then base else
    var m := Pushed(g, cn, frontier, b, base, n - 1);
    if n - 1 in frontier && Link(n - 1, b) in g.links then Max(m, cn[n - 1]) else m
  }

  function Lifted(g: Grid, s: Loop): seq<int>
    requires Shaped(g, s)
  {
    seq(g.switches, b requires 0 <= b < g.switches => Pushed(g, s.cn, s.frontier, b, s.bd[b], g.cns))
  }

  /** One task for every node next to a reached closed switch. */
  function Tasks(g: Grid, frontier: set<nat>): set<Link> {
    set l | l in g.links && l.switch in Reached(g, frontier) && Closed(g, l.switch)
  }

  function Raced(g: Grid, s: Loop, sched: seq<Link>): Race
    requires Shaped(g, s)
  {
    Run(Lifted(g, s), Begin(s.cn, Tasks(g, s.frontier)), sched)
  }

  function Round(g: Grid, s: Loop, sched: seq<Link>): Loop
    requires Shaped(g, s)
  {
    var r := Raced(g, s, sched);
    Loop(r.cn, Lifted(g, s), set l | l in Tasks(g, s.frontier) :: l.node, s.counter + r.passed, s.counter)
  }

  lemma RoundShaped(g: Grid, s: Loop, sched: seq<Link>)
    requires Shaped(g, s)
    ensures Shaped(g, Round(g, s, sched))
    ensures forall c :: 0 <= c < g.cns ==> s.cn[c] <= Round(g, s, sched).cn[c]
    ensures Fits(Lifted(g, s), s.cn, Tasks(g, s.frontier))
  {
    Rises(Lifted(g, s), Begin(s.cn, Tasks(g, s.frontier)), sched);
  }

  // ---- The first half of a round

  lemma {:induction false} PushedIsMax(g: Grid, cn: seq<int>, frontier: set<nat>, b: nat, base: int, n: nat)
    requires n <= |cn|
    ensures var v := Pushed(g, cn, frontier, b, base, n);
            && v >= base
            && (forall c :: 0 <= c < n && c in frontier && Link(c, b) in g.links ==> v >= cn[c])
            && (v == base || exists c :: 0 <= c < n && c in frontier && Link(c, b) in g.links && v == cn[c])
  {
    if n > 0 {
      PushedIsMax(g, cn, frontier, b, base, n - 1);
    }
  }

  /** A switch ends the first half with the largest of its own label and its frontier nodes' labels. */
  lemma LiftedIsMax(g: Grid, s: Loop, b: nat)
    requires Shaped(g, s) && b < g.switches
    ensures var v := Lifted(g, s)[b];
            && v >= s.bd[b]
            && (forall c: nat :: c in s.frontier && Link(c, b) in g.links ==> v >= s.cn[c])
            && (v == s.bd[b] || exists c: nat :: c in s.frontier && Link(c, b) in g.links && v == s.cn[c])
  {
    PushedIsMax(g, s.cn, s.frontier, b, s.bd[b], g.cns);
  }

  // ---- Islands

  /** Two nodes next to the same closed switch. */
  ghost predicate Adjacent(g: Grid, c: nat, d: nat) {
    exists b: nat :: Closed(g, b) && Link(c, b) in g.links && Link(d, b) in g.links
  }

  ghost predicate Path(g: Grid, p: seq<nat>) {
    |p| > 0 && forall i :: 0 <= i < |p| - 1 ==> Adjacent(g, p[i], p[i + 1])
  }

  ghost predicate PathFrom(g: Grid, p: seq<nat>, c: nat, d: nat) { Path(g, p) && p[0] == c && p[|p| - 1] == d }

  /** Connected through closed switches. */
  ghost predicate Joined(g: Grid, c: nat, d: nat) { exists p :: PathFrom(g, p, c, d) }

  /** A union of islands. */
  ghost predicate Isolated(g: Grid, k: set<nat>) {
    forall c, d :: c in k && Adjacent(g, c, d) ==> d in k
  }

  /** Every node of `k` that is next to a closed switch is in the frontier. */
  predicate Covered(g: Grid, k: set<nat>, frontier: set<nat>) {
    forall l :: l in g.links && l.node in k && Closed(g, l.switch) ==> l.node in frontier
  }

  lemma RoundCovered(g: Grid, s: Loop, sched: seq<Link>, k: set<nat>)
    requires Shaped(g, s) && Covered(g, k, s.frontier)
    ensures Covered(g, k, Round(g, s, sched).frontier)
  {
    forall l | l in g.links && l.node in k && Closed(g, l.switch)
      ensures l.node in Round(g, s, sched).frontier
    {
      assert l.switch in Reached(g, s.frontier);
      assert l in Tasks(g, s.frontier);
    }
  }

  lemma {:induction false} PathStays(g: Grid, p: seq<nat>, k: set<nat>)
    requires Path(g, p) && Isolated(g, k) && p[0] in k
    ensures forall i :: 0 <= i < |p| ==> p[i] in k
  {
    if |p| > 1 {
      var q := p[..|p| - 1];
      assert Path(g, q);
      PathStays(g, q, k);
      assert q[|p| - 2] in k;
      assert Adjacent(g, p[|p| - 2], p[|p| - 1]);
    }
  }

  lemma AdjacentSymmetric(g: Grid, c: nat, d: nat)
    requires Adjacent(g, c, d)
    ensures Adjacent(g, d, c)
  {
  }

  // ---- What an exit means

  lemma QuietStep(g: Grid, s: Loop, sched: seq<Link>, k: set<nat>, c: nat, d: nat)
    requires Shaped(g, s) && Covered(g, k, s.frontier) && Complete(Raced(g, s, sched))
    requires !Looping(Round(g, s, sched)) && c in k && Adjacent(g, c, d)
    ensures c < g.cns && d < g.cns && s.cn[c] <= s.cn[d]
  {
    var b: nat :| Closed(g, b) && Link(c, b) in g.links && Link(d, b) in g.links;
    RoundShaped(g, s, sched);
    LiftedIsMax(g, s, b);
    CounterStays(Lifted(g, s), s.cn, Tasks(g, s.frontier), sched);
    assert Link(c, b).node in s.frontier;
    assert b in Reached(g, s.frontier);
    assert Link(d, b) in Tasks(g, s.frontier);
  }

  lemma {:induction false} QuietPath(g: Grid, s: Loop, sched: seq<Link>, k: set<nat>, p: seq<nat>)
    requires Shaped(g, s) && Isolated(g, k) && Covered(g, k, s.frontier) && Complete(Raced(g, s, sched))
    requires !Looping(Round(g, s, sched)) && Path(g, p) && p[0] in k && p[0] < g.cns
    ensures var d := p[|p| - 1];
            d in k && d < g.cns && s.cn[p[0]] == s.cn[d]
  {
    if |p| > 1 {
      var q := p[..|p| - 1];
      assert Path(g, q);
      QuietPath(g, s, sched, k, q);
      var c, d := p[|p| - 2], p[|p| - 1];
      assert Adjacent(g, c, d);
      QuietStep(g, s, sched, k, c, d);
      AdjacentSymmetric(g, c, d);
      QuietStep(g, s, sched, k, d, c);
    }
  }

  /** The round that ends the loop moves no label, and finds equal labels on every island in the frontier. */
  lemma QuietRound(g: Grid, s: Loop, sched: seq<Link>, k: set<nat>, c: nat, d: nat)
    requires Shaped(g, s) && Isolated(g, k) && Covered(g, k, s.frontier) && Complete(Raced(g, s, sched))
    requires !Looping(Round(g, s, sched)) && c in k && c < g.cns && Joined(g, c, d)
    ensures Round(g, s, sched).cn == s.cn && d in k && d < g.cns && s.cn[c] == s.cn[d]
  {
    RoundShaped(g, s, sched);
    CounterStays(Lifted(g, s), s.cn, Tasks(g, s.frontier), sched);
    var p :| PathFrom(g, p, c, d);
    QuietPath(g, s, sched, k, p);
  }

  // ---- Whole runs

  function Rounds(g: Grid, s: Loop, scheds: seq<seq<Link>>): (s': Loop)
    requires Shaped(g, s)
    ensures Shaped(g, s')
  {
    if scheds == [] then s else
    var before := Rounds(g, s, scheds[..|scheds| - 1]);
    RoundShaped(g, before, scheds[|scheds| - 1]);
    Round(g, before, scheds[|scheds| - 1])
  }

  /** The loop took every one of these rounds, and every task of each ran to its end. */
  ghost predicate IsRun(g: Grid, s: Loop, scheds: seq<seq<Link>>)
    requires Shaped(g, s)
  {
    scheds == [] ||
    var before := Rounds(g, s, scheds[..|scheds| - 1]);
    IsRun(g, s, scheds[..|scheds| - 1]) && Looping(before) && Complete(Raced(g, before, scheds[|scheds| - 1]))
  }

  lemma {:induction false} RoundsKeep(g: Grid, s: Loop, scheds: seq<seq<Link>>, k: set<nat>)
    requires Shaped(g, s) && Covered(g, k, s.frontier)
    ensures Covered(g, k, Rounds(g, s, scheds).frontier)
    ensures forall c :: 0 <= c < g.cns ==> s.cn[c] <= Rounds(g, s, scheds).cn[c]
  {
    if scheds != [] {
      var before := Rounds(g, s, scheds[..|scheds| - 1]);
      RoundsKeep(g, s, scheds[..|scheds| - 1], k);
      RoundCovered(g, before, scheds[|scheds| - 1], k);
      RoundShaped(g, before, scheds[|scheds| - 1]);
    }
  }

  /** If the loop exits, an island that started inside the frontier has one common label, at least as
      large as every label it started with: for every grid, every labels and every schedule. */
  lemma IslandCorrect(g: Grid, s: Loop, scheds: seq<seq<Link>>, k: set<nat>, c: nat, d: nat)
    requires Shaped(g, s) && Looping(s) && IsRun(g, s, scheds) && !Looping(Rounds(g, s, scheds))
    requires Isolated(g, k) && k <= s.frontier && c in k && c < g.cns && Joined(g, c, d)
    ensures d < g.cns
    ensures var s' := Rounds(g, s, scheds);
            s'.cn[c] == s'.cn[d] && s.cn[c] <= s'.cn[c] && s.cn[d] <= s'.cn[c]
  {
    var before := Rounds(g, s, scheds[..|scheds| - 1]);
    RoundsKeep(g, s, scheds[..|scheds| - 1], k);
    RoundsKeep(g, s, scheds, k);
    QuietRound(g, before, scheds[|scheds| - 1], k, c, d);
  }

  // ---- Open switches isolate

  /** The grid reduced to the nodes of `k` and the closed switches next to them. */
  function Only(g: Grid, k: set<nat>): Grid {
    g.(links := set l | l in g.links && l.node in k && Closed(g, l.switch))
  }

  /** `t` is what `s` looks like from inside `k`. */
  ghost predicate SameInside(g: Grid, k: set<nat>, s: Loop, t: Loop)
    requires Shaped(g, s) && Shaped(Only(g, k), t)
  {
    && t.frontier == s.frontier * k
    && (forall c: nat :: c in k && c < g.cns ==> s.cn[c] == t.cn[c])
    && (forall l :: l in g.links && l.node in k && Closed(g, l.switch) ==> s.bd[l.switch] == t.bd[l.switch])
  }

  lemma TasksInside(g: Grid, k: set<nat>, frontier: set<nat>, l: Link)
    requires Wired(g) && Isolated(g, k) && l.node in k
    ensures l in Tasks(g, frontier) <==> l in Tasks(Only(g, k), frontier * k)
    ensures l in Tasks(Only(g, k), frontier * k) ==> l in Only(g, k).links
  {
    if l in Tasks(g, frontier) {
      var n :| n in g.links && n.node in frontier && n.switch == l.switch;
      assert Adjacent(g, l.node, n.node) by {
        assert l == Link(l.node, l.switch) && n == Link(n.node, l.switch);
      }
      assert n in Only(g, k).links;
      assert l.switch in Reached(Only(g, k), frontier * k);
    }
  }

  lemma LiftedInside(g: Grid, k: set<nat>, s: Loop, t: Loop, l: Link)
    requires Shaped(g, s) && Shaped(Only(g, k), t) && Isolated(g, k) && SameInside(g, k, s, t)
    requires l in g.links && l.node in k && Closed(g, l.switch)
    ensures Lifted(g, s)[l.switch] == Lifted(Only(g, k), t)[l.switch]
  {
    var b := l.switch;
    LiftedIsMax(g, s, b);
    LiftedIsMax(Only(g, k), t, b);
    forall c: nat | Link(c, b) in g.links ensures c in k && Link(c, b) in Only(g, k).links {
      assert l == Link(l.node, b);
      assert Adjacent(g, l.node, c);
    }
  }

  /** Inside `k` the two races move in step. */
  ghost predicate RacesAgree(g: Grid, k: set<nat>, r: Race, q: Race) {
    && |r.cn| == |q.cn| == g.cns
    && (forall c: nat :: c in k && c < g.cns ==> r.cn[c] == q.cn[c])
    && (forall l :: l in r.stage && l.node in k ==> l in g.links && Closed(g, l.switch))
    && (forall l: Link :: l.node in k ==> (l in r.stage <==> l in q.stage) && (l in r.stage ==> r.stage[l] == q.stage[l]))
    && (forall l :: l in q.stage ==> l.node in k)
  }

  lemma {:induction false} RaceInside(g: Grid, k: set<nat>, bd: seq<int>, bd': seq<int>, r: Race, q: Race, sched: seq<Link>)
    requires Wired(g) && |bd| == |bd'| == g.switches && RacesAgree(g, k, r, q)
    requires forall l :: l in g.links && l.node in k && Closed(g, l.switch) ==> bd[l.switch] == bd'[l.switch]
    ensures RacesAgree(g, k, Run(bd, r, sched), Run(bd', q, sched))
  {
    if sched != [] {
      var prefix, l := sched[..|sched| - 1], sched[|sched| - 1];
      RaceInside(g, k, bd, bd', r, q, prefix);
      StepAgrees(g, k, bd, bd', Run(bd, r, prefix), Run(bd', q, prefix), l);
    }
  }

  lemma StepAgrees(g: Grid, k: set<nat>, bd: seq<int>, bd': seq<int>, r: Race, q: Race, l: Link)
    requires Wired(g) && |bd| == |bd'| == g.switches && RacesAgree(g, k, r, q)
    requires l in g.links && l.node in k && Closed(g, l.switch) ==> bd[l.switch] == bd'[l.switch]
    ensures RacesAgree(g, k, Step(bd, r, l), Step(bd', q, l))
  {
    var r', q' := Step(bd, r, l), Step(bd', q, l);
    if l.node in k && l in r.stage {
      StepsTogether(g, bd, bd', r, q, l);
    }
    assert r'.stage.Keys == r.stage.Keys && q'.stage.Keys == q.stage.Keys;
    forall j: Link | j.node in k ensures (j in r'.stage <==> j in q'.stage) && (j in r'.stage ==> r'.stage[j] == q'.stage[j]) {
      assert j in r.stage <==> j in q.stage;
    }
  }

  /** A task that both races have, in the same stage and on the same labels. */
  lemma StepsTogether(g: Grid, bd: seq<int>, bd': seq<int>, r: Race, q: Race, l: Link)
    requires |r.cn| == |q.cn| == g.cns && |bd| == |bd'| == g.switches
    requires l in r.stage && l in q.stage && r.stage[l] == q.stage[l] && l.node < g.cns && l.switch < g.switches
    requires bd[l.switch] == bd'[l.switch] && r.cn[l.node] == q.cn[l.node]
    ensures var r', q' := Step(bd, r, l), Step(bd', q, l);
            && r'.stage == r.stage[l := r'.stage[l]] && q'.stage == q.stage[l := r'.stage[l]]
            && r'.cn == r.cn[l.node := r'.cn[l.node]] && q'.cn == q.cn[l.node := r'.cn[l.node]]
  {
  }

  lemma RoundInside(g: Grid, k: set<nat>, s: Loop, t: Loop, sched: seq<Link>)
    requires Shaped(g, s) && Shaped(Only(g, k), t) && Isolated(g, k) && SameInside(g, k, s, t)
    ensures Shaped(g, Round(g, s, sched)) && Shaped(Only(g, k), Round(Only(g, k), t, sched))
    ensures SameInside(g, k, Round(g, s, sched), Round(Only(g, k), t, sched))
  {
    var h := Only(g, k);
    RoundShaped(g, s, sched);
    RoundShaped(h, t, sched);
    forall l | l in g.links && l.node in k && Closed(g, l.switch)
      ensures Lifted(g, s)[l.switch] == Lifted(h, t)[l.switch]
    {
      LiftedInside(g, k, s, t, l);
    }
    forall l: Link | l.node in k
      ensures l in Tasks(g, s.frontier) <==> l in Tasks(h, t.frontier)
    {
      TasksInside(g, k, s.frontier, l);
    }
    RaceInside(g, k, Lifted(g, s), Lifted(h, t),
               Begin(s.cn, Tasks(g, s.frontier)), Begin(t.cn, Tasks(h, t.frontier)), sched);
  }

  /** After any number of rounds under any schedules, a union of islands looks exactly as if the same
      rounds had been run on it alone. */
  lemma {:induction false} OpenSwitchesIsolate(g: Grid, k: set<nat>, s: Loop, t: Loop, scheds: seq<seq<Link>>)
    requires Shaped(g, s) && Shaped(Only(g, k), t) && Isolated(g, k) && SameInside(g, k, s, t)
    ensures SameInside(g, k, Rounds(g, s, scheds), Rounds(Only(g, k), t, scheds))
  {
    if scheds != [] {
      var prefix := scheds[..|scheds| - 1];
      OpenSwitchesIsolate(g, k, s, t, prefix);
      RoundInside(g, k, Rounds(g, s, prefix), Rounds(Only(g, k), t, prefix), scheds[|scheds| - 1]);
    }
  }
}
