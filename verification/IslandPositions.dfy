/** What the labelling loop does, told by the positions that the graph gives its switches: a switch passes
    labels on exactly when it stands at position 1. */
module IslandPositions {
  import opened Race
  import opened Islands
  import opened IslandExit

  // ---- Tasks, islands and paths by position

  /** Two links of one switch whose position is 1. */
  predicate Bridges(g: Grid, l: Link, m: Link) {
    l in g.links && m in g.links && l.switch == m.switch < |g.point| && g.point[l.switch] == 1
  }

  /** No two links of one switch at position 1 lead out of `k`. */
  ghost predicate Unbridged(g: Grid, k: set<nat>) {
    forall l: Link, m: Link :: l.node in k && Bridges(g, l, m) ==> m.node in k
  }

  /** A switch works on the nodes around it exactly when it stands at position 1 and is next to the frontier. */
  lemma TasksAre(g: Grid, frontier: set<nat>, l: Link)
    requires Wired(g)
    ensures l in Tasks(g, frontier) <==> exists n :: n in g.links && n.node in frontier && Bridges(g, l, n)
  {
    if n :| n in g.links && n.node in frontier && Bridges(g, l, n) {
      assert n.switch in Reached(g, frontier);
    }
  }

  lemma AdjacentIff(g: Grid, c: nat, d: nat)
    ensures Adjacent(g, c, d) <==> Linked(g, c, d)
  {
    if b: nat :| Closed(g, b) && Link(c, b) in g.links && Link(d, b) in g.links {
      assert Bridges(g, Link(c, b), Link(d, b));
    }
    if l: Link, m: Link :| Bridges(g, l, m) && l.node == c && m.node == d {
      assert l == Link(c, l.switch) && m == Link(d, l.switch);
    }
  }

  lemma IsolatedIff(g: Grid, k: set<nat>)
    ensures Isolated(g, k) <==> Unbridged(g, k)
  {
    if Isolated(g, k) {
      forall l: Link, m: Link | l.node in k && Bridges(g, l, m) ensures m.node in k {
        AdjacentIff(g, l.node, m.node);
      }
    }
    if Unbridged(g, k) {
      forall c, d | c in k && Adjacent(g, c, d) ensures d in k {
        AdjacentIff(g, c, d);
      }
    }
  }

  /** A walk over switches at position 1. */
  ghost predicate Chain(g: Grid, p: seq<nat>) {
    |p| > 0 && forall i :: 0 <= i < |p| - 1 ==> Linked(g, p[i], p[i + 1])
  }

  ghost predicate Linked(g: Grid, c: nat, d: nat) {
    exists l: Link, m: Link :: Bridges(g, l, m) && l.node == c && m.node == d
  }

  // ---- The loop by position

  /** A switch at any other position takes part in no round: a node that has only such switches keeps its
      label, whatever the schedules. */
  lemma {:induction false} OtherPositionsHold(g: Grid, s: Loop, scheds: seq<seq<Link>>, c: nat)
    requires Shaped(g, s) && c < g.cns
    requires forall l :: l in g.links && l.node == c ==> g.point[l.switch] != 1
    ensures Rounds(g, s, scheds).cn[c] == s.cn[c]
  {
    if scheds != [] {
      var before := Rounds(g, s, scheds[..|scheds| - 1]);
      OtherPositionsHold(g, s, scheds[..|scheds| - 1], c);
      forall l | l in Tasks(g, before.frontier) ensures l.node != c {
        TasksAre(g, before.frontier, l);
      }
      Unmoved(g, before, scheds[|scheds| - 1], c);
    }
  }

  /** If the loop exits, nodes that switches at position 1 connect inside the first frontier agree on one
      label, at least as large as any they started with. */
  lemma ConnectedAgree(g: Grid, s: Loop, scheds: seq<seq<Link>>, k: set<nat>, p: seq<nat>)
    requires Shaped(g, s) && Looping(s) && IsRun(g, s, scheds) && !Looping(Rounds(g, s, scheds))
    requires Unbridged(g, k) && k <= s.frontier && Chain(g, p) && p[0] in k && p[0] < g.cns
    ensures var c, d, s' := p[0], p[|p| - 1], Rounds(g, s, scheds);
            d < g.cns && s'.cn[c] == s'.cn[d] && s.cn[c] <= s'.cn[c] && s.cn[d] <= s'.cn[c]
  {
    IsolatedIff(g, k);
    forall i | 0 <= i < |p| - 1 ensures Adjacent(g, p[i], p[i + 1]) {
      assert Linked(g, p[i], p[i + 1]);
      AdjacentIff(g, p[i], p[i + 1]);
    }
    assert PathFrom(g, p, p[0], p[|p| - 1]);
    IslandCorrect(g, s, scheds, k, p[0], p[|p| - 1]);
  }

  /** The links of the nodes in `k` to switches at position 1. */
  function Within(g: Grid, k: set<nat>): set<Link>
    requires Wired(g)
  {
    set l | l in g.links && l.node in k && g.point[l.switch] == 1
  }

  /** `t` starts with what `s` has inside `k`. */
  predicate StartsInside(g: Grid, k: set<nat>, s: Loop, t: Loop)
    requires Shaped(g, s)
  {
    && |t.cn| == g.cns && t.bd == s.bd && t.frontier == s.frontier * k
    && forall c :: c in k && c < g.cns ==> t.cn[c] == s.cn[c]
  }

  /** Nodes that no switch at position 1 connects with the rest of the grid: all rounds, under any schedules,
      give them the labels and the frontier that they would have without the rest and without the switches
      at other positions. */
  lemma OtherSwitchesIsolate(g: Grid, h: Grid, k: set<nat>, s: Loop, t: Loop, scheds: seq<seq<Link>>)
    requires Shaped(g, s) && Unbridged(g, k) && StartsInside(g, k, s, t)
    requires h == Grid(g.cns, g.switches, Within(g, k), g.point)
    ensures Shaped(h, t)
    ensures Rounds(h, t, scheds).frontier == Rounds(g, s, scheds).frontier * k
    ensures forall c: nat :: c in k && c < g.cns ==> Rounds(h, t, scheds).cn[c] == Rounds(g, s, scheds).cn[c]
  {
    IsolatedIff(g, k);
    assert h == Only(g, k);
    OpenSwitchesIsolate(g, k, s, t, scheds);
  }

  /** Two nodes on one switch at position 0, with labels 0 and 5: no schedule moves a label. */
  lemma OpenPairHolds(scheds: seq<seq<Link>>)
    ensures var g, s := Grid(2, 1, {Link(0, 0), Link(1, 0)}, [0]), Loop([0, 5], [-1], {0, 1}, 0, 1);
            Shaped(g, s) && Rounds(g, s, scheds).cn == [0, 5]
  {
    var g, s := Grid(2, 1, {Link(0, 0), Link(1, 0)}, [0]), Loop([0, 5], [-1], {0, 1}, 0, 1);
    OtherPositionsHold(g, s, scheds, 0);
    OtherPositionsHold(g, s, scheds, 1);
  }
}
