/** Exactly when the labelling loop exits. */
module IslandExit {
  import opened Arithmetic
  import opened Race
  import opened Islands

  // ---- Labels under which no schedule ever lets the loop exit

  ghost predicate AnchoredAt(g: Grid, s: Loop, b: nat)
    requires Shaped(g, s) && b < g.switches
  {
    exists c: nat :: Link(c, b) in g.links && s.bd[b] <= s.cn[c]
  }

  /** No closed switch next to `k` is above all its nodes. */
  ghost predicate Anchored(g: Grid, k: set<nat>, s: Loop)
    requires Shaped(g, s)
  {
    forall l :: l in g.links && l.node in k && Closed(g, l.switch) ==> AnchoredAt(g, s, l.switch)
  }

  ghost predicate Watched(g: Grid, k: set<nat>, s: Loop) {
    Shaped(g, s) && Isolated(g, k) && Covered(g, k, s.frontier) && Anchored(g, k, s)
  }

  /** After the first half of a round, a closed switch carries the label of one of its nodes. */
  lemma LiftedLabel(g: Grid, k: set<nat>, s: Loop, l: Link) returns (c: nat)
    requires Watched(g, k, s) && l in g.links && l.node in k && Closed(g, l.switch)
    ensures c in k && c < g.cns && Link(c, l.switch) in g.links && Lifted(g, s)[l.switch] == s.cn[c]
  {
    var b := l.switch;
    assert l == Link(l.node, b);
    LiftedIsMax(g, s, b);
    if Lifted(g, s)[b] == s.bd[b] {
      assert AnchoredAt(g, s, b);
      c :| Link(c, b) in g.links && s.bd[b] <= s.cn[c];
      assert Adjacent(g, l.node, c);
      assert Link(c, b).node in s.frontier;
    } else {
      c :| c in s.frontier && Link(c, b) in g.links && Lifted(g, s)[b] == s.cn[c];
      assert Adjacent(g, l.node, c);
    }
  }

  lemma RoundWatched(g: Grid, k: set<nat>, s: Loop, sched: seq<Link>)
    requires Watched(g, k, s)
    ensures Watched(g, k, Round(g, s, sched))
  {
    RoundShaped(g, s, sched);
    RoundCovered(g, s, sched, k);
    var s' := Round(g, s, sched);
    forall l | l in g.links && l.node in k && Closed(g, l.switch) ensures AnchoredAt(g, s', l.switch) {
      var c := LiftedLabel(g, k, s, l);
      assert Link(c, l.switch) in g.links && s'.bd[l.switch] <= s'.cn[c];
    }
  }

  /** Every task at a node of `k` carries a label of `k`. */
  ghost predicate FromLabels(g: Grid, k: set<nat>, s: Loop, bd: seq<int>)
    requires Shaped(g, s)
  {
    forall l :: l in Tasks(g, s.frontier) && l.node in k && l.switch < |bd| ==>
      exists c: nat :: c in k && c < g.cns && bd[l.switch] == s.cn[c]
  }

  lemma TasksFromLabels(g: Grid, k: set<nat>, s: Loop)
    requires Watched(g, k, s)
    ensures FromLabels(g, k, s, Lifted(g, s))
  {
    forall l | l in Tasks(g, s.frontier) && l.node in k
      ensures exists c: nat :: c in k && c < g.cns && Lifted(g, s)[l.switch] == s.cn[c]
    {
      var c := LiftedLabel(g, k, s, l);
    }
  }

  /** A node that only 0 or labels no larger than its own reach keeps its label. */
  lemma Unmoved(g: Grid, s: Loop, sched: seq<Link>, t: nat)
    requires Shaped(g, s) && t < g.cns
    requires forall l :: l in Tasks(g, s.frontier) && l.node == t ==> Lifted(g, s)[l.switch] <= Max(s.cn[t], 0)
    requires s.cn[t] < 0 ==>
               forall l :: l in Tasks(g, s.frontier) && l.node == t ==> Lifted(g, s)[l.switch] <= s.cn[t] || Lifted(g, s)[l.switch] == 0
    ensures |Round(g, s, sched).cn| == g.cns && Round(g, s, sched).cn[t] == s.cn[t]
  {
    RoundShaped(g, s, sched);
    var step := Round(g, s, sched).cn[t] - s.cn[t] + 1;
    Ladder(Lifted(g, s), s.cn, Tasks(g, s.frontier), sched, t, step);
  }

  lemma RoundLadder(g: Grid, s: Loop, sched: seq<Link>, t: nat, step: int)
    requires Shaped(g, s) && t < g.cns && step > 0
    requires SingleStep(Lifted(g, s), Tasks(g, s.frontier), t, s.cn[t], step)
    ensures |Round(g, s, sched).cn| == g.cns && OnLadder(Round(g, s, sched).cn[t], s.cn[t], step)
  {
    Ladder(Lifted(g, s), s.cn, Tasks(g, s.frontier), sched, t, step);
  }

  ghost predicate At(k: set<nat>, cn: seq<int>, c: nat, v: int) { c in k && c < |cn| && cn[c] == v }

  ghost predicate TwoPositive(k: set<nat>, cn: seq<int>) {
    exists c, d, v, w :: At(k, cn, c, v) && At(k, cn, d, w) && 0 < v < w
  }

  /** Every label is -1, 0 or m. */
  ghost predicate Only3(k: set<nat>, cn: seq<int>, m: int) {
    forall c: nat :: c in k && c < |cn| ==> cn[c] == -1 || cn[c] == 0 || cn[c] == m
  }

  /** An unseeded node in an island labelled 2 or more. */
  ghost predicate UnseededHigh(k: set<nat>, cn: seq<int>, m: int) {
    m >= 2 && Only3(k, cn, m) && (exists c :: At(k, cn, c, -1)) && (exists d :: At(k, cn, d, m))
  }

  /** An unseeded node in an island labelled 0. */
  ghost predicate UnseededZero(k: set<nat>, cn: seq<int>) {
    Only3(k, cn, 0) && (exists c :: At(k, cn, c, -1)) && (exists d :: At(k, cn, d, 0))
  }

  ghost predicate Hopeless(k: set<nat>, cn: seq<int>) {
    TwoPositive(k, cn) || UnseededZero(k, cn) || exists m :: UnseededHigh(k, cn, m)
  }

  lemma {:induction false} Highest(cn: seq<int>, k: set<nat>) returns (c: nat)
    requires k != {} && forall d :: d in k ==> d < |cn|
    ensures c in k && forall d :: d in k ==> cn[d] <= cn[c]
    decreases k
  {
    c :| c in k;
    var rest := k - {c};
    forall d | d in k ensures d == c || d in rest {
    }
    if rest != {} {
      var e := Highest(cn, rest);
      c := if cn[c] < cn[e] then e else c;
    }
  }

  /** A node with the highest label of `k`, and one with the highest of the labels below it. */
  ghost predicate TopTwo(k: set<nat>, cn: seq<int>, m: nat, z: nat) {
    && m in k && z in k && m < |cn| && z < |cn| && 0 < cn[z] < cn[m]
    && forall c :: c in k && c < |cn| ==> cn[c] <= cn[z] || cn[c] == cn[m]
  }

  lemma FindTopTwo(k: set<nat>, cn: seq<int>) returns (m: nat, z: nat)
    requires TwoPositive(k, cn)
    ensures TopTwo(k, cn, m, z)
  {
    var c0, d0, v0, w0 :| At(k, cn, c0, v0) && At(k, cn, d0, w0) && 0 < v0 < w0;
    var inside := set c | c in k && c < |cn|;
    assert c0 in inside && d0 in inside;
    m := Highest(cn, inside);
    var lower := set c | c in inside && cn[c] < cn[m];
    assert c0 in lower;
    z := Highest(cn, lower);
    forall c | c in k && c < |cn| ensures cn[c] <= cn[z] || cn[c] == cn[m] {
      assert c in inside;
      assert cn[c] < cn[m] ==> c in lower;
    }
  }

  /** The two largest labels of a set of nodes that feeds itself stay different. */
  lemma TwoPositiveStays(g: Grid, k: set<nat>, s: Loop, sched: seq<Link>)
    requires Shaped(g, s) && FromLabels(g, k, s, Lifted(g, s)) && TwoPositive(k, s.cn)
    ensures TwoPositive(k, Round(g, s, sched).cn)
  {
    RoundShaped(g, s, sched);
    var m, z := FindTopTwo(k, s.cn);
    TopTwoTasks(g, k, s, m, z);
    Unmoved(g, s, sched, m);
    RoundLadder(g, s, sched, z, s.cn[m]);
    var cn' := Round(g, s, sched).cn;
    assert At(k, cn', m, cn'[m]) && At(k, cn', z, cn'[z]);
    assert cn'[z] < cn'[m] || cn'[m] < cn'[z];
  }

  lemma TopTwoTasks(g: Grid, k: set<nat>, s: Loop, m: nat, z: nat)
    requires Shaped(g, s) && FromLabels(g, k, s, Lifted(g, s)) && TopTwo(k, s.cn, m, z)
    ensures forall l :: l in Tasks(g, s.frontier) && l.node in k ==>
              Lifted(g, s)[l.switch] <= s.cn[z] || Lifted(g, s)[l.switch] == s.cn[m]
  {
    forall l | l in Tasks(g, s.frontier) && l.node in k
      ensures Lifted(g, s)[l.switch] <= s.cn[z] || Lifted(g, s)[l.switch] == s.cn[m]
    {
      var c: nat :| c in k && c < g.cns && Lifted(g, s)[l.switch] == s.cn[c];
    }
  }

  lemma UnseededZeroStays(g: Grid, k: set<nat>, s: Loop, sched: seq<Link>)
    requires Watched(g, k, s) && UnseededZero(k, s.cn)
    ensures UnseededZero(k, Round(g, s, sched).cn)
  {
    RoundShaped(g, s, sched);
    TasksFromLabels(g, k, s);
    var cn' := Round(g, s, sched).cn;
    forall t: nat | t in k && t < g.cns ensures cn'[t] == s.cn[t] {
      Unmoved(g, s, sched, t);
    }
    var c :| At(k, s.cn, c, -1);
    var d :| At(k, s.cn, d, 0);
    assert At(k, cn', c, -1) && At(k, cn', d, 0);
  }

  lemma UnseededHighStays(g: Grid, k: set<nat>, s: Loop, sched: seq<Link>, m: int)
    requires Watched(g, k, s) && UnseededHigh(k, s.cn, m)
    ensures TwoPositive(k, Round(g, s, sched).cn) || UnseededHigh(k, Round(g, s, sched).cn, m)
  {
    RoundShaped(g, s, sched);
    TasksFromLabels(g, k, s);
    var cn' := Round(g, s, sched).cn;
    var c :| At(k, s.cn, c, -1);
    var d :| At(k, s.cn, d, m);
    Unmoved(g, s, sched, d);
    assert At(k, cn', d, m);
    forall t: nat | t in k && t < g.cns ensures OnLadder(cn'[t], s.cn[t], m) {
      RoundLadder(g, s, sched, t, m);
    }
    forall t: nat | t in k && t < g.cns && s.cn[t] == m ensures cn'[t] == m {
      Unmoved(g, s, sched, t);
    }
    if t: nat :| t in k && t < g.cns && cn'[t] > 0 && cn'[t] != m {
      assert At(k, cn', t, cn'[t]);
      assert cn'[t] < m || m < cn'[t];
    } else {
      assert At(k, cn', c, -1);
    }
  }

  lemma HopelessStays(g: Grid, k: set<nat>, s: Loop, sched: seq<Link>)
    requires Watched(g, k, s) && Hopeless(k, s.cn)
    ensures Hopeless(k, Round(g, s, sched).cn)
  {
    if TwoPositive(k, s.cn) {
      TasksFromLabels(g, k, s);
      TwoPositiveStays(g, k, s, sched);
    } else if UnseededZero(k, s.cn) {
      UnseededZeroStays(g, k, s, sched);
    } else {
      var m :| UnseededHigh(k, s.cn, m);
      UnseededHighStays(g, k, s, sched, m);
    }
  }

  lemma {:induction false} HopelessForever(g: Grid, k: set<nat>, s: Loop, scheds: seq<seq<Link>>)
    requires Watched(g, k, s) && Hopeless(k, s.cn)
    ensures Watched(g, k, Rounds(g, s, scheds)) && Hopeless(k, Rounds(g, s, scheds).cn)
  {
    if scheds != [] {
      var before := Rounds(g, s, scheds[..|scheds| - 1]);
      HopelessForever(g, k, s, scheds[..|scheds| - 1]);
      RoundWatched(g, k, before, scheds[|scheds| - 1]);
      HopelessStays(g, k, before, scheds[|scheds| - 1]);
    }
  }

  /** `k` is one island. */
  ghost predicate Island(g: Grid, k: set<nat>) {
    Isolated(g, k) && (forall c :: c in k ==> c < g.cns) && forall c, d :: c in k && d in k ==> Joined(g, c, d)
  }

  lemma HopelessDiffer(k: set<nat>, cn: seq<int>) returns (c: nat, d: nat)
    requires Hopeless(k, cn)
    ensures c in k && d in k && c < |cn| && d < |cn| && cn[c] != cn[d]
  {
    if TwoPositive(k, cn) {
      var v, w;
      c, d, v, w :| At(k, cn, c, v) && At(k, cn, d, w) && 0 < v < w;
    } else if UnseededZero(k, cn) {
      c :| At(k, cn, c, -1);
      d :| At(k, cn, d, 0);
    } else {
      var m :| UnseededHigh(k, cn, m);
      c :| At(k, cn, c, -1);
      d :| At(k, cn, d, m);
    }
  }

  /** A round that leaves an island hopeless is not the last. */
  lemma HopelessLoops(g: Grid, k: set<nat>, s: Loop, sched: seq<Link>)
    requires Watched(g, k, s) && Island(g, k) && Complete(Raced(g, s, sched))
    requires Hopeless(k, Round(g, s, sched).cn)
    ensures Looping(Round(g, s, sched))
  {
    RoundShaped(g, s, sched);
    var c, d := HopelessDiffer(k, Round(g, s, sched).cn);
    if !Looping(Round(g, s, sched)) {
      QuietRound(g, s, sched, k, c, d);
    }
  }

  /** One hopeless island in the frontier keeps the loop running for ever, under every schedule. */
  lemma NeverExits(g: Grid, k: set<nat>, s: Loop, scheds: seq<seq<Link>>)
    requires Watched(g, k, s) && Island(g, k) && Hopeless(k, s.cn) && Looping(s) && IsRun(g, s, scheds)
    ensures Looping(Rounds(g, s, scheds))
  {
    if scheds != [] {
      HopelessForever(g, k, s, scheds[..|scheds| - 1]);
      HopelessForever(g, k, s, scheds);
      HopelessLoops(g, k, Rounds(g, s, scheds[..|scheds| - 1]), scheds[|scheds| - 1]);
    }
  }

  // ---- Any frontier

  ghost predicate GroundedAt(g: Grid, s: Loop, b: nat)
    requires Shaped(g, s) && b < g.switches
  {
    s.bd[b] == -1 || exists c: nat :: c in s.frontier && Link(c, b) in g.links && s.bd[b] <= s.cn[c]
  }

  /** Labels are seeded from -1, and no closed switch is above all frontier nodes next to it. */
  ghost predicate Grounded(g: Grid, s: Loop) {
    && Shaped(g, s) && (forall c :: 0 <= c < g.cns ==> s.cn[c] >= -1) && (forall c :: c in s.frontier ==> c < g.cns)
    && forall b: nat :: Closed(g, b) ==> GroundedAt(g, s, b)
  }

  /** After the first half of a round, a reached closed switch carries the label of a frontier node. */
  lemma GroundedLabel(g: Grid, s: Loop, l: Link) returns (c: nat)
    requires Grounded(g, s) && l in Tasks(g, s.frontier)
    ensures c in s.frontier && Link(c, l.switch) in g.links && Lifted(g, s)[l.switch] == s.cn[c] && Adjacent(g, c, l.node)
  {
    var b := l.switch;
    assert l == Link(l.node, b);
    LiftedIsMax(g, s, b);
    if Lifted(g, s)[b] != s.bd[b] {
      c :| c in s.frontier && Link(c, b) in g.links && Lifted(g, s)[b] == s.cn[c];
    } else if s.bd[b] == -1 {
      var n :| n in g.links && n.node in s.frontier && n.switch == b;
      assert n == Link(n.node, b);
      c := n.node;
    } else {
      assert GroundedAt(g, s, b);
      c :| c in s.frontier && Link(c, b) in g.links && s.bd[b] <= s.cn[c];
    }
  }

  /** A frontier node next to a closed switch, and every node across that switch, get a task. */
  lemma Across(g: Grid, s: Loop, sched: seq<Link>, c: nat, d: nat, b: nat)
    requires Shaped(g, s) && c in s.frontier && Closed(g, b) && Link(c, b) in g.links && Link(d, b) in g.links
    ensures Link(d, b) in Tasks(g, s.frontier) && d in Round(g, s, sched).frontier && Lifted(g, s)[b] >= s.cn[c]
  {
    assert Link(c, b).node in s.frontier;
    assert b in Reached(g, s.frontier);
    assert Link(d, b) in Tasks(g, s.frontier);
    LiftedIsMax(g, s, b);
  }

  lemma RoundGrounded(g: Grid, s: Loop, sched: seq<Link>)
    requires Grounded(g, s)
    ensures Grounded(g, Round(g, s, sched))
  {
    RoundShaped(g, s, sched);
    var s' := Round(g, s, sched);
    forall b: nat | Closed(g, b) ensures GroundedAt(g, s', b) {
      if n :| n in g.links && n.switch == b && n.node in s.frontier {
        assert n == Link(n.node, b);
        Across(g, s, sched, n.node, n.node, b);
        var c := GroundedLabel(g, s, n);
        Across(g, s, sched, c, c, b);
      } else {
        assert GroundedAt(g, s, b);
        assert forall c: nat :: c in s.frontier ==> Link(c, b) !in g.links || Link(c, b).node !in s.frontier;
        LiftedIsMax(g, s, b);
      }
    }
  }

  lemma {:induction false} RoundsGrounded(g: Grid, s: Loop, scheds: seq<seq<Link>>)
    requires Grounded(g, s)
    ensures Grounded(g, Rounds(g, s, scheds))
  {
    if scheds != [] {
      RoundsGrounded(g, s, scheds[..|scheds| - 1]);
      RoundGrounded(g, Rounds(g, s, scheds[..|scheds| - 1]), scheds[|scheds| - 1]);
    }
  }

  /** No frontier node has a higher label than a node across a closed switch. */
  ghost predicate Level(g: Grid, s: Loop)
    requires Shaped(g, s)
  {
    forall c: nat, d: nat :: c in s.frontier && c < g.cns && Adjacent(g, c, d) && d < g.cns ==> s.cn[c] <= s.cn[d]
  }

  /** A round is the last exactly when the labels are level around the frontier: for all labels, every
      frontier and every schedule. */
  lemma ExitIff(g: Grid, s: Loop, sched: seq<Link>)
    requires Grounded(g, s) && Complete(Raced(g, s, sched))
    ensures !Looping(Round(g, s, sched)) <==> Level(g, s)
    ensures Level(g, s) ==> Round(g, s, sched).cn == s.cn
  {
    RoundShaped(g, s, sched);
    CounterStays(Lifted(g, s), s.cn, Tasks(g, s.frontier), sched);
    if Level(g, s) {
      forall l | l in Tasks(g, s.frontier) ensures Lifted(g, s)[l.switch] <= s.cn[l.node] {
        var c := GroundedLabel(g, s, l);
      }
    }
    if !Looping(Round(g, s, sched)) {
      forall c: nat, d: nat | c in s.frontier && Adjacent(g, c, d) ensures d < g.cns && s.cn[c] <= s.cn[d] {
        var b: nat :| Closed(g, b) && Link(c, b) in g.links && Link(d, b) in g.links;
        Across(g, s, sched, c, d, b);
      }
    }
  }

  // ---- Labels under which every schedule with fused reads exits

  /** Labels an island with highest label `top` may hold on the way to `top`. */
  predicate Tier(top: int, v: int) { v == top || (top >= 0 && v == 0) || (top == 1 && v == -1) }

  /** `top` is constant on islands, held by some node of each, and every label of `k` is on its way to it. */
  ghost predicate Tiered(g: Grid, k: set<nat>, top: seq<int>, s: Loop) {
    && Grounded(g, s) && Isolated(g, k) && s.frontier <= k && |top| == g.cns
    && (forall c :: c in k ==> c < g.cns && top[c] >= -1 && Tier(top[c], s.cn[c]) && HeldNear(g, top, s.cn, c))
    && (forall c: nat, d: nat :: c in k && Adjacent(g, c, d) ==> top[c] == top[d])
  }

  ghost predicate HeldNear(g: Grid, top: seq<int>, cn: seq<int>, c: nat)
    requires c < |top|
  {
    exists p :: Path(g, p) && p[|p| - 1] == c && p[0] < |cn| && cn[p[0]] == top[c]
  }

  lemma LiftedTier(g: Grid, k: set<nat>, top: seq<int>, s: Loop, l: Link)
    requires Tiered(g, k, top, s) && l in Tasks(g, s.frontier)
    ensures l.node in k && l.switch < g.switches && Tier(top[l.node], Lifted(g, s)[l.switch])
  {
    var c := GroundedLabel(g, s, l);
    assert top[c] == top[l.node] && Tier(top[c], s.cn[c]);
  }

  /** With fused reads a node stays in its tier. */
  lemma NodeTier(g: Grid, k: set<nat>, top: seq<int>, s: Loop, sched: seq<Link>, t: nat)
    requires Tiered(g, k, top, s) && t in k && Fused(Lifted(g, s), Begin(s.cn, Tasks(g, s.frontier)), sched)
    ensures |Round(g, s, sched).cn| == g.cns && Tier(top[t], Round(g, s, sched).cn[t])
  {
    var ok := iset v | Tier(top[t], v);
    var bd, tasks := Lifted(g, s), Tasks(g, s.frontier);
    assert ClosedUnder(bd, tasks, t, ok) by {
      forall l, v | l in tasks && l.node == t && l.switch < |bd| && v in ok && bd[l.switch] > v
        ensures v + bd[l.switch] in ok
      {
        LiftedTier(g, k, top, s, l);
      }
    }
    assert Tier(top[t], s.cn[t]);
    FusedInside(bd, s.cn, tasks, sched, t, ok);
  }

  lemma RoundTiered(g: Grid, k: set<nat>, top: seq<int>, s: Loop, sched: seq<Link>)
    requires Tiered(g, k, top, s) && Fused(Lifted(g, s), Begin(s.cn, Tasks(g, s.frontier)), sched)
    ensures Tiered(g, k, top, Round(g, s, sched))
  {
    forall c | c in k ensures |Round(g, s, sched).cn| == g.cns && Tier(top[c], Round(g, s, sched).cn[c]) {
      NodeTier(g, k, top, s, sched, c);
    }
    TieredIfNodes(g, k, top, s, sched);
  }

  /** A round that keeps every node in its tier keeps the rest as well. */
  lemma TieredIfNodes(g: Grid, k: set<nat>, top: seq<int>, s: Loop, sched: seq<Link>)
    requires Tiered(g, k, top, s)
    requires forall c :: c in k ==> |Round(g, s, sched).cn| == g.cns && Tier(top[c], Round(g, s, sched).cn[c])
    ensures Tiered(g, k, top, Round(g, s, sched))
  {
    var s' := Round(g, s, sched);
    RoundShaped(g, s, sched);
    RoundGrounded(g, s, sched);
    FrontierStays(g, s, sched, k);
    forall c | c in k ensures HeldNear(g, top, s'.cn, c) {
      assert HeldNear(g, top, s.cn, c);
      var p :| Path(g, p) && p[|p| - 1] == c && p[0] < |s.cn| && s.cn[p[0]] == top[c];
      PathBack(g, p, k, top);
      assert Tier(top[p[0]], s'.cn[p[0]]) && s.cn[p[0]] <= s'.cn[p[0]];
    }
  }

  lemma FrontierStays(g: Grid, s: Loop, sched: seq<Link>, k: set<nat>)
    requires Shaped(g, s) && Isolated(g, k) && s.frontier <= k
    ensures Round(g, s, sched).frontier <= k
  {
    forall l | l in Tasks(g, s.frontier) ensures l.node in k {
      var n :| n in g.links && n.node in s.frontier && n.switch == l.switch;
      assert n == Link(n.node, l.switch) && l == Link(l.node, l.switch);
      assert Adjacent(g, n.node, l.node);
    }
  }

  /** Walking a path back from a node of `k` stays in `k` and under one top. */
  lemma {:induction false} PathBack(g: Grid, p: seq<nat>, k: set<nat>, top: seq<int>)
    requires Path(g, p) && Isolated(g, k) && p[|p| - 1] in k
    requires forall c :: c in k ==> c < |top|
    requires forall c: nat, d: nat :: c in k && Adjacent(g, c, d) ==> d in k && top[c] == top[d]
    ensures p[0] in k && top[p[0]] == top[p[|p| - 1]]
  {
    if |p| > 1 {
      assert Adjacent(g, p[0], p[0 + 1]);
      var q := p[1..];
      assert Path(g, q) by {
        forall i | 0 <= i < |q| - 1 ensures Adjacent(g, q[i], q[i + 1]) {
          assert Adjacent(g, p[i + 1], p[i + 1 + 1]);
        }
      }
      PathBack(g, q, k, top);
      AdjacentSymmetric(g, p[0], p[1]);
    }
  }

  /** How many times a label can still rise. */
  function Climb(top: int, v: int): nat { if v == top then 0 else if v == 0 then 1 else 2 }

  function Potential(k: set<nat>, top: seq<int>, cn: seq<int>, n: nat): nat
    requires n <= |top| && n <= |cn|
  {
    if n == 0 then 0 else
    Potential(k, top, cn, n - 1) + if n - 1 in k then Climb(top[n - 1], cn[n - 1]) else 0
  }

  lemma {:induction false} PotentialFalls(k: set<nat>, top: seq<int>, cn: seq<int>, cn': seq<int>, n: nat)
    requires n <= |top| && n <= |cn| && n <= |cn'|
    requires forall c :: c in k && c < n ==> Tier(top[c], cn[c]) && Tier(top[c], cn'[c]) && cn[c] <= cn'[c]
    ensures Potential(k, top, cn', n) <= Potential(k, top, cn, n)
    ensures (exists c :: c in k && c < n && cn[c] < cn'[c]) ==> Potential(k, top, cn', n) < Potential(k, top, cn, n)
  {
    if n > 0 {
      PotentialFalls(k, top, cn, cn', n - 1);
    }
  }

  /** On a path that leaves the nodes labelled `v`, one step leaves them. */
  lemma {:induction false} LeavingStep(g: Grid, cn: seq<int>, p: seq<nat>, v: int) returns (x: nat, y: nat)
    requires Path(g, p) && forall i :: 0 <= i < |p| ==> p[i] < |cn|
    requires cn[p[0]] == v && cn[p[|p| - 1]] != v
    ensures x in p && y in p && Adjacent(g, x, y) && cn[x] == v && cn[y] != v
  {
    if cn[p[|p| - 2]] == v {
      x, y := p[|p| - 2], p[|p| - 1];
      assert Adjacent(g, p[|p| - 2], p[|p| - 2 + 1]);
    } else {
      var q := p[..|p| - 1];
      assert Path(g, q);
      x, y := LeavingStep(g, cn, q, v);
    }
  }

  /** A task with a positive switch above its node raises it. */
  lemma HotRises(g: Grid, s: Loop, sched: seq<Link>, l: Link)
    requires Shaped(g, s) && Complete(Raced(g, s, sched)) && l in Tasks(g, s.frontier)
    requires Lifted(g, s)[l.switch] > 0 && Lifted(g, s)[l.switch] > s.cn[l.node]
    ensures |Round(g, s, sched).cn| == g.cns && s.cn[l.node] < Round(g, s, sched).cn[l.node]
  {
    TaskServed(Lifted(g, s), s.cn, Tasks(g, s.frontier), sched, l);
  }

  lemma SomePass(g: Grid, k: set<nat>, s: Loop, sched: seq<Link>) returns (l: Link)
    requires Shaped(g, s) && Isolated(g, k) && s.frontier <= k
    requires Complete(Raced(g, s, sched)) && Looping(Round(g, s, sched))
    ensures l in Tasks(g, s.frontier) && l.node in k && Lifted(g, s)[l.switch] > s.cn[l.node]
  {
    RoundShaped(g, s, sched);
    FrontierStays(g, s, sched, k);
    CounterStays(Lifted(g, s), s.cn, Tasks(g, s.frontier), sched);
    l :| l in Tasks(g, s.frontier) && Lifted(g, s)[l.switch] > s.cn[l.node];
    assert l.node in Round(g, s, sched).frontier;
  }

  ghost predicate Raises(g: Grid, k: set<nat>, s: Loop, s': Loop)
    requires Shaped(g, s) && Shaped(g, s')
  {
    exists t :: t in k && t < g.cns && s.cn[t] < s'.cn[t]
  }

  /** A round that passes a test raises some label, or reaches new nodes. */
  lemma RiseOrGrow(g: Grid, k: set<nat>, top: seq<int>, s: Loop, sched: seq<Link>)
    requires Tiered(g, k, top, s) && Complete(Raced(g, s, sched)) && Looping(Round(g, s, sched))
    ensures Shaped(g, Round(g, s, sched))
    ensures Raises(g, k, s, Round(g, s, sched)) || !(Round(g, s, sched).frontier <= s.frontier)
  {
    RoundShaped(g, s, sched);
    var l := SomePass(g, k, s, sched);
    if Lifted(g, s)[l.switch] > 0 {
      HotRises(g, s, sched, l);
    } else if Round(g, s, sched).frontier <= s.frontier {
      LiftedTier(g, k, top, s, l);
      assert Tier(top[l.node], s.cn[l.node]);
      assert l.node in Round(g, s, sched).frontier;
      FrontierClosed(g, s, sched);
      var t := RiseOnPath(g, k, top, s, sched, l.node);
    }
  }

  /** Where nothing is unseeded below a seed, a round that passes a test raises some label. */
  lemma PlainRise(g: Grid, k: set<nat>, top: seq<int>, s: Loop, sched: seq<Link>)
    requires Tiered(g, k, top, s) && Complete(Raced(g, s, sched)) && Looping(Round(g, s, sched))
    requires forall c :: c in k ==> top[c] == -1 || s.cn[c] >= 0
    ensures Shaped(g, Round(g, s, sched)) && Raises(g, k, s, Round(g, s, sched))
  {
    RoundShaped(g, s, sched);
    var l := SomePass(g, k, s, sched);
    LiftedTier(g, k, top, s, l);
    HotRises(g, s, sched, l);
  }

  /** A round that reaches nothing new: the frontier is made of whole islands. */
  lemma FrontierClosed(g: Grid, s: Loop, sched: seq<Link>)
    requires Shaped(g, s) && Round(g, s, sched).frontier <= s.frontier
    ensures Isolated(g, s.frontier)
  {
    forall c, d | c in s.frontier && Adjacent(g, c, d) ensures d in s.frontier {
      var b: nat :| Closed(g, b) && Link(c, b) in g.links && Link(d, b) in g.links;
      Across(g, s, sched, c, d, b);
    }
  }

  lemma RiseOnPath(g: Grid, k: set<nat>, top: seq<int>, s: Loop, sched: seq<Link>, c: nat) returns (t: nat)
    requires Tiered(g, k, top, s) && Complete(Raced(g, s, sched)) && Isolated(g, s.frontier)
    requires c in s.frontier && top[c] == 1 && s.cn[c] != 1
    ensures t in k && |Round(g, s, sched).cn| == g.cns && s.cn[t] < Round(g, s, sched).cn[t]
  {
    assert HeldNear(g, top, s.cn, c);
    var p :| Path(g, p) && p[|p| - 1] == c && p[0] < |s.cn| && s.cn[p[0]] == top[c];
    PathBack(g, p, s.frontier, top);
    PathStays(g, p, s.frontier);
    var x, y := LeavingStep(g, s.cn, p, 1);
    var b: nat :| Closed(g, b) && Link(x, b) in g.links && Link(y, b) in g.links;
    Across(g, s, sched, x, y, b);
    t := y;
    PathBackTo(g, p, k, top, y);
    assert Tier(top[y], s.cn[y]);
    HotRises(g, s, sched, Link(y, b));
  }

  lemma PathBackTo(g: Grid, p: seq<nat>, k: set<nat>, top: seq<int>, y: nat)
    requires Path(g, p) && Isolated(g, k) && p[|p| - 1] in k && y in p && p[0] in k
    requires forall c :: c in k ==> c < |top|
    requires forall c: nat, d: nat :: c in k && Adjacent(g, c, d) ==> d in k && top[c] == top[d]
    ensures y in k && top[y] == top[p[|p| - 1]]
  {
    var i :| 0 <= i < |p| && p[i] == y;
    PathStays(g, p, k);
    var q := p[i..];
    assert Path(g, q) by {
      forall j | 0 <= j < |q| - 1 ensures Adjacent(g, q[j], q[j + 1]) {
        assert Adjacent(g, p[i + j], p[i + j + 1]);
      }
    }
    PathBack(g, q, k, top);
  }

  // ---- Nodes the frontier has yet to reach

  ghost predicate HasClosed(g: Grid, c: nat) { exists l :: l in g.links && l.node == c && Closed(g, l.switch) }

  ghost function Unseen(g: Grid, k: set<nat>, frontier: set<nat>): set<nat> {
    set c | c in k && HasClosed(g, c) && c !in frontier
  }

  lemma {:induction false} BelowSize(k: set<nat>, n: nat)
    requires forall c :: c in k ==> c < n
    ensures |k| <= n
  {
    if n > 0 {
      BelowSize(k - {n - 1}, n - 1);
    } else {
      assert k == {};
    }
  }

  lemma StrictSubset(a: set<nat>, b: set<nat>)
    requires a <= b
    ensures |a| <= |b| && (a != b ==> |a| < |b|)
  {
    assert b == a + (b - a);
    if a != b {
      assert b - a != {};
    }
  }

  /** Nodes stay seen, and a frontier that grows sees more. */
  lemma SeesMore(g: Grid, k: set<nat>, s: Loop, sched: seq<Link>)
    requires Shaped(g, s) && Isolated(g, k) && s.frontier <= k
    ensures var a, b := Unseen(g, k, s.frontier), Unseen(g, k, Round(g, s, sched).frontier);
            |b| <= |a| && (Round(g, s, sched).frontier <= s.frontier || |b| < |a|)
  {
    var s' := Round(g, s, sched);
    var a, b := Unseen(g, k, s.frontier), Unseen(g, k, s'.frontier);
    FrontierStays(g, s, sched, k);
    forall c | c in s.frontier && HasClosed(g, c) ensures c in s'.frontier {
      var l :| l in g.links && l.node == c && Closed(g, l.switch);
      assert l == Link(c, l.switch);
      Across(g, s, sched, c, c, l.switch);
    }
    assert b <= a;
    StrictSubset(b, a);
    if d :| d in s'.frontier && d !in s.frontier {
      var l :| l in Tasks(g, s.frontier) && l.node == d;
      assert HasClosed(g, d);
      assert d in a && d !in b;
    }
  }

  ghost predicate FusedRun(g: Grid, s: Loop, scheds: seq<seq<Link>>)
    requires Shaped(g, s)
  {
    scheds == [] ||
    var before := Rounds(g, s, scheds[..|scheds| - 1]);
    && FusedRun(g, s, scheds[..|scheds| - 1])
    && Fused(Lifted(g, before), Begin(before.cn, Tasks(g, before.frontier)), scheds[|scheds| - 1])
  }

  /** While the loop goes on, every round raises a label or reaches new nodes. */
  lemma {:induction false} RunsDown(g: Grid, k: set<nat>, top: seq<int>, s: Loop, scheds: seq<seq<Link>>)
    requires Tiered(g, k, top, s) && IsRun(g, s, scheds) && FusedRun(g, s, scheds)
    ensures Tiered(g, k, top, Rounds(g, s, scheds))
    ensures Looping(Rounds(g, s, scheds)) ==>
              |scheds| + Potential(k, top, Rounds(g, s, scheds).cn, g.cns) + |Unseen(g, k, Rounds(g, s, scheds).frontier)|
              <= Potential(k, top, s.cn, g.cns) + |Unseen(g, k, s.frontier)|
  {
    if scheds != [] {
      var before := Rounds(g, s, scheds[..|scheds| - 1]);
      var last := scheds[|scheds| - 1];
      RunsDown(g, k, top, s, scheds[..|scheds| - 1]);
      RoundTiered(g, k, top, before, last);
      RoundShaped(g, before, last);
      if Looping(Round(g, before, last)) {
        RiseOrGrow(g, k, top, before, last);
        SeesMore(g, k, before, last);
        PotentialFalls(k, top, before.cn, Round(g, before, last).cn, g.cns);
      }
    }
  }

  /** Where nothing is unseeded below a seed, every round raises a label. */
  lemma {:induction false} PlainRunsDown(g: Grid, k: set<nat>, top: seq<int>, s: Loop, scheds: seq<seq<Link>>)
    requires Tiered(g, k, top, s) && IsRun(g, s, scheds) && FusedRun(g, s, scheds)
    requires forall c :: c in k ==> top[c] == -1 || s.cn[c] >= 0
    ensures Tiered(g, k, top, Rounds(g, s, scheds))
    ensures forall c :: c in k ==> top[c] == -1 || Rounds(g, s, scheds).cn[c] >= 0
    ensures Looping(Rounds(g, s, scheds)) ==>
              |scheds| + Potential(k, top, Rounds(g, s, scheds).cn, g.cns) <= Potential(k, top, s.cn, g.cns)
  {
    if scheds != [] {
      var before := Rounds(g, s, scheds[..|scheds| - 1]);
      var last := scheds[|scheds| - 1];
      PlainRunsDown(g, k, top, s, scheds[..|scheds| - 1]);
      RoundTiered(g, k, top, before, last);
      RoundShaped(g, before, last);
      if Looping(Round(g, before, last)) {
        PlainRise(g, k, top, before, last);
        PotentialFalls(k, top, before.cn, Round(g, before, last).cn, g.cns);
      }
    }
  }
}
