/** `edgeMap`: the vertices next to a subset that pass the filters, found from the sources (sparse) or
    from the targets (dense). */
module EdgeMap {
  import opened Slicing

  datatype Direction = OutEdge | InEdge | BothEdge

  /** Neighbour lists by direction; edges may be parallel, so lists may repeat a vertex. */
  datatype Graph = Graph(nodes: seq<nat>, outs: map<nat, seq<nat>>, ins: map<nat, seq<nat>>)

  predicate Distinct(xs: seq<nat>) { forall i, j :: 0 <= i < j < |xs| ==> xs[i] != xs[j] }

  /** Both lists describe the same edges, among the graph's nodes. */
  ghost predicate WellFormed(g: Graph) {
    && Distinct(g.nodes)
    && (forall v :: v in g.outs <==> v in g.nodes) && (forall v :: v in g.ins <==> v in g.nodes)
    && (forall s, t :: s in g.outs && t in g.outs[s] ==> t in g.ins && s in g.ins[t])
    && (forall s, t :: t in g.ins && s in g.ins[t] ==> s in g.outs && t in g.outs[s])
  }

  function Neighbors(g: Graph, v: nat, dir: Direction): seq<nat> {
    var outs := if v in g.outs then g.outs[v] else [];
    var ins := if v in g.ins then g.ins[v] else [];
    match dir
    case OutEdge => outs
    case InEdge => ins
    case BothEdge => outs + ins
  }

  function Reverse(dir: Direction): Direction {
    match dir
    case OutEdge => InEdge
    case InEdge => OutEdge
    case BothEdge => BothEdge
  }

  /** Neighbours in a direction and in its reverse are converse relations. */
  lemma Converse(g: Graph, s: nat, t: nat, dir: Direction)
    requires WellFormed(g)
    ensures t in Neighbors(g, s, dir) <==> s in Neighbors(g, t, Reverse(dir))
    ensures t in Neighbors(g, s, dir) ==> s in g.nodes && t in g.nodes
  {
  }

  /** There is an edge from `s` to `t`, to `s` from `t`, or either. */
  predicate Edge(g: Graph, s: nat, t: nat, dir: Direction) {
    match dir
    case OutEdge => s in g.outs && t in g.outs[s]
    case InEdge => t in g.outs && s in g.outs[t]
    case BothEdge => (s in g.outs && t in g.outs[s]) || (t in g.outs && s in g.outs[t])
  }

  lemma NeighborsAreEdges(g: Graph, s: nat, t: nat, dir: Direction)
    requires WellFormed(g)
    ensures t in Neighbors(g, s, dir) <==> Edge(g, s, t, dir)
  {
  }

  /** How often `t` is listed. */
  function Count(xs: seq<nat>, t: nat): nat {
    if xs == [] then 0 else Count(xs[..|xs| - 1], t) + if xs[|xs| - 1] == t then 1 else 0
  }

  lemma {:induction false} CountConcat(xs: seq<nat>, ys: seq<nat>, t: nat)
    ensures Count(xs + ys, t) == Count(xs, t) + Count(ys, t)
  {
    if ys == [] {
      assert xs + ys == xs;
    } else {
      CountConcat(xs, ys[..|ys| - 1], t);
      assert (xs + ys)[..|xs + ys| - 1] == xs + ys[..|ys| - 1];
    }
  }

  /** A neighbour is listed as often as there are edges in the direction. */
  lemma NeighborsCount(g: Graph, s: nat, t: nat)
    requires s in g.outs && s in g.ins
    ensures Count(Neighbors(g, s, OutEdge), t) == Count(g.outs[s], t)
    ensures Count(Neighbors(g, s, InEdge), t) == Count(g.ins[s], t)
    ensures Count(Neighbors(g, s, BothEdge), t) == Count(g.outs[s], t) + Count(g.ins[s], t)
  {
    CountConcat(g.outs[s], g.ins[s], t);
  }

  type EdgeFilter = (nat, nat) -> bool
  type VertexFilter = nat -> bool

  /** What the call is for: `t` passes `c`, and some source of `u` has an edge to it that passes `f`. */
  ghost predicate Hit(g: Graph, u: seq<nat>, f: EdgeFilter, c: VertexFilter, dir: Direction, t: nat) {
    c(t) && exists s :: s in u && t in Neighbors(g, s, dir) && f(s, t)
  }

  /** The same over the edges of the graph. */
  lemma HitIff(g: Graph, u: seq<nat>, f: EdgeFilter, c: VertexFilter, dir: Direction, t: nat)
    requires WellFormed(g)
    ensures Hit(g, u, f, c, dir, t) <==> c(t) && exists s :: s in u && Edge(g, s, t, dir) && f(s, t)
  {
    if s :| s in u && t in Neighbors(g, s, dir) && f(s, t) {
      NeighborsAreEdges(g, s, t, dir);
    }
    if s :| s in u && Edge(g, s, t, dir) && f(s, t) {
      NeighborsAreEdges(g, s, t, dir);
    }
  }

  // ---- Sparse: from every source

  function Target(f: EdgeFilter, c: VertexFilter, s: nat, t: nat): seq<nat> { if f(s, t) && c(t) then [t] else [] }

  function Targets(g: Graph, f: EdgeFilter, c: VertexFilter, dir: Direction, s: nat): seq<nat> {
    FlatMap(Neighbors(g, s, dir), (t: nat) => Target(f, c, s, t))
  }

  function SparseIds(g: Graph, u: seq<nat>, f: EdgeFilter, c: VertexFilter, dir: Direction): seq<nat> {
    FlatMap(u, (s: nat) => Targets(g, f, c, dir, s))
  }

  /** A list of sources is worked off source by source. */
  lemma SparseConcat(g: Graph, u: seq<nat>, w: seq<nat>, f: EdgeFilter, c: VertexFilter, dir: Direction)
    ensures SparseIds(g, u + w, f, c, dir) == SparseIds(g, u, f, c, dir) + SparseIds(g, w, f, c, dir)
  {
    FlatMapConcat(u, w, (s: nat) => Targets(g, f, c, dir, s));
  }

  /** A source gives a target as often as there are edges to it that pass. */
  lemma SourceCount(g: Graph, f: EdgeFilter, c: VertexFilter, dir: Direction, s: nat, t: nat)
    ensures SparseIds(g, [s], f, c, dir) == Targets(g, f, c, dir, s)
    ensures Count(Targets(g, f, c, dir, s), t) == if f(s, t) && c(t) then Count(Neighbors(g, s, dir), t) else 0
  {
    var none: seq<nat> := [];
    var sources := (x: nat) => Targets(g, f, c, dir, x);
    FlatMapLast(none, s, sources);
    assert none + [s] == [s] && FlatMap(none, sources) == [];
    CountTargets(Neighbors(g, s, dir), f, c, s, (x: nat) => Target(f, c, s, x), t);
  }

  lemma {:induction false} CountTargets(nbrs: seq<nat>, f: EdgeFilter, c: VertexFilter, s: nat, target: nat -> seq<nat>, t: nat)
    requires forall x :: target(x) == Target(f, c, s, x)
    ensures Count(FlatMap(nbrs, target), t) == if f(s, t) && c(t) then Count(nbrs, t) else 0
  {
    if nbrs != [] {
      var rest, x := nbrs[..|nbrs| - 1], nbrs[|nbrs| - 1];
      CountTargets(rest, f, c, s, target, t);
      CountConcat(FlatMap(rest, target), target(x), t);
      assert [x][..0] == [] && Count([x], t) == if x == t then 1 else 0;
    }
  }

  // ---- Dense: from every vertex, up to its first matching source

  function Matches(u: seq<nat>, f: EdgeFilter, v: nat, sources: seq<nat>): bool {
    exists i :: 0 <= i < |sources| && sources[i] in u && f(sources[i], v)
  }

  function Probe(g: Graph, u: seq<nat>, f: EdgeFilter, c: VertexFilter, dir: Direction, v: nat): seq<nat> {
    if c(v) && Matches(u, f, v, Neighbors(g, v, Reverse(dir))) then [v] else []
  }

  function DenseIds(g: Graph, u: seq<nat>, f: EdgeFilter, c: VertexFilter, dir: Direction): seq<nat> {
    FlatMap(g.nodes, (v: nat) => Probe(g, u, f, c, dir, v))
  }

  lemma {:induction false} InFlatMap(xs: seq<nat>, f: nat -> seq<nat>, t: nat)
    ensures t in FlatMap(xs, f) <==> exists x :: x in xs && t in f(x)
  {
    if xs != [] {
      var rest, x := xs[..|xs| - 1], xs[|xs| - 1];
      InFlatMap(rest, f, t);
      assert xs == rest + [x];
      if y :| y in xs && t in f(y) {
        assert y in rest || y == x;
      }
    }
  }

  lemma SparseHits(g: Graph, u: seq<nat>, f: EdgeFilter, c: VertexFilter, dir: Direction, t: nat)
    ensures t in SparseIds(g, u, f, c, dir) <==> Hit(g, u, f, c, dir, t)
  {
    InFlatMap(u, (s: nat) => Targets(g, f, c, dir, s), t);
    forall s ensures t in Targets(g, f, c, dir, s) <==> t in Neighbors(g, s, dir) && f(s, t) && c(t) {
      InFlatMap(Neighbors(g, s, dir), (x: nat) => Target(f, c, s, x), t);
    }
  }

  lemma DenseHits(g: Graph, u: seq<nat>, f: EdgeFilter, c: VertexFilter, dir: Direction, t: nat)
    requires WellFormed(g)
    ensures t in DenseIds(g, u, f, c, dir) <==> Hit(g, u, f, c, dir, t)
  {
    MatchesIff(g, u, f, dir, t);
    if s :| s in u && t in Neighbors(g, s, dir) && f(s, t) {
      Converse(g, s, t, dir);
    }
    DenseFromProbes(g, u, f, c, dir, t);
  }

  lemma DenseFromProbes(g: Graph, u: seq<nat>, f: EdgeFilter, c: VertexFilter, dir: Direction, t: nat)
    requires Hit(g, u, f, c, dir, t) ==> t in g.nodes
    requires Hit(g, u, f, c, dir, t) <==> c(t) && Matches(u, f, t, Neighbors(g, t, Reverse(dir)))
    ensures t in DenseIds(g, u, f, c, dir) <==> Hit(g, u, f, c, dir, t)
  {
    var probe := (v: nat) => Probe(g, u, f, c, dir, v);
    InFlatMap(g.nodes, probe, t);
    assert forall v :: t in probe(v) <==> v == t && Hit(g, u, f, c, dir, t);
  }

  /** Looking for a source from the target's side. */
  lemma MatchesIff(g: Graph, u: seq<nat>, f: EdgeFilter, dir: Direction, t: nat)
    requires WellFormed(g)
    ensures Matches(u, f, t, Neighbors(g, t, Reverse(dir))) <==> exists s :: s in u && t in Neighbors(g, s, dir) && f(s, t)
  {
    var sources := Neighbors(g, t, Reverse(dir));
    if i :| 0 <= i < |sources| && sources[i] in u && f(sources[i], t) {
      Converse(g, sources[i], t, dir);
    }
    if s :| s in u && t in Neighbors(g, s, dir) && f(s, t) {
      Converse(g, s, t, dir);
      var i :| 0 <= i < |sources| && sources[i] == s;
    }
  }

  /** Both branches return the same set of vertices, although the dense one stops at the first source. */
  lemma SparseDenseAgree(g: Graph, u: seq<nat>, f: EdgeFilter, c: VertexFilter, dir: Direction)
    requires WellFormed(g)
    ensures (set t | t in SparseIds(g, u, f, c, dir)) == (set t | t in DenseIds(g, u, f, c, dir))
  {
    forall t ensures t in SparseIds(g, u, f, c, dir) <==> t in DenseIds(g, u, f, c, dir) {
      SparseHits(g, u, f, c, dir, t);
      DenseHits(g, u, f, c, dir, t);
    }
  }

  lemma {:induction false} ProbesDistinct(g: Graph, xs: seq<nat>, u: seq<nat>, f: EdgeFilter, c: VertexFilter, dir: Direction)
    requires Distinct(xs)
    ensures Distinct(FlatMap(xs, (v: nat) => Probe(g, u, f, c, dir, v)))
  {
    if xs != [] {
      var rest, x := xs[..|xs| - 1], xs[|xs| - 1];
      var probe := (v: nat) => Probe(g, u, f, c, dir, v);
      ProbesDistinct(g, rest, u, f, c, dir);
      InFlatMap(rest, probe, x);
      assert forall y :: y in rest ==> x !in probe(y);
    }
  }

  /** The dense branch lists no vertex twice. */
  lemma DenseDistinct(g: Graph, u: seq<nat>, f: EdgeFilter, c: VertexFilter, dir: Direction)
    requires WellFormed(g)
    ensures Distinct(DenseIds(g, u, f, c, dir))
  {
    ProbesDistinct(g, g.nodes, u, f, c, dir);
  }

  // ---- The loops

  method GetTargets(g: Graph, f: EdgeFilter, c: VertexFilter, dir: Direction, s: nat) returns (res: seq<nat>)
    ensures res == Targets(g, f, c, dir, s)
  {
    var nbrs := Neighbors(g, s, dir);
    ghost var target := (t: nat) => Target(f, c, s, t);
    res := [];
    var i := 0;
    while i < |nbrs|
      invariant 0 <= i <= |nbrs| && res == FlatMap(nbrs[..i], target)
    {
      assert nbrs[..i + 1][..i] == nbrs[..i];
      if f(s, nbrs[i]) && c(nbrs[i]) {
        res := res + [nbrs[i]];
      }
      i := i + 1;
    }
    assert nbrs[..|nbrs|] == nbrs;
  }

  method EdgeMapSparse(g: Graph, u: seq<nat>, f: EdgeFilter, c: VertexFilter, dir: Direction) returns (vids: seq<nat>)
    ensures vids == SparseIds(g, u, f, c, dir)
  {
    ghost var targets := (s: nat) => Targets(g, f, c, dir, s);
    vids := [];
    var i := 0;
    while i < |u|
      invariant 0 <= i <= |u| && vids == FlatMap(u[..i], targets)
    {
      assert u[..i + 1][..i] == u[..i];
      var res := GetTargets(g, f, c, dir, u[i]);
      vids := vids + res;
      i := i + 1;
    }
    assert u[..|u|] == u;
  }

  /** The filter of one vertex: stops at the first source in `u` whose edge passes. */
  method ProbeVertex(g: Graph, u: seq<nat>, f: EdgeFilter, c: VertexFilter, dir: Direction, v: nat) returns (res: seq<nat>)
    ensures res == Probe(g, u, f, c, dir, v)
  {
    if !c(v) {
      return [];
    }
    var nbrs := Neighbors(g, v, Reverse(dir));
    var i := 0;
    while i < |nbrs|
      invariant 0 <= i <= |nbrs| && !Matches(u, f, v, nbrs[..i])
    {
      if nbrs[i] in u && f(nbrs[i], v) {
        assert Matches(u, f, v, nbrs);
        return [v];
      }
      i := i + 1;
    }
    assert nbrs[..|nbrs|] == nbrs;
    return [];
  }

  method EdgeMapDense(g: Graph, u: seq<nat>, f: EdgeFilter, c: VertexFilter, dir: Direction) returns (vids: seq<nat>)
    ensures vids == DenseIds(g, u, f, c, dir)
  {
    ghost var probe := (v: nat) => Probe(g, u, f, c, dir, v);
    vids := [];
    var i := 0;
    while i < |g.nodes|
      invariant 0 <= i <= |g.nodes| && vids == FlatMap(g.nodes[..i], probe)
    {
      assert g.nodes[..i + 1][..i] == g.nodes[..i];
      var res := ProbeVertex(g, u, f, c, dir, g.nodes[i]);
      vids := vids + res;
      i := i + 1;
    }
    assert g.nodes[..|g.nodes|] == g.nodes;
  }

  /** Large subsets take the dense branch, which lists no vertex twice; the others the sparse one. Both give
      the vertices that pass `c` and have an edge from the subset that passes `f`. */
  method EdgeMap(g: Graph, u: seq<nat>, f: EdgeFilter, c: VertexFilter, dir: Direction, threshold: nat)
      returns (vids: seq<nat>)
    requires WellFormed(g) && threshold > 0
    ensures forall t :: t in vids <==> c(t) && exists s :: s in u && Edge(g, s, t, dir) && f(s, t)
    ensures forall t :: t in vids <==> Hit(g, u, f, c, dir, t)
    ensures if |u| > |g.nodes| / threshold then Distinct(vids) else vids == SparseIds(g, u, f, c, dir)
  {
    if |u| > |g.nodes| / threshold {
      vids := EdgeMapDense(g, u, f, c, dir);
      DenseDistinct(g, u, f, c, dir);
      forall t ensures t in vids <==> Hit(g, u, f, c, dir, t) {
        DenseHits(g, u, f, c, dir, t);
      }
    } else {
      vids := EdgeMapSparse(g, u, f, c, dir);
      forall t ensures t in vids <==> Hit(g, u, f, c, dir, t) {
        SparseHits(g, u, f, c, dir, t);
      }
    }
    forall t ensures t in vids <==> c(t) && exists s :: s in u && Edge(g, s, t, dir) && f(s, t) {
      HitIff(g, u, f, c, dir, t);
    }
  }
}
