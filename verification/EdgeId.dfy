/** Edge identity: five fields, a direction in the top two bits of the type, and == modulo direction. */
module EdgeId {
  import opened EdgeBits

  datatype EdgeID = EdgeID(src: int, dst: int, rank: int, graph: int, edgeType: EdgeType)

  function Swapped(e: EdgeID): EdgeID { e.(src := e.dst, dst := e.src) }

  function ToUndirected(e: EdgeID): EdgeID {
    e.(edgeType := Undirected0(RemoveDirection(e.edgeType)))
  }

  function Turned(e: EdgeID): EdgeID { Swapped(e).(edgeType := Reverse(e.edgeType)) }

  function Standardize(e: EdgeID): EdgeID {
    if IsOutgoing(e.edgeType) then e.(edgeType := RemoveDirection(e.edgeType))
    else if IsIncoming(e.edgeType) then Swapped(e.(edgeType := RemoveDirection(e.edgeType)))
    else
      var u := e.(edgeType := Undirected0(RemoveDirection(e.edgeType)));
      if u.src >= u.dst then Swapped(u) else u
  }

  predicate Equal(a: EdgeID, b: EdgeID) {
    if a.graph != b.graph then false
    else if IsDirected(a.edgeType) != IsDirected(b.edgeType) then false
    else if RemoveDirection(a.edgeType) != RemoveDirection(b.edgeType) then false
    else if a.rank != b.rank then false
    else if IsDirected(a.edgeType) then
      if IsOutgoing(a.edgeType) == IsOutgoing(b.edgeType) then a.src == b.src && a.dst == b.dst
      else a.src == b.dst && a.dst == b.src
    else (a.src == b.src && a.dst == b.dst) || (a.src == b.dst && a.dst == b.src)
  }

  predicate Less(a: EdgeID, b: EdgeID) {
    if a.graph != b.graph then a.graph < b.graph
    else if a.src != b.src then a.src < b.src
    else if a.dst != b.dst then a.dst < b.dst
    else if a.edgeType != b.edgeType then a.edgeType < b.edgeType
    else if a.rank != b.rank then a.rank < b.rank
    else false
  }

  predicate Greater(a: EdgeID, b: EdgeID) { !(Less(a, b) || Equal(a, b)) }

  // ---- What an id stands for, independently of how it is written

  /** An edge of the graph: an arrow from one node to another, or an unordered pair of nodes. */
  datatype Edge =
    | Arrow(tail: int, head: int, rank: int, graph: int, base: EdgeType)
    | Link(ends: multiset<int>, rank: int, graph: int, base: EdgeType)

  function Meaning(e: EdgeID): Edge {
    var base := RemoveDirection(e.edgeType);
    if IsOutgoing(e.edgeType) then Arrow(e.src, e.dst, e.rank, e.graph, base)
    else if IsIncoming(e.edgeType) then Arrow(e.dst, e.src, e.rank, e.graph, base)
    else Link(multiset{e.src, e.dst}, e.rank, e.graph, base)
  }

  /** The ids standardization() produces. */
  predicate Standard(e: EdgeID) {
    IsOutgoing(e.edgeType) || (IsUndirected0(e.edgeType) && e.src <= e.dst)
  }

  // ---- Equality

  lemma SamePair(a: int, b: int, c: int, d: int)
    ensures multiset{a, b} == multiset{c, d} <==> (a == c && b == d) || (a == d && b == c)
  {
    if multiset{a, b} == multiset{c, d} {
      assert a in multiset{c, d} && c in multiset{a, b} && b in multiset{c, d} && d in multiset{a, b};
      assert multiset{a, b}[a] == multiset{c, d}[a];
    }
  }

  /** == says that two ids stand for the same edge of the graph. */
  lemma EqualIffSameEdge(a: EdgeID, b: EdgeID)
    ensures Equal(a, b) <==> Meaning(a) == Meaning(b)
  {
    SamePair(a.src, a.dst, b.src, b.dst);
  }

  /** Standardizing keeps the edge and lands in the standard ids. */
  lemma StandardizeKeeps(e: EdgeID)
    ensures Meaning(Standardize(e)) == Meaning(e)
    ensures Standard(Standardize(e))
    ensures Standard(e) ==> Standardize(e) == e
  {
    Bases(e.edgeType);
    SamePair(e.src, e.dst, e.dst, e.src);
  }

  /** Each edge has exactly one standard id. */
  lemma OneStandardId(a: EdgeID, b: EdgeID)
    requires Standard(a) && Standard(b) && Meaning(a) == Meaning(b)
    ensures a == b
  {
    TypeIs(a.edgeType, b.edgeType);
    SamePair(a.src, a.dst, b.src, b.dst);
  }

  /** == holds exactly when the standardized forms agree in every field. */
  lemma EqualIffStandardSame(a: EdgeID, b: EdgeID)
    ensures Equal(a, b) <==> Standardize(a) == Standardize(b)
  {
    EqualIffSameEdge(a, b);
    StandardizeKeeps(a);
    StandardizeKeeps(b);
    if Meaning(a) == Meaning(b) {
      OneStandardId(Standardize(a), Standardize(b));
    }
  }

  lemma StandardizeIdempotent(e: EdgeID)
    ensures Standardize(Standardize(e)) == Standardize(e)
    ensures Equal(Standardize(e), e)
  {
    StandardizeKeeps(e);
    EqualIffSameEdge(Standardize(e), e);
  }

  lemma Equivalence(a: EdgeID, b: EdgeID, c: EdgeID)
    ensures Equal(a, a)
    ensures Equal(a, b) ==> Equal(b, a)
    ensures Equal(a, b) && Equal(b, c) ==> Equal(a, c)
  {
    EqualIffSameEdge(a, b);
    EqualIffSameEdge(b, c);
    EqualIffSameEdge(b, a);
    EqualIffSameEdge(a, c);
  }

  /** std::hash standardizes a copy and combines its fields, in whatever way `combine` does. */
  function Hash(combine: (int, EdgeType, int, int, int) -> nat, e: EdgeID): nat {
    var s := Standardize(e);
    combine(s.graph, s.edgeType, s.src, s.dst, s.rank)
  }

  /** What is combined: an arrow's graph, base type, tail, head and rank; a pair's with the smaller end first. */
  lemma HashFields(combine: (int, EdgeType, int, int, int) -> nat, e: EdgeID)
    ensures var m := Meaning(e);
            Hash(combine, e) ==
              if m.Arrow? then combine(m.graph, m.base, m.tail, m.head, m.rank)
              else if e.src <= e.dst then combine(m.graph, m.base - 0x8000_0000, e.src, e.dst, m.rank)
              else combine(m.graph, m.base - 0x8000_0000, e.dst, e.src, m.rank)
  {
  }

  /** Equal ids hash equally; and if the combination loses nothing, only equal ids do. */
  lemma HashAgrees(combine: (int, EdgeType, int, int, int) -> nat, a: EdgeID, b: EdgeID)
    ensures Equal(a, b) ==> Hash(combine, a) == Hash(combine, b)
    ensures (forall g, t, s, d, r, g', t', s', d', r' ::
               combine(g, t, s, d, r) == combine(g', t', s', d', r') ==> (g, t, s, d, r) == (g', t', s', d', r'))
            ==> (Hash(combine, a) == Hash(combine, b) <==> Equal(a, b))
  {
    EqualIffStandardSame(a, b);
  }

  lemma ReverseInvolution(e: EdgeID)
    ensures Turned(Turned(e)) == e
    ensures Equal(Turned(e), e)
    ensures Standardize(Turned(e)) == Standardize(e)
    ensures Turned(e) != e
  {
    ReverseTurns(e.edgeType);
    SamePair(e.src, e.dst, e.dst, e.src);
    EqualIffSameEdge(Turned(e), e);
    EqualIffStandardSame(Turned(e), e);
  }

  /** Equal ids differ by a reversal, or, when undirected, by swapped ends or the spare direction bit. */
  lemma EqualIffRewritten(a: EdgeID, b: EdgeID)
    ensures Equal(a, b) <==>
              || a == b || a == Turned(b)
              || (!IsDirected(a.edgeType) && (a == Swapped(b) || a == Turned(Swapped(b))))
  {
    var x, y := a.edgeType, b.edgeType;
    TypeIs(x, y);
    TypeIs(x, Reverse(y));
    ReverseTurns(y);
  }

  /** `reverse` and `toUndirected` field by field, and bit by bit in the type: one swaps the ends and flips
      bit 30, the other keeps the ends and puts 1 and 0 into bits 31 and 30. */
  lemma RewritesFields(e: EdgeID, i: nat)
    requires i < 32
    ensures var r := Turned(e);
            && r.src == e.dst && r.dst == e.src && r.rank == e.rank && r.graph == e.graph
            && (Bit(r.edgeType, i) <==> Bit(e.edgeType, i) != (i == 30))
    ensures var u := ToUndirected(e);
            && u.src == e.src && u.dst == e.dst && u.rank == e.rank && u.graph == e.graph
            && (Bit(u.edgeType, i) <==> i == 31 || (i != 30 && Bit(e.edgeType, i)))
  {
    BitMasks(e.edgeType, i);
    BitMasks(RemoveDirection(e.edgeType), i);
    Bases(e.edgeType);
  }

  /** Forgetting the direction keeps the unordered ends, the rank, the graph and the type, no more. */
  lemma UndirectedMeaning(e: EdgeID)
    ensures Meaning(ToUndirected(e)) == Link(multiset{e.src, e.dst}, e.rank, e.graph, RemoveDirection(e.edgeType))
    ensures Equal(ToUndirected(Turned(e)), ToUndirected(e))
    ensures Equal(ToUndirected(e), e) <==> !IsDirected(e.edgeType)
  {
    Bases(e.edgeType);
    ReverseTurns(e.edgeType);
    SamePair(e.src, e.dst, e.dst, e.src);
    Bases(Turned(e).edgeType);
    EqualIffSameEdge(ToUndirected(Turned(e)), ToUndirected(e));
    EqualIffSameEdge(ToUndirected(e), e);
  }

  // ---- Order

  /** The fields in the order in which they are compared. */
  function Fields(e: EdgeID): seq<int> { [e.graph, e.src, e.dst, e.edgeType, e.rank] }

  /** `<` is the lexicographic order of graph, source, destination, type and rank: the first field that
      differs decides. */
  lemma LessIsLexicographic(a: EdgeID, b: EdgeID)
    ensures Less(a, b) <==> exists i :: 0 <= i < 5 && Fields(a)[..i] == Fields(b)[..i] && Fields(a)[i] < Fields(b)[i]
  {
    if Less(a, b) {
      var i := if a.graph != b.graph then 0 else if a.src != b.src then 1 else if a.dst != b.dst then 2
               else if a.edgeType != b.edgeType then 3 else 4;
      assert Fields(a)[..i] == Fields(b)[..i] && Fields(a)[i] < Fields(b)[i];
    }
    forall i | 0 <= i < 5 && Fields(a)[..i] == Fields(b)[..i] ensures SameUpTo(a, b, i) {
      SamePrefix(a, b, i);
    }
  }

  lemma SamePrefix(a: EdgeID, b: EdgeID, i: nat)
    requires i < 5 && Fields(a)[..i] == Fields(b)[..i]
    ensures SameUpTo(a, b, i)
  {
    var x, y := Fields(a)[..i], Fields(b)[..i];
    assert i > 0 ==> x[0] == y[0];
    assert i > 1 ==> x[1] == y[1];
    assert i > 2 ==> x[2] == y[2];
    assert i > 3 ==> x[3] == y[3];
  }

  predicate SameUpTo(a: EdgeID, b: EdgeID, i: nat) {
    && (i > 0 ==> a.graph == b.graph) && (i > 1 ==> a.src == b.src) && (i > 2 ==> a.dst == b.dst)
    && (i > 3 ==> a.edgeType == b.edgeType)
  }

  /** Field by field, < is a strict total order on all ids, standard or not. */
  lemma LessOrders(a: EdgeID, b: EdgeID, c: EdgeID)
    ensures !Less(a, a)
    ensures Less(a, b) ==> !Less(b, a)
    ensures a != b ==> Less(a, b) || Less(b, a)
    ensures Less(a, b) && Less(b, c) ==> Less(a, c)
  {
  }

  /**
   * For two ids, <, == and > exclude each other and > is the converse of <, exactly when they are not
   * two spellings of one edge. For two spellings, == holds together with one of the two <.
   */
  lemma OrderIffOneSpelling(a: EdgeID, b: EdgeID)
    ensures (&& (Greater(a, b) <==> Less(b, a)) && (Greater(b, a) <==> Less(a, b))
             && !(Less(a, b) && Equal(a, b)) && !(Less(b, a) && Equal(a, b)))
            <==> (a == b || Standardize(a) != Standardize(b))
  {
    LessOrders(a, b, a);
    EqualIffStandardSame(a, b);
    Equivalence(a, b, a);
  }

  /** On standard ids < is a strict total order for ==, and > is its converse. */
  lemma StandardOrder(a: EdgeID, b: EdgeID, c: EdgeID)
    requires Standard(a) && Standard(b) && Standard(c)
    ensures Equal(a, b) <==> a == b
    ensures !Less(a, a)
    ensures Less(a, b) && Less(b, c) ==> Less(a, c)
    ensures Greater(a, b) <==> Less(b, a)
    ensures Less(a, b) || Equal(a, b) || Greater(a, b)
    ensures !(Less(a, b) && Equal(a, b)) && !(Less(a, b) && Greater(a, b))
  {
    StandardizeKeeps(a);
    StandardizeKeeps(b);
    EqualIffStandardSame(a, b);
    LessOrders(a, b, c);
    OrderIffOneSpelling(a, b);
  }

  /** Off the standard ids < separates ids that are ==: an edge and its reverse, always one way or the other. */
  lemma ReverseIsOrdered(e: EdgeID)
    ensures Equal(e, Turned(e)) && (Less(e, Turned(e)) || Less(Turned(e), e))
    ensures !Greater(e, Turned(e)) && !Greater(Turned(e), e)
  {
    ReverseInvolution(e);
    LessOrders(e, Turned(e), e);
    Equivalence(Turned(e), e, e);
  }

  // ---- The object

  class MutableEdge {
    var srcID: int
    var dstID: int
    var rank: int
    var graphID: int
    var edgeTypeID: EdgeType

    function View(): EdgeID
      reads this
    {
      EdgeID(srcID, dstID, rank, graphID, edgeTypeID)
    }

    constructor (e: EdgeID)
      ensures View() == e
      ensures srcID == e.src && dstID == e.dst && rank == e.rank && graphID == e.graph && edgeTypeID == e.edgeType
    {
      srcID, dstID, rank, graphID, edgeTypeID := e.src, e.dst, e.rank, e.graph, e.edgeType;
    }

    /** toUndirected() */
    method MakeUndirected()
      modifies this
      ensures View() == ToUndirected(old(View()))
      ensures srcID == old(srcID) && dstID == old(dstID) && rank == old(rank) && graphID == old(graphID)
    {
      edgeTypeID := Undirected0(RemoveDirection(edgeTypeID));
    }

    /** reverse() */
    method Turn()
      modifies this
      ensures View() == Turned(old(View()))
      ensures srcID == old(dstID) && dstID == old(srcID) && rank == old(rank) && graphID == old(graphID)
      ensures Meaning(View()) == Meaning(old(View()))
    {
      ReverseInvolution(View());
      EqualIffSameEdge(Turned(View()), View());
      srcID, dstID := dstID, srcID;
      edgeTypeID := Reverse(edgeTypeID);
    }

    /** standardization() */
    method Standardization()
      modifies this
      ensures View() == Standardize(old(View()))
      ensures Standard(View()) && Meaning(View()) == Meaning(old(View()))
    {
      StandardizeKeeps(View());
      if IsOutgoing(edgeTypeID) {
        edgeTypeID := RemoveDirection(edgeTypeID);
      } else if IsIncoming(edgeTypeID) {
        edgeTypeID := RemoveDirection(edgeTypeID);
        srcID, dstID := dstID, srcID;
      } else {
        edgeTypeID := Undirected0(RemoveDirection(edgeTypeID));
        if srcID >= dstID {
          srcID, dstID := dstID, srcID;
        }
      }
    }
  }
}
