/** A call that no other call of its trackers interrupts: the atomic steps add up to what the sequential
    specification says, whatever the outcome. */
module MemorySolo {
  import opened MemorySpec
  import opened MemoryConcurrent

  /** The next `n` steps are thread `t`'s. */
  function Steps(s: State, t: nat, n: nat): State
    decreases n
  {
    if n == 0 then s else Steps(Step(s, Advance(t)), t, n - 1)
  }

  lemma {:induction false} IdleStays(s: State, t: nat, n: nat)
    requires t in s.threads && s.threads[t] == Idle
    ensures Steps(s, t, n) == s
    decreases n
  {
    if n > 0 {
      IdleStays(s, t, n - 1);
    }
  }

  /** Global and a query as the specification sees them; peaks are not part of the atomic steps. */
  function GlobalView(s: State): Meter { Meter(s.global, 0, s.globalLimit) }

  function QueryView(s: State, q: nat): Query
    requires q in s.queries
  {
    Query(Meter(s.queries[q].amount, 0, s.queries[q].hardLimit), s.queries[q].reservation)
  }

  /** `s` with Global and query `q` as given, and everything else, threads included, as it was. */
  function Updated(s: State, q: nat, g: Meter, x: Query): State
    requires q in s.queries
  {
    s.(global := g.amount, queries := s.queries[q := Cell(x.meter.amount, x.reservation, s.queries[q].hardLimit)])
  }

  /** An acquire takes at most six steps after its first, and does what `QueryAcquire` does. */
  lemma SoloAcquire(s: State, t: nat, q: nat, size: int)
    requires Enabled(s, BeginAcquire(t, q, size))
    ensures var (_, g, x) := QueryAcquire(GlobalView(s), QueryView(s, q), size);
            Steps(Step(s, BeginAcquire(t, q, size)), t, 6) == Updated(s, q, g, x)
  {
    var s1 := Step(s, BeginAcquire(t, q, size));
    var s2 := Step(s1, Advance(t));
    if s.queries[q].amount + size > s.queries[q].hardLimit {
      BackToIdle(s, s2, t, q);
      IdleStays(s2, t, 5);
    } else {
      assert s2 == At1(PutAmount(s, q, size), t, Admitted(q, size));
      AdmittedAcquire(PutAmount(s, q, size), s, t, q, size);
    }
  }

  lemma BackToIdle(s: State, s': State, t: nat, q: nat)
    requires t in s.threads && s.threads[t] == Idle && q in s.queries
    requires s'.global == s.global && s'.globalLimit == s.globalLimit
    requires s'.queries.Keys == s.queries.Keys && s'.queries - {q} == s.queries - {q} && s'.queries[q] == s.queries[q]
    requires s'.threads.Keys == s.threads.Keys && s'.threads - {t} == s.threads - {t} && s'.threads[t] == Idle
    ensures s' == s
  {
    forall k | k in s.queries ensures s'.queries[k] == s.queries[k] {
      if k != q {
        assert (s'.queries - {q})[k] == (s.queries - {q})[k];
      }
    }
    forall k | k in s.threads ensures s'.threads[k] == s.threads[k] {
      if k != t {
        assert (s'.threads - {t})[k] == (s.threads - {t})[k];
      }
    }
  }

  /** From the point where the query's limit has been passed; `b` is the state with the amount added. */
  lemma AdmittedAcquire(b: State, s: State, t: nat, q: nat, size: int)
    requires t in s.threads && s.threads[t] == Idle && q in s.queries && b == PutAmount(s, q, size)
    requires s.queries[q].amount + size <= s.queries[q].hardLimit
    ensures var (_, g, x) := QueryAcquire(GlobalView(s), QueryView(s, q), size);
            Steps(At1(b, t, Admitted(q, size)), t, 5) == Updated(s, q, g, x)
  {
    var draw := Draw(s.queries[q].reservation - size, QUERY_RESERVE);
    if draw == 0 {
      assert Step(At1(b, t, Admitted(q, size)), Advance(t)) == At1(b, t, Settling(q, size));
      Settles(b, t, q, size, 4);
    } else {
      AdmittedDraw(b, s, t, q, size, draw);
    }
  }

  lemma AdmittedDraw(b: State, s: State, t: nat, q: nat, size: int, draw: int)
    requires t in s.threads && s.threads[t] == Idle && q in s.queries && b == PutAmount(s, q, size)
    requires s.queries[q].amount + size <= s.queries[q].hardLimit
    requires draw == Draw(s.queries[q].reservation - size, QUERY_RESERVE) != 0
    ensures var (_, g, x) := QueryAcquire(GlobalView(s), QueryView(s, q), size);
            Steps(At1(b, t, Admitted(q, size)), t, 5) == Updated(s, q, g, x)
  {
    assert Step(At1(b, t, Admitted(q, size)), Advance(t)) == At1(b, t, Drawing(q, size, draw));
    DrawingAcquire(b, t, q, size, draw);
    DrawValue(b, s, q, size, draw);
  }

  /** The specification's acquire when it has to draw. */
  lemma DrawValue(b: State, s: State, q: nat, size: int, draw: int)
    requires q in s.queries && b == PutAmount(s, q, size) && s.queries[q].amount + size <= s.queries[q].hardLimit
    requires draw == Draw(s.queries[q].reservation - size, QUERY_RESERVE) != 0
    ensures var (_, g, x) := QueryAcquire(GlobalView(s), QueryView(s, q), size);
            var c := b.(global := b.global + draw);
            Updated(s, q, g, x) == if c.global > c.globalLimit then b else PutReserve(c, q, draw - size)
  {
  }

  lemma DrawingAcquire(b: State, t: nat, q: nat, size: int, draw: int)
    requires t in b.threads && b.threads[t] == Idle && q in b.queries
    ensures Steps(At1(b, t, Drawing(q, size, draw)), t, 4)
         == var c := b.(global := b.global + draw);
            if c.global > c.globalLimit then b else PutReserve(c, q, draw - size)
  {
    var c := b.(global := b.global + draw);
    assert Step(At1(b, t, Drawing(q, size, draw)), Advance(t)) == At1(c, t, GlobalCounted(q, size, draw, c.global));
    CountedDraw(c, b, t, q, size, draw);
  }

  /** From the point where Global has counted the draw; `b` is the state before. */
  lemma CountedDraw(c: State, b: State, t: nat, q: nat, size: int, draw: int)
    requires t in b.threads && b.threads[t] == Idle && q in b.queries && c == b.(global := b.global + draw)
    ensures Steps(At1(c, t, GlobalCounted(q, size, draw, c.global)), t, 3)
         == if c.global > c.globalLimit then b else PutReserve(c, q, draw - size)
  {
    var s4 := At1(c, t, GlobalCounted(q, size, draw, c.global));
    var s5 := Step(s4, Advance(t));
    if c.global > c.globalLimit {
      assert b.threads[t := Idle] == b.threads;
      IdleStays(s5, t, 2);
    } else {
      assert s5 == At1(c, t, Drawn(q, size, draw));
      assert Step(s5, Advance(t)) == At1(PutReserve(c, q, draw), t, Settling(q, size));
      Settles(PutReserve(c, q, draw), t, q, size, 1);
    }
  }

  lemma Settles(b: State, t: nat, q: nat, size: int, n: nat)
    requires t in b.threads && b.threads[t] == Idle && q in b.queries && n > 0
    ensures Steps(At1(b, t, Settling(q, size)), t, n) == PutReserve(b, q, -size)
  {
    assert b.threads[t := Idle] == b.threads;
    assert Step(At1(b, t, Settling(q, size)), Advance(t)) == PutReserve(b, q, -size);
    IdleStays(PutReserve(b, q, -size), t, n - 1);
  }

  /** A release takes at most three steps after its first, and does what `QueryRelease` does. */
  lemma SoloRelease(s: State, t: nat, q: nat, size: int)
    requires Enabled(s, BeginRelease(t, q, size))
    ensures var (g, x) := QueryRelease(GlobalView(s), QueryView(s, q), size);
            Steps(Step(s, BeginRelease(t, q, size)), t, 3) == Updated(s, q, g, x)
  {
    var back := Surplus(s.queries[q].reservation + size, QUERY_RESERVE);
    var b := PutReserve(s, q, size);
    assert Step(s, BeginRelease(t, q, size)) == At1(b, t, Returning(q, size, back));
    ReturnValue(b, s, q, size, back);
    if back > 0 {
      ReturningRelease(b, t, q, size, back);
    } else {
      QuietRelease(b, t, q, size);
    }
  }

  /** The specification's release. */
  lemma ReturnValue(b: State, s: State, q: nat, size: int, back: int)
    requires q in s.queries && b == PutReserve(s, q, size) && back == Surplus(s.queries[q].reservation + size, QUERY_RESERVE)
    ensures var (g, x) := QueryRelease(GlobalView(s), QueryView(s, q), size);
            Updated(s, q, g, x) == if back > 0 then PutAmount(PutReserve(b.(global := b.global - back), q, -back), q, -size)
                                   else PutAmount(b, q, -size)
  {
  }

  lemma QuietRelease(b: State, t: nat, q: nat, size: int)
    requires t in b.threads && b.threads[t] == Idle && q in b.queries
    ensures Steps(At1(b, t, Returning(q, size, 0)), t, 3) == PutAmount(b, q, -size)
  {
    assert Step(At1(b, t, Returning(q, size, 0)), Advance(t)) == At1(b, t, Freeing(q, size));
    Frees(b, t, q, size, 2);
  }

  lemma ReturningRelease(b: State, t: nat, q: nat, size: int, back: int)
    requires t in b.threads && b.threads[t] == Idle && q in b.queries && back > 0
    ensures Steps(At1(b, t, Returning(q, size, back)), t, 3)
         == PutAmount(PutReserve(b.(global := b.global - back), q, -back), q, -size)
  {
    var c := b.(global := b.global - back);
    assert Step(At1(b, t, Returning(q, size, back)), Advance(t)) == At1(c, t, Returned(q, size, back));
    ReturnedRelease(c, t, q, size, back);
  }

  lemma ReturnedRelease(c: State, t: nat, q: nat, size: int, back: int)
    requires t in c.threads && c.threads[t] == Idle && q in c.queries
    ensures Steps(At1(c, t, Returned(q, size, back)), t, 2) == PutAmount(PutReserve(c, q, -back), q, -size)
  {
    assert Step(At1(c, t, Returned(q, size, back)), Advance(t)) == At1(PutReserve(c, q, -back), t, Freeing(q, size));
    Frees(PutReserve(c, q, -back), t, q, size, 1);
  }

  lemma Frees(b: State, t: nat, q: nat, size: int, n: nat)
    requires t in b.threads && b.threads[t] == Idle && q in b.queries && n > 0
    ensures Steps(At1(b, t, Freeing(q, size)), t, n) == PutAmount(b, q, -size)
  {
    assert b.threads[t := Idle] == b.threads;
    assert Step(At1(b, t, Freeing(q, size)), Advance(t)) == PutAmount(b, q, -size);
    IdleStays(PutAmount(b, q, -size), t, n - 1);
  }
}
