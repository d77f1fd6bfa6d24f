/** What one call on the Global / Query / Operator memory trackers does to the trackers' values. */
module MemorySpec {
  import opened Arithmetic

  const QUERY_RESERVE := 64 * 1024
  const OPERATOR_RESERVE := 4 * 1024
  const UNLIMITED := 0x7fff_ffff_ffff_ffff

  /** The counters of a Global or Query tracker: `MemoryUsage`. */
  datatype Meter = Meter(amount: int, peak: int, hardLimit: int)

  datatype Query = Query(meter: Meter, reservation: int) {
    /** What the query has taken from Global: memory its operators hold plus its own reserve. */
    function Held(): int { meter.amount + reservation }
  }

  /** `query` is the parent pointer. */
  datatype Operator = Operator(query: nat, amount: int, peak: int, reservation: int) {
    function Held(): int { amount + reservation }
  }

  /** How an acquire ends: normally, or with the exception thrown by one of the two limited layers. */
  datatype Outcome = Done | QueryLimit | GlobalLimit

  function Opened(limit: int, reserve: int): Meter {
    Meter(0, 0, if limit != UNLIMITED then limit + reserve else limit)
  }

  predicate Admits(m: Meter, size: int) { m.amount + size <= m.hardLimit }

  function Charged(m: Meter, size: int): Meter {
    m.(amount := m.amount + size, peak := Max(m.peak, m.amount + size))
  }

  function Refunded(m: Meter, size: int): Meter { m.(amount := m.amount - size) }

  /** The whole quanta taken from the parent when a reserve would otherwise drop to `will`. */
  function Draw(will: int, quantum: int): (d: int)
    requires quantum > 0
    ensures d % quantum == 0
    ensures will >= 0 ==> d == 0
    ensures will < 0 ==> d > 0 && 0 < will + d <= quantum
  {
    if will < 0 then MultipleMod(-will / quantum + 1, quantum); (-will / quantum + 1) * quantum else 0
  }

  /** The whole quanta given back to the parent when a reserve has grown to `will`. */
  function Surplus(will: int, quantum: int): (d: int)
    requires quantum > 0
    ensures d % quantum == 0
    ensures will <= quantum ==> d == 0
    ensures will > quantum ==> d > 0 && 0 < will - d <= quantum
  {
    if will > quantum then MultipleMod((will - 1) / quantum, quantum); ((will - 1) / quantum) * quantum else 0
  }

  /** Whole quanta that leave a reserve in (0, quantum] are the draw, however they were found. */
  lemma DrawUnique(will: int, quantum: int, n: int)
    requires quantum > 0 && will < 0 && 0 < will + n * quantum <= quantum
    ensures n * quantum == Draw(will, quantum)
  {
    MultipleMod(n, quantum);
    MultipleUnique(n * quantum, Draw(will, quantum), quantum);
  }

  lemma SurplusUnique(will: int, quantum: int, n: int)
    requires quantum > 0 && will > quantum && 0 < will - n * quantum <= quantum
    ensures n * quantum == Surplus(will, quantum)
  {
    MultipleMod(n, quantum);
    MultipleUnique(n * quantum, Surplus(will, quantum), quantum);
  }

  function QueryAcquire(g: Meter, q: Query, size: int): (Outcome, Meter, Query) {
    if !Admits(q.meter, size) then (QueryLimit, g, q) else
    var charged := Charged(q.meter, size);
    var draw := Draw(q.reservation - size, QUERY_RESERVE);
    if draw == 0 then (Done, g, Query(charged, q.reservation - size))
    else if !Admits(g, draw) then (GlobalLimit, g, q.(meter := charged))
    else (Done, Charged(g, draw), Query(charged, q.reservation + draw - size))
  }

  function QueryRelease(g: Meter, q: Query, size: int): (Meter, Query) {
    var back := Surplus(q.reservation + size, QUERY_RESERVE);
    (Refunded(g, back), Query(Refunded(q.meter, size), q.reservation + size - back))
  }

  /** The Query destructor: only the reserve goes back. */
  function QueryClose(g: Meter, q: Query): Meter { Refunded(g, q.reservation) }

  function OperatorAcquire(g: Meter, q: Query, o: Operator, size: int): (Outcome, Meter, Query, Operator) {
    var draw := Draw(o.reservation - size, OPERATOR_RESERVE);
    var (r, g', q') := if draw == 0 then (Done, g, q) else QueryAcquire(g, q, draw);
    if r != Done then (r, g', q', o) else
    (Done, g', q', o.(reservation := o.reservation + draw - size,
                      amount := o.amount + size,
                      peak := Max(o.peak, o.amount + size)))
  }

  /** `count` operator quanta handed to the query, one call each. */
  function ReturnQuanta(g: Meter, q: Query, count: nat): (Meter, Query) {
    if count == 0 then (g, q) else
    var (g', q') := ReturnQuanta(g, q, count - 1);
    QueryRelease(g', q', OPERATOR_RESERVE)
  }

  function OperatorRelease(g: Meter, q: Query, o: Operator, size: int): (Meter, Query, Operator) {
    var back := Surplus(o.reservation + size, OPERATOR_RESERVE);
    var (g', q') := ReturnQuanta(g, q, back / OPERATOR_RESERVE);
    (g', q', o.(reservation := o.reservation + size - back, amount := o.amount - size))
  }

  /** The Operator destructor: reserve and outstanding amount go back in two calls. */
  function OperatorClose(g: Meter, q: Query, o: Operator): (Meter, Query) {
    var (g', q') := if o.reservation != 0 then QueryRelease(g, q, o.reservation) else (g, q);
    if o.amount != 0 then QueryRelease(g', q', o.amount) else (g', q')
  }

  // ---- Each call moves the same number of bytes at both ends of every parent link.

  /** What a failed acquire leaves behind in the query: nothing, or the requested size. */
  function Leak(r: Outcome, size: int): int { if r == GlobalLimit then size else 0 }

  lemma QueryAcquireBalanced(g: Meter, q: Query, size: int)
    ensures var (r, g', q') := QueryAcquire(g, q, size);
            && g'.amount - g.amount == q'.Held() - q.Held() - Leak(r, size)
            && q'.meter.amount - q.meter.amount == (if r == Done then size else Leak(r, size))
  {
  }

  lemma {:induction false} ReturnQuantaBalanced(g: Meter, q: Query, count: nat)
    ensures var (g', q') := ReturnQuanta(g, q, count);
            && g'.amount - g.amount == q'.Held() - q.Held()
            && q'.meter.amount == q.meter.amount - count * OPERATOR_RESERVE
  {
    if count > 0 {
      ReturnQuantaBalanced(g, q, count - 1);
    }
  }

  lemma OperatorAcquireBalanced(g: Meter, q: Query, o: Operator, size: int)
    ensures var (r, g', q', o') := OperatorAcquire(g, q, o, size);
            var leak := Leak(r, Draw(o.reservation - size, OPERATOR_RESERVE));
            && g'.amount - g.amount == q'.Held() - q.Held() - leak
            && q'.meter.amount - q.meter.amount == o'.Held() - o.Held() + leak
            && o'.amount == (if r == Done then o.amount + size else o.amount)
            && o'.query == o.query
  {
    QueryAcquireBalanced(g, q, Draw(o.reservation - size, OPERATOR_RESERVE));
  }

  lemma OperatorReleaseBalanced(g: Meter, q: Query, o: Operator, size: int)
    ensures var (g', q', o') := OperatorRelease(g, q, o, size);
            && g'.amount - g.amount == q'.Held() - q.Held()
            && q'.meter.amount - q.meter.amount == o'.Held() - o.Held()
            && o'.amount == o.amount - size
            && o'.query == o.query
  {
    var back := Surplus(o.reservation + size, OPERATOR_RESERVE);
    ReturnQuantaBalanced(g, q, back / OPERATOR_RESERVE);
  }

  lemma OperatorCloseBalanced(g: Meter, q: Query, o: Operator)
    ensures var (g', q') := OperatorClose(g, q, o);
            && g'.amount - g.amount == q'.Held() - q.Held()
            && q'.meter.amount == q.meter.amount - o.Held()
  {
  }

  // ---- Failures.

  /** The query limit leaves all three layers as they were. The global limit leaves Global and the
      operator as they were, and the query too high by exactly what it was asked for. */
  lemma FailureStates(g: Meter, q: Query, o: Operator, size: int)
    ensures var (r, g', q', o') := OperatorAcquire(g, q, o, size);
            var asked := Draw(o.reservation - size, OPERATOR_RESERVE);
            && (r == QueryLimit ==> g' == g && q' == q && o' == o)
            && (r == GlobalLimit ==> g' == g && o' == o && q' == q.(meter := Charged(q.meter, asked)))
            && (r == QueryLimit <==> asked > 0 && q.meter.amount + asked > q.meter.hardLimit)
            && (r == GlobalLimit <==>
                && asked > 0 && q.meter.amount + asked <= q.meter.hardLimit
                && q.reservation < asked
                && g.amount + Draw(q.reservation - asked, QUERY_RESERVE) > g.hardLimit)
  {
  }

  // ---- Each call in numbers, without the functions above

  /** The amount grew by `size`, and the peak is the larger of the old peak and the new amount. */
  predicate Grew(m: Meter, m': Meter, size: int) {
    && m'.amount == m.amount + size && m'.hardLimit == m.hardLimit
    && m'.peak >= m.peak && m'.peak >= m'.amount && (m'.peak == m.peak || m'.peak == m'.amount)
  }

  predicate Shrank(m: Meter, m': Meter, size: int) {
    m'.amount == m.amount - size && m'.hardLimit == m.hardLimit && m'.peak == m.peak
  }

  /** `k` quanta are what a reserve that would drop to `will` needs: none, or just enough to stay above zero. */
  predicate Fills(will: int, quantum: int, k: nat) {
    (k == 0 <==> will >= 0) && (k > 0 ==> 0 < will + k * quantum <= quantum)
  }

  /** `k` quanta are what a reserve that has grown to `will` gives up: none, or just enough to be within one. */
  predicate Empties(will: int, quantum: int, k: nat) {
    (k == 0 <==> will <= quantum) && (k > 0 ==> 0 < will - k * quantum <= quantum)
  }

  lemma DrawFills(will: int, quantum: int) returns (k: nat)
    requires quantum > 0
    ensures Fills(will, quantum, k) && Draw(will, quantum) == k * quantum
  {
    k := if will < 0 then -will / quantum + 1 else 0;
  }

  lemma SurplusEmpties(will: int, quantum: int) returns (k: nat)
    requires quantum > 0
    ensures Empties(will, quantum, k) && Surplus(will, quantum) == k * quantum
  {
    k := if will > quantum then (will - 1) / quantum else 0;
  }

  /** An acquire from a query: the query's limit is checked first, then Global's for the quanta it needs. */
  lemma QueryAcquireExact(g: Meter, q: Query, size: int) returns (k: nat)
    ensures Fills(q.reservation - size, 65536, k)
    ensures var (r, g', q') := QueryAcquire(g, q, size);
            && (r == QueryLimit <==> q.meter.amount + size > q.meter.hardLimit)
            && (r == GlobalLimit <==> r != QueryLimit && k > 0 && g.amount + k * 65536 > g.hardLimit)
            && (r == QueryLimit ==> q' == q)
            && (r != QueryLimit ==> Grew(q.meter, q'.meter, size))
            && (if r == Done then q'.reservation == q.reservation - size + k * 65536 else q'.reservation == q.reservation)
            && (if r == Done && k > 0 then Grew(g, g', k * 65536) else g' == g)
  {
    k := DrawFills(q.reservation - size, QUERY_RESERVE);
  }

  lemma QueryReleaseExact(g: Meter, q: Query, size: int) returns (k: nat)
    ensures Empties(q.reservation + size, 65536, k)
    ensures var (g', q') := QueryRelease(g, q, size);
            && Shrank(g, g', k * 65536) && Shrank(q.meter, q'.meter, size)
            && q'.reservation == q.reservation + size - k * 65536
  {
    k := SurplusEmpties(q.reservation + size, QUERY_RESERVE);
  }

  /** An acquire from an operator asks its query for the quanta that it needs, and for nothing else. */
  lemma OperatorAcquireExact(g: Meter, q: Query, o: Operator, size: int) returns (k: nat)
    ensures Fills(o.reservation - size, 4096, k)
    ensures var (r, g', q', o') := OperatorAcquire(g, q, o, size);
            && (r, g', q') == (if k == 0 then (Done, g, q) else QueryAcquire(g, q, k * 4096))
            && (r != Done ==> o' == o)
            && (r == Done ==> o'.reservation == o.reservation - size + k * 4096 && o'.query == o.query
                              && Grew(Meter(o.amount, o.peak, 0), Meter(o'.amount, o'.peak, 0), size))
  {
    k := DrawFills(o.reservation - size, OPERATOR_RESERVE);
  }

  /** A release to an operator hands its query the quanta that are too many, as one release would. */
  lemma OperatorReleaseExact(g: Meter, q: Query, o: Operator, size: int) returns (k: nat)
    ensures Empties(o.reservation + size, 4096, k)
    ensures var (g', q', o') := OperatorRelease(g, q, o, size);
            && (g', q') == (if k == 0 then (g, q) else QueryRelease(g, q, k * 4096))
            && o' == Operator(o.query, o.amount - size, o.peak, o.reservation + size - k * 4096)
  {
    k := SurplusEmpties(o.reservation + size, OPERATOR_RESERVE);
    if k > 0 {
      ReturnQuantaBatched(g, q, k);
    }
  }

  /** Destroying an operator that holds something releases all of it, as one release would. */
  lemma OperatorCloseExact(g: Meter, q: Query, o: Operator)
    requires o.reservation >= 0 && o.amount >= 0
    ensures OperatorClose(g, q, o) == if o.Held() == 0 then (g, q) else QueryRelease(g, q, o.Held())
  {
    if o.reservation > 0 && o.amount > 0 {
      TwoReleases(g, q, o.reservation, o.amount);
    }
  }

  /** Uses of one `MemoryUsage`: a size from 0 on is asked for, a negative one is freed. */
  function Uses(m: Meter, calls: seq<int>): Meter {
    if calls == [] then m else
    var before, c := Uses(m, calls[..|calls| - 1]), calls[|calls| - 1];
    if c < 0 then Refunded(before, -c) else if Admits(before, c) then Charged(before, c) else before
  }

  /** The peak is the largest amount that there ever was. */
  lemma {:induction false} PeakIsLargest(limit: int, calls: seq<int>)
    ensures forall n :: 0 <= n <= |calls| ==>
              Uses(Meter(0, 0, limit), calls[..n]).amount <= Uses(Meter(0, 0, limit), calls).peak
    ensures exists n :: 0 <= n <= |calls| && Uses(Meter(0, 0, limit), calls[..n]).amount == Uses(Meter(0, 0, limit), calls).peak
  {
    var m := Meter(0, 0, limit);
    assert calls[..|calls|] == calls;
    if calls != [] {
      var prefix := calls[..|calls| - 1];
      PeakIsLargest(limit, prefix);
      forall n | 0 <= n <= |prefix| ensures prefix[..n] == calls[..n] {
      }
      var k :| 0 <= k <= |prefix| && Uses(m, prefix[..k]).amount == Uses(m, prefix).peak;
      assert prefix[..k] == calls[..k];
      assert Uses(m, calls).peak == Uses(m, prefix).peak || Uses(m, calls[..|calls|]).amount == Uses(m, calls).peak;
    } else {
      assert Uses(m, calls[..0]).amount == 0;
    }
  }

  // ---- The limits that trackers open with

  /** An acquire from a query that was just opened. */
  lemma FirstQueryAcquire(limit: int, n: int)
    requires n >= 0
    ensures var (r, g, q) := QueryAcquire(Opened(9223372036854775807, 0), Query(Opened(limit, QUERY_RESERVE), 0), n);
            && (limit != 9223372036854775807 ==> (r == QueryLimit <==> n > limit + 64 * 1024))
            && (limit == 9223372036854775807 ==> (r == QueryLimit <==> n > limit))
            && (r == Done <==> r != QueryLimit && n < 9223372036854710272)
  {
    if n > 0 {
      DrawUnique(-n, QUERY_RESERVE, n / 65536 + 1);
    }
  }

  // ---- Reserves stay between zero and one quantum, and amounts under the limits.

  predicate Reserved(reservation: int, quantum: int) { 0 <= reservation <= quantum }

  lemma {:induction false} ReturnQuantaReserved(g: Meter, q: Query, count: nat)
    requires Reserved(q.reservation, QUERY_RESERVE)
    ensures var (g', q') := ReturnQuanta(g, q, count);
            && Reserved(q'.reservation, QUERY_RESERVE)
            && g'.amount <= g.amount && g'.hardLimit == g.hardLimit
            && q'.meter.amount <= q.meter.amount && q'.meter.hardLimit == q.meter.hardLimit
  {
    if count > 0 {
      ReturnQuantaReserved(g, q, count - 1);
    }
  }

  // ---- Handing quanta back one call at a time ends where one combined call would.

  lemma {:induction false} ReturnQuantaBatched(g: Meter, q: Query, count: nat)
    requires count > 0
    ensures ReturnQuanta(g, q, count) == QueryRelease(g, q, count * OPERATOR_RESERVE)
  {
    if count > 1 {
      ReturnQuantaBatched(g, q, count - 1);
      TwoReleases(g, q, (count - 1) * OPERATOR_RESERVE, OPERATOR_RESERVE);
    } else {
      assert ReturnQuanta(g, q, 0) == (g, q);
    }
  }

  /** So an operator's loop of single-quantum calls is one release of everything it gives back. */
  lemma ReleaseBatched(g: Meter, q: Query, o: Operator, size: int)
    requires o.reservation + size > OPERATOR_RESERVE
    ensures var (g', q', o') := OperatorRelease(g, q, o, size);
            (g', q') == QueryRelease(g, q, Surplus(o.reservation + size, OPERATOR_RESERVE))
  {
    var back := Surplus(o.reservation + size, OPERATOR_RESERVE);
    ReturnQuantaBatched(g, q, back / OPERATOR_RESERVE);
    assert back / OPERATOR_RESERVE * OPERATOR_RESERVE == back;
  }

  lemma TwoReleases(g: Meter, q: Query, a: nat, b: nat)
    ensures var (g', q') := QueryRelease(g, q, a);
            QueryRelease(g', q', b) == QueryRelease(g, q, a + b)
  {
    SurplusTwice(q.reservation + a, b);
  }

  /** Both ways return whole quanta and leave at most one, so they return the same number. */
  lemma SurplusTwice(x: int, b: nat)
    ensures var s := Surplus(x, QUERY_RESERVE);
            s + Surplus(x - s + b, QUERY_RESERVE) == Surplus(x + b, QUERY_RESERVE)
  {
    var i := SurplusQuanta(x);
    var y := x - i * 65536 + b;
    var j := SurplusQuanta(y);
    var k := SurplusQuanta(x + b);
    assert (i + j) * 65536 == i * 65536 + j * 65536;
  }

  lemma SurplusQuanta(x: int) returns (n: nat)
    ensures Surplus(x, QUERY_RESERVE) == n * 65536
  {
    n := if x > 65536 then (x - 1) / 65536 else 0;
  }
}
