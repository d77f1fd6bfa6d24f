/** Whole runs of the three-layer tracker tree: any calls, in any order, on any number of trackers. */
module MemoryRuns {
  import opened MemorySpec
  import opened Sums

  datatype System = System(global: Meter, queries: map<nat, Query>, operators: map<nat, Operator>)

  datatype Event =
    | OpenQuery(q: nat, limit: int)
    | OpenOperator(o: nat, q: nat)
    | Acquire(o: nat, size: int)
    | Release(o: nat, size: int)
    | CloseOperator(o: nat)
    | CloseQuery(q: nat)

  function Booted(limit: int): System { System(Opened(limit, 0), map[], map[]) }

  /** No operator outlives its query; closing a query that still has one is not a step. */
  predicate Idle(s: System, q: nat) { forall o :: o in s.operators ==> s.operators[o].query != q }

  predicate Enabled(s: System, e: Event) {
    match e
    case OpenQuery(q, _) => q !in s.queries
    case OpenOperator(o, q) => o !in s.operators && q in s.queries
    case Acquire(o, _) => o in s.operators && s.operators[o].query in s.queries
    case Release(o, _) => o in s.operators && s.operators[o].query in s.queries
    case CloseOperator(o) => o in s.operators && s.operators[o].query in s.queries
    case CloseQuery(q) => q in s.queries && Idle(s, q)
  }

  function Outcome1(s: System, e: Event): Outcome {
    if e.Acquire? && Enabled(s, e) then
      var op := s.operators[e.o];
      OperatorAcquire(s.global, s.queries[op.query], op, e.size).0
    else Done
  }

  /** One event; an event that is not enabled changes nothing. */
  function Step(s: System, e: Event): System {
    if !Enabled(s, e) then s else
    match e
    case OpenQuery(q, limit) => s.(queries := s.queries[q := Query(Opened(limit, QUERY_RESERVE), 0)])
    case OpenOperator(o, q) => s.(operators := s.operators[o := Operator(q, 0, 0, 0)])
    case Acquire(o, size) =>
      var op := s.operators[o];
      var (r, g, q, op') := OperatorAcquire(s.global, s.queries[op.query], op, size);
      System(g, s.queries[op.query := q], s.operators[o := op'])
    case Release(o, size) =>
      var op := s.operators[o];
      var (g, q, op') := OperatorRelease(s.global, s.queries[op.query], op, size);
      System(g, s.queries[op.query := q], s.operators[o := op'])
    case CloseOperator(o) =>
      var op := s.operators[o];
      var (g, q) := OperatorClose(s.global, s.queries[op.query], op);
      System(g, s.queries[op.query := q], s.operators - {o})
    case CloseQuery(q) => System(QueryClose(s.global, s.queries[q]), s.queries - {q}, s.operators)
  }

  function Run(s: System, trace: seq<Event>): System {
    if trace == [] then s else Step(Run(s, trace[..|trace| - 1]), trace[|trace| - 1])
  }

  /** Bytes that global-limit failures have left behind in each live query, read off the trace. */
  function Excess(s: System, trace: seq<Event>): map<nat, int> {
    if trace == [] then map q | q in s.queries :: 0
    else ExcessStep(Run(s, trace[..|trace| - 1]), trace[|trace| - 1], Excess(s, trace[..|trace| - 1]))
  }

  function ExcessStep(s: System, e: Event, x: map<nat, int>): map<nat, int> {
    if !Enabled(s, e) then x else
    match e
    case OpenQuery(q, _) => x[q := 0]
    case CloseQuery(q) => x - {q}
    case Acquire(o, size) =>
      var op := s.operators[o];
      if Outcome1(s, e) == GlobalLimit && op.query in x
      then x[op.query := x[op.query] + Draw(op.reservation - size, OPERATOR_RESERVE)]
      else x
    case _ => x
  }

  // ---- Conservation

  /** What each live operator of query `q` holds. */
  ghost function Holdings(ops: map<nat, Operator>, q: nat): map<nat, int> {
    map o | o in ops && ops[o].query == q :: ops[o].Held()
  }

  /** What each live query holds, without its excess. */
  ghost function Draws(queries: map<nat, Query>, x: map<nat, int>): map<nat, int> {
    map q | q in queries :: queries[q].Held() - At(x, q)
  }

  ghost predicate QueryBalanced(s: System, x: map<nat, int>, q: nat)
    requires q in s.queries
  {
    s.queries[q].meter.amount == Sum(Holdings(s.operators, q)) + At(x, q)
  }

  predicate Owned(s: System) { forall o :: o in s.operators ==> s.operators[o].query in s.queries }

  ghost predicate Balanced(s: System, x: map<nat, int>) {
    && x.Keys == s.queries.Keys
    && Owned(s)
    && (forall q :: q in s.queries ==> QueryBalanced(s, x, q))
    && s.global.amount == Sum(Draws(s.queries, x))
  }

  lemma HoldingsChange(ops: map<nat, Operator>, ops': map<nat, Operator>, o: nat, q: nat)
    requires ops - {o} == ops' - {o}
    ensures Sum(Holdings(ops', q))
         == Sum(Holdings(ops, q)) - At(Holdings(ops, q), o) + At(Holdings(ops', q), o)
  {
    var m, m' := Holdings(ops, q), Holdings(ops', q);
    forall k | k != o ensures k in m <==> k in m' ensures k in m ==> m[k] == m'[k] {
      assert k in ops <==> k in ops - {o};
      assert k in ops' <==> k in ops' - {o};
    }
    assert m - {o} == m' - {o};
    SumChange(m, m', o);
  }

  lemma DrawsChange(queries: map<nat, Query>, queries': map<nat, Query>,
                    x: map<nat, int>, x': map<nat, int>, q: nat)
    requires queries - {q} == queries' - {q} && x - {q} == x' - {q}
    ensures Sum(Draws(queries', x'))
         == Sum(Draws(queries, x)) - At(Draws(queries, x), q) + At(Draws(queries', x'), q)
  {
    var m, m' := Draws(queries, x), Draws(queries', x');
    forall k | k != q ensures k in m <==> k in m' ensures k in m ==> m[k] == m'[k] {
      assert k in queries <==> k in queries - {q};
      assert k in queries' <==> k in queries' - {q};
      assert k in x <==> k in x - {q};
      assert k in x' <==> k in x' - {q};
    }
    assert m - {q} == m' - {q};
    SumChange(m, m', q);
  }

  function AmountOf(s: System, q: nat): int { if q in s.queries then s.queries[q].meter.amount else 0 }

  /** The query's amount moves by what the operator's holding and the excess move. */
  ghost predicate QueryMoves(s: System, x: map<nat, int>, s': System, x': map<nat, int>, o: nat, q: nat) {
    AmountOf(s', q) - At(Holdings(s'.operators, q), o) - At(x', q)
    == AmountOf(s, q) - At(Holdings(s.operators, q), o) - At(x, q)
  }

  /** A change to one operator and to its query keeps the books when both links move the same bytes. */
  lemma ChangeBalanced(s: System, x: map<nat, int>, s': System, x': map<nat, int>, o: nat, q: nat)
    requires Balanced(s, x) && x'.Keys == s'.queries.Keys && Owned(s')
    requires s.operators - {o} == s'.operators - {o}
    requires s.queries - {q} == s'.queries - {q} && x - {q} == x' - {q}
    requires o in s.operators ==> s.operators[o].query == q
    requires o in s'.operators ==> s'.operators[o].query == q
    requires s'.global.amount - s.global.amount == At(Draws(s'.queries, x'), q) - At(Draws(s.queries, x), q)
    requires q in s'.queries ==> QueryMoves(s, x, s', x', o, q)
    ensures Balanced(s', x')
  {
    DrawsChange(s.queries, s'.queries, x, x', q);
    forall k | k in s'.queries ensures QueryBalanced(s', x', k) {
      HoldingsChange(s.operators, s'.operators, o, k);
      if k != q {
        assert k in s'.queries - {q} && k in s.queries - {q};
        assert k in x - {q} && k in x' - {q};
        assert QueryBalanced(s, x, k);
      } else if k in s.queries {
        assert QueryBalanced(s, x, k);
      } else {
        assert Holdings(s.operators, k) == map[];
      }
    }
  }

  /** A call on operator `o` that leaves Global at `g`, its query at `q` and itself at `op`. */
  lemma CallBalanced(s: System, x: map<nat, int>, x': map<nat, int>, o: nat, g: Meter, q: Query, op: Operator)
    requires Balanced(s, x) && o in s.operators && op.query == s.operators[o].query
    requires x'.Keys == x.Keys && x - {op.query} == x' - {op.query}
    requires g.amount - s.global.amount == q.Held() - At(x', op.query) - (s.queries[op.query].Held() - At(x, op.query))
    requires q.meter.amount - op.Held() - At(x', op.query)
          == s.queries[op.query].meter.amount - s.operators[o].Held() - At(x, op.query)
    ensures Balanced(System(g, s.queries[op.query := q], s.operators[o := op]), x')
  {
    ChangeBalanced(s, x, System(g, s.queries[op.query := q], s.operators[o := op]), x', o, op.query);
  }

  lemma AcquireBalanced(s: System, x: map<nat, int>, o: nat, size: int)
    requires Balanced(s, x) && o in s.operators
    ensures Balanced(Step(s, Acquire(o, size)), ExcessStep(s, Acquire(o, size), x))
  {
    var op := s.operators[o];
    OperatorAcquireBalanced(s.global, s.queries[op.query], op, size);
    var (r, g, q, op') := OperatorAcquire(s.global, s.queries[op.query], op, size);
    CallBalanced(s, x, ExcessStep(s, Acquire(o, size), x), o, g, q, op');
  }

  lemma ReleaseBalanced(s: System, x: map<nat, int>, o: nat, size: int)
    requires Balanced(s, x) && o in s.operators
    ensures Balanced(Step(s, Release(o, size)), x)
  {
    var op := s.operators[o];
    OperatorReleaseBalanced(s.global, s.queries[op.query], op, size);
    var (g, q, op') := OperatorRelease(s.global, s.queries[op.query], op, size);
    CallBalanced(s, x, x, o, g, q, op');
  }

  lemma CloseOperatorBalanced(s: System, x: map<nat, int>, o: nat)
    requires Balanced(s, x) && o in s.operators
    ensures Balanced(Step(s, CloseOperator(o)), x)
  {
    var op := s.operators[o];
    OperatorCloseBalanced(s.global, s.queries[op.query], op);
    ChangeBalanced(s, x, Step(s, CloseOperator(o)), x, o, op.query);
  }

  lemma OpenOperatorBalanced(s: System, x: map<nat, int>, o: nat, q: nat)
    requires Balanced(s, x) && Enabled(s, OpenOperator(o, q))
    ensures Balanced(Step(s, OpenOperator(o, q)), x)
  {
    ChangeBalanced(s, x, Step(s, OpenOperator(o, q)), x, o, q);
  }

  lemma OpenQueryBalanced(s: System, x: map<nat, int>, q: nat, limit: int)
    requires Balanced(s, x) && Enabled(s, OpenQuery(q, limit))
    ensures Balanced(Step(s, OpenQuery(q, limit)), x[q := 0])
  {
    var o: nat := Fresh(s.operators.Keys);
    ChangeBalanced(s, x, Step(s, OpenQuery(q, limit)), x[q := 0], o, q);
  }

  lemma CloseQueryBalanced(s: System, x: map<nat, int>, q: nat)
    requires Balanced(s, x) && Enabled(s, CloseQuery(q))
    ensures Balanced(Step(s, CloseQuery(q)), x - {q})
  {
    assert QueryBalanced(s, x, q) && Holdings(s.operators, q) == map[];
    var o: nat := Fresh(s.operators.Keys);
    ChangeBalanced(s, x, Step(s, CloseQuery(q)), x - {q}, o, q);
  }

  lemma {:induction false} Fresh(used: set<nat>) returns (n: nat)
    ensures n !in used
    ensures forall k :: k in used ==> k < n
  {
    if used == {} {
      n := 0;
    } else {
      var k :| k in used;
      n := Fresh(used - {k});
      forall j | j in used ensures j == k || j < n {
        assert j == k || j in used - {k};
      }
      n := if k < n then n else k + 1;
    }
  }

  lemma StepBalanced(s: System, e: Event, x: map<nat, int>)
    requires Balanced(s, x)
    ensures Balanced(Step(s, e), ExcessStep(s, e, x))
  {
    if Enabled(s, e) {
      match e
      case OpenQuery(q, limit) => OpenQueryBalanced(s, x, q, limit);
      case OpenOperator(o, q) => OpenOperatorBalanced(s, x, o, q);
      case Acquire(o, size) => AcquireBalanced(s, x, o, size);
      case Release(o, size) => ReleaseBalanced(s, x, o, size);
      case CloseOperator(o) => CloseOperatorBalanced(s, x, o);
      case CloseQuery(q) => CloseQueryBalanced(s, x, q);
    }
  }

  /** Whatever the sizes, failures and order of calls: a query's amount is what its live operators hold
      plus what failures left behind, and Global's amount is what the live queries hold without it. */
  lemma {:induction false} Conservation(limit: int, trace: seq<Event>)
    ensures Balanced(Run(Booted(limit), trace), Excess(Booted(limit), trace))
  {
    if trace == [] {
      assert Draws(map[], map[]) == map[];
    } else {
      var prefix := trace[..|trace| - 1];
      Conservation(limit, prefix);
      StepBalanced(Run(Booted(limit), prefix), trace[|trace| - 1], Excess(Booted(limit), prefix));
    }
  }

  /** Every acquire of the run returns normally. */
  ghost predicate NoFailures(s: System, trace: seq<Event>) {
    forall n | 0 <= n < |trace| :: Outcome1(Run(s, trace[..n]), trace[n]) == Done
  }

  lemma {:induction false} NoFailuresNoExcess(s: System, trace: seq<Event>)
    requires NoFailures(s, trace)
    ensures forall q :: q in Excess(s, trace) ==> Excess(s, trace)[q] == 0
  {
    if trace != [] {
      var prefix := trace[..|trace| - 1];
      forall n | 0 <= n < |prefix| ensures Outcome1(Run(s, prefix[..n]), prefix[n]) == Done {
        assert prefix[..n] == trace[..n];
      }
      NoFailuresNoExcess(s, prefix);
    }
  }

  /** Without failures both layers are exact sums, also while operator amounts are negative. */
  lemma ExactWithoutFailures(limit: int, trace: seq<Event>)
    requires NoFailures(Booted(limit), trace)
    ensures var s := Run(Booted(limit), trace);
            && (forall q :: q in s.queries ==> s.queries[q].meter.amount == Sum(Holdings(s.operators, q)))
            && s.global.amount == Sum(Draws(s.queries, map[]))
  {
    Conservation(limit, trace);
    NoFailuresNoExcess(Booted(limit), trace);
    var s, x := Run(Booted(limit), trace), Excess(Booted(limit), trace);
    DrawsWithoutExcess(s.queries, x);
    forall q | q in s.queries ensures s.queries[q].meter.amount == Sum(Holdings(s.operators, q)) {
      assert QueryBalanced(s, x, q);
    }
  }

  lemma DrawsWithoutExcess(queries: map<nat, Query>, x: map<nat, int>)
    requires forall q :: q in x ==> x[q] == 0
    ensures Draws(queries, x) == Draws(queries, map[])
    ensures forall q :: q in queries ==> Draws(queries, map[])[q] == queries[q].Held()
  {
  }

  // ---- Teardown

  /** Once the operators are gone a query's amount is exactly its excess; once the queries are gone
      Global is at zero. This holds however the run got there, failures and negative amounts included. */
  lemma Teardown(limit: int, trace: seq<Event>)
    ensures var s, x := Run(Booted(limit), trace), Excess(Booted(limit), trace);
            && x.Keys == s.queries.Keys
            && (s.operators == map[] ==> forall q :: q in s.queries ==> s.queries[q].meter.amount == x[q])
            && (s.queries == map[] ==> s.global.amount == 0)
  {
    Conservation(limit, trace);
    var s, x := Run(Booted(limit), trace), Excess(Booted(limit), trace);
    if s.operators == map[] {
      forall q | q in s.queries ensures Sum(Holdings(s.operators, q)) == 0 {
        assert Holdings(s.operators, q) == map[];
      }
    }
    if s.queries == map[] {
      assert Draws(s.queries, x) == map[];
    }
  }

  lemma {:induction false} RunConcat(s: System, a: seq<Event>, b: seq<Event>)
    ensures Run(s, a + b) == Run(Run(s, a), b)
  {
    if b == [] {
      assert a + b == a;
    } else {
      var prefix := b[..|b| - 1];
      RunConcat(s, a, prefix);
      assert (a + b)[..|a + b| - 1] == a + prefix;
    }
  }

  lemma RunOne(s: System, e: Event)
    ensures Run(s, [e]) == Step(s, e)
  {
    assert Run(s, [e][..0]) == s;
  }

  /** A closing event that is enabled, and leaves fewer trackers. */
  lemma SomeClose(s: System) returns (e: Event)
    requires Owned(s) && (s.operators != map[] || s.queries != map[])
    ensures Enabled(s, e) && (e.CloseOperator? || e.CloseQuery?) && Owned(Step(s, e))
    ensures e.CloseOperator? ==> |Step(s, e).operators| < |s.operators|
    ensures e.CloseQuery? ==> Step(s, e).operators == s.operators && |Step(s, e).queries| < |s.queries|
  {
    if s.operators != map[] {
      var o :| o in s.operators;
      e := CloseOperator(o);
      SmallerWithout(s.operators, o);
    } else {
      var q :| q in s.queries;
      e := CloseQuery(q);
      SmallerWithout(s.queries, q);
    }
  }

  lemma {:induction false} Drain(s: System) returns (rest: seq<Event>)
    requires Owned(s)
    ensures forall n :: 0 <= n < |rest| ==> rest[n].CloseOperator? || rest[n].CloseQuery?
    ensures Run(s, rest).queries == map[] && Run(s, rest).operators == map[]
    decreases |s.operators|, |s.queries|
  {
    if s.operators == map[] && s.queries == map[] {
      rest := [];
    } else {
      var e := SomeClose(s);
      var later := Drain(Step(s, e));
      rest := [e] + later;
      RunConcat(s, [e], later);
      RunOne(s, e);
    }
  }

  /** From every reachable state, closing trackers empties the system and brings Global back to zero. */
  lemma CanTearDown(limit: int, trace: seq<Event>) returns (rest: seq<Event>)
    ensures forall n :: 0 <= n < |rest| ==> rest[n].CloseOperator? || rest[n].CloseQuery?
    ensures var s := Run(Booted(limit), trace + rest);
            s.queries == map[] && s.operators == map[] && s.global.amount == 0
  {
    Conservation(limit, trace);
    rest := Drain(Run(Booted(limit), trace));
    RunConcat(Booted(limit), trace, rest);
    Teardown(limit, trace + rest);
  }

  // ---- Two-sided bounds and limits

  /** Sizes and limits are byte counts. */
  predicate ByteSizes(e: Event) {
    match e
    case OpenQuery(_, limit) => limit >= 0
    case Acquire(_, size) => size >= 0
    case Release(_, size) => size >= 0
    case _ => true
  }

  ghost predicate AllByteSizes(trace: seq<Event>) { forall n :: 0 <= n < |trace| ==> ByteSizes(trace[n]) }

  predicate WithinLimit(m: Meter) { m.amount <= m.hardLimit }

  predicate AllReserved(s: System) {
    && (forall q :: q in s.queries ==> Reserved(s.queries[q].reservation, QUERY_RESERVE))
    && (forall o :: o in s.operators ==> Reserved(s.operators[o].reservation, OPERATOR_RESERVE))
  }

  predicate Bounded(s: System) {
    AllReserved(s) && WithinLimit(s.global) && forall q :: q in s.queries ==> WithinLimit(s.queries[q].meter)
  }

  /** What the query's reserve has left when the operator's reserve is back covers a negative amount. */
  predicate ReserveCovers(q: Query, o: Operator) {
    var joint := q.reservation + o.reservation;
    joint - Surplus(joint, QUERY_RESERVE) + o.amount >= 0
  }

  /** A destroyed operator that moved away more than it reserves charges its query without a limit check. */
  predicate LimitCovers(q: Query, o: Operator) { q.meter.amount - o.Held() <= q.meter.hardLimit }

  /** If the event destroys an operator, the reserve covers it. */
  predicate CloseFits(s: System, e: Event) {
    e.CloseOperator? && Enabled(s, e) ==> ReserveCovers(s.queries[s.operators[e.o].query], s.operators[e.o])
  }

  /** If the event destroys an operator, reserve and limit cover it. */
  predicate CloseCovered(s: System, e: Event) {
    && CloseFits(s, e)
    && (e.CloseOperator? && Enabled(s, e) ==> LimitCovers(s.queries[s.operators[e.o].query], s.operators[e.o]))
  }

  lemma CloseReserves(g: Meter, q: Query, o: Operator)
    requires Reserved(q.reservation, QUERY_RESERVE) && Reserved(o.reservation, OPERATOR_RESERVE)
    ensures var (g', q') := OperatorClose(g, q, o);
            && (Reserved(q'.reservation, QUERY_RESERVE) <==> ReserveCovers(q, o))
            && g'.amount <= g.amount && g'.hardLimit == g.hardLimit
            && q'.meter.hardLimit == q.meter.hardLimit
            && (WithinLimit(q'.meter) <==> LimitCovers(q, o))
  {
  }

  lemma AcquireReserves(g: Meter, q: Query, o: Operator, size: int)
    requires Reserved(q.reservation, QUERY_RESERVE) && Reserved(o.reservation, OPERATOR_RESERVE) && size >= 0
    ensures var (r, g', q', o') := OperatorAcquire(g, q, o, size);
            && Reserved(q'.reservation, QUERY_RESERVE) && Reserved(o'.reservation, OPERATOR_RESERVE)
            && (WithinLimit(g) ==> WithinLimit(g')) && (WithinLimit(q.meter) ==> WithinLimit(q'.meter))
  {
  }

  lemma ReleaseReserves(g: Meter, q: Query, o: Operator, size: int)
    requires Reserved(q.reservation, QUERY_RESERVE) && Reserved(o.reservation, OPERATOR_RESERVE) && size >= 0
    ensures var (g', q', o') := OperatorRelease(g, q, o, size);
            && Reserved(q'.reservation, QUERY_RESERVE) && Reserved(o'.reservation, OPERATOR_RESERVE)
            && (WithinLimit(g) ==> WithinLimit(g')) && (WithinLimit(q.meter) ==> WithinLimit(q'.meter))
  {
    ReturnQuantaReserved(g, q, Surplus(o.reservation + size, OPERATOR_RESERVE) / OPERATOR_RESERVE);
  }

  /** The calls an event makes, on the trackers it makes them on. */
  lemma CallReserves(s: System, e: Event)
    requires AllReserved(s) && ByteSizes(e) && Enabled(s, e) && (e.Acquire? || e.Release?)
    ensures AllReserved(Step(s, e)) && (Bounded(s) ==> Bounded(Step(s, e)))
    ensures WithinLimit(s.global) ==> WithinLimit(Step(s, e).global)
  {
    var op := s.operators[e.o];
    if e.Acquire? {
      AcquireReserves(s.global, s.queries[op.query], op, e.size);
    } else {
      ReleaseReserves(s.global, s.queries[op.query], op, e.size);
    }
  }

  lemma CloseStep(s: System, o: nat)
    requires AllReserved(s) && Enabled(s, CloseOperator(o))
    ensures var e := CloseOperator(o);
            && (AllReserved(Step(s, e)) <==> CloseFits(s, e))
            && (Bounded(s) ==> (Bounded(Step(s, e)) <==> CloseCovered(s, e)))
            && (WithinLimit(s.global) ==> WithinLimit(Step(s, e).global))
  {
    var op := s.operators[o];
    CloseReserves(s.global, s.queries[op.query], op);
    assert op.query in Step(s, CloseOperator(o)).queries;
  }

  /** One event keeps the reserves in bounds exactly when it is no destruction the reserve does not cover. */
  lemma StepReservedIff(s: System, e: Event)
    requires AllReserved(s) && ByteSizes(e)
    ensures AllReserved(Step(s, e)) <==> CloseFits(s, e)
    ensures WithinLimit(s.global) ==> WithinLimit(Step(s, e).global)
  {
    if Enabled(s, e) {
      match e
      case Acquire(_, _) => CallReserves(s, e);
      case Release(_, _) => CallReserves(s, e);
      case CloseOperator(o) => CloseStep(s, o);
      case _ =>
    }
  }

  /** And it keeps reserves and limits exactly when the limit covers it too. */
  lemma StepBoundedIff(s: System, e: Event)
    requires Bounded(s) && ByteSizes(e)
    ensures Bounded(Step(s, e)) <==> CloseCovered(s, e)
  {
    if Enabled(s, e) {
      match e
      case Acquire(_, _) => CallReserves(s, e);
      case Release(_, _) => CallReserves(s, e);
      case CloseOperator(o) => CloseStep(s, o);
      case _ =>
    }
  }

  /** Giving up moved memory before the operator is destroyed is always enough. */
  lemma NonnegativeCloseFits(s: System, o: nat)
    requires Bounded(s) && (o in s.operators ==> s.operators[o].amount >= 0)
    ensures CloseCovered(s, CloseOperator(o))
  {
  }

  /** `p` holds in every state of the run. */
  ghost predicate Throughout(p: System -> bool, s: System, trace: seq<Event>) {
    p(Run(s, trace)) && (trace == [] || Throughout(p, s, trace[..|trace| - 1]))
  }

  /** `p` holds of every event of the run in the state it meets. */
  ghost predicate AtEachEvent(p: (System, Event) -> bool, s: System, trace: seq<Event>) {
    trace == [] ||
    (AtEachEvent(p, s, trace[..|trace| - 1]) && p(Run(s, trace[..|trace| - 1]), trace[|trace| - 1]))
  }

  /** Every reserve stays within zero and one quantum throughout a run exactly when every destroyed
      operator is covered by the reserve at that moment. */
  lemma {:induction false} RunReservedIff(limit: int, trace: seq<Event>)
    requires AllByteSizes(trace)
    ensures Throughout(AllReserved, Booted(limit), trace) <==> AtEachEvent(CloseFits, Booted(limit), trace)
  {
    if trace != [] {
      RunReservedIff(limit, trace[..|trace| - 1]);
      var s := Run(Booted(limit), trace[..|trace| - 1]);
      if AllReserved(s) {
        StepReservedIff(s, trace[|trace| - 1]);
      }
    }
  }

  /** Reserves and limits hold throughout exactly when reserve and limit cover every destroyed operator. */
  lemma {:induction false} RunBoundedIff(limit: int, trace: seq<Event>)
    requires limit >= 0 && AllByteSizes(trace)
    ensures Throughout(Bounded, Booted(limit), trace) <==> AtEachEvent(CloseCovered, Booted(limit), trace)
  {
    if trace != [] {
      RunBoundedIff(limit, trace[..|trace| - 1]);
      var s := Run(Booted(limit), trace[..|trace| - 1]);
      if Bounded(s) {
        StepBoundedIff(s, trace[|trace| - 1]);
      }
    }
  }

  lemma {:induction false} GlobalWithin(limit: int, trace: seq<Event>)
    requires limit >= 0 && AllByteSizes(trace) && Throughout(AllReserved, Booted(limit), trace)
    ensures WithinLimit(Run(Booted(limit), trace).global)
  {
    if trace != [] {
      GlobalWithin(limit, trace[..|trace| - 1]);
      StepReservedIff(Run(Booted(limit), trace[..|trace| - 1]), trace[|trace| - 1]);
    }
  }

  ghost function Amounts(ops: map<nat, Operator>): map<nat, int> { map o | o in ops :: ops[o].amount }

  ghost function Spares(ops: map<nat, Operator>): map<nat, int> { map o | o in ops :: ops[o].reservation }

  ghost function Helds(ops: map<nat, Operator>): map<nat, int> { map o | o in ops :: ops[o].Held() }

  ghost function Reserves(queries: map<nat, Query>): map<nat, int> {
    map q | q in queries :: queries[q].reservation
  }

  /** Each query's amount without its excess. */
  ghost function Nets(queries: map<nat, Query>, x: map<nat, int>): map<nat, int> {
    map q | q in queries :: queries[q].meter.amount - At(x, q)
  }

  /** The bytes operators really hold. */
  ghost function Usage(s: System): int { Sum(Amounts(s.operators)) }

  /** In a balanced system Global is real usage plus the reserves of both layers. */
  lemma GlobalIsUsagePlusReserves(s: System, x: map<nat, int>)
    requires Balanced(s, x)
    ensures s.global.amount == Usage(s) + Sum(Spares(s.operators)) + Sum(Reserves(s.queries))
  {
    SumSplit(Draws(s.queries, x), Nets(s.queries, x), Reserves(s.queries));
    NetsAreHelds(s, x);
    SumSplit(Helds(s.operators), Amounts(s.operators), Spares(s.operators));
  }

  lemma NetsAreHelds(s: System, x: map<nat, int>)
    requires Balanced(s, x)
    ensures Sum(Nets(s.queries, x)) == Sum(Helds(s.operators))
  {
    var owner := OwnerOf(s.operators);
    forall q | q in s.queries ensures IsTotal(Helds(s.operators), owner, q, Nets(s.queries, x)[q]) {
      assert QueryBalanced(s, x, q);
      NetIsTotal(s, x, q);
    }
    OwnersLive(s);
    SumGroups(Helds(s.operators), owner, Nets(s.queries, x));
  }

  ghost function OwnerOf(ops: map<nat, Operator>): map<nat, nat> { map o | o in ops :: ops[o].query }

  lemma OwnersLive(s: System)
    requires Owned(s)
    ensures OwnerOf(s.operators).Values <= s.queries.Keys
  {
  }

  lemma NetIsTotal(s: System, x: map<nat, int>, q: nat)
    requires q in s.queries && QueryBalanced(s, x, q)
    ensures IsTotal(Helds(s.operators), OwnerOf(s.operators), q, Nets(s.queries, x)[q])
  {
    assert Slice(Helds(s.operators), OwnerOf(s.operators), q) == Holdings(s.operators, q);
  }

  lemma ReservesBounded(s: System)
    requires AllReserved(s)
    ensures 0 <= Sum(Spares(s.operators)) <= OPERATOR_RESERVE * |s.operators|
    ensures 0 <= Sum(Reserves(s.queries)) <= QUERY_RESERVE * |s.queries|
  {
    SumBounds(Spares(s.operators), OPERATOR_RESERVE);
    assert Spares(s.operators).Keys == s.operators.Keys;
    SumBounds(Reserves(s.queries), QUERY_RESERVE);
    assert Reserves(s.queries).Keys == s.queries.Keys;
  }

  /** Global overstates real usage by at most one quantum per live tracker, never understates it, and
      stays under the hard limit, in every run whose reserves cover the operators it destroys, with or
      without failed acquires. */
  lemma GlobalTracksUsage(limit: int, trace: seq<Event>)
    requires limit >= 0 && AllByteSizes(trace) && AtEachEvent(CloseFits, Booted(limit), trace)
    ensures var s := Run(Booted(limit), trace);
            && Usage(s) <= s.global.amount
            && s.global.amount <= Usage(s) + OPERATOR_RESERVE * |s.operators| + QUERY_RESERVE * |s.queries|
            && s.global.amount <= s.global.hardLimit
  {
    Conservation(limit, trace);
    RunReservedIff(limit, trace);
    GlobalWithin(limit, trace);
    var s := Run(Booted(limit), trace);
    GlobalIsUsagePlusReserves(s, Excess(Booted(limit), trace));
    ReservesBounded(s);
  }

  /** The first acquire of all. The operator asks for a whole number of its quanta, more than `n` bytes; the
      query's limit is its own number and 65536 more, Global's is its own number; the largest number of 64 bits
      stands for no limit. */
  lemma FirstAcquire(global: int, limit: int, q: nat, o: nat, n: int)
    requires n > 0
    ensures var asked := (n / 4096 + 1) * 4096;
            var drawn := (asked / 65536 + 1) * 65536;
            Outcome1(Run(Booted(global), [OpenQuery(q, limit), OpenOperator(o, q)]), Acquire(o, n))
            == if asked > (if limit == 9223372036854775807 then limit else limit + 65536) then QueryLimit
               else if drawn > global then GlobalLimit
               else Done
  {
    var asked := (n / 4096 + 1) * 4096;
    var e0, e1 := OpenQuery(q, limit), OpenOperator(o, q);
    assert [e0, e1][..1] == [e0];
    RunOne(Booted(global), e0);
    DrawUnique(-n, OPERATOR_RESERVE, n / 4096 + 1);
    DrawUnique(-asked, QUERY_RESERVE, asked / 65536 + 1);
    FailureStates(Opened(global, 0), Query(Opened(limit, QUERY_RESERVE), 0), Operator(q, 0, 0, 0), n);
  }

  /** An operator destroyed with a negative amount that its query's reserve does not cover. */
  lemma NegativeCloseBreaksBounds()
    ensures var trace := [OpenQuery(0, UNLIMITED), OpenOperator(1, 0), OpenOperator(2, 0),
                          Acquire(1, 200000), Release(2, 200000), CloseOperator(2)];
            var s := Run(Booted(UNLIMITED), trace);
            0 in s.queries && s.queries[0].reservation < 0
  {
    var s0 := Booted(UNLIMITED);
    var opens, calls := [OpenQuery(0, UNLIMITED), OpenOperator(1, 0), OpenOperator(2, 0)],
                        [Acquire(1, 200000), Release(2, 200000), CloseOperator(2)];
    assert opens + calls == [OpenQuery(0, UNLIMITED), OpenOperator(1, 0), OpenOperator(2, 0),
                             Acquire(1, 200000), Release(2, 200000), CloseOperator(2)];
    RunConcat(s0, opens, calls);
    RunThree(s0, opens[0], opens[1], opens[2]);
    var s3 := Run(s0, opens);
    assert s3 == TwoOperators();
    RunThree(s3, calls[0], calls[1], calls[2]);
    MovedNegative(s3, 200000);
  }

  lemma MovedNegative(s: System, size: int)
    requires s == TwoOperators() && size == 200000
    ensures var s' := Step(Step(Step(s, Acquire(1, size)), Release(2, size)), CloseOperator(2));
            0 in s'.queries && s'.queries[0].reservation < 0
  {
    Moved(s, size);
    var s1 := Step(s, Acquire(1, size));
    MovedAndReleased(s1, size);
    MovedAndClosed(Step(s1, Release(2, size)));
  }

  lemma RunThree(s: System, e0: Event, e1: Event, e2: Event)
    ensures Run(s, [e0, e1, e2]) == Step(Step(Step(s, e0), e1), e2)
  {
    assert [e0, e1, e2][..2] == [e0, e1] && [e0, e1][..1] == [e0];
    RunOne(s, e0);
  }

  function TwoOperators(): System {
    System(Meter(0, 0, UNLIMITED), map[0 := Query(Meter(0, 0, UNLIMITED), 0)],
           map[1 := Operator(0, 0, 0, 0), 2 := Operator(0, 0, 0, 0)])
  }

  lemma AcquireStep(s: System, o: nat, size: int)
    requires Enabled(s, Acquire(o, size))
    ensures var op := s.operators[o];
            var (_, g, q, op') := OperatorAcquire(s.global, s.queries[op.query], op, size);
            Step(s, Acquire(o, size)) == System(g, s.queries[op.query := q], s.operators[o := op'])
  {
  }

  lemma Moved(s: System, size: int)
    requires s == TwoOperators() && size == 200000
    ensures var s' := Step(s, Acquire(1, size));
            && 0 in s'.queries && s'.queries[0] == Query(Meter(200704, 200704, UNLIMITED), 61440)
            && 2 in s'.operators && s'.operators[2] == Operator(0, 0, 0, 0)
  {
    AcquireStep(s, 1, size);
    MovedCall(s.global, s.queries[0], s.operators[1], size);
  }

  lemma MovedCall(g: Meter, q: Query, o: Operator, size: int)
    requires size == 200000 && g == Meter(0, 0, UNLIMITED) && q == Query(g, 0) && o == Operator(0, 0, 0, 0)
    ensures var (_, _, q', o') := OperatorAcquire(g, q, o, size);
            q' == Query(Meter(200704, 200704, UNLIMITED), 61440) && o' == Operator(0, 200000, 200000, 704)
  {
    assert Draw(-size, OPERATOR_RESERVE) == 200704;
    assert Draw(-200704, QUERY_RESERVE) == 262144;
  }

  lemma MovedAndReleased(s: System, size: int)
    requires size == 200000
    requires 0 in s.queries && s.queries[0] == Query(Meter(200704, 200704, UNLIMITED), 61440)
    requires 2 in s.operators && s.operators[2] == Operator(0, 0, 0, 0)
    ensures var s' := Step(s, Release(2, size));
            && 0 in s'.queries && s'.queries[0].reservation == 61440
            && 2 in s'.operators && s'.operators[2] == Operator(0, -200000, 0, 3392)
  {
    ReleaseBatched(s.global, s.queries[0], s.operators[2], size);
    assert Surplus(size, OPERATOR_RESERVE) == 196608;
    assert Surplus(61440 + 196608, QUERY_RESERVE) == 196608;
  }

  lemma MovedAndClosed(s: System)
    requires 0 in s.queries && s.queries[0].reservation == 61440
    requires 2 in s.operators && s.operators[2] == Operator(0, -200000, 0, 3392)
    ensures 0 in Step(s, CloseOperator(2)).queries && Step(s, CloseOperator(2)).queries[0].reservation < 0
  {
    var q := OperatorClose(s.global, s.queries[0], s.operators[2]).1;
    assert Step(s, CloseOperator(2)).queries == s.queries[0 := q];
    assert Surplus(61440 + 3392, QUERY_RESERVE) == 0;
  }
}
