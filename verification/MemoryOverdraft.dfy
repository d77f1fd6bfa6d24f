/** What calls side by side can do to a query's reserve, exactly: below zero, for callers that release no
    more than they hold, and above one quantum when all calls are over. */
module MemoryOverdraft {
  import opened Arithmetic
  import opened MemorySpec
  import opened Sums
  import opened MemoryConcurrent
  import opened MemoryRaces
  import opened MemoryHonest

  // ---- Two threads that each draw a quantum for one unit

  /** Both read an empty reserve, both draw, and at rest two quanta less two units are left. */
  function TwoDraws(t: nat, u: nat, q: nat, unit: int): seq<Action> {
    [BeginAcquire(t, q, unit), BeginAcquire(u, q, unit)] + InStep(t, u, 6)
  }

  /** Both threads take `n` steps, one each at a time. */
  function InStep(t: nat, u: nat, n: nat): seq<Action> {
    if n == 0 then [] else [Advance(t), Advance(u)] + InStep(t, u, n - 1)
  }

  function Boths(s: State, t: nat, u: nat, n: nat): State
    decreases n
  {
    if n == 0 then s else Boths(Both(s, t, u), t, u, n - 1)
  }

  lemma {:induction false} RunInStep(s: State, t: nat, u: nat, n: nat)
    ensures Run(s, InStep(t, u, n)) == Boths(s, t, u, n)
    decreases n
  {
    if n > 0 {
      RunConcat(s, [Advance(t), Advance(u)], InStep(t, u, n - 1));
      RunTwo(s, Advance(t), Advance(u));
      RunInStep(Both(s, t, u), t, u, n - 1);
    }
  }

  lemma RunTwoDraws(s: State, t: nat, u: nat, q: nat, unit: int)
    ensures Run(s, TwoDraws(t, u, q, unit))
         == Boths(Step(Step(s, BeginAcquire(t, q, unit)), BeginAcquire(u, q, unit)), t, u, 6)
  {
    RunConcat(s, [BeginAcquire(t, q, unit), BeginAcquire(u, q, unit)], InStep(t, u, 6));
    RunTwo(s, BeginAcquire(t, q, unit), BeginAcquire(u, q, unit));
    RunInStep(Step(Step(s, BeginAcquire(t, q, unit)), BeginAcquire(u, q, unit)), t, u, 6);
  }

  lemma BothDraw(s: State, t: nat, u: nat, q: nat, unit: int, draw: int)
    requires t in s.threads && u in s.threads && t != u && q in s.queries && s.queries[q].reservation == 0
    requires s.threads[t] == s.threads[u] == Admitted(q, unit) && draw == Draw(-unit, QUERY_RESERVE) > 0
    ensures Both(s, t, u) == s.(threads := s.threads[t := Drawing(q, unit, draw)][u := Drawing(q, unit, draw)])
  {
  }

  lemma BothCount(s: State, t: nat, u: nat, q: nat, unit: int, draw: int)
    requires t in s.threads && u in s.threads && t != u && q in s.queries
    requires s.threads[t] == s.threads[u] == Drawing(q, unit, draw)
    ensures Both(s, t, u) == s.(global := s.global + 2 * draw,
              threads := s.threads[t := GlobalCounted(q, unit, draw, s.global + draw)][u := GlobalCounted(q, unit, draw, s.global + 2 * draw)])
  {
  }

  lemma BothPass(s: State, t: nat, u: nat, q: nat, unit: int, draw: int, n: int, m: int)
    requires t in s.threads && u in s.threads && t != u && q in s.queries && n <= s.globalLimit && m <= s.globalLimit
    requires s.threads[t] == GlobalCounted(q, unit, draw, n) && s.threads[u] == GlobalCounted(q, unit, draw, m)
    ensures Both(s, t, u) == s.(threads := s.threads[t := Drawn(q, unit, draw)][u := Drawn(q, unit, draw)])
  {
  }

  lemma BothReserve(s: State, t: nat, u: nat, q: nat, unit: int, draw: int)
    requires t in s.threads && u in s.threads && t != u && q in s.queries
    requires s.threads[t] == s.threads[u] == Drawn(q, unit, draw)
    ensures Both(s, t, u) == PutReserve(s, q, 2 * draw).(threads := s.threads[t := Settling(q, unit)][u := Settling(q, unit)])
  {
  }

  /** The state after both have drawn and settled. */
  function TwoDrawn(s: State, q: nat, unit: int): State
    requires q in s.queries
  {
    PutReserve(PutAmount(s, q, 2 * unit), q, 2 * QUERY_RESERVE - 2 * unit).(global := s.global + 2 * QUERY_RESERVE)
  }

  lemma TwoDrawsEnd(s: State, t: nat, u: nat, q: nat, unit: int)
    requires t in s.threads && u in s.threads && t != u && s.threads[t] == s.threads[u] == Idle && 0 < unit < QUERY_RESERVE
    requires q in s.queries && s.queries[q].reservation == 0 && s.queries[q].amount + 2 * unit <= s.queries[q].hardLimit
    requires s.global + 2 * QUERY_RESERVE <= s.globalLimit
    ensures Run(s, TwoDraws(t, u, q, unit)) == TwoDrawn(s, q, unit)
  {
    RunTwoDraws(s, t, u, q, unit);
    BothAdmitted(s, t, u, q, unit);
    var s2 := PutAmount(s, q, 2 * unit).(threads := s.threads[t := Admitted(q, unit)][u := Admitted(q, unit)]);
    TwoDrawsFrom(s2, s, t, u, q, unit);
  }

  lemma TwoDrawsFrom(s2: State, s: State, t: nat, u: nat, q: nat, unit: int)
    requires t in s.threads && u in s.threads && t != u && s.threads[t] == s.threads[u] == Idle && 0 < unit < QUERY_RESERVE
    requires q in s.queries && s.queries[q].reservation == 0 && s.global + 2 * QUERY_RESERVE <= s.globalLimit
    requires s2 == PutAmount(s, q, 2 * unit).(threads := s.threads[t := Admitted(q, unit)][u := Admitted(q, unit)])
    ensures Boths(s2, t, u, 5) == TwoDrawn(s, q, unit)
  {
    BothDrawn(s2, t, u, q, unit);
    Overwrite(s.threads, t, u, Admitted(q, unit), Drawn(q, unit, QUERY_RESERVE));
    BothSettled(Both(Both(Both(s2, t, u), t, u), t, u), s, t, u, q, unit);
  }

  lemma Overwrite(threads: map<nat, Pc>, t: nat, u: nat, a: Pc, b: Pc)
    ensures threads[t := a][u := a][t := b][u := b] == threads[t := b][u := b]
  {
  }

  /** From two draws that have arrived at Global to the end. */
  lemma BothSettled(s5: State, s: State, t: nat, u: nat, q: nat, unit: int)
    requires t in s.threads && u in s.threads && t != u && s.threads[t] == s.threads[u] == Idle
    requires q in s.queries && s.queries[q].reservation == 0
    requires s5.threads == s.threads[t := Drawn(q, unit, QUERY_RESERVE)][u := Drawn(q, unit, QUERY_RESERVE)]
    requires s5 == PutAmount(s, q, 2 * unit).(global := s.global + 2 * QUERY_RESERVE, threads := s5.threads)
    ensures Both(Both(s5, t, u), t, u) == TwoDrawn(s, q, unit)
  {
    BothReserve(s5, t, u, q, unit, QUERY_RESERVE);
    BothDone(PutReserve(s5, q, 2 * QUERY_RESERVE).(threads := s5.threads[t := Settling(q, unit)][u := Settling(q, unit)]), t, u, q, unit);
    assert s5.threads[t := Settling(q, unit)][u := Settling(q, unit)][t := Idle][u := Idle] == s.threads;
  }

  lemma BothDrawn(s: State, t: nat, u: nat, q: nat, unit: int)
    requires t in s.threads && u in s.threads && t != u && q in s.queries && s.queries[q].reservation == 0
    requires s.threads[t] == s.threads[u] == Admitted(q, unit) && 0 < unit < QUERY_RESERVE
    requires s.global + 2 * QUERY_RESERVE <= s.globalLimit
    ensures Both(Both(Both(s, t, u), t, u), t, u)
         == s.(global := s.global + 2 * QUERY_RESERVE,
               threads := s.threads[t := Drawn(q, unit, QUERY_RESERVE)][u := Drawn(q, unit, QUERY_RESERVE)])
  {
    var d := QUERY_RESERVE;
    DrawUnique(-unit, d, 1);
    BothDraw(s, t, u, q, unit, d);
    var s1 := Both(s, t, u);
    BothCount(s1, t, u, q, unit, d);
    BothPass(Both(s1, t, u), t, u, q, unit, d, s.global + d, s.global + 2 * d);
  }

  ghost predicate AllPositive(trace: seq<Action>) {
    forall n :: 0 <= n < |trace| ==> trace[n].Advance? || trace[n].size > 0
  }

  lemma TwoDrawsAcquire(t: nat, u: nat, q: nat, unit: int)
    requires IsUnit(unit)
    ensures AllAcquires(TwoDraws(t, u, q, unit), unit) && AllPositive(TwoDraws(t, u, q, unit))
  {
    DrawsAcquire(t, u, q, unit, 6);
  }

  lemma DrawsAcquire(t: nat, u: nat, q: nat, unit: int, n: nat)
    requires unit > 0
    ensures var trace := [BeginAcquire(t, q, unit), BeginAcquire(u, q, unit)] + InStep(t, u, n);
            AllAcquires(trace, unit) && AllPositive(trace)
  {
    StepsAdvance(t, u, n);
    DivModUnique(unit, unit, 1, 0);
    AcquiresFirst([BeginAcquire(t, q, unit), BeginAcquire(u, q, unit)], InStep(t, u, n), unit);
  }

  predicate AllAdvance(trace: seq<Action>) { forall n :: 0 <= n < |trace| ==> trace[n].Advance? }

  lemma {:induction false} StepsAdvance(t: nat, u: nat, n: nat)
    ensures AllAdvance(InStep(t, u, n))
  {
    if n > 0 {
      StepsAdvance(t, u, n - 1);
    }
  }

  lemma AcquiresFirst(p: seq<Action>, r: seq<Action>, unit: int)
    requires unit > 0 && AllAcquires(p, unit) && AllPositive(p) && AllAdvance(r)
    ensures AllAcquires(p + r, unit) && AllPositive(p + r)
  {
  }

  // ---- What callers hold after the two draws

  /** From the start, nothing is left behind: all that the query counts is held. */
  lemma TwoDrawsHeld(s: State, t: nat, u: nat, q: nat, unit: int)
    requires Start(s) && t in s.threads && u in s.threads && t != u && q in s.queries && IsUnit(unit)
    requires s.queries[q].hardLimit >= 2 * unit && s.globalLimit >= 2 * QUERY_RESERVE
    ensures Run(s, TwoDraws(t, u, q, unit)) == TwoDrawn(s, q, unit)
    ensures HonestRun(s, TwoDraws(t, u, q, unit))
    ensures Free(TwoDrawn(s, q, unit), RunBooks(s, TwoDraws(t, u, q, unit)), q) == 2 * unit
  {
    var trace := TwoDraws(t, u, q, unit);
    TwoDrawsEnd(s, t, u, q, unit);
    TwoDrawsAcquire(t, u, q, unit);
    AcquiresHonest(s, trace, unit);
    HonestNatural(s, trace);
    TwoDrawnTotal(s, q, unit);
    AllHeld(s, trace, q);
  }

  lemma TwoDrawnTotal(s: State, q: nat, unit: int)
    requires Start(s) && q in s.queries
    ensures var s' := TwoDrawn(s, q, unit); s'.global == Sum(Totals(s'.queries))
  {
    var s' := TwoDrawn(s, q, unit);
    SumBounds(Totals(s.queries), 0);
    assert Totals(s.queries) - {q} == Totals(s'.queries) - {q};
    SumChange(Totals(s.queries), Totals(s'.queries), q);
  }

  /** When Global holds what the queries add up to, and no call is in flight, no acquire has left anything behind. */
  lemma AllHeld(s: State, trace: seq<Action>, q: nat)
    requires Start(s) && AllNatural(trace) && q in s.queries && Quiescent(Run(s, trace))
    requires Run(s, trace).global == Sum(Totals(Run(s, trace).queries))
    ensures q in Run(s, trace).queries && Free(Run(s, trace), RunBooks(s, trace), q) == Run(s, trace).queries[q].amount
  {
    ThreadsKept(s, trace);
    ExactAtRest(s, trace);
    forall k ensures At(RunBooks(s, trace).leaked, k) >= 0 {
      LeaksNatural(s, trace, k);
    }
    NothingLeaked(RunBooks(s, trace).leaked, q);
    SumBounds(Releases(Run(s, trace).threads, q), 0);
  }

  lemma NothingLeaked(m: map<nat, int>, q: nat)
    requires Sum(m) == 0 && forall k :: At(m, k) >= 0
    ensures At(m, q) == 0
  {
    forall k | k in m ensures m[k] >= 0 {
      assert At(m, k) >= 0;
    }
    if q in m {
      EntryBelowSum(m, q);
    }
  }

  // ---- Two releases of one unit each give a quantum back, and an acquire takes from what was there between

  lemma HonestOne(s: State, p: seq<Action>, a: Action)
    requires HonestRun(s, p) && Honest(Run(s, p), RunBooks(s, p), a)
    ensures HonestRun(s, p + [a]) && Run(s, p + [a]) == Step(Run(s, p), a)
    ensures RunBooks(s, p + [a]) == BooksStep(Run(s, p), a, RunBooks(s, p))
  {
    assert (p + [a])[..|p|] == p;
  }

  lemma AcquireHonest(s: State, p: seq<Action>, a: Action)
    requires HonestRun(s, p) && Acquires(a)
    ensures HonestRun(s, p + [a])
  {
    HonestOne(s, p, a);
  }

  lemma {:induction false} HonestMore(s: State, p: seq<Action>, r: seq<Action>)
    requires HonestRun(s, p) && forall n :: 0 <= n < |r| ==> Acquires(r[n])
    ensures HonestRun(s, p + r)
  {
    if r == [] {
      assert p + r == p;
    } else {
      HonestMore(s, p, r[..|r| - 1]);
      AcquireHonest(s, p + r[..|r| - 1], r[|r| - 1]);
      assert p + r == p + r[..|r| - 1] + [r[|r| - 1]];
    }
  }

  /** Both give their quantum back to Global, and `t` ends its release. */
  function Given(t: nat, u: nat): seq<Action> { [Advance(t), Advance(u)] + [Advance(t), Advance(t)] }

  /** `t` acquires a unit, unhindered; then `u` takes its quantum off the reserve and ends. */
  function Taken(t: nat, u: nat, q: nat, unit: int): seq<Action> {
    [BeginAcquire(t, q, unit), Advance(t)] + ([Advance(t), Advance(t)] + ([Advance(u), Advance(u)] + []))
  }

  function Interleaved(t: nat, u: nat, q: nat, unit: int): seq<Action> { Given(t, u) + Taken(t, u, q, unit) }

  lemma BothGive(s: State, t: nat, u: nat, q: nat, unit: int, back: int)
    requires t in s.threads && u in s.threads && t != u && q in s.queries && back > 0
    requires s.threads[t] == s.threads[u] == Returning(q, unit, back)
    ensures Both(s, t, u) == s.(global := s.global - 2 * back,
              threads := s.threads[t := Returned(q, unit, back)][u := Returned(q, unit, back)])
  {
  }

  lemma ReturnNow(s: State, t: nat, q: nat, unit: int, back: int)
    requires t in s.threads && q in s.queries && s.threads[t] == Returned(q, unit, back)
    ensures Both(s, t, t) == At1(PutAmount(PutReserve(s, q, -back), q, -unit), t, Idle)
  {
  }

  lemma TakeNow(s: State, t: nat, q: nat, unit: int)
    requires t in s.threads && q in s.queries && s.threads[t] == Admitted(q, unit) && s.queries[q].reservation >= unit
    ensures Both(s, t, t) == At1(PutReserve(s, q, -unit), t, Idle)
  {
  }

  /** Both releases have begun. */
  function BothReleasing(s: State, t: nat, u: nat, q: nat, unit: int): State
    requires q in s.queries
  {
    var pc := Returning(q, unit, QUERY_RESERVE);
    PutReserve(s, q, 2 * unit).(threads := s.threads[t := pc][u := pc])
  }

  lemma InterleavedEnd(s: State, t: nat, u: nat, q: nat, unit: int)
    requires t in s.threads && u in s.threads && t != u && q in s.queries && 0 < unit < QUERY_RESERVE
    requires s.threads[t] == s.threads[u] == Returning(q, unit, QUERY_RESERVE) && s.queries[q].reservation == 2 * QUERY_RESERVE
    requires s.queries[q].amount <= s.queries[q].hardLimit
    ensures var s' := Run(s, Interleaved(t, u, q, unit));
            && s'.threads == s.threads[t := Idle][u := Idle]
            && q in s'.queries && s'.queries[q].reservation == -unit
  {
    RunConcat(s, Given(t, u), Taken(t, u, q, unit));
    GiveBack(s, t, u, q, unit);
    TakeBetween(Run(s, Given(t, u)), t, u, q, unit);
  }

  lemma Reorder(threads: map<nat, Pc>, t: nat, u: nat, pc: Pc)
    requires t != u
    ensures threads[t := pc][u := pc][t := Idle] == threads[t := Idle][u := pc]
  {
  }

  lemma GiveBack(s: State, t: nat, u: nat, q: nat, unit: int)
    requires t in s.threads && u in s.threads && t != u && q in s.queries && unit > 0
    requires s.threads[t] == s.threads[u] == Returning(q, unit, QUERY_RESERVE) && s.queries[q].reservation == 2 * QUERY_RESERVE
    ensures var s' := Run(s, Given(t, u));
            && s'.threads == s.threads[t := Idle][u := Returned(q, unit, QUERY_RESERVE)]
            && q in s'.queries && s'.queries[q].hardLimit == s.queries[q].hardLimit
            && s'.queries[q].amount == s.queries[q].amount - unit && s'.queries[q].reservation == QUERY_RESERVE
  {
    RunConcat(s, [Advance(t), Advance(u)], [Advance(t), Advance(t)]);
    RunTwo(s, Advance(t), Advance(u));
    BothGive(s, t, u, q, unit, QUERY_RESERVE);
    var pc := Returned(q, unit, QUERY_RESERVE);
    var s1 := s.(global := s.global - 2 * QUERY_RESERVE, threads := s.threads[t := pc][u := pc]);
    RunTwo(s1, Advance(t), Advance(t));
    ReturnNow(s1, t, q, unit, QUERY_RESERVE);
    Reorder(s.threads, t, u, pc);
  }

  lemma TakeBetween(s: State, t: nat, u: nat, q: nat, unit: int)
    requires t in s.threads && u in s.threads && t != u && q in s.queries && 0 < unit < QUERY_RESERVE
    requires s.threads[t] == Idle && s.threads[u] == Returned(q, unit, QUERY_RESERVE)
    requires s.queries[q].reservation == QUERY_RESERVE && s.queries[q].amount + unit <= s.queries[q].hardLimit
    ensures var s' := Run(s, Taken(t, u, q, unit));
            && s'.threads == s.threads[u := Idle] && q in s'.queries && s'.queries[q].reservation == -unit
  {
    var s1 := PutReserve(PutAmount(s, q, unit), q, -unit);
    RunFour(s, [BeginAcquire(t, q, unit), Advance(t)], [Advance(t), Advance(t)], [Advance(u), Advance(u)], []);
    RunTwo(s, BeginAcquire(t, q, unit), Advance(t));
    RunTwo(Step(Step(s, BeginAcquire(t, q, unit)), Advance(t)), Advance(t), Advance(t));
    AcquireAgain(s, t, q, unit);
    RunTwo(s1, Advance(u), Advance(u));
    ReturnNow(s1, u, q, unit, QUERY_RESERVE);
  }

  lemma AcquireAgain(s: State, t: nat, q: nat, unit: int)
    requires t in s.threads && s.threads[t] == Idle && q in s.queries && unit <= s.queries[q].reservation
    requires s.queries[q].amount + unit <= s.queries[q].hardLimit
    ensures Both(Step(Step(s, BeginAcquire(t, q, unit)), Advance(t)), t, t) == PutReserve(PutAmount(s, q, unit), q, -unit)
  {
    Admission(s, t, q, unit);
    TakeNow(Step(Step(s, BeginAcquire(t, q, unit)), Advance(t)), t, q, unit);
    assert s.threads[t := Idle] == s.threads;
  }

  /** The whole trace from the start. */
  function ReleaseRace(t: nat, u: nat, q: nat, unit: int): seq<Action> {
    TwoDraws(t, u, q, unit) + [BeginRelease(t, q, unit)] + [BeginRelease(u, q, unit)] + Interleaved(t, u, q, unit)
  }

  lemma BothRelease(s: State, t: nat, u: nat, q: nat, unit: int)
    requires t in s.threads && u in s.threads && t != u && s.threads[t] == s.threads[u] == Idle && 0 < unit < QUERY_RESERVE
    requires q in s.queries && s.queries[q].reservation == 2 * QUERY_RESERVE - 2 * unit
    ensures Step(Step(s, BeginRelease(t, q, unit)), BeginRelease(u, q, unit)) == BothReleasing(s, t, u, q, unit)
  {
    SurplusUnique(2 * QUERY_RESERVE - unit, QUERY_RESERVE, 1);
    SurplusUnique(2 * QUERY_RESERVE, QUERY_RESERVE, 1);
  }

  /** Two releases that begin together, of no more than is held, and anything after them that releases nothing. */
  lemma ReleasesHonest(s: State, p: seq<Action>, a: Action, c: Action, r: seq<Action>)
    requires Start(s) && HonestRun(s, p) && a.BeginRelease? && c.BeginRelease? && a.q == c.q && a.q in s.queries
    requires a.size >= 0 && c.size >= 0 && a.size + c.size <= Free(Run(s, p), RunBooks(s, p), a.q)
    requires forall n :: 0 <= n < |r| ==> Acquires(r[n])
    ensures HonestRun(s, p + [a] + [c] + r)
    ensures Run(s, p + [a] + [c] + r) == Run(Step(Step(Run(s, p), a), c), r)
  {
    HonestFree(s, p, a.q);
    HonestOne(s, p, a);
    if Enabled(Run(s, p), a) {
      StepOut(Run(s, p), a, RunBooks(s, p), a.q);
    }
    HonestOne(s, p + [a], c);
    HonestMore(s, p + [a] + [c], r);
    RunConcat(s, p + [a] + [c], r);
  }

  ghost predicate Fair(trace: seq<Action>, unit: int)
    requires unit > 0
  {
    AllPositive(trace) && WholeUnits(trace, unit)
  }

  lemma FairJoin(p: seq<Action>, a: Action, c: Action, r: seq<Action>, unit: int)
    requires unit > 0 && Fair(p, unit) && Fair([a], unit) && Fair([c], unit) && Fair(r, unit)
    ensures Fair(p + [a] + [c] + r, unit)
  {
    assert [a][0] == a && [c][0] == c;
  }

  lemma OneFair(t: nat, q: nat, unit: int)
    requires unit > 0
    ensures Fair([BeginRelease(t, q, unit)], unit)
  {
  }

  lemma InterleavedFair(t: nat, u: nat, q: nat, unit: int)
    requires unit > 0
    ensures Fair(Interleaved(t, u, q, unit), unit) && AllAcquires(Interleaved(t, u, q, unit), unit)
  {
  }

  lemma RaceFair(t: nat, u: nat, q: nat, unit: int)
    requires IsUnit(unit)
    ensures Fair(ReleaseRace(t, u, q, unit), unit)
  {
    TwoDrawsAcquire(t, u, q, unit);
    InterleavedFair(t, u, q, unit);
    OneFair(t, q, unit);
    OneFair(u, q, unit);
    FairJoin(TwoDraws(t, u, q, unit), BeginRelease(t, q, unit), BeginRelease(u, q, unit), Interleaved(t, u, q, unit), unit);
  }

  lemma RaceHonest(s: State, t: nat, u: nat, q: nat, unit: int)
    requires Start(s) && t in s.threads && u in s.threads && t != u && q in s.queries && IsUnit(unit)
    requires s.queries[q].hardLimit >= 2 * unit && s.globalLimit >= 2 * QUERY_RESERVE
    ensures HonestRun(s, ReleaseRace(t, u, q, unit))
    ensures Run(s, ReleaseRace(t, u, q, unit)) == Run(BothReleasing(TwoDrawn(s, q, unit), t, u, q, unit), Interleaved(t, u, q, unit))
  {
    TwoDrawsHeld(s, t, u, q, unit);
    InterleavedFair(t, u, q, unit);
    ReleasesHonest(s, TwoDraws(t, u, q, unit), BeginRelease(t, q, unit), BeginRelease(u, q, unit), Interleaved(t, u, q, unit));
    BothRelease(TwoDrawn(s, q, unit), t, u, q, unit);
  }

  /** Two threads acquire a unit each and release it again, one acquires a unit once more: at rest the
      reserve is below zero by a unit, although nobody released more than was held. */
  lemma RacedReleases(s: State, t: nat, u: nat, q: nat, unit: int)
    requires Start(s) && t in s.threads && u in s.threads && t != u && q in s.queries && IsUnit(unit)
    requires s.queries[q].hardLimit >= 2 * unit && s.globalLimit >= 2 * QUERY_RESERVE
    ensures var trace := ReleaseRace(t, u, q, unit);
            && HonestRun(s, trace) && Fair(trace, unit)
            && Quiescent(Run(s, trace)) && q in Run(s, trace).queries && Run(s, trace).queries[q].reservation == -unit
  {
    RaceHonest(s, t, u, q, unit);
    RaceFair(t, u, q, unit);
    InterleavedEnd(BothReleasing(TwoDrawn(s, q, unit), t, u, q, unit), t, u, q, unit);
  }

  // ---- Below zero, exactly

  /** Two acquires can share what one quantum leaves, or two threads can draw, and give back, a quantum each. */
  predicate CanDrop(s: State, q: nat, unit: int)
    requires q in s.queries
  {
    && |s.threads| >= 2
    && ((s.queries[q].hardLimit >= QUERY_RESERVE + unit && s.globalLimit >= QUERY_RESERVE)
        || (s.queries[q].hardLimit >= 2 * unit && s.globalLimit >= 2 * QUERY_RESERVE))
  }

  lemma DropsWhen(s: State, q: nat, unit: int) returns (trace: seq<Action>)
    requires IsUnit(unit) && Start(s) && q in s.queries && CanDrop(s, q, unit)
    ensures HonestRun(s, trace) && Fair(trace, unit) && Drops(s, trace, q)
  {
    var t, u := TwoThreads(s);
    if s.queries[q].hardLimit >= QUERY_RESERVE + unit && s.globalLimit >= QUERY_RESERVE {
      trace := RacedTrace(t, u, q, unit);
      RaceFromStart(s, t, u, q, unit);
      RacedTraceAcquires(t, u, q, unit);
      AcquiresHonest(s, trace, unit);
    } else {
      trace := ReleaseRace(t, u, q, unit);
      RacedReleases(s, t, u, q, unit);
    }
  }

  /** A query that has drawn at most a quantum, and cannot be held more of. */
  lemma OneQuantumKeeps(s: State, trace: seq<Action>, q: nat, unit: int)
    requires IsUnit(unit) && Start(s) && HonestRun(s, trace) && WholeUnits(trace, unit) && q in s.queries
    requires s.globalLimit < 2 * QUERY_RESERVE || s.queries[q].hardLimit < 2 * unit
    ensures var s', b := Run(s, trace), RunBooks(s, trace);
            && Steady(s', b, q) && Out(s', b, q) <= QUERY_RESERVE
            && (s.globalLimit < QUERY_RESERVE ==> Out(s', b, q) == 0)
            && At(b.held, q) <= s.queries[q].hardLimit && At(b.held, q) % unit == 0
  {
    if s.globalLimit < 2 * QUERY_RESERVE {
      ThinGlobal(s, trace, q);
    } else {
      ThinQuery(s, trace, q, unit);
      NoNegativePlans(Run(s, trace), q);
    }
    RunSafe(s, trace);
    HonestNatural(s, trace);
    LeaksNatural(s, trace, q);
    HeldWithin(Run(s, trace), RunBooks(s, trace), q);
    AlwaysInUnits(s, trace, q, unit);
  }

  lemma KeepsUnless(s: State, trace: seq<Action>, q: nat, unit: int)
    requires IsUnit(unit) && Start(s) && HonestRun(s, trace) && WholeUnits(trace, unit) && q in s.queries
    requires !CanDrop(s, q, unit)
    ensures !Drops(s, trace, q)
  {
    if |s.threads| <= 1 {
      HonestNatural(s, trace);
      OneThreadKeepsReserve(s, trace, q);
    } else {
      TwoUnits(unit);
      OneQuantumKeeps(s, trace, q, unit);
      MultipleBelow(At(RunBooks(s, trace).held, q), QUERY_RESERVE, unit);
      SteadyReserve(Run(s, trace), RunBooks(s, trace), q);
    }
  }

  /** When callers release no more than they hold, and hold, ask for and release whole units: the reserve
      can drop below zero exactly in this case. Calls of zero bytes make no difference. */
  lemma HonestDropsIff(s: State, q: nat, unit: int)
    requires IsUnit(unit) && Start(s) && q in s.queries
    ensures (exists trace :: HonestRun(s, trace) && WholeUnits(trace, unit) && Drops(s, trace, q)) <==> CanDrop(s, q, unit)
    ensures (exists trace :: HonestRun(s, trace) && Fair(trace, unit) && Drops(s, trace, q))
            <==> CanDrop(s, q, unit)
  {
    if CanDrop(s, q, unit) {
      var trace := DropsWhen(s, q, unit);
    } else {
      forall trace | HonestRun(s, trace) && WholeUnits(trace, unit) ensures !Drops(s, trace, q) {
        KeepsUnless(s, trace, q, unit);
      }
    }
  }

  /** Operators hold, ask for and give back multiples of 4096 bytes. */
  lemma OperatorCallsDropIff(s: State, q: nat)
    requires Start(s) && q in s.queries
    ensures (exists trace :: HonestRun(s, trace) && Fair(trace, OPERATOR_RESERVE) && Drops(s, trace, q)) <==>
              |s.threads| >= 2 && ((s.queries[q].hardLimit >= 69632 && s.globalLimit >= 65536)
                                   || (s.queries[q].hardLimit >= 8192 && s.globalLimit >= 131072))
  {
    HonestDropsIff(s, q, OPERATOR_RESERVE);
  }

  // ---- Above one quantum when all calls are over

  /** What one call has yet to take off the reserve again. */
  predicate Topped(pc: Pc, q: nat, reserve: int) {
    && reserve - (if pc != Idle && pc.q == q then Pull(pc) else 0) <= QUERY_RESERVE
    && ((pc.Drawing? || pc.GlobalCounted?) && pc.q == q ==> reserve <= QUERY_RESERVE)
  }

  predicate AllTopped(s: State, q: nat) {
    q in s.queries && forall t :: t in s.threads ==> Topped(s.threads[t], q, s.queries[q].reservation)
  }

  lemma OwnTopped(s: State, a: Action, q: nat)
    requires Enabled(s, a) && q in s.queries && Natural(a) && NaturalSizes(s)
    requires Topped(s.threads[a.t], q, s.queries[q].reservation)
    ensures var s' := Step(s, a); a.t in s'.threads && q in s'.queries && Topped(s'.threads[a.t], q, s'.queries[q].reservation)
  {
  }

  lemma StepTopped(s: State, a: Action, q: nat)
    requires |s.threads| <= 1 && AllTopped(s, q) && Natural(a) && NaturalSizes(s)
    ensures AllTopped(Step(s, a), q)
  {
    if Enabled(s, a) {
      StepKept(s, a);
      OwnTopped(s, a, q);
      assert |s.threads.Keys| == |s.threads|;
      forall t | t in s.threads ensures t == a.t {
        if t != a.t {
          SubsetSize({t, a.t}, s.threads.Keys);
        }
      }
    }
  }

  lemma {:induction false} OneThreadTopped(s: State, trace: seq<Action>, q: nat)
    requires Start(s) && AllNatural(trace) && q in s.queries && |s.threads| <= 1
    ensures AllTopped(Run(s, trace), q)
  {
    if trace != [] {
      var prefix := trace[..|trace| - 1];
      OneThreadTopped(s, prefix, q);
      RunNatural(s, prefix);
      ThreadsKept(s, prefix);
      assert |Run(s, prefix).threads| == |Run(s, prefix).threads.Keys|;
      StepTopped(Run(s, prefix), trace[|trace| - 1], q);
    }
  }

  /** The calls are over, and more than a quantum is left in the reserve. */
  ghost predicate Overflows(s: State, trace: seq<Action>, q: nat) {
    && Quiescent(Run(s, trace))
    && q in Run(s, trace).queries && Run(s, trace).queries[q].reservation > QUERY_RESERVE
  }

  lemma {:induction false} NoThreads(s: State, trace: seq<Action>)
    requires s.threads == map[]
    ensures Run(s, trace) == s
  {
    if trace != [] {
      NoThreads(s, trace[..|trace| - 1]);
    }
  }

  lemma OneThreadFits(s: State, trace: seq<Action>, q: nat)
    requires Start(s) && AllNatural(trace) && q in s.queries && |s.threads| <= 1
    ensures !Overflows(s, trace, q)
  {
    if s.threads == map[] {
      NoThreads(s, trace);
    } else {
      OneThreadTopped(s, trace, q);
      ThreadsKept(s, trace);
      var t :| t in s.threads;
      assert t in Run(s, trace).threads;
    }
  }

  predicate CanOverflow(s: State, q: nat, unit: int)
    requires q in s.queries
  {
    |s.threads| >= 2 && s.queries[q].hardLimit >= 2 * unit && s.globalLimit >= 2 * QUERY_RESERVE
  }

  lemma OverflowsWhen(s: State, q: nat, unit: int) returns (trace: seq<Action>)
    requires IsUnit(unit) && 2 * unit < QUERY_RESERVE && Start(s) && q in s.queries && CanOverflow(s, q, unit)
    ensures AllAcquires(trace, unit) && HonestRun(s, trace) && Overflows(s, trace, q)
  {
    var t, u := TwoThreads(s);
    trace := TwoDraws(t, u, q, unit);
    TwoDrawsHeld(s, t, u, q, unit);
    TwoDrawsAcquire(t, u, q, unit);
  }

  /** A reserve is left above one quantum exactly when two threads can each draw one, releases or not. */
  lemma OverflowsIff(s: State, q: nat, unit: int)
    requires IsUnit(unit) && 2 * unit < QUERY_RESERVE && Start(s) && q in s.queries
    ensures (exists trace :: AllAcquires(trace, unit) && Overflows(s, trace, q)) <==> CanOverflow(s, q, unit)
    ensures (exists trace :: HonestRun(s, trace) && WholeUnits(trace, unit) && Overflows(s, trace, q)) <==> CanOverflow(s, q, unit)
  {
    if CanOverflow(s, q, unit) {
      var trace := OverflowsWhen(s, q, unit);
    } else {
      forall trace | HonestRun(s, trace) && WholeUnits(trace, unit) ensures !Overflows(s, trace, q) {
        FitsUnless(s, trace, q, unit);
      }
      forall trace | AllAcquires(trace, unit) ensures !Overflows(s, trace, q) {
        AcquiresHonest(s, trace, unit);
      }
    }
  }

  lemma FitsUnless(s: State, trace: seq<Action>, q: nat, unit: int)
    requires IsUnit(unit) && Start(s) && HonestRun(s, trace) && WholeUnits(trace, unit) && q in s.queries
    requires !CanOverflow(s, q, unit)
    ensures !Overflows(s, trace, q)
  {
    if |s.threads| <= 1 {
      HonestNatural(s, trace);
      OneThreadFits(s, trace, q);
    } else {
      OneQuantumKeeps(s, trace, q, unit);
      SteadyReserve(Run(s, trace), RunBooks(s, trace), q);
    }
  }
}
