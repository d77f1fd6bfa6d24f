/** Callers that release no more than they hold: when concurrent calls push a query's reserve out of
    [0, 65536]. */
module MemoryHonest {
  import opened Arithmetic
  import opened MemorySpec
  import opened Sums
  import opened MemoryConcurrent
  import opened MemoryRaces

  // ---- Honest calls

  predicate Giving(pc: Pc) { pc.Returning? || pc.Returned? || pc.Freeing? }

  function Release1(pc: Pc, q: nat): int { if Giving(pc) && pc.q == q then pc.size else 0 }

  ghost function Releases(threads: map<nat, Pc>, q: nat): map<nat, int> { map t | t in threads :: Release1(threads[t], q) }

  /** What is held and not already being released. */
  ghost function Free(s: State, b: Books, q: nat): int { At(b.held, q) - Sum(Releases(s.threads, q)) }

  ghost predicate Honest(s: State, b: Books, a: Action) {
    Natural(a) && (a.BeginRelease? ==> a.size <= Free(s, b, a.q))
  }

  ghost predicate HonestRun(s: State, trace: seq<Action>) {
    trace == [] ||
    var prefix := trace[..|trace| - 1];
    HonestRun(s, prefix) && Honest(Run(s, prefix), RunBooks(s, prefix), trace[|trace| - 1])
  }

  lemma {:induction false} HonestNatural(s: State, trace: seq<Action>)
    requires HonestRun(s, trace)
    ensures AllNatural(trace)
  {
    if trace != [] {
      HonestNatural(s, trace[..|trace| - 1]);
      forall n | 0 <= n < |trace| ensures Natural(trace[n]) {
        assert n < |trace| - 1 ==> trace[n] == trace[..|trace| - 1][n];
      }
    }
  }

  lemma {:induction false} AcquiresHonest(s: State, trace: seq<Action>, unit: int)
    requires unit > 0 && AllAcquires(trace, unit)
    ensures HonestRun(s, trace)
  {
    if trace != [] {
      AcquiresHonest(s, trace[..|trace| - 1], unit);
    }
  }

  // ---- What one step does to a query's books

  /** What the query has drawn: its reserve, what callers hold, less what they have begun to release. */
  ghost function Out(s: State, b: Books, q: nat): int
    requires q in s.queries
  {
    s.queries[q].reservation + Free(s, b, q)
  }

  /** How a thread at this point changes `Out` with its next step. */
  function Push(pc: Pc, q: nat): int {
    if pc.Drawn? && pc.q == q then pc.draw else if pc.Returned? && pc.q == q then -pc.back else 0
  }

  lemma ReleasesChange(threads: map<nat, Pc>, threads': map<nat, Pc>, t: nat, q: nat)
    requires t in threads && t in threads' && threads - {t} == threads' - {t}
    ensures Sum(Releases(threads', q)) == Sum(Releases(threads, q)) - Release1(threads[t], q) + Release1(threads'[t], q)
  {
    ThreadsChange(threads, threads', t);
    assert Releases(threads, q) - {t} == Releases(threads', q) - {t};
    SumChange(Releases(threads, q), Releases(threads', q), t);
  }

  predicate BooksMove(s: State, a: Action, b: Books, s': State, b': Books, q: nat)
    requires Enabled(s, a) && a.t in s'.threads && q in s.queries && q in s'.queries
  {
    && s'.queries[q].reservation - s.queries[q].reservation
       == At(b.held, q) - At(b'.held, q) + Release1(s'.threads[a.t], q) - Release1(s.threads[a.t], q)
          + (if a.Advance? then Push(s.threads[a.t], q) else 0)
    && (At(b'.held, q) - At(b.held, q) >= Release1(s'.threads[a.t], q) - Release1(s.threads[a.t], q)
        || (a.BeginRelease? && a.q == q && At(b'.held, q) == At(b.held, q)
            && Release1(s'.threads[a.t], q) - Release1(s.threads[a.t], q) == a.size))
  }

  lemma StepBooks(s: State, a: Action, b: Books, q: nat)
    requires Enabled(s, a) && q in s.queries && NaturalSizes(s)
    requires a.t in Step(s, a).threads && q in Step(s, a).queries
    ensures BooksMove(s, a, b, Step(s, a), BooksStep(s, a, b), q)
  {
  }

  /** A step moves `Out` only when a draw arrives or a surplus leaves, and honesty is kept. */
  lemma StepOut(s: State, a: Action, b: Books, q: nat)
    requires Enabled(s, a) && q in s.queries && NaturalSizes(s)
    ensures var s', b' := Step(s, a), BooksStep(s, a, b);
            && q in s'.queries
            && Out(s', b', q) == Out(s, b, q) + (if a.Advance? then Push(s.threads[a.t], q) else 0)
            && (Free(s', b', q) >= Free(s, b, q) || (a.BeginRelease? && a.q == q && Free(s', b', q) == Free(s, b, q) - a.size))
  {
    StepFrame(s, a, b);
    ReleasesChange(s.threads, Step(s, a).threads, a.t, q);
    StepBooks(s, a, b, q);
  }

  /** No more is being released than is held. */
  lemma {:induction false} HonestFree(s: State, trace: seq<Action>, q: nat)
    requires Start(s) && HonestRun(s, trace) && q in s.queries
    ensures q in Run(s, trace).queries && Free(Run(s, trace), RunBooks(s, trace), q) >= 0
    ensures NaturalSizes(Run(s, trace))
  {
    HonestNatural(s, trace);
    RunNatural(s, trace);
    if trace == [] {
      SumBounds(Releases(s.threads, q), 0);
    } else {
      var prefix := trace[..|trace| - 1];
      HonestFree(s, prefix, q);
      var a, s1, b1 := trace[|trace| - 1], Run(s, prefix), RunBooks(s, prefix);
      if Enabled(s1, a) {
        StepOut(s1, a, b1, q);
      }
    }
  }

  // ---- No surplus, as long as a query has drawn at most one quantum

  predicate Keeps(pc: Pc, q: nat) { (pc.Returning? && pc.q == q ==> pc.back == 0) && !(pc.Returned? && pc.q == q) }

  /** No thread is giving anything of query `q` back to Global. */
  predicate NoReturn(s: State, q: nat) { forall t :: t in s.threads ==> Keeps(s.threads[t], q) }

  lemma OwnKeeps(s: State, a: Action, q: nat)
    requires Enabled(s, a) && q in s.queries && Keeps(s.threads[a.t], q)
    requires a.BeginRelease? && a.q == q ==> s.queries[q].reservation + a.size <= QUERY_RESERVE
    ensures a.t in Step(s, a).threads && Keeps(Step(s, a).threads[a.t], q)
  {
  }

  lemma StepNoReturn(s: State, a: Action, b: Books, q: nat)
    requires q in s.queries && NoReturn(s, q) && Out(s, b, q) <= QUERY_RESERVE && Honest(s, b, a)
    ensures NoReturn(Step(s, a), q)
  {
    if Enabled(s, a) {
      StepFrame(s, a, b);
      ThreadsChange(s.threads, Step(s, a).threads, a.t);
      OwnKeeps(s, a, q);
    }
  }

  /** Nothing has reached the query, and nobody is about to take from it. */
  ghost predicate Bare(s: State, b: Books, q: nat)
    requires q in s.queries
  {
    s.queries[q].reservation == 0 && At(b.held, q) == 0 && forall t :: t in s.threads ==> SettlesNothing(s.threads[t], q)
  }

  /** At least one quantum has reached the query, or nothing; and nothing leaves it. */
  ghost predicate Steady(s: State, b: Books, q: nat) {
    && q in s.queries && NaturalSizes(s) && Free(s, b, q) >= 0 && NoReturn(s, q)
    && (Out(s, b, q) >= QUERY_RESERVE || Bare(s, b, q))
  }

  /** The thread has decided on a draw that has yet to reach the reserve. */
  predicate Planning(pc: Pc) { pc.Drawing? || pc.GlobalCounted? || pc.Drawn? }

  predicate BigDraw(pc: Pc) {
    (Planning(pc) ==> pc.draw >= QUERY_RESERVE && pc.draw % QUERY_RESERVE == 0)
    && (pc.Returning? || pc.Returned? ==> pc.back % QUERY_RESERVE == 0)
  }

  predicate BigDraws(s: State) { forall t :: t in s.threads ==> BigDraw(s.threads[t]) }

  lemma OwnBigDraw(s: State, a: Action)
    requires Enabled(s, a) && BigDraw(s.threads[a.t])
    ensures a.t in Step(s, a).threads && BigDraw(Step(s, a).threads[a.t])
  {
    if a.Advance? && s.threads[a.t].Admitted? {
      var will := s.queries[s.threads[a.t].q].reservation - s.threads[a.t].size;
      if will < 0 {
        DrawQuantum(will);
      }
    }
  }

  lemma StepBigDraws(s: State, a: Action)
    requires BigDraws(s)
    ensures BigDraws(Step(s, a))
  {
    if Enabled(s, a) {
      StepFrame(s, a, Books(map[], map[]));
      ThreadsChange(s.threads, Step(s, a).threads, a.t);
      OwnBigDraw(s, a);
    }
  }

  lemma {:induction false} AlwaysBigDraws(s: State, trace: seq<Action>)
    requires Start(s)
    ensures BigDraws(Run(s, trace))
  {
    if trace != [] {
      AlwaysBigDraws(s, trace[..|trace| - 1]);
      StepBigDraws(Run(s, trace[..|trace| - 1]), trace[|trace| - 1]);
    }
  }

  lemma NoReleases(s: State, b: Books, q: nat)
    requires NaturalSizes(s) && Free(s, b, q) >= 0
    ensures 0 <= Sum(Releases(s.threads, q)) <= At(b.held, q)
  {
    NoNegativeDoom(Releases(s.threads, q));
  }

  /** A step on a query that has nothing leaves it with nothing, unless a draw arrives. */
  lemma StepBare(s: State, a: Action, b: Books, q: nat)
    requires Enabled(s, a) && Steady(s, b, q) && Bare(s, b, q) && Honest(s, b, a) && BigDraw(s.threads[a.t])
    requires SettlesNothing(s.threads[a.t], q)
    requires Release1(s.threads[a.t], q) == 0
    ensures var s', b' := Step(s, a), BooksStep(s, a, b);
            && q in s'.queries && a.t in s'.threads
            && ((a.Advance? && s.threads[a.t].Drawn? && s.threads[a.t].q == q)
                || (s'.queries[q].reservation == 0 && At(b'.held, q) == 0 && SettlesNothing(s'.threads[a.t], q)))
  {
    NoReleases(s, b, q);
    assert Keeps(s.threads[a.t], q);
  }

  lemma NothingReleased(s: State, b: Books, q: nat, t: nat)
    requires NaturalSizes(s) && Free(s, b, q) >= 0 && At(b.held, q) == 0 && t in s.threads
    ensures Release1(s.threads[t], q) == 0
  {
    var m := Releases(s.threads, q);
    SumTake(m, t);
    NoNegativeDoom(m - {t});
  }

  lemma StepSteady(s: State, a: Action, b: Books, q: nat)
    requires Steady(s, b, q) && Out(s, b, q) <= QUERY_RESERVE && Honest(s, b, a) && BigDraws(s)
    ensures Steady(Step(s, a), BooksStep(s, a, b), q)
  {
    StepNoReturn(s, a, b, q);
    if Enabled(s, a) {
      StepNatural(s, a);
      StepOut(s, a, b, q);
      assert BigDraw(s.threads[a.t]) && Keeps(s.threads[a.t], q);
      if Bare(s, b, q) {
        StepFrame(s, a, b);
        ThreadsChange(s.threads, Step(s, a).threads, a.t);
        assert SettlesNothing(s.threads[a.t], q);
        NothingReleased(s, b, q, a.t);
        StepBare(s, a, b, q);
        NoReleases(s, b, q);
      }
    }
  }

  /** A steady query that callers hold at most one quantum of has a reserve in [0, 65536]. */
  lemma SteadyReserve(s: State, b: Books, q: nat)
    requires Steady(s, b, q) && Out(s, b, q) <= QUERY_RESERVE
    ensures s.queries[q].reservation <= QUERY_RESERVE
    ensures At(b.held, q) <= QUERY_RESERVE || Out(s, b, q) < QUERY_RESERVE ==> s.queries[q].reservation >= 0
  {
    NoReleases(s, b, q);
  }

  // ---- Global's amount is what the queries have drawn, up to draws and returns in flight

  /** How far a thread has pushed Global away from what the queries have drawn. */
  function Debt(pc: Pc): int {
    if pc.GlobalCounted? || pc.Drawn? then pc.draw else if pc.Returned? then -pc.back else 0
  }

  ghost function Debts(threads: map<nat, Pc>): map<nat, int> { map t | t in threads :: Debt(threads[t]) }

  ghost function Outs(s: State, b: Books): map<nat, int> { map q | q in s.queries :: Out(s, b, q) }

  ghost predicate Pooled(s: State, b: Books) { s.global == Sum(Outs(s, b)) + Sum(Debts(s.threads)) }

  lemma StepDebt(s: State, a: Action)
    requires Enabled(s, a)
    ensures var s', q := Step(s, a), Target(s, a);
            && a.t in s'.threads && s'.globalLimit == s.globalLimit
            && s'.global - s.global == Debt(s'.threads[a.t]) - Debt(s.threads[a.t])
                                       + if a.Advance? then Push(s.threads[a.t], q) else 0
  {
  }

  lemma StepPooled(s: State, a: Action, b: Books)
    requires Pooled(s, b) && NaturalSizes(s)
    ensures Pooled(Step(s, a), BooksStep(s, a, b))
  {
    if Enabled(s, a) {
      var s', b', q := Step(s, a), BooksStep(s, a, b), Target(s, a);
      StepFrame(s, a, b);
      StepDebt(s, a);
      ThreadsChange(s.threads, s'.threads, a.t);
      assert Debts(s.threads) - {a.t} == Debts(s'.threads) - {a.t};
      SumChange(Debts(s.threads), Debts(s'.threads), a.t);
      OutsChange(s, a, b);
      StepOut(s, a, b, q);
      SumChange(Outs(s, b), Outs(s', b'), q);
    }
  }

  lemma OutsChange(s: State, a: Action, b: Books)
    requires Enabled(s, a) && NaturalSizes(s)
    ensures Outs(s, b) - {Target(s, a)} == Outs(Step(s, a), BooksStep(s, a, b)) - {Target(s, a)}
  {
    var s', b' := Step(s, a), BooksStep(s, a, b);
    StepFrame(s, a, b);
    forall k | k in s.queries && k != Target(s, a) ensures Out(s', b', k) == Out(s, b, k) {
      StepOut(s, a, b, k);
    }
  }

  // ---- A Global limit below two quanta

  /** Nothing goes back to Global, and every query has drawn whole quanta. */
  ghost predicate Thrifty(s: State, b: Books) {
    && NaturalSizes(s) && BigDraws(s) && Pooled(s, b)
    && forall q :: q in s.queries ==> ThriftyAt(s, b, q)
  }

  ghost predicate ThriftyAt(s: State, b: Books, q: nat)
    requires q in s.queries
  {
    Free(s, b, q) >= 0 && NoReturn(s, q) && Out(s, b, q) >= 0 && Out(s, b, q) % QUERY_RESERVE == 0
  }

  lemma {:induction false} EntryBelowSum(m: map<nat, int>, k: nat)
    requires k in m && forall j :: j in m ==> m[j] >= 0
    ensures m[k] <= Sum(m)
  {
    SumTake(m, k);
    NoNegativeDoom(m - {k});
  }

  lemma NotReturned(s: State, b: Books, t: nat)
    requires Thrifty(s, b) && Valid(s) && t in s.threads
    ensures !s.threads[t].Returned?
  {
    if s.threads[t] != Idle {
      assert ThriftyAt(s, b, s.threads[t].q);
    }
  }

  /** What passed Global's check is within its limit, so no query has drawn more. */
  lemma DrawnWithin(s: State, b: Books, q: nat)
    requires Thrifty(s, b) && GlobalSafe(s) && Valid(s) && q in s.queries
    ensures Out(s, b, q) <= s.globalLimit
  {
    DoomsBelowDebts(s, b);
    forall k | k in Outs(s, b) ensures Outs(s, b)[k] >= 0 {
      assert ThriftyAt(s, b, k);
    }
    EntryBelowSum(Outs(s, b), q);
  }

  lemma DoomsBelowDebts(s: State, b: Books)
    requires Thrifty(s, b) && Valid(s)
    ensures Sum(GlobalDooms(s.threads, s.globalLimit)) <= Sum(Debts(s.threads))
  {
    var debts, dooms := Debts(s.threads), GlobalDooms(s.threads, s.globalLimit);
    forall t | t in s.threads ensures debts[t] >= dooms[t] {
      assert BigDraw(s.threads[t]);
      NotReturned(s, b, t);
    }
    var rest := map t | t in s.threads :: debts[t] - dooms[t];
    SumSplit(debts, dooms, rest);
    NoNegativeDoom(rest);
  }

  lemma StepThriftyAt(s: State, a: Action, b: Books, q: nat)
    requires Thrifty(s, b) && q in s.queries && Out(s, b, q) <= QUERY_RESERVE && Honest(s, b, a) && Enabled(s, a)
    ensures q in Step(s, a).queries && ThriftyAt(Step(s, a), BooksStep(s, a, b), q)
  {
    assert ThriftyAt(s, b, q);
    StepNoReturn(s, a, b, q);
    StepOut(s, a, b, q);
    assert BigDraw(s.threads[a.t]) && Keeps(s.threads[a.t], q);
    if a.Advance? {
      MultipleAdd(Out(s, b, q), Push(s.threads[a.t], q), QUERY_RESERVE);
    }
  }

  lemma StepThrifty(s: State, a: Action, b: Books)
    requires Thrifty(s, b) && GlobalSafe(s) && Valid(s) && s.globalLimit < 2 * QUERY_RESERVE && Honest(s, b, a)
    ensures Thrifty(Step(s, a), BooksStep(s, a, b))
  {
    if Enabled(s, a) {
      StepFrame(s, a, b);
      StepNatural(s, a);
      StepBigDraws(s, a);
      StepPooled(s, a, b);
      forall q | q in s.queries ensures q in Step(s, a).queries && ThriftyAt(Step(s, a), BooksStep(s, a, b), q) {
        OneQuantum(s, b, q);
        StepThriftyAt(s, a, b, q);
      }
    }
  }

  lemma OneQuantum(s: State, b: Books, q: nat)
    requires Thrifty(s, b) && GlobalSafe(s) && Valid(s) && q in s.queries
    ensures s.globalLimit < 2 * QUERY_RESERVE ==> Out(s, b, q) <= QUERY_RESERVE
    ensures s.globalLimit < QUERY_RESERVE ==> Out(s, b, q) == 0
  {
    DrawnWithin(s, b, q);
    assert ThriftyAt(s, b, q);
    if Out(s, b, q) < 2 * QUERY_RESERVE {
      MultipleBelow(Out(s, b, q), QUERY_RESERVE, QUERY_RESERVE);
    }
    if Out(s, b, q) < QUERY_RESERVE {
      MultipleBelow(Out(s, b, q), 0, QUERY_RESERVE);
    }
  }

  lemma StartOut(s: State, b: Books, q: nat)
    requires Start(s) && b == Books(map[], map[]) && q in s.queries
    ensures Free(s, b, q) == 0 && Out(s, b, q) == 0 && NoReturn(s, q)
  {
    SumBounds(Releases(s.threads, q), 0);
  }

  lemma StartThrifty(s: State, b: Books)
    requires Start(s) && b == Books(map[], map[])
    ensures Thrifty(s, b)
  {
    forall q | q in s.queries ensures Out(s, b, q) == 0 && ThriftyAt(s, b, q) {
      StartOut(s, b, q);
    }
    SumBounds(Outs(s, b), 0);
    SumBounds(Debts(s.threads), 0);
  }

  lemma {:induction false} AlwaysThrifty(s: State, trace: seq<Action>)
    requires Start(s) && HonestRun(s, trace) && s.globalLimit < 2 * QUERY_RESERVE
    ensures Thrifty(Run(s, trace), RunBooks(s, trace))
  {
    if trace == [] {
      StartThrifty(s, RunBooks(s, []));
    } else {
      var prefix := trace[..|trace| - 1];
      AlwaysThrifty(s, prefix);
      RunSafe(s, prefix);
      StepThrifty(Run(s, prefix), trace[|trace| - 1], RunBooks(s, prefix));
    }
  }

  lemma RunSafe(s: State, trace: seq<Action>)
    requires Start(s) && HonestRun(s, trace)
    ensures var s', b := Run(s, trace), RunBooks(s, trace);
            Valid(s') && GlobalSafe(s') && NaturalSizes(s') && s'.globalLimit == s.globalLimit && s'.queries.Keys == s.queries.Keys
    ensures forall q :: q in s.queries ==>
              Run(s, trace).queries[q].hardLimit == s.queries[q].hardLimit
              && QuerySafe(Run(s, trace), q) && AmountExact(Run(s, trace), RunBooks(s, trace), q)
  {
    HonestNatural(s, trace);
    ExactAlways(s, trace);
    SafeAlways(s, trace);
    ThreadsKept(s, trace);
  }

  lemma StartSteady(s: State, b: Books, q: nat)
    requires Start(s) && b == Books(map[], map[]) && q in s.queries
    ensures Steady(s, b, q)
  {
    StartOut(s, b, q);
  }

  /** With Global below two quanta no query ever draws more than one. */
  lemma {:induction false} ThinGlobal(s: State, trace: seq<Action>, q: nat)
    requires Start(s) && HonestRun(s, trace) && q in s.queries && s.globalLimit < 2 * QUERY_RESERVE
    ensures var s', b := Run(s, trace), RunBooks(s, trace);
            Steady(s', b, q) && Out(s', b, q) <= QUERY_RESERVE && (s.globalLimit < QUERY_RESERVE ==> Out(s', b, q) == 0)
  {
    AlwaysThrifty(s, trace);
    RunSafe(s, trace);
    OneQuantum(Run(s, trace), RunBooks(s, trace), q);
    if trace == [] {
      StartSteady(s, RunBooks(s, []), q);
    } else {
      var prefix := trace[..|trace| - 1];
      ThinGlobal(s, prefix, q);
      AlwaysBigDraws(s, prefix);
      StepSteady(Run(s, prefix), trace[|trace| - 1], RunBooks(s, prefix), q);
    }
  }

  // ---- A query limit below two units

  function Plan(pc: Pc, q: nat): int { if Planning(pc) && pc.q == q then pc.draw else 0 }

  ghost function Plans(threads: map<nat, Pc>, q: nat): map<nat, int> { map t | t in threads :: Plan(threads[t], q) }

  predicate Wants(pc: Pc, q: nat) { Planning(pc) && pc.q == q ==> pc.size > 0 }

  /** What has been drawn and what is decided come to at most one quantum. */
  ghost predicate Tight(s: State, b: Books, q: nat) {
    && Steady(s, b, q) && BigDraws(s)
    && Out(s, b, q) + Sum(Plans(s.threads, q)) <= QUERY_RESERVE
    && forall t :: t in s.threads ==> Wants(s.threads[t], q)
  }

  predicate Deciding(s: State, a: Action, q: nat) {
    && Enabled(s, a) && a.Advance? && s.threads[a.t].Admitted? && s.threads[a.t].q == q
    && q in s.queries && s.queries[q].reservation < s.threads[a.t].size
  }

  /** Only a decision to draw adds to what is drawn and decided. */
  lemma StepPlan(s: State, a: Action, q: nat)
    requires Enabled(s, a) && q in s.queries && BigDraw(s.threads[a.t]) && Keeps(s.threads[a.t], q) && Wants(s.threads[a.t], q)
    ensures var s' := Step(s, a);
            var grown := Plan(s'.threads[a.t], q) - Plan(s.threads[a.t], q) + if a.Advance? then Push(s.threads[a.t], q) else 0;
            && a.t in s'.threads
            && (grown <= 0 || (Deciding(s, a, q) && grown == Draw(s.queries[q].reservation - s.threads[a.t].size, QUERY_RESERVE)))
            && (s.queries[q].reservation >= 0 ==> Wants(s'.threads[a.t], q))
  {
  }

  lemma PlansChange(threads: map<nat, Pc>, threads': map<nat, Pc>, t: nat, q: nat)
    requires t in threads && t in threads' && threads - {t} == threads' - {t}
    ensures Sum(Plans(threads', q)) == Sum(Plans(threads, q)) - Plan(threads[t], q) + Plan(threads'[t], q)
  {
    ThreadsChange(threads, threads', t);
    assert Plans(threads, q) - {t} == Plans(threads', q) - {t};
    SumChange(Plans(threads, q), Plans(threads', q), t);
  }

  lemma {:induction false} TwoBelowSum(m: map<nat, int>, t: nat, u: nat)
    requires t in m && u in m && t != u && forall j :: j in m ==> m[j] >= 0
    ensures m[t] + m[u] <= Sum(m)
  {
    SumTake(m, t);
    EntryBelowSum(m - {t}, u);
  }

  function Seat(pc: Pc, q: nat): int { if (Planning(pc) || pc.Admitted?) && pc.q == q then pc.size else 0 }

  ghost function Seats(threads: map<nat, Pc>, q: nat): map<nat, int> { map t | t in threads :: Seat(threads[t], q) }

  /** What callers hold and what passed the query's check are within its limit. */
  lemma SeatsWithin(s: State, b: Books, q: nat)
    requires q in s.queries && AmountExact(s, b, q) && QuerySafe(s, q) && NaturalSizes(s) && At(b.leaked, q) >= 0
    ensures At(b.held, q) + Sum(Seats(s.threads, q)) <= s.queries[q].hardLimit
  {
    var limit := s.queries[q].hardLimit;
    var fixes, dooms, seats := AmountFixes(s.threads, q), Dooms(s.threads, q, limit), Seats(s.threads, q);
    var rest := map u | u in s.threads :: fixes[u] - dooms[u];
    var more := map u | u in s.threads :: rest[u] - seats[u];
    SumSplit(fixes, dooms, rest);
    SumSplit(rest, seats, more);
    NoNegativeDoom(more);
  }

  /** Below two units an admitted acquire of a unit is alone: nothing is held, nobody else draws. */
  lemma AloneUnderLimit(s: State, b: Books, q: nat, t: nat, unit: int)
    requires q in s.queries && NaturalSizes(s) && unit > 0 && InUnits(s, b, q, unit)
    requires At(b.held, q) >= 0 && At(b.held, q) + Sum(Seats(s.threads, q)) < 2 * unit
    requires t in s.threads && s.threads[t].Admitted? && s.threads[t].q == q && s.threads[t].size > 0
    requires forall u :: u in s.threads ==> Wants(s.threads[u], q)
    ensures unit <= s.threads[t].size < 2 * unit && At(b.held, q) == 0
    ensures forall u :: u in s.threads ==> Plan(s.threads[u], q) == 0
  {
    var seats := Seats(s.threads, q);
    EntryBelowSum(seats, t);
    MultipleBelow(unit, s.threads[t].size, unit);
    MultipleBelow(At(b.held, q), 0, unit);
    forall u | u in s.threads ensures Plan(s.threads[u], q) == 0 {
      if Planning(s.threads[u]) && s.threads[u].q == q {
        MultipleBelow(unit, s.threads[u].size, unit);
        TwoBelowSum(seats, t, u);
      }
    }
  }

  /** A decision to draw, under a limit below two units. */
  lemma DecidesAlone(s: State, a: Action, b: Books, q: nat, unit: int)
    requires Tight(s, b, q) && Deciding(s, a, q) && SmallLimit(s, b, q, unit)
    requires s.queries[q].reservation >= 0
    ensures Out(s, b, q) + Sum(Plans(s.threads, q)) + Draw(s.queries[q].reservation - s.threads[a.t].size, QUERY_RESERVE)
            <= QUERY_RESERVE
  {
    NoReleases(s, b, q);
    SeatsWithin(s, b, q);
    AloneUnderLimit(s, b, q, a.t, unit);
    SumBounds(Plans(s.threads, q), 0);
    TwoUnits(unit);
    NothingDrawn(s, b, q);
    DrawUnique(-s.threads[a.t].size, QUERY_RESERVE, 1);
  }

  lemma NothingDrawn(s: State, b: Books, q: nat)
    requires Steady(s, b, q) && At(b.held, q) == 0 && s.queries[q].reservation < QUERY_RESERVE
    ensures Out(s, b, q) == s.queries[q].reservation == 0
  {
    NoReleases(s, b, q);
  }

  /** Two units fit into a quantum. */
  lemma TwoUnits(unit: int)
    requires IsUnit(unit)
    ensures 2 * unit <= QUERY_RESERVE
  {
    if 2 * unit > QUERY_RESERVE {
      MultipleBelow(QUERY_RESERVE, unit, unit);
    }
  }

  ghost predicate SmallLimit(s: State, b: Books, q: nat, unit: int) {
    && IsUnit(unit) && InUnits(s, b, q, unit) && q in s.queries && AmountExact(s, b, q) && QuerySafe(s, q)
    && At(b.leaked, q) >= 0 && s.queries[q].hardLimit < 2 * unit
  }

  lemma StepTight(s: State, a: Action, b: Books, q: nat, unit: int)
    requires Tight(s, b, q) && SmallLimit(s, b, q, unit) && Honest(s, b, a)
    ensures Tight(Step(s, a), BooksStep(s, a, b), q)
  {
    NoNegativePlans(s, q);
    StepSteady(s, a, b, q);
    StepBigDraws(s, a);
    HeldWithin(s, b, q);
    TwoUnits(unit);
    SteadyReserve(s, b, q);
    StepWants(s, a, q);
    if Enabled(s, a) {
      TightTotal(s, a, b, q, unit);
    }
  }

  lemma StepWants(s: State, a: Action, q: nat)
    requires q in s.queries && BigDraws(s) && NoReturn(s, q) && s.queries[q].reservation >= 0
    requires forall t :: t in s.threads ==> Wants(s.threads[t], q)
    ensures forall t :: t in Step(s, a).threads ==> Wants(Step(s, a).threads[t], q)
  {
    if Enabled(s, a) {
      StepFrame(s, a, Books(map[], map[]));
      ThreadsChange(s.threads, Step(s, a).threads, a.t);
      assert BigDraw(s.threads[a.t]) && Keeps(s.threads[a.t], q) && Wants(s.threads[a.t], q);
      StepPlan(s, a, q);
    }
  }

  lemma NoNegativePlans(s: State, q: nat)
    requires BigDraws(s)
    ensures Sum(Plans(s.threads, q)) >= 0
  {
    forall t | t in s.threads ensures Plans(s.threads, q)[t] >= 0 {
      assert BigDraw(s.threads[t]);
    }
    NoNegativeDoom(Plans(s.threads, q));
  }

  lemma TightTotal(s: State, a: Action, b: Books, q: nat, unit: int)
    requires Tight(s, b, q) && SmallLimit(s, b, q, unit) && Honest(s, b, a) && Enabled(s, a)
    requires s.queries[q].reservation >= 0
    ensures q in Step(s, a).queries
    ensures Out(Step(s, a), BooksStep(s, a, b), q) + Sum(Plans(Step(s, a).threads, q)) <= QUERY_RESERVE
  {
    StepFrame(s, a, b);
    assert BigDraw(s.threads[a.t]) && Keeps(s.threads[a.t], q) && Wants(s.threads[a.t], q);
    StepPlan(s, a, q);
    StepOut(s, a, b, q);
    PlansChange(s.threads, Step(s, a).threads, a.t, q);
    if Deciding(s, a, q) {
      DecidesAlone(s, a, b, q, unit);
    }
  }

  lemma StartTight(s: State, b: Books, q: nat)
    requires Start(s) && b == Books(map[], map[]) && q in s.queries
    ensures Tight(s, b, q)
  {
    StartSteady(s, b, q);
    StartOut(s, b, q);
    SumBounds(Plans(s.threads, q), 0);
  }

  /** With a limit below two units a query never draws more than one quantum. */
  lemma {:induction false} ThinQuery(s: State, trace: seq<Action>, q: nat, unit: int)
    requires Start(s) && HonestRun(s, trace) && IsUnit(unit) && WholeUnits(trace, unit)
    requires q in s.queries && s.queries[q].hardLimit < 2 * unit
    ensures Tight(Run(s, trace), RunBooks(s, trace), q)
  {
    if trace == [] {
      StartTight(s, RunBooks(s, []), q);
    } else {
      var prefix := trace[..|trace| - 1];
      ThinQuery(s, prefix, q, unit);
      AlwaysInUnits(s, prefix, q, unit);
      RunSafe(s, prefix);
      HonestNatural(s, prefix);
      LeaksNatural(s, prefix, q);
      StepTight(Run(s, prefix), trace[|trace| - 1], RunBooks(s, prefix), q, unit);
    }
  }
}
