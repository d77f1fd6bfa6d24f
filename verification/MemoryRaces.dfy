/** When concurrent calls keep a query's reserve, which unlike its amount no check protects, at zero or above. */
module MemoryRaces {
  import opened Arithmetic
  import opened MemorySpec
  import opened Sums
  import opened MemoryConcurrent

  // ---- Calls that do not overlap keep the reserve

  /** The thread has read the reserve of `q` and has yet to subtract from it. */
  predicate Open(pc: Pc, q: nat) {
    && pc != Idle && pc.q == q
    && (pc.Drawing? || pc.GlobalCounted? || pc.Drawn? || pc.Settling? || (pc.Returning? && pc.back > 0) || pc.Returned?)
  }

  /** At most one thread is between its read and its subtraction. */
  predicate Alone(s: State, q: nat) {
    forall t, u :: t in s.threads && u in s.threads && Open(s.threads[t], q) && Open(s.threads[u], q) ==> t == u
  }

  /** How far the thread is yet to lower the reserve. */
  function Pull(pc: Pc): int {
    match pc
    case Drawing(_, size, draw) => size - draw
    case GlobalCounted(_, size, draw, _) => size - draw
    case Drawn(_, size, draw) => size - draw
    case Settling(_, size) => size
    case Returning(_, _, back) => back
    case Returned(_, _, back) => back
    case _ => 0
  }

  predicate Covered(s: State, q: nat) {
    && q in s.queries && s.queries[q].reservation >= 0
    && forall t :: t in s.threads && s.threads[t] != Idle && s.threads[t].q == q ==>
         s.queries[q].reservation >= Pull(s.threads[t])
  }

  predicate Natural(a: Action) { !a.Advance? ==> a.size >= 0 }

  ghost predicate AllNatural(trace: seq<Action>) { forall n :: 0 <= n < |trace| ==> Natural(trace[n]) }

  lemma OwnPull(s: State, a: Action)
    requires NaturalSizes(s) && Natural(a) && Enabled(s, a) && Covered(s, Target(s, a))
    ensures var s', q := Step(s, a), Target(s, a);
            && q in s'.queries && s'.queries[q].reservation >= 0
            && (s'.threads[a.t] != Idle ==> s'.threads[a.t].q == q && s'.queries[q].reservation >= Pull(s'.threads[a.t]))
            && (s'.queries[q].reservation < s.queries[q].reservation ==> Open(s.threads[a.t], q))
  {
  }

  lemma StepCovered(s: State, a: Action, q: nat)
    requires NaturalSizes(s) && Natural(a) && Covered(s, q) && Alone(s, q)
    ensures Covered(Step(s, a), q)
  {
    if Enabled(s, a) {
      StepFrame(s, a, Books(map[], map[]));
      ThreadsChange(s.threads, Step(s, a).threads, a.t);
      if Target(s, a) == q {
        OwnPull(s, a);
        OthersPull(s, a, Step(s, a));
      } else {
        SameQuery(s.queries, Step(s, a).queries, Target(s, a), q);
      }
    }
  }

  lemma SameQuery(queries: map<nat, Cell>, queries': map<nat, Cell>, k: nat, q: nat)
    requires queries - {k} == queries' - {k} && q != k && q in queries
    ensures q in queries' && queries'[q] == queries[q]
  {
    assert q in queries - {k} && q in queries' - {k};
  }

  /** Only an open thread lowers the reserve, and then no other thread is open. */
  lemma OthersPull(s: State, a: Action, s': State)
    requires NaturalSizes(s) && Enabled(s, a) && Covered(s, Target(s, a)) && Alone(s, Target(s, a))
    requires s'.threads.Keys == s.threads.Keys && Target(s, a) in s'.queries
    requires forall u :: u in s.threads && u != a.t ==> s'.threads[u] == s.threads[u]
    requires s'.queries[Target(s, a)].reservation >= 0
    requires s'.queries[Target(s, a)].reservation < s.queries[Target(s, a)].reservation ==> Open(s.threads[a.t], Target(s, a))
    ensures forall u :: u in s.threads && u != a.t && s.threads[u] != Idle && s.threads[u].q == Target(s, a) ==>
              s'.queries[Target(s, a)].reservation >= Pull(s.threads[u])
  {
    forall u | u in s.threads && u != a.t && s.threads[u] != Idle && s.threads[u].q == Target(s, a)
      ensures s'.queries[Target(s, a)].reservation >= Pull(s.threads[u])
    {
      if Open(s.threads[a.t], Target(s, a)) {
        assert !Open(s.threads[u], Target(s, a));
      }
    }
  }

  lemma {:induction false} RunNatural(s: State, trace: seq<Action>)
    requires Start(s) && AllNatural(trace)
    ensures NaturalSizes(Run(s, trace))
  {
    if trace != [] {
      RunNatural(s, trace[..|trace| - 1]);
      var s1, a := Run(s, trace[..|trace| - 1]), trace[|trace| - 1];
      if Enabled(s1, a) {
        StepNatural(s1, a);
      }
    }
  }

  /** If at no moment two threads stand between their read and their subtraction on a query, its reserve
      never drops below zero, whatever other threads and queries do. */
  lemma {:induction false} AloneKeepsReserve(s: State, trace: seq<Action>, q: nat)
    requires Start(s) && AllNatural(trace) && q in s.queries
    requires forall n | 0 <= n < |trace| :: Alone(Run(s, trace[..n]), q)
    ensures Covered(Run(s, trace), q)
  {
    if trace != [] {
      var prefix := trace[..|trace| - 1];
      forall n | 0 <= n < |prefix| ensures Alone(Run(s, prefix[..n]), q) {
        assert prefix[..n] == trace[..n];
      }
      AloneKeepsReserve(s, prefix, q);
      RunNatural(s, prefix);
      StepCovered(Run(s, prefix), trace[|trace| - 1], q);
    }
  }

  // ---- Two threads and enough memory

  lemma {:induction false} RunConcat(s: State, a: seq<Action>, b: seq<Action>)
    ensures Run(s, a + b) == Run(Run(s, a), b)
  {
    if b == [] {
      assert a + b == a;
    } else {
      RunConcat(s, a, b[..|b| - 1]);
      assert (a + b)[..|a + b| - 1] == a + b[..|b| - 1];
    }
  }

  lemma RunTwo(s: State, a: Action, b: Action)
    ensures Run(s, [a, b]) == Step(Step(s, a), b)
  {
    assert [a, b][..1] == [a] && [a][..0] == [];
    assert Run(s, [a]) == Step(Run(s, []), a);
  }

  lemma RunOne(s: State, a: Action)
    ensures Run(s, [a]) == Step(s, a)
  {
    assert [a][..0] == [];
  }

  lemma RunFour(s: State, a: seq<Action>, b: seq<Action>, c: seq<Action>, d: seq<Action>)
    ensures Run(s, a + (b + (c + d))) == Run(Run(Run(Run(s, a), b), c), d)
  {
    RunConcat(s, a, b + (c + d));
    RunConcat(Run(s, a), b, c + d);
    RunConcat(Run(Run(s, a), b), c, d);
  }

  function Both(s: State, t: nat, u: nat): State { Step(Step(s, Advance(t)), Advance(u)) }

  /** A whole acquire that draws from Global, by a thread that nobody interrupts. */
  function DrawingAcquire(t: nat, q: nat, size: int): seq<Action> {
    var two := [Advance(t), Advance(t)];
    [BeginAcquire(t, q, size), Advance(t)] + (two + (two + [Advance(t)]))
  }

  lemma RunDrawingAcquire(s: State, t: nat, q: nat, size: int)
    ensures Run(s, DrawingAcquire(t, q, size))
         == Step(Both(Both(Step(Step(s, BeginAcquire(t, q, size)), Advance(t)), t, t), t, t), Advance(t))
  {
    var two := [Advance(t), Advance(t)];
    RunFour(s, [BeginAcquire(t, q, size), Advance(t)], two, two, [Advance(t)]);
    RunTwo(s, BeginAcquire(t, q, size), Advance(t));
    var s1 := Step(Step(s, BeginAcquire(t, q, size)), Advance(t));
    RunTwo(s1, Advance(t), Advance(t));
    RunTwo(Both(s1, t, t), Advance(t), Advance(t));
    RunOne(Both(Both(s1, t, t), t, t), Advance(t));
  }

  /** Two acquires that take every step side by side. */
  function SideBySide(t: nat, u: nat, q: nat, size: int): seq<Action> {
    var both := [Advance(t), Advance(u)];
    [BeginAcquire(t, q, size), BeginAcquire(u, q, size)] + (both + (both + both))
  }

  lemma RunSideBySide(s: State, t: nat, u: nat, q: nat, size: int)
    ensures Run(s, SideBySide(t, u, q, size))
         == Both(Both(Both(Step(Step(s, BeginAcquire(t, q, size)), BeginAcquire(u, q, size)), t, u), t, u), t, u)
  {
    var both := [Advance(t), Advance(u)];
    RunFour(s, [BeginAcquire(t, q, size), BeginAcquire(u, q, size)], both, both, both);
    RunTwo(s, BeginAcquire(t, q, size), BeginAcquire(u, q, size));
    var s1 := Step(Step(s, BeginAcquire(t, q, size)), BeginAcquire(u, q, size));
    RunTwo(s1, Advance(t), Advance(u));
    RunTwo(Both(s1, t, u), Advance(t), Advance(u));
    RunTwo(Both(Both(s1, t, u), t, u), Advance(t), Advance(u));
  }

  lemma Admission(s: State, t: nat, q: nat, size: int)
    requires t in s.threads && s.threads[t] == Idle && q in s.queries
    requires s.queries[q].amount + size <= s.queries[q].hardLimit
    ensures Step(Step(s, BeginAcquire(t, q, size)), Advance(t)) == At1(PutAmount(s, q, size), t, Admitted(q, size))
  {
  }

  lemma DrawNow(s: State, t: nat, q: nat, size: int, draw: int)
    requires t in s.threads && q in s.queries && s.threads[t] == Admitted(q, size)
    requires draw == Draw(s.queries[q].reservation - size, QUERY_RESERVE) > 0
    ensures Both(s, t, t) == At1(s.(global := s.global + draw), t, GlobalCounted(q, size, draw, s.global + draw))
  {
  }

  lemma ReserveNow(s: State, t: nat, q: nat, size: int, draw: int)
    requires t in s.threads && q in s.queries && s.threads[t] == GlobalCounted(q, size, draw, s.global)
    requires s.global <= s.globalLimit
    ensures Both(s, t, t) == At1(PutReserve(s, q, draw), t, Settling(q, size))
  {
  }

  lemma SettleNow(s: State, t: nat, q: nat, size: int)
    requires t in s.threads && q in s.queries && s.threads[t] == Settling(q, size)
    ensures Step(s, Advance(t)) == At1(PutReserve(s, q, -size), t, Idle)
  {
  }

  lemma AcquireAlone(s: State, t: nat, q: nat, size: int)
    requires t in s.threads && s.threads[t] == Idle && q in s.queries
    requires s.queries[q].amount + size <= s.queries[q].hardLimit && s.queries[q].reservation < size
    requires s.global + Draw(s.queries[q].reservation - size, QUERY_RESERVE) <= s.globalLimit
    ensures var s' := Run(s, DrawingAcquire(t, q, size));
            && s'.threads == s.threads && q in s'.queries && s'.queries[q].hardLimit == s.queries[q].hardLimit
            && s'.queries[q].amount == s.queries[q].amount + size
            && s'.queries[q].reservation == s.queries[q].reservation + Draw(s.queries[q].reservation - size, QUERY_RESERVE) - size
  {
    var draw := Draw(s.queries[q].reservation - size, QUERY_RESERVE);
    RunDrawingAcquire(s, t, q, size);
    Admission(s, t, q, size);
    var s1 := Step(Step(s, BeginAcquire(t, q, size)), Advance(t));
    DrawNow(s1, t, q, size, draw);
    ReserveNow(Both(s1, t, t), t, q, size, draw);
    SettleNow(Both(Both(s1, t, t), t, t), t, q, size);
  }

  lemma BothAdmitted(s: State, t: nat, u: nat, q: nat, size: int)
    requires t in s.threads && u in s.threads && t != u && s.threads[t] == s.threads[u] == Idle
    requires q in s.queries && s.queries[q].amount + 2 * size <= s.queries[q].hardLimit && size >= 0
    ensures var s' := Both(Step(Step(s, BeginAcquire(t, q, size)), BeginAcquire(u, q, size)), t, u);
            s' == PutAmount(s, q, 2 * size).(threads := s.threads[t := Admitted(q, size)][u := Admitted(q, size)])
  {
  }

  lemma BothSettling(s: State, t: nat, u: nat, q: nat, size: int)
    requires t in s.threads && u in s.threads && t != u && q in s.queries
    requires s.threads[t] == s.threads[u] == Admitted(q, size) && size <= s.queries[q].reservation
    ensures Both(s, t, u) == s.(threads := s.threads[t := Settling(q, size)][u := Settling(q, size)])
  {
  }

  lemma BothDone(s: State, t: nat, u: nat, q: nat, size: int)
    requires t in s.threads && u in s.threads && t != u && q in s.queries
    requires s.threads[t] == s.threads[u] == Settling(q, size)
    ensures Both(s, t, u) == PutReserve(s, q, -2 * size).(threads := s.threads[t := Idle][u := Idle])
  {
  }

  /** Two threads that load the same reserve both take from it. */
  lemma RacedReserve(s: State, t: nat, u: nat, q: nat, size: int)
    requires t in s.threads && u in s.threads && t != u && s.threads[t] == s.threads[u] == Idle
    requires q in s.queries && s.queries[q].amount + 2 * size <= s.queries[q].hardLimit
    requires 0 < size <= s.queries[q].reservation < 2 * size
    ensures var s' := Run(s, SideBySide(t, u, q, size));
            && s'.threads == s.threads && s'.global == s.global
            && q in s'.queries && s'.queries[q].reservation == s.queries[q].reservation - 2 * size < 0
  {
    RunSideBySide(s, t, u, q, size);
    BothAdmitted(s, t, u, q, size);
    var s1 := PutAmount(s, q, 2 * size).(threads := s.threads[t := Admitted(q, size)][u := Admitted(q, size)]);
    BothSettling(s1, t, u, q, size);
    BothDone(s1.(threads := s1.threads[t := Settling(q, size)][u := Settling(q, size)]), t, u, q, size);
    assert s.threads[t := Idle][u := Idle] == s.threads;
  }

  /** Sizes that callers ask for: multiples of a unit that divides the quantum. One byte in general; an
      operator's own quantum for what operators draw. */
  predicate IsUnit(unit: int) { 0 < unit < QUERY_RESERVE && QUERY_RESERVE % unit == 0 }

  /** From the start: one thread draws a quantum and takes all of it but one unit, then two threads at
      once take the last unit. */
  function RacedTrace(t: nat, u: nat, q: nat, unit: int): seq<Action> {
    DrawingAcquire(t, q, QUERY_RESERVE - unit) + SideBySide(t, u, q, unit)
  }

  lemma RaceFromStart(s: State, t: nat, u: nat, q: nat, unit: int)
    requires Start(s) && t in s.threads && u in s.threads && t != u && q in s.queries && 0 < unit < QUERY_RESERVE
    requires s.queries[q].hardLimit >= QUERY_RESERVE + unit && s.globalLimit >= QUERY_RESERVE
    ensures var s' := Run(s, RacedTrace(t, u, q, unit));
            Quiescent(s') && q in s'.queries && s'.queries[q].reservation == -unit
  {
    var size := QUERY_RESERVE - unit;
    DrawUnique(-size, QUERY_RESERVE, 1);
    AcquireAlone(s, t, q, size);
    RacedReserve(Run(s, DrawingAcquire(t, q, size)), t, u, q, unit);
    RunConcat(s, DrawingAcquire(t, q, size), SideBySide(t, u, q, unit));
  }

  lemma RacedTraceAcquires(t: nat, u: nat, q: nat, unit: int)
    requires IsUnit(unit)
    ensures AllAcquires(RacedTrace(t, u, q, unit), unit)
  {
    MultipleAdd(QUERY_RESERVE, unit, unit);
  }

  // ---- One thread, or too little memory

  lemma OneThreadAlone(s: State, q: nat)
    requires |s.threads| <= 1
    ensures Alone(s, q)
  {
    forall t, u | t in s.threads && u in s.threads ensures t == u {
      if t != u {
        assert {t, u} <= s.threads.Keys;
        SubsetSize({t, u}, s.threads.Keys);
      }
    }
  }

  lemma {:induction false} SubsetSize(a: set<nat>, b: set<nat>)
    requires a <= b
    ensures |a| <= |b|
  {
    assert b == a + (b - a);
  }

  lemma StepKept(s: State, a: Action)
    ensures Step(s, a).threads.Keys == s.threads.Keys && Step(s, a).queries.Keys == s.queries.Keys
    ensures Step(s, a).globalLimit == s.globalLimit
    ensures forall q :: q in s.queries ==> Step(s, a).queries[q].hardLimit == s.queries[q].hardLimit
  {
    if Enabled(s, a) {
      StepFrame(s, a, Books(map[], map[]));
      forall q | q in s.queries ensures Step(s, a).queries[q].hardLimit == s.queries[q].hardLimit {
        if q != Target(s, a) {
          SameQuery(s.queries, Step(s, a).queries, Target(s, a), q);
        }
      }
    }
  }

  lemma {:induction false} ThreadsKept(s: State, trace: seq<Action>)
    ensures Run(s, trace).threads.Keys == s.threads.Keys && Run(s, trace).queries.Keys == s.queries.Keys
    ensures Run(s, trace).globalLimit == s.globalLimit
    ensures forall q :: q in s.queries ==> Run(s, trace).queries[q].hardLimit == s.queries[q].hardLimit
  {
    if trace != [] {
      ThreadsKept(s, trace[..|trace| - 1]);
      StepKept(Run(s, trace[..|trace| - 1]), trace[|trace| - 1]);
    }
  }

  /** One thread keeps every reserve at zero or above, whatever it acquires and releases. */
  lemma OneThreadKeepsReserve(s: State, trace: seq<Action>, q: nat)
    requires Start(s) && AllNatural(trace) && q in s.queries && |s.threads| <= 1
    ensures q in Run(s, trace).queries && Run(s, trace).queries[q].reservation >= 0
  {
    forall n | 0 <= n < |trace| ensures Alone(Run(s, trace[..n]), q) {
      ThreadsKept(s, trace[..n]);
      assert |Run(s, trace[..n]).threads| == |Run(s, trace[..n]).threads.Keys|;
      OneThreadAlone(Run(s, trace[..n]), q);
    }
    AloneKeepsReserve(s, trace, q);
  }

  /** Threads that only acquire, and never draw less than a quantum. */
  predicate Drawers(s: State) {
    forall t :: t in s.threads ==> IsDrawer(s.threads[t])
  }

  predicate IsDrawer(pc: Pc) {
    && !pc.Returning? && !pc.Returned? && !pc.Freeing?
    && (pc.Drawing? || pc.GlobalCounted? || pc.Drawn? ==> pc.draw >= QUERY_RESERVE)
  }

  predicate SettlesNothing(pc: Pc, q: nat) { pc.Settling? && pc.q == q ==> pc.size <= 0 }

  /** Nothing has reached the query's reserve, and nobody is about to take from it. */
  predicate Empty(s: State, b: Books, q: nat)
    requires q in s.queries
  {
    && s.queries[q].reservation == 0 && At(b.held, q) == 0
    && forall t :: t in s.threads ==> SettlesNothing(s.threads[t], q)
  }

  /** At least one quantum has reached the query, or nothing. */
  predicate Grown(s: State, b: Books, q: nat) {
    q in s.queries && (s.queries[q].reservation + At(b.held, q) >= QUERY_RESERVE || Empty(s, b, q))
  }

  predicate Acquires(a: Action) { !a.BeginRelease? && Natural(a) }

  /** All calls are for whole units. */
  ghost predicate WholeUnits(trace: seq<Action>, unit: int)
    requires unit > 0
  {
    forall n :: 0 <= n < |trace| ==> trace[n].Advance? || trace[n].size % unit == 0
  }

  /** Acquires only, of whole units. */
  ghost predicate AllAcquires(trace: seq<Action>, unit: int)
    requires unit > 0
  {
    WholeUnits(trace, unit) && forall n :: 0 <= n < |trace| ==> Acquires(trace[n])
  }

  lemma DrawQuantum(will: int)
    requires will < 0
    ensures Draw(will, QUERY_RESERVE) >= QUERY_RESERVE
  {
    var d := Draw(will, QUERY_RESERVE);
    if d < QUERY_RESERVE {
      MultipleUnique(d, 0, QUERY_RESERVE);
    }
  }

  lemma StepDrawers(s: State, a: Action)
    requires Drawers(s) && Acquires(a)
    ensures Drawers(Step(s, a))
  {
    if Enabled(s, a) {
      StepFrame(s, a, Books(map[], map[]));
      ThreadsChange(s.threads, Step(s, a).threads, a.t);
      if a.Advance? && s.threads[a.t].Admitted? {
        var will := s.queries[s.threads[a.t].q].reservation - s.threads[a.t].size;
        if will < 0 {
          DrawQuantum(will);
        }
      }
      assert IsDrawer(s.threads[a.t]);
      assert IsDrawer(Step(s, a).threads[a.t]);
    }
  }

  /** What one step does to the reserve and to what callers hold. */
  lemma StepGrowth(s: State, a: Action, b: Books, q: nat)
    requires Drawers(s) && NaturalSizes(s) && Acquires(a) && Enabled(s, a) && q in s.queries && IsDrawer(s.threads[a.t])
    ensures var s', b' := Step(s, a), BooksStep(s, a, b);
            var grown := s'.queries[q].reservation + At(b'.held, q) - s.queries[q].reservation - At(b.held, q);
            && q in s'.queries && a.t in s'.threads
            && (grown == 0 || (grown >= QUERY_RESERVE && s.threads[a.t].Drawn?))
            && (s'.queries[q].reservation != s.queries[q].reservation && grown == 0 ==>
                  s.threads[a.t].Settling? && s.threads[a.t].q == q && s.threads[a.t].size > 0)
            && (!SettlesNothing(s'.threads[a.t], q) ==> grown >= QUERY_RESERVE || s.queries[q].reservation > 0)
  {
  }

  lemma StepGrown(s: State, a: Action, b: Books, q: nat)
    requires Drawers(s) && NaturalSizes(s) && Acquires(a) && Grown(s, b, q)
    ensures Grown(Step(s, a), BooksStep(s, a, b), q)
    ensures Empty(s, b, q) && !(Enabled(s, a) && s.threads[a.t].Drawn?) ==> Empty(Step(s, a), BooksStep(s, a, b), q)
  {
    if Enabled(s, a) {
      StepFrame(s, a, b);
      ThreadsChange(s.threads, Step(s, a).threads, a.t);
      assert IsDrawer(s.threads[a.t]);
      StepGrowth(s, a, b, q);
      assert Empty(s, b, q) ==> SettlesNothing(s.threads[a.t], q);
    }
  }

  lemma StartGrown(s: State, q: nat)
    requires Start(s) && q in s.queries
    ensures Drawers(s) && Empty(s, RunBooks(s, []), q)
  {
  }

  lemma {:induction false} AlwaysGrown(s: State, trace: seq<Action>, q: nat, unit: int)
    requires unit > 0 && Start(s) && AllAcquires(trace, unit) && q in s.queries
    ensures Drawers(Run(s, trace)) && NaturalSizes(Run(s, trace)) && Grown(Run(s, trace), RunBooks(s, trace), q)
  {
    RunNatural(s, trace);
    if trace == [] {
      StartGrown(s, q);
    } else {
      var prefix := trace[..|trace| - 1];
      AlwaysGrown(s, prefix, q, unit);
      StepDrawers(Run(s, prefix), trace[|trace| - 1]);
      StepGrown(Run(s, prefix), trace[|trace| - 1], RunBooks(s, prefix), q);
    }
  }

  // ---- A query limit of one quantum: callers never hold more than was drawn

  lemma {:induction false} LeaksNatural(s: State, trace: seq<Action>, q: nat)
    requires Start(s) && AllNatural(trace)
    ensures At(RunBooks(s, trace).leaked, q) >= 0
  {
    if trace != [] {
      LeaksNatural(s, trace[..|trace| - 1], q);
      RunNatural(s, trace[..|trace| - 1]);
    }
  }

  lemma HeldWithin(s: State, b: Books, q: nat)
    requires q in s.queries && AmountExact(s, b, q) && QuerySafe(s, q) && NaturalSizes(s) && At(b.leaked, q) >= 0
    ensures At(b.held, q) <= s.queries[q].hardLimit
  {
    var limit := s.queries[q].hardLimit;
    var fixes, dooms := AmountFixes(s.threads, q), Dooms(s.threads, q, limit);
    var rest := map t | t in s.threads :: fixes[t] - dooms[t];
    SumSplit(fixes, dooms, rest);
    NoNegativeDoom(rest);
  }

  /** What callers hold and ask for is in whole units. */
  ghost predicate InUnits(s: State, b: Books, q: nat, unit: int)
    requires unit > 0
  {
    At(b.held, q) % unit == 0 && forall t :: t in s.threads && s.threads[t] != Idle ==> s.threads[t].size % unit == 0
  }

  lemma StepInUnits(s: State, a: Action, b: Books, q: nat, unit: int)
    requires unit > 0 && InUnits(s, b, q, unit) && (!a.Advance? ==> a.size % unit == 0)
    ensures InUnits(Step(s, a), BooksStep(s, a, b), q, unit)
  {
    if Enabled(s, a) {
      StepFrame(s, a, b);
      ThreadsChange(s.threads, Step(s, a).threads, a.t);
      StepSize(s, a);
      if a.Advance? {
        MultipleAdd(At(b.held, q), s.threads[a.t].size, unit);
      }
    }
  }

  /** A call keeps its size. */
  lemma StepSize(s: State, a: Action)
    requires Enabled(s, a)
    ensures a.t in Step(s, a).threads
    ensures Step(s, a).threads[a.t] != Idle ==>
              Step(s, a).threads[a.t].size == if a.Advance? then s.threads[a.t].size else a.size
  {
  }

  lemma {:induction false} AlwaysInUnits(s: State, trace: seq<Action>, q: nat, unit: int)
    requires unit > 0 && Start(s) && WholeUnits(trace, unit)
    ensures InUnits(Run(s, trace), RunBooks(s, trace), q, unit)
  {
    if trace != [] {
      AlwaysInUnits(s, trace[..|trace| - 1], q, unit);
      StepInUnits(Run(s, trace[..|trace| - 1]), trace[|trace| - 1], RunBooks(s, trace[..|trace| - 1]), q, unit);
    }
  }

  lemma SmallLimitKeepsReserve(s: State, trace: seq<Action>, q: nat, unit: int)
    requires IsUnit(unit) && Start(s) && AllAcquires(trace, unit)
    requires q in s.queries && s.queries[q].hardLimit < QUERY_RESERVE + unit
    ensures q in Run(s, trace).queries && Run(s, trace).queries[q].reservation >= 0
  {
    AlwaysGrown(s, trace, q, unit);
    ExactAlways(s, trace);
    SafeAlways(s, trace);
    LeaksNatural(s, trace, q);
    ThreadsKept(s, trace);
    HeldWithin(Run(s, trace), RunBooks(s, trace), q);
    AlwaysInUnits(s, trace, q, unit);
    MultipleBelow(At(RunBooks(s, trace).held, q), QUERY_RESERVE, unit);
  }

  // ---- A global limit below one quantum: nothing is ever drawn

  function InFlight(pc: Pc): int { if pc.GlobalCounted? then pc.draw else 0 }

  ghost function InFlights(threads: map<nat, Pc>): map<nat, int> { map t | t in threads :: InFlight(threads[t]) }

  predicate Refused(pc: Pc, limit: int) { !pc.Drawn? && (pc.GlobalCounted? ==> pc.newAmount > limit) }

  /** No draw has passed Global's check, and what Global counts is at least what is in flight. */
  ghost predicate Dry(s: State) {
    && s.globalLimit < QUERY_RESERVE && s.global >= Sum(InFlights(s.threads))
    && forall t :: t in s.threads ==> Refused(s.threads[t], s.globalLimit)
  }

  lemma StepInFlight(s: State, a: Action)
    requires Drawers(s) && Acquires(a) && Enabled(s, a) && IsDrawer(s.threads[a.t])
    requires Refused(s.threads[a.t], s.globalLimit) && s.global >= 0 && s.globalLimit < QUERY_RESERVE
    ensures var s' := Step(s, a);
            && a.t in s'.threads && s'.globalLimit == s.globalLimit
            && s'.global - s.global == InFlight(s'.threads[a.t]) - InFlight(s.threads[a.t])
            && Refused(s'.threads[a.t], s.globalLimit)
  {
  }

  lemma StepDry(s: State, a: Action)
    requires Drawers(s) && Acquires(a) && Dry(s)
    ensures Dry(Step(s, a))
  {
    if Enabled(s, a) {
      var s' := Step(s, a);
      StepFrame(s, a, Books(map[], map[]));
      ThreadsChange(s.threads, s'.threads, a.t);
      forall t | t in s.threads ensures InFlights(s.threads)[t] >= 0 {
        assert IsDrawer(s.threads[t]);
      }
      NoNegativeDoom(InFlights(s.threads));
      StepInFlight(s, a);
      assert InFlights(s.threads) - {a.t} == InFlights(s'.threads) - {a.t};
      SumChange(InFlights(s.threads), InFlights(s'.threads), a.t);
    }
  }

  lemma {:induction false} AlwaysDry(s: State, trace: seq<Action>, q: nat, unit: int)
    requires unit > 0 && Start(s) && AllAcquires(trace, unit) && q in s.queries && s.globalLimit < QUERY_RESERVE
    ensures Dry(Run(s, trace)) && Grown(Run(s, trace), RunBooks(s, trace), q) && Empty(Run(s, trace), RunBooks(s, trace), q)
  {
    AlwaysGrown(s, trace, q, unit);
    if trace == [] {
      SumBounds(InFlights(s.threads), 0);
    } else {
      var prefix := trace[..|trace| - 1];
      AlwaysDry(s, prefix, q, unit);
      AlwaysGrown(s, prefix, q, unit);
      StepDry(Run(s, prefix), trace[|trace| - 1]);
      StepGrown(Run(s, prefix), trace[|trace| - 1], RunBooks(s, prefix), q);
    }
  }

  // ---- The exact condition

  ghost predicate Drops(s: State, trace: seq<Action>, q: nat) {
    q in Run(s, trace).queries && Run(s, trace).queries[q].reservation < 0
  }

  lemma TwoThreads(s: State) returns (t: nat, u: nat)
    requires |s.threads| >= 2
    ensures t in s.threads && u in s.threads && t != u
  {
    assert |s.threads.Keys| >= 2;
    t :| t in s.threads;
    var others := s.threads.Keys - {t};
    assert |others| >= 1;
    u :| u in others;
  }

  /** Acquires in whole units can push a query's reserve below zero exactly when there are two threads, the
      query may hold one unit more than a quantum, and Global one quantum. */
  lemma ReserveDropsIff(s: State, q: nat, unit: int)
    requires IsUnit(unit) && Start(s) && q in s.queries
    ensures (exists trace :: AllAcquires(trace, unit) && Drops(s, trace, q)) <==>
              |s.threads| >= 2 && s.queries[q].hardLimit >= QUERY_RESERVE + unit && s.globalLimit >= QUERY_RESERVE
  {
    if |s.threads| >= 2 && s.queries[q].hardLimit >= QUERY_RESERVE + unit && s.globalLimit >= QUERY_RESERVE {
      var t, u := TwoThreads(s);
      RaceFromStart(s, t, u, q, unit);
      RacedTraceAcquires(t, u, q, unit);
      assert Drops(s, RacedTrace(t, u, q, unit), q);
    }
    forall trace | AllAcquires(trace, unit) && Drops(s, trace, q)
      ensures |s.threads| >= 2 && s.queries[q].hardLimit >= QUERY_RESERVE + unit && s.globalLimit >= QUERY_RESERVE
    {
      if |s.threads| <= 1 {
        OneThreadKeepsReserve(s, trace, q);
      } else if s.queries[q].hardLimit < QUERY_RESERVE + unit {
        SmallLimitKeepsReserve(s, trace, q, unit);
      } else if s.globalLimit < QUERY_RESERVE {
        AlwaysDry(s, trace, q, unit);
      }
    }
  }

  /** What operators ask for: multiples of 4096 bytes, so the query's limit has to reach 69632. */
  lemma OperatorsDropIff(s: State, q: nat)
    requires Start(s) && q in s.queries
    ensures (exists trace :: AllAcquires(trace, OPERATOR_RESERVE) && Drops(s, trace, q)) <==>
              |s.threads| >= 2 && s.queries[q].hardLimit >= 69632 && s.globalLimit >= QUERY_RESERVE
  {
    ReserveDropsIff(s, q, OPERATOR_RESERVE);
  }
}
