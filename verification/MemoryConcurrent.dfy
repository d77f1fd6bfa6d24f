/** Threads acquire from and release to Query trackers at the same time. Every atomic operation of
    `acquire` and `release` is one step, and any thread may take the next step. */
module MemoryConcurrent {
  import opened MemorySpec
  import opened Sums

  /** The atomic fields of one Query tracker. */
  datatype Cell = Cell(amount: int, reservation: int, hardLimit: int)

  /** Where a thread stands inside a call on query `q`, with its local variables. */
  datatype Pc =
    | Idle
    // acquire
    | Counted(q: nat, size: int, newAmount: int)                  // amount grew; limit check is next
    | Admitted(q: nat, size: int)                                 // load of the reserve is next
    | Drawing(q: nat, size: int, draw: int)                       // Global's amount is next
    | GlobalCounted(q: nat, size: int, draw: int, newAmount: int) // Global grew; its limit check is next
    | Drawn(q: nat, size: int, draw: int)                         // adding the draw to the reserve is next
    | Settling(q: nat, size: int)                                 // taking the size off the reserve is next
    // release
    | Returning(q: nat, size: int, back: int)                     // reserve grew; Global's amount is next
    | Returned(q: nat, size: int, back: int)                      // taking `back` off the reserve is next
    | Freeing(q: nat, size: int)                                  // taking the size off the amount is next

  datatype State = State(global: int, globalLimit: int, queries: map<nat, Cell>, threads: map<nat, Pc>)

  datatype Action = BeginAcquire(t: nat, q: nat, size: int) | BeginRelease(t: nat, q: nat, size: int) | Advance(t: nat)

  /** What the calls that have ended added up to: bytes handed out, and bytes left behind by acquires
      that failed at the global limit. */
  datatype Books = Books(held: map<nat, int>, leaked: map<nat, int>)

  predicate Valid(s: State) {
    forall t :: t in s.threads ==> s.threads[t] == Idle || s.threads[t].q in s.queries
  }

  predicate Enabled(s: State, a: Action) {
    && a.t in s.threads
    && (a.Advance? ==> s.threads[a.t] != Idle && s.threads[a.t].q in s.queries)
    && (!a.Advance? ==> s.threads[a.t] == Idle && a.q in s.queries)
  }

  function At1(s: State, t: nat, pc: Pc): State { s.(threads := s.threads[t := pc]) }

  function PutAmount(s: State, q: nat, delta: int): State
    requires q in s.queries
  {
    s.(queries := s.queries[q := s.queries[q].(amount := s.queries[q].amount + delta)])
  }

  function PutReserve(s: State, q: nat, delta: int): State
    requires q in s.queries
  {
    s.(queries := s.queries[q := s.queries[q].(reservation := s.queries[q].reservation + delta)])
  }

  /** One atomic operation. */
  function Step(s: State, a: Action): State {
    if !Enabled(s, a) then s else
    match a
    case BeginAcquire(t, q, size) =>
      At1(PutAmount(s, q, size), t, Counted(q, size, s.queries[q].amount + size))
    case BeginRelease(t, q, size) =>
      At1(PutReserve(s, q, size), t,
          Returning(q, size, Surplus(s.queries[q].reservation + size, QUERY_RESERVE)))
    case Advance(t) =>
      match s.threads[t]
      case Idle => s
      case Counted(q, size, newAmount) =>
        if newAmount > s.queries[q].hardLimit then At1(PutAmount(s, q, -size), t, Idle)
        else At1(s, t, Admitted(q, size))
      case Admitted(q, size) =>
        var draw := Draw(s.queries[q].reservation - size, QUERY_RESERVE);
        At1(s, t, if draw == 0 then Settling(q, size) else Drawing(q, size, draw))
      case Drawing(q, size, draw) =>
        At1(s.(global := s.global + draw), t, GlobalCounted(q, size, draw, s.global + draw))
      case GlobalCounted(q, size, draw, newAmount) =>
        if newAmount > s.globalLimit then At1(s.(global := s.global - draw), t, Idle)
        else At1(s, t, Drawn(q, size, draw))
      case Drawn(q, size, draw) => At1(PutReserve(s, q, draw), t, Settling(q, size))
      case Settling(q, size) => At1(PutReserve(s, q, -size), t, Idle)
      case Returning(q, size, back) =>
        if back > 0 then At1(s.(global := s.global - back), t, Returned(q, size, back))
        else At1(s, t, Freeing(q, size))
      case Returned(q, size, back) => At1(PutReserve(s, q, -back), t, Freeing(q, size))
      case Freeing(q, size) => At1(PutAmount(s, q, -size), t, Idle)
  }

  function BooksStep(s: State, a: Action, b: Books): Books {
    if !Enabled(s, a) || !a.Advance? then b else
    match s.threads[a.t]
    case Settling(q, size) => b.(held := b.held[q := At(b.held, q) + size])
    case Freeing(q, size) => b.(held := b.held[q := At(b.held, q) - size])
    case GlobalCounted(q, size, _, newAmount) =>
      if newAmount > s.globalLimit then b.(leaked := b.leaked[q := At(b.leaked, q) + size]) else b
    case _ => b
  }

  function Run(s: State, trace: seq<Action>): State {
    if trace == [] then s else Step(Run(s, trace[..|trace| - 1]), trace[|trace| - 1])
  }

  function RunBooks(s: State, trace: seq<Action>): Books {
    if trace == [] then Books(map[], map[])
    else BooksStep(Run(s, trace[..|trace| - 1]), trace[|trace| - 1], RunBooks(s, trace[..|trace| - 1]))
  }

  // ---- Conservation at every step

  /** How far a thread at this point has pushed Global away from the queries' total. */
  function GlobalFix(pc: Pc): int {
    match pc
    case Idle => 0
    case Counted(_, size, _) => -size
    case Admitted(_, size) => -size
    case Drawing(_, size, _) => -size
    case GlobalCounted(_, size, draw, _) => draw - size
    case Drawn(_, size, draw) => draw - size
    case Settling(_, size) => -size
    case Returning(_, size, _) => -size
    case Returned(_, size, back) => -size - back
    case Freeing(_, size) => -size
  }

  predicate Acquiring(pc: Pc) {
    pc.Counted? || pc.Admitted? || pc.Drawing? || pc.GlobalCounted? || pc.Drawn? || pc.Settling?
  }

  /** How far it has pushed query `q`'s amount away from what callers hold. */
  function AmountFix(pc: Pc, q: nat): int { if Acquiring(pc) && pc.q == q then pc.size else 0 }

  ghost function GlobalFixes(threads: map<nat, Pc>): map<nat, int> { map t | t in threads :: GlobalFix(threads[t]) }

  ghost function AmountFixes(threads: map<nat, Pc>, q: nat): map<nat, int> {
    map t | t in threads :: AmountFix(threads[t], q)
  }

  ghost function Totals(queries: map<nat, Cell>): map<nat, int> {
    map q | q in queries :: queries[q].amount + queries[q].reservation
  }

  ghost predicate AmountExact(s: State, b: Books, q: nat)
    requires q in s.queries
  {
    s.queries[q].amount == At(b.held, q) + At(b.leaked, q) + Sum(AmountFixes(s.threads, q))
  }

  ghost predicate GlobalExact(s: State, b: Books) {
    s.global == Sum(Totals(s.queries)) - Sum(b.leaked) + Sum(GlobalFixes(s.threads))
  }

  ghost predicate Exact(s: State, b: Books) {
    && Valid(s)
    && GlobalExact(s, b)
    && forall q :: q in s.queries ==> AmountExact(s, b, q)
  }

  /** A step of thread `t` touches that thread and query `q` only. */
  predicate Frame(s: State, b: Books, s': State, b': Books, t: nat, q: nat) {
    && t in s.threads && q in s.queries && s'.globalLimit == s.globalLimit
    && s'.threads.Keys == s.threads.Keys && s.threads - {t} == s'.threads - {t}
    && s'.queries.Keys == s.queries.Keys && s.queries - {q} == s'.queries - {q}
    && s'.queries[q].hardLimit == s.queries[q].hardLimit
    && b.leaked - {q} == b'.leaked - {q} && b.held - {q} == b'.held - {q}
    && (s'.threads[t] == Idle || s'.threads[t].q == q)
  }

  predicate GlobalDelta(s: State, b: Books, s': State, b': Books, t: nat, q: nat)
    requires Frame(s, b, s', b', t, q)
  {
    s'.global - s.global
    == s'.queries[q].amount + s'.queries[q].reservation - s.queries[q].amount - s.queries[q].reservation
       - At(b'.leaked, q) + At(b.leaked, q) + GlobalFix(s'.threads[t]) - GlobalFix(s.threads[t])
  }

  predicate AmountDelta(s: State, b: Books, s': State, b': Books, t: nat, q: nat, k: nat)
    requires Frame(s, b, s', b', t, q) && k in s.queries
  {
    s'.queries[k].amount - s.queries[k].amount
    == At(b'.held, k) - At(b.held, k) + At(b'.leaked, k) - At(b.leaked, k)
       + AmountFix(s'.threads[t], k) - AmountFix(s.threads[t], k)
  }

  /** The query a step works on. */
  function Target(s: State, a: Action): nat
    requires Enabled(s, a)
  {
    if a.Advance? then s.threads[a.t].q else a.q
  }

  lemma StepFrame(s: State, a: Action, b: Books)
    requires Enabled(s, a)
    ensures Frame(s, b, Step(s, a), b, a.t, Target(s, a))
    ensures Frame(s, b, Step(s, a), BooksStep(s, a, b), a.t, Target(s, a))
  {
  }

  lemma StepDelta(s: State, a: Action, b: Books)
    requires Enabled(s, a) && Frame(s, b, Step(s, a), BooksStep(s, a, b), a.t, Target(s, a))
    ensures GlobalDelta(s, b, Step(s, a), BooksStep(s, a, b), a.t, Target(s, a))
  {
  }

  lemma StepAmountDelta(s: State, a: Action, b: Books, k: nat)
    requires Enabled(s, a) && Frame(s, b, Step(s, a), BooksStep(s, a, b), a.t, Target(s, a)) && k in s.queries
    ensures AmountDelta(s, b, Step(s, a), BooksStep(s, a, b), a.t, Target(s, a), k)
  {
    var q := Target(s, a);
    if k == q {
      OwnAmountDelta(s, a, b);
    } else {
      var s', b' := Step(s, a), BooksStep(s, a, b);
      assert s'.queries[k] == (s'.queries - {q})[k] == (s.queries - {q})[k];
      OtherEntry(b.held, b'.held, q, k);
      OtherEntry(b.leaked, b'.leaked, q, k);
    }
  }

  lemma OtherEntry(m: map<nat, int>, m': map<nat, int>, q: nat, k: nat)
    requires m - {q} == m' - {q} && k != q
    ensures At(m, k) == At(m', k)
  {
    assert k in m <==> k in m - {q};
    assert k in m' <==> k in m' - {q};
  }

  lemma OwnAmountDelta(s: State, a: Action, b: Books)
    requires Enabled(s, a) && Frame(s, b, Step(s, a), BooksStep(s, a, b), a.t, Target(s, a))
    ensures AmountDelta(s, b, Step(s, a), BooksStep(s, a, b), a.t, Target(s, a), Target(s, a))
  {
  }

  lemma ThreadsChange(threads: map<nat, Pc>, threads': map<nat, Pc>, t: nat)
    requires threads - {t} == threads' - {t}
    ensures forall u :: u != t ==> (u in threads <==> u in threads') && (u in threads ==> threads[u] == threads'[u])
  {
    forall u | u != t ensures u in threads <==> u in threads' ensures u in threads ==> threads[u] == threads'[u] {
      assert u in threads <==> u in threads - {t};
      assert u in threads' <==> u in threads' - {t};
    }
  }

  lemma QueriesChange(queries: map<nat, Cell>, queries': map<nat, Cell>, q: nat)
    requires queries - {q} == queries' - {q}
    ensures Totals(queries) - {q} == Totals(queries') - {q}
  {
    forall u | u != q ensures u in queries <==> u in queries' ensures u in queries ==> queries[u] == queries'[u] {
      assert u in queries <==> u in queries - {q};
      assert u in queries' <==> u in queries' - {q};
    }
  }

  lemma GlobalKept(s: State, b: Books, s': State, b': Books, t: nat, q: nat)
    requires GlobalExact(s, b) && Frame(s, b, s', b', t, q) && GlobalDelta(s, b, s', b', t, q)
    ensures GlobalExact(s', b')
  {
    ThreadsChange(s.threads, s'.threads, t);
    assert GlobalFixes(s.threads) - {t} == GlobalFixes(s'.threads) - {t};
    SumChange(GlobalFixes(s.threads), GlobalFixes(s'.threads), t);
    QueriesChange(s.queries, s'.queries, q);
    SumChange(Totals(s.queries), Totals(s'.queries), q);
    SumChange(b.leaked, b'.leaked, q);
  }

  lemma AmountKept(s: State, b: Books, s': State, b': Books, t: nat, q: nat, k: nat)
    requires Frame(s, b, s', b', t, q) && k in s.queries && AmountExact(s, b, k)
    requires AmountDelta(s, b, s', b', t, q, k)
    ensures AmountExact(s', b', k)
  {
    ThreadsChange(s.threads, s'.threads, t);
    assert AmountFixes(s.threads, k) - {t} == AmountFixes(s'.threads, k) - {t};
    SumChange(AmountFixes(s.threads, k), AmountFixes(s'.threads, k), t);
  }

  lemma ExactKept(s: State, b: Books, s': State, b': Books, t: nat, q: nat)
    requires Exact(s, b) && Frame(s, b, s', b', t, q) && GlobalDelta(s, b, s', b', t, q)
    requires forall k :: k in s.queries ==> AmountDelta(s, b, s', b', t, q, k)
    ensures Exact(s', b')
  {
    GlobalKept(s, b, s', b', t, q);
    forall k | k in s'.queries ensures AmountExact(s', b', k) {
      assert AmountExact(s, b, k) && AmountDelta(s, b, s', b', t, q, k);
      AmountKept(s, b, s', b', t, q, k);
    }
    ThreadsChange(s.threads, s'.threads, t);
  }

  lemma StepExact(s: State, a: Action, b: Books)
    requires Exact(s, b)
    ensures Exact(Step(s, a), BooksStep(s, a, b))
  {
    if Enabled(s, a) {
      StepFrame(s, a, b);
      StepDelta(s, a, b);
      forall k | k in s.queries
        ensures AmountDelta(s, b, Step(s, a), BooksStep(s, a, b), a.t, Target(s, a), k)
      {
        StepAmountDelta(s, a, b, k);
      }
      ExactKept(s, b, Step(s, a), BooksStep(s, a, b), a.t, Target(s, a));
    }
  }

  /** Threads at rest, nothing acquired yet. */
  predicate Start(s: State) {
    && s.global == 0 && s.globalLimit >= 0
    && (forall q :: q in s.queries ==> s.queries[q].amount == s.queries[q].reservation == 0 && s.queries[q].hardLimit >= 0)
    && Quiescent(s)
  }

  predicate Quiescent(s: State) { forall t :: t in s.threads ==> s.threads[t] == Idle }

  lemma AtRest(threads: map<nat, Pc>)
    requires forall t :: t in threads ==> threads[t] == Idle
    ensures Sum(GlobalFixes(threads)) == 0
    ensures forall q :: Sum(AmountFixes(threads, q)) == 0
  {
    SumBounds(GlobalFixes(threads), 0);
    forall q ensures Sum(AmountFixes(threads, q)) == 0 {
      SumBounds(AmountFixes(threads, q), 0);
    }
  }

  /** In every interleaving, at every step, both equations hold with the in-flight corrections. */
  lemma {:induction false} ExactAlways(s: State, trace: seq<Action>)
    requires Start(s)
    ensures Exact(Run(s, trace), RunBooks(s, trace))
  {
    if trace == [] {
      AtRest(s.threads);
      SumBounds(Totals(s.queries), 0);
      forall q | q in s.queries ensures AmountExact(s, Books(map[], map[]), q) {
      }
    } else {
      var prefix := trace[..|trace| - 1];
      ExactAlways(s, prefix);
      StepExact(Run(s, prefix), trace[|trace| - 1], RunBooks(s, prefix));
    }
  }

  /** When no call is in flight, Global is exactly what the queries hold less what failures left behind,
      and every query's amount is exactly what callers hold plus what failures left behind. */
  lemma ExactAtRest(s: State, trace: seq<Action>)
    requires Start(s) && Quiescent(Run(s, trace))
    ensures var s', b := Run(s, trace), RunBooks(s, trace);
            && s'.global == Sum(Totals(s'.queries)) - Sum(b.leaked)
            && forall q :: q in s'.queries ==> s'.queries[q].amount == At(b.held, q) + At(b.leaked, q)
  {
    ExactAlways(s, trace);
    var s', b := Run(s, trace), RunBooks(s, trace);
    AtRest(s'.threads);
    forall q | q in s'.queries ensures s'.queries[q].amount == At(b.held, q) + At(b.leaked, q) {
      assert AmountExact(s', b, q);
    }
  }

  // ---- The limits hold for everything that passed its check

  /** Bytes this thread has counted in but is about to take out again. */
  function Doomed(pc: Pc, q: nat, limit: int): int {
    if pc.Counted? && pc.q == q && pc.newAmount > limit then pc.size else 0
  }

  function GlobalDoomed(pc: Pc, limit: int): int {
    if pc.GlobalCounted? && pc.newAmount > limit then pc.draw else 0
  }

  ghost function Dooms(threads: map<nat, Pc>, q: nat, limit: int): map<nat, int> {
    map t | t in threads :: Doomed(threads[t], q, limit)
  }

  ghost function GlobalDooms(threads: map<nat, Pc>, limit: int): map<nat, int> {
    map t | t in threads :: GlobalDoomed(threads[t], limit)
  }

  ghost predicate QuerySafe(s: State, q: nat)
    requires q in s.queries
  {
    s.queries[q].amount - Sum(Dooms(s.threads, q, s.queries[q].hardLimit)) <= s.queries[q].hardLimit
  }

  ghost predicate GlobalSafe(s: State) {
    s.global - Sum(GlobalDooms(s.threads, s.globalLimit)) <= s.globalLimit
  }

  predicate NaturalSizes(s: State) {
    forall t :: t in s.threads && s.threads[t] != Idle ==>
      && s.threads[t].size >= 0
      && (s.threads[t].Drawing? || s.threads[t].GlobalCounted? || s.threads[t].Drawn? ==> s.threads[t].draw >= 0)
      && (s.threads[t].Returning? || s.threads[t].Returned? ==> s.threads[t].back >= 0)
  }

  ghost predicate Safe(s: State) {
    NaturalSizes(s) && GlobalSafe(s) && forall q :: q in s.queries ==> QuerySafe(s, q)
  }

  lemma DoomsChange(threads: map<nat, Pc>, threads': map<nat, Pc>, t: nat, q: nat, limit: int)
    requires t in threads && t in threads' && threads - {t} == threads' - {t}
    ensures Sum(Dooms(threads', q, limit))
         == Sum(Dooms(threads, q, limit)) - Doomed(threads[t], q, limit) + Doomed(threads'[t], q, limit)
  {
    ThreadsChange(threads, threads', t);
    assert Dooms(threads, q, limit) - {t} == Dooms(threads', q, limit) - {t};
    SumChange(Dooms(threads, q, limit), Dooms(threads', q, limit), t);
  }

  lemma GlobalDoomsChange(threads: map<nat, Pc>, threads': map<nat, Pc>, t: nat, limit: int)
    requires t in threads && t in threads' && threads - {t} == threads' - {t}
    ensures Sum(GlobalDooms(threads', limit))
         == Sum(GlobalDooms(threads, limit)) - GlobalDoomed(threads[t], limit) + GlobalDoomed(threads'[t], limit)
  {
    ThreadsChange(threads, threads', t);
    assert GlobalDooms(threads, limit) - {t} == GlobalDooms(threads', limit) - {t};
    SumChange(GlobalDooms(threads, limit), GlobalDooms(threads', limit), t);
  }

  lemma {:induction false} NoNegativeDoom(m: map<nat, int>)
    requires forall t :: t in m ==> m[t] >= 0
    ensures Sum(m) >= 0
    decreases |m|
  {
    if m != map[] {
      var t :| t in m;
      SumTake(m, t);
      SmallerWithout(m, t);
      NoNegativeDoom(m - {t});
    }
  }

  /** A thread's own step never adds to what counts against a limit, except by passing the check. */
  predicate Contained(s: State, s': State, t: nat, q: nat, k: nat)
    requires Frame(s, Books(map[], map[]), s', Books(map[], map[]), t, q) && k in s.queries
  {
    var limit := s.queries[k].hardLimit;
    || s'.queries[k].amount <= limit
    || s'.queries[k].amount - Doomed(s'.threads[t], k, limit) <= s.queries[k].amount - Doomed(s.threads[t], k, limit)
  }

  predicate GlobalContained(s: State, s': State, t: nat)
    requires t in s.threads && t in s'.threads
  {
    || s'.global <= s.globalLimit
    || s'.global - GlobalDoomed(s'.threads[t], s.globalLimit) <= s.global - GlobalDoomed(s.threads[t], s.globalLimit)
  }

  lemma QueryKeptSafe(s: State, s': State, t: nat, q: nat, k: nat)
    requires Frame(s, Books(map[], map[]), s', Books(map[], map[]), t, q) && NaturalSizes(s')
    requires k in s.queries && QuerySafe(s, k) && Contained(s, s', t, q, k)
    ensures QuerySafe(s', k)
  {
    var limit := s.queries[k].hardLimit;
    assert s'.queries[k].hardLimit == limit by {
      if k != q { assert k in s.queries - {q} && k in s'.queries - {q}; }
    }
    DoomsChange(s.threads, s'.threads, t, k, limit);
    NoNegativeDoom(Dooms(s'.threads, k, limit));
  }

  lemma GlobalKeptSafe(s: State, s': State, t: nat)
    requires t in s.threads && t in s'.threads && s.threads - {t} == s'.threads - {t}
    requires s'.globalLimit == s.globalLimit && NaturalSizes(s') && GlobalSafe(s) && GlobalContained(s, s', t)
    ensures GlobalSafe(s')
  {
    GlobalDoomsChange(s.threads, s'.threads, t, s.globalLimit);
    NoNegativeDoom(GlobalDooms(s'.threads, s.globalLimit));
  }

  lemma StepNatural(s: State, a: Action)
    requires NaturalSizes(s) && Enabled(s, a) && (!a.Advance? ==> a.size >= 0)
    ensures NaturalSizes(Step(s, a))
  {
  }

  lemma StepGlobalContained(s: State, a: Action)
    requires NaturalSizes(s) && Enabled(s, a)
    ensures a.t in Step(s, a).threads && GlobalContained(s, Step(s, a), a.t)
  {
  }

  lemma StepContained(s: State, a: Action, k: nat)
    requires NaturalSizes(s) && Enabled(s, a) && (!a.Advance? ==> a.size >= 0) && k in s.queries
    requires Frame(s, Books(map[], map[]), Step(s, a), Books(map[], map[]), a.t, Target(s, a))
    ensures Contained(s, Step(s, a), a.t, Target(s, a), k)
  {
  }

  lemma StepSafe(s: State, a: Action)
    requires Safe(s) && (!a.Advance? ==> a.size >= 0)
    ensures Safe(Step(s, a))
  {
    if Enabled(s, a) {
      StepFrame(s, a, Books(map[], map[]));
      StepNatural(s, a);
      StepGlobalContained(s, a);
      forall k | k in s.queries ensures Contained(s, Step(s, a), a.t, Target(s, a), k) {
        StepContained(s, a, k);
      }
      KeptSafe(s, Step(s, a), a.t, Target(s, a));
    }
  }

  lemma KeptSafe(s: State, s': State, t: nat, q: nat)
    requires Safe(s) && Frame(s, Books(map[], map[]), s', Books(map[], map[]), t, q)
    requires NaturalSizes(s') && GlobalContained(s, s', t)
    requires forall k :: k in s.queries ==> Contained(s, s', t, q, k)
    ensures Safe(s')
  {
    GlobalKeptSafe(s, s', t);
    forall k | k in s'.queries ensures QuerySafe(s', k) {
      assert QuerySafe(s, k) && Contained(s, s', t, q, k);
      QueryKeptSafe(s, s', t, q, k);
    }
  }

  lemma {:induction false} SafeAlways(s: State, trace: seq<Action>)
    requires Start(s) && forall n :: 0 <= n < |trace| && !trace[n].Advance? ==> trace[n].size >= 0
    ensures Safe(Run(s, trace))
  {
    if trace == [] {
      NothingDoomed(s);
    } else {
      SafeAlways(s, trace[..|trace| - 1]);
      StepSafe(Run(s, trace[..|trace| - 1]), trace[|trace| - 1]);
    }
  }

  lemma NothingDoomed(s: State)
    requires Quiescent(s)
    ensures Sum(GlobalDooms(s.threads, s.globalLimit)) == 0
    ensures forall q, limit :: Sum(Dooms(s.threads, q, limit)) == 0
  {
    SumBounds(GlobalDooms(s.threads, s.globalLimit), 0);
    forall q, limit ensures Sum(Dooms(s.threads, q, limit)) == 0 {
      SumBounds(Dooms(s.threads, q, limit), 0);
    }
  }

  /** Amounts may overshoot a limit while a failing acquire is in flight, never once calls are done. */
  lemma LimitsHoldAtRest(s: State, trace: seq<Action>)
    requires Start(s) && forall n :: 0 <= n < |trace| && !trace[n].Advance? ==> trace[n].size >= 0
    requires Quiescent(Run(s, trace))
    ensures var s' := Run(s, trace);
            && s'.global <= s'.globalLimit
            && forall q :: q in s'.queries ==> s'.queries[q].amount <= s'.queries[q].hardLimit
  {
    SafeAlways(s, trace);
    NothingDoomed(Run(s, trace));
    forall q | q in Run(s, trace).queries ensures Run(s, trace).queries[q].amount <= Run(s, trace).queries[q].hardLimit {
      assert QuerySafe(Run(s, trace), q);
    }
  }
}
