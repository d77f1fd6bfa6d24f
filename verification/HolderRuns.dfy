/**
 * Holders sharing modules, one atomic operation at a time. A call on one holder is a sequence of steps
 * on its pointer and on the module's counter, and the calls of different threads interleave in any
 * order, as long as nobody writes a holder while another call uses it.
 */
module HolderRuns {
  import opened Arithmetic

  datatype Option<T> = None | Some(value: T)

  /** What a call does once it has given up the old target. */
  datatype Goal = Clear | Die | CopyOf(from: nat) | MoveOf(from: nat)

  datatype Phase =
    | Idle
    | Dropped(goal: Goal)         // the old target's module was unreferenced, the pointer is still there
    | Owing(source: Option<nat>)  // the pointer was copied, its module is not referenced yet
    | Taking(from: nat)           // the pointer was taken over, the source still has it

  /** A live holder: the module its target belongs to, if any, and where its current call stands. */
  datatype Holder = Holder(target: Option<nat>, phase: Phase)

  datatype State = State(holders: map<nat, Holder>, counts: map<nat, int>)

  datatype Action =
    | New(h: nat, target: Option<nat>)
    | NewCopy(h: nat, from: nat)
    | NewMove(h: nat, from: nat)
    | Drop(h: nat, goal: Goal)
    | Advance(h: nat)

  /** The other holder a call depends on. */
  function Uses(p: Phase): Option<nat> {
    match p
    case Idle => None
    case Dropped(CopyOf(from)) => Some(from)
    case Dropped(MoveOf(from)) => Some(from)
    case Dropped(_) => None
    case Owing(source) => source
    case Taking(from) => Some(from)
  }

  predicate Moves(p: Phase) { p.Taking? || (p.Dropped? && p.goal.MoveOf?) }

  /** No call is at work on `h`, or on another holder with `h` as its source. */
  predicate Writable(s: State, h: nat) {
    h in s.holders && s.holders[h].phase == Idle
    && forall k :: k in s.holders ==> Uses(s.holders[k].phase) != Some(h)
  }

  predicate Readable(s: State, h: nat) {
    h in s.holders && s.holders[h].phase == Idle
    && forall k :: k in s.holders && Uses(s.holders[k].phase) == Some(h) ==> !Moves(s.holders[k].phase)
  }

  predicate Enabled(s: State, a: Action) {
    match a
    case New(h, target) => h !in s.holders && (target.Some? ==> target.value in s.counts)
    case NewCopy(h, from) => h !in s.holders && Readable(s, from)
    case NewMove(h, from) => h !in s.holders && Writable(s, from)
    case Drop(h, goal) =>
      && Writable(s, h)
      && (goal.CopyOf? ==> goal.from != h && Readable(s, goal.from))
      && (goal.MoveOf? ==> goal.from != h && Writable(s, goal.from))
    case Advance(h) => h in s.holders && s.holders[h].phase != Idle
  }

  function Put(s: State, h: nat, x: Holder): State { s.(holders := s.holders[h := x]) }

  /** ref() and unref(); a null pointer has no module. */
  function Bump(s: State, target: Option<nat>, delta: int): State {
    if target.Some? && target.value in s.counts
    then s.(counts := s.counts[target.value := s.counts[target.value] + delta])
    else s
  }

  function TargetOf(s: State, h: nat): Option<nat> { if h in s.holders then s.holders[h].target else None }

  function Step(s: State, a: Action): State {
    if !Enabled(s, a) then s else
    match a
    case New(h, target) => Put(s, h, Holder(target, Owing(None)))
    case NewCopy(h, from) => Put(s, h, Holder(TargetOf(s, from), Owing(Some(from))))
    case NewMove(h, from) => Put(s, h, Holder(TargetOf(s, from), Taking(from)))
    case Drop(h, goal) =>
      var x := s.holders[h];
      Put(Bump(s, x.target, -1), h, x.(phase := Dropped(goal)))
    case Advance(h) => Next(s, h)
  }

  function Next(s: State, h: nat): State
    requires h in s.holders
  {
    var x := s.holders[h];
    match x.phase
    case Idle => s
    case Dropped(Clear) => Put(s, h, Holder(None, Idle))
    case Dropped(Die) => s.(holders := s.holders - {h})
    case Dropped(CopyOf(from)) => Put(s, h, Holder(TargetOf(s, from), Owing(Some(from))))
    case Dropped(MoveOf(from)) => Put(s, h, Holder(TargetOf(s, from), Taking(from)))
    case Owing(_) => Put(Bump(s, x.target, 1), h, x.(phase := Idle))
    case Taking(from) => Put(Put(s, from, Holder(None, Idle)), h, x.(phase := Idle))
  }

  function Run(s: State, trace: seq<Action>): State {
    if trace == [] then s else Step(Run(s, trace[..|trace| - 1]), trace[|trace| - 1])
  }

  function Start(modules: set<nat>): State { State(map[], map m | m in modules :: 1) }

  // ---- Conservation

  /** The holder's reference on `m` is in the counter. */
  predicate Owns(x: Holder, m: nat) { x.phase == Idle && x.target == Some(m) }

  function Owners(holders: map<nat, Holder>, m: nat): set<nat> {
    set h | h in holders && Owns(holders[h], m)
  }

  predicate Balanced(s: State) {
    forall m :: m in s.counts ==> s.counts[m] == 1 + |Owners(s.holders, m)|
  }

  predicate OwnsAt(holders: map<nat, Holder>, h: nat, m: nat) { h in holders && Owns(holders[h], m) }

  /** Changing one holder changes the owners by that holder. */
  lemma OwnersChange(a: map<nat, Holder>, b: map<nat, Holder>, h: nat, m: nat)
    requires a - {h} == b - {h}
    ensures |Owners(b, m)| == |Owners(a, m)| - One(OwnsAt(a, h, m)) + One(OwnsAt(b, h, m))
  {
    OwnersWithout(a, h, m);
    OwnersWithout(b, h, m);
  }

  lemma OwnersWithout(a: map<nat, Holder>, h: nat, m: nat)
    ensures |Owners(a, m)| == |Owners(a - {h}, m)| + One(OwnsAt(a, h, m))
  {
    if OwnsAt(a, h, m) {
      assert Owners(a, m) == Owners(a - {h}, m) + {h};
    } else {
      assert Owners(a, m) == Owners(a - {h}, m);
    }
  }

  /** Targets exist, and a call's source is idle, is not the holder itself, and is shared by copies only. */
  predicate Disciplined(s: State) {
    forall h :: h in s.holders ==> Fine(s, h, s.holders[h])
  }

  predicate Fine(s: State, h: nat, x: Holder) {
    && (x.target.Some? ==> x.target.value in s.counts)
    && (Uses(x.phase).Some? ==> Sourced(s, h, x, Uses(x.phase).value))
  }

  predicate Sourced(s: State, h: nat, x: Holder, from: nat) {
    && from != h && from in s.holders && s.holders[from].phase == Idle
    && (!x.phase.Dropped? ==> x.target == s.holders[from].target)
    && (Moves(x.phase) ==> OnlyUser(s, h, from))
  }

  predicate OnlyUser(s: State, h: nat, from: nat) {
    forall k :: k in s.holders && Uses(s.holders[k].phase) == Some(from) ==> k == h
  }

  predicate Unused(s: State, h: nat) {
    forall k :: k in s.holders ==> Uses(s.holders[k].phase) != Some(h)
  }

  /** A call may go on with its holder in state `x`. */
  predicate MayPut(s: State, h: nat, x: Holder) {
    && Unused(s, h) && Fine(s, h, x)
    && (Uses(x.phase).Some? ==>
          forall k :: k in s.holders && k != h && Uses(s.holders[k].phase) == Uses(x.phase) ==> !Moves(s.holders[k].phase))
  }

  lemma PutDisciplined(s: State, h: nat, x: Holder)
    requires Disciplined(s) && MayPut(s, h, x)
    ensures Disciplined(Put(s, h, x))
  {
    var s' := Put(s, h, x);
    forall k | k in s'.holders ensures Fine(s', k, s'.holders[k]) {
      assert k != h ==> Fine(s, k, s.holders[k]);
      assert Uses(s'.holders[k].phase) != Some(h);
    }
  }

  lemma BumpDisciplined(s: State, target: Option<nat>, delta: int)
    requires Disciplined(s)
    ensures Disciplined(Bump(s, target, delta)) && Bump(s, target, delta).holders == s.holders
  {
    var s' := Bump(s, target, delta);
    forall k | k in s'.holders ensures Fine(s', k, s'.holders[k]) {
      assert Fine(s, k, s.holders[k]);
    }
  }

  lemma RemoveDisciplined(s: State, h: nat)
    requires Disciplined(s) && Unused(s, h)
    ensures Disciplined(s.(holders := s.holders - {h}))
  {
    var s' := s.(holders := s.holders - {h});
    forall k | k in s'.holders ensures Fine(s', k, s'.holders[k]) {
      assert Fine(s, k, s.holders[k]);
    }
  }

  /** Nobody uses a holder whose call is under way. */
  lemma BusyUnused(s: State, h: nat)
    requires Disciplined(s) && h in s.holders && s.holders[h].phase != Idle
    ensures Unused(s, h)
  {
    forall k | k in s.holders ensures Uses(s.holders[k].phase) != Some(h) {
      assert Fine(s, k, s.holders[k]);
    }
  }

  /** A holder that is not there is nobody's source. */
  lemma AbsentUnused(s: State, h: nat)
    requires Disciplined(s) && h !in s.holders
    ensures Unused(s, h)
  {
    forall k | k in s.holders ensures Uses(s.holders[k].phase) != Some(h) {
      assert Fine(s, k, s.holders[k]);
    }
  }

  lemma TakingDisciplined(s: State, h: nat)
    requires Disciplined(s) && h in s.holders && s.holders[h].phase.Taking?
    ensures Disciplined(Next(s, h))
  {
    var x := s.holders[h];
    var from := x.phase.from;
    BusyUnused(s, h);
    assert Fine(s, h, x);
    assert Sourced(s, h, x, from);
    var mid := Put(s, h, x.(phase := Idle));
    PutDisciplined(s, h, x.(phase := Idle));
    forall k | k in mid.holders ensures Uses(mid.holders[k].phase) != Some(from) {
      assert k != h ==> mid.holders[k] == s.holders[k];
    }
    PutDisciplined(mid, from, Holder(None, Idle));
    assert Next(s, h).holders == Put(mid, from, Holder(None, Idle)).holders;
  }

  lemma NextDisciplined(s: State, h: nat)
    requires Disciplined(s) && h in s.holders && s.holders[h].phase != Idle
    ensures Disciplined(Next(s, h))
  {
    var x := s.holders[h];
    BusyUnused(s, h);
    assert Fine(s, h, x);
    match x.phase
    case Dropped(Clear) => PutDisciplined(s, h, Holder(None, Idle));
    case Dropped(Die) => RemoveDisciplined(s, h);
    case Dropped(CopyOf(from)) => RetargetDisciplined(s, h, from, Owing(Some(from)));
    case Dropped(MoveOf(from)) => RetargetDisciplined(s, h, from, Taking(from));
    case Owing(_) =>
      BumpDisciplined(s, x.target, 1);
      PutDisciplined(Bump(s, x.target, 1), h, x.(phase := Idle));
    case Taking(_) => TakingDisciplined(s, h);
  }

  /** Loading the source's pointer. */
  lemma RetargetDisciplined(s: State, h: nat, from: nat, phase: Phase)
    requires Disciplined(s) && h in s.holders && Unused(s, h)
    requires s.holders[h].phase == Dropped(if phase.Taking? then MoveOf(from) else CopyOf(from))
    requires phase == Owing(Some(from)) || phase == Taking(from)
    ensures Disciplined(Put(s, h, Holder(TargetOf(s, from), phase)))
  {
    var x := Holder(TargetOf(s, from), phase);
    assert Fine(s, h, s.holders[h]);
    assert Sourced(s, h, s.holders[h], from);
    assert Fine(s, from, s.holders[from]);
    forall k | k in s.holders && k != h && Uses(s.holders[k].phase) == Some(from) ensures !Moves(s.holders[k].phase) {
      assert Fine(s, k, s.holders[k]);
      assert Uses(s.holders[h].phase) == Some(from);
    }
    PutDisciplined(s, h, x);
  }

  lemma StepDisciplined(s: State, a: Action)
    requires Disciplined(s)
    ensures Disciplined(Step(s, a))
  {
    if Enabled(s, a) {
      match a
      case New(h, target) =>
        AbsentUnused(s, h);
        PutDisciplined(s, h, Holder(target, Owing(None)));
      case NewCopy(h, from) =>
        AbsentUnused(s, h);
        assert Fine(s, from, s.holders[from]);
        PutDisciplined(s, h, Holder(TargetOf(s, from), Owing(Some(from))));
      case NewMove(h, from) =>
        AbsentUnused(s, h);
        assert Fine(s, from, s.holders[from]);
        PutDisciplined(s, h, Holder(TargetOf(s, from), Taking(from)));
      case Drop(h, goal) => DropDisciplined(s, h, goal);
      case Advance(h) => NextDisciplined(s, h);
    }
  }

  lemma DropDisciplined(s: State, h: nat, goal: Goal)
    requires Disciplined(s) && Enabled(s, Drop(h, goal))
    ensures Disciplined(Step(s, Drop(h, goal)))
  {
    var x := s.holders[h];
    var mid := Bump(s, x.target, -1);
    assert Fine(s, h, x);
    BumpDisciplined(s, x.target, -1);
    PutDisciplined(mid, h, x.(phase := Dropped(goal)));
  }

  /** Counting a reference and marking its holder as its owner go together. */
  lemma PutBalanced(s: State, target: Option<nat>, delta: int, h: nat, x: Holder)
    requires Balanced(s) && (target.Some? ==> target.value in s.counts)
    requires forall m :: m in s.counts ==>
               One(Owns(x, m)) - One(OwnsAt(s.holders, h, m)) == if target == Some(m) then delta else 0
    ensures var s' := Put(Bump(s, target, delta), h, x); Balanced(s') && s'.counts.Keys == s.counts.Keys
  {
    var s' := Put(Bump(s, target, delta), h, x);
    assert s.holders - {h} == s'.holders - {h};
    forall m | m in s.counts ensures s'.counts[m] == 1 + |Owners(s'.holders, m)| {
      OwnersChange(s.holders, s'.holders, h, m);
    }
  }

  lemma StepBalanced(s: State, a: Action)
    requires Disciplined(s) && Balanced(s)
    ensures Balanced(Step(s, a)) && Step(s, a).counts.Keys == s.counts.Keys
  {
    if Enabled(s, a) {
      match a
      case New(h, target) => PutBalanced(s, None, 0, h, Holder(target, Owing(None)));
      case NewCopy(h, from) => PutBalanced(s, None, 0, h, Holder(TargetOf(s, from), Owing(Some(from))));
      case NewMove(h, from) => PutBalanced(s, None, 0, h, Holder(TargetOf(s, from), Taking(from)));
      case Drop(h, goal) =>
        var x := s.holders[h];
        assert Fine(s, h, x);
        PutBalanced(s, x.target, -1, h, x.(phase := Dropped(goal)));
      case Advance(h) => NextBalanced(s, h);
    }
  }

  lemma NextBalanced(s: State, h: nat)
    requires Disciplined(s) && Balanced(s) && h in s.holders && s.holders[h].phase != Idle
    ensures Balanced(Next(s, h)) && Next(s, h).counts.Keys == s.counts.Keys
  {
    var x := s.holders[h];
    assert Fine(s, h, x);
    match x.phase
    case Dropped(Clear) => PutBalanced(s, None, 0, h, Holder(None, Idle));
    case Dropped(Die) =>
      forall m | m in s.counts ensures s.counts[m] == 1 + |Owners(s.holders - {h}, m)| {
        OwnersWithout(s.holders, h, m);
      }
    case Dropped(CopyOf(from)) => PutBalanced(s, None, 0, h, Holder(TargetOf(s, from), Owing(Some(from))));
    case Dropped(MoveOf(from)) => PutBalanced(s, None, 0, h, Holder(TargetOf(s, from), Taking(from)));
    case Owing(_) => PutBalanced(s, x.target, 1, h, x.(phase := Idle));
    case Taking(_) => TakingBalanced(s, h);
  }

  lemma TakingBalanced(s: State, h: nat)
    requires Disciplined(s) && Balanced(s) && h in s.holders && s.holders[h].phase.Taking?
    ensures Balanced(Next(s, h)) && Next(s, h).counts == s.counts
  {
    var from := s.holders[h].phase.from;
    assert Fine(s, h, s.holders[h]);
    var mid := Put(s, from, Holder(None, Idle));
    var s' := Next(s, h);
    assert s.holders - {from} == mid.holders - {from};
    assert mid.holders - {h} == s'.holders - {h};
    forall m | m in s.counts ensures s'.counts[m] == 1 + |Owners(s'.holders, m)| {
      OwnersChange(s.holders, mid.holders, from, m);
      OwnersChange(mid.holders, s'.holders, h, m);
    }
  }

  lemma {:induction false} Kept(modules: set<nat>, trace: seq<Action>)
    ensures var s := Run(Start(modules), trace); Disciplined(s) && Balanced(s) && s.counts.Keys == modules
  {
    if trace != [] {
      var s := Run(Start(modules), trace[..|trace| - 1]);
      Kept(modules, trace[..|trace| - 1]);
      StepDisciplined(s, trace[|trace| - 1]);
      StepBalanced(s, trace[|trace| - 1]);
    } else {
      assert forall m :: Owners(map[], m) == {};
    }
  }

  /** In every interleaving the counter is 1 plus the holders whose reference is in it, so never below 1. */
  lemma CountsAlways(modules: set<nat>, trace: seq<Action>, m: nat)
    requires m in modules
    ensures var s := Run(Start(modules), trace);
            m in s.counts && s.counts[m] == 1 + |Owners(s.holders, m)| >= 1
  {
    Kept(modules, trace);
  }

  /** Between calls that is 1 plus the live holders whose target belongs to the module. */
  lemma CountsAtRest(modules: set<nat>, trace: seq<Action>, m: nat)
    requires m in modules
    requires forall h :: h in Run(Start(modules), trace).holders ==> Run(Start(modules), trace).holders[h].phase == Idle
    ensures var s := Run(Start(modules), trace);
            && m in s.counts
            && s.counts[m] == 1 + |set h | h in s.holders && s.holders[h].target == Some(m)|
            && (s.counts[m] == 1 <==> forall h :: h in s.holders ==> s.holders[h].target != Some(m))
  {
    Kept(modules, trace);
    var s := Run(Start(modules), trace);
    var live := set h | h in s.holders && s.holders[h].target == Some(m);
    assert Owners(s.holders, m) == live;
    assert forall h :: h in s.holders && s.holders[h].target == Some(m) ==> h in live;
    if |live| > 0 {
      var h :| h in live;
    }
  }

  /**
   * A module is pinned while a holder shows it: unless its own call has just given the target up, or it
   * is being made from a bare pointer, a holder's module has a count of at least 2, even in the middle
   * of a copy or a move.
   */
  lemma Pinned(modules: set<nat>, trace: seq<Action>, h: nat, m: nat)
    requires h in Run(Start(modules), trace).holders
    requires var x := Run(Start(modules), trace).holders[h];
             x.target == Some(m) && !x.phase.Dropped? && x.phase != Owing(None)
    ensures var s := Run(Start(modules), trace); m in s.counts && s.counts[m] >= 2
  {
    Kept(modules, trace);
    var s := Run(Start(modules), trace);
    var x := s.holders[h];
    var owner := if x.phase == Idle then h else Uses(x.phase).value;
    assert Fine(s, h, x);
    assert owner in Owners(s.holders, m);
  }

  // ---- A call on its own

  datatype Call =
    | Construct(h: nat, target: Option<nat>)
    | CopyConstruct(h: nat, from: nat)
    | MoveConstruct(h: nat, from: nat)
    | CopyAssign(h: nat, from: nat)
    | MoveAssign(h: nat, from: nat)
    | Reset(h: nat)
    | Destroy(h: nat)

  /** The steps of a call. Assigning a holder to itself does nothing. */
  function Script(c: Call): seq<Action> {
    match c
    case Construct(h, target) => [New(h, target), Advance(h)]
    case CopyConstruct(h, from) => [NewCopy(h, from), Advance(h)]
    case MoveConstruct(h, from) => [NewMove(h, from), Advance(h)]
    case CopyAssign(h, from) => if h == from then [] else [Drop(h, CopyOf(from)), Advance(h), Advance(h)]
    case MoveAssign(h, from) => if h == from then [] else [Drop(h, MoveOf(from)), Advance(h), Advance(h)]
    case Reset(h) => [Drop(h, Clear), Advance(h)]
    case Destroy(h) => [Drop(h, Die), Advance(h)]
  }

  predicate AtRest(s: State) { forall h :: h in s.holders ==> s.holders[h].phase == Idle }

  predicate Fits(s: State, c: Call) {
    match c
    case Construct(h, target) => h !in s.holders && (target.Some? ==> target.value in s.counts)
    case CopyConstruct(h, from) => h !in s.holders && from in s.holders
    case MoveConstruct(h, from) => h !in s.holders && from in s.holders
    case CopyAssign(h, from) => h in s.holders && from in s.holders
    case MoveAssign(h, from) => h in s.holders && from in s.holders
    case Reset(h) => h in s.holders
    case Destroy(h) => h in s.holders
  }

  /** The targets of the live holders. */
  function Targets(s: State): map<nat, Option<nat>> { map h | h in s.holders :: s.holders[h].target }

  /** What a caller expects of a call: who points where. */
  function Expected(ts: map<nat, Option<nat>>, c: Call): map<nat, Option<nat>> {
    match c
    case Construct(h, target) => ts[h := target]
    case CopyConstruct(h, from) => if from in ts then ts[h := ts[from]] else ts
    case MoveConstruct(h, from) => if from in ts then ts[from := None][h := ts[from]] else ts
    case CopyAssign(h, from) => if from in ts then ts[h := ts[from]] else ts
    case MoveAssign(h, from) => if from in ts then ts[from := None][h := ts[from]] else ts
    case Reset(h) => ts[h := None]
    case Destroy(h) => ts - {h}
  }

  lemma RunTwo(s: State, a: Action, b: Action)
    ensures Run(s, [a, b]) == Step(Step(s, a), b)
  {
    assert [a, b][..1] == [a] && [a][..0] == [];
    assert Run(s, []) == s;
    assert Run(s, [a]) == Step(s, a);
  }

  lemma RunThree(s: State, a: Action, b: Action, c: Action)
    ensures Run(s, [a, b, c]) == Step(Step(Step(s, a), b), c)
  {
    RunTwo(s, a, b);
    assert [a, b, c][..2] == [a, b];
  }

  /** Every holder but `h` is between calls. */
  predicate OthersAtRest(s: State, h: nat) {
    forall k :: k in s.holders && k != h ==> s.holders[k].phase == Idle
  }

  lemma OwingEnds(s: State, h: nat, source: Option<nat>)
    requires OthersAtRest(s, h) && h in s.holders && s.holders[h].phase == Owing(source)
    ensures var s' := Step(s, Advance(h)); AtRest(s') && Targets(s') == Targets(s)
  {
  }

  lemma TakingEnds(s: State, h: nat, from: nat)
    requires OthersAtRest(s, h) && h in s.holders && s.holders[h].phase == Taking(from)
    requires from in s.holders && from != h
    ensures var s' := Step(s, Advance(h)); AtRest(s') && Targets(s') == Targets(s)[from := None]
  {
  }

  lemma DropOnly(s: State, h: nat, goal: Goal)
    requires AtRest(s) && h in s.holders
    requires (goal.CopyOf? || goal.MoveOf?) ==> goal.from in s.holders && goal.from != h
    ensures var s' := Step(s, Drop(h, goal));
            && s'.holders == s.holders[h := s.holders[h].(phase := Dropped(goal))]
            && OthersAtRest(s', h) && Targets(s') == Targets(s)
  {
    assert Enabled(s, Drop(h, goal));
  }

  lemma RetargetOnly(s: State, h: nat, from: nat)
    requires OthersAtRest(s, h) && h in s.holders && from in s.holders && from != h
    requires s.holders[h].phase in {Dropped(CopyOf(from)), Dropped(MoveOf(from))}
    ensures var s' := Step(s, Advance(h));
            && OthersAtRest(s', h) && Targets(s') == Targets(s)[h := s.holders[from].target]
            && s'.holders.Keys == s.holders.Keys
            && s'.holders[h].phase == if s.holders[h].phase.goal.CopyOf? then Owing(Some(from)) else Taking(from)
  {
  }

  lemma CopyAssigned(s: State, h: nat, from: nat)
    requires AtRest(s) && h in s.holders && from in s.holders && from != h
    ensures var s' := Step(Step(Step(s, Drop(h, CopyOf(from))), Advance(h)), Advance(h));
            AtRest(s') && Targets(s') == Expected(Targets(s), CopyAssign(h, from))
  {
    DropOnly(s, h, CopyOf(from));
    var s1 := Step(s, Drop(h, CopyOf(from)));
    RetargetOnly(s1, h, from);
    OwingEnds(Step(s1, Advance(h)), h, Some(from));
  }

  lemma MoveAssigned(s: State, h: nat, from: nat)
    requires AtRest(s) && h in s.holders && from in s.holders && from != h
    ensures var s' := Step(Step(Step(s, Drop(h, MoveOf(from))), Advance(h)), Advance(h));
            AtRest(s') && Targets(s') == Expected(Targets(s), MoveAssign(h, from))
  {
    DropOnly(s, h, MoveOf(from));
    var s1 := Step(s, Drop(h, MoveOf(from)));
    RetargetOnly(s1, h, from);
    TakingEnds(Step(s1, Advance(h)), h, from);
  }

  lemma Constructed(s: State, a: Action)
    requires AtRest(s) && Enabled(s, a) && (a.New? || a.NewCopy? || a.NewMove?)
    ensures var s' := Step(Step(s, a), Advance(a.h));
            && AtRest(s')
            && Targets(s') == match a
                              case New(h, t) => Targets(s)[h := t]
                              case NewCopy(h, from) => Targets(s)[h := Targets(s)[from]]
                              case NewMove(h, from) => Targets(s)[from := None][h := Targets(s)[from]]
                              case _ => Targets(s')
  {
    var s1 := Step(s, a);
    if a.NewMove? {
      TakingEnds(s1, a.h, a.from);
    } else {
      OwingEnds(s1, a.h, if a.New? then None else Some(a.from));
    }
  }

  /** `s'` is between calls, with the targets a caller of `c` expects and the right counters. */
  predicate Effect(s: State, c: Call, s': State) {
    AtRest(s') && Disciplined(s') && Balanced(s') && Targets(s') == Expected(Targets(s), c)
  }

  lemma ConstructEffect(s: State, c: Call, a: Action)
    requires Disciplined(s) && Balanced(s) && AtRest(s) && Enabled(s, a)
    requires match a
             case New(h, t) => c == Construct(h, t)
             case NewCopy(h, from) => c == CopyConstruct(h, from)
             case NewMove(h, from) => c == MoveConstruct(h, from)
             case _ => false
    ensures Effect(s, c, Run(s, [a, Advance(a.h)]))
  {
    TwoSteps(s, a, a.h);
    Constructed(s, a);
  }

  lemma AssignEffect(s: State, c: Call)
    requires Disciplined(s) && Balanced(s) && AtRest(s) && Fits(s, c) && (c.CopyAssign? || c.MoveAssign?)
    ensures Effect(s, c, Run(s, Script(c)))
  {
    if c.h == c.from {
      SelfAssigned(s, c);
    } else if c.CopyAssign? {
      ThreeSteps(s, Drop(c.h, CopyOf(c.from)), c.h);
      CopyAssigned(s, c.h, c.from);
    } else {
      ThreeSteps(s, Drop(c.h, MoveOf(c.from)), c.h);
      MoveAssigned(s, c.h, c.from);
    }
  }

  lemma DropEffect(s: State, c: Call)
    requires Disciplined(s) && Balanced(s) && AtRest(s) && Fits(s, c) && (c.Reset? || c.Destroy?)
    ensures Effect(s, c, Run(s, Script(c)))
  {
    var goal := if c.Reset? then Clear else Die;
    TwoSteps(s, Drop(c.h, goal), c.h);
    DropOnly(s, c.h, goal);
    DroppedEnds(Step(s, Drop(c.h, goal)), c.h, goal);
  }

  lemma DroppedEnds(s: State, h: nat, goal: Goal)
    requires OthersAtRest(s, h) && h in s.holders && s.holders[h].phase == Dropped(goal) && (goal == Clear || goal == Die)
    ensures var s' := Step(s, Advance(h));
            AtRest(s') && Targets(s') == if goal == Clear then Targets(s)[h := None] else Targets(s) - {h}
  {
  }

  /** Between calls, the steps of any call have the effect a caller expects, and end between calls. */
  lemma CallEffect(s: State, c: Call)
    requires Disciplined(s) && Balanced(s) && AtRest(s) && Fits(s, c)
    ensures Effect(s, c, Run(s, Script(c)))
  {
    match c
    case Construct(h, target) => ConstructEffect(s, c, New(h, target));
    case CopyConstruct(h, from) => ConstructEffect(s, c, NewCopy(h, from));
    case MoveConstruct(h, from) => ConstructEffect(s, c, NewMove(h, from));
    case CopyAssign(_, _) => AssignEffect(s, c);
    case MoveAssign(_, _) => AssignEffect(s, c);
    case Reset(_) => DropEffect(s, c);
    case Destroy(_) => DropEffect(s, c);
  }

  lemma SelfAssigned(s: State, c: Call)
    requires (c.CopyAssign? || c.MoveAssign?) && c.h == c.from && c.h in s.holders
    ensures Run(s, Script(c)) == s && Targets(s) == Expected(Targets(s), c)
  {
  }

  lemma TwoSteps(s: State, a: Action, h: nat)
    requires Disciplined(s) && Balanced(s)
    ensures var s' := Run(s, [a, Advance(h)]);
            Disciplined(s') && Balanced(s') && s' == Step(Step(s, a), Advance(h))
  {
    RunTwo(s, a, Advance(h));
    StepDisciplined(s, a);
    StepBalanced(s, a);
    StepDisciplined(Step(s, a), Advance(h));
    StepBalanced(Step(s, a), Advance(h));
  }

  lemma ThreeSteps(s: State, a: Action, h: nat)
    requires Disciplined(s) && Balanced(s)
    ensures var s' := Run(s, [a, Advance(h), Advance(h)]);
            Disciplined(s') && Balanced(s') && s' == Step(Step(Step(s, a), Advance(h)), Advance(h))
  {
    RunThree(s, a, Advance(h), Advance(h));
    TwoSteps(s, a, h);
    RunTwo(s, a, Advance(h));
    StepDisciplined(Step(Step(s, a), Advance(h)), Advance(h));
    StepBalanced(Step(Step(s, a), Advance(h)), Advance(h));
  }
}
