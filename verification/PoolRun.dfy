/**
  The pool store over a whole run: discovery (crates/ingestion/src/sequencer_feed.rs)
  and reconciliation (crates/ingestion/src/reconciler.rs) interleave step by step.
  A pass lists the addresses, which may or may not show pools registered meanwhile,
  and runs one task per listed pool behind `limit` permits.
 */
module PoolRun {
  import opened Wrappers
  import opened Words
  import opened Types
  import opened PoolStore
  import opened Reconciler

  /** A task holds a permit from `Holding` until it is `Done`. */
  datatype Task = Waiting | Holding | Fetched(answer: Option<Reserves>) | Done(answer: Option<Reserves>)

  datatype State = State(
    store: Pools,
    checked: set<Address>,       // seen absent, not yet entered in `probed`
    probed: set<Address>,
    probing: set<Address>,       // on-chain probe under way
    probes: multiset<Address>,   // every probe ever started
    block: u64,                  // block of the current pass
    known: set<Address>,         // stored when the last listing of addresses began
    snapshot: Pools,             // records captured by its tasks
    tasks: map<Address, Task>,
    free: nat)                   // permits not held

  datatype Step =
    | Check(a: Address)
    | Mark(a: Address)
    | Register(stub: PoolState)
    | GiveUp(a: Address)
    | List
    | BeginPass(at: u64, listed: set<Address>)
    | Acquire(a: Address)
    | Fetch(a: Address, answer: Option<Reserves>)
    | Write(a: Address)

  predicate Is(s: State, a: Address, t: Task) { a in s.tasks && s.tasks[a] == t }

  ghost predicate AllDone(s: State) { forall a :: a in s.tasks ==> s.tasks[a].Done? }

  ghost predicate Enabled(s: State, step: Step) {
    match step
    case Check(a) => a !in s.store
    case Mark(a) => a in s.checked
    case Register(stub) => stub.address in s.probing && stub.IsStub()
    case GiveUp(a) => a in s.probing
    case List => AllDone(s)
    case BeginPass(at, listed) => AllDone(s) && s.block < at && s.known <= listed <= s.store.Keys
    case Acquire(a) => Is(s, a, Waiting) && s.free > 0
    case Fetch(a, _) => Is(s, a, Holding)
    case Write(a) => a in s.tasks && s.tasks[a].Fetched? && a in s.snapshot
  }

  ghost function Next(s: State, step: Step, limit: nat): State
    requires Enabled(s, step)
  {
    match step
    case Check(a) => s.(checked := s.checked + {a})
    case Mark(a) =>
      if a in s.probed then s.(checked := s.checked - {a})
      else s.(checked := s.checked - {a}, probed := s.probed + {a}, probing := s.probing + {a},
              probes := s.probes + multiset{a})
    case Register(stub) => s.(store := s.store[stub.address := stub], probing := s.probing - {stub.address})
    case GiveUp(a) => s.(probing := s.probing - {a})
    case List => s.(known := s.store.Keys)
    case BeginPass(at, listed) =>
      s.(block := at, snapshot := map a | a in listed :: s.store[a], tasks := map a | a in listed :: Waiting,
         free := limit)
    case Acquire(a) => s.(tasks := s.tasks[a := Holding], free := s.free - 1)
    case Fetch(a, answer) => s.(tasks := s.tasks[a := Fetched(answer)])
    case Write(a) =>
      var answer := s.tasks[a].answer;
      s.(store := Reconciled(s.store, s.snapshot[a], answer, s.block), tasks := s.tasks[a := Done(answer)],
         free := s.free + 1)
  }

  /** The state after start-up: seeded stubs only, nothing probed, no pass yet. */
  ghost predicate Init(s: State, limit: nat) {
    && Keyed(s.store) && (forall a :: a in s.store ==> s.store[a].IsStub())
    && s.checked == {} && s.probed == {} && s.probing == {} && s.probes == multiset{}
    && s.known == {} && s.block == 0 && s.snapshot == map[] && s.tasks == map[] && s.free == limit
  }

  // ------------------------------------------------------------------------
  // Invariants
  // ------------------------------------------------------------------------

  ghost predicate DiscoveryInv(s: State) {
    && Keyed(s.store)
    && s.probing <= s.probed
    && (forall a :: a in s.probing ==> a !in s.store)
    && (forall a :: a in s.checked ==> a !in s.store || a in s.probed)
    && (forall a: Address :: s.probes[a] == if a in s.probed then 1 else 0)
  }

  /** The record a task leaves in the store, at each stage of the task. */
  function Expected(s: State, a: Address): PoolState
    requires a in s.tasks && a in s.snapshot
  {
    match s.tasks[a]
    case Done(answer) => Settled(s.snapshot[a], answer, s.block)
    case _ => s.snapshot[a]
  }

  ghost predicate PassInv(s: State) {
    && (forall a :: a in s.store ==> s.store[a].lastUpdatedBlock <= s.block)
    && (forall a :: a in s.tasks <==> a in s.snapshot)
    && (forall a :: a in s.snapshot ==> s.snapshot[a].address == a && s.snapshot[a].lastUpdatedBlock < s.block)
    && (forall a :: a in s.tasks ==> a in s.store && s.store[a] == Expected(s, a))
  }

  function Idle(s: State): set<Address> { set a | Is(s, a, Waiting) }

  /** Calls to the node under way. */
  function InFlight(s: State): set<Address> { set a | Is(s, a, Holding) }

  /** Tasks with an answer, about to write and give back their permit. */
  function Landed(s: State): set<Address> { set a | a in s.tasks && s.tasks[a].Fetched? }

  ghost predicate PermitInv(s: State, limit: nat) { s.free + |InFlight(s)| + |Landed(s)| == limit }

  ghost predicate Inv(s: State, limit: nat) { DiscoveryInv(s) && PassInv(s) && PermitInv(s, limit) }

  lemma InitInv(s: State, limit: nat)
    requires Init(s, limit)
    ensures Inv(s, limit)
  {
    NoneStarted(s);
  }

  lemma DiscoveryKept(s: State, step: Step, limit: nat)
    requires DiscoveryInv(s) && PassInv(s) && Enabled(s, step)
    ensures DiscoveryInv(Next(s, step, limit))
  {
    if step.Write? {
      hide DiscoveryInv;
      WriteKeepsDiscovery(s, step.a, limit);
    } else {
      hide PassInv;
    }
  }

  lemma WriteKeepsDiscovery(s: State, a: Address, limit: nat)
    requires DiscoveryInv(s) && PassInv(s) && Enabled(s, Write(a))
    ensures DiscoveryInv(Next(s, Write(a), limit))
  {
    assert s.snapshot[a].address == a;
  }

  lemma PassKept(s: State, step: Step, limit: nat)
    requires DiscoveryInv(s) && PassInv(s) && Enabled(s, step)
    ensures PassInv(Next(s, step, limit))
  {
    hide PassInv, Reconciled, Settled, Expected;
    var t := Next(s, step, limit);
    match step
    case BeginPass(_, listed) => NewPassKept(s, listed, t);
    case Register(stub) => RegisterKept(s, stub, t);
    case Write(a) => WriteKept(s, a, limit);
    case Acquire(a) => QuietKept(s, t);
    case Fetch(a, _) => QuietKept(s, t);
    case _ => QuietKept(s, t);
  }

  lemma NewPassKept(s: State, listed: set<Address>, t: State)
    requires Keyed(s.store) && PassInv(s) && s.block < t.block && t.store == s.store && listed <= s.store.Keys
    requires t.snapshot == map a | a in listed :: s.store[a]
    requires t.tasks == map a | a in listed :: Waiting
    ensures PassInv(t)
  {
  }

  lemma RegisterKept(s: State, stub: PoolState, t: State)
    requires PassInv(s) && stub.address !in s.store && stub.IsStub()
    requires t.store == s.store[stub.address := stub]
    requires t.block == s.block && t.snapshot == s.snapshot && t.tasks == s.tasks
    ensures PassInv(t)
  {
    hide Settled;
    forall a | a in t.tasks ensures a in t.store && t.store[a] == Expected(t, a) {
      assert a in s.tasks && Expected(t, a) == Expected(s, a);
    }
  }

  /** Steps that leave the store alone and move no task in or out of `Done`. */
  lemma QuietKept(s: State, t: State)
    requires PassInv(s) && t.store == s.store && t.block == s.block && t.snapshot == s.snapshot
    requires forall a :: a in t.tasks <==> a in s.tasks
    requires forall a :: a in s.tasks ==> t.tasks[a] == s.tasks[a] || (!t.tasks[a].Done? && !s.tasks[a].Done?)
    ensures PassInv(t)
  {
    hide Settled;
    forall a | a in t.tasks ensures a in t.store && t.store[a] == Expected(t, a) {
      assert a in s.tasks && Expected(t, a) == Expected(s, a);
    }
  }

  lemma WriteKept(s: State, a: Address, limit: nat)
    requires PassInv(s) && Enabled(s, Write(a))
    ensures PassInv(Next(s, Write(a), limit))
  {
    hide Next;
    var t := Next(s, Write(a), limit);
    WriteOnly(s, a, limit);
    forall b | b in t.tasks ensures b in t.store && t.store[b] == Expected(t, b) {
      assert b in s.tasks && s.store[b] == Expected(s, b);
    }
  }

  /** A write touches one record, and always stamps it when an answer came. */
  lemma WriteOnly(s: State, a: Address, limit: nat)
    requires PassInv(s) && Enabled(s, Write(a))
    ensures var answer := s.tasks[a].answer;
      && a in s.store
      && Next(s, Write(a), limit)
         == s.(store := s.store[a := Settled(s.snapshot[a], answer, s.block)], tasks := s.tasks[a := Done(answer)],
               free := s.free + 1)
  {
    var answer := s.tasks[a].answer;
    assert s.store[a] == Expected(s, a) && s.snapshot[a].address == a;
    if answer.Some? {
      EarlyReturnIsDead(s, a);
    } else {
      assert s.store[a := s.snapshot[a]] == s.store;
    }
  }

  lemma Acquired(s: State, a: Address, t: State)
    requires Is(s, a, Waiting) && t.tasks == s.tasks[a := Holding]
    ensures Idle(t) == Idle(s) - {a} && a in Idle(s)
    ensures InFlight(t) == InFlight(s) + {a} && a !in InFlight(s)
    ensures Landed(t) == Landed(s)
  {
  }

  lemma Answered(s: State, a: Address, answer: Option<Reserves>, t: State)
    requires Is(s, a, Holding) && t.tasks == s.tasks[a := Fetched(answer)]
    ensures Idle(t) == Idle(s)
    ensures InFlight(t) == InFlight(s) - {a} && a in InFlight(s)
    ensures Landed(t) == Landed(s) + {a} && a !in Landed(s)
  {
  }

  lemma Written(s: State, a: Address, answer: Option<Reserves>, t: State)
    requires Is(s, a, Fetched(answer)) && t.tasks == s.tasks[a := Done(answer)]
    ensures Idle(t) == Idle(s) && InFlight(t) == InFlight(s)
    ensures Landed(t) == Landed(s) - {a} && a in Landed(s)
  {
  }

  /** A task moves from one stage to the next, and the permits with it. */
  lemma AcquireMoves(s: State, a: Address, limit: nat)
    requires Enabled(s, Acquire(a))
    ensures var t := Next(s, Acquire(a), limit);
      && s.free > 0 && t.free == s.free - 1 && t.store == s.store
      && |Idle(t)| == |Idle(s)| - 1 && |InFlight(t)| == |InFlight(s)| + 1 && |Landed(t)| == |Landed(s)|
  {
    hide Idle, InFlight, Landed;
    Acquired(s, a, Next(s, Acquire(a), limit));
  }

  lemma FetchMoves(s: State, a: Address, answer: Option<Reserves>, limit: nat)
    requires Enabled(s, Fetch(a, answer))
    ensures var t := Next(s, Fetch(a, answer), limit);
      && t.free == s.free && t.store == s.store
      && |Idle(t)| == |Idle(s)| && |InFlight(t)| == |InFlight(s)| - 1 && |Landed(t)| == |Landed(s)| + 1
  {
    hide Idle, InFlight, Landed;
    Answered(s, a, answer, Next(s, Fetch(a, answer), limit));
  }

  lemma WriteMoves(s: State, a: Address, limit: nat)
    requires Enabled(s, Write(a))
    ensures var t := Next(s, Write(a), limit);
      && t.free == s.free + 1
      && |Idle(t)| == |Idle(s)| && |InFlight(t)| == |InFlight(s)| && |Landed(t)| == |Landed(s)| - 1
  {
    hide Reconciled, Idle, InFlight, Landed;
    Written(s, a, s.tasks[a].answer, Next(s, Write(a), limit));
  }

  lemma BeginIs(s: State, at: u64, listed: set<Address>, limit: nat)
    requires Enabled(s, BeginPass(at, listed))
    ensures var t := Next(s, BeginPass(at, listed), limit);
      && (forall a :: a in t.tasks ==> t.tasks[a].Waiting?) && t.free == limit && t.store == s.store
  {
  }

  predicate IsPassStep(step: Step) { step.Acquire? || step.Fetch? || step.Write? }

  /** Discovery and listing leave the tasks alone, and only a registration writes the store. */
  lemma DiscoveryIs(s: State, step: Step, limit: nat)
    requires Enabled(s, step) && !IsPassStep(step) && !step.BeginPass?
    ensures var t := Next(s, step, limit);
      && t.tasks == s.tasks && t.free == s.free
      && t.store == if step.Register? then s.store[step.stub.address := step.stub] else s.store
  {
  }

  lemma QuietMoves(s: State, step: Step, limit: nat)
    requires Enabled(s, step) && !IsPassStep(step) && !step.BeginPass?
    ensures var t := Next(s, step, limit);
      Idle(t) == Idle(s) && InFlight(t) == InFlight(s) && Landed(t) == Landed(s) && t.free == s.free
  {
    DiscoveryIs(s, step, limit);
  }

  lemma PermitsKept(s: State, step: Step, limit: nat)
    requires PermitInv(s, limit) && Enabled(s, step)
    ensures PermitInv(Next(s, step, limit), limit)
  {
    hide Next, Enabled, Idle, InFlight, Landed;
    match step
    case BeginPass(at, listed) => BeginIs(s, at, listed, limit); NoneStarted(Next(s, step, limit));
    case Acquire(a) => AcquireMoves(s, a, limit);
    case Fetch(a, answer) => FetchMoves(s, a, answer, limit);
    case Write(a) => WriteMoves(s, a, limit);
    case _ => QuietMoves(s, step, limit);
  }

  lemma NoneStarted(s: State)
    requires forall a :: a in s.tasks ==> s.tasks[a].Waiting?
    ensures InFlight(s) == {} && Landed(s) == {}
  {
  }

  lemma InvKept(s: State, step: Step, limit: nat)
    requires Inv(s, limit) && Enabled(s, step)
    ensures Inv(Next(s, step, limit), limit)
  {
    hide Next, PassInv, DiscoveryInv, PermitInv;
    DiscoveryKept(s, step, limit);
    PassKept(s, step, limit);
    PermitsKept(s, step, limit);
  }

  /** Passes run at growing blocks, so no task ever takes the early return. */
  lemma EarlyReturnIsDead(s: State, a: Address)
    requires PassInv(s) && a in s.tasks && s.tasks[a].Fetched? && s.tasks[a].answer.Some?
    ensures !Skips(s.snapshot[a], s.tasks[a].answer.value, s.block)
  {
    assert a in s.snapshot;
  }

  // ------------------------------------------------------------------------
  // What every step keeps of the store
  // ------------------------------------------------------------------------

  /** How the store may move on: pools stay, identities stay, stamps grow, and one stamp means one record. */
  ghost predicate Preserves(before: Pools, after: Pools) {
    forall a :: a in before ==>
      && a in after && before[a].SameIdentity(after[a])
      && before[a].lastUpdatedBlock <= after[a].lastUpdatedBlock
      && (before[a].lastUpdatedBlock == after[a].lastUpdatedBlock ==> before[a] == after[a])
  }

  lemma PreservesTransitive(x: Pools, y: Pools, z: Pools)
    requires Preserves(x, y) && Preserves(y, z)
    ensures Preserves(x, z)
  {
  }

  lemma StepPreserves(s: State, step: Step, limit: nat)
    requires Inv(s, limit) && Enabled(s, step)
    ensures Preserves(s.store, Next(s, step, limit).store)
  {
    hide PermitInv, DiscoveryInv, PassInv, Next, Enabled, Preserves;
    PreservesReflexive(s.store);
    match step
    case BeginPass(at, listed) => BeginIs(s, at, listed, limit);
    case Acquire(a) => AcquireMoves(s, a, limit);
    case Fetch(a, answer) => FetchMoves(s, a, answer, limit);
    case Write(a) => WritePreserves(s, a, limit);
    case Register(stub) => DiscoveryIs(s, step, limit); RegisterPreserves(s, stub);
    case _ => DiscoveryIs(s, step, limit);
  }

  lemma RegisterPreserves(s: State, stub: PoolState)
    requires DiscoveryInv(s) && Enabled(s, Register(stub))
    ensures Preserves(s.store, s.store[stub.address := stub])
  {
  }

  lemma WritePreserves(s: State, a: Address, limit: nat)
    requires PassInv(s) && Enabled(s, Write(a))
    ensures Preserves(s.store, Next(s, Write(a), limit).store)
  {
    hide Next;
    WriteOnly(s, a, limit);
    assert s.store[a] == Expected(s, a);
  }

  /** A finite run: `states[i + 1]` follows from `states[i]` by an enabled step. */
  ghost predicate Run(states: seq<State>, steps: seq<Step>, limit: nat) {
    && |states| == |steps| + 1
    && Init(states[0], limit)
    && forall i :: 0 <= i < |steps| ==> Follows(states[i], steps[i], states[i + 1], limit)
  }

  ghost predicate Follows(s: State, step: Step, t: State, limit: nat) {
    Enabled(s, step) && t == Next(s, step, limit)
  }

  lemma {:induction false} RunInv(states: seq<State>, steps: seq<Step>, limit: nat, i: nat)
    requires Run(states, steps, limit) && i < |states|
    ensures Inv(states[i], limit)
  {
    hide Init, Inv, Enabled, Next;
    if i == 0 {
      InitInv(states[0], limit);
    } else {
      RunInv(states, steps, limit, i - 1);
      assert Follows(states[i - 1], steps[i - 1], states[i], limit);
      InvKept(states[i - 1], steps[i - 1], limit);
    }
  }

  /**
    Over any run: no pool is removed, identities never change, no stamp decreases,
    and a record changes only together with its stamp.
   */
  lemma {:induction false} RunPreserves(states: seq<State>, steps: seq<Step>, limit: nat, i: nat, j: nat)
    requires Run(states, steps, limit) && i <= j < |states|
    ensures Preserves(states[i].store, states[j].store)
    decreases j - i
  {
    hide Init, Inv, Enabled, Next;
    if i == j {
      hide Preserves;
      PreservesReflexive(states[i].store);
    } else {
      hide Preserves;
      RunPreserves(states, steps, limit, i, j - 1);
      RunInv(states, steps, limit, j - 1);
      assert Follows(states[j - 1], steps[j - 1], states[j], limit);
      StepPreserves(states[j - 1], steps[j - 1], limit);
      PreservesTransitive(states[i].store, states[j - 1].store, states[j].store);
    }
  }

  lemma PreservesReflexive(pools: Pools)
    ensures Preserves(pools, pools)
  {
  }

  /** Once reconciled, a pool is never again the stub it was discovered as. */
  lemma HydratedStaysHydrated(states: seq<State>, steps: seq<Step>, limit: nat, i: nat, j: nat, a: Address)
    requires Run(states, steps, limit) && i <= j < |states|
    requires a in states[i].store && states[i].store[a].lastUpdatedBlock > 0
    ensures a in states[j].store && !states[j].store[a].IsStub()
  {
    hide Init, Inv, Enabled, Next;
    RunPreserves(states, steps, limit, i, j);
  }

  /** Each address is probed at most once, and what a probe finds is stored only while absent. */
  lemma ProbedOnceAndOnlyIfAbsent(states: seq<State>, steps: seq<Step>, limit: nat, i: nat, a: Address)
    requires Run(states, steps, limit) && i < |states|
    ensures states[i].probes[a] <= 1
    ensures a in states[i].probing ==> a !in states[i].store
    ensures i < |steps| && steps[i].Register? ==> steps[i].stub.address !in states[i].store
  {
    hide Init, Next;
    RunInv(states, steps, limit, i);
    if i < |steps| {
      assert Follows(states[i], steps[i], states[i + 1], limit);
    }
  }

  // ------------------------------------------------------------------------
  // What a pass achieves
  // ------------------------------------------------------------------------

  /** The answers the tasks of the current pass received. */
  function Answers(s: State): Address -> Option<Reserves> {
    a => if a in s.tasks && (s.tasks[a].Done? || s.tasks[a].Fetched?) then s.tasks[a].answer else None
  }

  /**
    Every interleaving of a finished pass leaves its pools as the sequential pass
    does, whatever discovery added meanwhile.
   */
  lemma PassEndsAsSequential(states: seq<State>, steps: seq<Step>, limit: nat, i: nat)
    requires Run(states, steps, limit) && i < |states| && AllDone(states[i])
    ensures var s := states[i];
      && (forall a :: a in s.snapshot ==>
            a in s.store && s.store[a] == PassResult(s.snapshot, Answers(s), s.block)[a])
      && |s.snapshot| == |UpdatedPools(s.snapshot, Answers(s))| + |UnchangedPools(s.snapshot, Answers(s))|
                       + |FailedPools(s.snapshot, Answers(s))|
  {
    hide Init, Enabled, Next;
    RunInv(states, steps, limit, i);
    EveryPoolIsCountedOnce(states[i].snapshot, Answers(states[i]));
  }

  /** If the chain stood still, the pools a finished pass could fetch agree with it; the others are untouched. */
  lemma PassAgreesWithChain(states: seq<State>, steps: seq<Step>, limit: nat, i: nat, chain: Address -> Reserves)
    requires Run(states, steps, limit) && i < |states| && AllDone(states[i])
    requires var s := states[i];
      forall a :: a in s.tasks && s.tasks[a].answer.Some? ==> s.tasks[a].answer.value == chain(a)
    ensures var s := states[i]; forall a :: a in s.snapshot ==>
      && a in s.store
      && (Answers(s)(a).Some? ==>
            && s.store[a].reserve0 == chain(a).reserve0 && s.store[a].reserve1 == chain(a).reserve1
            && s.store[a].lastUpdatedBlock == s.block)
      && (Answers(s)(a).None? ==> s.store[a] == s.snapshot[a])
  {
    hide Init, Enabled, Next;
    RunInv(states, steps, limit, i);
  }

  /** Until the next pass begins, its block and its captured records stay. */
  lemma {:induction false} PassStays(states: seq<State>, steps: seq<Step>, limit: nat, k: nat, i: nat)
    requires Run(states, steps, limit) && k < i < |states| && steps[k].BeginPass?
    requires forall l :: k < l < i ==> !steps[l].BeginPass?
    ensures states[i].block == steps[k].at && states[i].snapshot.Keys == steps[k].listed
    ensures forall a :: a in states[i].snapshot ==> a in states[k].store && states[i].snapshot[a] == states[k].store[a]
    decreases i
  {
    hide Init, Reconciled;
    assert Follows(states[i - 1], steps[i - 1], states[i], limit);
    if i > k + 1 {
      PassStays(states, steps, limit, k, i - 1);
    }
  }

  /** A task keeps the answer it was given. */
  lemma {:induction false} AnswerStays(states: seq<State>, steps: seq<Step>, limit: nat, j: nat, i: nat)
    requires Run(states, steps, limit) && j < i < |states| && steps[j].Fetch?
    requires forall l :: j < l < i ==> !steps[l].BeginPass?
    ensures var a := steps[j].a;
      a in states[i].tasks && (states[i].tasks[a].Fetched? || states[i].tasks[a].Done?)
      && states[i].tasks[a].answer == steps[j].answer
    decreases i
  {
    hide Init, Reconciled;
    assert Follows(states[i - 1], steps[i - 1], states[i], limit);
    if i > j + 1 {
      AnswerStays(states, steps, limit, j, i - 1);
    }
  }

  /**
    What the node answers takes effect: when the pass begun at k is over, a pool
    whose call was answered during it holds the answer, stamped with the pass's
    block; a pool whose call failed is as it was when the pass began.
   */
  lemma AnswerTakesEffect(states: seq<State>, steps: seq<Step>, limit: nat, k: nat, j: nat, i: nat)
    requires Run(states, steps, limit) && k < j < i < |states| && steps[k].BeginPass? && steps[j].Fetch?
    requires (forall l :: k < l < i ==> !steps[l].BeginPass?) && AllDone(states[i])
    ensures var a, answer := steps[j].a, steps[j].answer;
      && a in states[i].store && a in states[k].store
      && (if answer.Some? then
            && states[i].store[a].reserve0 == answer.value.reserve0
            && states[i].store[a].reserve1 == answer.value.reserve1
            && states[i].store[a].lastUpdatedBlock == steps[k].at
          else states[i].store[a] == states[k].store[a])
  {
    hide Init, Enabled, Next;
    PassStays(states, steps, limit, k, i);
    AnswerStays(states, steps, limit, j, i);
    RunInv(states, steps, limit, i);
    hide DiscoveryInv, PermitInv;
  }

  /** Permits bound the calls in flight in every reachable state. */
  lemma NeverMoreThanLimitInFlight(states: seq<State>, steps: seq<Step>, limit: nat, i: nat)
    requires Run(states, steps, limit) && i < |states|
    ensures |InFlight(states[i])| <= limit
  {
    hide Init, Enabled, Next, DiscoveryInv, PassInv;
    RunInv(states, steps, limit, i);
  }

  /** Every pool stored when the listing of addresses began gets a task, whatever is registered meanwhile. */
  lemma PassCoversKnown(states: seq<State>, steps: seq<Step>, limit: nat, i: nat, j: nat)
    requires Run(states, steps, limit) && i < j < |steps| && steps[i].List? && steps[j].BeginPass?
    requires forall k :: i < k < j ==> !steps[k].List?
    ensures forall a :: a in states[i].store ==> a in states[j + 1].tasks && a in states[j + 1].snapshot
  {
    hide Init;
    KnownStays(states, steps, limit, i, j);
    assert Follows(states[j], steps[j], states[j + 1], limit);
  }

  lemma {:induction false} KnownStays(states: seq<State>, steps: seq<Step>, limit: nat, i: nat, j: nat)
    requires Run(states, steps, limit) && i < j < |states| && steps[i].List?
    requires forall k :: i < k < j ==> !steps[k].List?
    ensures states[j].known == states[i].store.Keys
    decreases j
  {
    hide Init, Reconciled;
    assert Follows(states[j - 1], steps[j - 1], states[j], limit);
    if i < j - 1 {
      KnownStays(states, steps, limit, i, j - 1);
    }
  }

  // ------------------------------------------------------------------------
  // A pass ends
  // ------------------------------------------------------------------------

  function Work(s: State): nat { 3 * |Idle(s)| + 2 * |InFlight(s)| + |Landed(s)| }

  /** Each step of a task uses up work, and discovery adds none. */
  lemma WorkDecreases(s: State, step: Step, limit: nat)
    requires Enabled(s, step) && !step.BeginPass?
    ensures IsPassStep(step) ==> Work(Next(s, step, limit)) < Work(s)
    ensures !IsPassStep(step) ==> Work(Next(s, step, limit)) == Work(s)
  {
    hide Next, Enabled, Idle, InFlight, Landed;
    match step
    case Acquire(a) => AcquireMoves(s, a, limit);
    case Fetch(a, answer) => FetchMoves(s, a, answer, limit);
    case Write(a) => WriteMoves(s, a, limit);
    case _ => QuietMoves(s, step, limit);
  }

  /** With at least one permit an unfinished pass can always move; with none it never starts. */
  lemma PassMovesIff(states: seq<State>, steps: seq<Step>, limit: nat, i: nat)
    requires Run(states, steps, limit) && i < |states| && !AllDone(states[i])
    ensures limit > 0 <==> exists step :: IsPassStep(step) && Enabled(states[i], step)
  {
    RunInv(states, steps, limit, i);
    hide Init, Next, Run, Follows, DiscoveryInv, PassInv, PermitInv, IsPassStep, Enabled, AllDone;
    if limit > 0 {
      var step := SomeMove(states[i], limit);
      assert IsPassStep(step) && Enabled(states[i], step);
    } else {
      forall step | IsPassStep(step) ensures !Enabled(states[i], step) {
        NoMove(states[i], step);
      }
    }
  }

  lemma SomeMove(s: State, limit: nat) returns (step: Step)
    requires PassInv(s) && PermitInv(s, limit) && limit > 0 && !AllDone(s)
    ensures IsPassStep(step) && Enabled(s, step)
  {
    if h :| h in InFlight(s) {
      step := Fetch(h, None);
    } else if h :| h in Landed(s) {
      step := Write(h);
    } else {
      assert InFlight(s) == {} && Landed(s) == {};
      var a :| a in s.tasks && !s.tasks[a].Done?;
      assert a !in InFlight(s) && a !in Landed(s);
      step := Acquire(a);
    }
  }

  lemma NoMove(s: State, step: Step)
    requires PermitInv(s, 0) && IsPassStep(step)
    ensures !Enabled(s, step)
  {
    assert |InFlight(s)| == 0 && |Landed(s)| == 0;
    if !step.Acquire? {
      assert step.a !in InFlight(s) && step.a !in Landed(s);
    }
  }
}
