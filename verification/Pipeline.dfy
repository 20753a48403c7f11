/**
  Detection and execution as one step system (bin/arbx.rs:491-643). Opportunities
  are numbered in the order in which they clear the profit threshold.
 */
module Pipeline {
  import opened Wrappers
  import opened Words
  import opened Types
  import opened Submitter
  import opened Ledger

  const QUEUE_CAPACITY: nat := 256

  /** A live submission that was mined. */
  datatype Settlement = Settlement(
    opportunity: Opportunity,
    l1Gas: u64,
    gasPriceWei: u128,
    receipt: Receipt,
    ethPriceUsd: real,
    nowMs: u64)

  predicate Settled(x: Settlement) { Settle(x.opportunity, x.l1Gas, x.gasPriceWei, x.receipt).Ok? }

  function EntryOf(x: Settlement): Entry
    requires Settled(x)
  {
    Entry(Settle(x.opportunity, x.l1Gas, x.gasPriceWei, x.receipt).value, x.ethPriceUsd, x.nowMs)
  }

  /** One task's record in the ledger, with the submission behind it in live mode. */
  datatype Booking = Booking(id: nat, entry: Entry, settlement: Option<Settlement>)

  /** The spawned tasks, by what they are doing; those between `waiting` and `finished` hold a permit. */
  datatype Tasks = Tasks(
    waiting: set<nat>,
    simulating: set<nat>,
    simulated: set<nat>,          // about to submit
    submitted: set<nat>,          // mined, about to record
    finished: set<nat>,
    free: nat)

  datatype State = State(
    detecting: bool,              // the detection loop is running
    open: bool,                   // the execution loop is receiving
    detected: nat,
    clearedThreshold: nat,
    clearedSimulation: nat,
    pending: seq<ArbPath>,        // paths of the current swap not yet filtered
    opps: seq<Opportunity>,       // every opportunity that cleared the threshold
    inSend: Option<nat>,
    queue: seq<nat>,
    dropped: set<nat>,
    tasks: Tasks,
    gas: map<nat, u64>,           // each task's own result of its simulation
    mined: map<nat, Settlement>,  // and of its submission
    ledger: PnlState,
    booked: seq<Booking>)

  /** What does not change during a run. */
  datatype Setup = Setup(maxConcurrent: nat, dryRun: bool, budgetUsd: real, base: PnlState)

  datatype Step =
    | Detect(paths: seq<ArbPath>)
    | Clear(opp: Opportunity)
    | Skip
    | Send
    | SendFails
    | Receive
    | Close
    | Task(id: nat, move: Move)

  /** What one spawned task does next. */
  datatype Move =
    | Acquire
    | SimulationSucceeds(gasUsed: u64)
    | SimulationFails
    | SubmissionSucceeds(settlement: Settlement)
    | SubmissionFails
    | RecordLive
    | RecordDry(ethPriceUsd: real, nowMs: u64)

  predicate Enabled(c: Setup, s: State, step: Step) {
    match step
    case Detect(_) => s.detecting && s.pending == [] && s.inSend.None?
    case Clear(opp) => s.detecting && s.inSend.None? && s.pending != [] && opp.path == s.pending[0]
    case Skip => s.detecting && s.inSend.None? && s.pending != []
    case Send => s.inSend.Some? && s.open && |s.queue| < QUEUE_CAPACITY
    case SendFails => s.inSend.Some? && !s.open
    case Receive => s.open && s.queue != []
    case Close => s.open
    case Task(id, move) => CanMove(c, s, id, move)
  }

  predicate CanMove(c: Setup, s: State, id: nat, move: Move) {
    match move
    case Acquire => id in s.tasks.waiting && s.tasks.free > 0
    case SimulationSucceeds(_) => id in s.tasks.simulating
    case SimulationFails => id in s.tasks.simulating
    case SubmissionSucceeds(settlement) =>
      !c.dryRun && id in s.tasks.simulated && Backs(s.opps, id, settlement)
    case SubmissionFails => !c.dryRun && id in s.tasks.simulated
    case RecordLive => id in s.tasks.submitted && id in s.mined && Backs(s.opps, id, s.mined[id])
    case RecordDry(_, _) => c.dryRun && id in s.tasks.simulated && id in s.gas && id < |s.opps|
  }

  /** The submission really was made for opportunity `id`. */
  predicate Backs(opps: seq<Opportunity>, id: nat, settlement: Settlement) {
    id < |opps| && settlement.opportunity == opps[id] && Settled(settlement)
  }

  /** Which container task `id` moves to; a task that ends gives back its permit. */
  function Moved(t: Tasks, id: nat, move: Move): Tasks
    requires move.Acquire? ==> t.free > 0
  {
    match move
    case Acquire => t.(waiting := t.waiting - {id}, simulating := t.simulating + {id}, free := t.free - 1)
    case SimulationSucceeds(_) => t.(simulating := t.simulating - {id}, simulated := t.simulated + {id})
    case SimulationFails => t.(simulating := t.simulating - {id}, finished := t.finished + {id}, free := t.free + 1)
    case SubmissionSucceeds(_) => t.(simulated := t.simulated - {id}, submitted := t.submitted + {id})
    case SubmissionFails => t.(simulated := t.simulated - {id}, finished := t.finished + {id}, free := t.free + 1)
    case RecordLive => t.(submitted := t.submitted - {id}, finished := t.finished + {id}, free := t.free + 1)
    case RecordDry(_, _) => t.(simulated := t.simulated - {id}, finished := t.finished + {id}, free := t.free + 1)
  }

  /** What a task hands to `record_submission`, if this move does. */
  function Made(c: Setup, s: State, id: nat, move: Move): Option<Booking>
    requires CanMove(c, s, id, move)
  {
    match move
    case RecordLive => Some(Booking(id, EntryOf(s.mined[id]), Some(s.mined[id])))
    case RecordDry(price, ms) =>
      Some(Booking(id, Entry(DryRunResult(s.opps[id], s.gas[id]), price, ms), None))
    case _ => None
  }

  /** `record_submission`, in its mutex; one that panics books nothing. */
  function Book(c: Setup, s: State, made: Option<Booking>): State {
    if made.None? || Panics(made.value.entry) then s
    else s.(ledger := Recorded(s.ledger, made.value.entry, c.budgetUsd), booked := s.booked + [made.value])
  }

  function Next(c: Setup, s: State, step: Step): State
    requires Enabled(c, s, step)
  {
    match step
    case Detect(paths) => s.(detected := s.detected + |paths|, pending := paths)
    case Clear(opp) =>
      s.(clearedThreshold := s.clearedThreshold + 1, pending := s.pending[1..], opps := s.opps + [opp],
         inSend := Some(|s.opps|))
    case Skip => s.(pending := s.pending[1..])
    case Send => s.(inSend := None, queue := s.queue + [s.inSend.value])
    case SendFails => s.(inSend := None, dropped := s.dropped + {s.inSend.value}, detecting := false, pending := [])
    case Receive =>
      s.(queue := s.queue[1..], tasks := s.tasks.(waiting := s.tasks.waiting + {s.queue[0]}))
    case Close => s.(open := false, dropped := s.dropped + (set i | i in s.queue), queue := [])
    case Task(id, move) =>
      Book(c, s, Made(c, s, id, move)).(
        clearedSimulation := s.clearedSimulation + (if move.SimulationSucceeds? then 1 else 0),
        gas := if move.SimulationSucceeds? then s.gas[id := move.gasUsed] else s.gas,
        mined := if move.SubmissionSucceeds? then s.mined[id := move.settlement] else s.mined,
        tasks := Moved(s.tasks, id, move))
  }

  predicate Init(c: Setup, s: State) {
    s == State(true, true, 0, 0, 0, [], [], None, [], {}, Tasks({}, {}, {}, {}, {}, c.maxConcurrent), map[], map[],
               c.base, [])
  }

  // ------------------------------------------------------------------------
  // Every cleared opportunity is in exactly one place
  // ------------------------------------------------------------------------

  function One(b: bool): nat { if b then 1 else 0 }

  /** In how many of the containers of the execution side task `id` is. */
  function TaskPlaces(t: Tasks, id: nat): nat {
    One(id in t.waiting) + One(id in t.simulating) + One(id in t.simulated) + One(id in t.submitted)
    + One(id in t.finished)
  }

  /** In how many places opportunity `id` is. */
  function Places(s: State, id: nat): nat {
    One(s.inSend == Some(id)) + multiset(s.queue)[id] + One(id in s.dropped) + TaskPlaces(s.tasks, id)
  }

  ghost predicate PlaceInv(s: State) {
    && s.clearedThreshold == |s.opps|
    && forall id: nat :: Places(s, id) == One(id < |s.opps|)
  }

  lemma PlacesKept(c: Setup, s: State, step: Step)
    requires PlaceInv(s) && Enabled(c, s, step)
    ensures PlaceInv(Next(c, s, step))
  {
    if step.Task? {
      hide *;
      PlacesOfTask(c, s, step.id, step.move);
    } else {
      PlacesOfFront(c, s, step);
    }
  }

  lemma PlacesOfFront(c: Setup, s: State, step: Step)
    requires PlaceInv(s) && Enabled(c, s, step) && !step.Task?
    ensures PlaceInv(Next(c, s, step))
  {
    if step.Clear? {
      PlacesOfCleared(c, s, step);
    } else if step.Receive? {
      PlacesOfReceived(c, s);
    } else {
      PlacesOfSent(c, s, step);
    }
  }

  lemma PlacesOfCleared(c: Setup, s: State, step: Step)
    requires PlaceInv(s) && Enabled(c, s, step) && step.Clear?
    ensures PlaceInv(Next(c, s, step))
  {
    hide TaskPlaces;
    forall id: nat ensures Places(Next(c, s, step), id) == Places(s, id) + One(id == |s.opps|) {}
  }

  /** Into the queue or dropped, or nothing moves. */
  lemma PlacesOfSent(c: Setup, s: State, step: Step)
    requires PlaceInv(s) && Enabled(c, s, step) && !step.Task? && !step.Clear? && !step.Receive?
    ensures PlaceInv(Next(c, s, step))
  {
    hide TaskPlaces;
    forall id: nat ensures Places(Next(c, s, step), id) == Places(s, id) {
      AtMostOne(s, id);
      assert id in s.queue <==> multiset(s.queue)[id] > 0;
    }
  }

  lemma PlacesOfReceived(c: Setup, s: State)
    requires PlaceInv(s) && Enabled(c, s, Receive)
    ensures PlaceInv(Next(c, s, Receive))
  {
    var t := Next(c, s, Receive);
    assert s.queue == [s.queue[0]] + t.queue;
    forall id: nat ensures Places(t, id) == Places(s, id) {
      AtMostOne(s, id);
    }
  }

  lemma PlacesOfTask(c: Setup, s: State, id: nat, move: Move)
    requires PlaceInv(s) && Enabled(c, s, Task(id, move))
    ensures PlaceInv(Next(c, s, Task(id, move)))
  {
    hide Recorded, Panics, Made, Backs, TaskPlaces, Moved;
    AtMostOne(s, id);
    var t := Next(c, s, Task(id, move));
    forall i: nat ensures Places(t, i) == Places(s, i) {
      MovedPlaces(c, s, id, move, i);
    }
  }

  lemma MovedPlaces(c: Setup, s: State, id: nat, move: Move, i: nat)
    requires CanMove(c, s, id, move) && TaskPlaces(s.tasks, id) <= 1
    ensures TaskPlaces(Moved(s.tasks, id, move), i) == TaskPlaces(s.tasks, i)
  {
    hide Backs;
  }

  lemma AtMostOne(s: State, id: nat)
    requires PlaceInv(s)
    ensures Places(s, id) <= 1 && TaskPlaces(s.tasks, id) <= 1
  {
    hide TaskPlaces;
  }

  // ------------------------------------------------------------------------
  // Permits and counters
  // ------------------------------------------------------------------------

  function Running(t: Tasks): nat { |t.simulating| + |t.simulated| + |t.submitted| }

  ghost predicate CountInv(c: Setup, s: State) {
    && s.tasks.free + Running(s.tasks) == c.maxConcurrent
    && |s.queue| <= QUEUE_CAPACITY && (s.queue != [] ==> s.open)
    && |s.opps| + |s.pending| <= s.detected
    && s.clearedSimulation + One(s.inSend.Some?) + |s.queue| + |s.tasks.waiting| + |s.tasks.simulating| <= |s.opps|
    && |s.booked| + |s.tasks.simulated| + |s.tasks.submitted| <= s.clearedSimulation
  }

  lemma CountsKept(c: Setup, s: State, step: Step)
    requires PlaceInv(s) && CountInv(c, s) && Enabled(c, s, step)
    ensures CountInv(c, Next(c, s, step))
  {
    hide Places, TaskPlaces;
    if step.Task? {
      hide Enabled, CanMove, Next, PlaceInv;
      CountsOfTask(c, s, step.id, step.move);
    } else {
      hide PlaceInv;
    }
  }

  lemma CountsOfTask(c: Setup, s: State, id: nat, move: Move)
    requires PlaceInv(s) && CountInv(c, s) && Enabled(c, s, Task(id, move))
    ensures CountInv(c, Next(c, s, Task(id, move)))
  {
    hide PlaceInv, Places, TaskPlaces, Moved, CanMove, Recorded, Panics, EntryOf, DryRunResult, Running;
    AtMostOne(s, id);
    MovedCounts(c, s, id, move);
    MadeByRecords(c, s, id, move);
  }

  predicate Records(move: Move) { move.RecordLive? || move.RecordDry? }

  lemma MadeByRecords(c: Setup, s: State, id: nat, move: Move)
    requires CanMove(c, s, id, move)
    ensures Made(c, s, id, move).Some? <==> Records(move)
  {
    hide EntryOf, DryRunResult, Backs;
  }

  lemma MovedCounts(c: Setup, s: State, id: nat, move: Move)
    requires CanMove(c, s, id, move) && TaskPlaces(s.tasks, id) <= 1
    ensures var t, m := s.tasks, Moved(s.tasks, id, move);
      && m.free + Running(m) == t.free + Running(t)
      && |m.waiting| + |m.simulating|
         == |t.waiting| + |t.simulating| - One(move.SimulationSucceeds? || move.SimulationFails?)
      && |m.simulated| + |m.submitted|
         == |t.simulated| + |t.submitted| + One(move.SimulationSucceeds?) - One(move.SubmissionFails? || Records(move))
  {
    MovedSizes(c, s, id, move);
    hide CanMove, TaskPlaces, Moved;
  }

  /** Which container loses the task, which gains it, and what becomes of its permit. */
  lemma MovedSizes(c: Setup, s: State, id: nat, move: Move)
    requires CanMove(c, s, id, move) && TaskPlaces(s.tasks, id) <= 1
    ensures var t, m := s.tasks, Moved(s.tasks, id, move);
      && |m.waiting| == |t.waiting| - One(move.Acquire?)
      && |m.simulating|
         == |t.simulating| + One(move.Acquire?) - One(move.SimulationSucceeds? || move.SimulationFails?)
      && |m.simulated|
         == |t.simulated| + One(move.SimulationSucceeds?)
            - One(move.SubmissionSucceeds? || move.SubmissionFails? || move.RecordDry?)
      && |m.submitted| == |t.submitted| + One(move.SubmissionSucceeds?) - One(move.RecordLive?)
      && m.free == t.free - One(move.Acquire?) + One(move.SimulationFails? || move.SubmissionFails? || Records(move))
  {
    var t := s.tasks;
    OnlyThere(t, id);
    hide Backs, TaskPlaces;
    match move
    case Acquire => Shift(t.waiting, t.simulating, id);
    case SimulationSucceeds(_) => Shift(t.simulating, t.simulated, id);
    case SimulationFails => Shift(t.simulating, t.finished, id);
    case SubmissionSucceeds(_) => Shift(t.simulated, t.submitted, id);
    case SubmissionFails => Shift(t.simulated, t.finished, id);
    case RecordLive => Shift(t.submitted, t.finished, id);
    case RecordDry(_, _) => Shift(t.simulated, t.finished, id);
  }

  /** A task is in one container at a time. */
  lemma OnlyThere(t: Tasks, id: nat)
    requires TaskPlaces(t, id) <= 1
    ensures id in t.waiting ==> id !in t.simulating
    ensures id in t.simulating ==> id !in t.simulated && id !in t.finished
    ensures id in t.simulated ==> id !in t.submitted && id !in t.finished
    ensures id in t.submitted ==> id !in t.finished
  {
  }

  lemma Shift(from: set<nat>, to: set<nat>, id: nat)
    requires id in from && id !in to
    ensures |from - {id}| == |from| - 1 && |to + {id}| == |to| + 1
  {
  }

  // ------------------------------------------------------------------------
  // The ledger
  // ------------------------------------------------------------------------

  /** A booking belongs to its opportunity, and to the mode of the run. */
  predicate Proper(c: Setup, opps: seq<Opportunity>, b: Booking) {
    && b.id < |opps|
    && c.dryRun == b.settlement.None?
    && (if c.dryRun then b.entry.result == DryRunResult(opps[b.id], b.entry.result.gasUsed)
        else Backs(opps, b.id, b.settlement.value) && b.entry == EntryOf(b.settlement.value))
  }

  ghost predicate BookInv(c: Setup, s: State) {
    && (forall i :: 0 <= i < |s.booked| ==> s.booked[i].id in s.tasks.finished && Proper(c, s.opps, s.booked[i]))
    && (forall i, j :: 0 <= i < j < |s.booked| ==> s.booked[i].id != s.booked[j].id)
    && (forall id :: id in s.tasks.submitted ==> !c.dryRun && id in s.mined && Backs(s.opps, id, s.mined[id]))
    && s.tasks.simulated <= s.gas.Keys
  }

  lemma BooksKept(c: Setup, s: State, step: Step)
    requires PlaceInv(s) && BookInv(c, s) && Enabled(c, s, step)
    ensures BookInv(c, Next(c, s, step))
  {
    hide PlaceInv, Places;
    if step.Task? {
      hide Enabled, CanMove, Next, BookInv;
      BooksOfTask(c, s, step.id, step.move);
    } else {
      hide Settled, EntryOf, DryRunResult;
    }
  }

  lemma BooksOfTask(c: Setup, s: State, id: nat, move: Move)
    requires PlaceInv(s) && BookInv(c, s) && Enabled(c, s, Task(id, move))
    ensures BookInv(c, Next(c, s, Task(id, move)))
  {
    hide PlaceInv, Places, TaskPlaces, BookInv, Proper, Backs, Made, Moved, Recorded, Panics;
    MovedBooks(c, s, id, move);
    var t := WithoutBooking(c, s, id, move);
    hide CanMove;
    MadeIsProper(c, s, id, move);
    var made, n := Made(c, s, id, move), Next(c, s, Task(id, move));
    if made.Some? {
      NotBookedBefore(c, s, id);
      BooksOfRecord(c, s, made.value, t, n);
    } else {
      BooksOfSame(c, t, n);
    }
  }

  /** The move of a task, but for its record. */
  function WithoutBooking(c: Setup, s: State, id: nat, move: Move): State
    requires CanMove(c, s, id, move)
  {
    s.(gas := if move.SimulationSucceeds? then s.gas[id := move.gasUsed] else s.gas,
       mined := if move.SubmissionSucceeds? then s.mined[id := move.settlement] else s.mined,
       tasks := Moved(s.tasks, id, move))
  }

  lemma MovedBooks(c: Setup, s: State, id: nat, move: Move)
    requires BookInv(c, s) && CanMove(c, s, id, move)
    ensures BookInv(c, WithoutBooking(c, s, id, move))
  {
    hide Proper, Backs;
  }

  lemma BooksOfSame(c: Setup, s: State, n: State)
    requires BookInv(c, s) && n.opps == s.opps && n.tasks == s.tasks && n.booked == s.booked
    requires n.gas == s.gas && n.mined == s.mined
    ensures BookInv(c, n)
  {
    hide Proper, Backs;
  }

  lemma NotBookedBefore(c: Setup, s: State, id: nat)
    requires PlaceInv(s) && BookInv(c, s) && (id in s.tasks.simulated || id in s.tasks.submitted)
    ensures forall i :: 0 <= i < |s.booked| ==> s.booked[i].id != id
  {
    AtMostOne(s, id);
    hide Proper, Backs, PlaceInv, Places;
  }

  lemma BooksOfRecord(c: Setup, s: State, b: Booking, t: State, n: State)
    requires BookInv(c, t) && t.opps == s.opps && t.booked == s.booked
    requires n.gas == t.gas && n.mined == t.mined
    requires n.opps == s.opps && n.tasks == t.tasks && (n.booked == s.booked || n.booked == s.booked + [b])
    requires forall i :: 0 <= i < |s.booked| ==> s.booked[i].id != b.id
    requires b.id in t.tasks.finished && Proper(c, s.opps, b)
    ensures BookInv(c, n)
  {
    hide Proper, Backs;
  }

  lemma MadeIsProper(c: Setup, s: State, id: nat, move: Move)
    requires BookInv(c, s) && CanMove(c, s, id, move)
    ensures var made := Made(c, s, id, move);
      made.Some? ==>
        && made.value.id == id && Proper(c, s.opps, made.value)
        && (id in s.tasks.simulated || id in s.tasks.submitted)
        && id in Moved(s.tasks, id, move).finished
  {
    hide Settled, EntryOf;
  }

  /** The entries in the order in which the mutex admitted them. */
  function Entries(booked: seq<Booking>): seq<Entry> {
    seq(|booked|, i requires 0 <= i < |booked| => booked[i].entry)
  }

  predicate LedgerInv(c: Setup, s: State) { s.ledger == Replay(c.base, Entries(s.booked), c.budgetUsd) }

  lemma LedgerKept(c: Setup, s: State, step: Step)
    requires LedgerInv(c, s) && Enabled(c, s, step)
    ensures LedgerInv(c, Next(c, s, step))
  {
    hide LedgerInv, Recorded, Panics, Made, Moved, CanMove, Replay, Entries;
    var t := Next(c, s, step);
    if step.Task? && Made(c, s, step.id, step.move).Some? {
      BookedLedger(c, s, Made(c, s, step.id, step.move).value, t);
    } else {
      SameLedger(c, s, t);
    }
  }

  lemma SameLedger(c: Setup, s: State, t: State)
    requires LedgerInv(c, s) && t.ledger == s.ledger && t.booked == s.booked
    ensures LedgerInv(c, t)
  {
    hide Replay, Entries;
  }

  lemma BookedLedger(c: Setup, s: State, b: Booking, t: State)
    requires LedgerInv(c, s) && t.ledger == Book(c, s, Some(b)).ledger && t.booked == Book(c, s, Some(b)).booked
    ensures LedgerInv(c, t)
  {
    hide Recorded, Panics;
    var log := Entries(s.booked) + [b.entry];
    assert Entries(s.booked + [b]) == log && log[..|log| - 1] == Entries(s.booked);
  }

  // ------------------------------------------------------------------------
  // Runs
  // ------------------------------------------------------------------------

  ghost predicate Inv(c: Setup, s: State) {
    PlaceInv(s) && CountInv(c, s) && BookInv(c, s) && LedgerInv(c, s)
  }

  lemma InitInv(c: Setup, s: State)
    requires Init(c, s)
    ensures Inv(c, s)
  {
  }

  lemma InvKept(c: Setup, s: State, step: Step)
    requires Inv(c, s) && Enabled(c, s, step)
    ensures Inv(c, Next(c, s, step))
  {
    hide Next, Enabled, PlaceInv, CountInv, BookInv, LedgerInv;
    PlacesKept(c, s, step);
    CountsKept(c, s, step);
    BooksKept(c, s, step);
    LedgerKept(c, s, step);
  }

  ghost predicate Run(c: Setup, states: seq<State>, steps: seq<Step>) {
    && |states| == |steps| + 1
    && Init(c, states[0])
    && forall i :: 0 <= i < |steps| ==> Follows(c, states[i], steps[i], states[i + 1])
  }

  predicate Follows(c: Setup, s: State, step: Step, t: State) { Enabled(c, s, step) && t == Next(c, s, step) }

  lemma {:induction false} RunInv(c: Setup, states: seq<State>, steps: seq<Step>, i: nat)
    requires Run(c, states, steps) && i < |states|
    ensures Inv(c, states[i])
  {
    hide Init, Inv, Enabled, Next;
    if i == 0 {
      InitInv(c, states[0]);
    } else {
      RunInv(c, states, steps, i - 1);
      assert Follows(c, states[i - 1], steps[i - 1], states[i]);
      InvKept(c, states[i - 1], steps[i - 1]);
    }
  }

  /** In every reachable state: permits balance, counters form a funnel, and the queue keeps its bound. */
  lemma PermitsAndFunnel(c: Setup, states: seq<State>, steps: seq<Step>, i: nat)
    requires Run(c, states, steps) && i < |states|
    ensures var s := states[i];
      && s.tasks.free + Running(s.tasks) == c.maxConcurrent && |s.queue| <= 256
      && (s.open && s.inSend.Some? ==> (Enabled(c, s, Send) <==> |s.queue| < 256))
      && |s.booked| <= s.clearedSimulation <= s.clearedThreshold <= s.detected
  {
    hide Init, Next, CanMove;
    RunInv(c, states, steps, i);
  }

  /** In every reachable state each cleared opportunity is in exactly one place, and nothing else is anywhere. */
  lemma ExactlyOnePlace(c: Setup, states: seq<State>, steps: seq<Step>, i: nat, id: nat)
    requires Run(c, states, steps) && i < |states|
    ensures Places(states[i], id) == if id < states[i].clearedThreshold then 1 else 0
  {
    hide Init, Enabled, Next, Places;
    RunInv(c, states, steps, i);
  }

  /** Each opportunity is recorded at most once, only after its task ended, and with its own numbers. */
  lemma RecordedAtMostOnce(c: Setup, states: seq<State>, steps: seq<Step>, i: nat, j: nat, k: nat)
    requires Run(c, states, steps) && i < |states| && j < |states[i].booked| && k < |states[i].booked|
    ensures states[i].booked[j].id == states[i].booked[k].id ==> j == k
    ensures states[i].booked[j].id in states[i].tasks.finished
    ensures Proper(c, states[i].opps, states[i].booked[j])
  {
    hide Init, Enabled, Next, Proper;
    RunInv(c, states, steps, i);
  }

  /** Steps that carry an opportunity towards its end. */
  predicate Advances(step: Step) { step.Send? || step.SendFails? || step.Receive? || step.Task? }

  /** With at least one permit, nothing waits forever for a step that cannot happen. */
  lemma NoOpportunityIsStuck(c: Setup, states: seq<State>, steps: seq<Step>, i: nat, id: nat)
    requires Run(c, states, steps) && i < |states| && c.maxConcurrent > 0
    requires var s := states[i]; id < |s.opps| && id !in s.tasks.finished && id !in s.dropped
    ensures exists step :: Advances(step) && Enabled(c, states[i], step)
  {
    hide Init, Enabled, Next, Inv;
    RunInv(c, states, steps, i);
    SomethingMoves(c, states[i], id);
  }

  lemma SomethingMoves(c: Setup, s: State, id: nat)
    requires Inv(c, s) && c.maxConcurrent > 0
    requires id < |s.opps| && id !in s.tasks.finished && id !in s.dropped
    ensures exists step :: Advances(step) && Enabled(c, s, step)
  {
    hide Settled, Replay, Entries, Proper;
    assert Places(s, id) == 1;
    if s.inSend == Some(id) {
      assert if !s.open then Enabled(c, s, SendFails)
             else if |s.queue| < QUEUE_CAPACITY then Enabled(c, s, Send) else Enabled(c, s, Receive);
    } else if id in s.queue {
      assert Enabled(c, s, Receive);
    } else if s.tasks.free > 0 && id in s.tasks.waiting {
      assert Enabled(c, s, Task(id, Acquire));
    } else {
      hide Places, PlaceInv;
      if id in s.tasks.waiting {
        assert Running(s.tasks) > 0;
      }
      var r :| r in s.tasks.simulating || r in s.tasks.simulated || r in s.tasks.submitted;
      HolderMoves(c, s, r);
    }
  }

  /** A task with a permit can always end. */
  lemma HolderMoves(c: Setup, s: State, r: nat)
    requires Inv(c, s) && (r in s.tasks.simulating || r in s.tasks.simulated || r in s.tasks.submitted)
    ensures exists step :: Advances(step) && Enabled(c, s, step)
  {
    hide Settled, Replay, Entries, Proper;
    AtMostOne(s, r);
    assert r < |s.opps| by {
      assert Places(s, r) > 0;
    }
    hide Places, PlaceInv;
    if r in s.tasks.simulating {
      assert Enabled(c, s, Task(r, SimulationFails));
    } else if r in s.tasks.submitted {
      assert Enabled(c, s, Task(r, RecordLive));
    } else {
      assert if c.dryRun then Enabled(c, s, Task(r, RecordDry(0.0, 0))) else Enabled(c, s, Task(r, SubmissionFails));
    }
  }

  // ------------------------------------------------------------------------
  // Every opportunity ends
  // ------------------------------------------------------------------------

  /** The steps that the unfinished opportunities still have before them, at most. */
  function Work(s: State): nat { 6 * One(s.inSend.Some?) + 5 * |s.queue| + TaskWork(s.tasks) }

  function TaskWork(t: Tasks): nat { 4 * |t.waiting| + 3 * |t.simulating| + 2 * |t.simulated| + |t.submitted| }

  lemma TaskUsesWork(c: Setup, s: State, id: nat, move: Move)
    requires CanMove(c, s, id, move) && TaskPlaces(s.tasks, id) <= 1
    ensures TaskWork(Moved(s.tasks, id, move)) < TaskWork(s.tasks)
  {
    MovedSizes(c, s, id, move);
    hide CanMove, TaskPlaces, Moved;
  }

  /** Every step that carries an opportunity on uses up work; only a new opportunity adds any. */
  lemma AdvancingUsesWork(c: Setup, s: State, step: Step)
    requires PlaceInv(s) && Enabled(c, s, step)
    ensures Advances(step) ==> Work(Next(c, s, step)) < Work(s)
    ensures !Advances(step) && !step.Clear? ==> Work(Next(c, s, step)) <= Work(s)
  {
    hide PlaceInv, Places, TaskPlaces, Moved, Made, Recorded, Panics;
    match step
    case Task(id, move) =>
      AtMostOne(s, id);
      TaskUsesWork(c, s, id, move);
      hide TaskWork, CanMove;
    case Receive =>
      OneMoreWaits(s);
    case _ =>
      hide TaskWork;
  }

  lemma OneMoreWaits(s: State)
    requires s.queue != []
    ensures |s.tasks.waiting + {s.queue[0]}| <= |s.tasks.waiting| + 1
  {
    if s.queue[0] in s.tasks.waiting {
      assert s.tasks.waiting + {s.queue[0]} == s.tasks.waiting;
    }
  }

  /** How many of these steps carry an opportunity on. */
  function Advancing(steps: seq<Step>): nat {
    if steps == [] then 0 else Advancing(steps[..|steps| - 1]) + One(Advances(steps[|steps| - 1]))
  }

  /** As long as nothing new clears, at most `Work` such steps can follow. */
  lemma {:induction false} WorkBoundsSteps(c: Setup, states: seq<State>, steps: seq<Step>, i: nat, j: nat)
    requires Run(c, states, steps) && i <= j < |states|
    requires forall k :: i <= k < j ==> !steps[k].Clear?
    ensures Advancing(steps[i..j]) + Work(states[j]) <= Work(states[i])
    decreases j - i
  {
    hide Init, Inv, Enabled, Next, Work, Advances;
    if i < j {
      WorkBoundsSteps(c, states, steps, i, j - 1);
      assert steps[i..j][..j - 1 - i] == steps[i..j - 1];
      assert Follows(c, states[j - 1], steps[j - 1], states[j]);
      RunPlaces(c, states, steps, j - 1);
      AdvancingUsesWork(c, states[j - 1], steps[j - 1]);
    }
  }

  lemma RunPlaces(c: Setup, states: seq<State>, steps: seq<Step>, i: nat)
    requires Run(c, states, steps) && i < |states|
    ensures PlaceInv(states[i])
  {
    hide Init, Enabled, Next, PlaceInv;
    RunInv(c, states, steps, i);
  }

  /** When no such step is left, every opportunity that ever cleared has ended: finished, or dropped unsent. */
  lemma EveryOpportunityEnds(c: Setup, states: seq<State>, steps: seq<Step>, i: nat, id: nat)
    requires Run(c, states, steps) && i < |states| && c.maxConcurrent > 0 && id < states[i].clearedThreshold
    requires forall step :: Advances(step) ==> !Enabled(c, states[i], step)
    ensures id in states[i].tasks.finished || id in states[i].dropped
  {
    hide Init, Enabled, Next, Places;
    RunInv(c, states, steps, i);
    if id !in states[i].tasks.finished && id !in states[i].dropped {
      NoOpportunityIsStuck(c, states, steps, i, id);
    }
  }

  // ------------------------------------------------------------------------
  // Conservation over a live pipeline
  // ------------------------------------------------------------------------

  /** What booking b's opportunity earned: its gross profit if the submission succeeded. */
  function EarnedBy(s: State, b: Booking): u256
    requires b.id < |s.opps|
  {
    if b.entry.result.success then s.opps[b.id].grossProfitWei else 0
  }

  /** The gross profit of the successful ones among the first n bookings. */
  function GrossBooked(s: State, n: nat): nat
    requires n <= |s.booked| && forall i :: 0 <= i < n ==> s.booked[i].id < |s.opps|
  {
    if n == 0 then 0 else GrossBooked(s, n - 1) + EarnedBy(s, s.booked[n - 1])
  }

  function Earnings(s: State, n: nat): (run: seq<Earning>)
    requires n <= |s.booked| && forall i :: 0 <= i < n ==> s.booked[i].id < |s.opps|
    ensures |run| == n
  {
    if n == 0 then []
    else Earnings(s, n - 1) + [Earning(s.booked[n - 1].entry, EarnedBy(s, s.booked[n - 1]))]
  }

  lemma ProperIsHonest(c: Setup, s: State, b: Booking)
    requires Proper(c, s.opps, b) && !c.dryRun
    ensures b.id < |s.opps| && Honest(Earning(b.entry, EarnedBy(s, b)))
  {
    var x := b.settlement.value;
    hide Settle, Balanced;
    ResultBalances(x.opportunity, x.l1Gas, x.gasPriceWei, x.receipt);
  }

  lemma {:induction false} EarningsMakeTheLog(c: Setup, s: State, n: nat)
    requires n <= |s.booked| && !c.dryRun
    requires forall i :: 0 <= i < n ==> s.booked[i].id < |s.opps| && Proper(c, s.opps, s.booked[i])
    ensures var run := Earnings(s, n);
      && (forall x :: x in run ==> Honest(x))
      && LogOf(run) == Entries(s.booked[..n]) && GrossWon(run) == GrossBooked(s, n)
  {
    hide Honest, LogOf, GrossWon, Entries, Proper, EarnedBy;
    if n == 0 {
      NoEarnings(s);
    } else {
      var b := s.booked[n - 1];
      EarningsMakeTheLog(c, s, n - 1);
      ProperIsHonest(c, s, b);
      OneMoreEarning(Earnings(s, n - 1), Earning(b.entry, EarnedBy(s, b)));
      OneMoreEntry(s.booked, n);
    }
  }

  lemma NoEarnings(s: State)
    ensures LogOf([]) == Entries(s.booked[..0]) && GrossWon([]) == GrossBooked(s, 0)
  {
  }

  lemma OneMoreEarning(run: seq<Earning>, x: Earning)
    ensures LogOf(run + [x]) == LogOf(run) + [x.entry]
    ensures GrossWon(run + [x]) == GrossWon(run) + x.earned
  {
    assert (run + [x])[..|run|] == run;
  }

  lemma OneMoreEntry(booked: seq<Booking>, n: nat)
    requires 0 < n <= |booked|
    ensures Entries(booked[..n]) == Entries(booked[..n - 1]) + [booked[n - 1].entry]
  {
    assert booked[..n] == booked[..n - 1] + [booked[n - 1]];
  }

  /**
    In every reachable state of a live run, recorded profit plus recorded gas has
    moved by the gross profit of the recorded successes, modulo 2^256.
   */
  lemma PipelineConserves(c: Setup, states: seq<State>, steps: seq<Step>, i: nat)
    requires Run(c, states, steps) && i < |states| && !c.dryRun && WellKept(c.base, c.budgetUsd)
    ensures var s := states[i];
      && (forall k :: 0 <= k < |s.booked| ==> s.booked[k].id < |s.opps|)
      && (Profit(s.ledger) + Gas(s.ledger) - Profit(c.base) - Gas(c.base) - GrossBooked(s, |s.booked|)) % TWO_256 == 0
      && s.ledger.totalSubmissions == (c.base.totalSubmissions + |s.booked|) % TWO_64
  {
    hide *;
    RunInv(c, states, steps, i);
    BooksBalance(c, states[i]);
  }

  lemma BooksBalance(c: Setup, s: State)
    requires Inv(c, s) && !c.dryRun && WellKept(c.base, c.budgetUsd)
    ensures (forall k :: 0 <= k < |s.booked| ==> s.booked[k].id < |s.opps|)
    ensures (Profit(s.ledger) + Gas(s.ledger) - Profit(c.base) - Gas(c.base) - GrossBooked(s, |s.booked|)) % TWO_256
         == 0
    ensures s.ledger.totalSubmissions == (c.base.totalSubmissions + |s.booked|) % TWO_64
  {
    hide *;
    InvBooks(c, s);
    var n := |s.booked|;
    EarningsMakeTheLog(c, s, n);
    assert s.booked[..n] == s.booked;
    RunBalances(c, Earnings(s, n), s.ledger, GrossBooked(s, n));
  }

  lemma RunBalances(c: Setup, run: seq<Earning>, ledger: PnlState, gross: nat)
    requires (forall x :: x in run ==> Honest(x)) && WellKept(c.base, c.budgetUsd)
    requires ledger == Replay(c.base, LogOf(run), c.budgetUsd) && gross == GrossWon(run)
    ensures (Profit(ledger) + Gas(ledger) - Profit(c.base) - Gas(c.base) - gross) % TWO_256 == 0
    ensures ledger.totalSubmissions == (c.base.totalSubmissions + |run|) % TWO_64
  {
    hide *;
    LiveRunConserves(c.base, run, c.budgetUsd);
  }

  lemma InvBooks(c: Setup, s: State)
    requires Inv(c, s)
    ensures s.ledger == Replay(c.base, Entries(s.booked), c.budgetUsd)
    ensures forall i :: 0 <= i < |s.booked| ==> s.booked[i].id < |s.opps| && Proper(c, s.opps, s.booked[i])
  {
    hide PlaceInv, CountInv, Replay, Entries, Backs;
  }

  // ------------------------------------------------------------------------
  // The steps take effect
  // ------------------------------------------------------------------------

  /** What one step adds, and what only a task's move touches. */
  lemma StepAdds(c: Setup, s: State, step: Step)
    requires Enabled(c, s, step)
    ensures var t := Next(c, s, step);
      && t.opps == s.opps + (if step.Clear? then [step.opp] else [])
      && t.detected == s.detected + (if step.Detect? then |step.paths| else 0)
      && t.clearedThreshold == s.clearedThreshold + One(step.Clear?)
      && t.clearedSimulation == s.clearedSimulation + One(step.Task? && step.move.SimulationSucceeds?)
  {
    hide Made, Panics, Recorded, Moved;
  }

  lemma StepBooks(c: Setup, s: State, step: Step)
    requires Enabled(c, s, step)
    ensures var t := Next(c, s, step);
      || t.booked == s.booked
      || (|t.booked| == |s.booked| + 1 && s.booked <= t.booked && !Panics(t.booked[|s.booked|].entry))
  {
    hide Made, Panics, Recorded, Moved;
  }

  lemma StepMoves(c: Setup, s: State, step: Step)
    requires Enabled(c, s, step)
    ensures var t := Next(c, s, step);
      if step.Task? then
        && CanMove(c, s, step.id, step.move) && t.tasks == Moved(s.tasks, step.id, step.move)
        && t.mined == if step.move.SubmissionSucceeds? then s.mined[step.id := step.move.settlement] else s.mined
      else
        && t.mined == s.mined && t.tasks.simulating == s.tasks.simulating && t.tasks.simulated == s.tasks.simulated
        && t.tasks.submitted == s.tasks.submitted && t.tasks.finished == s.tasks.finished
  {
    hide Made, Panics, Recorded, Moved;
  }

  /** Opportunities and bookings are only ever added to. */
  lemma {:induction false} OnlyAdded(c: Setup, states: seq<State>, steps: seq<Step>, i: nat, j: nat)
    requires Run(c, states, steps) && i <= j < |states|
    ensures states[i].opps <= states[j].opps && states[i].booked <= states[j].booked
    decreases j
  {
    hide Init, Enabled, Next, Panics;
    if i < j {
      OnlyAdded(c, states, steps, i, j - 1);
      assert Follows(c, states[j - 1], steps[j - 1], states[j]);
      StepAdds(c, states[j - 1], steps[j - 1]);
      StepBooks(c, states[j - 1], steps[j - 1]);
    }
  }

  /** While the execution loop receives, nothing is dropped and detection goes on. */
  lemma {:induction false} NothingDroppedWhileOpen(c: Setup, states: seq<State>, steps: seq<Step>, i: nat)
    requires Run(c, states, steps) && i < |states| && states[i].open
    ensures states[i].dropped == {} && states[i].detecting
  {
    hide Made, Panics, Recorded, Moved;
    if i > 0 {
      assert Follows(c, states[i - 1], steps[i - 1], states[i]);
      NothingDroppedWhileOpen(c, states, steps, i - 1);
    }
  }

  /** Closing drops what is queued, and nothing is received any more. */
  lemma {:induction false} CloseTakesEffect(c: Setup, states: seq<State>, steps: seq<Step>, k: nat, i: nat)
    requires Run(c, states, steps) && k < i < |states| && steps[k].Close?
    ensures !states[i].open && states[i].queue == []
    ensures forall id :: id in states[k].queue ==> id in states[i].dropped
    decreases i
  {
    hide Init, Made, Panics, Recorded, Moved;
    assert Follows(c, states[i - 1], steps[i - 1], states[i]);
    if i > k + 1 {
      CloseTakesEffect(c, states, steps, k, i - 1);
    }
  }

  /** The moves with which a task ends. */
  predicate Ends(move: Move) { move.SimulationFails? || move.SubmissionFails? || Records(move) }

  /** A task is finished only by such a move. */
  lemma {:induction false} FinishedHow(c: Setup, states: seq<State>, steps: seq<Step>, i: nat, id: nat) returns (k: nat)
    requires Run(c, states, steps) && i < |states| && id in states[i].tasks.finished
    ensures k < i && steps[k].Task? && steps[k].id == id && Ends(steps[k].move)
  {
    hide Enabled, Next, CanMove;
    assert i > 0;
    assert Follows(c, states[i - 1], steps[i - 1], states[i]);
    StepMoves(c, states[i - 1], steps[i - 1]);
    if id in states[i - 1].tasks.finished {
      k := FinishedHow(c, states, steps, i - 1, id);
    } else {
      k := i - 1;
    }
  }

  /** A submission that was mined leaves the task for good where it can only be recorded, with that submission. */
  lemma {:induction false} MinedStays(c: Setup, states: seq<State>, steps: seq<Step>, j: nat, i: nat, id: nat,
                                      x: Settlement)
    requires Run(c, states, steps) && j < i < |states| && steps[j] == Task(id, SubmissionSucceeds(x))
    ensures id in states[i].mined && states[i].mined[id] == x
    ensures id in states[i].tasks.submitted || id in states[i].tasks.finished
    decreases i
  {
    hide Init, Inv, Enabled, Next, PlaceInv, Places, Backs;
    assert Follows(c, states[i - 1], steps[i - 1], states[i]);
    StepMoves(c, states[i - 1], steps[i - 1]);
    if i > j + 1 {
      MinedStays(c, states, steps, j, i - 1, id, x);
      RunPlaces(c, states, steps, i - 1);
      AtMostOne(states[i - 1], id);
    }
  }

  /** What is submitted and mined is booked when its task records it, with the result of that submission. */
  lemma SubmissionIsBooked(c: Setup, states: seq<State>, steps: seq<Step>, j: nat, k: nat, i: nat, id: nat,
                           x: Settlement)
    requires Run(c, states, steps) && j < k < i < |states|
    requires steps[j] == Task(id, SubmissionSucceeds(x)) && steps[k] == Task(id, RecordLive)
    ensures exists b :: b in states[i].booked && b.id == id && b.settlement == Some(x)
    ensures forall b :: b in states[i].booked && b.id == id ==>
              Settle(x.opportunity, x.l1Gas, x.gasPriceWei, x.receipt) == Ok(b.entry.result)
              && b.entry.ethPriceUsd == x.ethPriceUsd && b.entry.nowMs == x.nowMs
  {
    hide Init, Enabled, Next, Inv, Made, Settle, Panics;
    MinedStays(c, states, steps, j, k, id, x);
    assert Follows(c, states[k], steps[k], states[k + 1]);
    RecordsMined(c, states[k], id);
    OnlyAdded(c, states, steps, k + 1, i);
    var n := |states[k].booked|;
    assert states[i].booked[n] == states[k + 1].booked[n];
    forall b | b in states[i].booked && b.id == id ensures b == states[i].booked[n] {
      var m :| 0 <= m < |states[i].booked| && states[i].booked[m] == b;
      RecordedAtMostOnce(c, states, steps, i, m, n);
    }
  }

  lemma RecordsMined(c: Setup, s: State, id: nat)
    requires Enabled(c, s, Task(id, RecordLive))
    ensures var x := s.mined[id];
      && id in s.mined && Settled(x)
      && Next(c, s, Task(id, RecordLive)).booked == s.booked + [Booking(id, EntryOf(x), Some(x))]
      && EntryOf(x).result == Settle(x.opportunity, x.l1Gas, x.gasPriceWei, x.receipt).value
      && EntryOf(x).ethPriceUsd == x.ethPriceUsd && EntryOf(x).nowMs == x.nowMs
  {
    var x := s.mined[id];
    NeverPanics(x);
    hide Settle, Panics, Recorded, Moved;
  }

  lemma NeverPanics(x: Settlement)
    requires Settled(x)
    ensures !Panics(EntryOf(x))
  {
    hide Settle, Balanced, Panics;
    ResultBalances(x.opportunity, x.l1Gas, x.gasPriceWei, x.receipt);
    EntryBalances(Earning(EntryOf(x), Earned(x.opportunity, x.receipt)));
  }

  function PathsSeen(steps: seq<Step>): nat {
    if steps == [] then 0
    else
      var last := steps[|steps| - 1];
      PathsSeen(steps[..|steps| - 1]) + if last.Detect? then |last.paths| else 0
  }

  function Cleared(steps: seq<Step>): seq<Opportunity> {
    if steps == [] then []
    else
      var last := steps[|steps| - 1];
      Cleared(steps[..|steps| - 1]) + if last.Clear? then [last.opp] else []
  }

  function Simulated(steps: seq<Step>): nat {
    if steps == [] then 0
    else
      var last := steps[|steps| - 1];
      Simulated(steps[..|steps| - 1]) + One(last.Task? && last.move.SimulationSucceeds?)
  }

  /** The counters count, and the opportunities are those that cleared, in their order. */
  lemma {:induction false} CountersCount(c: Setup, states: seq<State>, steps: seq<Step>, i: nat)
    requires Run(c, states, steps) && i < |states|
    ensures var s, made := states[i], steps[..i];
      && s.detected == PathsSeen(made)
      && s.opps == Cleared(made) && s.clearedThreshold == |Cleared(made)|
      && s.clearedSimulation == Simulated(made)
  {
    hide Enabled, Next;
    if i > 0 {
      CountersCount(c, states, steps, i - 1);
      assert Follows(c, states[i - 1], steps[i - 1], states[i]);
      StepAdds(c, states[i - 1], steps[i - 1]);
      assert steps[..i][..i - 1] == steps[..i - 1] && steps[..i][i - 1] == steps[i - 1];
    }
  }

  /** All paths detected so far, in order, and how many of them the filter has decided. */
  function AllPaths(steps: seq<Step>): seq<ArbPath> {
    if steps == [] then []
    else
      var last := steps[|steps| - 1];
      AllPaths(steps[..|steps| - 1]) + if last.Detect? then last.paths else []
  }

  function Decided(steps: seq<Step>): nat {
    if steps == [] then 0
    else Decided(steps[..|steps| - 1]) + One(steps[|steps| - 1].Clear? || steps[|steps| - 1].Skip?)
  }

  /** Until detection stops, every path is decided once and in order; those left are waiting. */
  lemma {:induction false} PathsInOrder(c: Setup, states: seq<State>, steps: seq<Step>, i: nat)
    requires Run(c, states, steps) && i < |states| && states[i].detecting
    ensures Decided(steps[..i]) <= |AllPaths(steps[..i])|
    ensures states[i].pending == AllPaths(steps[..i])[Decided(steps[..i])..]
  {
    hide Enabled, Next;
    if i > 0 {
      assert Follows(c, states[i - 1], steps[i - 1], states[i]);
      assert steps[..i][..i - 1] == steps[..i - 1] && steps[..i][i - 1] == steps[i - 1];
      StepFront(c, states[i - 1], steps[i - 1]);
      PathsInOrder(c, states, steps, i - 1);
    }
  }

  /** What clears next is the first path not decided yet. */
  lemma ClearsInOrder(c: Setup, states: seq<State>, steps: seq<Step>, i: nat)
    requires Run(c, states, steps) && i < |steps| && steps[i].Clear?
    ensures Decided(steps[..i]) < |AllPaths(steps[..i])|
    ensures steps[i].opp.path == AllPaths(steps[..i])[Decided(steps[..i])]
  {
    hide CanMove, Next, Decided, AllPaths;
    assert Follows(c, states[i], steps[i], states[i + 1]);
    PathsInOrder(c, states, steps, i);
  }

  function Received(steps: seq<Step>): nat {
    if steps == [] then 0 else Received(steps[..|steps| - 1]) + One(steps[|steps| - 1].Receive?)
  }

  /** While the execution loop receives, it takes the opportunities in the order in which they cleared. */
  lemma {:induction false} ReceivedInOrder(c: Setup, states: seq<State>, steps: seq<Step>, i: nat)
    requires Run(c, states, steps) && i < |states| && states[i].open
    ensures var s, r := states[i], Received(steps[..i]);
      && r + |s.queue| + One(s.inSend.Some?) == |s.opps|
      && (forall k :: 0 <= k < |s.queue| ==> s.queue[k] == r + k)
      && (s.inSend.Some? ==> s.inSend.value == r + |s.queue|)
  {
    hide Enabled, Next;
    if i > 0 {
      assert Follows(c, states[i - 1], steps[i - 1], states[i]);
      assert steps[..i][..i - 1] == steps[..i - 1] && steps[..i][i - 1] == steps[i - 1];
      StepQueue(c, states[i - 1], steps[i - 1]);
      ReceivedInOrder(c, states, steps, i - 1);
    }
  }

  lemma StepQueue(c: Setup, s: State, step: Step)
    requires Enabled(c, s, step)
    ensures var t := Next(c, s, step);
      t.open ==>
        && s.open && |t.opps| == |s.opps| + One(step.Clear?)
        && t.inSend == (if step.Clear? then Some(|s.opps|) else if step.Send? then None else s.inSend)
        && (step.Clear? ==> s.inSend.None?) && (step.Send? ==> s.inSend.Some?) && (step.Receive? ==> s.queue != [])
        && t.queue == if step.Send? then s.queue + [s.inSend.value] else if step.Receive? then s.queue[1..]
                      else s.queue
  {
    hide Made, Panics, Recorded, Moved;
  }

  lemma StepFront(c: Setup, s: State, step: Step)
    requires Enabled(c, s, step)
    ensures var t := Next(c, s, step);
      && (t.detecting ==> s.detecting)
      && (t.detecting ==>
            t.pending == if step.Detect? then step.paths else if step.Clear? || step.Skip? then s.pending[1..]
                         else s.pending)
      && (step.Detect? ==> s.pending == []) && (step.Clear? || step.Skip? ==> s.pending != [])
  {
    hide Made, Panics, Recorded, Moved;
  }

  // ------------------------------------------------------------------------
  // Dry runs
  // ------------------------------------------------------------------------

  /** The estimated gas of the opportunities among the first n bookings. */
  function EstimatesBooked(s: State, n: nat): nat
    requires n <= |s.booked| && forall i :: 0 <= i < n ==> s.booked[i].id < |s.opps|
  {
    if n == 0 then 0
    else
      var opp := s.opps[s.booked[n - 1].id];
      EstimatesBooked(s, n - 1) + opp.l2GasCostWei + opp.l1GasCostWei
  }

  /** What a dry run records is booked, unless its estimate does not fit 128 bits. */
  lemma DryRecordIsBooked(c: Setup, states: seq<State>, steps: seq<Step>, k: nat, i: nat, id: nat, price: real, ms: u64)
    requires Run(c, states, steps) && k < i < |states| && steps[k] == Task(id, RecordDry(price, ms))
    requires id < |states[k].opps|
    requires (states[k].opps[id].l2GasCostWei + states[k].opps[id].l1GasCostWei) % TWO_256 < TWO_128
    ensures exists b :: b in states[i].booked
                        && b.id == id && b.settlement.None? && b.entry.ethPriceUsd == price && b.entry.nowMs == ms
  {
    hide Init, Enabled, Next;
    assert Follows(c, states[k], steps[k], states[k + 1]);
    RecordsDry(c, states[k], id, price, ms);
    OnlyAdded(c, states, steps, k + 1, i);
    var n := |states[k].booked|;
    assert states[i].booked[n] == states[k + 1].booked[n];
  }

  lemma RecordsDry(c: Setup, s: State, id: nat, price: real, ms: u64)
    requires Enabled(c, s, Task(id, RecordDry(price, ms))) && id < |s.opps|
    requires (s.opps[id].l2GasCostWei + s.opps[id].l1GasCostWei) % TWO_256 < TWO_128
    ensures var t := Next(c, s, Task(id, RecordDry(price, ms)));
      && |t.booked| == |s.booked| + 1
      && var b := t.booked[|s.booked|];
         b.id == id && b.settlement.None? && b.entry.ethPriceUsd == price && b.entry.nowMs == ms
  {
    EffectIs(Entry(DryRunResult(s.opps[id], s.gas[id]), price, ms));
    hide Panics, Recorded, Moved;
  }

  /** Nothing that panics is booked. */
  lemma {:induction false} NoneBookedPanics(c: Setup, states: seq<State>, steps: seq<Step>, i: nat)
    requires Run(c, states, steps) && i < |states|
    ensures forall k :: 0 <= k < |states[i].booked| ==> !Panics(states[i].booked[k].entry)
  {
    hide Enabled, Next, Panics;
    if i > 0 {
      NoneBookedPanics(c, states, steps, i - 1);
      assert Follows(c, states[i - 1], steps[i - 1], states[i]);
      StepBooks(c, states[i - 1], steps[i - 1]);
    }
  }

  lemma {:induction false} DryBooksAre(c: Setup, s: State, n: nat)
    requires c.dryRun && n <= |s.booked|
    requires forall i :: 0 <= i < n ==>
               s.booked[i].id < |s.opps| && Proper(c, s.opps, s.booked[i]) && !Panics(s.booked[i].entry)
    ensures var log := Entries(s.booked[..n]);
      && (GasBooked(log) - EstimatesBooked(s, n)) % TWO_256 == 0
      && ProfitBooked(log) == 0 && HowMany(log, true) == 0 && HowMany(log, false) == n
  {
    hide Proper, Panics, Counts, Bills, Entries, GasBooked, ProfitBooked, HowMany;
    if n == 0 {
      NothingBooked(s);
    } else {
      DryBooksAre(c, s, n - 1);
      OneMoreEntry(s.booked, n);
      var log, b := Entries(s.booked[..n - 1]), s.booked[n - 1];
      OneMoreBooked(log, b.entry);
      DryEntryIs(c, s.opps, b);
      MultiplesAdd(GasBooked(log) - EstimatesBooked(s, n - 1),
                   Bills(b.entry) - s.opps[b.id].l2GasCostWei - s.opps[b.id].l1GasCostWei);
    }
  }

  lemma NothingBooked(s: State)
    ensures var log := Entries(s.booked[..0]);
      GasBooked(log) == 0 && ProfitBooked(log) == 0 && HowMany(log, true) == 0 && HowMany(log, false) == 0
  {
  }

  lemma OneMoreBooked(log: seq<Entry>, e: Entry)
    ensures GasBooked(log + [e]) == GasBooked(log) + if Counts(e) then Bills(e) else 0
    ensures ProfitBooked(log + [e]) == ProfitBooked(log) + if Counts(e) then e.result.netPnlWei else 0
    ensures forall success :: HowMany(log + [e], success)
                           == HowMany(log, success) + if Counts(e) && e.result.success == success then 1 else 0
  {
    hide Counts, Bills;
    assert (log + [e])[..|log|] == log;
  }

  lemma DryEntryIs(c: Setup, opps: seq<Opportunity>, b: Booking)
    requires c.dryRun && Proper(c, opps, b) && !Panics(b.entry)
    ensures b.id < |opps| && Counts(b.entry) && b.entry.result.netPnlWei == 0 && !b.entry.result.success
    ensures (Bills(b.entry) - opps[b.id].l2GasCostWei - opps[b.id].l1GasCostWei) % TWO_256 == 0
  {
    EffectIs(b.entry);
    hide Panics, Counts, Effect;
    WrapIsCongruent(b.entry.result.l2GasCostWei + b.entry.result.l1GasCostWei);
  }

  lemma WrapIsCongruent(x: nat)
    ensures (x % TWO_256 - x) % TWO_256 == 0
  {
    assert x % TWO_256 - x == TWO_256 * -(x / TWO_256);
  }

  /**
    In every reachable state of a dry run, recorded gas has moved by the estimates
    of the recorded opportunities, recorded profit has not, and each counts as a revert.
   */
  lemma DryPipelineBooks(c: Setup, states: seq<State>, steps: seq<Step>, i: nat)
    requires Run(c, states, steps) && i < |states| && c.dryRun && WellKept(c.base, c.budgetUsd)
    ensures var s := states[i];
      && (forall k :: 0 <= k < |s.booked| ==> s.booked[k].id < |s.opps|)
      && Gas(s.ledger) == (Gas(c.base) + EstimatesBooked(s, |s.booked|)) % TWO_256
      && Profit(s.ledger) == Profit(c.base)
      && s.ledger.successfulArbs == c.base.successfulArbs
      && s.ledger.revertedArbs == (c.base.revertedArbs + |s.booked|) % TWO_64
      && s.ledger.totalSubmissions == (c.base.totalSubmissions + |s.booked|) % TWO_64
  {
    hide *;
    RunInv(c, states, steps, i);
    InvBooks(c, states[i]);
    NoneBookedPanics(c, states, steps, i);
    DryBooksBalance(c, states[i]);
  }

  lemma DryBooksBalance(c: Setup, s: State)
    requires c.dryRun && WellKept(c.base, c.budgetUsd)
    requires s.ledger == Replay(c.base, Entries(s.booked), c.budgetUsd)
    requires forall k :: 0 <= k < |s.booked| ==>
               s.booked[k].id < |s.opps| && Proper(c, s.opps, s.booked[k]) && !Panics(s.booked[k].entry)
    ensures Gas(s.ledger) == (Gas(c.base) + EstimatesBooked(s, |s.booked|)) % TWO_256
    ensures Profit(s.ledger) == Profit(c.base)
    ensures s.ledger.successfulArbs == c.base.successfulArbs
    ensures s.ledger.revertedArbs == (c.base.revertedArbs + |s.booked|) % TWO_64
    ensures s.ledger.totalSubmissions == (c.base.totalSubmissions + |s.booked|) % TWO_64
  {
    hide *;
    var n := |s.booked|;
    DryBooksAre(c, s, n);
    assert s.booked[..n] == s.booked;
    RunBooks(c.base, Entries(s.booked), c.budgetUsd);
    var log := Entries(s.booked);
    DryTotals(c.base, s.ledger, GasBooked(log), ProfitBooked(log), HowMany(log, true), HowMany(log, false),
              EstimatesBooked(s, n));
  }

  lemma DryTotals(st: PnlState, end: PnlState, gas: nat, profit: int, ok: nat, rev: nat, estimates: nat)
    requires (gas - estimates) % TWO_256 == 0 && profit == 0 && ok == 0
    requires Gas(end) == (Gas(st) + gas) % TWO_256 && Profit(end) == SignedWrap(Profit(st) + profit)
    requires end.successfulArbs == (st.successfulArbs + ok) % TWO_64
    requires end.revertedArbs == (st.revertedArbs + rev) % TWO_64
    requires end.totalSubmissions == (st.totalSubmissions + ok + rev) % TWO_64
    ensures Gas(end) == (Gas(st) + estimates) % TWO_256 && Profit(end) == Profit(st)
    ensures end.successfulArbs == st.successfulArbs
    ensures end.totalSubmissions == (st.totalSubmissions + rev) % TWO_64
  {
    hide Gas, Profit, SignedWrap;
    CongruentWraps(Gas(st), gas, estimates);
    SignedWrapIs(Profit(st));
  }

  lemma CongruentWraps(x: nat, y: nat, z: nat)
    requires (y - z) % TWO_256 == 0
    ensures (x + y) % TWO_256 == (x + z) % TWO_256
  {
    var k := (y - z) / TWO_256;
    assert x + y == x + z + TWO_256 * k;
  }
}
