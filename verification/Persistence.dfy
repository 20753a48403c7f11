/**
  Saving the ledger across crashes (crates/common/src/pnl.rs:98-119, 264-301),
  one save at a time. A file's content may be lost until it is synced, and a
  rename may be undone by a crash until the directory reaches the disk.
 */
module Persistence {
  import opened Wrappers
  import opened Words
  import opened Ledger

  /** A serialised state, with the records since `base` that produced it. */
  datatype Snapshot = Snapshot(state: PnlState, log: seq<Entry>)

  datatype Content = Partial | Complete(snapshot: Snapshot)

  datatype File = File(content: Content, synced: bool)

  /** How far the current `save` has come. */
  datatype Phase =
    | Idle
    | Serialised(json: Snapshot)
    | Created(json: Snapshot)
    | Written(json: Snapshot)
    | Synced(json: Snapshot)

  datatype Machine = Machine(
    mem: PnlState,
    base: PnlState,           // the state this ledger started from
    log: seq<Entry>,          // the records made since, that survived
    phase: Phase,
    tmp: Option<File>,
    target: Option<File>,
    durable: Option<File>,    // what the directory on disk calls the target
    loadFailed: bool)

  datatype Move =
    | Record(e: Entry)
    | Serialise
    | Create
    | WritePart
    | WriteAll
    | Sync
    | Rename
    | Flush
    | Fail
    | Crash(keepsRename: bool, junk: Option<File>, restartMs: u64)

  predicate Enabled(m: Machine, move: Move) {
    !m.loadFailed &&
    match move
    case Record(_) => true
    case Serialise => m.phase.Idle?
    case Create => m.phase.Serialised?
    case WritePart => m.phase.Created?
    case WriteAll => m.phase.Created?
    case Sync => m.phase.Written?
    case Rename => m.phase.Synced?
    case Flush => true
    case Fail => !m.phase.Idle?
    case Crash(_, _, _) => true
  }

  /** What is left of a file after a crash. */
  function Surviving(f: Option<File>): Option<File> {
    if f.Some? && !f.value.synced then Some(File(Partial, true)) else f
  }

  /** `with_thresholds` on the surviving target: an unreadable file is an error. */
  function Reopened(m: Machine, file: Option<File>, budgetUsd: real, ms: u64): Machine {
    var n := m.(phase := Idle, target := file, durable := file);
    match file
    case None =>
      var anew := Opened(None, budgetUsd, ms);
      n.(mem := anew, base := anew, log := [])
    case Some(File(Complete(s), _)) => n.(mem := Opened(Some(s.state), budgetUsd, ms), log := s.log)
    case Some(File(Partial, _)) => n.(loadFailed := true)
  }

  function Next(m: Machine, move: Move, budgetUsd: real): Machine
    requires Enabled(m, move)
  {
    match move
    case Record(e) => m.(mem := Step(m.mem, e, budgetUsd), log := m.log + [e])
    case Serialise => m.(phase := Serialised(Snapshot(m.mem, m.log)))
    case Create => m.(phase := Created(m.phase.json), tmp := Some(File(Partial, false)))
    case WritePart => m.(tmp := Some(File(Partial, false)))
    case WriteAll => m.(phase := Written(m.phase.json), tmp := Some(File(Complete(m.phase.json), false)))
    case Sync =>
      m.(phase := Synced(m.phase.json), tmp := if m.tmp.Some? then Some(m.tmp.value.(synced := true)) else None)
    case Rename => m.(phase := Idle, target := m.tmp, tmp := None)
    case Flush => m.(durable := m.target)
    case Fail => m.(phase := Idle)
    case Crash(keepsRename, junk, ms) =>
      Reopened(m.(tmp := junk), Surviving(if keepsRename then m.target else m.durable), budgetUsd, ms)
  }

  /** Start-up with no file, or with a complete one; any stale `.tmp` may lie about. */
  predicate Init(m: Machine, budgetUsd: real) {
    && m.phase.Idle? && !m.loadFailed && m.durable == m.target && m.mem == m.base && m.log == []
    && (m.target == None || m.target == Some(File(Complete(Snapshot(m.base, [])), true)))
  }

  /** The steps of `save` that can fail, in order. */
  datatype Fault = Nowhere | AtCreateDir | AtCreate | AtWrite | AtSync | AtRename

  /** What `save` leaves of the temporary file. */
  function LeftInTmp(tmp: Option<File>, json: Snapshot, fault: Fault): Option<File> {
    match fault
    case Nowhere => None
    case AtCreateDir => tmp
    case AtCreate => tmp
    case AtWrite => Some(File(Partial, false))
    case AtSync => Some(File(Complete(json), false))
    case AtRename => Some(File(Complete(json), true))
  }

  /** The two files `save` touches. */
  class StateFiles {
    var tmp: Option<File>
    var target: Option<File>

    constructor (tmp: Option<File>, target: Option<File>)
      ensures this.tmp == tmp && this.target == target
    {
      this.tmp := tmp;
      this.target := target;
    }

    /** On any failure the target is untouched; on success it is the whole new snapshot, synced. */
    method Save(json: Snapshot, fault: Fault) returns (ok: bool)
      modifies this
      ensures ok <==> fault.Nowhere?
      ensures target == if ok then Some(File(Complete(json), true)) else old(target)
      ensures tmp == LeftInTmp(old(tmp), json, fault)
    {
      if fault.AtCreateDir? || fault.AtCreate? {
        return false;
      }
      tmp := Some(File(Partial, false));
      if fault.AtWrite? {
        return false;
      }
      tmp := Some(File(Complete(json), false));
      if fault.AtSync? {
        return false;
      }
      tmp := Some(tmp.value.(synced := true));
      if fault.AtRename? {
        return false;
      }
      target := tmp;
      tmp := None;
      return true;
    }
  }

  // ------------------------------------------------------------------------
  // Invariant
  // ------------------------------------------------------------------------

  /** s is the ledger as it stood after some of the records made so far. */
  predicate Past(m: Machine, s: Snapshot, budgetUsd: real) {
    s.log <= m.log && s.state == Replay(m.base, s.log, budgetUsd)
  }

  predicate Sound(m: Machine, f: Option<File>, budgetUsd: real) {
    f.Some? ==> f.value.synced && f.value.content.Complete? && Past(m, f.value.content.snapshot, budgetUsd)
  }

  predicate PhaseSound(m: Machine, budgetUsd: real) {
    && (!m.phase.Idle? ==> Past(m, m.phase.json, budgetUsd))
    && (m.phase.Written? ==> m.tmp.Some? && m.tmp.value.content == Complete(m.phase.json))
    && (m.phase.Synced? ==> m.tmp == Some(File(Complete(m.phase.json), true)))
  }

  /** The records a file holds; an absent file holds none. */
  function Held(f: Option<File>): seq<Entry> {
    if f.Some? && f.value.content.Complete? then f.value.content.snapshot.log else []
  }

  /** What is on disk never holds more than the file name shows, nor that more than the save under way. */
  predicate Ordered(m: Machine) {
    && Held(m.durable) <= Held(m.target)
    && (m.durable.Some? ==> m.target.Some?)
    && (!m.phase.Idle? ==> Held(m.target) <= m.phase.json.log)
  }

  predicate Inv(m: Machine, budgetUsd: real) {
    && !m.loadFailed
    && m.mem == Replay(m.base, m.log, budgetUsd)
    && Sound(m, m.target, budgetUsd) && Sound(m, m.durable, budgetUsd)
    && PhaseSound(m, budgetUsd) && Ordered(m)
  }

  lemma InitInv(m: Machine, budgetUsd: real)
    requires Init(m, budgetUsd)
    ensures Inv(m, budgetUsd)
  {
  }

  lemma InvKept(m: Machine, move: Move, budgetUsd: real)
    requires Inv(m, budgetUsd) && Enabled(m, move)
    ensures Inv(Next(m, move, budgetUsd), budgetUsd)
  {
    hide *;
    if move.Record? {
      RecordKept(m, move.e, budgetUsd);
    } else if move.Crash? {
      CrashKept(m, move, budgetUsd);
    } else {
      SaveKept(m, move, budgetUsd);
    }
  }

  lemma RecordKept(m: Machine, e: Entry, budgetUsd: real)
    requires Inv(m, budgetUsd) && Enabled(m, Record(e))
    ensures Inv(Next(m, Record(e), budgetUsd), budgetUsd)
  {
    hide Replay, Step;
    ReplaySnoc(m.base, m.log, e, budgetUsd);
  }

  lemma CrashKept(m: Machine, move: Move, budgetUsd: real)
    requires Inv(m, budgetUsd) && Enabled(m, move) && move.Crash?
    ensures Inv(Next(m, move, budgetUsd), budgetUsd)
  {
    CrashRecovers(m, move, budgetUsd);
    hide Replay, Step;
  }

  lemma SaveKept(m: Machine, move: Move, budgetUsd: real)
    requires Inv(m, budgetUsd) && Enabled(m, move) && !move.Record? && !move.Crash?
    ensures Inv(Next(m, move, budgetUsd), budgetUsd)
  {
    hide Replay, Step;
  }

  lemma ReplaySnoc(st: PnlState, log: seq<Entry>, e: Entry, budgetUsd: real)
    ensures Replay(st, log + [e], budgetUsd) == Step(Replay(st, log, budgetUsd), e, budgetUsd)
  {
    hide Step;
    assert (log + [e])[..|log|] == log;
  }

  /**
    At any crash the next start loads a complete ledger. It loses at most the
    latest records, never one that had reached the disk.
   */
  lemma CrashRecovers(m: Machine, move: Move, budgetUsd: real)
    requires Inv(m, budgetUsd) && move.Crash?
    ensures var n := Next(m, move, budgetUsd);
      && !n.loadFailed
      && n.log <= m.log && Held(m.durable) <= n.log
      && (move.keepsRename ==> Held(m.target) <= n.log)
      && n.mem == Replay(n.base, n.log, budgetUsd)
      && (n.target.Some? ==> n.base == m.base && n.target in {m.target, m.durable})
      && (n.target.None? ==> n.mem == Opened(None, budgetUsd, move.restartMs))
      && (m.durable.Some? ==> n.target.Some?)
  {
    hide Step;
  }

  // ------------------------------------------------------------------------
  // Runs
  // ------------------------------------------------------------------------

  predicate Run(states: seq<Machine>, moves: seq<Move>, budgetUsd: real) {
    && |states| == |moves| + 1
    && Init(states[0], budgetUsd)
    && forall i :: 0 <= i < |moves| ==> Follows(states[i], moves[i], states[i + 1], budgetUsd)
  }

  predicate Follows(m: Machine, move: Move, n: Machine, budgetUsd: real) {
    Enabled(m, move) && n == Next(m, move, budgetUsd)
  }

  lemma {:induction false} RunInv(states: seq<Machine>, moves: seq<Move>, budgetUsd: real, i: nat)
    requires Run(states, moves, budgetUsd) && i < |states|
    ensures Inv(states[i], budgetUsd)
  {
    hide Init, Inv, Enabled, Next;
    if i == 0 {
      InitInv(states[0], budgetUsd);
    } else {
      RunInv(states, moves, budgetUsd, i - 1);
      assert Follows(states[i - 1], moves[i - 1], states[i], budgetUsd);
      InvKept(states[i - 1], moves[i - 1], budgetUsd);
    }
  }

  /** In every reachable state the target is absent or complete, so no start-up ever fails to load it. */
  lemma TargetNeverTorn(states: seq<Machine>, moves: seq<Move>, budgetUsd: real, i: nat)
    requires Run(states, moves, budgetUsd) && i < |states|
    ensures !states[i].loadFailed
    ensures states[i].target.Some? ==> states[i].target.value.content.Complete? && states[i].target.value.synced
  {
    hide Init, Enabled, Next;
    RunInv(states, moves, budgetUsd, i);
  }

  predicate FileHolds(f: Option<File>, st: PnlState) {
    f.Some? && f.value.content.Complete? && f.value.content.snapshot.state == st
  }

  /** st is on disk or on its way there. */
  predicate Kept(m: Machine, st: PnlState) {
    FileHolds(m.target, st) || FileHolds(m.durable, st) || (!m.phase.Idle? && m.phase.json.state == st)
  }

  lemma KeptCameFrom(m: Machine, move: Move, st: PnlState, budgetUsd: real)
    requires Inv(m, budgetUsd) && Enabled(m, move) && Kept(Next(m, move, budgetUsd), st)
    ensures Kept(m, st) || m.mem == st
  {
    hide Replay, Step;
  }

  /** Whatever a restart can load is a state the ledger really was in. */
  lemma {:induction false} SavedStatesOccurred(states: seq<Machine>, moves: seq<Move>, budgetUsd: real, i: nat,
                                               st: PnlState)
    requires Run(states, moves, budgetUsd) && i < |states| && Kept(states[i], st)
    ensures exists k: nat :: k <= i && states[k].mem == st
  {
    hide Inv, Enabled, Next;
    if i == 0 {
      assert states[0].mem == st;
    } else {
      RunInv(states, moves, budgetUsd, i - 1);
      assert Follows(states[i - 1], moves[i - 1], states[i], budgetUsd);
      KeptCameFrom(states[i - 1], moves[i - 1], st, budgetUsd);
      if Kept(states[i - 1], st) {
        SavedStatesOccurred(states, moves, budgetUsd, i - 1, st);
        var k: nat :| k <= i - 1 && states[k].mem == st;
        assert k <= i && states[k].mem == st;
      } else {
        assert i - 1 <= i && states[i - 1].mem == st;
      }
    }
  }

  /** After any number of crashes and restarts the totals are those of the surviving records. */
  lemma TotalsAreOfSurvivors(states: seq<Machine>, moves: seq<Move>, budgetUsd: real, i: nat)
    requires Run(states, moves, budgetUsd) && i < |states| && WellKept(states[0].base, budgetUsd)
    ensures var m := states[i];
      && WellKept(m.base, budgetUsd)
      && Gas(m.mem) == (Gas(m.base) + Total(m.log).gas) % TWO_256
      && Profit(m.mem) == SignedWrap(Profit(m.base) + Total(m.log).pnl)
  {
    hide *;
    BaseIsWellKept(states, moves, budgetUsd, i);
    RunInv(states, moves, budgetUsd, i);
    MemIsReplay(states[i], budgetUsd);
    PostedTotals(states[i].base, states[i].log, budgetUsd);
  }

  lemma MemIsReplay(m: Machine, budgetUsd: real)
    requires Inv(m, budgetUsd)
    ensures m.mem == Replay(m.base, m.log, budgetUsd)
  {
  }

  lemma {:induction false} BaseIsWellKept(states: seq<Machine>, moves: seq<Move>, budgetUsd: real, i: nat)
    requires Run(states, moves, budgetUsd) && i < |states| && WellKept(states[0].base, budgetUsd)
    ensures WellKept(states[i].base, budgetUsd)
  {
    hide Init, Inv, WellKept, Opened, Step, Replay;
    if i > 0 {
      BaseIsWellKept(states, moves, budgetUsd, i - 1);
      assert Follows(states[i - 1], moves[i - 1], states[i], budgetUsd);
      if moves[i - 1].Crash? {
        OpenedIsWellKept(budgetUsd, moves[i - 1].restartMs);
      }
    }
  }

  // ------------------------------------------------------------------------
  // A save takes effect
  // ------------------------------------------------------------------------

  /** The machine after these moves, if each is enabled in its turn. */
  function Outcome(m: Machine, moves: seq<Move>, budgetUsd: real): Option<Machine>
    decreases |moves|
  {
    if moves == [] then Some(m)
    else if !Enabled(m, moves[0]) then None
    else Outcome(Next(m, moves[0], budgetUsd), moves[1..], budgetUsd)
  }

  lemma OutcomeStep(m: Machine, move: Move, rest: seq<Move>, budgetUsd: real)
    requires Enabled(m, move)
    ensures Outcome(m, [move] + rest, budgetUsd) == Outcome(Next(m, move, budgetUsd), rest, budgetUsd)
  {
    assert ([move] + rest)[1..] == rest;
  }

  /** The moves of one `save`, up to its fault. */
  function MovesOf(fault: Fault): seq<Move> {
    match fault
    case Nowhere => [Serialise, Create, WriteAll, Sync, Rename]
    case AtCreateDir => [Serialise, Fail]
    case AtCreate => [Serialise, Fail]
    case AtWrite => [Serialise, Create, Fail]
    case AtSync => [Serialise, Create, WriteAll, Fail]
    case AtRename => [Serialise, Create, WriteAll, Sync, Fail]
  }

  /** With any fault or none, the machine can make these moves, and leaves both files as `Save` does. */
  lemma SaveOnMachine(m: Machine, fault: Fault, budgetUsd: real)
    requires m.phase.Idle? && !m.loadFailed
    ensures var json := Snapshot(m.mem, m.log);
      Outcome(m, MovesOf(fault), budgetUsd)
      == Some(m.(tmp := LeftInTmp(m.tmp, json, fault),
                 target := if fault.Nowhere? then Some(File(Complete(json), true)) else m.target))
  {
    if fault.AtCreateDir? || fault.AtCreate? {
      FailsNow(m.(phase := Serialised(Snapshot(m.mem, m.log))), budgetUsd);
    } else {
      SaveFromCreate(m.(phase := Serialised(Snapshot(m.mem, m.log))), fault, budgetUsd);
    }
    OutcomeStep(m, Serialise, MovesOf(fault)[1..], budgetUsd);
    assert [Serialise] + MovesOf(fault)[1..] == MovesOf(fault);
  }

  lemma FailsNow(m: Machine, budgetUsd: real)
    requires Enabled(m, Fail)
    ensures Outcome(m, [Fail], budgetUsd) == Some(m.(phase := Idle))
  {
    OutcomeStep(m, Fail, [], budgetUsd);
  }

  lemma SaveFromCreate(m: Machine, fault: Fault, budgetUsd: real)
    requires m.phase.Serialised? && !m.loadFailed && !fault.AtCreateDir? && !fault.AtCreate?
    ensures var json := m.phase.json;
      Outcome(m, MovesOf(fault)[1..], budgetUsd)
      == Some(m.(phase := Idle, tmp := LeftInTmp(m.tmp, json, fault),
                 target := if fault.Nowhere? then Some(File(Complete(json), true)) else m.target))
  {
    var n := m.(phase := Created(m.phase.json), tmp := Some(File(Partial, false)));
    if fault.AtWrite? {
      FailsNow(n, budgetUsd);
    } else {
      SaveFromWrite(n, fault, budgetUsd);
    }
    OutcomeStep(m, Create, MovesOf(fault)[2..], budgetUsd);
    assert [Create] + MovesOf(fault)[2..] == MovesOf(fault)[1..];
  }

  lemma SaveFromWrite(m: Machine, fault: Fault, budgetUsd: real)
    requires m.phase.Created? && !m.loadFailed && (fault.Nowhere? || fault.AtSync? || fault.AtRename?)
    ensures var json := m.phase.json;
      Outcome(m, MovesOf(fault)[2..], budgetUsd)
      == Some(m.(phase := Idle, tmp := LeftInTmp(m.tmp, json, fault),
                 target := if fault.Nowhere? then Some(File(Complete(json), true)) else m.target))
  {
    var json := m.phase.json;
    var n := m.(phase := Written(json), tmp := Some(File(Complete(json), false)));
    if fault.AtSync? {
      FailsNow(n, budgetUsd);
    } else {
      SaveFromSync(n, fault, budgetUsd);
    }
    OutcomeStep(m, WriteAll, MovesOf(fault)[3..], budgetUsd);
    assert [WriteAll] + MovesOf(fault)[3..] == MovesOf(fault)[2..];
  }

  lemma SaveFromSync(m: Machine, fault: Fault, budgetUsd: real)
    requires m.phase.Written? && !m.loadFailed && (fault.Nowhere? || fault.AtRename?)
    requires m.tmp == Some(File(Complete(m.phase.json), false))
    ensures var json := m.phase.json;
      Outcome(m, MovesOf(fault)[3..], budgetUsd)
      == Some(m.(phase := Idle, tmp := LeftInTmp(m.tmp, json, fault),
                 target := if fault.Nowhere? then Some(File(Complete(json), true)) else m.target))
  {
    var json := m.phase.json;
    var n := m.(phase := Synced(json), tmp := Some(File(Complete(json), true)));
    if fault.AtRename? {
      FailsNow(n, budgetUsd);
    } else {
      OutcomeStep(n, Rename, [], budgetUsd);
    }
    OutcomeStep(m, Sync, MovesOf(fault)[4..], budgetUsd);
    assert [Sync] + MovesOf(fault)[4..] == MovesOf(fault)[3..];
  }

  /** What a run has renamed is the whole snapshot, synced. */
  lemma RenameTakesEffect(states: seq<Machine>, moves: seq<Move>, budgetUsd: real, i: nat)
    requires Run(states, moves, budgetUsd) && i < |moves| && moves[i].Rename?
    ensures states[i].phase.Synced?
    ensures states[i + 1].target == Some(File(Complete(states[i].phase.json), true))
  {
    hide Init;
    RunInv(states, moves, budgetUsd, i);
    assert Follows(states[i], moves[i], states[i + 1], budgetUsd);
  }

  /** No move takes from the disk, and only a crash takes from the ledger or from the target. */
  lemma HeldGrows(m: Machine, move: Move, budgetUsd: real)
    requires Inv(m, budgetUsd) && Enabled(m, move)
    ensures var n := Next(m, move, budgetUsd);
      && Held(m.durable) <= Held(n.durable) <= n.log
      && (!move.Crash? ==> Held(m.target) <= Held(n.target) && m.log <= n.log)
      && (move.Flush? ==> Held(n.durable) == Held(m.target))
  {
    InvKept(m, move, budgetUsd);
    if move.Crash? {
      DiskSurvives(m, move, budgetUsd);
      hide Inv, Next, Held;
    } else {
      hide Replay, Step, Opened, Reopened, Surviving;
    }
  }

  lemma DiskSurvives(m: Machine, move: Move, budgetUsd: real)
    requires Inv(m, budgetUsd) && Enabled(m, move) && move.Crash?
    ensures var n := Next(m, move, budgetUsd); Held(m.durable) <= Held(n.durable) <= n.log
  {
    hide Replay, Step, Opened;
  }

  lemma {:induction false} DurableGrows(states: seq<Machine>, moves: seq<Move>, budgetUsd: real, i: nat, j: nat)
    requires Run(states, moves, budgetUsd) && i <= j < |states|
    ensures Held(states[i].durable) <= Held(states[j].durable)
    decreases j
  {
    hide Init, Enabled, Next, Inv, Held;
    if i < j {
      DurableGrows(states, moves, budgetUsd, i, j - 1);
      RunInv(states, moves, budgetUsd, j - 1);
      assert Follows(states[j - 1], moves[j - 1], states[j], budgetUsd);
      HeldGrows(states[j - 1], moves[j - 1], budgetUsd);
    }
  }

  lemma {:induction false} TargetGrows(states: seq<Machine>, moves: seq<Move>, budgetUsd: real, i: nat, j: nat)
    requires Run(states, moves, budgetUsd) && i <= j < |states|
    requires forall k :: i <= k < j ==> !moves[k].Crash?
    ensures Held(states[i].target) <= Held(states[j].target) && states[i].log <= states[j].log
    decreases j
  {
    hide Init, Enabled, Next, Inv, Held;
    if i < j {
      TargetGrows(states, moves, budgetUsd, i, j - 1);
      RunInv(states, moves, budgetUsd, j - 1);
      assert Follows(states[j - 1], moves[j - 1], states[j], budgetUsd);
      HeldGrows(states[j - 1], moves[j - 1], budgetUsd);
    }
  }

  /** Durability: once a renamed save has reached the disk, its records are there after any later crashes. */
  lemma FlushedSaveSurvives(states: seq<Machine>, moves: seq<Move>, budgetUsd: real, i: nat, j: nat, k: nat)
    requires Run(states, moves, budgetUsd) && i < j < k < |states|
    requires moves[i].Rename? && moves[j].Flush? && forall l :: i < l < j ==> !moves[l].Crash?
    ensures states[i].phase.Synced? && states[i].phase.json.log <= states[k].log
  {
    hide Init, Enabled, Next, Inv, Held;
    RenameTakesEffect(states, moves, budgetUsd, i);
    TargetGrows(states, moves, budgetUsd, i + 1, j);
    RunInv(states, moves, budgetUsd, j);
    assert Follows(states[j], moves[j], states[j + 1], budgetUsd);
    HeldGrows(states[j], moves[j], budgetUsd);
    DurableGrows(states, moves, budgetUsd, j + 1, k);
    DiskIsPast(states, moves, budgetUsd, k);
    HeldOfComplete(states[i + 1].target, states[i].phase.json);
  }

  lemma HeldOfComplete(f: Option<File>, s: Snapshot)
    requires f == Some(File(Complete(s), true))
    ensures Held(f) == s.log
  {
  }

  lemma DiskIsPast(states: seq<Machine>, moves: seq<Move>, budgetUsd: real, i: nat)
    requires Run(states, moves, budgetUsd) && i < |states|
    ensures Held(states[i].durable) <= states[i].log
  {
    hide Init, Enabled, Next;
    RunInv(states, moves, budgetUsd, i);
  }

  /** The snapshot under way is the one its `save` took. */
  lemma {:induction false} PhaseKeeps(states: seq<Machine>, moves: seq<Move>, budgetUsd: real, s: nat, i: nat)
    requires Run(states, moves, budgetUsd) && s < i < |states| && moves[s].Serialise?
    requires forall l :: s < l < i ==> !moves[l].Serialise?
    ensures !states[i].phase.Idle? ==> states[i].phase.json == Snapshot(states[s].mem, states[s].log)
    decreases i
  {
    hide Init, Inv, Step, Opened;
    assert Follows(states[i - 1], moves[i - 1], states[i], budgetUsd);
    if i > s + 1 {
      PhaseKeeps(states, moves, budgetUsd, s, i - 1);
    }
  }

  /** A record joins the ledger in memory. */
  lemma RecordTakesEffect(states: seq<Machine>, moves: seq<Move>, budgetUsd: real, r: nat)
    requires Run(states, moves, budgetUsd) && r < |moves| && moves[r].Record?
    ensures states[r + 1].log == states[r].log + [moves[r].e]
    ensures states[r + 1].mem == Step(states[r].mem, moves[r].e, budgetUsd)
  {
    hide Init, Step;
    assert Follows(states[r], moves[r], states[r + 1], budgetUsd);
  }

  /** So what was recorded before a save that was renamed and reached the disk is never forgotten. */
  lemma SavedRecordSurvives(states: seq<Machine>, moves: seq<Move>, budgetUsd: real, r: nat, s: nat, i: nat, j: nat,
                            k: nat)
    requires Run(states, moves, budgetUsd) && r < s < i < j < k < |states|
    requires moves[r].Record? && moves[s].Serialise? && moves[i].Rename? && moves[j].Flush?
    requires forall l :: r < l < j ==> !moves[l].Crash?
    requires forall l :: s < l < i ==> !moves[l].Serialise?
    ensures states[r].log + [moves[r].e] <= states[k].log
  {
    hide Init, Enabled, Next, Inv, Held;
    RecordTakesEffect(states, moves, budgetUsd, r);
    TargetGrows(states, moves, budgetUsd, r + 1, s);
    PhaseKeeps(states, moves, budgetUsd, s, i);
    FlushedSaveSurvives(states, moves, budgetUsd, i, j, k);
  }
}
