/**
 The controller's methods that change owned containers and workspaces.  Each effect is one step of
 the shared state, so the methods are proved to follow the protocol of `Ownership` whatever other
 processes do whenever the lock is free, and wherever an effect fails or the process dies.
 */
module Sessions {
  import opened Text
  import opened Ownership

  /** An effect succeeded; it raised, with or without having happened; or the process died. */
  datatype Io = Done | Raised | Died

  /** How an effect that would lead from `s` to `t` may end. */
  ghost predicate Ends(io: Io, s: State, t: State, now: State) {
    match io
    case Done => now == t
    case Raised => now == s || now == t
    case Died => now == s.(lock := Nobody) || now == t.(lock := Nobody)
  }

  datatype Seen = Present | Absent | Foreign | Unavailable

  /** What other processes do between two moments at which this process holds the lock. */
  type Interference = (nat, State) -> seq<State>

  class Engine {
    const daemonId: string
    /** An identifier outside the given ones. */
    const uuid: set<string> -> string
    const others: Interference
    var state: State
    var clock: nat
    ghost var run: seq<State>

    /** The state got here by a run; others make steps of the protocol; identifiers are fresh. */
    ghost predicate Valid()
      reads this
    {
      && IsRun(run) && run[|run| - 1] == state
      && (forall used :: uuid(used) !in used)
      && (forall n, s :: IsPath([s] + others(n, s)))
    }

    constructor (
      daemonId: string, uuid: set<string> -> string, others: Interference, ghost run: seq<State>, state: State)
      requires IsRun(run) && run[|run| - 1] == state
      requires (forall used :: uuid(used) !in used) && forall n, s :: IsPath([s] + others(n, s))
      ensures Valid() && this.run == run && this.daemonId == daemonId
    {
      this.daemonId, this.uuid, this.others := daemonId, uuid, others;
      this.state, clock, this.run := state, 0, run;
    }

    method Move(next: State)
      requires Valid() && Step(state, next)
      modifies this`state, this`run
      ensures Valid() && state == next && run == old(run) + [next]
    {
      PathExtends(run, [next]);
      state, run := next, run + [next];
    }

    method Wait()
      requires Valid()
      modifies this`state, this`run, this`clock
      ensures Valid() && old(run) <= run
    {
      var path := others(clock, state);
      clock := clock + 1;
      if path != [] {
        PathExtends(run, path);
        state, run := path[|path| - 1], run + path;
      }
    }

    /** Takes the lock for a recovery or a transition, unless another process has it. */
    method Lock() returns (held: bool)
      requires Valid()
      modifies this`state, this`run, this`clock
      ensures Valid() && old(run) <= run
      ensures held ==> state.lock.Controller?
    {
      Wait();
      if !state.lock.Nobody? {
        return false;
      }
      assert Takes(state, state.(lock := Controller));
      Move(state.(lock := Controller));
      return true;
    }

    /** Takes the lock for a new operation. */
    method LockSession() returns (op: Option<string>)
      requires Valid()
      modifies this`state, this`run, this`clock
      ensures Valid() && old(run) <= run
      ensures op.Some? ==> state.lock == Session(op.value) && op.value !in state.records
    {
      Wait();
      if !state.lock.Nobody? {
        return None;
      }
      var name := uuid(state.records.Keys);
      assert Takes(state, state.(lock := Session(name)));
      Move(state.(lock := Session(name)));
      return Some(name);
    }

    method Unlock()
      requires Valid()
      modifies this`state, this`run
      ensures Valid() && old(run) <= run && state == old(state).(lock := Nobody)
    {
      assert Drops(state, state.(lock := Nobody));
      Move(state.(lock := Nobody));
    }

    /** One effect of the lock's holder: a state file replaced, or a command of the daemon. */
    method Effect(next: State) returns (io: Io)
      requires Valid() && Step(state, next)
      modifies this`state, this`run
      ensures Valid() && old(run) <= run
      ensures Ends(io, old(state), next, state)
    {
      var happens := *;
      if happens {
        Move(next);
      }
      if * {
        Unlock();
        return Died;
      }
      var reported := *;
      return if happens && reported then Done else Raised;
    }

    method Identity() returns (id: Option<string>)
      ensures id.Some? ==> id.value == state.daemon
    {
      var answers := *;
      return if answers then Some(state.daemon) else None;
    }

    method Inspect(op: string) returns (seen: Seen)
      ensures seen.Present? ==> Container(state.daemon, op) in state.containers
      ensures seen.Absent? ==> Container(state.daemon, op) !in state.containers
    {
      var answers, ours := *, *;
      if !answers {
        return Unavailable;
      }
      if !ours {
        return Foreign;
      }
      return if Container(state.daemon, op) in state.containers then Present else Absent;
    }
  }

  class DockerSession {
    const engine: Engine
    var record: Record
    var cleanupVerified: bool

    /**
     This session may change its record: its operation has the lock, or recovery acts for it.  The
     durable record, if there is one, is an earlier version of the one in memory.
     */
    ghost predicate Owns()
      reads this, engine
    {
      && engine.Valid()
      && (engine.state.lock == Session(record.operation)
          || (engine.state.lock.Controller? && record.operation in engine.state.records))
      && (record.operation in engine.state.records ==>
            RecordLater(engine.state.records[record.operation], record))
    }

    /** The session of a new operation; its identifier is drawn when it takes the lock. */
    constructor (engine: Engine, claim: Option<Claim>)
      ensures this.engine == engine && !cleanupVerified
      ensures record.claim == claim && record.daemon == engine.daemonId && record.phase.Intent?
    {
      this.engine, cleanupVerified := engine, false;
      record := Record("", engine.daemonId, claim, Intent);
    }

    /** The session by which recovery acts on an existing record. */
    constructor Recovering(engine: Engine, record: Record)
      ensures this.engine == engine && !cleanupVerified && this.record == record
    {
      this.engine, this.record, cleanupVerified := engine, record, false;
    }

    /** Advances the record in memory and then on disk. */
    method Persist(phase: Phase) returns (io: Io)
      requires Owns() && Rank(record.phase) <= Rank(phase)
      requires engine.state.lock.Controller? ==> Rank(phase) >= Rank(CleanupPending)
      requires phase.Removed? ==> Container(record.daemon, record.operation) !in engine.state.containers
      modifies this`record, engine`state, engine`run
      ensures engine.Valid() && old(engine.run) <= engine.run
      ensures record == old(record).(phase := phase)
      ensures Ends(io, old(engine.state), Recorded(old(engine.state), record), engine.state)
    {
      record := record.(phase := phase);
      var s := engine.state;
      assert Persists(s, s.(records := s.records[record.operation := record]), record);
      io := engine.Effect(s.(records := s.records[record.operation := record]));
    }

    /** Asks the recorded daemon for the container, removes it if it is ours, and asks again. */
    method VerifyAbsent() returns (io: Io)
      requires Owns() && record.phase.CleanupPending?
      modifies engine`state, engine`run
      ensures engine.Valid() && old(engine.run) <= engine.run
      ensures engine.state == old(engine.state).(lock := engine.state.lock, containers := engine.state.containers)
      ensures engine.state.lock == if io.Died? then Nobody else old(engine.state).lock
      ensures engine.state.containers in {old(engine.state).containers, Without(old(engine.state), record.operation)}
      ensures io.Done? ==> Container(record.daemon, record.operation) !in engine.state.containers
    {
      var id := engine.Identity();
      if id != Some(record.daemon) {
        return Raised;
      }
      var seen := engine.Inspect(record.operation);
      if seen.Foreign? || seen.Unavailable? {
        return Raised;
      }
      if seen.Present? {
        var s := engine.state;
        var next := s.(containers := s.containers - {Container(s.daemon, record.operation)});
        assert Removes(s, next, record.operation);
        io := engine.Effect(next);
        if !io.Done? {
          return;
        }
      }
      seen := engine.Inspect(record.operation);
      return if seen.Absent? then Done else Raised;
    }

    /** Removes the container and records that it is gone; returns normally only if both are certain. */
    method Cleanup() returns (io: Io)
      requires Owns() && Rank(record.phase) < Rank(Removed) && !cleanupVerified
      modifies this`record, this`cleanupVerified, engine`state, engine`run
      ensures engine.Valid() && old(engine.run) <= engine.run
      ensures record == old(record).(phase := record.phase)
      ensures OnlyTouches(old(engine.state), engine.state, record.operation)
      ensures engine.state.workspaces == old(engine.state).workspaces
      ensures engine.state.lock == if io.Died? then Nobody else old(engine.state).lock
      ensures cleanupVerified ==> Container(record.daemon, record.operation) !in engine.state.containers
      ensures io.Done? ==>
                && cleanupVerified && record.operation in engine.state.records
                && engine.state.records[record.operation].phase.Removed?
    {
      var published := Persist(CleanupPending);
      if published.Died? {
        return Died;
      }
      io := Settle(published.Done?);
    }

    /** The rest of a cleanup, whether or not its begin could be recorded. */
    method Settle(published: bool) returns (io: Io)
      requires Owns() && record.phase.CleanupPending? && !cleanupVerified
      modifies this`record, this`cleanupVerified, engine`state, engine`run
      ensures engine.Valid() && old(engine.run) <= engine.run
      ensures record == old(record).(phase := record.phase)
      ensures OnlyTouches(old(engine.state), engine.state, record.operation)
      ensures engine.state.workspaces == old(engine.state).workspaces
      ensures engine.state.lock == if io.Died? then Nobody else old(engine.state).lock
      ensures cleanupVerified ==> Container(record.daemon, record.operation) !in engine.state.containers
      ensures io.Done? ==>
                && cleanupVerified && record.operation in engine.state.records
                && engine.state.records[record.operation].phase.Removed?
    {
      var verified := VerifyAbsent();
      if verified.Died? {
        return Died;
      }
      cleanupVerified := verified.Done?;
      io := Conclude(published);
    }

    /** Records the end of a cleanup: "removed" if absence was verified, with a second try if that raises. */
    method Conclude(published: bool) returns (io: Io)
      requires Owns() && record.phase.CleanupPending?
      requires cleanupVerified ==> Container(record.daemon, record.operation) !in engine.state.containers
      modifies this`record, engine`state, engine`run
      ensures engine.Valid() && old(engine.run) <= engine.run
      ensures record == old(record).(phase := record.phase)
      ensures engine.state == old(engine.state).(lock := engine.state.lock, records := engine.state.records)
      ensures OnlyTouches(old(engine.state), engine.state, record.operation)
      ensures engine.state.lock == if io.Died? then Nobody else old(engine.state).lock
      ensures io.Done? ==>
                && cleanupVerified && record.operation in engine.state.records
                && engine.state.records[record.operation].phase.Removed?
    {
      if cleanupVerified {
        io := Persist(Removed);
        if io.Died? || (io.Done? && published) {
          return;
        }
      }
      // The error is recorded if it can be.
      io := Persist(if cleanupVerified then Removed else CleanupPending);
      return if io.Died? then Died else Raised;
    }

    /** The workspace is still the one this operation was bound to. */
    predicate Admitted()
      reads this, engine
    {
      record.claim.Some? ==>
        var w := record.claim.value.workspace;
        && w in engine.state.workspaces && !engine.state.workspaces[w].closed
        && engine.state.workspaces[w].generation == record.claim.value.generation
        && engine.state.workspaces[w].saved.source == record.claim.value.source
    }

    /** The record in memory is the one on disk, and its operation holds the lock. */
    ghost predicate Durable()
      reads this, engine
    {
      && engine.state.lock == Session(record.operation)
      && record.operation in engine.state.records && engine.state.records[record.operation] == record
    }

    /** What entering does once the lock is held, up to the running container. */
    method Admit() returns (io: Io)
      requires Owns() && engine.state.lock == Session(record.operation)
      requires record.phase.Intent? && record.operation !in engine.state.records
      modifies this`record, engine`state, engine`run
      ensures engine.Valid() && old(engine.run) <= engine.run
      ensures record == old(record).(phase := record.phase) && Rank(record.phase) <= Rank(Running)
      ensures io.Died? ==> engine.state.lock.Nobody?
      ensures !io.Died? ==> Owns() && engine.state.lock == old(engine.state).lock
      ensures io.Done? ==> Admitted() && record.phase.Running? && Durable()
    {
      io := Persist(Intent);
      if !io.Done? {
        return;
      }
      if !Admitted() {
        return Raised;
      }
      var acceptable := *;
      if !acceptable {
        return Raised;
      }
      io := Launch();
    }

    /** Creates the container and starts it; each step is recorded once it has happened. */
    method Launch() returns (io: Io)
      requires Owns() && Durable() && Admitted() && record.phase.Intent?
      modifies this`record, engine`state, engine`run
      ensures engine.Valid() && old(engine.run) <= engine.run
      ensures record == old(record).(phase := record.phase) && Rank(record.phase) <= Rank(Running)
      ensures io.Died? ==> engine.state.lock.Nobody?
      ensures !io.Died? ==> Owns() && engine.state.lock == old(engine.state).lock
      ensures io.Done? ==> Admitted() && record.phase.Running? && Durable()
    {
      io := CreateContainer();
      if !io.Done? {
        return;
      }
      io := Persist(Created);
      if !io.Done? {
        return;
      }
      var effective, started := *, *;
      if !effective || !started {
        return Raised;
      }
      io := Persist(Running);
    }

    method CreateContainer() returns (io: Io)
      requires Owns() && Durable() && record.phase.Intent?
      modifies engine`state, engine`run
      ensures engine.Valid() && old(engine.run) <= engine.run
      ensures Ends(io, old(engine.state), With(old(engine.state), record.operation), engine.state)
    {
      var s := engine.state;
      var next := s.(containers := s.containers + {Container(s.daemon, record.operation)});
      assert Creates(s, next, record.operation);
      io := engine.Effect(next);
    }

    /** Begins an operation; whatever fails after the lock is taken, its container is cleaned up. */
    method Enter() returns (io: Io)
      requires engine.Valid() && record.phase.Intent? && !cleanupVerified
      modifies this, engine
      ensures engine.Valid() && old(engine.run) <= engine.run
      ensures record.claim == old(record).claim
      ensures !io.Done? ==> engine.state.lock.Nobody? || record == old(record)
      ensures cleanupVerified ==> Container(record.daemon, record.operation) !in engine.state.containers
      ensures io.Done? ==>
                && Owns() && Admitted() && Durable() && record.phase.Running? && !cleanupVerified
    {
      var op := engine.LockSession();
      if op.None? {
        return Raised;
      }
      record := record.(operation := op.value);
      io := Admit();
      if io.Raised? {
        var cleaned := Exit();
        return if cleaned.Died? then Died else Raised;
      }
    }

    /** Ends an operation: the container is cleaned up, and the lock is dropped in any case. */
    method Exit() returns (io: Io)
      requires Owns() && Rank(record.phase) < Rank(Removed) && !cleanupVerified
      modifies this`record, this`cleanupVerified, engine`state, engine`run
      ensures engine.Valid() && old(engine.run) <= engine.run
      ensures record == old(record).(phase := record.phase)
      ensures OnlyTouches(old(engine.state), engine.state, record.operation)
      ensures engine.state.workspaces == old(engine.state).workspaces && engine.state.lock.Nobody?
      ensures cleanupVerified ==> Container(record.daemon, record.operation) !in engine.state.containers
      ensures io.Done? ==>
                && cleanupVerified && record.operation in engine.state.records
                && engine.state.records[record.operation].phase.Removed?
    {
      io := Cleanup();
      if !io.Died? {
        engine.Unlock();
      }
    }
  }

  ghost function Recorded(s: State, r: Record): State {
    s.(records := s.records[r.operation := r])
  }

  ghost function With(s: State, op: string): State {
    s.(containers := s.containers + {Container(s.daemon, op)})
  }

  ghost function Without(s: State, op: string): set<Container> {
    s.containers - {Container(s.daemon, op)}
  }

  // ---------- what happens in the container ----------

  /** How a process ended: by itself, without being observed to the end, or at one of its limits. */
  datatype Stop = Exited(code: int) | Unobserved | Limited(limit: string)

  /** What capturing the source gave, once it is known which files changed. */
  datatype Capture = Captured(source: string) | Forbidden | Unreadable | OutOfCpu | Unmonitored

  /** The processes of one execution, in their order, and whether its source is to be saved. */
  datatype Work = Work(staging: Stop, setup: seq<Stop>, command: Stop, save: bool, capture: Capture)

  datatype Reason =
    | Completed
    | CommandFailed
    | Limit(limit: string)
    | SetupFailed
    | SourceRejected
    | SourceUnavailable
    | InfrastructureFailure

  const CPU := "cpu_limit"

  function StagingTrouble(stop: Stop): Option<Reason> {
    if stop == Exited(0) then None
    else if stop == Limited(CPU) then Some(Limit(CPU))
    else Some(InfrastructureFailure)
  }

  /** The first command that does not succeed stops the setup. */
  function SetupTrouble(setup: seq<Stop>): Option<Reason> {
    if setup == [] then None
    else if setup[0] == Exited(0) then SetupTrouble(setup[1..])
    else if setup[0] == Limited(CPU) then Some(Limit(CPU))
    else if setup[0].Unobserved? then Some(InfrastructureFailure)
    else Some(SetupFailed)
  }

  function Trouble(work: Work): Option<Reason> {
    if StagingTrouble(work.staging).Some? then StagingTrouble(work.staging) else SetupTrouble(work.setup)
  }

  function CaptureTrouble(capture: Capture): Option<Reason> {
    match capture
    case Captured(_) => None
    case Forbidden => Some(SourceRejected)
    case Unreadable => Some(SourceUnavailable)
    case OutOfCpu => Some(Limit(CPU))
    case Unmonitored => Some(InfrastructureFailure)
  }

  function CommandReason(stop: Stop): Reason {
    match stop
    case Exited(code) => if code == 0 then Completed else CommandFailed
    case Unobserved => InfrastructureFailure
    case Limited(limit) => Limit(limit)
  }

  /** The source that is to be saved: captured, as asked for, after the command ended by itself. */
  function Produced(work: Work): Option<string> {
    if Trouble(work).None? && work.command.Exited? && work.save && work.capture.Captured?
    then Some(work.capture.source) else None
  }

  /** What is reported if nothing outside the container fails. */
  function ReasonOf(work: Work): Reason {
    if Trouble(work).Some? then Trouble(work).value
    else if work.command.Exited? && work.save && CaptureTrouble(work.capture).Some? then
      CaptureTrouble(work.capture).value
    else CommandReason(work.command)
  }

  datatype Status = LastConfirmed | Unchanged | Stored

  /** How a source is kept if its write does not fail. */
  function StatusOf(work: Work, source: string): Status {
    match Produced(work)
    case None => LastConfirmed
    case Some(produced) => if produced == source then Unchanged else Stored
  }

  // ---------- what an execution may start from ----------

  /** What the execution that built a product left behind. */
  datatype BuildReceipt = BuildReceipt(
    source: string, prepared: string, resolution: string, wheel: string, completed: bool, cleanupVerified: bool)

  /** A built product; `retained` is the digest of the wheel that is kept for it. */
  datatype Build = Build(
    source: string, prepared: string, resolution: string, wheel: string, retained: string, receipt: BuildReceipt)

  /** The source is run as it is, or as the product that was built from it. */
  datatype Mode = Development | Product(build: Build)

  /** The candidate's dependencies: resolved, not to be had for what it declares, or not to be trusted. */
  datatype Dependencies = Available(resolution: string) | Unmet | Faulty

  /** The build, its wheel and its receipt all speak of this source, prepared environment and resolution. */
  predicate BuiltFrom(b: Build, source: string, prepared: string) {
    && b.source == source && b.prepared == prepared && b.retained == b.wheel
    && b.receipt == BuildReceipt(source, prepared, b.resolution, b.wheel, true, true)
  }

  /**
   Development goes on with baseline tools when dependencies cannot be had; a product needs the very
   resolution that it was built with.
   */
  predicate Ready(mode: Mode, dependencies: Dependencies, source: string, prepared: string) {
    match mode
    case Development => !dependencies.Faulty?
    case Product(build) => dependencies == Available(build.resolution) && BuiltFrom(build, source, prepared)
  }

  /** The result of an operation on a workspace, or how it was stopped. */
  datatype Outcome =
    | Finished(status: Status, saved: Saved, cleanupVerified: bool, reason: Reason)
    | Answered(saved: Saved)
    | Stopped
    | Dead

  /** What a result says of the workspace `u` that was read, and of the work that was done. */
  ghost predicate Reports(o: Outcome, u: Workspace, work: Work) {
    && o.Finished?
    && (o.status.LastConfirmed? || o.status == StatusOf(work, u.saved.source))
    && o.saved == (if o.status.Stored? && Produced(work).Some?
                   then Saved(Produced(work).value, u.saved.version + 1) else u.saved)
    && (!o.reason.InfrastructureFailure? ==>
          o.reason == ReasonOf(work) && o.status == StatusOf(work, u.saved.source) && o.cleanupVerified)
  }

  class EnvironmentRuntime {
    const engine: Engine

    constructor (engine: Engine)
      ensures this.engine == engine
    {
      this.engine := engine;
    }

    /**
     Recovery of one record after another, under the lock.  A normal return leaves no record that is
     not "removed", hence no container where its record says it is; it touches no workspace.
     */
    method RecoverOwned() returns (io: Io)
      requires engine.Valid()
      modifies engine
      ensures engine.Valid() && old(engine.run) <= engine.run
      ensures io.Done? ==> AllRemoved(engine.state) && engine.state.lock.Nobody?
      ensures io.Done? ==> forall c <- engine.state.containers ::
                             c.operation in engine.state.records && c.daemon != engine.state.records[c.operation].daemon
    {
      var held := engine.Lock();
      if !held {
        return Raised;
      }
      io := RecoverEach();
      if io.Died? {
        return;
      }
      engine.Unlock();
      NothingLeftNow(engine.run, engine.state);
    }

    method RecoverEach() returns (io: Io)
      requires engine.Valid() && engine.state.lock.Controller?
      modifies engine`state, engine`run
      ensures engine.Valid() && old(engine.run) <= engine.run
      ensures engine.state.workspaces == old(engine.state).workspaces
      ensures engine.state.lock == if io.Died? then Nobody else Controller
      ensures io.Done? ==> AllRemoved(engine.state)
    {
      var names := engine.state.records.Keys;
      var rest := names;
      while rest != {}
        invariant engine.Valid() && old(engine.run) <= engine.run
        invariant engine.state.lock.Controller? && engine.state.workspaces == old(engine.state).workspaces
        invariant rest <= names && engine.state.records.Keys == names
        invariant forall op <- names - rest :: engine.state.records[op].phase.Removed?
        decreases |rest|
      {
        var op := FindLeast(rest);
        ghost var before := engine.state;
        io := RecoverOne(op);
        if !io.Done? {
          return;
        }
        assert forall other <- names - rest :: engine.state.records[other] == before.records[other];
        rest := rest - {op};
      }
      return Done;
    }

    /** Recovery of one operation, which a record that says "removed" does not need. */
    method RecoverOne(op: string) returns (io: Io)
      requires engine.Valid() && engine.state.lock.Controller? && op in engine.state.records
      modifies engine`state, engine`run
      ensures engine.Valid() && old(engine.run) <= engine.run
      ensures engine.state.workspaces == old(engine.state).workspaces
      ensures engine.state.lock == if io.Died? then Nobody else Controller
      ensures OnlyTouches(old(engine.state), engine.state, op)
      ensures io.Done? ==> op in engine.state.records && engine.state.records[op].phase.Removed?
    {
      var record := engine.state.records[op];
      if record.phase.Removed? {
        return Done;
      }
      RecordsAreKeyed(engine.run, engine.state);
      var s := new DockerSession.Recovering(engine, record);
      io := s.Cleanup();
    }

    /** Raises unless every operation is removed; the caller holds the lock. */
    method RequireClean() returns (clean: bool)
      ensures clean <==> AllRemoved(engine.state)
    {
      var rest := engine.state.records.Keys;
      while rest != {}
        invariant rest <= engine.state.records.Keys
        invariant forall op <- engine.state.records.Keys - rest :: engine.state.records[op].phase.Removed?
        decreases |rest|
      {
        var op := FindLeast(rest);
        if !engine.state.records[op].phase.Removed? {
          return false;
        }
        rest := rest - {op};
      }
      return true;
    }

    /** A new workspace, open, at generation 0. */
    method OpenWorkspace(source: string) returns (handle: Option<string>)
      requires engine.Valid()
      modifies engine
      ensures engine.Valid() && old(engine.run) <= engine.run
      ensures handle.Some? ==>
                && handle.value in engine.state.workspaces
                && engine.state.workspaces[handle.value] == Workspace(Saved(source, 0), Saved(source, 0), 0, false)
    {
      var held := engine.Lock();
      if !held {
        return None;
      }
      var s := engine.state;
      var w := engine.uuid(s.workspaces.Keys);
      var next := s.(workspaces := s.workspaces[w := Workspace(Saved(source, 0), Saved(source, 0), 0, false)]);
      assert Opens(s, next, w);
      var io := engine.Effect(next);
      if !io.Died? {
        engine.Unlock();
      }
      return if io.Done? then Some(w) else None;
    }

    /**
     One execution: the workspace is read before the lock is taken, and what the command produced is
     saved under the lock.  `Stored` means that the saved workspace directly follows the one that was
     read: nobody wrote it in between.  A candidate is only held responsible for the end of its
     command, or of anything else, once its container is known to be gone.  A product is only run that
     was built from the very source that was read.
     */
    method Execute(w: string, prepared: string, mode: Mode, dependencies: Dependencies, work: Work)
        returns (o: Outcome, ghost at: nat)
      requires engine.Valid()
      modifies engine
      ensures engine.Valid() && old(engine.run) <= engine.run
      ensures o.Finished? || o.Stopped? || o.Dead?
      ensures o.Finished? ==>
                && |old(engine.run)| <= at + 1 && at < |engine.run|
                && w in engine.run[at].workspaces && !engine.run[at].workspaces[w].closed
                && Ready(mode, dependencies, engine.run[at].workspaces[w].saved.source, prepared)
                && Reports(o, engine.run[at].workspaces[w], work)
                && (o.status.Stored? ==>
                      var u := engine.run[at].workspaces[w];
                      Follows(engine.run, at, w, u.(saved := o.saved, generation := u.generation + 1)))
    {
      at := 0;
      var recovered := RecoverOwned();
      if !recovered.Done? {
        return if recovered.Died? then Dead else Stopped, at;
      }
      if w !in engine.state.workspaces || engine.state.workspaces[w].closed {
        return Stopped, at;
      }
      at := |engine.run| - 1;
      var value := engine.state.workspaces[w];
      if !Ready(mode, dependencies, value.saved.source, prepared) {
        return Stopped, at;
      }
      o := ExecuteIn(w, value, work, at);
    }

    /** The part of an execution after its workspace was read. */
    method ExecuteIn(w: string, value: Workspace, work: Work, ghost at: nat) returns (o: Outcome)
      requires engine.Valid() && at < |engine.run|
      requires w in engine.run[at].workspaces && engine.run[at].workspaces[w] == value && !value.closed
      modifies engine
      ensures engine.Valid() && old(engine.run) <= engine.run
      ensures o.Finished? || o.Stopped? || o.Dead?
      ensures o.Finished? ==> Reports(o, value, work)
      ensures o.Finished? && o.status.Stored? ==>
                Follows(engine.run, at, w, value.(saved := o.saved, generation := value.generation + 1))
    {
      var s := new DockerSession(engine, Some(Claim(w, value.generation, value.saved.source)));
      var entered := s.Enter();
      if entered.Died? {
        return Dead;
      }
      if entered.Raised? {
        o := Publish(Finished(LastConfirmed, value.saved, s.cleanupVerified, InfrastructureFailure));
        return;
      }
      o := PerformIn(s, w, value, work, at);
      if o.Finished? {
        o := Publish(o);
      }
    }

    /** The work of an entered session, and its exit. */
    method PerformIn(s: DockerSession, w: string, value: Workspace, work: Work, ghost at: nat) returns (o: Outcome)
      requires s.engine == engine && s.Owns() && s.Admitted() && s.Durable() && s.record.phase.Running?
      requires s.record.claim == Some(Claim(w, value.generation, value.saved.source)) && !s.cleanupVerified
      requires at < |engine.run| && w in engine.run[at].workspaces && engine.run[at].workspaces[w] == value
      requires !value.closed
      modifies s, engine`state, engine`run
      ensures engine.Valid() && old(engine.run) <= engine.run
      ensures o.Finished? || o.Dead?
      ensures o.Finished? ==> Reports(o, value, work)
      ensures o.Finished? && o.status.Stored? ==>
                Follows(engine.run, at, w, value.(saved := o.saved, generation := value.generation + 1))
    {
      var io, status, saved, reason := Perform(s, w, value, work, at);
      if io.Died? {
        return Dead;
      }
      var left := s.Exit();
      if left.Died? {
        return Dead;
      }
      if status.Stored? {
        NextFollows(engine.run, at, w);
      }
      return Finished(status, saved, s.cleanupVerified, if left.Done? then reason else InfrastructureFailure);
    }

    /** A result is returned once its evidence is published. */
    method Publish(result: Outcome) returns (o: Outcome)
      ensures o == result || o.Stopped?
    {
      var published := *;
      return if published then result else Stopped;
    }

    /** Stages the source and runs the setup commands, up to the first that does not succeed. */
    method Prepare(work: Work) returns (trouble: Option<Reason>)
      ensures trouble == Trouble(work)
    {
      trouble := StagingTrouble(work.staging);
      var i := 0;
      while i < |work.setup| && trouble.None?
        invariant i <= |work.setup|
        invariant StagingTrouble(work.staging).Some? ==> trouble == StagingTrouble(work.staging)
        invariant StagingTrouble(work.staging).None? && trouble.Some? ==> trouble == SetupTrouble(work.setup)
        invariant trouble.None? ==> SetupTrouble(work.setup[i..]) == SetupTrouble(work.setup)
      {
        assert work.setup[i..][1..] == work.setup[i + 1..];
        if work.setup[i] != Exited(0) {
          trouble := SetupTrouble([work.setup[i]]);
        }
        i := i + 1;
      }
    }

    /** The work in the container, and the saving of what it left. */
    method Perform(s: DockerSession, w: string, value: Workspace, work: Work, ghost at: nat)
        returns (io: Io, status: Status, saved: Saved, reason: Reason)
      requires s.engine == engine && s.Owns() && s.Admitted() && s.Durable() && s.record.phase.Running?
      requires s.record.claim == Some(Claim(w, value.generation, value.saved.source))
      requires at < |engine.run| && w in engine.run[at].workspaces && engine.run[at].workspaces[w] == value
      requires !value.closed
      modifies engine`state, engine`run
      ensures engine.Valid() && old(engine.run) <= engine.run
      ensures io.Died? || s.Owns()
      ensures reason == if io.Done? then ReasonOf(work) else InfrastructureFailure
      ensures io.Done? ==> status == StatusOf(work, value.saved.source)
      ensures !io.Done? ==> status.LastConfirmed?
      ensures !status.Stored? ==> saved == value.saved
      ensures status.Stored? ==>
                && Produced(work).Some? && saved == Saved(Produced(work).value, value.saved.version + 1)
                && w in engine.state.workspaces
                && engine.state.workspaces[w] == value.(saved := saved, generation := value.generation + 1)
    {
      var trouble := Prepare(work);
      if trouble.Some? {
        return Done, LastConfirmed, value.saved, trouble.value;
      }
      if !work.command.Exited? || !work.save {
        return Done, LastConfirmed, value.saved, CommandReason(work.command);
      }
      if !work.capture.Captured? {
        return Done, LastConfirmed, value.saved, CaptureTrouble(work.capture).value;
      }
      if work.capture.source == value.saved.source {
        return Done, Unchanged, value.saved, CommandReason(work.command);
      }
      var proposed := Saved(work.capture.source, value.saved.version + 1);
      io := Save(s, w, value, proposed, at);
      if !io.Done? {
        return io, LastConfirmed, value.saved, InfrastructureFailure;
      }
      return Done, Stored, proposed, CommandReason(work.command);
    }

    /** Writes the snapshot that was read, with the new source and the next generation. */
    method Save(s: DockerSession, w: string, value: Workspace, proposed: Saved, ghost at: nat) returns (io: Io)
      requires s.engine == engine && s.Owns() && s.Admitted() && s.Durable() && s.record.phase.Running?
      requires s.record.claim == Some(Claim(w, value.generation, value.saved.source))
      requires at < |engine.run| && w in engine.run[at].workspaces && engine.run[at].workspaces[w] == value
      requires proposed.version == value.saved.version + 1 && !value.closed
      modifies engine`state, engine`run
      ensures engine.Valid() && old(engine.run) <= engine.run
      ensures io.Died? || s.Owns()
      ensures io.Done? ==> w in engine.state.workspaces
      ensures io.Done? ==> engine.state.workspaces[w] == value.(saved := proposed, generation := value.generation + 1)
    {
      RunIsHistory(engine.run, at, |engine.run| - 1);
      var now := engine.state;
      assert WorkspaceLater(value, now.workspaces[w]);
      var rewritten := value.(saved := proposed, generation := value.generation + 1);
      var next := now.(workspaces := now.workspaces[w := rewritten]);
      assert Rewrites(now, next, w);
      io := engine.Effect(next);
    }

    /** What reset and close write, when they write. */
    function Ended(u: Workspace, closing: bool): Workspace {
      if closing then u.(closed := true, generation := u.generation + 1)
      else u.(saved := u.initial, generation := u.generation + 1)
    }

    /**
     `reset` and `close`: nothing happens unless every operation is removed and the workspace is
     open; an answer means that the workspace now is what it was, reset or closed.
     */
    method End(w: string, closing: bool) returns (o: Outcome, ghost at: nat)
      requires engine.Valid()
      modifies engine
      ensures engine.Valid() && old(engine.run) <= engine.run
      ensures o.Answered? || o.Stopped? || o.Dead?
      ensures o.Answered? ==>
                && |old(engine.run)| <= at < |engine.run| && AllRemoved(engine.run[at])
                && w in engine.run[at].workspaces && !engine.run[at].workspaces[w].closed
                && w in engine.state.workspaces
                && engine.state.workspaces[w] == Ended(engine.run[at].workspaces[w], closing)
                && o.saved == engine.state.workspaces[w].saved
    {
      at := 0;
      var recovered := RecoverOwned();
      if !recovered.Done? {
        return if recovered.Died? then Dead else Stopped, at;
      }
      var held := engine.Lock();
      if !held {
        return Stopped, at;
      }
      at := |engine.run| - 1;
      o := Transition(w, closing);
    }

    /** The terminal commit, under the lock, which is dropped in any case. */
    method Transition(w: string, closing: bool) returns (o: Outcome)
      requires engine.Valid() && engine.state.lock.Controller?
      modifies engine`state, engine`run
      ensures engine.Valid() && old(engine.run) <= engine.run && engine.state.lock.Nobody?
      ensures o.Answered? || o.Stopped? || o.Dead?
      ensures o.Answered? ==>
                && AllRemoved(old(engine.state))
                && w in old(engine.state).workspaces && !old(engine.state).workspaces[w].closed
                && w in engine.state.workspaces
                && engine.state.workspaces[w] == Ended(old(engine.state).workspaces[w], closing)
                && o.saved == engine.state.workspaces[w].saved
    {
      var clean := RequireClean();
      var s := engine.state;
      if !clean || w !in s.workspaces || s.workspaces[w].closed {
        engine.Unlock();
        return Stopped;
      }
      var v := Ended(s.workspaces[w], closing);
      var next := s.(workspaces := s.workspaces[w := v]);
      assert Rewrites(s, next, w);
      var io := engine.Effect(next);
      if !io.Died? {
        engine.Unlock();
      }
      return match io case Done => Answered(v.saved) case Raised => Stopped case Died => Dead;
    }
  }

  /** From `at` on the workspace holds what it held then, until it holds `v`, with which the run ends. */
  ghost predicate Follows(run: seq<State>, at: nat, w: string, v: Workspace) {
    && at < |run| && w in run[at].workspaces
    && w in run[|run| - 1].workspaces && run[|run| - 1].workspaces[w] == v
    && forall k | at <= k < |run| :: w in run[k].workspaces && run[k].workspaces[w] in {run[at].workspaces[w], v}
  }

  /** A workspace that is one generation further has been written once. */
  lemma NextFollows(run: seq<State>, at: nat, w: string)
    requires IsRun(run) && at < |run| && w in run[at].workspaces && w in run[|run| - 1].workspaces
    requires run[|run| - 1].workspaces[w].generation == run[at].workspaces[w].generation + 1
    ensures Follows(run, at, w, run[|run| - 1].workspaces[w])
  {
    forall k | at <= k < |run|
      ensures w in run[k].workspaces
      ensures run[k].workspaces[w] in {run[at].workspaces[w], run[|run| - 1].workspaces[w]}
    {
      RunIsHistory(run, at, k);
      RunIsHistory(run, k, |run| - 1);
      assert WorkspaceLater(run[at].workspaces[w], run[k].workspaces[w]);
      assert WorkspaceLater(run[k].workspaces[w], run[|run| - 1].workspaces[w]);
    }
  }

  /** At the end of a run, records are stored under the operation they name. */
  lemma RecordsAreKeyed(run: seq<State>, s: State)
    requires IsRun(run) && run[|run| - 1] == s
    ensures forall op <- s.records :: s.records[op].operation == op
  {
    RunKeepsOwned(run, |run| - 1);
  }

  lemma NothingLeftNow(run: seq<State>, s: State)
    requires IsRun(run) && run[|run| - 1] == s
    ensures AllRemoved(s) ==>
            forall c <- s.containers :: c.operation in s.records && c.daemon != s.records[c.operation].daemon
  {
    if AllRemoved(s) {
      NothingLeft(run, |run| - 1);
    }
  }
}
