/**
 Ownership of containers and of workspaces: what the state directory and the Docker daemon hold,
 the steps by which any number of controller processes change them, and what every run keeps.
 A process that dies simply stops making steps, and the operating system drops its lock.
 */
module Ownership {
  import opened Text
  import opened Runs

  datatype Phase = Intent | Created | Running | CleanupPending | Removed

  function Rank(p: Phase): nat {
    match p
    case Intent => 0
    case Created => 1
    case Running => 2
    case CleanupPending => 3
    case Removed => 4
  }

  /** The workspace, generation and source that an operation is admitted against. */
  datatype Claim = Claim(workspace: string, generation: nat, source: string)

  datatype Record = Record(operation: string, daemon: string, claim: Option<Claim>, phase: Phase)

  datatype Saved = Saved(source: string, version: nat)

  datatype Workspace = Workspace(initial: Saved, saved: Saved, generation: nat, closed: bool)

  /** Who holds the one exclusive lock: an operation, or a recovery or workspace transition. */
  datatype Holder = Nobody | Session(operation: string) | Controller

  /** A container carries the labels of its operation, on the daemon that created it. */
  datatype Container = Container(daemon: string, operation: string)

  datatype State = State(lock: Holder, records: map<string, Record>, workspaces: map<string, Workspace>,
                         daemon: string, containers: set<Container>)

  ghost predicate Initial(s: State) {
    s.lock.Nobody? && s.records == map[] && s.workspaces == map[] && s.containers == {}
  }

  predicate SameOperation(a: Record, b: Record) {
    a.operation == b.operation && a.daemon == b.daemon && a.claim == b.claim
  }

  ghost predicate AllRemoved(s: State) {
    forall op <- s.records :: s.records[op].phase.Removed?
  }

  // ---------- steps ----------

  ghost predicate Takes(s: State, s': State) {
    && s.lock.Nobody? && s' == s.(lock := s'.lock)
    && (s'.lock.Session? ==> s'.lock.operation !in s.records)
  }

  ghost predicate Drops(s: State, s': State) {
    s' == s.(lock := Nobody)
  }

  /** The holder of the lock replaces one record; "removed" is written only of an absent container. */
  ghost predicate Persists(s: State, s': State, r: Record) {
    && s' == s.(records := s.records[r.operation := r])
    && (r.operation in s.records ==>
          SameOperation(s.records[r.operation], r) && Rank(s.records[r.operation].phase) <= Rank(r.phase))
    && (s.lock == Session(r.operation)
        || (s.lock.Controller? && r.operation in s.records && Rank(r.phase) >= Rank(CleanupPending)))
    && (r.phase.Removed? ==> Container(r.daemon, r.operation) !in s.containers)
  }

  /** An operation creates its container, on whichever daemon answers, once its intent is durable. */
  ghost predicate Creates(s: State, s': State, op: string) {
    && s.lock == Session(op) && op in s.records && s.records[op].phase.Intent?
    && s' == s.(containers := s.containers + {Container(s.daemon, op)})
  }

  /** An operation removes its own container, or recovery removes one whose record is pending. */
  ghost predicate Removes(s: State, s': State, op: string) {
    && (s.lock == Session(op) || (s.lock.Controller? && op in s.records && !s.records[op].phase.Removed?))
    && s' == s.(containers := s.containers - {Container(s.daemon, op)})
  }

  ghost predicate Opens(s: State, s': State, w: string) {
    && s.lock.Controller? && w !in s.workspaces && w in s'.workspaces
    && s' == s.(workspaces := s.workspaces[w := s'.workspaces[w]])
    && s'.workspaces[w].saved == s'.workspaces[w].initial
    && s'.workspaces[w].generation == 0 && !s'.workspaces[w].closed
  }

  /** A running operation saves over the very workspace it was admitted against. */
  ghost predicate Saves(s: State, u: Workspace, v: Workspace, w: string) {
    && s.lock.Session? && s.lock.operation in s.records
    && s.records[s.lock.operation].phase.Running?
    && s.records[s.lock.operation].claim == Some(Claim(w, u.generation, u.saved.source))
    && v.saved.version == u.saved.version + 1 && !v.closed
  }

  ghost predicate Resets(s: State, u: Workspace, v: Workspace) {
    s.lock.Controller? && AllRemoved(s) && v.saved == u.initial && !v.closed
  }

  ghost predicate Closes(s: State, u: Workspace, v: Workspace) {
    s.lock.Controller? && AllRemoved(s) && v.saved == u.saved && v.closed
  }

  /** Every rewrite of an open workspace advances its generation by one. */
  ghost predicate Rewrites(s: State, s': State, w: string) {
    && w in s.workspaces && w in s'.workspaces
    && s' == s.(workspaces := s.workspaces[w := s'.workspaces[w]])
    && var u, v := s.workspaces[w], s'.workspaces[w];
       && !u.closed && v.initial == u.initial && v.generation == u.generation + 1
       && (Saves(s, u, v, w) || Resets(s, u, v) || Closes(s, u, v))
  }

  /** Another daemon may answer at the socket, but not while an operation runs. */
  ghost predicate Switches(s: State, s': State) {
    s.lock.Nobody? && s' == s.(daemon := s'.daemon)
  }

  /** Containers may disappear by themselves. */
  ghost predicate Vanishes(s: State, s': State) {
    s' == s.(containers := s'.containers) && s'.containers <= s.containers
  }

  ghost predicate Step(s: State, s': State) {
    || Takes(s, s') || Drops(s, s') || Switches(s, s') || Vanishes(s, s')
    || (exists r: Record :: Persists(s, s', r))
    || (exists op: string :: Creates(s, s', op))
    || (exists op: string :: Removes(s, s', op))
    || (exists w: string :: Opens(s, s', w))
    || (exists w: string :: Rewrites(s, s', w))
  }

  ghost predicate IsPath(run: seq<State>) {
    forall i, j | 0 <= i < j < |run| && j == i + 1 :: Step(run[i], run[j])
  }

  ghost predicate IsRun(run: seq<State>) {
    run != [] && Initial(run[0]) && IsPath(run)
  }

  lemma PathExtends(run: seq<State>, more: seq<State>)
    requires run != [] && IsPath(run) && IsPath([run[|run| - 1]] + more)
    ensures IsPath(run + more)
  {
    var all, tail := run + more, [run[|run| - 1]] + more;
    forall i, j | 0 <= i < j < |all| && j == i + 1
      ensures Step(all[i], all[j])
    {
      if i >= |run| - 1 {
        var k := i - (|run| - 1);
        assert tail[k] == all[i] && tail[k + 1] == all[i + 1];
      }
    }
  }

  // ---------- ownership ----------

  /**
   Every existing container has a durable record, written before the container; if that record says
   "removed", the container is on another daemon than the one the record names.
   */
  ghost predicate Owned(s: State) {
    && (forall op <- s.records :: s.records[op].operation == op)
    && (forall c <- s.containers ::
          && c.operation in s.records
          && (s.records[c.operation].phase.Removed? ==> c.daemon != s.records[c.operation].daemon))
  }

  lemma PersistKeepsOwned(s: State, s': State, r: Record)
    requires Owned(s) && Persists(s, s', r)
    ensures Owned(s')
  {}

  lemma CreationKeepsOwned(s: State, s': State, op: string)
    requires Owned(s) && Creates(s, s', op)
    ensures Owned(s')
  {}

  lemma FewerAreOwned(s: State, s': State)
    requires Owned(s) && s'.records == s.records && s'.containers <= s.containers
    ensures Owned(s')
  {}

  lemma StepKeepsOwned(s: State, s': State)
    requires Owned(s) && Step(s, s')
    ensures Owned(s')
  {
    if r: Record :| Persists(s, s', r) {
      PersistKeepsOwned(s, s', r);
    } else if op: string :| Creates(s, s', op) {
      CreationKeepsOwned(s, s', op);
    } else {
      FewerAreOwned(s, s');
    }
  }

  lemma {:induction false} RunKeepsOwned(run: seq<State>, i: nat)
    requires IsRun(run) && i < |run|
    ensures Owned(run[i])
  {
    if i == 0 {
    } else {
      RunKeepsOwned(run, i - 1);
      StepKeepsOwned(run[i - 1], run[i]);
    }
  }

  /** When every record says "removed", no container is left on the daemon its record names. */
  lemma NothingLeft(run: seq<State>, i: nat)
    requires IsRun(run) && i < |run| && AllRemoved(run[i])
    ensures forall c <- run[i].containers ::
            c.operation in run[i].records && c.daemon != run[i].records[c.operation].daemon
  {
    RunKeepsOwned(run, i);
  }

  /** Between two states, only the records, containers and daemon of operation `op` may differ. */
  ghost predicate OnlyTouches(s: State, s': State, op: string) {
    && s'.daemon == s.daemon
    && (forall other :: other != op ==>
          && (other in s'.records <==> other in s.records)
          && (other in s.records ==> s'.records[other] == s.records[other]))
    && (forall c <- s'.containers :: c.operation != op ==> c in s.containers)
  }

  lemma SessionStepIsAlone(s: State, s': State, op: string)
    requires s.lock == Session(op) && Step(s, s')
    ensures OnlyTouches(s, s', op)
  {}

  /** While an operation holds the lock, no record or container of another one is touched. */
  lemma SessionIsAlone(run: seq<State>, op: string, i: nat, j: nat)
    requires IsRun(run) && i <= j < |run|
    requires forall k | i <= k < j :: run[k].lock == Session(op)
    ensures OnlyTouches(run[i], run[j], op)
  {
    forall k, l | i <= k < l <= j && l == k + 1
      ensures OnlyTouches(run[k], run[l], op)
    {
      SessionStepIsAlone(run[k], run[l], op);
    }
    Chain(run, (s, t) => OnlyTouches(s, t, op), i, j);
  }

  // ---------- history ----------

  /** How a record and a workspace may have changed between two moments of a run. */
  ghost predicate RecordLater(a: Record, b: Record) {
    SameOperation(a, b) && Rank(a.phase) <= Rank(b.phase)
  }

  ghost predicate WorkspaceLater(u: Workspace, v: Workspace) {
    && u.initial == v.initial && u.generation <= v.generation
    && (u.generation == v.generation ==> u == v)
    && (u.closed ==> u == v)
  }

  ghost predicate Later(s: State, t: State) {
    && (forall op <- s.records :: op in t.records && RecordLater(s.records[op], t.records[op]))
    && (forall w <- s.workspaces :: w in t.workspaces && WorkspaceLater(s.workspaces[w], t.workspaces[w]))
  }

  lemma LaterIsTransitive(s: State, t: State, u: State)
    requires Later(s, t) && Later(t, u)
    ensures Later(s, u)
  {
    forall op <- s.records
      ensures op in u.records && RecordLater(s.records[op], u.records[op])
    {
      assert RecordLater(s.records[op], t.records[op]) && RecordLater(t.records[op], u.records[op]);
    }
    forall w <- s.workspaces
      ensures w in u.workspaces && WorkspaceLater(s.workspaces[w], u.workspaces[w])
    {
      assert WorkspaceLater(s.workspaces[w], t.workspaces[w]) && WorkspaceLater(t.workspaces[w], u.workspaces[w]);
    }
  }

  lemma PersistIsLater(s: State, s': State, r: Record)
    requires Persists(s, s', r) && Owned(s)
    ensures Later(s, s')
  {}

  lemma OpeningIsLater(s: State, s': State, w: string)
    requires Opens(s, s', w)
    ensures Later(s, s')
  {}

  lemma RewriteIsLater(s: State, s': State, w: string)
    requires Rewrites(s, s', w)
    ensures Later(s, s')
  {}

  lemma SameIsLater(s: State, s': State)
    requires s'.records == s.records && s'.workspaces == s.workspaces
    ensures Later(s, s')
  {}

  lemma StepIsLater(s: State, s': State)
    requires Step(s, s') && Owned(s)
    ensures Later(s, s')
  {
    if r: Record :| Persists(s, s', r) {
      PersistIsLater(s, s', r);
    } else if w: string :| Opens(s, s', w) {
      OpeningIsLater(s, s', w);
    } else if w: string :| Rewrites(s, s', w) {
      RewriteIsLater(s, s', w);
    } else {
      SameIsLater(s, s');
    }
  }

  /**
   Over any run: records and workspaces are never lost, phases only advance and "removed" is final,
   generations never decrease, one generation of a workspace has one content, closed stays closed.
   */
  lemma RunIsHistory(run: seq<State>, i: nat, j: nat)
    requires IsRun(run) && i <= j < |run|
    ensures Later(run[i], run[j])
  {
    forall k, l | i <= k < l <= j && l == k + 1
      ensures Later(run[k], run[l])
    {
      RunKeepsOwned(run, k);
      StepIsLater(run[k], run[l]);
    }
    forall s: State, t: State, u: State | Later(s, t) && Later(t, u)
      ensures Later(s, u)
    {
      LaterIsTransitive(s, t, u);
    }
    Chain(run, (s, t) => Later(s, t), i, j);
  }

  /** How often a history changes. */
  ghost function Changes(history: seq<Workspace>): nat {
    if |history| < 2 then 0
    else Changes(history[1..]) + (if history[0] == history[1] then 0 else 1)
  }

  lemma StepAdvancesGeneration(s: State, s': State, w: string)
    requires Step(s, s') && w in s.workspaces
    ensures w in s'.workspaces
    ensures s'.workspaces[w].generation ==
            s.workspaces[w].generation + (if s.workspaces[w] == s'.workspaces[w] then 0 else 1)
  {}

  /** What a workspace holds at each moment from `i` on. */
  ghost function History(run: seq<State>, w: string, i: nat): seq<Workspace>
    requires i < |run| && forall k | i <= k < |run| :: w in run[k].workspaces
  {
    seq(|run| - i, k requires 0 <= k < |run| - i => run[i + k].workspaces[w])
  }

  /** From each moment to the next, the generation advances by one exactly if something changes. */
  ghost predicate Advancing(history: seq<Workspace>) {
    forall k, l | 0 <= k < l < |history| && l == k + 1 ::
      history[l].generation == history[k].generation + (if history[k] == history[l] then 0 else 1)
  }

  lemma {:induction false} ChangesAddUp(history: seq<Workspace>)
    requires history != [] && Advancing(history)
    ensures history[|history| - 1].generation == history[0].generation + Changes(history)
  {
    if |history| >= 2 {
      ChangesAddUp(history[1..]);
    }
  }

  lemma HistoryAdvances(run: seq<State>, w: string, i: nat)
    requires IsRun(run) && i < |run| && forall k | i <= k < |run| :: w in run[k].workspaces
    ensures Advancing(History(run, w, i))
  {
    forall k, l | i <= k < l < |run| && l == k + 1
      ensures run[l].workspaces[w].generation ==
              run[k].workspaces[w].generation + (if run[k].workspaces[w] == run[l].workspaces[w] then 0 else 1)
    {
      StepAdvancesGeneration(run[k], run[l], w);
    }
  }

  lemma WorkspaceStays(run: seq<State>, w: string, i: nat)
    requires IsRun(run) && i < |run| && w in run[i].workspaces
    ensures forall k | i <= k < |run| :: w in run[k].workspaces
  {
    forall k | i <= k < |run|
      ensures w in run[k].workspaces
    {
      RunIsHistory(run, i, k);
    }
  }

  /** The changes of a workspace are one linear history: its generation counts them. */
  lemma GenerationCountsChanges(run: seq<State>, w: string, i: nat)
    requires IsRun(run) && i < |run| && w in run[i].workspaces
    ensures forall k | i <= k < |run| :: w in run[k].workspaces
    ensures run[|run| - 1].workspaces[w].generation == run[i].workspaces[w].generation + Changes(History(run, w, i))
  {
    WorkspaceStays(run, w, i);
    var h := History(run, w, i);
    assert h[0] == run[i].workspaces[w] && h[|h| - 1] == run[|run| - 1].workspaces[w];
    assert Advancing(h) by {
      HistoryAdvances(run, w, i);
    }
    ChangesAddUp(h);
  }

  /**
   No update is lost: of two writes to one workspace the later finds a newer generation, so two
   operations admitted against the same generation never both save.
   */
  lemma NoLostUpdate(run: seq<State>, w: string, i: nat, j: nat)
    requires IsRun(run) && i < j < |run| - 1
    requires Rewrites(run[i], run[i + 1], w) && Rewrites(run[j], run[j + 1], w)
    ensures run[i].workspaces[w].generation < run[j].workspaces[w].generation
    ensures run[i].lock.Session? && run[j].lock.Session? ==>
              && run[i].lock.operation in run[i].records && run[j].lock.operation in run[j].records
              && run[i].records[run[i].lock.operation].claim != run[j].records[run[j].lock.operation].claim
  {
    RunIsHistory(run, i + 1, j);
  }

  /**
   A workspace changes only under a running operation that was admitted against exactly its present
   generation and source, or when no operation is left: every record says "removed".
   */
  lemma WhoWrites(run: seq<State>, w: string, i: nat)
    requires IsRun(run) && i < |run| - 1 && w in run[i].workspaces && w in run[i + 1].workspaces
    requires run[i + 1].workspaces[w] != run[i].workspaces[w]
    ensures var s, u := run[i], run[i].workspaces[w];
            && !u.closed
            && if s.lock.Session?
               then s.lock.operation in s.records
                    && s.records[s.lock.operation].phase.Running?
                    && s.records[s.lock.operation].claim == Some(Claim(w, u.generation, u.saved.source))
               else
                 && s.lock.Controller? && AllRemoved(s)
                 && forall c <- s.containers :: c.operation in s.records && c.daemon != s.records[c.operation].daemon
  {
    assert Step(run[i], run[i + 1]);
    RunKeepsOwned(run, i);
  }

  // ---------- containers on another daemon ----------

  /** A container is orphaned when its record says "removed" although it still exists. */
  ghost predicate Orphaned(s: State, c: Container) {
    c in s.containers && c.operation in s.records && s.records[c.operation].phase.Removed?
  }

  ghost predicate CanBeOrphaned(run: seq<State>, c: Container) {
    exists more: seq<State> :: IsRun(run + more) && Orphaned((run + more)[|run + more| - 1], c)
  }

  /** The end of a run after which recovery, asking the recorded daemon, marks the record of `c` removed. */
  ghost function Forsaken(s: State, c: Container): seq<State>
    requires c.operation in s.records
  {
    var r := s.records[c.operation];
    var s1 := s.(lock := Nobody);
    var s2 := s1.(daemon := r.daemon);
    var s3 := s2.(lock := Controller);
    var s4 := s3.(containers := s3.containers - {Container(r.daemon, c.operation)});
    var s5 := s4.(records := s4.records[c.operation := r.(phase := Removed)]);
    [s1, s2, s3, s4, s5]
  }

  lemma ForsakenIsPath(s: State, c: Container)
    requires Owned(s) && c in s.containers && !s.records[c.operation].phase.Removed?
    ensures IsPath([s] + Forsaken(s, c))
  {
    var p := [s] + Forsaken(s, c);
    assert Drops(p[0], p[1]) && Switches(p[1], p[2]) && Takes(p[2], p[3]);
    assert Removes(p[3], p[4], c.operation);
    assert Persists(p[4], p[5], s.records[c.operation].(phase := Removed));
    forall i, j | 0 <= i < j < |p| && j == i + 1
      ensures Step(p[i], p[j])
    {}
  }

  /**
   Exactly which containers ownership can lose: those created on another daemon than the one their
   record names, because creation does not ask which daemon answers while cleanup does.
   */
  lemma OrphansAreMisplaced(run: seq<State>, c: Container)
    requires IsRun(run) && c in run[|run| - 1].containers
    ensures c.operation in run[|run| - 1].records
    ensures CanBeOrphaned(run, c) <==> c.daemon != run[|run| - 1].records[c.operation].daemon
  {
    var s := run[|run| - 1];
    RunKeepsOwned(run, |run| - 1);
    if more: seq<State> :| IsRun(run + more) && Orphaned((run + more)[|run + more| - 1], c) {
      RunKeepsOwned(run + more, |run + more| - 1);
      RunIsHistory(run + more, |run| - 1, |run + more| - 1);
      assert RecordLater(s.records[c.operation], (run + more)[|run + more| - 1].records[c.operation]);
    }
    if c.daemon != s.records[c.operation].daemon {
      if s.records[c.operation].phase.Removed? {
        assert run + [] == run;
        assert Orphaned((run + [])[|run + []| - 1], c);
      } else {
        var more := Forsaken(s, c);
        ForsakenIsPath(s, c);
        PathExtends(run, more);
        assert (run + more)[|run + more| - 1] == more[4];
        assert Orphaned(more[4], c);
      }
    }
  }

  /** Every container of a run was created while the daemon of its record answered. */
  ghost predicate Placed(run: seq<State>) {
    forall i, j, op | 0 <= i < j < |run| && j == i + 1 && Creates(run[i], run[j], op) ::
      run[i].daemon == run[i].records[op].daemon
  }

  /** Each existing container has a record that names its daemon and is not "removed". */
  ghost predicate AllHeld(s: State) {
    forall c <- s.containers ::
      && c.operation in s.records
      && s.records[c.operation].daemon == c.daemon && !s.records[c.operation].phase.Removed?
  }

  lemma NewContainer(s: State, s': State, c: Container)
    requires Step(s, s') && c in s'.containers && c !in s.containers
    ensures Creates(s, s', c.operation) && c.daemon == s.daemon && s'.records == s.records
  {}

  /** If every creation is guarded by the identity of the daemon, ownership is never lost. */
  lemma {:induction false} PlacedIsHeld(run: seq<State>, i: nat)
    requires IsRun(run) && i < |run| && Placed(run)
    ensures AllHeld(run[i])
  {
    if i == 0 {
      assert run[0].containers == {};
    } else {
      var s, s' := run[i - 1], run[i];
      PlacedIsHeld(run, i - 1);
      RunKeepsOwned(run, i - 1);
      RunKeepsOwned(run, i);
      StepIsLater(s, s');
      forall c <- s'.containers
        ensures c.operation in s'.records && s'.records[c.operation].daemon == c.daemon
      {
        if c in s.containers {
          assert RecordLater(s.records[c.operation], s'.records[c.operation]);
        } else {
          NewContainer(s, s', c);
        }
      }
    }
  }

  lemma PrefixIsRun(run: seq<State>, i: nat)
    requires IsRun(run) && i < |run|
    ensures IsRun(run[..i + 1]) && run[..i + 1][i] == run[i]
  {
    var p := run[..i + 1];
    assert forall k | 0 <= k <= i :: p[k] == run[k];
  }

  /** A creation on another daemon than the one recorded produces a container that can be orphaned. */
  lemma UnguardedCreation(run: seq<State>, i: nat, op: string)
    requires IsRun(run) && i + 1 < |run| && Creates(run[i], run[i + 1], op)
    requires run[i].daemon != run[i].records[op].daemon
    ensures var c := Container(run[i].daemon, op);
            c in run[i + 1].containers && CanBeOrphaned(run[..i + 2], c)
  {
    PrefixIsRun(run, i + 1);
    OrphansAreMisplaced(run[..i + 2], Container(run[i].daemon, op));
  }

  /**
   The exact condition, at the moment of creation: no container of a run can ever be orphaned if and
   only if each one is created while the daemon that its record names is the one that answers.
   */
  lemma OwnershipIsKeptExactly(run: seq<State>)
    requires IsRun(run)
    ensures Placed(run) <==>
            forall i, c | 0 <= i < |run| && c in run[i].containers :: !CanBeOrphaned(run[..i + 1], c)
  {
    if Placed(run) {
      forall i, c | 0 <= i < |run| && c in run[i].containers
        ensures !CanBeOrphaned(run[..i + 1], c)
      {
        PlacedIsHeld(run, i);
        PrefixIsRun(run, i);
        OrphansAreMisplaced(run[..i + 1], c);
      }
    } else {
      var i, j, op :| 0 <= i < j < |run| && j == i + 1 && Creates(run[i], run[j], op)
                      && run[i].daemon != run[i].records[op].daemon;
      UnguardedCreation(run, i, op);
      assert Container(run[i].daemon, op) in run[j].containers;
    }
  }

  /** A run in which the daemon changed between reading its identity and creating: the container is orphaned. */
  lemma MisplacedContainer(here: string, there: string, op: string) returns (run: seq<State>)
    requires here != there
    ensures IsRun(run) && Orphaned(run[|run| - 1], Container(there, op))
  {
    var r := Record(op, here, None, Intent);
    var s0 := State(Nobody, map[], map[], there, {});
    var s1 := s0.(lock := Session(op));
    var s2 := s1.(records := map[op := r]);
    var s3 := s2.(containers := {Container(there, op)});
    run := [s0, s1, s2, s3];
    assert Takes(s0, s1) && Persists(s1, s2, r) && Creates(s2, s3, op);
    OrphansAreMisplaced(run, Container(there, op));
    var more: seq<State> :| IsRun(run + more) && Orphaned((run + more)[|run + more| - 1], Container(there, op));
    run := run + more;
  }
}
