/**
 The crash-safe outbox: committed events, their projection onto an append-only log, and the
 selection of one job result.  Every durable effect is one `Step` of the disk; a run is any
 sequence of steps, so a crash between two effects is a run that stops there.
 */
module Outbox {
  import opened Text
  import opened Runs
  import opened Lines

  datatype Decision = Selected | SameOutput | Conflict

  datatype Payload =
    | Started(attempt: string)
    | Observed(attempt: string, measured: string)
    | Completed(attempt: string, digest: string, decision: Decision)

  datatype Row = Row(number: nat, key: string, body: Bytes)

  datatype Choice = Choice(digest: string, attempt: string)

  /** Event encoding (without the newline), payload decoding, and the content digest. */
  datatype Codec = Codec(encode: (nat, string, Payload) -> Bytes, decode: Bytes -> Payload, digest: Bytes -> string)

  /** Encodings contain no newline and can be decoded; different bytes have different digests. */
  ghost predicate Lawful(c: Codec) {
    && (forall n, k, p :: NEWLINE !in c.encode(n, k, p) && c.decode(c.encode(n, k, p) + [NEWLINE]) == p)
    && (forall a, b :: c.digest(a) == c.digest(b) ==> a == b)
  }

  function KeyFor(p: Payload): string {
    match p
    case Started(a) => a + "/start"
    case Observed(a, _) => a + "/observation"
    case Completed(a, _, _) => a + "/completion"
  }

  function Body(c: Codec, number: nat, p: Payload): Bytes {
    c.encode(number, KeyFor(p), p) + [NEWLINE]
  }

  lemma BodyIsLine(c: Codec, number: nat, p: Payload)
    requires Lawful(c)
    ensures IsLine(Body(c, number, p)) && c.decode(Body(c, number, p)) == p
  {
    var e := c.encode(number, KeyFor(p), p);
    assert forall i | 0 <= i < |e| :: e[i] in e;
  }

  /** Keys of different attempts or of different kinds of event never collide. */
  lemma KeysIdentify(p: Payload, q: Payload)
    requires KeyFor(p) == KeyFor(q)
    ensures p.attempt == q.attempt
    ensures p.Started? == q.Started? && p.Observed? == q.Observed? && p.Completed? == q.Completed?
  {
    var k, n := KeyFor(p), |KeyFor(p)|;
    assert p.Started? ==> k[n - 1] == 't' && k[..n - 6] == p.attempt;
    assert p.Observed? ==> k[n - 1] == 'n' && k[n - 4] == 't' && k[n - 5] == 'a' && k[..n - 12] == p.attempt;
    assert p.Completed? ==> k[n - 1] == 'n' && k[n - 4] == 't' && k[n - 5] == 'e' && k[..n - 11] == p.attempt;
    assert q.Started? ==> k[n - 1] == 't' && k[..n - 6] == q.attempt;
    assert q.Observed? ==> k[n - 1] == 'n' && k[n - 4] == 't' && k[n - 5] == 'a' && k[..n - 12] == q.attempt;
    assert q.Completed? ==> k[n - 1] == 'n' && k[n - 4] == 't' && k[n - 5] == 'e' && k[..n - 11] == q.attempt;
  }

  /**
   What survives the process.  `job` is the row of the one job, once it exists; `synced` is the
   length of the log that is known to be on stable storage.
   */
  datatype Disk = Disk(rows: seq<Row>, job: Option<Option<Choice>>, attempts: set<string>, ack: nat,
                       log: Bytes, synced: nat, objects: map<string, Bytes>, pending: map<string, Bytes>)

  const EMPTY: Disk := Disk([], None, {}, 0, [], 0, map[], map[])

  function Bodies(rows: seq<Row>): seq<Bytes> {
    seq(|rows|, i requires 0 <= i < |rows| => rows[i].body)
  }

  // ---------- one step of the disk ----------

  /** A committed transaction appends at most one event and may select the result it reports. */
  ghost predicate Commits(c: Codec, d: Disk, d': Disk) {
    && d' == d.(rows := d'.rows, job := d'.job, attempts := d'.attempts)
    && ((d'.rows == d.rows && SameChoice(d, d'))
        || exists p: Payload :: Appends(c, d, d', p))
  }

  ghost predicate SameChoice(d: Disk, d': Disk) {
    Chosen(d') == Chosen(d) && (d.job.Some? ==> d'.job.Some?)
  }

  function Chosen(d: Disk): Option<Choice> {
    if d.job.Some? then d.job.value else None
  }

  ghost predicate Appends(c: Codec, d: Disk, d': Disk, p: Payload) {
    && d'.rows == d.rows + [Row(|d.rows| + 1, KeyFor(p), Body(c, |d.rows| + 1, p))]
    && (forall r <- d.rows :: r.key != KeyFor(p))
    && if p.Completed?
       then
         && d.job.Some? && p.digest in d.objects
         && p.decision == DecisionFor(Chosen(d), p.digest)
         && d'.job == Some(if Chosen(d).None? then Some(Choice(p.digest, p.attempt)) else Chosen(d))
       else SameChoice(d, d')
  }

  function DecisionFor(chosen: Option<Choice>, digest: string): Decision {
    if chosen.None? then Selected else if chosen.value.digest == digest then SameOutput else Conflict
  }

  /** Bytes of the authoritative lines are appended, in any portion. */
  ghost predicate Writes(d: Disk, d': Disk) {
    && d' == d.(log := d'.log)
    && d.log <= d'.log <= Concat(Bodies(d.rows))
  }

  ghost predicate Syncs(d: Disk, d': Disk) {
    d' == d.(synced := |d.log|)
  }

  ghost predicate Acknowledges(d: Disk, d': Disk) {
    && d.log == Concat(Bodies(d.rows)) && d.synced == |d.log|
    && d' == d.(ack := |d.rows|)
  }

  /** The machine stops: bytes not yet on stable storage may be lost from the end of the log. */
  ghost predicate Loses(d: Disk, d': Disk) {
    && d' == d.(log := d'.log)
    && d'.log <= d.log && d.synced <= |d'.log|
  }

  /** A temporary file changes, or an object is linked under its digest if the name is free. */
  ghost predicate Publishes(c: Codec, d: Disk, d': Disk) {
    || d' == d.(pending := d'.pending)
    || exists data: Bytes :: c.digest(data) !in d.objects && d' == d.(objects := d.objects[c.digest(data) := data])
  }

  ghost predicate Step(c: Codec, d: Disk, d': Disk) {
    Commits(c, d, d') || Writes(d, d') || Syncs(d, d') || Acknowledges(d, d') || Loses(d, d') || Publishes(c, d, d')
  }

  /** A run of the disk from its initial state. */
  ghost predicate IsRun(c: Codec, run: seq<Disk>) {
    && run != [] && run[0] == EMPTY
    && forall i, j | 0 <= i < j < |run| && j == i + 1 :: Step(c, run[i], run[j])
  }

  // ---------- what every run keeps ----------

  ghost predicate RowsOk(c: Codec, rows: seq<Row>) {
    forall i | 0 <= i < |rows| ::
      && rows[i].number == i + 1
      && rows[i].key == KeyFor(c.decode(rows[i].body))
      && rows[i].body == Body(c, i + 1, c.decode(rows[i].body))
  }

  ghost predicate KeysDistinct(rows: seq<Row>) {
    forall i, j | 0 <= i < j < |rows| :: rows[i].key != rows[j].key
  }

  /** The log is a byte prefix of the events, and acknowledged events are on stable storage. */
  ghost predicate LogOk(d: Disk) {
    && d.log <= Concat(Bodies(d.rows))
    && d.synced <= |d.log|
    && d.ack <= |d.rows| && |Concat(Bodies(d.rows[..d.ack]))| <= d.synced
  }

  ghost predicate ObjectsOk(c: Codec, objects: map<string, Bytes>) {
    forall n <- objects :: c.digest(objects[n]) == n
  }

  /** A completion is either the recorded choice and "selected", or judged against it. */
  ghost predicate Judged(c: Codec, p: Payload, chosen: Option<Choice>, objects: map<string, Bytes>) {
    p.Completed? ==>
      && chosen.Some? && p.digest in objects
      && if p.decision == Selected then chosen == Some(Choice(p.digest, p.attempt))
         else p.decision == DecisionFor(chosen, p.digest)
  }

  /** At most one completion is "selected", and it is the recorded choice; the others are judged against it. */
  ghost predicate ChoiceOk(c: Codec, rows: seq<Row>, chosen: Option<Choice>, objects: map<string, Bytes>) {
    && (forall r <- rows :: Judged(c, c.decode(r.body), chosen, objects))
    && (chosen.Some? ==>
          && chosen.value.digest in objects
          && exists r <- rows :: c.decode(r.body) == Completed(chosen.value.attempt, chosen.value.digest, Selected))
  }

  ghost predicate Inv(c: Codec, d: Disk) {
    && RowsOk(c, d.rows) && KeysDistinct(d.rows) && LogOk(d) && ObjectsOk(c, d.objects)
    && ChoiceOk(c, d.rows, Chosen(d), d.objects)
  }

  lemma BodiesAppend(rows: seq<Row>, r: Row)
    ensures Bodies(rows + [r]) == Bodies(rows) + [r.body]
    ensures Concat(Bodies(rows + [r])) == Concat(Bodies(rows)) + r.body
  {
    ConcatAppend(Bodies(rows), [r.body]);
    assert Concat([r.body]) == r.body + Concat([]);
  }

  lemma AppendKeepsNumbers(c: Codec, d: Disk, d': Disk, p: Payload)
    requires Lawful(c) && RowsOk(c, d.rows) && KeysDistinct(d.rows) && Appends(c, d, d', p)
    ensures RowsOk(c, d'.rows) && KeysDistinct(d'.rows)
  {
    BodyIsLine(c, |d.rows| + 1, p);
    forall i | 0 <= i < |d.rows|
      ensures d'.rows[i] == d.rows[i] && d.rows[i] in d.rows
    {}
  }

  lemma AppendKeepsLog(c: Codec, d: Disk, d': Disk, p: Payload)
    requires LogOk(d) && Appends(c, d, d', p)
    requires d'.log == d.log && d'.synced == d.synced && d'.ack == d.ack
    ensures LogOk(d')
  {
    BodiesAppend(d.rows, d'.rows[|d.rows|]);
    assert d'.rows[..d.ack] == d.rows[..d.ack];
  }

  lemma AppendKeepsChoice(c: Codec, d: Disk, d': Disk, p: Payload)
    requires Lawful(c) && ChoiceOk(c, d.rows, Chosen(d), d.objects)
    requires Appends(c, d, d', p) && d'.objects == d.objects
    ensures ChoiceOk(c, d'.rows, Chosen(d'), d'.objects)
  {
    var last := d'.rows[|d.rows|];
    BodyIsLine(c, |d.rows| + 1, p);
    assert last in d'.rows;
    forall r <- d'.rows
      ensures r in d.rows || r == last
    {}
    forall r <- d.rows
      ensures r in d'.rows
    {}
    if Chosen(d).Some? {
      var r :| r in d.rows && c.decode(r.body) == Completed(Chosen(d).value.attempt, Chosen(d).value.digest, Selected);
      assert r in d'.rows && Chosen(d') == Chosen(d);
    } else if p.Completed? {
      assert c.decode(last.body) == Completed(Chosen(d').value.attempt, Chosen(d').value.digest, Selected);
    }
  }

  lemma LossKeepsLog(d: Disk, d': Disk)
    requires LogOk(d) && Loses(d, d')
    ensures LogOk(d')
  {
    assert forall i | 0 <= i < |d'.log| :: d'.log[i] == d.log[i] == Concat(Bodies(d.rows))[i];
  }

  lemma LogStepKeepsLog(d: Disk, d': Disk)
    requires LogOk(d)
    requires Writes(d, d') || Syncs(d, d') || Acknowledges(d, d') || Loses(d, d')
    ensures LogOk(d')
  {
    assert d.rows[..|d.rows|] == d.rows;
    if Loses(d, d') {
      LossKeepsLog(d, d');
    }
  }

  lemma LogStepKeepsInv(c: Codec, d: Disk, d': Disk)
    requires Inv(c, d)
    requires Writes(d, d') || Syncs(d, d') || Acknowledges(d, d') || Loses(d, d')
    ensures Inv(c, d')
  {
    LogStepKeepsLog(d, d');
    assert d'.rows == d.rows && d'.job == d.job && d'.objects == d.objects;
  }

  lemma SameRowsKeepInv(c: Codec, d: Disk, d': Disk)
    requires Inv(c, d) && d' == d.(job := d'.job, attempts := d'.attempts, pending := d'.pending) && SameChoice(d, d')
    ensures Inv(c, d')
  {}

  lemma AppendKeepsInv(c: Codec, d: Disk, d': Disk, p: Payload)
    requires Lawful(c) && Inv(c, d) && Appends(c, d, d', p)
    requires d' == d.(rows := d'.rows, job := d'.job, attempts := d'.attempts)
    ensures Inv(c, d')
  {
    AppendKeepsNumbers(c, d, d', p);
    AppendKeepsLog(c, d, d', p);
    AppendKeepsChoice(c, d, d', p);
  }

  lemma LinkKeepsInv(c: Codec, d: Disk, d': Disk, data: Bytes)
    requires Inv(c, d) && c.digest(data) !in d.objects
    requires d' == d.(objects := d.objects[c.digest(data) := data])
    ensures Inv(c, d')
  {}

  lemma OtherStepKeepsInv(c: Codec, d: Disk, d': Disk)
    requires Lawful(c) && Inv(c, d)
    requires Commits(c, d, d') || Publishes(c, d, d')
    ensures Inv(c, d')
  {
    if d' == d.(pending := d'.pending) {
      SameRowsKeepInv(c, d, d');
    } else if Publishes(c, d, d') {
      var data: Bytes :| c.digest(data) !in d.objects && d' == d.(objects := d.objects[c.digest(data) := data]);
      LinkKeepsInv(c, d, d', data);
    } else if d'.rows == d.rows && SameChoice(d, d') {
      SameRowsKeepInv(c, d, d');
    } else {
      var p: Payload :| Appends(c, d, d', p);
      AppendKeepsInv(c, d, d', p);
    }
  }

  lemma StepKeepsInv(c: Codec, d: Disk, d': Disk)
    requires Lawful(c) && Inv(c, d) && Step(c, d, d')
    ensures Inv(c, d')
  {
    if Commits(c, d, d') || Publishes(c, d, d') {
      OtherStepKeepsInv(c, d, d');
    } else {
      LogStepKeepsInv(c, d, d');
    }
  }

  /** Every state of every run satisfies the invariant. */
  lemma {:induction false} RunKeepsInv(c: Codec, run: seq<Disk>, i: nat)
    requires Lawful(c) && IsRun(c, run) && i < |run|
    ensures Inv(c, run[i])
  {
    if i == 0 {
      assert Bodies([]) == [];
    } else {
      RunKeepsInv(c, run, i - 1);
      StepKeepsInv(c, run[i - 1], run[i]);
    }
  }

  // ---------- safety over whole runs ----------

  /** From any state of any run, wherever it stopped, the log passes the checks of a projection. */
  lemma RecoveryIsPossible(c: Codec, run: seq<Disk>, i: nat)
    requires Lawful(c) && IsRun(c, run) && i < |run|
    ensures Consistent(Bodies(run[i].rows), run[i].ack, run[i].log)
  {
    RunKeepsInv(c, run, i);
    InvIsConsistent(c, run[i]);
  }

  lemma RowsAreLines(c: Codec, d: Disk)
    requires Lawful(c) && RowsOk(c, d.rows)
    ensures forall l <- Bodies(d.rows) :: IsLine(l)
  {
    forall l <- Bodies(d.rows)
      ensures IsLine(l)
    {
      var i :| 0 <= i < |d.rows| && d.rows[i].body == l;
      BodyIsLine(c, i + 1, c.decode(l));
    }
  }

  lemma InvIsConsistent(c: Codec, d: Disk)
    requires Lawful(c) && Inv(c, d)
    ensures Consistent(Bodies(d.rows), d.ack, d.log)
  {
    RowsAreLines(c, d);
    ConsistentIsPrefix(Bodies(d.rows), d.ack, d.log);
    ConcatPrefix(Bodies(d.rows), d.ack);
    assert Bodies(d.rows)[..d.ack] == Bodies(d.rows[..d.ack]);
  }

  lemma SelectionUnique(c: Codec, d: Disk, r: Row, s: Row)
    requires KeysDistinct(d.rows) && RowsOk(c, d.rows) && ChoiceOk(c, d.rows, Chosen(d), d.objects)
    requires r in d.rows && c.decode(r.body).Completed? && c.decode(r.body).decision == Selected
    requires s in d.rows && c.decode(s.body).Completed? && c.decode(s.body).decision == Selected
    ensures r == s
  {
    var a :| 0 <= a < |d.rows| && d.rows[a] == r;
    var b :| 0 <= b < |d.rows| && d.rows[b] == s;
    assert d.rows[a].key == d.rows[b].key;
  }

  /** At most one completion is ever selected, and it is the job's recorded result and attempt. */
  lemma SingleSelection(c: Codec, run: seq<Disk>, i: nat, r: Row)
    requires Lawful(c) && IsRun(c, run) && i < |run|
    requires r in run[i].rows && c.decode(r.body).Completed? && c.decode(r.body).decision == Selected
    ensures var p := c.decode(r.body);
            Chosen(run[i]) == Some(Choice(p.digest, p.attempt)) && p.digest in run[i].objects
    ensures forall s <- run[i].rows :: c.decode(s.body).Completed? && c.decode(s.body).decision == Selected ==> s == r
  {
    RunKeepsInv(c, run, i);
    forall s <- run[i].rows | c.decode(s.body).Completed? && c.decode(s.body).decision == Selected
      ensures s == r
    {
      SelectionUnique(c, run[i], r, s);
    }
  }

  /** `d'` keeps every event, object and attempt of `d`, and its choice once made. */
  ghost predicate Grows(d: Disk, d': Disk) {
    && d.rows <= d'.rows
    && (Chosen(d).Some? ==> Chosen(d') == Chosen(d))
    && forall n <- d.objects :: n in d'.objects && d'.objects[n] == d.objects[n]
  }

  lemma StepGrows(c: Codec, d: Disk, d': Disk)
    requires Step(c, d, d')
    ensures Grows(d, d')
  {}

  lemma GrowsIsTransitive(d: Disk, e: Disk, f: Disk)
    requires Grows(d, e) && Grows(e, f)
    ensures Grows(d, f)
  {}

  /** Events are never reordered, rewritten or dropped; the selected result and published objects never change. */
  lemma HistoryOnlyGrows(c: Codec, run: seq<Disk>, i: nat, j: nat)
    requires IsRun(c, run) && i <= j < |run|
    ensures Grows(run[i], run[j])
  {
    forall k, l | i <= k < l <= j && l == k + 1
      ensures Grows(run[k], run[l])
    {
      StepGrows(c, run[k], run[l]);
    }
    forall d: Disk, e: Disk, f: Disk | Grows(d, e) && Grows(e, f)
      ensures Grows(d, f)
    {
      GrowsIsTransitive(d, e, f);
    }
    Chain(run, (d, e) => Grows(d, e), i, j);
  }

  // ---------- the program ----------

  datatype Point =
    | BeforeAttemptCommit | AfterAttemptCommit | AfterStartProjection
    | AfterWorkBeforeObservation | AfterObservationCommit
    | AfterArtifactTempFsync | AfterArtifactLinkBeforeDirFsync | AfterArtifactPublication
    | InsideCompletionTransaction | AfterCompletionCommit
    | DuringAppendPrefix | AfterAppendBeforeFsync | AfterFsyncBeforeAck
    | InsideAckTransaction | AfterAckBeforeReply | Clean

  /** A call returns, refuses with an exception, fails in a system call, or the process exits. */
  datatype Outcome<+T> = Done(value: T) | Refused | Failed | Crashed

  datatype Receipt = Receipt(oldAck: nat, newAck: nat, tailCompleted: nat, appended: nat)

  function FindRow(rows: seq<Row>, key: string): Option<Row> {
    if rows == [] then None else if rows[0].key == key then Some(rows[0]) else FindRow(rows[1..], key)
  }

  lemma {:induction false} FindRowFinds(rows: seq<Row>, key: string)
    ensures var r := FindRow(rows, key);
            if r.Some? then r.value in rows && r.value.key == key else forall row <- rows :: row.key != key
  {
    if rows == [] {
    } else {
      FindRowFinds(rows[1..], key);
    }
  }

  function MaxNumber(rows: seq<Row>): nat {
    if rows == [] then 0
    else
      var last, before := rows[|rows| - 1].number, MaxNumber(rows[..|rows| - 1]);
      if before < last then last else before
  }

  lemma {:induction false} NumbersCount(rows: seq<Row>)
    requires forall i | 0 <= i < |rows| :: rows[i].number == i + 1
    ensures MaxNumber(rows) == |rows|
  {
    if rows == [] {
    } else {
      NumbersCount(rows[..|rows| - 1]);
    }
  }

  /** The event table after recording `p`: unchanged on an exact repeat, `None` on a conflicting one. */
  function Record(c: Codec, rows: seq<Row>, p: Payload): Option<seq<Row>> {
    var prior := FindRow(rows, KeyFor(p));
    if prior.None? then
      var number := MaxNumber(rows) + 1;
      Some(rows + [Row(number, KeyFor(p), Body(c, number, p))])
    else if prior.value.body == Body(c, prior.value.number, p) then Some(rows)
    else None
  }

  lemma KeyIdentifiesRow(d: Disk, r: Row, s: Row)
    requires KeysDistinct(d.rows) && r in d.rows && s in d.rows && r.key == s.key
    ensures r == s
  {
    var i :| 0 <= i < |d.rows| && d.rows[i] == r;
    var j :| 0 <= j < |d.rows| && d.rows[j] == s;
    assert !(i < j) && !(j < i);
  }

  lemma OnlyRow(c: Codec, d: Disk, p: Payload, row: Row)
    requires Lawful(c) && RowsOk(c, d.rows) && KeysDistinct(d.rows) && row in d.rows && row.key == KeyFor(p)
    ensures row.body == Body(c, row.number, p) <==> c.decode(row.body) == p
    ensures forall r <- d.rows :: r.key == KeyFor(p) ==> r == row
  {
    forall r <- d.rows | r.key == KeyFor(p)
      ensures r == row
    {
      KeyIdentifiesRow(d, r, row);
    }
    var i :| 0 <= i < |d.rows| && d.rows[i] == row;
    BodyIsLine(c, i + 1, p);
  }

  /** Recording an event on a table that satisfies the invariant. */
  lemma RecordMeaning(c: Codec, d: Disk, p: Payload)
    requires Lawful(c) && Inv(c, d)
    ensures var r := Record(c, d.rows, p);
            && (r.None? <==> exists row <- d.rows :: row.key == KeyFor(p) && c.decode(row.body) != p)
            && (r.Some? && r.value == d.rows <==>
               exists row <- d.rows :: row.key == KeyFor(p) && c.decode(row.body) == p)
            && (r.Some? && r.value != d.rows ==>
                  && r.value == d.rows + [Row(|d.rows| + 1, KeyFor(p), Body(c, |d.rows| + 1, p))]
                  && forall row <- d.rows :: row.key != KeyFor(p))
  {
    FindRowFinds(d.rows, KeyFor(p));
    NumbersCount(d.rows);
    var prior := FindRow(d.rows, KeyFor(p));
    if prior.Some? {
      OnlyRow(c, d, p, prior.value);
    }
  }

  predicate Gapless(rows: seq<Row>) {
    forall i | 0 <= i < |rows| :: rows[i].number == i + 1
  }

  /** The decision a completion records: that of its earlier event, if any, unless the digests differ. */
  function DecisionOf(
    c: Codec, rows: seq<Row>, chosen: Option<Choice>, attempt: string, digest: string): Option<Decision> {
    var decision := DecisionFor(chosen, digest);
    var prior := FindRow(rows, KeyFor(Completed(attempt, digest, decision)));
    if prior.None? then Some(decision)
    else
      match c.decode(prior.value.body)
      case Completed(_, reported, made) => if reported == digest then Some(made) else None
      case _ => None
  }

  /** The disk once the transaction of `start` commits. */
  function AfterRegistration(c: Codec, d: Disk, attempt: string): Disk
    requires Record(c, d.rows, Started(attempt)).Some?
  {
    d.(rows := Record(c, d.rows, Started(attempt)).value,
       job := if d.job.Some? then d.job else Some(None), attempts := d.attempts + {attempt})
  }

  /** The disk once the transaction of a completion commits. */
  function AfterDecision(c: Codec, d: Disk, attempt: string, digest: string, decision: Decision): Disk
    requires d.job.Some? && Record(c, d.rows, Completed(attempt, digest, decision)).Some?
  {
    d.(rows := Record(c, d.rows, Completed(attempt, digest, decision)).value,
       job := Some(if d.job.value.None? then Some(Choice(digest, attempt)) else d.job.value))
  }

  class Probe {
    const c: Codec
    /** The database and the files. */
    var disk: Disk
    /** The connection is inside a transaction that an exception left open. */
    var inTransaction: bool
    var alive: bool
    ghost var run: seq<Disk>

    /** The disk got here by a run from the initial state. */
    ghost predicate Running()
      reads this
    {
      IsRun(c, run) && run[|run| - 1] == disk
    }

    constructor (codec: Codec)
      ensures Running() && disk == EMPTY && c == codec && alive && !inTransaction
    {
      c, disk, inTransaction, alive := codec, EMPTY, false, true;
      run := [EMPTY];
    }

    /** One durable effect; `tracked` says that it continues a run. */
    method Apply(next: Disk, ghost tracked: bool := true)
      requires tracked ==> Running() && Step(c, disk, next)
      modifies this`disk, this`run
      ensures disk == next
      ensures tracked ==> Running()
    {
      disk, run := next, run + [next];
    }

    /** A new process opens the database; after a power failure the log keeps at least its synced prefix. */
    method Restart(keep: nat)
      requires Running() && disk.synced <= keep <= |disk.log|
      modifies this
      ensures Running() && alive && !inTransaction
      ensures disk == old(disk).(log := old(disk.log)[..keep])
    {
      assert Loses(disk, disk.(log := disk.log[..keep]));
      Apply(disk.(log := disk.log[..keep]));
      inTransaction, alive := false, true;
    }

    method Exit(selected: Point, point: Point) returns (dead: bool)
      modifies this`alive
      ensures dead <==> selected == point
      ensures alive == (old(alive) && !dead)
    {
      dead := selected == point;
      if dead {
        alive := false;
      }
    }

    /** Appends `data` in as many writes as the kernel takes; the process may be killed between two of them. */
    method WriteAll(data: Bytes, ghost tracked: bool) returns (o: Outcome<()>)
      requires tracked ==> Running() && disk.log + data <= Concat(Bodies(disk.rows))
      modifies this`disk, this`run, this`alive
      ensures tracked ==> Running()
      ensures disk == old(disk).(log := disk.log)
      ensures !o.Refused? && old(disk.log) <= disk.log <= old(disk.log) + data
      ensures o.Done? ==> disk.log == old(disk.log) + data
      ensures alive == (old(alive) && !o.Crashed?)
    {
      var rest := data;
      while rest != []
        invariant tracked ==> Running()
        invariant disk == old(disk).(log := disk.log) && alive == old(alive)
        invariant disk.log + rest == old(disk.log) + data && old(disk.log) <= disk.log
        invariant tracked ==> disk.log + rest <= Concat(Bodies(disk.rows))
        decreases |rest|
      {
        if * {
          alive := false;
          return Crashed;
        }
        var count: int :| count <= |rest|;
        if count <= 0 {
          return Failed;
        }
        var part := rest[..count];
        rest := rest[count..];
        assert disk.log + part + rest == old(disk.log) + data;
        assert disk.log + part <= disk.log + part + rest;
        assert tracked ==> Writes(disk, disk.(log := disk.log + part));
        Apply(disk.(log := disk.log + part), tracked);
      }
      return Done(());
    }

    /** The checks of a projection: what is missing from the log, or `None` to refuse it. */
    method CheckLog(expected: seq<Bytes>) returns (plan: Option<Plan>)
      requires forall l <- expected :: IsLine(l)
      ensures plan.None? <==> !(disk.ack <= |expected| && Concat(expected[..disk.ack]) <= disk.log <= Concat(expected))
      ensures plan.Some? ==> disk.log + plan.value.suffix == Concat(expected)
      ensures plan.Some? && plan.value.suffix != [] ==> plan.value.first != [] && plan.value.first <= plan.value.suffix
    {
      var pieces := Split(disk.log);
      var complete, tail := pieces.complete, pieces.tail;
      ConsistentIsPrefix(expected, disk.ack, disk.log);
      if disk.ack > |complete| || disk.ack > |expected| {
        return None;
      }
      if |complete| > |expected| || complete != expected[..|complete|] {
        return None;
      }
      if tail != [] && (|complete| == |expected| || !StartsWith(expected[|complete|], tail)) {
        return None;
      }
      SplitRejoins(disk.log);
      SuffixCompletes(expected, |complete|, tail);
      var suffix := Concat(expected[|complete|..])[|tail|..];
      var first := if suffix == [] then [] else expected[|complete|][|tail|..];
      return Some(Plan(|tail|, first, suffix));
    }

    /** What follows the append: flush, then acknowledge in the open transaction. */
    method Acknowledge(selected: Point, expected: seq<Bytes>, ghost tracked: bool) returns (o: Outcome<()>)
      requires tracked ==> Running()
      requires alive && expected == Bodies(disk.rows) && disk.log == Concat(expected)
      modifies this`disk, this`alive, this`run
      ensures tracked ==> Running()
      ensures alive <==> !o.Crashed?
      ensures o.Done? || o.Crashed?
      ensures disk == old(disk).(synced := disk.synced, ack := disk.ack)
      ensures disk.ack == old(disk.ack) || (disk.ack == |disk.rows| && disk.synced == |disk.log|)
      ensures o.Done? ==> disk.ack == |disk.rows| && disk.synced == |disk.log|
    {
      var dead := Exit(selected, AfterAppendBeforeFsync);
      if dead {
        return Crashed;
      }
      assert Syncs(disk, disk.(synced := |disk.log|));
      Apply(disk.(synced := |disk.log|), tracked);
      dead := Exit(selected, AfterFsyncBeforeAck);
      if dead {
        return Crashed;
      }
      o := Advance(selected, expected, tracked);
    }

    /** The acknowledgement of a synced log. */
    method Advance(selected: Point, expected: seq<Bytes>, ghost tracked: bool) returns (o: Outcome<()>)
      requires tracked ==> Running()
      requires alive && expected == Bodies(disk.rows) && disk.log == Concat(expected) && disk.synced == |disk.log|
      modifies this`disk, this`alive, this`run
      ensures tracked ==> Running()
      ensures alive <==> !o.Crashed?
      ensures o.Done? || o.Crashed?
      ensures disk == old(disk) || disk == old(disk).(ack := |disk.rows|)
      ensures o.Done? ==> disk.ack == |disk.rows|
    {
      var dead := Exit(selected, InsideAckTransaction);
      if dead {
        return Crashed;
      }
      assert Acknowledges(disk, disk.(ack := |expected|));
      Apply(disk.(ack := |expected|), tracked);
      dead := Exit(selected, AfterAckBeforeReply);
      return if dead then Crashed else Done(());
    }

    /**
     Projects the committed events onto the log.  It refuses exactly the logs that are not a
     byte prefix of the events containing all acknowledged ones, and then changes nothing.
     */
    method Project(selected: Point) returns (o: Outcome<Receipt>)
      requires alive && forall l <- Bodies(disk.rows) :: IsLine(l)
      modifies this
      ensures old(Running()) ==> Running()
      ensures disk == old(disk).(log := disk.log, synced := disk.synced, ack := disk.ack)
      ensures inTransaction == old(inTransaction)
      ensures alive <==> !o.Crashed?
      ensures o.Refused? <==> old(inTransaction) || !Accepted(old(disk))
      ensures o.Refused? ==> disk == old(disk)
      ensures !o.Refused? ==> old(disk.log) <= disk.log <= Concat(Bodies(disk.rows))
      ensures !o.Refused? ==>
                || disk.ack == old(disk.ack)
                || (disk.ack == |disk.rows| && disk.log == Concat(Bodies(disk.rows)) && disk.synced == |disk.log|)
      ensures o.Done? ==> disk.ack == |disk.rows| && disk.log == Concat(Bodies(disk.rows)) && disk.synced == |disk.log|
      ensures o.Done? ==>
                && o.value.oldAck == old(disk.ack) && o.value.newAck == |disk.rows|
                && |disk.log| == |old(disk.log)| + o.value.appended
      ensures Lawful(c) && old(Running()) && !old(inTransaction) ==> !o.Refused?
    {
      if inTransaction {
        return Refused;
      }
      if Lawful(c) && Running() {
        RunIsAccepted(c, run);
      }
      if !Gapless(disk.rows) {
        return Refused;
      }
      var expected := Bodies(disk.rows);
      var plan := CheckLog(expected);
      if plan.None? {
        return Refused;
      }
      ghost var tracked := Running();
      var oldAck := disk.ack;
      var written := Append(selected, plan.value, tracked);
      if !written.Done? {
        return if written.Failed? then Failed else Crashed;
      }
      var done := Acknowledge(selected, expected, tracked);
      return if done.Done? then Done(Receipt(oldAck, |expected|, plan.value.tail, |plan.value.suffix|)) else Crashed;
    }

    /** Appends the missing suffix; at its crash point, half of the first missing line. */
    method Append(selected: Point, plan: Plan, ghost tracked: bool) returns (o: Outcome<()>)
      requires alive
      requires tracked ==> Running() && disk.log + plan.suffix == Concat(Bodies(disk.rows))
      requires plan.suffix != [] ==> plan.first != [] && plan.first <= plan.suffix
      modifies this`disk, this`run, this`alive
      ensures tracked ==> Running()
      ensures disk == old(disk).(log := disk.log)
      ensures !o.Refused? && old(disk.log) <= disk.log <= old(disk.log) + plan.suffix
      ensures o.Done? ==> disk.log == old(disk.log) + plan.suffix
      ensures alive <==> !o.Crashed?
    {
      if selected == DuringAppendPrefix && plan.suffix != [] {
        var half := plan.first[..if |plan.first| / 2 < 1 then 1 else |plan.first| / 2];
        assert half <= plan.suffix && disk.log + half <= disk.log + plan.suffix;
        o := WriteAll(half, tracked);
        if o.Done? {
          alive := false;
        }
        return if o.Failed? then Failed else Crashed;
      }
      o := WriteAll(plan.suffix, tracked);
    }

    /**
     What recovery after an exit does and checks: the first projection leaves the log equal to the
     committed events, the second appends nothing, and neither touches events, job or objects.
     */
    method Recover() returns (first: Outcome<Receipt>, again: Outcome<Receipt>)
      requires Lawful(c) && Running() && alive && !inTransaction
      modifies this
      ensures Running()
      ensures disk == old(disk).(log := disk.log, synced := disk.synced, ack := disk.ack)
      ensures !first.Refused? && !again.Refused?
      ensures first.Done? && again.Done? ==>
                && disk.log == Concat(Bodies(disk.rows)) && disk.ack == |disk.rows| && disk.synced == |disk.log|
                && again.value.appended == 0 && again.value.oldAck == first.value.newAck == |disk.rows|
    {
      RunKeepsInv(c, run, |run| - 1);
      RowsAreLines(c, disk);
      first := Project(Clean);
      if !first.Done? {
        return first, Failed;
      }
      again := Project(Clean);
    }

    /** Commits a transaction, with a crash point before and after: either all of it is durable or nothing. */
    method CommitTo(next: Disk, selected: Point, before: Point, after: Point) returns (dead: bool)
      requires Running() && alive && Step(c, disk, next)
      modifies this`disk, this`run, this`alive
      ensures Running() && (alive <==> !dead)
      ensures disk == if selected == before then old(disk) else next
      ensures dead <==> selected == before || selected == after
    {
      dead := Exit(selected, before);
      if dead {
        return;
      }
      Apply(next);
      dead := Exit(selected, after);
    }

    /** The transaction of `start`: it refuses a reused attempt name, and the transaction then stays open. */
    method Register(attempt: string, selected: Point) returns (o: Outcome<()>)
      requires Lawful(c) && Running() && alive && !inTransaction
      modifies this`disk, this`run, this`alive, this`inTransaction
      ensures Running() && (alive <==> !o.Crashed?)
      ensures !o.Failed? && (o.Refused? <==> attempt in old(disk.attempts))
      ensures o.Refused? ==> disk == old(disk) && inTransaction
      ensures !o.Refused? ==> !inTransaction
      ensures disk == old(disk) || Registers(c, old(disk), disk, attempt)
      ensures o.Done? ==> Registers(c, old(disk), disk, attempt)
    {
      var table := Record(c, disk.rows, Started(attempt));
      StartNeverConflicts(c, run, disk, attempt);
      if attempt in disk.attempts || table.None? {
        inTransaction := true;
        return Refused;
      }
      RegisterFromRun(c, run, disk, attempt);
      var dead := CommitTo(AfterRegistration(c, disk, attempt), selected, BeforeAttemptCommit, AfterAttemptCommit);
      return if dead then Crashed else Done(());
    }

    /** Registers an attempt and projects its event. */
    method Start(attempt: string, selected: Point) returns (o: Outcome<()>)
      requires Lawful(c) && Running() && alive
      modifies this
      ensures Running() && (alive <==> !o.Crashed?)
      ensures o.Refused? <==> old(inTransaction) || attempt in old(disk.attempts)
      ensures o.Refused? ==> disk == old(disk)
      ensures o.Done? ==> attempt in disk.attempts && disk.log == Concat(Bodies(disk.rows)) && disk.ack == |disk.rows|
      ensures var d := disk.(log := old(disk.log), synced := old(disk.synced), ack := old(disk.ack));
              d == old(disk) || Registers(c, old(disk), d, attempt)
    {
      if inTransaction {
        return Refused;
      }
      o := Register(attempt, selected);
      if !o.Done? {
        return;
      }
      RunIsAccepted(c, run);
      var projected := Project(Clean);
      if !projected.Done? {
        return if projected.Failed? then Failed else Crashed;
      }
      var dead := Exit(selected, AfterStartProjection);
      return if dead then Crashed else Done(());
    }

    /** Records what an attempt measured.  Different measurements under one attempt are refused. */
    method ObserveWork(attempt: string, measured: string, selected: Point) returns (o: Outcome<()>)
      requires Lawful(c) && Running() && alive
      modifies this
      ensures Running() && (alive <==> !o.Crashed?)
      ensures o.Refused? ==> disk == old(disk)
      ensures !o.Crashed? ==>
              (o.Refused? <==> old(inTransaction) || Contradicts(c, old(disk), Observed(attempt, measured)))
      ensures !o.Refused? ==> disk == old(disk) || Appends(c, old(disk), disk, Observed(attempt, measured))
      ensures o.Done? ==> Reports(c, disk, Observed(attempt, measured))
    {
      var dead := Exit(selected, AfterWorkBeforeObservation);
      if dead {
        return Crashed;
      }
      if inTransaction {
        return Refused;
      }
      var recorded := RecordObservation(Observed(attempt, measured));
      if !recorded {
        return Refused;
      }
      dead := Exit(selected, AfterObservationCommit);
      return if dead then Crashed else Done(());
    }

    /** The transaction of an observation, which stays open if it is refused. */
    method RecordObservation(p: Payload) returns (recorded: bool)
      requires Lawful(c) && Running() && p.Observed?
      modifies this`disk, this`run, this`inTransaction
      ensures Running()
      ensures recorded <==> !Contradicts(c, old(disk), p)
      ensures !recorded ==> disk == old(disk) && inTransaction
      ensures recorded ==> inTransaction == old(inTransaction) && Reports(c, disk, p)
      ensures disk == old(disk) || Appends(c, old(disk), disk, p)
    {
      var table := Record(c, disk.rows, p);
      RefusedFromRun(c, run, disk, p);
      if table.None? {
        inTransaction := true;
        return false;
      }
      RecordFromRun(c, run, disk, p);
      Apply(disk.(rows := table.value));
      return true;
    }

    /** The transaction of `complete`, once the object has been checked. */
    method Decide(attempt: string, digest: string, selected: Point) returns (o: Outcome<Decision>)
      requires Lawful(c) && Running() && alive && !inTransaction && digest in disk.objects
      modifies this`disk, this`run, this`alive, this`inTransaction
      ensures Running() && (alive <==> !o.Crashed?) && !o.Failed?
      ensures o.Refused? ==> disk == old(disk) && inTransaction
      ensures !o.Refused? ==> !inTransaction
      ensures o.Refused? <==> old(disk).job.None? || Disputes(c, old(disk), attempt, digest)
      ensures disk == old(disk) || Decides(c, old(disk), disk, attempt, digest)
      ensures o.Done? ==>
              Decides(c, old(disk), disk, attempt, digest) && Reports(c, disk, Completed(attempt, digest, o.value))
    {
      if disk.job.None? {
        inTransaction := true;
        return Refused;
      }
      var decision := DecisionOf(c, disk.rows, disk.job.value, attempt, digest);
      DecideFromRun(c, run, disk, attempt, digest);
      if decision.None? {
        inTransaction := true;
        return Refused;
      }
      var next := AfterDecision(c, disk, attempt, digest, decision.value);
      var dead := CommitTo(next, selected, InsideCompletionTransaction, AfterCompletionCommit);
      return if dead then Crashed else Done(decision.value);
    }

    /**
     Completes an attempt.  The first completion of the job is selected; later ones are judged
     against it; repeating one changes nothing; reporting another digest under it is refused.
     */
    method Complete(attempt: string, digest: string, selected: Point) returns (o: Outcome<Decision>)
      requires Lawful(c) && Running() && alive
      modifies this
      ensures Running() && (alive <==> !o.Crashed?) && !o.Failed?
      ensures o.Refused? ==> disk == old(disk)
      ensures o.Refused? <==>
                (digest !in old(disk).objects || old(inTransaction) || old(disk).job.None?
                  || Disputes(c, old(disk), attempt, digest))
      ensures disk == old(disk) || Decides(c, old(disk), disk, attempt, digest)
      ensures o.Done? ==>
              Decides(c, old(disk), disk, attempt, digest) && Reports(c, disk, Completed(attempt, digest, o.value))
    {
      RunKeepsInv(c, run, |run| - 1);
      if digest !in disk.objects {
        return Refused;
      }
      assert c.digest(disk.objects[digest]) == digest;
      if inTransaction {
        return Refused;
      }
      o := Decide(attempt, digest, selected);
    }

    /** Links the synced temporary file under its digest, unless that name is taken by the same bytes. */
    method Link(data: Bytes) returns (name: string)
      requires Lawful(c) && Running()
      modifies this`disk, this`run
      ensures Running() && name == c.digest(data)
      ensures disk == old(disk).(objects := old(disk).objects[name := data])
      ensures name in old(disk).objects ==> old(disk).objects[name] == data
    {
      name := c.digest(data);
      ObjectBytes(c, run, disk, data);
      if name !in disk.objects {
        var next := disk.(objects := disk.objects[name := data]);
        assert Publishes(c, disk, next);
        Apply(next);
      } else {
        assert disk.objects[name := data] == disk.objects;
      }
    }

    method SetPending(pending: map<string, Bytes>)
      requires Running()
      modifies this`disk, this`run
      ensures Running() && disk == old(disk).(pending := pending)
    {
      assert Publishes(c, disk, disk.(pending := pending));
      Apply(disk.(pending := pending));
    }

    /** Only the temporary file of the attempt differs, and it holds this. */
    ghost predicate OnlyPending(before: Disk, attempt: string, written: Bytes)
      reads this`disk
    {
      && disk == before.(pending := disk.pending)
      && attempt in disk.pending && disk.pending[attempt] == written
      && disk.pending - {attempt} == before.pending - {attempt}
    }

    /** Creates and writes the attempt's temporary file; it holds a prefix when writing it ends early. */
    method WritePending(attempt: string, data: Bytes) returns (o: Outcome<()>)
      requires Running() && alive
      modifies this`disk, this`run, this`alive
      ensures Running() && (alive <==> !o.Crashed?) && !o.Refused?
      ensures attempt in disk.pending && disk.pending[attempt] <= data
      ensures OnlyPending(old(disk), attempt, disk.pending[attempt])
      ensures o.Done? ==> disk.pending[attempt] == data
    {
      SetPending(disk.pending[attempt := []]);
      ghost var written: Bytes := [];
      var rest := data;
      while rest != []
        invariant Running() && alive && written + rest == data && OnlyPending(old(disk), attempt, written)
        decreases |rest|
      {
        if * {
          alive := false;
          return Crashed;
        }
        var count: int :| count <= |rest|;
        if count <= 0 {
          return Failed;
        }
        var part := rest[..count];
        rest := rest[count..];
        assert written + part + rest == data;
        written := written + part;
        SetPending(disk.pending[attempt := disk.pending[attempt] + part]);
      }
      return Done(());
    }

    /**
     Publishes an object: a synced temporary file is linked under its digest, then removed.  A write that
     makes no progress leaves the temporary file behind, and nothing is published.
     */
    method Publish(attempt: string, data: Bytes, selected: Point) returns (o: Outcome<string>)
      requires Lawful(c) && Running() && alive
      modifies this`disk, this`run, this`alive
      ensures Running() && (alive <==> !o.Crashed?)
      ensures o.Refused? <==> attempt in old(disk).pending
      ensures o.Refused? ==> disk == old(disk)
      ensures o.Failed? ==> attempt in disk.pending && OnlyPending(old(disk), attempt, disk.pending[attempt])
      ensures disk == old(disk).(pending := disk.pending, objects := disk.objects)
      ensures disk.objects == old(disk).objects || disk.objects == old(disk).objects[c.digest(data) := data]
      ensures o.Done? ==> o.value == c.digest(data) && o.value in disk.objects && disk.objects[o.value] == data
      ensures o.Done? ==> disk.pending == old(disk).pending - {attempt}
    {
      if attempt in disk.pending {
        return Refused;
      }
      var written := WritePending(attempt, data);
      match written
      case Done(_) =>
        o := Finish(attempt, data, selected);
      case Failed =>
        return Failed;
      case Crashed =>
        return Crashed;
      case Refused =>
        assert false;
    }

    /** Publishing once the temporary file is complete. */
    method Finish(attempt: string, data: Bytes, selected: Point) returns (o: Outcome<string>)
      requires Lawful(c) && Running() && alive
      modifies this`disk, this`run, this`alive
      ensures Running() && (alive <==> o.Done?) && (o.Done? || o.Crashed?)
      ensures disk == old(disk).(pending := disk.pending, objects := disk.objects)
      ensures disk.objects == old(disk).objects || disk.objects == old(disk).objects[c.digest(data) := data]
      ensures o.Done? ==> o.value == c.digest(data) && disk.objects == old(disk).objects[o.value := data]
      ensures o.Done? ==> disk.pending == old(disk).pending - {attempt}
    {
      var dead := Exit(selected, AfterArtifactTempFsync);
      if dead {
        return Crashed;
      }
      var name := Link(data);
      dead := Exit(selected, AfterArtifactLinkBeforeDirFsync);
      if dead {
        return Crashed;
      }
      SetPending(disk.pending - {attempt});
      dead := Exit(selected, AfterArtifactPublication);
      return if dead then Crashed else Done(name);
    }
  }

  /** An object that is already published under the digest of `data` holds `data`. */
  lemma ObjectBytes(c: Codec, run: seq<Disk>, d: Disk, data: Bytes)
    requires Lawful(c) && IsRun(c, run) && d == run[|run| - 1]
    ensures c.digest(data) in d.objects ==> d.objects[c.digest(data)] == data
  {
    RunKeepsInv(c, run, |run| - 1);
    if c.digest(data) in d.objects {
      assert c.digest(d.objects[c.digest(data)]) == c.digest(data);
    }
  }

  /** The effect of registering an attempt. */
  ghost predicate Registers(c: Codec, d: Disk, d': Disk, attempt: string) {
    && d'.attempts == d.attempts + {attempt} && d'.job.Some? && Chosen(d') == Chosen(d)
    && (Appends(c, d, d', Started(attempt)) || d'.rows == d.rows)
    && d' == d.(rows := d'.rows, job := d'.job, attempts := d'.attempts)
  }

  /** `r` is the completion event of `attempt`. */
  ghost predicate Completes(c: Codec, r: Row, attempt: string) {
    c.decode(r.body).Completed? && c.decode(r.body).attempt == attempt
  }

  /** Some event of the table reports exactly `p`. */
  ghost predicate Reports(c: Codec, d: Disk, p: Payload) {
    exists r <- d.rows :: c.decode(r.body) == p
  }

  /** The attempt has completed before, with another digest. */
  ghost predicate Disputes(c: Codec, d: Disk, attempt: string, digest: string) {
    exists r <- d.rows :: Completes(c, r, attempt) && c.decode(r.body).digest != digest
  }

  /** The effect of completing: nothing on a repeat, else one event and, if it is the first, the choice. */
  ghost predicate Decides(c: Codec, d: Disk, d': Disk, attempt: string, digest: string) {
    if exists r <- d.rows :: Completes(c, r, attempt) then d' == d
    else
      && Appends(c, d, d', Completed(attempt, digest, DecisionFor(Chosen(d), digest)))
      && d' == d.(rows := d'.rows, job := d'.job)
  }

  /** Recording `p` and nothing else is a step, after which an event reports it. */
  lemma RecordStep(c: Codec, d: Disk, p: Payload)
    requires Lawful(c) && Inv(c, d) && Record(c, d.rows, p).Some? && !p.Completed?
    ensures var d' := d.(rows := Record(c, d.rows, p).value);
            && Step(c, d, d') && Reports(c, d', p)
            && (d' == d || Appends(c, d, d', p))
  {
    RecordMeaning(c, d, p);
    var d' := d.(rows := Record(c, d.rows, p).value);
    if d'.rows != d.rows {
      assert Appends(c, d, d', p);
      AppendedReports(c, d, d', p);
    }
  }

  lemma AppendedReports(c: Codec, d: Disk, d': Disk, p: Payload)
    requires Lawful(c) && Appends(c, d, d', p)
    ensures Reports(c, d', p)
  {
    BodyIsLine(c, |d.rows| + 1, p);
    assert d'.rows[|d.rows|] in d'.rows;
  }

  /** Another payload is recorded under the key of `p`. */
  ghost predicate Contradicts(c: Codec, d: Disk, p: Payload) {
    exists r <- d.rows :: r.key == KeyFor(p) && c.decode(r.body) != p
  }

  lemma RefusedFromRun(c: Codec, run: seq<Disk>, d: Disk, p: Payload)
    requires Lawful(c) && IsRun(c, run) && d == run[|run| - 1]
    ensures Record(c, d.rows, p).None? <==> Contradicts(c, d, p)
  {
    RunKeepsInv(c, run, |run| - 1);
    RecordMeaning(c, d, p);
  }

  /** A start event says nothing but its attempt, so it never contradicts an earlier one. */
  lemma StartNeverConflicts(c: Codec, run: seq<Disk>, d: Disk, attempt: string)
    requires Lawful(c) && IsRun(c, run) && d == run[|run| - 1]
    ensures Record(c, d.rows, Started(attempt)).Some?
  {
    RunKeepsInv(c, run, |run| - 1);
    RefusedFromRun(c, run, d, Started(attempt));
    forall r <- d.rows | r.key == KeyFor(Started(attempt))
      ensures c.decode(r.body) == Started(attempt)
    {
      var i :| 0 <= i < |d.rows| && d.rows[i] == r;
      KeysIdentify(c.decode(r.body), Started(attempt));
    }
  }

  lemma RecordFromRun(c: Codec, run: seq<Disk>, d: Disk, p: Payload)
    requires Lawful(c) && IsRun(c, run) && d == run[|run| - 1]
    requires Record(c, d.rows, p).Some? && !p.Completed?
    ensures var d' := d.(rows := Record(c, d.rows, p).value);
            && Step(c, d, d') && Reports(c, d', p)
            && (d' == d || Appends(c, d, d', p))
  {
    RunKeepsInv(c, run, |run| - 1);
    RecordStep(c, d, p);
  }

  lemma RegisterFromRun(c: Codec, run: seq<Disk>, d: Disk, attempt: string)
    requires Lawful(c) && IsRun(c, run) && d == run[|run| - 1]
    requires Record(c, d.rows, Started(attempt)).Some?
    ensures var d' := AfterRegistration(c, d, attempt);
            Step(c, d, d') && Registers(c, d, d', attempt)
  {
    RunKeepsInv(c, run, |run| - 1);
    RecordMeaning(c, d, Started(attempt));
    var d' := AfterRegistration(c, d, attempt);
    assert d'.rows != d.rows ==> Appends(c, d, d', Started(attempt));
  }

  /** When a completion is decided: exactly when the attempt has not reported another digest. */
  lemma DecisionMeaning(c: Codec, d: Disk, attempt: string, digest: string)
    requires Lawful(c) && Inv(c, d) && d.job.Some?
    ensures var r := DecisionOf(c, d.rows, d.job.value, attempt, digest);
            && (r.None? <==> Disputes(c, d, attempt, digest))
            && (r.Some? ==>
                  if exists row <- d.rows :: Completes(c, row, attempt)
                  then Reports(c, d, Completed(attempt, digest, r.value))
                  else r.value == DecisionFor(Chosen(d), digest))
  {
    CompletionRow(c, d, attempt, digest, DecisionFor(d.job.value, digest));
  }

  lemma RepeatStep(c: Codec, d: Disk, p: Payload)
    requires Lawful(c) && Inv(c, d) && d.job.Some? && p.Completed?
    requires Reports(c, d, p)
    ensures Record(c, d.rows, p) == Some(d.rows)
    ensures AfterDecision(c, d, p.attempt, p.digest, p.decision) == d
  {
    RecordMeaning(c, d, p);
    var r :| r in d.rows && c.decode(r.body) == p;
    var i :| 0 <= i < |d.rows| && d.rows[i] == r;
    assert r.key == KeyFor(p);
  }

  lemma FirstStep(c: Codec, d: Disk, p: Payload)
    requires Lawful(c) && Inv(c, d) && d.job.Some? && p.Completed? && p.digest in d.objects
    requires forall r <- d.rows :: r.key != KeyFor(p)
    requires p.decision == DecisionFor(Chosen(d), p.digest)
    ensures Record(c, d.rows, p).Some?
    ensures var d' := AfterDecision(c, d, p.attempt, p.digest, p.decision);
            Appends(c, d, d', p) && d' == d.(rows := d'.rows, job := d'.job) && Reports(c, d', p)
  {
    FindRowFinds(d.rows, KeyFor(p));
    NumbersCount(d.rows);
    var d' := AfterDecision(c, d, p.attempt, p.digest, p.decision);
    assert Appends(c, d, d', p);
    AppendedReports(c, d, d', p);
  }

  lemma DecideStep(c: Codec, d: Disk, attempt: string, digest: string, decision: Decision)
    requires Lawful(c) && Inv(c, d) && d.job.Some? && digest in d.objects
    requires if exists r <- d.rows :: Completes(c, r, attempt)
             then Reports(c, d, Completed(attempt, digest, decision))
             else decision == DecisionFor(Chosen(d), digest)
    ensures var p := Completed(attempt, digest, decision);
            && Record(c, d.rows, p).Some?
            && var d' := AfterDecision(c, d, attempt, digest, decision);
            Step(c, d, d') && Decides(c, d, d', attempt, digest) && Reports(c, d', p)
  {
    var p := Completed(attempt, digest, decision);
    if exists r <- d.rows :: Completes(c, r, attempt) {
      RepeatStep(c, d, p);
    } else {
      CompletionRow(c, d, attempt, digest, decision);
      FindRowFinds(d.rows, KeyFor(p));
      FirstStep(c, d, p);
    }
  }

  /** What a completion does to the disk at the end of a run. */
  lemma DecideFromRun(c: Codec, run: seq<Disk>, d: Disk, attempt: string, digest: string)
    requires Lawful(c) && IsRun(c, run) && d == run[|run| - 1] && d.job.Some? && digest in d.objects
    ensures var r := DecisionOf(c, d.rows, d.job.value, attempt, digest);
            && (r.None? <==> Disputes(c, d, attempt, digest))
            && (r.Some? ==>
                  var p := Completed(attempt, digest, r.value);
                  && Record(c, d.rows, p).Some?
                  && var d' := AfterDecision(c, d, attempt, digest, r.value);
                  Step(c, d, d') && Decides(c, d, d', attempt, digest) && Reports(c, d', p))
  {
    RunKeepsInv(c, run, |run| - 1);
    DecisionMeaning(c, d, attempt, digest);
    var r := DecisionOf(c, d.rows, d.job.value, attempt, digest);
    if r.Some? {
      DecideStep(c, d, attempt, digest, r.value);
    }
  }

  /** The key of a completion finds the attempt's completion event, if it has one. */
  lemma CompletionRow(c: Codec, d: Disk, attempt: string, digest: string, decision: Decision)
    requires Lawful(c) && Inv(c, d)
    ensures var prior := FindRow(d.rows, KeyFor(Completed(attempt, digest, decision)));
            && (prior.Some? ==> prior.value in d.rows && Completes(c, prior.value, attempt) && Chosen(d).Some?)
            && forall r <- d.rows :: Completes(c, r, attempt) <==> prior == Some(r)
  {
    var p := Completed(attempt, digest, decision);
    FindRowFinds(d.rows, KeyFor(p));
    var prior := FindRow(d.rows, KeyFor(p));
    if prior.Some? {
      CompletionKey(c, d, p, prior.value);
    }
    forall r <- d.rows
      ensures Completes(c, r, attempt) <==> prior == Some(r)
    {
      CompletionKey(c, d, p, r);
      if r.key == KeyFor(p) {
        OnlyRow(c, d, p, r);
      }
    }
  }

  lemma CompletionKey(c: Codec, d: Disk, p: Payload, r: Row)
    requires RowsOk(c, d.rows) && r in d.rows && p.Completed?
    ensures r.key == KeyFor(p) <==> Completes(c, r, p.attempt)
  {
    var i :| 0 <= i < |d.rows| && d.rows[i] == r;
    if r.key == KeyFor(p) {
      KeysIdentify(c.decode(r.body), p);
    }
  }

  lemma InvIsAccepted(c: Codec, d: Disk)
    requires Lawful(c) && Inv(c, d)
    ensures Accepted(d)
  {
    RowsAreLines(c, d);
    InvIsConsistent(c, d);
    ConsistentIsPrefix(Bodies(d.rows), d.ack, d.log);
  }

  lemma RunIsAccepted(c: Codec, run: seq<Disk>)
    requires Lawful(c) && IsRun(c, run)
    ensures Accepted(run[|run| - 1])
    ensures forall l <- Bodies(run[|run| - 1].rows) :: IsLine(l)
  {
    RunKeepsInv(c, run, |run| - 1);
    InvIsAccepted(c, run[|run| - 1]);
    RowsAreLines(c, run[|run| - 1]);
  }

  datatype Plan = Plan(tail: nat, first: Bytes, suffix: Bytes)

  /** The logs a projection accepts: byte prefixes of the events that contain the acknowledged ones. */
  ghost predicate Accepted(d: Disk) {
    && Gapless(d.rows)
    && d.ack <= |d.rows| && Concat(Bodies(d.rows)[..d.ack]) <= d.log <= Concat(Bodies(d.rows))
  }

  /** What is missing after `n` complete lines and a tail of the next, and the rest of that next line. */
  lemma SuffixCompletes(expected: seq<Bytes>, n: nat, tail: Bytes)
    requires n <= |expected| && (forall l <- expected :: IsLine(l)) && NEWLINE !in tail
    requires tail != [] ==> n < |expected| && tail <= expected[n]
    ensures tail <= Concat(expected[n..])
    ensures Concat(expected[..n]) + tail + Concat(expected[n..])[|tail|..] == Concat(expected)
    ensures Concat(expected[n..])[|tail|..] != [] ==>
              n < |expected| && |tail| < |expected[n]| && expected[n][|tail|..] <= Concat(expected[n..])[|tail|..]
  {
    var rest := Concat(expected[n..]);
    if n < |expected| {
      assert expected[n..] == [expected[n]] + expected[n + 1..];
      ConcatHead(expected[n], expected[n + 1..]);
      ShorterThanLine(tail, expected[n]);
      RestOfLine(tail, expected[n], Concat(expected[n + 1..]));
    }
    ConcatPrefix(expected, n);
    Rejoin(Concat(expected[..n]), tail, rest);
  }

  lemma RestOfLine(tail: Bytes, line: Bytes, after: Bytes)
    requires tail <= line
    ensures tail <= line + after
    ensures line[|tail|..] <= (line + after)[|tail|..]
  {
    assert (line + after)[|tail|..] == line[|tail|..] + after;
  }

  lemma Rejoin(before: Bytes, tail: Bytes, rest: Bytes)
    requires tail <= rest
    ensures before + tail + rest[|tail|..] == before + rest
  {
  }
}
