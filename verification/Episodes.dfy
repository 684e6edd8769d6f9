/**
 One assigned agent episode: the loop of turns and its budgets, grading of the saved source, the
 record that every way out freezes, and its publication.
 */
module Episodes {
  import opened Text

  datatype Stop =
    | Submitted | TimeLimit | ToolLimit | TokenLimit | MalformedAction
    | InvalidTrajectory | InfrastructureFailure | CandidateFailure

  datatype Disposition = Success | Rejected | Invalid | Infrastructure | Blocked

  /** `exact` is unit temperature with full support, for which probabilities are those of the policy. */
  datatype Policy = Policy(version: string, exact: bool, needsProbabilities: bool, tokenizer: Option<string>)

  datatype Limits = Limits(toolCalls: nat, inputTokens: nat, outputTokens: nat)

  datatype Backend = Backend(maxSequence: nat, vocabulary: nat)

  datatype Trace = Trace(context: seq<nat>, sampled: seq<nat>, logprobs: seq<real>, policyVersion: string)

  /** One turn: what was read and sampled, and the trace if its probabilities are known. */
  datatype Turn = Turn(index: nat, context: seq<nat>, sampled: seq<nat>, trace: Option<Trace>)

  datatype Record = Record(policy: Policy, steps: seq<Turn>, stop: Stop, disposition: Disposition, reward: Option<int>,
                           gradingEvidence: nat, trainingEligible: bool)

  /** What every rollout record checks of itself. */
  predicate Honest(r: Record) {
    && (r.stop.InvalidTrajectory? ==> r.disposition.Invalid? && !r.trainingEligible)
    && (r.stop.InfrastructureFailure? ==> r.disposition.Infrastructure? && !r.trainingEligible)
    && (r.stop.CandidateFailure? ==> r.reward == None || r.reward == Some(0))
    && (r.reward.Some? ==>
          && (r.disposition.Success? || r.disposition.Rejected?)
          && 0 <= r.reward.value <= 1 && r.gradingEvidence > 0)
    && (r.disposition.Infrastructure? || r.disposition.Invalid? || r.disposition.Blocked? ==> r.reward.None?)
    && (r.trainingEligible ==>
          && r.reward.Some? && r.steps != [] && r.policy.tokenizer.Some?
          && forall t <- r.steps :: t.trace.Some? && t.trace.value.policyVersion == r.policy.version)
  }

  // ---------- what the services answer ----------

  datatype Finish = Ended | Length | Aborted | Unknown

  datatype Action = Unparsable | Submit | Command

  datatype Completion = Completion(
    context: seq<nat>, tokens: seq<nat>, logprobs: Option<seq<real>>, policyVersion: string,
    finish: Finish, action: Action)

  /**
   How a failed call is treated: recovered later, an invalid trajectory (any value error), an infrastructure
   failure, a publication that is left to a retry, or not caught.
   */
  datatype Failure = RecoveryRequired | InvalidOutcome | Unavailable | Deferred | Uncaught

  datatype Answer<T> = Got(value: T) | Failed(failure: Failure)

  /** An executed command; `unsound` if the worker reports an infrastructure outcome or unverified cleanup. */
  datatype Execution = Execution(unsound: bool)

  /** Everything that the services answer in one turn. */
  datatype World = World(outOfTime: bool, checks: Answer<()>, context: seq<nat>, completion: Answer<Completion>,
                         timeLeft: bool, execution: Answer<Execution>, recorded: Answer<()>)

  datatype Grade = Grade(disposition: Disposition, reward: Option<int>)

  /** What a grade receipt checks of itself. */
  predicate CoherentGrade(g: Grade) {
    && (g.reward.Some? <==> g.disposition.Success? || g.disposition.Rejected?)
    && (g.disposition.Success? ==> g.reward == Some(1)) && (g.disposition.Rejected? ==> g.reward == Some(0))
  }

  /** The checks on a completion: an aborted one is unavailable, any other defect invalidates the trajectory. */
  function Verdict(x: Completion, context: seq<nat>, policy: Policy, maxTokens: nat, vocabulary: nat): Answer<()> {
    if x.finish.Aborted? then Failed(Unavailable)
    else if x.finish.Unknown? then Failed(InvalidOutcome)
    else if x.context != context || x.policyVersion != policy.version then Failed(InvalidOutcome)
    else if x.tokens == [] || |x.tokens| > maxTokens then Failed(InvalidOutcome)
    else if exists t <- x.tokens :: t >= vocabulary then Failed(InvalidOutcome)
    else if x.logprobs.Some? && |x.logprobs.value| != |x.tokens| then Failed(InvalidOutcome)
    else if x.logprobs.Some? && exists p <- x.logprobs.value :: p > 0.0 then Failed(InvalidOutcome)
    else if policy.needsProbabilities && x.logprobs.None? then Failed(InvalidOutcome)
    else Got(())
  }

  // ---------- budgets ----------

  function ReadTokens(steps: seq<Turn>): nat {
    if steps == [] then 0 else ReadTokens(steps[..|steps| - 1]) + |steps[|steps| - 1].context|
  }

  function SampledTokens(steps: seq<Turn>): nat {
    if steps == [] then 0 else SampledTokens(steps[..|steps| - 1]) + |steps[|steps| - 1].sampled|
  }

  /** The recorded turns are numbered, keep within all budgets, and carry faithful traces. */
  ghost predicate WithinBudgets(steps: seq<Turn>, policy: Policy, limits: Limits, backend: Backend) {
    && |steps| <= limits.toolCalls
    && ReadTokens(steps) <= limits.inputTokens && SampledTokens(steps) <= limits.outputTokens
    && forall i | 0 <= i < |steps| ::
         && steps[i].index == i && steps[i].sampled != []
         && |steps[i].context| + |steps[i].sampled| <= backend.maxSequence
         && (steps[i].trace.Some? ==>
               var t := steps[i].trace.value;
               && t.context == steps[i].context && t.sampled == steps[i].sampled && t.policyVersion == policy.version
               && |t.logprobs| == |t.sampled| && forall p <- t.logprobs :: p <= 0.0)
  }

  datatype Progress = Goes | Ends | Fails(failure: Failure)

  /** What the services answer before and after the turns, up to the closed workspace. */
  datatype Workspace = Workspace(admission: Answer<()>, closing: Answer<()>, cleaned: bool)

  /**
   What the services answer in one pass over the saved source: the task is still released, the submission
   is published, it is graded, and the outcome is put together, made durable and completed.
   */
  datatype Services = Services(released: Answer<()>, submission: Answer<()>, grades: nat -> Answer<Grade>,
                               freezing: Answer<()>, durable: Answer<()>, finishing: Answer<()>)

  ghost predicate CoherentGrades(services: Services) {
    forall i :: services.grades(i).Got? ==> CoherentGrade(services.grades(i).value)
  }

  datatype Job = Queued | Running | Completed(record: Record)

  /** How far a pass over the saved source got. */
  datatype Continuation = Continuation(submitted: bool, gradeIndex: nat)

  /** What is retained for a retry: a submission or a grade to publish, or the record to freeze or to publish. */
  datatype Pending =
    | SubmissionPending(rest: Continuation)
    | GradePending(rest: Continuation)
    | FreezePending(record: Record)
    | PublicationFailed(record: Record)

  datatype Result = Published(record: Record) | Retained(pending: Pending) | MustRecover | Raised(failure: Failure)

  /** A pass over the saved source ends with a grade, or waits for a publication, or breaks off. */
  datatype Pass = Graded(grade: Grade) | Waits(pending: Pending) | Breaks(failure: Failure)

  class AgentRunner {
    const policy: Policy
    const limits: Limits
    const backend: Backend
    var job: Job
    /** The durable frozen outcome. */
    var frozen: Option<Record>
    /** How often the policy was sampled. */
    var generations: nat
    var tools: nat
    var usedIn: nat
    var usedOut: nat
    var steps: seq<Turn>
    var stop: Stop

    constructor (policy: Policy, limits: Limits, backend: Backend)
      ensures this.policy == policy && this.limits == limits && this.backend == backend
      ensures job.Queued? && frozen.None? && generations == 0 && Settled()
    {
      this.policy, this.limits, this.backend := policy, limits, backend;
      job, frozen, generations, tools, usedIn, usedOut, steps, stop := Queued, None, 0, 0, 0, 0, [], Submitted;
    }

    /** What is durable is one honest record. */
    ghost predicate Settled()
      reads this
    {
      && (frozen.Some? ==> Honest(frozen.value))
      && (job.Completed? ==> frozen == Some(job.record))
      && (job.Queued? ==> frozen.None? && generations == 0)
      && generations <= limits.toolCalls
    }

    /** The counters cover the recorded turns, and respect the limits. */
    ghost predicate Counted()
      reads this
    {
      && WithinBudgets(steps, policy, limits, backend)
      && ReadTokens(steps) <= usedIn <= limits.inputTokens && SampledTokens(steps) <= usedOut <= limits.outputTokens
      && tools <= limits.toolCalls && |steps| <= generations <= limits.toolCalls
      && !stop.InvalidTrajectory? && !stop.InfrastructureFailure? && !stop.CandidateFailure?
    }

    /** Why an episode ends before the policy is sampled again, if it does. */
    function Exhausted(tools: nat, usedIn: nat, usedOut: nat, w: World): Option<Stop> {
      if w.outOfTime then Some(TimeLimit)
      else if tools >= limits.toolCalls then Some(ToolLimit)
      else if usedOut >= limits.outputTokens || |w.context| >= backend.maxSequence then Some(TokenLimit)
      else if usedIn + |w.context| > limits.inputTokens then Some(TokenLimit)
      else None
    }

    /** One turn more: what was read and sampled, with a trace exactly if its probabilities are the policy's. */
    ghost predicate Appends(before: seq<Turn>, after: seq<Turn>, w: World) {
      && |after| == |before| + 1 && after[..|before|] == before && w.completion.Got?
      && var t, x := after[|before|], w.completion.value;
         t.context == w.context && t.sampled == x.tokens && (t.trace.Some? <==> x.logprobs.Some? && policy.exact)
    }

    /**
     One turn.  The policy is sampled at most once, and going on costs a tool call, so that there
     are never more generations than tool calls.
     */
    method TakeTurn(w: World) returns (p: Progress)
      requires Counted() && generations == tools == |steps|
      modifies this`generations, this`tools, this`usedIn, this`usedOut, this`steps, this`stop
      ensures Counted() && old(generations) <= generations <= old(generations) + 1
      ensures p.Goes? ==> generations == tools == |steps| && tools == old(tools) + 1
      ensures p.Ends? && generations == old(generations) ==>
                steps == old(steps) && Exhausted(old(tools), old(usedIn), old(usedOut), w) == Some(stop)
      ensures Exhausted(old(tools), old(usedIn), old(usedOut), w).Some? && w.checks.Got? ==>
                p.Ends? && generations == old(generations)
      ensures steps == old(steps) || Appends(old(steps), steps, w)
      ensures p.Goes? || (p.Ends? && generations > old(generations)) ==>
                && Appends(old(steps), steps, w)
                && usedIn == old(usedIn) + |w.context| && usedOut == old(usedOut) + |w.completion.value.tokens|
      ensures p.Ends? && stop.Submitted? ==>
              w.completion.Got? && (w.completion.value.action.Submit? || !old(stop).Submitted?)
    {
      if w.outOfTime {
        stop := TimeLimit;
        return Ends;
      }
      if tools >= limits.toolCalls {
        stop := ToolLimit;
        return Ends;
      }
      if w.checks.Failed? {
        return Fails(w.checks.failure);
      }
      var left := if limits.outputTokens - usedOut <= backend.maxSequence - |w.context|
                  then limits.outputTokens - usedOut else backend.maxSequence - |w.context|;
      if left <= 0 || usedIn + |w.context| > limits.inputTokens {
        stop := TokenLimit;
        return Ends;
      }
      p := Sample(w, left);
    }

    /** Samples the policy once, acts on what it said, and records the turn. */
    method Sample(w: World, left: nat) returns (p: Progress)
      requires Counted() && generations == tools == |steps| < limits.toolCalls
      requires usedOut + left <= limits.outputTokens && |w.context| + left <= backend.maxSequence
      requires usedIn + |w.context| <= limits.inputTokens
      modifies this`generations, this`tools, this`usedIn, this`usedOut, this`steps, this`stop
      ensures Counted() && generations == old(generations) + 1
      ensures p.Goes? ==> generations == tools == |steps|
      ensures steps == old(steps) || Appends(old(steps), steps, w)
      ensures !p.Fails? ==>
                && Appends(old(steps), steps, w)
                && usedIn == old(usedIn) + |w.context| && usedOut == old(usedOut) + |w.completion.value.tokens|
      ensures p.Ends? && stop.Submitted? ==>
              w.completion.Got? && (w.completion.value.action.Submit? || !old(stop).Submitted?)
    {
      generations := generations + 1;
      if w.completion.Failed? {
        return Fails(w.completion.failure);
      }
      var x := w.completion.value;
      var verdict := Verdict(x, w.context, policy, left, backend.vocabulary);
      if verdict.Failed? {
        return Fails(verdict.failure);
      }
      usedIn, usedOut := usedIn + |w.context|, usedOut + |x.tokens|;
      p := Perform(w, x);
    }

    /** A completion that was accepted, and that the counters already cover. */
    ghost predicate Covered(w: World, x: Completion)
      reads this
    {
      && WithinBudgets(steps, policy, limits, backend) && |steps| < limits.toolCalls && |steps| < generations
      && generations <= limits.toolCalls && w.completion == Got(x) && x.tokens != []
      && (x.logprobs.Some? ==> |x.logprobs.value| == |x.tokens| && forall p <- x.logprobs.value :: p <= 0.0)
      && |w.context| + |x.tokens| <= backend.maxSequence
      && ReadTokens(steps) + |w.context| <= usedIn <= limits.inputTokens
      && SampledTokens(steps) + |x.tokens| <= usedOut <= limits.outputTokens
      && !stop.InvalidTrajectory? && !stop.InfrastructureFailure? && !stop.CandidateFailure?
    }

    /** Acts on a completion and records the turn. */
    method Perform(w: World, x: Completion) returns (p: Progress)
      requires Covered(w, x) && tools == |steps|
      modifies this`tools, this`steps, this`stop
      ensures Counted()
      ensures p.Goes? ==> tools == |steps| == |old(steps)| + 1
      ensures steps == old(steps) || Appends(old(steps), steps, w)
      ensures !p.Fails? ==> Appends(old(steps), steps, w)
      ensures p.Ends? && stop.Submitted? ==> x.action.Submit? || !old(stop).Submitted?
    {
      p := Act(w, x);
      if p.Fails? {
        return;
      }
      if w.recorded.Failed? {
        return Fails(w.recorded.failure);
      }
      Keep(Turn(|steps|, w.context, x.tokens, TraceOf(w.context, x)));
      if p.Goes? && w.execution.value.unsound {
        return Fails(Unavailable);
      }
    }

    /** The exact trace of a completion, if its probabilities are known and are those of the policy. */
    function TraceOf(context: seq<nat>, x: Completion): Option<Trace> {
      if x.logprobs.None? || !policy.exact then None
      else Some(Trace(context, x.tokens, x.logprobs.value, policy.version))
    }

    /** What a valid completion asks for; a malformed action ends the episode. */
    method Act(w: World, x: Completion) returns (p: Progress)
      requires tools < limits.toolCalls
      modifies this`tools, this`stop
      ensures p.Goes? ==> tools == old(tools) + 1 && w.execution.Got? && stop == old(stop)
      ensures !p.Goes? ==> old(tools) <= tools <= old(tools) + 1
      ensures stop == old(stop) || stop.TokenLimit? || stop.TimeLimit? || stop.MalformedAction?
      ensures p.Ends? && stop == old(stop) ==> x.action.Submit? || old(stop) in {TokenLimit, TimeLimit, MalformedAction}
    {
      if x.finish.Length? {
        stop := TokenLimit;
        return Ends;
      }
      match x.action
      case Unparsable =>
        stop := MalformedAction;
        return Ends;
      case Submit =>
        return Ends;
      case Command =>
        if !w.timeLeft {
          stop := TimeLimit;
          return Ends;
        }
        tools := tools + 1;
        if w.execution.Failed? {
          if w.execution.failure.InvalidOutcome? {
            // The worker's rejection of the request is a value error like that of the parser.
            stop := MalformedAction;
            return Ends;
          }
          return Fails(w.execution.failure);
        }
        return Goes;
    }

    /** Records a turn that the counters already cover. */
    method Keep(t: Turn)
      requires t.index == |steps| && t.sampled != []
      requires WithinBudgets(steps, policy, limits, backend)
      requires |steps| < limits.toolCalls && |steps| < generations
      requires ReadTokens(steps) + |t.context| <= limits.inputTokens
      requires SampledTokens(steps) + |t.sampled| <= limits.outputTokens
      requires |t.context| + |t.sampled| <= backend.maxSequence
      requires t.trace.Some? ==>
                 && t.trace.value.context == t.context && t.trace.value.sampled == t.sampled
                 && t.trace.value.policyVersion == policy.version
                 && |t.trace.value.logprobs| == |t.trace.value.sampled|
                 && forall p <- t.trace.value.logprobs :: p <= 0.0
      modifies this`steps
      ensures steps == old(steps) + [t] && WithinBudgets(steps, policy, limits, backend)
      ensures ReadTokens(steps) == ReadTokens(old(steps)) + |t.context|
      ensures SampledTokens(steps) == SampledTokens(old(steps)) + |t.sampled|
    {
      var before := steps;
      steps := steps + [t];
      assert steps[..|steps| - 1] == before;
    }

    /** The turns of an episode, each ending it or using one of the tool calls. */
    method TakeTurns(worlds: nat -> World) returns (p: Progress)
      requires Counted() && generations == tools == |steps|
      modifies this`generations, this`tools, this`usedIn, this`usedOut, this`steps, this`stop
      ensures Counted() && !p.Goes?
    {
      p := Goes;
      while p.Goes?
        invariant Counted() && (p.Goes? ==> generations == tools == |steps|)
        decreases p.Goes?, limits.toolCalls - tools
      {
        p := TakeTurn(worlds(|steps|));
      }
    }

    /** The record of an episode that was not measured. */
    function Unmeasured(disposition: Disposition): Record
      reads this
    {
      var stop := if disposition.Invalid? then InvalidTrajectory else InfrastructureFailure;
      Record(policy, steps, stop, disposition, None, 1, false)
    }

    /** The record of a graded episode. */
    function Measured(g: Grade): Record
      reads this
    {
      if g.reward.None? then
        var disposition := if g.disposition.Infrastructure? then Infrastructure else Invalid;
        var stop := if disposition.Infrastructure? then InfrastructureFailure else InvalidTrajectory;
        Record(policy, steps, stop, disposition, None, 2, false)
      else
        Record(policy, steps, stop, g.disposition, g.reward, 2,
               steps != [] && (forall t <- steps :: t.trace.Some?) && policy.tokenizer.Some?)
    }

    /** An honest record of the recorded turns, trainable exactly if it is measured, traced and tokenized. */
    ghost predicate Records(r: Record)
      reads this
    {
      && Honest(r) && r.policy == policy && r.steps == steps
      && (r.trainingEligible <==>
            r.reward.Some? && steps != [] && policy.tokenizer.Some? && forall t <- steps :: t.trace.Some?)
    }

    /** What is retained for a retry records this episode, or says where to go on. */
    ghost predicate Retains(p: Pending)
      reads this
    {
      match p
      case SubmissionPending(rest) => !rest.submitted && rest.gradeIndex < 3
      case GradePending(rest) => rest.submitted && rest.gradeIndex < 3
      case FreezePending(r) => Records(r)
      case PublicationFailed(r) => Records(r)
    }

    ghost predicate Sound(r: Result)
      reads this
    {
      match r
      case Published(record) => job == Completed(record) && Honest(record)
      case Retained(p) => Retains(p)
      case MustRecover => true
      case Raised(_) => true
    }

    lemma MeasuredRecords(g: Grade)
      requires Counted() && CoherentGrade(g)
      ensures Records(Measured(g)) && Measured(g).reward == g.reward
    {
      assert forall t <- steps :: t.trace.Some? ==> t.trace.value.policyVersion == policy.version;
    }

    /**
     Grades the saved source from one index on: at most three gradings in all, and again only after an
     infrastructure failure.  A grade recovered by a retry takes the place of the first.
     */
    method GradeSaved(from: nat, recovered: Option<Grade>, services: Services) returns (p: Pass, last: nat)
      requires from < 3
      ensures from <= last < 3
      ensures p.Graded? ==> AnswerAt(from, recovered, services, last) == Got(p.grade)
      ensures p.Graded? && last < 2 ==> !p.grade.disposition.Infrastructure?
      ensures p.Waits? ==> p.pending == GradePending(Continuation(true, last))
      ensures p.Breaks? ==> AnswerAt(from, recovered, services, last) == Failed(p.failure)
      ensures forall i | from <= i < last ::
                var a := AnswerAt(from, recovered, services, i); a.Got? && a.value.disposition.Infrastructure?
    {
      last := from;
      var answer := AnswerAt(from, recovered, services, from);
      while last < 2 && answer.Got? && answer.value.disposition.Infrastructure?
        invariant from <= last < 3 && answer == AnswerAt(from, recovered, services, last)
        invariant forall i | from <= i < last ::
                    var a := AnswerAt(from, recovered, services, i); a.Got? && a.value.disposition.Infrastructure?
      {
        last := last + 1;
        answer := services.grades(last);
      }
      match answer
      case Got(g) => p := Graded(g);
      case Failed(f) => p := if f.Deferred? then Waits(GradePending(Continuation(true, last))) else Breaks(f);
    }

    static function AnswerAt(from: nat, recovered: Option<Grade>, services: Services, i: nat): Answer<Grade> {
      if i == from && recovered.Some? then Got(recovered.value) else services.grades(i)
    }

    /** A grade that some service gave for the submitted source, in this pass or in the retried publication. */
    static ghost predicate GradedBy(g: Grade, recovered: Option<Grade>, services: Services) {
      recovered == Some(g) || exists i: nat :: i < 3 && services.grades(i) == Got(g)
    }

    /** Submits what was saved, if that is still to do, and grades it. */
    method AfterSaved(rest: Continuation, recovered: Option<Grade>, services: Services) returns (p: Pass)
      requires rest.gradeIndex < 3 && (recovered.Some? ==> rest.submitted)
      ensures p.Waits? ==> Retains(p.pending)
      ensures p.Graded? ==> services.released.Got? && (rest.submitted || services.submission.Got?)
      ensures p.Graded? ==> GradedBy(p.grade, recovered, services)
    {
      if services.released.Failed? {
        return Breaks(services.released.failure);
      }
      if !rest.submitted && services.submission.Failed? {
        var f := services.submission.failure;
        return if f.Deferred? then Waits(SubmissionPending(rest)) else Breaks(f);
      }
      var last: nat;
      p, last := GradeSaved(rest.gradeIndex, recovered, services);
    }

    /** A record is the claim's outcome only once: a registry keeps the first that was made durable. */
    method Publish(record: Record, services: Services) returns (r: Result)
      requires Settled() && !job.Queued? && Records(record)
      modifies this`frozen, this`job
      ensures Settled() && !job.Queued? && Sound(r)
      ensures old(frozen).Some? ==> frozen == old(frozen)
      ensures frozen == old(frozen) || frozen == Some(record)
      ensures old(job).Completed? ==> job == old(job)
      ensures r.Published? ==> frozen == Some(r.record)
      ensures r.Raised? ==> frozen == Some(record) && job == old(job)
      ensures r.Retained? ==> r.pending == PublicationFailed(record)
      ensures !r.MustRecover?
    {
      if services.durable.Failed? || (frozen.Some? && frozen.value != record) {
        return Retained(PublicationFailed(record));
      }
      frozen := Some(record);
      r := Finish(record, services);
    }

    /** Completes the job with its durable record. */
    method Finish(record: Record, services: Services) returns (r: Result)
      requires Settled() && !job.Queued? && frozen == Some(record) && Records(record)
      modifies this`job
      ensures Settled() && !job.Queued? && Sound(r)
      ensures old(job).Completed? ==> job == old(job) && r == Published(record)
      ensures r == Published(record) || r == Retained(PublicationFailed(record)) || (r.Raised? && job == old(job))
    {
      if job.Completed? {
        return Published(job.record);
      }
      if services.finishing.Failed? {
        return
          if services.finishing.failure.InvalidOutcome? then Raised(InvalidOutcome)
          else Retained(PublicationFailed(record));
      }
      job := Completed(record);
      return Published(record);
    }

    /** Puts the outcome together and publishes it; a value error is raised, anything else is left to a retry. */
    method Freeze(record: Record, services: Services) returns (r: Result)
      requires Settled() && !job.Queued? && Records(record)
      modifies this`frozen, this`job
      ensures Settled() && !job.Queued? && Sound(r)
      ensures old(frozen).Some? ==> frozen == old(frozen)
      ensures frozen == old(frozen) || frozen == Some(record)
      ensures old(job).Completed? ==> job == old(job)
      ensures !r.MustRecover? && (r.Raised? ==> r.failure.InvalidOutcome? && job == old(job))
      ensures r.Published? ==> frozen == Some(r.record)
      ensures r.Retained? ==> r.pending == FreezePending(record) || r.pending == PublicationFailed(record)
    {
      if services.freezing.Failed? {
        return
          if services.freezing.failure.InvalidOutcome? then Raised(InvalidOutcome)
          else Retained(FreezePending(record));
      }
      r := Publish(record, services);
      if r.Raised? {
        r := Raised(InvalidOutcome);
      }
    }

    /** What becomes of a failure inside an episode: nothing, or an unmeasured record, frozen at once. */
    method NotMeasured(failure: Failure, cleaned: bool, services: Services) returns (r: Result)
      requires Settled() && job.Running?
      modifies this`frozen, this`job
      ensures Settled() && !job.Queued? && Sound(r)
      ensures old(frozen).Some? ==> frozen == old(frozen)
      ensures frozen.Some? && old(frozen).None? ==> Records(frozen.value) && frozen.value.reward.None?
      ensures r.Published? ==> frozen == Some(r.record)
      ensures r.Retained? ==> r.pending.FreezePending? || r.pending.PublicationFailed?
    {
      match failure
      case RecoveryRequired => return MustRecover;
      case Deferred => return MustRecover;
      case Uncaught => return Raised(Uncaught);
      case InvalidOutcome => r := Freeze(Unmeasured(if cleaned then Invalid else Infrastructure), services);
      case Unavailable => r := Freeze(Unmeasured(Infrastructure), services);
    }

    /**
     The outcome of the claimed episode.  Every way out that freezes anything freezes an honest record of
     the recorded turns, with a reward only if the closed and submitted source was graded; a measured
     record that cannot be put together is frozen again as invalid, and never replaces a durable one.
     */
    method Conclude(worlds: nat -> World, workspace: Workspace, services: Services, again: Services) returns (r: Result)
      requires Settled() && job.Running? && frozen.None? && generations == tools == |steps| && Counted()
      requires CoherentGrades(services)
      modifies this
      ensures Settled() && Counted() && !job.Queued? && Sound(r)
      ensures frozen.Some? ==> Records(frozen.value)
      ensures frozen.Some? && frozen.value.reward.Some? ==>
                && workspace.admission.Got? && workspace.closing.Got? && services.submission.Got?
                && exists g :: GradedBy(g, None, services) && g.reward == frozen.value.reward
      ensures r.Published? ==> frozen == Some(r.record)
    {
      if workspace.admission.Failed? {
        r := NotMeasured(workspace.admission.failure, workspace.cleaned, again);
        return;
      }
      var p := TakeTurns(worlds);
      if p.Fails? {
        r := NotMeasured(p.failure, workspace.cleaned, again);
        return;
      }
      if workspace.closing.Failed? {
        r := NotMeasured(workspace.closing.failure, workspace.cleaned, again);
        return;
      }
      r := Measure(services, again);
    }

    /** Grades the closed source and freezes what comes of it. */
    method Measure(services: Services, again: Services) returns (r: Result)
      requires Settled() && job.Running? && frozen.None? && Counted() && CoherentGrades(services)
      modifies this`frozen, this`job
      ensures Settled() && Counted() && !job.Queued? && Sound(r)
      ensures frozen.Some? ==> Records(frozen.value)
      ensures frozen.Some? && frozen.value.reward.Some? ==>
                && services.submission.Got?
                && exists g :: GradedBy(g, None, services) && g.reward == frozen.value.reward
      ensures r.Published? ==> frozen == Some(r.record)
    {
      var pass := AfterSaved(Continuation(false, 0), None, services);
      match pass
      case Waits(pending) => return Retained(pending);
      case Breaks(f) => r := NotMeasured(f, true, again);
      case Graded(g) =>
        assert GradedBy(g, None, services);
        r := FreezeMeasured(g, services, again);
    }

    /** Freezes a graded episode, or an invalid one if the measured record raises a value error. */
    method FreezeMeasured(g: Grade, services: Services, again: Services) returns (r: Result)
      requires Settled() && job.Running? && frozen.None? && Counted() && CoherentGrade(g)
      modifies this`frozen, this`job
      ensures Settled() && !job.Queued? && Sound(r)
      ensures frozen.Some? ==> Records(frozen.value)
      ensures frozen.Some? && frozen.value.reward.Some? ==> frozen.value.reward == g.reward
      ensures r.Published? ==> frozen == Some(r.record)
    {
      MeasuredRecords(g);
      r := Freeze(Measured(g), services);
      if r.Raised? {
        r := NotMeasured(InvalidOutcome, true, again);
      }
    }

    /**
     `run`: a completed job gives back its record, a dispatched one must be recovered, and only a
     queued one samples the policy.
     */
    method Run(worlds: nat -> World, workspace: Workspace, services: Services, again: Services) returns (r: Result)
      requires Settled() && (job.Queued? ==> tools == usedIn == usedOut == 0 && steps == [] && stop.Submitted?)
      requires CoherentGrades(services)
      modifies this
      ensures Settled() && !job.Queued?
      ensures !old(job).Queued? ==>
                generations == old(generations) && steps == old(steps) && job == old(job) && frozen == old(frozen)
      ensures old(job).Completed? ==> r == Published(old(job).record)
      ensures old(job).Running? ==> r.MustRecover?
      ensures old(job).Queued? ==> Counted() && Sound(r) && (frozen.Some? ==> Records(frozen.value))
      ensures r.Published? ==> job == Completed(r.record)
    {
      match job
      case Completed(record) => return Published(record);
      case Running => return MustRecover;
      case Queued =>
        job := Running;
        r := Conclude(worlds, workspace, services, again);
    }

    /**
     `retry_publication`: goes on from what was retained, over the same turns and without sampling, and
     never replaces a durable record.  What breaks off here is raised, and nothing is frozen for it.
     */
    method RetryPublication(pending: Pending, recovered: Answer<Grade>, services: Services) returns (r: Result)
      requires Settled() && !job.Queued? && Counted() && Retains(pending) && CoherentGrades(services)
      requires recovered.Got? ==> CoherentGrade(recovered.value)
      modifies this`frozen, this`job
      ensures Settled() && !job.Queued? && Sound(r)
      ensures old(job).Completed? ==> r == Published(old(job).record) && job == old(job) && frozen == old(frozen)
      ensures old(frozen).Some? ==> frozen == old(frozen)
      ensures frozen.Some? && old(frozen).None? ==> Records(frozen.value)
      ensures r.Published? ==> frozen == Some(r.record)
    {
      if job.Completed? {
        return Published(job.record);
      }
      match pending
      case SubmissionPending(rest) =>
        r := Continue(rest, None, services);
      case GradePending(rest) =>
        if recovered.Failed? {
          return Raised(recovered.failure);
        }
        r := Continue(rest, Some(recovered.value), services);
      case FreezePending(record) =>
        r := Freeze(record, services);
      case PublicationFailed(record) =>
        r := Publish(record, services);
    }

    /** The rest of a pass over the saved source. */
    method Continue(rest: Continuation, recovered: Option<Grade>, services: Services) returns (r: Result)
      requires Settled() && job.Running? && Counted() && CoherentGrades(services)
      requires rest.gradeIndex < 3 && (recovered.Some? ==> rest.submitted && CoherentGrade(recovered.value))
      modifies this`frozen, this`job
      ensures Settled() && !job.Queued? && Sound(r)
      ensures old(frozen).Some? ==> frozen == old(frozen)
      ensures frozen.Some? && old(frozen).None? ==> Records(frozen.value)
      ensures r.Published? ==> frozen == Some(r.record)
    {
      var pass := AfterSaved(rest, recovered, services);
      match pass
      case Waits(pending) => return Retained(pending);
      case Breaks(f) => return Raised(f);
      case Graded(g) =>
        MeasuredRecords(g);
        r := Freeze(Measured(g), services);
    }

    /** `recover`: only what is durable is completed. */
    method Recover(services: Services) returns (r: Result)
      requires Settled() && !job.Queued? && (frozen.Some? ==> Records(frozen.value))
      modifies this`job
      ensures Settled() && !job.Queued? && Sound(r)
      ensures old(job).Completed? ==> job == old(job) && r == Published(old(job).record)
      ensures old(job).Running? && frozen.None? ==> r.MustRecover? && job == old(job)
      ensures r.Published? ==> frozen == Some(r.record)
    {
      if job.Completed? {
        return Published(job.record);
      }
      if frozen.None? {
        return MustRecover;
      }
      r := Finish(frozen.value, services);
    }
  }
}
