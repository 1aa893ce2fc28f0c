/** With a single worker process a claimed run is never recovered under its feet, so two of
    the three weak spots of the code remain: a shutdown after the success commit, and the
    clean-up that looks only at the document's state. */
module QueueOneWorker {
  import opened Basics
  import opened Domain
  import opened Documents
  import opened DocumentFacts
  import opened Queue
  import opened QueueInvariant
  import opened QueueAgreement
  import opened QueueFreeze
  import opened QueueIdempotency

  /** The step belongs to worker `w` or to no worker. */
  predicate By(step: Step, w: Id) {
    match step
    case Tick(x, _) => x == w
    case RecoverStale(x, _, _) => x == w
    case Prepare(x, _, _) => x == w
    case LeaseBusy(x, _) => x == w
    case Claim(x, _, _) => x == w
    case Respond(x, _, _, _) => x == w
    case RunError(x, _) => x == w
    case CancelRun(x, _) => x == w
    case Return(x, _) => x == w
    case Cleanup(x, _) => x == w
    case Crash(x) => x == w
    case _ => true
  }

  /** A calling job's operation is running; a saved job's operation has succeeded, unless its
      row was cleared. */
  predicate InStep(s: State, w: Id, k: (Id, Id))
    requires k in s.jobs
  {
    var job := s.jobs[k];
    && k.0 == w
    && (job.phase.Calling? ==> job.op in s.ops && s.ops[job.op].status == Running)
    && (job.phase.Saved? && job.op in s.ops ==> s.ops[job.op].status == Succeeded)
  }

  ghost predicate OneWorker(s: State, w: Id) {
    forall k | k in s.jobs :: InStep(s, w, k)
  }

  /** Operation `i` keeps its status, or its row is cleared after it ended. */
  predicate Undisturbed(s: State, r: State, i: Id) {
    && (i in s.ops && i in r.ops ==> r.ops[i].status == s.ops[i].status)
    && (i in s.ops && i !in r.ops ==> !ActiveOp(s.ops[i]))
    && (i !in s.ops ==> i !in r.ops)
  }

  lemma RequestUndisturbed(s: State, step: Step, i: Id)
    requires Base(s) && i in s.issued && (i in s.ops ==> s.ops[i].status != Queued)
    requires step.CreateTask? || step.EditTask? || step.CancelQueued? || step.ClearCompleted? || IsQuiet(step)
    ensures Undisturbed(s, Next(s, step), i)
  {
    if IsQuiet(step) { QuietSame(s, step); } else { EditUndisturbed(s, step, i); }
  }

  lemma EditUndisturbed(s: State, step: Step, i: Id)
    requires i in s.ops ==> s.ops[i].status != Queued
    requires step.CreateTask? || step.EditTask? || step.CancelQueued? || step.ClearCompleted?
    ensures Undisturbed(s, Next(s, step), i)
  {
  }

  lemma SubmitUndisturbed(s: State, id: Id, task: Id, owner: Id, payload: Payload, key: Option<string>, at: int, configured: bool, i: Id)
    requires Base(s) && i in s.issued
    ensures Undisturbed(s, SubmitTo(s, id, task, owner, payload, key, at, configured).0, i)
    ensures SubmitTo(s, id, task, owner, payload, key, at, configured).0.jobs == s.jobs
  {
    SubmitCases(s, id, task, owner, payload, key, at, configured);
  }

  lemma RecoverUndisturbed(s: State, step: Step, i: Id)
    requires step.RecoverStale? && (i in s.ops ==> s.ops[i].owner != step.owner || s.ops[i].status != Running)
    ensures Undisturbed(s, Next(s, step), i)
  {
    if Next(s, step) != s {
      if i in s.ops { assert !Stale(s, step.owner, i); }
      assert i !in step.stale;
      RecoverUntouched(s, step.stale, i);
    }
  }

  /** A step of the job of member `o` touches only operations of `o`. */
  lemma JobUndisturbed(s: State, step: Step, i: Id)
    requires Base(s) && (step.Claim? || step.Respond? || step.RunError? || step.CancelRun? || step.Cleanup?)
    requires i in s.ops ==> s.ops[i].owner != step.owner
    ensures Undisturbed(s, Next(s, step), i)
  {
    var k := (step.worker, step.owner);
    if k in s.jobs {
      assert JobOk(s, k);
      if step.Claim? || step.Respond? { AnswerUndisturbed(s, step, i); } else { EndUndisturbed(s, step, i); }
    }
  }

  lemma AnswerUndisturbed(s: State, step: Step, i: Id)
    requires (step.Claim? || step.Respond?) && (step.worker, step.owner) in s.jobs && JobOk(s, (step.worker, step.owner))
    requires i in s.ops ==> s.ops[i].owner != step.owner
    ensures Undisturbed(s, Next(s, step), i)
  {
  }

  lemma EndUndisturbed(s: State, step: Step, i: Id)
    requires (step.RunError? || step.CancelRun? || step.Cleanup?) && (step.worker, step.owner) in s.jobs && JobOk(s, (step.worker, step.owner))
    requires i in s.ops ==> s.ops[i].owner != step.owner
    ensures Undisturbed(s, Next(s, step), i)
  {
  }

  lemma OtherJobsKept(s: State, step: Step, k: (Id, Id))
    requires k in Next(s, step).jobs && !step.Tick?
    requires !((step.Prepare? || step.Claim? || step.Respond? || step.RunError?) && k == (step.worker, step.owner))
    ensures k in s.jobs && Next(s, step).jobs[k] == s.jobs[k]
  {
    if step.RecoverStale? { RecoverJobs(s, step.stale); }
  }

  /** The job that the step moves. */
  lemma OwnJobInStep(s: State, step: Step, w: Id, k: (Id, Id))
    requires Base(s) && OneWorker(s, w) && By(step, w) && k in Next(s, step).jobs
    requires (step.Prepare? || step.Claim? || step.Respond? || step.RunError?) && k == (step.worker, step.owner)
    ensures InStep(Next(s, step), w, k)
  {
    if k in s.jobs {
      assert InStep(s, w, k) && JobOk(s, k);
      if step.Prepare? || step.Claim? { StartedInStep(s, step, w, k); } else { AnsweredInStep(s, step, w, k); }
    }
  }

  lemma StartedInStep(s: State, step: Step, w: Id, k: (Id, Id))
    requires k in s.jobs && InStep(s, w, k) && k in Next(s, step).jobs && (step.Prepare? || step.Claim?) && k == (step.worker, step.owner)
    ensures InStep(Next(s, step), w, k)
  {
  }

  lemma AnsweredInStep(s: State, step: Step, w: Id, k: (Id, Id))
    requires k in s.jobs && InStep(s, w, k) && k in Next(s, step).jobs && (step.Respond? || step.RunError?) && k == (step.worker, step.owner)
    ensures InStep(Next(s, step), w, k)
  {
  }

  /** The operation of a claimed job is touched only by steps of that job. */
  lemma ClaimedUndisturbed(s: State, step: Step, w: Id, k: (Id, Id))
    requires Base(s) && By(step, w) && k in s.jobs && InStep(s, w, k) && (s.jobs[k].phase.Calling? || s.jobs[k].phase.Saved?)
    requires !((step.Claim? || step.Respond? || step.RunError? || step.CancelRun? || step.Cleanup?) && step.owner == k.1)
    ensures Undisturbed(s, Next(s, step), s.jobs[k].op)
  {
    assert JobOk(s, k);
    var i := s.jobs[k].op;
    if step.Submit? || step.Retry? { SubmissionUndisturbed(s, step, i); }
    else if step.RecoverStale? { if MayRecover(s, w, step.owner) { RecoverUndisturbed(s, step, i); } }
    else if step.Claim? || step.Respond? || step.RunError? || step.CancelRun? || step.Cleanup? { JobUndisturbed(s, step, i); }
    else { RequestUndisturbed(s, step, i); }
  }

  lemma SubmissionUndisturbed(s: State, step: Step, i: Id)
    requires Base(s) && i in s.issued && (step.Submit? || step.Retry?)
    ensures Undisturbed(s, Next(s, step), i)
  {
    match step
    case Submit(id, task, owner, payload, key, at, configured) => SubmitUndisturbed(s, id, task, owner, payload, key, at, configured, i);
    case Retry(id, op, owner, key, at, configured) =>
      if op in s.ops { SubmitUndisturbed(s, id, s.ops[op].task, owner, s.ops[op].payload, key, at, configured, i); }
  }

  lemma DroppedJob(s: State, step: Step)
    requires step.CancelRun? || (step.Cleanup? && IsBroken(s, step.worker, step.owner))
    ensures (step.worker, step.owner) !in Next(s, step).jobs
  {
  }

  lemma KeptJobInStep(s: State, step: Step, w: Id, k: (Id, Id))
    requires Base(s) && OneWorker(s, w) && By(step, w) && k in Next(s, step).jobs && k in s.jobs
    requires Next(s, step).jobs[k] == s.jobs[k]
    requires !((step.Prepare? || step.Claim? || step.Respond? || step.RunError?) && k == (step.worker, step.owner))
    ensures InStep(Next(s, step), w, k)
  {
    assert InStep(s, w, k);
    if s.jobs[k].phase.Calling? || s.jobs[k].phase.Saved? {
      if step.CancelRun? && step.owner == k.1 {
        DroppedJob(s, step);
      } else if step.Cleanup? && step.owner == k.1 {
        assert Next(s, step) == s;
      } else {
        ClaimedUndisturbed(s, step, w, k);
      }
    }
  }

  /** One worker keeps its jobs in step with their operations. */
  lemma OneWorkerStep(s: State, step: Step, w: Id)
    requires Base(s) && OneWorker(s, w) && By(step, w)
    ensures OneWorker(Next(s, step), w)
  {
    var r := Next(s, step);
    forall k | k in r.jobs ensures InStep(r, w, k) {
      if step.Tick? {
        TickInStep(s, step, w, k);
      } else if (step.Prepare? || step.Claim? || step.Respond? || step.RunError?) && k == (step.worker, step.owner) {
        OwnJobInStep(s, step, w, k);
      } else {
        OtherJobsKept(s, step, k);
        KeptJobInStep(s, step, w, k);
      }
    }
  }

  lemma TickInStep(s: State, step: Step, w: Id, k: (Id, Id))
    requires OneWorker(s, w) && By(step, w) && step.Tick? && k in Next(s, step).jobs
    ensures InStep(Next(s, step), w, k)
  {
    QuietSame(s, step);
    if k in s.jobs { assert InStep(s, w, k); }
  }

  ghost predicate ByThroughout(steps: seq<Step>, w: Id) {
    forall k | 0 <= k < |steps| :: By(steps[k], w)
  }

  /** In every run of one worker, a run that is calling the provider owns a running operation. */
  lemma {:induction false} OneWorkerAlways(now: int, steps: seq<Step>, w: Id)
    requires ByThroughout(steps, w)
    ensures OneWorker(Run(Initial(now), steps), w)
  {
    if steps != [] {
      var front := steps[..|steps| - 1];
      OneWorkerAlways(now, front, w);
      BaseAlways(now, front);
      assert By(steps[|steps| - 1], w);
      OneWorkerStep(Run(Initial(now), front), steps[|steps| - 1], w);
    }
  }

  /** The shutdown catches a run after its success commit. */
  predicate CancelsSaved(s: State, step: Step) {
    step.CancelRun? && IsSaved(s, step.worker, step.owner) && s.jobs[(step.worker, step.owner)].op in s.ops
  }

  /** So with one worker a step is live iff it is no late shutdown and no unjustified clean-up. */
  lemma OneWorkerLive(s: State, step: Step, w: Id)
    requires OneWorker(s, w) && By(step, w)
    ensures Live(s, step) <==> CleanupJustified(s, step) && !CancelsSaved(s, step)
  {
    if step.Respond? || step.RunError? || step.CancelRun? {
      var k := (step.worker, step.owner);
      if k in s.jobs { assert InStep(s, w, k); }
    }
  }

  ghost predicate Careful(s: State, steps: seq<Step>) {
    forall k | 0 <= k < |steps| :: CleanupJustified(Run(s, steps[..k]), steps[k]) && !CancelsSaved(Run(s, steps[..k]), steps[k])
  }

  lemma {:induction false} CarefulLive(now: int, steps: seq<Step>, w: Id, k: nat)
    requires ByThroughout(steps, w) && k < |steps|
    requires CleanupJustified(Run(Initial(now), steps[..k]), steps[k]) && !CancelsSaved(Run(Initial(now), steps[..k]), steps[k])
    ensures Live(Run(Initial(now), steps[..k]), steps[k])
  {
    assert ByThroughout(steps[..k], w);
    OneWorkerAlways(now, steps[..k], w);
    assert By(steps[k], w);
    OneWorkerLive(Run(Initial(now), steps[..k]), steps[k], w);
  }

  /** One worker, no shutdown right after a success commit and no unjustified clean-up: every
      state is orderly, with no assumption on how long a provider call takes. */
  lemma {:induction false} OneWorkerOrderly(now: int, steps: seq<Step>, w: Id)
    requires ByThroughout(steps, w) && Careful(Initial(now), steps)
    ensures Orderly(Run(Initial(now), steps))
  {
    forall k | 0 <= k < |steps| ensures Live(Run(Initial(now), steps[..k]), steps[k]) {
      CarefulLive(now, steps, w, k);
    }
    OrderlyAlways(now, steps);
  }
}
