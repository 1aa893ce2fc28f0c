/** Claimed runs, with any number of workers: an operation is claimed once, so a run that is
    calling the provider is the only one that can report its success, and what it finds at
    its commit depends only on the stale window. */
module QueueClaims {
  import opened Basics
  import opened Domain
  import opened Documents
  import opened DocumentFacts
  import opened AiLimits
  import opened Queue
  import opened QueueInvariant
  import opened QueueAgreement
  import opened QueueFreeze
  import opened QueueOneWorker

  predicate ClaimedJob(job: Job) { job.phase.Calling? || job.phase.Saved? }

  /** The row of a claimed job. While the call is under way it is running, or the stale window
      has passed since the claim and it has ended without success; after the success commit it
      has succeeded. A cleared row is gone. */
  predicate ClaimOk(s: State, k: (Id, Id))
    requires k in s.jobs
  {
    var job := s.jobs[k];
    job.op in s.ops ==>
      && (job.phase.Calling? ==>
            s.ops[job.op].status == Running || (!ActiveOp(s.ops[job.op]) && s.ops[job.op].status != Succeeded && s.now > s.ops[job.op].started + STALE_SECONDS))
      && (job.phase.Saved? ==> s.ops[job.op].status == Succeeded)
  }

  /** No two claimed jobs share an operation. */
  ghost predicate ClaimsUnique(s: State) {
    forall k, l | k in s.jobs && l in s.jobs && ClaimedJob(s.jobs[k]) && ClaimedJob(s.jobs[l]) && s.jobs[k].op == s.jobs[l].op :: k == l
  }

  ghost predicate ClaimsOk(s: State) {
    ClaimsUnique(s) && forall k | k in s.jobs :: ClaimOk(s, k)
  }

  // ---------------------------------------------------------------- how a row changes

  /** The step is the conditional update that claims operation `i`. */
  predicate Claims(s: State, step: Step, i: Id) {
    step.Claim? && IsPrepared(s, step.worker, step.owner) && s.jobs[(step.worker, step.owner)].op == i
  }

  /** The ways a row can change: its result is written, it is claimed while queued, it is
      recovered after the stale window, or it is withdrawn from the queue. */
  predicate RowMoves(s: State, step: Step, i: Id, op: Op)
    requires i in s.ops
  {
    || op == s.ops[i]
    || Writes(s, step) == Some(i)
    || (Claims(s, step, i) && s.ops[i].status == Queued)
    || (s.ops[i].status == Running && s.now > s.ops[i].started + STALE_SECONDS && op == s.ops[i].(status := Failed))
    || (s.ops[i].status == Queued && !ActiveOp(op) && op.status != Succeeded)
  }

  lemma {:induction false} RecoverRow(s: State, stale: seq<Id>, i: Id)
    requires i in s.ops
    ensures i in Recover(s, stale).ops
    ensures Recover(s, stale).ops[i] == s.ops[i] || Recover(s, stale).ops[i] == s.ops[i].(status := Failed)
    ensures Recover(s, stale).now == s.now
  {
    if stale != [] { RecoverRow(s, stale[..|stale| - 1], i); }
  }

  lemma RecoverMoves(s: State, step: Step, i: Id)
    requires step.RecoverStale? && i in s.ops && i in Next(s, step).ops
    ensures RowMoves(s, step, i, Next(s, step).ops[i])
  {
    if Next(s, step) != s {
      if i in step.stale {
        assert Stale(s, step.owner, i);
        RecoverRow(s, step.stale, i);
      } else {
        RecoverUntouched(s, step.stale, i);
      }
    }
  }

  lemma SubmitMoves(s: State, id: Id, task: Id, owner: Id, payload: Payload, key: Option<string>, at: int, configured: bool, i: Id)
    requires Base(s) && i in s.ops
    ensures
      var r := SubmitTo(s, id, task, owner, payload, key, at, configured).0;
      i in r.ops && r.ops[i] == s.ops[i] && r.jobs == s.jobs && r.now == s.now
  {
    assert OpOk(s, i);
    SubmitCases(s, id, task, owner, payload, key, at, configured);
  }

  lemma RunMoves(s: State, step: Step, i: Id)
    requires step.Respond? || step.RunError? || step.CancelRun?
    requires i in s.ops && i in Next(s, step).ops
    ensures Next(s, step).ops[i] == s.ops[i] || Writes(s, step) == Some(i)
  {
  }

  lemma OtherMoves(s: State, step: Step, i: Id)
    requires !step.Submit? && !step.Retry? && !step.RecoverStale? && !step.Respond? && !step.RunError? && !step.CancelRun?
    requires i in s.ops && i in Next(s, step).ops
    ensures RowMoves(s, step, i, Next(s, step).ops[i])
  {
  }

  lemma RowStep(s: State, step: Step, i: Id)
    requires Base(s) && i in s.ops && i in Next(s, step).ops
    ensures RowMoves(s, step, i, Next(s, step).ops[i])
  {
    if step.Submit? || step.Retry? { RequestMoves(s, step, i); }
    else if step.RecoverStale? { RecoverMoves(s, step, i); }
    else if WriterStep(step) { RunMoves(s, step, i); }
    else { OtherMoves(s, step, i); }
  }

  lemma RequestMoves(s: State, step: Step, i: Id)
    requires Base(s) && i in s.ops && (step.Submit? || step.Retry?)
    ensures i in Next(s, step).ops && Next(s, step).ops[i] == s.ops[i]
  {
    match step
    case Submit(id, task, owner, payload, key, at, configured) => SubmitMoves(s, id, task, owner, payload, key, at, configured, i);
    case Retry(id, op, owner, key, at, configured) =>
      if op in s.ops { SubmitMoves(s, id, s.ops[op].task, owner, s.ops[op].payload, key, at, configured, i); }
  }

  // ---------------------------------------------------------------- how a claimed job comes about

  /** The job at `k` was claimed by this step, saved by this step, or claimed before and is
      not the one this step writes for. */
  predicate JobComes(s: State, step: Step, r: State, k: (Id, Id))
    requires k in r.jobs
  {
    || (k in s.jobs && r.jobs[k] == s.jobs[k] && !WritesFor(s, step, k))
    || (Claims(s, step, r.jobs[k].op) && k == (step.worker, step.owner) && r.jobs[k].phase.Calling?
        && r.jobs[k].op in s.ops && s.ops[r.jobs[k].op].status == Queued && r.jobs[k].op in r.ops && r.ops[r.jobs[k].op].status == Running)
    || (k in s.jobs && s.jobs[k].phase.Calling? && r.jobs[k] == Job(s.jobs[k].op, Saved) && r.jobs[k].op in r.ops
        && r.ops[r.jobs[k].op].status == Succeeded)
  }

  predicate WriterStep(step: Step) { step.Respond? || step.RunError? || step.CancelRun? }

  lemma OwnJobComes(s: State, step: Step, k: (Id, Id))
    requires k in Next(s, step).jobs && ClaimedJob(Next(s, step).jobs[k]) && (k in s.jobs ==> ClaimOk(s, k))
    requires (step.Prepare? || step.Claim? || step.Respond? || step.RunError?) && k == (step.worker, step.owner)
    ensures JobComes(s, step, Next(s, step), k)
  {
  }

  lemma JobStep(s: State, step: Step, k: (Id, Id))
    requires k in Next(s, step).jobs && ClaimedJob(Next(s, step).jobs[k]) && (k in s.jobs ==> ClaimOk(s, k))
    ensures JobComes(s, step, Next(s, step), k)
  {
    if step.Tick? {
    } else if (step.Prepare? || step.Claim? || step.Respond? || step.RunError?) && k == (step.worker, step.owner) {
      OwnJobComes(s, step, k);
    } else {
      OtherJobsKept(s, step, k);
      if step.CancelRun? && k == (step.worker, step.owner) { DroppedJob(s, step); }
    }
  }

  // ---------------------------------------------------------------- the invariant

  /** The step is about to write a result for job `k`. */
  predicate WritesFor(s: State, step: Step, k: (Id, Id)) {
    WriterStep(step) && k == (step.worker, step.owner) && Writes(s, step).Some?
  }

  /** A result is written by the one claimed job of its operation. */
  lemma WriterIsClaimed(s: State, step: Step, i: Id, k: (Id, Id))
    requires ClaimsUnique(s) && Writes(s, step) == Some(i)
    requires k in s.jobs && ClaimedJob(s.jobs[k]) && s.jobs[k].op == i
    ensures WritesFor(s, step, k)
  {
    var l := (step.worker, step.owner);
    assert l in s.jobs && ClaimedJob(s.jobs[l]) && s.jobs[l].op == i;
  }

  /** A claimed job that is not written for keeps a fitting row. */
  lemma ClaimStays(s: State, step: Step, r: State, k: (Id, Id), i: Id)
    requires ClaimsUnique(s) && k in s.jobs && ClaimedJob(s.jobs[k]) && ClaimOk(s, k) && s.jobs[k].op == i
    requires k in r.jobs && r.jobs[k] == s.jobs[k] && r.now >= s.now && !WritesFor(s, step, k)
    requires i in r.ops ==> i in s.ops && RowMoves(s, step, i, r.ops[i])
    ensures ClaimOk(r, k)
  {
    if Writes(s, step) == Some(i) { WriterIsClaimed(s, step, i, k); }
  }

  lemma TimeStep(s: State, step: Step)
    ensures Next(s, step).now >= s.now
  {
    match step
    case RecoverStale(_, _, stale) => RecoverTime(s, stale);
    case _ =>
  }

  lemma {:induction false} RecoverTime(s: State, stale: seq<Id>)
    ensures Recover(s, stale).now == s.now
  {
    if stale != [] { RecoverTime(s, stale[..|stale| - 1]); }
  }

  lemma ClaimsKept(s: State, step: Step, k: (Id, Id))
    requires Base(s) && ClaimsOk(s) && k in Next(s, step).jobs
    ensures ClaimOk(Next(s, step), k)
  {
    if ClaimedJob(Next(s, step).jobs[k]) {
      JobStep(s, step, k);
      TimeStep(s, step);
      if k in s.jobs && Next(s, step).jobs[k] == s.jobs[k] && !WritesFor(s, step, k) {
        if s.jobs[k].op in Next(s, step).ops { ClaimRow(s, step, k); }
        ClaimStays(s, step, Next(s, step), k, s.jobs[k].op);
      }
    }
  }

  lemma ClaimRow(s: State, step: Step, k: (Id, Id))
    requires Base(s) && k in s.jobs && s.jobs[k].op in Next(s, step).ops
    ensures s.jobs[k].op in s.ops && RowMoves(s, step, s.jobs[k].op, Next(s, step).ops[s.jobs[k].op])
  {
    assert JobOk(s, k);
    OpsContinue(s, step, s.jobs[k].op);
    RowStep(s, step, s.jobs[k].op);
  }

  lemma UniqueKept(s: State, step: Step, k: (Id, Id), l: (Id, Id))
    requires Base(s) && ClaimsOk(s) && k in Next(s, step).jobs && l in Next(s, step).jobs
    requires ClaimedJob(Next(s, step).jobs[k]) && ClaimedJob(Next(s, step).jobs[l]) && Next(s, step).jobs[k].op == Next(s, step).jobs[l].op
    ensures k == l
  {
    JobStep(s, step, k);
    JobStep(s, step, l);
    StillUnique(s, step, Next(s, step), k, l);
  }

  lemma StillUnique(s: State, step: Step, r: State, k: (Id, Id), l: (Id, Id))
    requires ClaimsOk(s) && k in r.jobs && l in r.jobs && JobComes(s, step, r, k) && JobComes(s, step, r, l)
    requires ClaimedJob(r.jobs[k]) && ClaimedJob(r.jobs[l]) && r.jobs[k].op == r.jobs[l].op
    ensures k == l
  {
    assert k in s.jobs ==> ClaimOk(s, k);
    assert l in s.jobs ==> ClaimOk(s, l);
  }

  lemma ClaimsStep(s: State, step: Step)
    requires Base(s) && ClaimsOk(s)
    ensures ClaimsOk(Next(s, step))
  {
    var r := Next(s, step);
    forall k | k in r.jobs ensures ClaimOk(r, k) { ClaimsKept(s, step, k); }
    forall k, l | k in r.jobs && l in r.jobs && ClaimedJob(r.jobs[k]) && ClaimedJob(r.jobs[l]) && r.jobs[k].op == r.jobs[l].op
      ensures k == l
    {
      UniqueKept(s, step, k, l);
    }
  }

  /** In every run, with any number of workers: an operation has at most one claimed job, and
      its row is as that job expects unless the stale window has passed. */
  lemma {:induction false} ClaimsAlways(now: int, steps: seq<Step>)
    ensures ClaimsOk(Run(Initial(now), steps))
  {
    if steps != [] {
      ClaimsAlways(now, steps[..|steps| - 1]);
      BaseAlways(now, steps[..|steps| - 1]);
      ClaimsStep(Run(Initial(now), steps[..|steps| - 1]), steps[|steps| - 1]);
    }
  }

  // ---------------------------------------------------------------- a success stays recorded

  /** The row still says success, or the member has cleared it. */
  predicate StillSucceeded(s: State, i: Id) {
    i in s.ops ==> s.ops[i].status == Succeeded
  }

  /** The shutdown of a run whose success for `i` is already committed. */
  predicate ShutsDownSaved(s: State, step: Step, i: Id) {
    step.CancelRun? && IsSaved(s, step.worker, step.owner) && s.jobs[(step.worker, step.owner)].op == i
  }

  lemma SuccessStep(s: State, step: Step, i: Id)
    requires Base(s) && ClaimsOk(s) && i in s.ops && s.ops[i].status == Succeeded
    ensures StillSucceeded(Next(s, step), i) <==> !ShutsDownSaved(s, step, i)
  {
    assert OpOk(s, i);
    if i in Next(s, step).ops {
      RowStep(s, step, i);
      WritersOfSuccess(s, step, i);
    }
  }

  /** The only write that can hit a recorded success is the shutdown of its own run. */
  lemma WritersOfSuccess(s: State, step: Step, i: Id)
    requires ClaimsOk(s) && i in s.ops && s.ops[i].status == Succeeded
    ensures Writes(s, step) == Some(i) <==> ShutsDownSaved(s, step, i)
  {
    if WriterStep(step) {
      var k := (step.worker, step.owner);
      assert k in s.jobs ==> ClaimOk(s, k);
    }
  }

  /** In every reachable state, with any number of workers: the next step leaves a recorded
      success recorded, or its row cleared, iff it is not the shutdown of the run that has
      just committed it. */
  lemma {:induction false} SuccessExact(now: int, steps: seq<Step>, step: Step, i: Id)
    requires i in Run(Initial(now), steps).ops && Run(Initial(now), steps).ops[i].status == Succeeded
    ensures
      var s := Run(Initial(now), steps);
      StillSucceeded(Next(s, step), i) <==> !ShutsDownSaved(s, step, i)
  {
    BaseAlways(now, steps);
    ClaimsAlways(now, steps);
    SuccessStep(Run(Initial(now), steps), step, i);
  }
}
