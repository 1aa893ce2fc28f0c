/** Member FIFO with any number of workers: a running operation is its member's oldest active
    one. The lease plays no part. The only assumption is on submission timestamps, and it is
    stated exactly. */
module QueueFifo {
  import opened Basics
  import opened Domain
  import opened Documents
  import opened Queue
  import opened QueueInvariant
  import opened QueueAgreement

  /** Every running operation is the oldest active one of its member. */
  ghost predicate Fifo(ops: map<Id, Op>) {
    forall r | r in ops && ops[r].status == Running :: IsOldestActive(ops, r)
  }

  /** A job that has not claimed its operation yet. */
  predicate Waiting(job: Job) { job.phase.Started? || job.phase.Prepared? }

  /** A picked operation that is still queued is the oldest active one of its member. */
  ghost predicate PicksOldest(s: State) {
    forall k | k in s.jobs && Waiting(s.jobs[k]) && s.jobs[k].op in s.ops && s.ops[s.jobs[k].op].status == Queued ::
      IsOldestActive(s.ops, s.jobs[k].op)
  }

  ghost predicate FifoInv(s: State) {
    Fifo(s.ops) && PicksOldest(s)
  }

  /** An operation that runs or has been picked. */
  ghost predicate Settled(s: State, i: Id)
    requires i in s.ops
  {
    || s.ops[i].status == Running
    || (s.ops[i].status == Queued && exists k :: k in s.jobs && Waiting(s.jobs[k]) && s.jobs[k].op == i)
  }

  /** The operation a step puts into the queue, if any. */
  ghost function Enqueued(s: State, step: Step): (r: Option<(Id, Op)>) {
    var id := if step.Submit? || step.Retry? then step.id else 0;
    var next := Next(s, step);
    if (step.Submit? || step.Retry?) && id !in s.ops && id in next.ops then Some((id, next.ops[id])) else None
  }

  /** The exact condition on timestamps: a new operation sorts after every operation of its
      member that runs or has been picked. */
  ghost predicate InOrder(s: State, step: Step) {
    match Enqueued(s, step)
    case None => true
    case Some((id, op)) => forall i | i in s.ops && s.ops[i].owner == op.owner && Settled(s, i) :: Before(i, s.ops[i], id, op)
  }

  // ---------------------------------------------------------------- consequences

  /** A member never has two running operations. */
  lemma OneRunning(s: State, i: Id, j: Id)
    requires FifoInv(s) && i in s.ops && j in s.ops && s.ops[i].owner == s.ops[j].owner
    requires s.ops[i].status == Running && s.ops[j].status == Running
    ensures i == j
  {
    assert IsOldestActive(s.ops, i) && IsOldestActive(s.ops, j);
  }

  /** Work is claimed in submission order: when a claim starts an operation, everything its
      member submitted earlier has ended. */
  lemma ClaimedInOrder(s: State, w: Id, o: Id, configured: bool, earlier: Id)
    requires FifoInv(s)
    requires
      var id := if (w, o) in s.jobs then s.jobs[(w, o)].op else 0;
      && IsPrepared(s, w, o) && id in s.ops && s.ops[id].status == Queued
      && id in Next(s, Claim(w, o, configured)).ops && Next(s, Claim(w, o, configured)).ops[id].status == Running
      && earlier in s.ops && s.ops[earlier].owner == s.ops[id].owner && Before(earlier, s.ops[earlier], id, s.ops[id])
    ensures !ActiveOp(s.ops[earlier])
  {
    assert IsOldestActive(s.ops, s.jobs[(w, o)].op);
  }

  // ---------------------------------------------------------------- steps

  /** Nothing becomes active, starts or is picked. */
  ghost predicate Quieter(s: State, r: State) {
    && (forall i | i in r.ops :: i in s.ops && r.ops[i].owner == s.ops[i].owner && r.ops[i].created == s.ops[i].created
                                 && (ActiveOp(r.ops[i]) ==> r.ops[i].status == s.ops[i].status))
    && (forall k | k in r.jobs && Waiting(r.jobs[k]) :: k in s.jobs && Waiting(s.jobs[k]) && r.jobs[k].op == s.jobs[k].op)
  }

  lemma OldestStays(ops: map<Id, Op>, fewer: map<Id, Op>, id: Id)
    requires IsOldestActive(ops, id) && id in fewer && ActiveOp(fewer[id])
    requires forall i | i in fewer :: i in ops && fewer[i].owner == ops[i].owner && fewer[i].created == ops[i].created
                                      && (ActiveOp(fewer[i]) ==> ActiveOp(ops[i]))
    ensures IsOldestActive(fewer, id)
  {
  }

  lemma FifoQuieter(s: State, r: State)
    requires FifoInv(s) && Quieter(s, r)
    ensures FifoInv(r)
  {
    forall i | i in r.ops && r.ops[i].status == Running ensures IsOldestActive(r.ops, i) {
      OldestStays(s.ops, r.ops, i);
    }
    forall k | k in r.jobs && Waiting(r.jobs[k]) && r.jobs[k].op in r.ops && r.ops[r.jobs[k].op].status == Queued
      ensures IsOldestActive(r.ops, r.jobs[k].op)
    {
      OldestStays(s.ops, r.ops, r.jobs[k].op);
    }
  }

  lemma FifoTick(s: State, worker: Id, picks: map<Id, Id>)
    requires FifoInv(s)
    ensures FifoInv(Next(s, Tick(worker, picks)))
  {
    if PicksOk(s, worker, picks) {
      var r := Next(s, Tick(worker, picks));
      forall k | k in r.jobs && Waiting(r.jobs[k]) && r.jobs[k].op in r.ops && r.ops[r.jobs[k].op].status == Queued
        ensures IsOldestActive(r.ops, r.jobs[k].op)
      {
        if k.0 == worker && k.1 in picks { assert IsOldestActive(s.ops, picks[k.1]); }
      }
    }
  }

  lemma StartOldest(ops: map<Id, Op>, id: Id, started: int)
    requires Fifo(ops) && IsOldestActive(ops, id) && ops[id].status == Queued
    ensures Fifo(ops[id := ops[id].(status := Running, started := started)])
  {
    var r := ops[id := ops[id].(status := Running, started := started)];
    forall i | i in r && r[i].status == Running ensures IsOldestActive(r, i) {
      if i != id { assert IsOldestActive(ops, i); }
    }
  }

  lemma FifoClaim(s: State, w: Id, o: Id, configured: bool)
    requires FifoInv(s) && IsPrepared(s, w, o)
    ensures FifoInv(ClaimTo(s, w, o, configured))
  {
    var id := s.jobs[(w, o)].op;
    var r := ClaimTo(s, w, o, configured);
    if r.ops == s.ops {
      FifoQuieter(s, r);
    } else {
      StartOldest(s.ops, id, s.now);
      forall k | k in r.jobs && Waiting(r.jobs[k]) && r.jobs[k].op in r.ops && r.ops[r.jobs[k].op].status == Queued
        ensures IsOldestActive(r.ops, r.jobs[k].op)
      {
        assert IsOldestActive(s.ops, s.jobs[k].op);
      }
    }
  }

  /** Adding a queued operation keeps the order iff it sorts after the settled ones. */
  lemma FifoEnqueue(s: State, r: State, id: Id)
    requires FifoInv(s) && id !in s.ops && id in r.ops && r.ops == s.ops[id := r.ops[id]] && r.ops[id].status == Queued
    requires r.jobs == s.jobs && forall k | k in s.jobs :: s.jobs[k].op != id
    ensures FifoInv(r) <==>
            forall i | i in s.ops && s.ops[i].owner == r.ops[id].owner && Settled(s, i) :: Before(i, s.ops[i], id, r.ops[id])
  {
    if forall i | i in s.ops && s.ops[i].owner == r.ops[id].owner && Settled(s, i) :: Before(i, s.ops[i], id, r.ops[id]) {
      forall i | i in s.ops && Settled(s, i) && IsOldestActive(s.ops, i) ensures IsOldestActive(r.ops, i) {
      }
    }
    if FifoInv(r) {
      forall i | i in s.ops && s.ops[i].owner == r.ops[id].owner && Settled(s, i) ensures Before(i, s.ops[i], id, r.ops[id]) {
        assert IsOldestActive(r.ops, i) by {
          if s.ops[i].status == Queued {
            var k :| k in s.jobs && Waiting(s.jobs[k]) && s.jobs[k].op == i;
            assert k in r.jobs && r.jobs[k].op == i;
          }
        }
      }
    }
  }

  lemma {:induction false} RecoverQuieter(s: State, stale: seq<Id>)
    ensures Quieter(s, Recover(s, stale))
  {
    if stale != [] { RecoverQuieter(s, stale[..|stale| - 1]); }
  }

  lemma FifoSubmit(s: State, id: Id, task: Id, owner: Id, payload: Payload, key: Option<string>, at: int, configured: bool)
    requires Base(s) && FifoInv(s)
    ensures
      var r := SubmitTo(s, id, task, owner, payload, key, at, configured).0;
      && (id !in s.ops && id in r.ops ==>
            (FifoInv(r) <==> forall i | i in s.ops && s.ops[i].owner == r.ops[id].owner && Settled(s, i) :: Before(i, s.ops[i], id, r.ops[id])))
      && (id in s.ops || id !in r.ops ==> r == s)
  {
    var r := SubmitTo(s, id, task, owner, payload, key, at, configured).0;
    SubmitCases(s, id, task, owner, payload, key, at, configured);
    if id in s.ops { assert OpOk(s, id); }
    if id !in s.ops && id in r.ops {
      forall k | k in s.jobs ensures s.jobs[k].op != id { assert JobOk(s, k); }
      FifoEnqueue(s, r, id);
    }
  }

  /** The other steps of jobs and requests. */
  lemma OtherQuieter(s: State, step: Step)
    requires !step.Tick? && !step.Claim? && !step.Submit? && !step.Retry? && !step.RecoverStale?
    ensures Quieter(s, Next(s, step))
  {
    if step.Respond? { AnswerQuieter(s, step); }
    else if step.RunError? { ErrorQuieter(s, step); }
    else if step.CancelRun? || step.Cleanup? { EndQuieter(s, step); }
    else { IdleQuieter(s, step); }
  }

  lemma AnswerQuieter(s: State, step: Step)
    requires step.Respond?
    ensures Quieter(s, Next(s, step))
  {
  }

  lemma ErrorQuieter(s: State, step: Step)
    requires step.RunError?
    ensures Quieter(s, Next(s, step))
  {
  }

  lemma EndQuieter(s: State, step: Step)
    requires step.CancelRun? || step.Cleanup?
    ensures Quieter(s, Next(s, step))
  {
  }

  lemma IdleQuieter(s: State, step: Step)
    requires step.CreateTask? || step.EditTask? || step.CancelQueued? || step.ClearCompleted?
             || step.Prepare? || step.LeaseBusy? || step.Return? || step.Crash? || step.Pass?
    ensures Quieter(s, Next(s, step))
  {
    if IsQuiet(step) { QuietSame(s, step); } else { RequestQuieter(s, step); }
  }

  lemma RequestQuieter(s: State, step: Step)
    requires step.CreateTask? || step.EditTask? || step.CancelQueued? || step.ClearCompleted?
    ensures Quieter(s, Next(s, step))
  {
  }

  lemma FifoSubmitStep(s: State, step: Step)
    requires Base(s) && FifoInv(s) && (step.Submit? || step.Retry?)
    ensures FifoInv(Next(s, step)) <==> InOrder(s, step)
  {
    if step.Submit? { FifoSubmission(s, step); } else { FifoRetry(s, step); }
  }

  lemma FifoSubmission(s: State, step: Step)
    requires Base(s) && FifoInv(s) && step.Submit?
    ensures FifoInv(Next(s, step)) <==> InOrder(s, step)
  {
    FifoSubmit(s, step.id, step.task, step.owner, step.payload, step.key, step.at, step.configured);
  }

  lemma FifoRetry(s: State, step: Step)
    requires Base(s) && FifoInv(s) && step.Retry?
    ensures FifoInv(Next(s, step)) <==> InOrder(s, step)
  {
    if step.op in s.ops {
      FifoSubmit(s, step.id, s.ops[step.op].task, step.owner, s.ops[step.op].payload, step.key, step.at, step.configured);
    }
  }

  lemma FifoOtherStep(s: State, step: Step)
    requires FifoInv(s) && !step.Submit? && !step.Retry?
    ensures FifoInv(Next(s, step))
  {
    match step
    case Tick(worker, picks) => FifoTick(s, worker, picks);
    case Claim(w, o, configured) => if IsPrepared(s, w, o) { FifoClaim(s, w, o, configured); }
    case RecoverStale(worker, owner, stale) =>
      RecoverQuieter(s, stale);
      if Next(s, step) != s { FifoQuieter(s, Next(s, step)); }
    case _ =>
      OtherQuieter(s, step);
      FifoQuieter(s, Next(s, step));
  }

  /** One step: the order is kept iff the new operation, if any, sorts after the settled ones. */
  lemma FifoStep(s: State, step: Step)
    requires Base(s) && FifoInv(s)
    ensures FifoInv(Next(s, step)) <==> InOrder(s, step)
  {
    if step.Submit? || step.Retry? { FifoSubmitStep(s, step); } else { FifoOtherStep(s, step); }
  }

  /** A clock that never repeats for a member is enough. */
  lemma LaterIsInOrder(s: State, step: Step)
    requires Enqueued(s, step).Some?
    requires
      var op := Enqueued(s, step).value.1;
      forall i | i in s.ops && s.ops[i].owner == op.owner :: s.ops[i].created < op.created
    ensures InOrder(s, step)
  {
  }

  // ---------------------------------------------------------------- runs

  ghost predicate FifoThroughout(s: State, steps: seq<Step>) {
    forall k | 0 <= k <= |steps| :: FifoInv(Run(s, steps[..k]))
  }

  ghost predicate InOrderThroughout(s: State, steps: seq<Step>) {
    forall k | 0 <= k < |steps| :: InOrder(Run(s, steps[..k]), steps[k])
  }

  lemma {:induction false} FifoCarried(s: State, steps: seq<Step>, k: nat)
    requires Base(s) && k < |steps| && FifoInv(Run(s, steps[..k]))
    ensures FifoInv(Run(s, steps[..k + 1])) <==> InOrder(Run(s, steps[..k]), steps[k])
  {
    BaseRun(s, steps[..k]);
    RunPrefix(s, steps, k);
    FifoStep(Run(s, steps[..k]), steps[k]);
  }

  lemma {:induction false} FifoUpTo(s: State, steps: seq<Step>, k: nat)
    requires Base(s) && FifoInv(s) && InOrderThroughout(s, steps) && k <= |steps|
    ensures FifoInv(Run(s, steps[..k]))
  {
    if k > 0 {
      FifoUpTo(s, steps, k - 1);
      FifoCarried(s, steps, k - 1);
    }
  }

  /** Over every run, with any number of workers: running and picked operations are always
      their member's oldest iff submissions arrive in timestamp order. */
  lemma FifoExact(now: int, steps: seq<Step>)
    ensures FifoThroughout(Initial(now), steps) <==> InOrderThroughout(Initial(now), steps)
  {
    var s := Initial(now);
    InitialBase(now);
    if InOrderThroughout(s, steps) {
      forall k | 0 <= k <= |steps| ensures FifoInv(Run(s, steps[..k])) { FifoUpTo(s, steps, k); }
    }
    if FifoThroughout(s, steps) {
      forall k | 0 <= k < |steps| ensures InOrder(Run(s, steps[..k]), steps[k]) {
        assert FifoInv(Run(s, steps[..k])) && FifoInv(Run(s, steps[..k + 1]));
        FifoCarried(s, steps, k);
      }
    }
  }
}
