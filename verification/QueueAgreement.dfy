/** When a document's state agrees with its queue. The code writes three results without
    looking at the operation's status, so agreement can be lost; the exact condition on each
    step, and hence on a whole run, is stated and proved in both directions. */
module QueueAgreement {
  import opened Basics
  import opened Domain
  import opened Documents
  import opened DocumentFacts
  import opened Queue
  import opened QueueInvariant

  /** A document shows a running state only for an active operation, and the active operation
      is the one it shows; it was never archived while running. */
  ghost predicate AgreeAt(s: State, t: Id)
    requires t in s.docs
  {
    && (IsRunning(s.docs[t].state) ==> HasActive(s.ops, t))
    && (forall i | i in s.ops && s.ops[i].task == t && ActiveOp(s.ops[i]) :: s.docs[t].state == Shown(s.ops[i]))
    && (s.docs[t].archivedFrom.Some? ==> !IsRunning(s.docs[t].archivedFrom.value))
  }

  ghost predicate Agree(s: State) {
    forall t | t in s.docs :: AgreeAt(s, t)
  }

  /** So a document shows a running state exactly while it has an active operation. */
  lemma RunningIffActive(s: State, t: Id)
    requires Agree(s) && t in s.docs
    ensures IsRunning(s.docs[t].state) <==> HasActive(s.ops, t)
  {
    assert AgreeAt(s, t);
    if HasActive(s.ops, t) {
      var i :| i in s.ops && s.ops[i].task == t && ActiveOp(s.ops[i]);
      assert s.docs[t].state == Shown(s.ops[i]);
    }
  }

  /** No operation other than `id` is active on its document. */
  ghost predicate Alone(s: State, id: Id)
    requires id in s.ops
  {
    forall j | j in s.ops && s.ops[j].task == s.ops[id].task && ActiveOp(s.ops[j]) :: j == id
  }

  /** The operation whose result the step is about to write, if any. */
  function Writes(s: State, step: Step): (id: Option<Id>)
    ensures id.Some? ==> id.value in s.ops
  {
    match step
    case Respond(w, o, _, _) => if IsCalling(s, w, o) then Known(s, s.jobs[(w, o)].op) else None
    case RunError(w, o) =>
      if IsCalling(s, w, o) || IsSaved(s, w, o) then
        var id := Known(s, s.jobs[(w, o)].op);
        if id.Some? && s.ops[id.value].status == Succeeded then None else id
      else None
    case CancelRun(w, o) => if IsCalling(s, w, o) || IsSaved(s, w, o) then Known(s, s.jobs[(w, o)].op) else None
    case _ => None
  }

  function Known(s: State, id: Id): (r: Option<Id>)
    ensures r.Some? ==> r.value in s.ops
  {
    if id in s.ops then Some(id) else None
  }

  /** The clean-up resets a document only for an operation that is still queued. */
  predicate CleanupJustified(s: State, step: Step) {
    step.Cleanup? && IsBroken(s, step.worker, step.owner) ==>
      var id := s.jobs[(step.worker, step.owner)].op;
      id in s.ops && s.ops[id].task in s.docs && s.docs[s.ops[id].task].state == Shown(s.ops[id]) ==> s.ops[id].status == Queued
  }

  /** The exact condition under which a step keeps agreement. */
  ghost predicate Guard(s: State, step: Step) {
    && (Writes(s, step).Some? ==> Alone(s, Writes(s, step).value))
    && CleanupJustified(s, step)
  }

  // ---------------------------------------------------------------- locality

  /** The two states differ at most in document `t` and its operations. */
  ghost predicate OnlyAt(s: State, r: State, t: Id) {
    && r.docs.Keys == s.docs.Keys
    && (forall u | u in s.docs && u != t :: r.docs[u] == s.docs[u])
    && (forall i | i in s.ops && s.ops[i].task != t :: i in r.ops && r.ops[i] == s.ops[i])
    && (forall i | i in r.ops && r.ops[i].task != t :: i in s.ops && r.ops[i] == s.ops[i])
  }

  lemma AgreeLocal(s: State, r: State, t: Id)
    requires Agree(s) && OnlyAt(s, r, t) && t in s.docs
    ensures Agree(r) <==> AgreeAt(r, t)
  {
    forall u | u in r.docs && u != t ensures AgreeAt(r, u) {
      assert AgreeAt(s, u);
      if HasActive(s.ops, u) {
        var i :| i in s.ops && s.ops[i].task == u && ActiveOp(s.ops[i]);
        assert i in r.ops && r.ops[i].task == u && ActiveOp(r.ops[i]);
      }
    }
  }

  lemma EndOnlyAt(s: State, id: Id, status: OperationStatus, doc: Doc)
    requires id in s.ops && s.ops[id].task in s.docs
    ensures OnlyAt(s, End(s, id, status, doc), s.ops[id].task)
  {
  }

  /** Ending an operation with its document at rest keeps agreement iff it was alone. */
  lemma AgreeEnd(s: State, id: Id, status: OperationStatus, doc: Doc)
    requires Agree(s) && id in s.ops && s.ops[id].task in s.docs && !IsActive(status)
    requires !IsRunning(doc.state) && doc.archivedFrom == s.docs[s.ops[id].task].archivedFrom
    ensures Agree(End(s, id, status, doc)) <==> Alone(s, id)
  {
    var t, r := s.ops[id].task, End(s, id, status, doc);
    EndOnlyAt(s, id, status, doc);
    AgreeLocal(s, r, t);
    assert AgreeAt(s, t);
    if Alone(s, id) {
      assert forall j | j in r.ops && r.ops[j].task == t :: !ActiveOp(r.ops[j]);
    } else {
      var j :| j in s.ops && s.ops[j].task == t && ActiveOp(s.ops[j]) && j != id;
      assert j in r.ops && r.ops[j] == s.ops[j] && r.docs[t].state != Shown(r.ops[j]);
    }
  }

  /** An active operation is alone on its document, which shows it. */
  lemma ActiveIsAlone(s: State, id: Id)
    requires Base(s) && Agree(s) && id in s.ops && ActiveOp(s.ops[id])
    ensures OpOk(s, id) && Alone(s, id) && s.docs[s.ops[id].task].state == Shown(s.ops[id])
    ensures Released(s, id) == s.docs[s.ops[id].task].(state := s.ops[id].initial) && !IsRunning(s.ops[id].initial)
  {
    assert OpOk(s, id);
    assert AgreeAt(s, s.ops[id].task);
    SubmissionStates(s.ops[id].initial, KindOf(s.ops[id].payload));
  }

  /** Releasing an active operation keeps agreement. */
  lemma AgreeRelease(s: State, id: Id, status: OperationStatus)
    requires Base(s) && Agree(s) && id in s.ops && ActiveOp(s.ops[id]) && !IsActive(status)
    ensures s.ops[id].task in s.docs && Agree(End(s, id, status, Released(s, id)))
  {
    ActiveIsAlone(s, id);
    AgreeEnd(s, id, status, Released(s, id));
  }

  // ---------------------------------------------------------------- steps

  lemma AgreeJobs(s: State, r: State)
    requires Agree(s) && r.docs == s.docs && r.ops == s.ops
    ensures Agree(r)
  {
    forall t | t in r.docs ensures AgreeAt(r, t) { assert AgreeAt(s, t); }
  }

  lemma AgreeJobsIff(s: State, r: State)
    requires r.docs == s.docs && r.ops == s.ops
    ensures Agree(r) <==> Agree(s)
  {
    if Agree(s) { AgreeJobs(s, r); }
    if Agree(r) { AgreeJobs(r, s); }
  }

  lemma AgreeRecord(s: State, id: Id, status: OperationStatus)
    requires Base(s) && Agree(s) && id in s.ops && !IsActive(status)
    ensures Agree(Record(s, id, status)) <==> Alone(s, id)
  {
    assert OpOk(s, id);
    SubmissionStates(s.ops[id].initial, KindOf(s.ops[id].payload));
    AgreeEnd(s, id, status, s.docs[s.ops[id].task].(state := s.ops[id].initial));
  }

  lemma AgreeRespond(s: State, w: Id, o: Id, reply: Reply, ids: seq<Id>)
    requires Base(s) && Agree(s) && IsCalling(s, w, o) && s.jobs[(w, o)].op in s.ops
    ensures Agree(RespondTo(s, w, o, reply, ids)) <==> Alone(s, s.jobs[(w, o)].op)
  {
    var job := s.jobs[(w, o)];
    var id := job.op;
    assert OpOk(s, id);
    var op := s.ops[id];
    var answer := Answer(s, id, job.phase.inputs, reply, ids);
    if answer.Ok? {
      assert DocOk(s.docs[op.task]);
      PersistKeepsDoc(s.docs[op.task], job.phase.inputs, op.payload, Invoke(job.phase.inputs, op.payload, reply), ids);
      SubmissionStates(op.initial, KindOf(op.payload));
      var doc := answer.value.(state := SucceededState(KindOf(op.payload)));
      AgreeEnd(s, id, Succeeded, doc);
      AgreeJobsIff(End(s, id, Succeeded, doc), RespondTo(s, w, o, reply, ids));
    } else {
      AgreeRecord(s, id, Failed);
      AgreeJobsIff(Record(s, id, Failed), RespondTo(s, w, o, reply, ids));
    }
  }

  lemma AgreeCleanup(s: State, w: Id, o: Id)
    requires Base(s) && Agree(s) && IsBroken(s, w, o)
    ensures Agree(CleanupTo(s, w, o)) <==> CleanupJustified(s, Cleanup(w, o))
  {
    var id := s.jobs[(w, o)].op;
    if id !in s.ops {
      AgreeJobs(s, CleanupTo(s, w, o));
    } else {
      assert OpOk(s, id);
      var op := s.ops[id];
      var status := if op.status == Queued then Failed else op.status;
      var r := End(s, id, status, Released(s, id));
      AgreeJobsIff(r, CleanupTo(s, w, o));
      if op.status == Queued {
        AgreeRelease(s, id, Failed);
      } else if s.docs[op.task].state == Shown(op) {
        AgreeCleanupBreaks(s, id);
      } else {
        AgreeCleanupIdle(s, id);
      }
    }
  }

  /** A document that shows something else is left alone. */
  lemma AgreeCleanupIdle(s: State, id: Id)
    requires Agree(s) && id in s.ops && s.ops[id].task in s.docs && s.docs[s.ops[id].task].state != Shown(s.ops[id])
    ensures Agree(End(s, id, s.ops[id].status, Released(s, id)))
  {
    var r := End(s, id, s.ops[id].status, Released(s, id));
    assert r.docs == s.docs && r.ops == s.ops;
    AgreeJobs(s, r);
  }

  /** Resetting the document of an operation that is no longer queued strands whichever
      operation the document shows. */
  lemma AgreeCleanupBreaks(s: State, id: Id)
    requires Agree(s) && id in s.ops && s.ops[id].status != Queued && s.ops[id].task in s.docs
    requires Allowed(s.ops[id].initial, Shown(s.ops[id]))
    requires s.docs[s.ops[id].task].state == Shown(s.ops[id])
    ensures !Agree(End(s, id, s.ops[id].status, Released(s, id)))
  {
    var t := s.ops[id].task;
    var r := End(s, id, s.ops[id].status, Released(s, id));
    assert AgreeAt(s, t);
    SubmissionStates(s.ops[id].initial, KindOf(s.ops[id].payload));
    var j :| j in s.ops && s.ops[j].task == t && ActiveOp(s.ops[j]);
    assert r.ops == s.ops && !IsRunning(r.docs[t].state);
    assert r.docs[t].state != Shown(r.ops[j]);
    assert !AgreeAt(r, t);
  }

  lemma AgreeEnqueue(s: State, id: Id, task: Id, owner: Id, payload: Payload, key: Option<string>, at: int)
    requires Agree(s) && task in s.docs && !HasActive(s.ops, task) && id !in s.ops
    requires ApplySnapshot(s.docs[task], payload).Ok?
    ensures Agree(Enqueue(s, id, task, owner, payload, key, at))
  {
    var r := Enqueue(s, id, task, owner, payload, key, at);
    SnapshotFacts(s.docs[task], payload);
    AgreeLocal(s, r, task);
    assert AgreeAt(s, task);
    assert id in r.ops && r.ops[id].task == task && ActiveOp(r.ops[id]);
    assert forall i | i in r.ops && r.ops[i].task == task && ActiveOp(r.ops[i]) :: i == id;
  }

  lemma AgreeSubmit(s: State, id: Id, task: Id, owner: Id, payload: Payload, key: Option<string>, at: int, configured: bool)
    requires Base(s) && Agree(s)
    ensures Agree(SubmitTo(s, id, task, owner, payload, key, at, configured).0)
  {
    SubmitCases(s, id, task, owner, payload, key, at, configured);
    if SubmitTo(s, id, task, owner, payload, key, at, configured).0 != s {
      assert id in s.ops ==> OpOk(s, id);
      AgreeEnqueue(s, id, task, owner, payload, key, at);
    }
  }

  /** An edit of a document at rest leaves it at rest. */
  lemma AgreeEdit(s: State, task: Id, owner: Id, edit: Edit)
    requires Agree(s)
    ensures Agree(EditTo(s, task, owner, edit).0)
  {
    if task in s.docs && !HasActive(s.ops, task) && ApplyEdit(s.docs[task], edit).Ok? {
      assert AgreeAt(s, task);
      EditAtRest(s.docs[task], edit);
      AgreeAtRest(s, task, ApplyEdit(s.docs[task], edit).value);
    }
  }

  lemma AgreeAtRest(s: State, task: Id, doc: Doc)
    requires Agree(s) && task in s.docs && !HasActive(s.ops, task) && !IsRunning(doc.state)
    requires doc.archivedFrom.Some? ==> !IsRunning(doc.archivedFrom.value)
    ensures Agree(s.(docs := s.docs[task := doc]))
  {
    AgreeLocal(s, s.(docs := s.docs[task := doc]), task);
    assert AgreeAt(s, task);
  }

  lemma EditAtRest(doc: Doc, edit: Edit)
    requires ApplyEdit(doc, edit).Ok? && !IsRunning(doc.state)
    requires doc.archivedFrom.Some? ==> !IsRunning(doc.archivedFrom.value)
    ensures var d := ApplyEdit(doc, edit).value;
      !IsRunning(d.state) && (d.archivedFrom.Some? ==> !IsRunning(d.archivedFrom.value))
  {
  }

  lemma {:induction false} RecoverUntouched(s: State, stale: seq<Id>, id: Id)
    requires id !in stale
    ensures (id in Recover(s, stale).ops <==> id in s.ops) && (id in s.ops ==> Recover(s, stale).ops[id] == s.ops[id])
  {
    if stale != [] { RecoverUntouched(s, stale[..|stale| - 1], id); }
  }

  /** Recovering running operations keeps agreement: no document is left stuck. */
  lemma {:induction false} AgreeRecover(s: State, stale: seq<Id>)
    requires Base(s) && Agree(s) && Distinct(stale)
    requires forall i | i in stale :: i in s.ops && ActiveOp(s.ops[i])
    ensures Agree(Recover(s, stale))
  {
    if stale != [] {
      var front, id := stale[..|stale| - 1], stale[|stale| - 1];
      AgreeRecover(s, front);
      BaseRecover(s, front);
      RecoverUntouched(s, front, id);
      AgreeRecoverOne(s, stale, Recover(s, front), id);
    }
  }

  lemma AgreeRecoverOne(s: State, stale: seq<Id>, before: State, id: Id)
    requires stale != [] && before == Recover(s, stale[..|stale| - 1]) && id == stale[|stale| - 1]
    requires Base(before) && Agree(before) && id in before.ops && ActiveOp(before.ops[id])
    ensures Agree(Recover(s, stale))
  {
    AgreeRelease(before, id, Failed);
  }

  lemma AgreeClear(s: State, owner: Id)
    requires Agree(s)
    ensures Agree(ClearTo(s, owner))
  {
    var r := ClearTo(s, owner);
    forall t | t in r.docs ensures AgreeAt(r, t) {
      assert AgreeAt(s, t);
      if HasActive(s.ops, t) {
        var i :| i in s.ops && s.ops[i].task == t && ActiveOp(s.ops[i]);
        assert i in r.ops && r.ops[i].task == t && ActiveOp(r.ops[i]);
      }
    }
  }

  lemma AgreeCreate(s: State, task: Id, owner: Id, source: string, settings: string)
    requires Base(s) && Agree(s) && task !in s.docs
    ensures Agree(Next(s, CreateTask(task, owner, source, settings)))
  {
    var r := Next(s, CreateTask(task, owner, source, settings));
    forall i | i in s.ops ensures s.ops[i].task != task { assert OpOk(s, i); }
    forall t | t in r.docs ensures AgreeAt(r, t) { if t != task { assert AgreeAt(s, t); } }
  }

  lemma AgreeClaim(s: State, w: Id, o: Id, configured: bool)
    requires Agree(s) && IsPrepared(s, w, o)
    ensures Agree(ClaimTo(s, w, o, configured))
  {
    var id := s.jobs[(w, o)].op;
    var r := ClaimTo(s, w, o, configured);
    if r.ops == s.ops {
      AgreeJobs(s, r);
    } else {
      var t := s.ops[id].task;
      AgreeLocal(s, r, t);
      assert AgreeAt(s, t);
      assert id in r.ops && r.ops[id].task == t && ActiveOp(r.ops[id]);
    }
  }

  lemma AgreeCancel(s: State, owner: Id, id: Id)
    requires Base(s) && Agree(s)
    ensures Agree(CancelTo(s, owner, id).0)
  {
    if id in s.ops && s.ops[id].status == Queued { AgreeRelease(s, id, Cancelled); }
  }

  lemma AgreeRunError(s: State, w: Id, o: Id)
    requires Base(s) && Agree(s) && (w, o) in s.jobs
    ensures
      var id := s.jobs[(w, o)].op;
      Agree(RunErrorTo(s, w, o)) <==> (id in s.ops && s.ops[id].status != Succeeded ==> Alone(s, id))
  {
    var id := s.jobs[(w, o)].op;
    if id in s.ops && s.ops[id].status != Succeeded {
      AgreeRecord(s, id, Failed);
      AgreeJobsIff(Record(s, id, Failed), RunErrorTo(s, w, o));
    } else {
      AgreeJobs(s, RunErrorTo(s, w, o));
    }
  }

  lemma AgreeCancelRun(s: State, w: Id, o: Id)
    requires Base(s) && Agree(s)
    ensures
      Agree(CancelRunTo(s, w, o)) <==>
      ((IsCalling(s, w, o) || IsSaved(s, w, o)) && s.jobs[(w, o)].op in s.ops ==> Alone(s, s.jobs[(w, o)].op))
  {
    if (IsCalling(s, w, o) || IsSaved(s, w, o)) && s.jobs[(w, o)].op in s.ops {
      var id := s.jobs[(w, o)].op;
      AgreeRecord(s, id, Cancelled);
      AgreeJobsIff(Record(s, id, Cancelled), CancelRunTo(s, w, o));
    } else {
      AgreeJobs(s, CancelRunTo(s, w, o));
    }
  }

  lemma AgreeRespondStep(s: State, step: Step)
    requires Base(s) && Agree(s) && step.Respond?
    ensures Agree(Next(s, step)) <==> (Writes(s, step).Some? ==> Alone(s, Writes(s, step).value))
  {
    var w, o := step.worker, step.owner;
    if IsCalling(s, w, o) {
      if s.jobs[(w, o)].op in s.ops {
        AgreeRespond(s, w, o, step.reply, step.ids);
      } else {
        AgreeJobs(s, RespondTo(s, w, o, step.reply, step.ids));
      }
    }
  }

  lemma AgreeRunErrorStep(s: State, step: Step)
    requires Base(s) && Agree(s) && step.RunError?
    ensures Agree(Next(s, step)) <==> (Writes(s, step).Some? ==> Alone(s, Writes(s, step).value))
  {
    var w, o := step.worker, step.owner;
    if IsCalling(s, w, o) || IsSaved(s, w, o) {
      AgreeRunError(s, w, o);
      RunErrorWrites(s, step);
    }
  }

  /** The handler writes for a row that is there and has not succeeded. */
  lemma RunErrorWrites(s: State, step: Step)
    requires step.RunError? && (IsCalling(s, step.worker, step.owner) || IsSaved(s, step.worker, step.owner))
    ensures Next(s, step) == RunErrorTo(s, step.worker, step.owner)
    ensures
      var id := s.jobs[(step.worker, step.owner)].op;
      Writes(s, step) == if id in s.ops && s.ops[id].status != Succeeded then Some(id) else None
  {
  }

  lemma AgreeSubmitStep(s: State, step: Step)
    requires Base(s) && Agree(s) && (step.Submit? || step.Retry?)
    ensures Agree(Next(s, step))
  {
    match step
    case Submit(id, task, owner, payload, key, at, configured) => AgreeSubmit(s, id, task, owner, payload, key, at, configured);
    case Retry(id, op, owner, key, at, configured) =>
      if op in s.ops { AgreeSubmit(s, id, s.ops[op].task, owner, s.ops[op].payload, key, at, configured); }
  }

  /** The requests keep agreement; so do recovery and clearing. */
  lemma AgreeRequest(s: State, step: Step)
    requires Base(s) && Agree(s)
    requires step.CreateTask? || step.EditTask? || step.Submit? || step.Retry? || step.CancelQueued?
             || step.ClearCompleted? || step.RecoverStale?
    ensures Agree(Next(s, step))
  {
    match step
    case CreateTask(task, owner, source, settings) => if task !in s.docs { AgreeCreate(s, task, owner, source, settings); }
    case EditTask(task, owner, edit) => AgreeEdit(s, task, owner, edit);
    case Submit(_, _, _, _, _, _, _) => AgreeSubmitStep(s, step);
    case Retry(_, _, _, _, _, _) => AgreeSubmitStep(s, step);
    case CancelQueued(owner, id) => AgreeCancel(s, owner, id);
    case ClearCompleted(owner) => AgreeClear(s, owner);
    case RecoverStale(worker, owner, stale) => if Next(s, step) != s { AgreeRecover(s, stale); }
  }

  /** One step from an agreeing state: the next state agrees iff the guard holds. */
  lemma AgreeStep(s: State, step: Step)
    requires Base(s) && Agree(s)
    ensures Agree(Next(s, step)) <==> Guard(s, step)
  {
    if step.Respond? {
      AgreeRespondStep(s, step);
    } else if step.RunError? {
      AgreeRunErrorStep(s, step);
    } else if step.CancelRun? {
      AgreeCancelRun(s, step.worker, step.owner);
    } else if step.Cleanup? {
      if IsBroken(s, step.worker, step.owner) { AgreeCleanup(s, step.worker, step.owner); }
    } else if step.CreateTask? || step.EditTask? || step.Submit? || step.Retry? || step.CancelQueued?
              || step.ClearCompleted? || step.RecoverStale? {
      AgreeRequest(s, step);
    } else if step.Claim? {
      if IsPrepared(s, step.worker, step.owner) { AgreeClaim(s, step.worker, step.owner, step.configured); }
    } else {
      QuietSame(s, step);
      AgreeJobs(s, Next(s, step));
    }
  }

  // ---------------------------------------------------------------- runs

  ghost predicate AgreeThroughout(s: State, steps: seq<Step>) {
    forall k | 0 <= k <= |steps| :: Agree(Run(s, steps[..k]))
  }

  ghost predicate GuardThroughout(s: State, steps: seq<Step>) {
    forall k | 0 <= k < |steps| :: Guard(Run(s, steps[..k]), steps[k])
  }

  lemma {:induction false} BaseRun(s: State, steps: seq<Step>)
    requires Base(s)
    ensures Base(Run(s, steps))
  {
    if steps != [] {
      BaseRun(s, steps[..|steps| - 1]);
      BaseStep(Run(s, steps[..|steps| - 1]), steps[|steps| - 1]);
    }
  }

  lemma {:induction false} RunSnoc(s: State, steps: seq<Step>, step: Step)
    ensures Run(s, steps + [step]) == Next(Run(s, steps), step)
  {
    assert (steps + [step])[..|steps|] == steps;
  }

  lemma RunPrefix(s: State, steps: seq<Step>, k: nat)
    requires k < |steps|
    ensures Run(s, steps[..k + 1]) == Next(Run(s, steps[..k]), steps[k])
  {
    assert steps[..k + 1][..k] == steps[..k];
  }

  lemma {:induction false} AgreeCarried(s: State, steps: seq<Step>, k: nat)
    requires Base(s) && k < |steps| && Agree(Run(s, steps[..k]))
    ensures Agree(Run(s, steps[..k + 1])) <==> Guard(Run(s, steps[..k]), steps[k])
  {
    BaseRun(s, steps[..k]);
    RunPrefix(s, steps, k);
    AgreeStep(Run(s, steps[..k]), steps[k]);
  }

  lemma {:induction false} AgreeUpTo(s: State, steps: seq<Step>, k: nat)
    requires Base(s) && Agree(s) && GuardThroughout(s, steps) && k <= |steps|
    ensures Agree(Run(s, steps[..k]))
  {
    if k > 0 {
      AgreeUpTo(s, steps, k - 1);
      AgreeNext(s, steps, k - 1, k);
    }
  }

  lemma AgreeNext(s: State, steps: seq<Step>, j: nat, k: nat)
    requires Base(s) && GuardThroughout(s, steps) && k == j + 1 <= |steps| && Agree(Run(s, steps[..j]))
    ensures Agree(Run(s, steps[..k]))
  {
    AgreeCarried(s, steps, j);
  }

  /** A run agrees in every state iff every one of its steps meets the guard. */
  lemma AgreementExact(now: int, steps: seq<Step>)
    ensures AgreeThroughout(Initial(now), steps) <==> GuardThroughout(Initial(now), steps)
  {
    var s := Initial(now);
    InitialBase(now);
    if GuardThroughout(s, steps) {
      forall k | 0 <= k <= |steps| ensures Agree(Run(s, steps[..k])) { AgreeUpTo(s, steps, k); }
    }
    if AgreeThroughout(s, steps) {
      forall k | 0 <= k < |steps| ensures Guard(Run(s, steps[..k]), steps[k]) {
        assert Agree(Run(s, steps[..k])) && Agree(Run(s, steps[..k + 1]));
        AgreeCarried(s, steps, k);
      }
    }
  }
}
