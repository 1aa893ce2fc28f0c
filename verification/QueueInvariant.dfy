/** What every step of the queue keeps, without any proviso: rows are consistent, a document
    has at most one active operation, keys are unique. */
module QueueInvariant {
  import opened Basics
  import opened Domain
  import opened Documents
  import opened DocumentFacts
  import opened Queue

  predicate OpOk(s: State, i: Id)
    requires i in s.ops
  {
    var op := s.ops[i];
    op.task in s.docs && s.docs[op.task].owner == op.owner && Allowed(op.initial, Shown(op)) && i in s.issued
  }

  /** At most one active operation per document. */
  ghost predicate OneActive(ops: map<Id, Op>) {
    forall i, j | i in ops && j in ops && ActiveOp(ops[i]) && ActiveOp(ops[j]) && ops[i].task == ops[j].task :: i == j
  }

  /** At most one operation per member, document, kind and idempotency key. */
  ghost predicate UniqueKeys(ops: map<Id, Op>) {
    forall i, j | i in ops && j in ops && ops[i].key.Some?
                  && SameScope(ops[j], ops[i].task, ops[i].owner, KindOf(ops[i].payload), ops[i].key.value) :: i == j
  }

  /** The versions a job has read are still there, in place. */
  predicate InputsOk(phase: Phase, doc: Doc) {
    match phase
    case Prepared(inputs) => inputs.versions <= doc.versions
    case Calling(inputs) => inputs.versions <= doc.versions
    case _ => true
  }

  predicate JobOk(s: State, k: (Id, Id))
    requires k in s.jobs
  {
    var job := s.jobs[k];
    job.op in s.issued
    && (job.op in s.ops ==>
          s.ops[job.op].owner == k.1 && s.ops[job.op].task in s.docs && InputsOk(job.phase, s.docs[s.ops[job.op].task]))
  }

  ghost predicate Base(s: State) {
    && (forall t | t in s.docs :: DocOk(s.docs[t]))
    && (forall i | i in s.ops :: OpOk(s, i))
    && OneActive(s.ops)
    && UniqueKeys(s.ops)
    && (forall k | k in s.jobs :: JobOk(s, k))
  }

  lemma InitialBase(now: int)
    ensures Base(Initial(now))
  {
  }

  /** These steps touch only job records and the clock. */
  predicate IsQuiet(step: Step) {
    step.Prepare? || step.LeaseBusy? || step.Return? || step.Tick? || step.Crash? || step.Pass?
  }

  lemma QuietSame(s: State, step: Step)
    requires IsQuiet(step)
    ensures Next(s, step).docs == s.docs && Next(s, step).ops == s.ops && Next(s, step).issued == s.issued
  {
  }

  // ---------------------------------------------------------------- one lemma per kind of write

  /** Only job records change, each to a good one. */
  lemma BaseJobs(s: State, jobs: map<(Id, Id), Job>)
    requires Base(s) && forall k | k in jobs :: JobOk(s.(jobs := jobs), k)
    ensures Base(s.(jobs := jobs))
  {
    var r := s.(jobs := jobs);
    assert forall i | i in r.ops :: OpOk(s, i) ==> OpOk(r, i);
  }

  lemma BaseDrop(s: State, w: Id, o: Id)
    requires Base(s)
    ensures Base(Drop(s, w, o))
  {
    var r := Drop(s, w, o);
    forall k | k in r.jobs ensures JobOk(r, k) { assert JobOk(s, k); }
    BaseJobs(s, r.jobs);
  }

  lemma BaseEnter(s: State, w: Id, o: Id, phase: Phase)
    requires Base(s) && (w, o) in s.jobs
    requires
      var op := s.jobs[(w, o)].op;
      op in s.ops && s.ops[op].task in s.docs ==> InputsOk(phase, s.docs[s.ops[op].task])
    ensures Base(Enter(s, w, o, phase))
  {
    var r := Enter(s, w, o, phase);
    assert JobOk(s, (w, o));
    forall k | k in r.jobs ensures JobOk(r, k) { if k != (w, o) { assert JobOk(s, k); } }
    BaseJobs(s, r.jobs);
  }

  /** A document is replaced by one that keeps its owner and its versions. */
  lemma BaseDoc(s: State, t: Id, doc: Doc)
    requires Base(s) && t in s.docs && DocOk(doc) && doc.owner == s.docs[t].owner && s.docs[t].versions <= doc.versions
    ensures Base(s.(docs := s.docs[t := doc]))
  {
    var r := s.(docs := s.docs[t := doc]);
    forall i | i in r.ops ensures OpOk(r, i) { assert OpOk(s, i); }
    forall k | k in r.jobs ensures JobOk(r, k) { assert JobOk(s, k); }
  }

  /** An operation changes status without becoming active again. */
  lemma BaseStatus(s: State, id: Id, status: OperationStatus, started: int)
    requires Base(s) && id in s.ops && (IsActive(status) ==> ActiveOp(s.ops[id]))
    ensures Base(s.(ops := s.ops[id := s.ops[id].(status := status, started := started)]))
  {
    var r := s.(ops := s.ops[id := s.ops[id].(status := status, started := started)]);
    assert OpOk(s, id);
    forall i | i in r.ops ensures OpOk(r, i) { assert OpOk(s, i); }
    forall k | k in r.jobs ensures JobOk(r, k) { assert JobOk(s, k); }
    assert UniqueKeys(r.ops) by {
      forall i, j | i in r.ops && j in r.ops && r.ops[i].key.Some?
                    && SameScope(r.ops[j], r.ops[i].task, r.ops[i].owner, KindOf(r.ops[i].payload), r.ops[i].key.value)
        ensures i == j
      {
        assert SameScope(s.ops[j], s.ops[i].task, s.ops[i].owner, KindOf(s.ops[i].payload), s.ops[i].key.value);
      }
    }
  }

  lemma BaseEnd(s: State, id: Id, status: OperationStatus, doc: Doc)
    requires Base(s) && id in s.ops && (IsActive(status) ==> ActiveOp(s.ops[id]))
    requires
      var t := s.ops[id].task;
      t in s.docs && DocOk(doc) && doc.owner == s.docs[t].owner && s.docs[t].versions <= doc.versions
    ensures Base(End(s, id, status, doc))
  {
    var middle := s.(ops := s.ops[id := s.ops[id].(status := status, started := s.ops[id].started)]);
    BaseStatus(s, id, status, s.ops[id].started);
    BaseDoc(middle, s.ops[id].task, doc);
    assert middle.(docs := middle.docs[s.ops[id].task := doc]) == End(s, id, status, doc);
  }

  lemma BaseReleased(s: State, id: Id)
    requires Base(s) && id in s.ops
    ensures OpOk(s, id) && DocOk(Released(s, id)) && DocOk(s.docs[s.ops[id].task].(state := s.ops[id].initial))
  {
    assert OpOk(s, id);
    SubmissionStates(s.ops[id].initial, KindOf(s.ops[id].payload));
  }

  lemma BaseRecord(s: State, id: Id, status: OperationStatus)
    requires Base(s) && !IsActive(status)
    ensures Base(Record(s, id, status))
  {
    if id in s.ops {
      BaseReleased(s, id);
      BaseEnd(s, id, status, s.docs[s.ops[id].task].(state := s.ops[id].initial));
    }
  }

  lemma {:induction false} BaseRecover(s: State, stale: seq<Id>)
    requires Base(s)
    ensures Base(Recover(s, stale)) && Recover(s, stale).jobs == s.jobs
  {
    if stale != [] {
      BaseRecover(s, stale[..|stale| - 1]);
      var before, id := Recover(s, stale[..|stale| - 1]), stale[|stale| - 1];
      if id in before.ops {
        BaseReleased(before, id);
        BaseEnd(before, id, Failed, Released(before, id));
      }
    }
  }

  lemma SnapshotFacts(doc: Doc, p: Payload)
    requires ApplySnapshot(doc, p).Ok?
    ensures var d := ApplySnapshot(doc, p).value;
      d == doc.(suggestions := d.suggestions) && SameIdeas(doc.suggestions, d.suggestions)
  {
  }

  lemma BaseEnqueue(s: State, id: Id, task: Id, owner: Id, payload: Payload, key: Option<string>, at: int)
    requires Base(s) && task in s.docs && s.docs[task].owner == owner
    requires !HasActive(s.ops, task) && Allowed(s.docs[task].state, RunningState(KindOf(payload)))
    requires ApplySnapshot(s.docs[task], payload).Ok? && id !in s.issued
    requires key.Some? ==> forall i | i in s.ops :: !SameScope(s.ops[i], task, owner, KindOf(payload), key.value)
    ensures Base(Enqueue(s, id, task, owner, payload, key, at))
  {
    var r := Enqueue(s, id, task, owner, payload, key, at);
    SnapshotFacts(s.docs[task], payload);
    SubmissionStates(s.docs[task].state, KindOf(payload));
    assert DocOk(s.docs[task]);
    forall i | i in r.ops ensures OpOk(r, i) { if i != id { assert OpOk(s, i); } }
    forall i | i in s.ops ensures i != id { assert OpOk(s, i); }
    forall k | k in r.jobs ensures JobOk(r, k) { assert JobOk(s, k); }
    assert OneActive(r.ops);
    forall i, j | i in r.ops && j in r.ops && r.ops[i].key.Some?
                  && SameScope(r.ops[j], r.ops[i].task, r.ops[i].owner, KindOf(r.ops[i].payload), r.ops[i].key.value)
      ensures i == j
    {
      if i != id && j != id {
        assert SameScope(s.ops[j], s.ops[i].task, s.ops[i].owner, KindOf(s.ops[i].payload), s.ops[i].key.value);
      }
    }
  }

  /** A submission changes nothing, or queues its operation under an unused id. */
  lemma SubmitCases(s: State, id: Id, task: Id, owner: Id, payload: Payload, key: Option<string>, at: int, configured: bool)
    ensures
      var (r, reply) := SubmitTo(s, id, task, owner, payload, key, at, configured);
      || r == s
      || (&& task in s.docs && s.docs[task].owner == owner && !HasActive(s.ops, task) && id !in s.issued
          && Allowed(s.docs[task].state, RunningState(KindOf(payload))) && ApplySnapshot(s.docs[task], payload).Ok?
          && r == Enqueue(s, id, task, owner, payload, key, at) && reply == Ok(id))
  {
  }

  lemma BaseSubmit(s: State, id: Id, task: Id, owner: Id, payload: Payload, key: Option<string>, at: int, configured: bool)
    requires Base(s)
    ensures Base(SubmitTo(s, id, task, owner, payload, key, at, configured).0)
  {
    if task in s.docs && s.docs[task].owner == owner
       && Existing(s, task, owner, KindOf(payload), key).None? && Refusal(s, id, task, payload, configured).None? {
      BaseEnqueue(s, id, task, owner, payload, key, at);
    }
  }

  lemma BaseClear(s: State, owner: Id)
    requires Base(s)
    ensures Base(ClearTo(s, owner))
  {
    var r := ClearTo(s, owner);
    forall i | i in r.ops ensures OpOk(r, i) { assert OpOk(s, i); }
    forall k | k in r.jobs ensures JobOk(r, k) { assert JobOk(s, k); }
    forall i, j | i in r.ops && j in r.ops && r.ops[i].key.Some?
                  && SameScope(r.ops[j], r.ops[i].task, r.ops[i].owner, KindOf(r.ops[i].payload), r.ops[i].key.value)
      ensures i == j
    {
      assert SameScope(s.ops[j], s.ops[i].task, s.ops[i].owner, KindOf(s.ops[i].payload), s.ops[i].key.value);
    }
  }

  lemma BaseEdit(s: State, task: Id, owner: Id, edit: Edit)
    requires Base(s)
    ensures Base(EditTo(s, task, owner, edit).0)
  {
    if task in s.docs && ApplyEdit(s.docs[task], edit).Ok? {
      assert DocOk(s.docs[task]);
      EditKeepsDoc(s.docs[task], edit);
      EditKeepsVersions(s.docs[task], edit);
      BaseDoc(s, task, ApplyEdit(s.docs[task], edit).value);
    }
  }

  lemma EditKeepsVersions(doc: Doc, edit: Edit)
    requires ApplyEdit(doc, edit).Ok?
    ensures var d := ApplyEdit(doc, edit).value; d.owner == doc.owner && doc.versions <= d.versions
  {
  }

  lemma BaseCreate(s: State, task: Id, owner: Id, source: string, settings: string)
    requires Base(s) && task !in s.docs
    ensures Base(s.(docs := s.docs[task := Doc(owner, source, settings, Draft, None, [], [], [], [], None)]))
  {
    var r := s.(docs := s.docs[task := Doc(owner, source, settings, Draft, None, [], [], [], [], None)]);
    forall i | i in r.ops ensures OpOk(r, i) { assert OpOk(s, i); }
    forall k | k in r.jobs ensures JobOk(r, k) { assert JobOk(s, k); }
  }

  lemma BaseTick(s: State, worker: Id, picks: map<Id, Id>)
    requires Base(s)
    ensures Base(Next(s, Tick(worker, picks)))
  {
    if PicksOk(s, worker, picks) {
      var r := Next(s, Tick(worker, picks));
      forall k | k in r.jobs ensures JobOk(r, k) {
        if k.0 == worker && k.1 in picks {
          assert OpOk(s, picks[k.1]);
        } else {
          assert JobOk(s, k);
        }
      }
      BaseJobs(s, r.jobs);
    }
  }

  lemma BaseClaim(s: State, w: Id, o: Id, configured: bool)
    requires Base(s) && IsPrepared(s, w, o)
    ensures Base(ClaimTo(s, w, o, configured))
  {
    var job := s.jobs[(w, o)];
    var id := job.op;
    assert JobOk(s, (w, o));
    if id !in s.ops {
      BaseEnter(s, w, o, Broken);
    } else if s.ops[id].status != Queued {
      BaseDrop(s, w, o);
    } else if !configured || s.ops[id].task !in s.docs || s.docs[s.ops[id].task].state != Shown(s.ops[id]) {
      BaseEnter(s, w, o, Broken);
    } else {
      BaseStatus(s, id, Running, s.now);
      BaseEnter(s.(ops := s.ops[id := s.ops[id].(status := Running, started := s.now)]), w, o, Calling(job.phase.inputs));
    }
  }

  lemma BaseRespond(s: State, w: Id, o: Id, reply: Reply, ids: seq<Id>)
    requires Base(s) && IsCalling(s, w, o)
    ensures Base(RespondTo(s, w, o, reply, ids))
  {
    var job := s.jobs[(w, o)];
    var id := job.op;
    assert JobOk(s, (w, o));
    if id in s.ops && s.ops[id].task in s.docs && Answer(s, id, job.phase.inputs, reply, ids).Ok? {
      var op := s.ops[id];
      assert DocOk(s.docs[op.task]);
      PersistKeepsDoc(s.docs[op.task], job.phase.inputs, op.payload, Invoke(job.phase.inputs, op.payload, reply), ids);
      var doc := Answer(s, id, job.phase.inputs, reply, ids).value.(state := SucceededState(KindOf(op.payload)));
      BaseEnd(s, id, Succeeded, doc);
      BaseEnter(End(s, id, Succeeded, doc), w, o, Saved);
    } else {
      BaseRecord(s, id, Failed);
      BaseEnter(Record(s, id, Failed), w, o, Broken);
      BaseEnter(s, w, o, Broken);
    }
  }

  lemma BaseCleanup(s: State, w: Id, o: Id)
    requires Base(s) && IsBroken(s, w, o)
    ensures Base(CleanupTo(s, w, o))
  {
    var id := s.jobs[(w, o)].op;
    if id in s.ops {
      BaseReleased(s, id);
      var status := if s.ops[id].status == Queued then Failed else s.ops[id].status;
      BaseEnd(s, id, status, Released(s, id));
      BaseDrop(End(s, id, status, Released(s, id)), w, o);
    } else {
      BaseDrop(s, w, o);
    }
  }

  /** The steps of a worker's job. */
  lemma BaseJobStep(s: State, step: Step)
    requires Base(s)
    requires step.Prepare? || step.LeaseBusy? || step.Claim? || step.Respond? || step.RunError? || step.CancelRun?
             || step.Return? || step.Cleanup?
    ensures Base(Next(s, step))
  {
    if step.Respond? || step.RunError? || step.CancelRun? || step.Cleanup? { BaseEndStep(s, step); } else { BaseEarlyStep(s, step); }
  }

  lemma BaseEarlyStep(s: State, step: Step)
    requires Base(s) && (step.Prepare? || step.LeaseBusy? || step.Claim? || step.Return?)
    ensures Base(Next(s, step))
  {
    if step.Prepare? { if IsStarted(s, step.worker, step.owner) { BasePrepare(s, step.worker, step.owner, step.ready); } }
    else if step.Claim? { if IsPrepared(s, step.worker, step.owner) { BaseClaim(s, step.worker, step.owner, step.configured); } }
    else { BaseDropStep(s, step); }
  }

  lemma BaseDropStep(s: State, step: Step)
    requires Base(s) && (step.LeaseBusy? || step.Return?)
    ensures Base(Next(s, step))
  {
    BaseDrop(s, step.worker, step.owner);
  }

  lemma BaseEndStep(s: State, step: Step)
    requires Base(s) && (step.Respond? || step.RunError? || step.CancelRun? || step.Cleanup?)
    ensures Base(Next(s, step))
  {
    match step
    case Respond(w, o, reply, ids) => if IsCalling(s, w, o) { BaseRespond(s, w, o, reply, ids); }
    case RunError(w, o) => if (w, o) in s.jobs { BaseRunError(s, w, o); }
    case CancelRun(w, o) => BaseCancelRun(s, w, o);
    case Cleanup(w, o) => if IsBroken(s, w, o) { BaseCleanup(s, w, o); }
  }

  lemma BaseCancel(s: State, owner: Id, id: Id)
    requires Base(s)
    ensures Base(CancelTo(s, owner, id).0)
  {
    if id in s.ops { BaseReleased(s, id); BaseEnd(s, id, Cancelled, Released(s, id)); }
  }

  /** Every step keeps the base invariant. */
  lemma BaseStep(s: State, step: Step)
    requires Base(s)
    ensures Base(Next(s, step))
  {
    match step
    case CreateTask(task, owner, source, settings) => if task !in s.docs { BaseCreate(s, task, owner, source, settings); }
    case EditTask(task, owner, edit) => BaseEdit(s, task, owner, edit);
    case Submit(id, task, owner, payload, key, at, configured) => BaseSubmit(s, id, task, owner, payload, key, at, configured);
    case Retry(id, op, owner, key, at, configured) =>
      if op in s.ops { BaseSubmit(s, id, s.ops[op].task, owner, s.ops[op].payload, key, at, configured); }
    case CancelQueued(owner, id) => BaseCancel(s, owner, id);
    case ClearCompleted(owner) => BaseClear(s, owner);
    case Tick(worker, picks) => BaseTick(s, worker, picks);
    case RecoverStale(worker, owner, stale) => BaseRecover(s, stale);
    case Crash(w) => BaseCrash(s, w);
    case Pass(seconds) => BasePass(s, seconds);
    case _ => BaseJobStep(s, step);
  }

  lemma BasePrepare(s: State, w: Id, o: Id, ready: bool)
    requires Base(s) && IsStarted(s, w, o)
    ensures Base(PrepareTo(s, w, o, ready))
  {
    var id := s.jobs[(w, o)].op;
    BaseDrop(s, w, o);
    BaseEnter(s, w, o, Broken);
    if id in s.ops && s.ops[id].task in s.docs { BaseEnter(s, w, o, Prepared(s.docs[s.ops[id].task])); }
  }

  lemma BaseRunError(s: State, w: Id, o: Id)
    requires Base(s) && (w, o) in s.jobs
    ensures Base(RunErrorTo(s, w, o))
  {
    var id := s.jobs[(w, o)].op;
    BaseDrop(s, w, o);
    BaseRecord(s, id, Failed);
    BaseEnter(Record(s, id, Failed), w, o, Broken);
  }

  lemma BaseCancelRun(s: State, w: Id, o: Id)
    requires Base(s)
    ensures Base(CancelRunTo(s, w, o))
  {
    BaseDrop(s, w, o);
    if (w, o) in s.jobs {
      BaseRecord(s, s.jobs[(w, o)].op, Cancelled);
      BaseDrop(Record(s, s.jobs[(w, o)].op, Cancelled), w, o);
    }
  }

  lemma BaseCrash(s: State, w: Id)
    requires Base(s)
    ensures Base(Next(s, Crash(w)))
  {
    var r := Next(s, Crash(w));
    forall k | k in r.jobs ensures JobOk(r, k) { assert JobOk(s, k); }
    BaseJobs(s, r.jobs);
  }

  lemma BasePass(s: State, seconds: nat)
    requires Base(s)
    ensures Base(Next(s, Pass(seconds)))
  {
    var r := Next(s, Pass(seconds));
    forall i | i in r.ops ensures OpOk(r, i) { assert OpOk(s, i); }
    forall k | k in r.jobs ensures JobOk(r, k) { assert JobOk(s, k); }
  }

  /** In every reachable state the rows are consistent, a document has at most one active
      operation and keys are unique, whatever workers and clients do. */
  lemma {:induction false} BaseAlways(now: int, steps: seq<Step>)
    ensures Base(Run(Initial(now), steps))
  {
    if steps == [] {
      InitialBase(now);
    } else {
      BaseAlways(now, steps[..|steps| - 1]);
      BaseStep(Run(Initial(now), steps[..|steps| - 1]), steps[|steps| - 1]);
    }
  }
}
