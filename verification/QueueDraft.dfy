/** One first draft per document, over every run, with the exact condition on each step. */
module QueueDraft {
  import opened Basics
  import opened Domain
  import opened Validation
  import opened Documents
  import opened DocumentFacts
  import opened Queue
  import opened QueueInvariant
  import opened QueueAgreement

  ghost predicate DraftAll(s: State) {
    forall t | t in s.docs :: DraftOk(s.docs[t])
  }

  /** The operation and its document stand on the same side of the first draft. */
  predicate SameSide(s: State, id: Id) {
    id in s.ops && s.ops[id].task in s.docs &&
    Drafted(Effective(s.docs[s.ops[id].task])) == Drafted(s.ops[id].initial)
  }

  /** The exact condition under which a step keeps first drafts and states together. */
  ghost predicate DraftGuard(s: State, step: Step) {
    Writes(s, step).Some? ==> SameSide(s, Writes(s, step).value)
  }

  // ---------------------------------------------------------------- one document

  lemma DraftReplace(s: State, r: State, t: Id)
    requires DraftAll(s) && t in s.docs && t in r.docs && r.docs == s.docs[t := r.docs[t]]
    ensures DraftAll(r) <==> DraftOk(r.docs[t])
  {
  }

  /** Putting a document back to an operation's initial state. */
  lemma RecordDraft(doc: Doc, initial: TaskState, kind: OperationKind)
    requires DraftOk(doc) && Allowed(initial, RunningState(kind))
    ensures DraftOk(doc.(state := initial)) <==> Drafted(Effective(doc)) == Drafted(initial)
  {
    SubmissionStates(initial, kind);
  }

  /** What a successful operation saves fits its document iff both stand on the same side. */
  lemma AnswerDraft(doc: Doc, inputs: Doc, p: Payload, initial: TaskState, reply: Reply, ids: seq<Id>)
    requires DraftOk(doc) && inputs.versions <= doc.versions && Allowed(initial, RunningState(KindOf(p)))
    requires Persist(doc, inputs, p, Invoke(inputs, p, reply), ids).Ok?
    ensures
      var saved := Persist(doc, inputs, p, Invoke(inputs, p, reply), ids).value.(state := SucceededState(KindOf(p)));
      DraftOk(saved) <==> Drafted(Effective(doc)) == Drafted(initial)
  {
    SubmissionStates(initial, KindOf(p));
    var o := Invoke(inputs, p, reply);
    if o.SaveVersion? {
      var v := Version(ids[0], o.parent, o.kind, o.content);
      if p.RevisionPayload? {
        RevisionDraft(doc, inputs, v);
      } else {
        FirstVersionDraft(doc, v);
      }
    }
  }

  lemma RevisionDraft(doc: Doc, inputs: Doc, v: Version)
    requires DraftOk(doc) && inputs.versions <= doc.versions
    requires v.kind == AiRevision && v.parent.Some? && VersionAt(inputs.versions, v.parent.value) >= 0
    ensures Rooted(doc.versions + [v]) <==> Drafted(Effective(doc))
  {
    var j := VersionAt(inputs.versions, v.parent.value);
    assert doc.versions[j] == inputs.versions[j];
    if Drafted(Effective(doc)) {
      RootedMore(doc.versions, v);
    }
  }

  lemma FirstVersionDraft(doc: Doc, v: Version)
    requires DraftOk(doc) && v.kind == FirstDraftVersion && v.parent == None
    ensures Rooted(doc.versions + [v]) <==> !Drafted(Effective(doc))
  {
    if Drafted(Effective(doc)) {
      var all := doc.versions + [v];
      assert all[|doc.versions|].kind == FirstDraftVersion && |doc.versions| > 0;
    }
  }

  // ---------------------------------------------------------------- steps

  lemma DraftRecord(s: State, id: Id, status: OperationStatus)
    requires Base(s) && DraftAll(s) && id in s.ops
    ensures DraftAll(Record(s, id, status)) <==> SameSide(s, id)
  {
    assert OpOk(s, id);
    RecordDraft(s.docs[s.ops[id].task], s.ops[id].initial, KindOf(s.ops[id].payload));
    DraftReplace(s, Record(s, id, status), s.ops[id].task);
  }

  lemma DraftRespond(s: State, w: Id, o: Id, reply: Reply, ids: seq<Id>)
    requires Base(s) && DraftAll(s) && IsCalling(s, w, o) && s.jobs[(w, o)].op in s.ops
    ensures DraftAll(RespondTo(s, w, o, reply, ids)) <==> SameSide(s, s.jobs[(w, o)].op)
  {
    var job := s.jobs[(w, o)];
    var id := job.op;
    assert OpOk(s, id) && JobOk(s, (w, o));
    var op := s.ops[id];
    if Answer(s, id, job.phase.inputs, reply, ids).Ok? {
      AnswerDraft(s.docs[op.task], job.phase.inputs, op.payload, op.initial, reply, ids);
      DraftReplace(s, RespondTo(s, w, o, reply, ids), op.task);
    } else {
      DraftRecord(s, id, Failed);
    }
  }

  /** Releasing never crosses the first draft. */
  lemma ReleasedDraft(s: State, id: Id)
    requires Base(s) && DraftAll(s) && id in s.ops
    ensures OpOk(s, id) && DraftOk(Released(s, id))
  {
    assert OpOk(s, id);
    SubmissionStates(s.ops[id].initial, KindOf(s.ops[id].payload));
    assert DraftOk(s.docs[s.ops[id].task]);
  }

  lemma DraftRelease(s: State, id: Id, status: OperationStatus)
    requires Base(s) && DraftAll(s) && id in s.ops
    ensures s.ops[id].task in s.docs && DraftAll(End(s, id, status, Released(s, id)))
  {
    ReleasedDraft(s, id);
    DraftReplace(s, End(s, id, status, Released(s, id)), s.ops[id].task);
  }

  lemma {:induction false} DraftRecover(s: State, stale: seq<Id>)
    requires Base(s) && DraftAll(s)
    ensures DraftAll(Recover(s, stale))
  {
    if stale != [] {
      var front, id := stale[..|stale| - 1], stale[|stale| - 1];
      DraftRecover(s, front);
      BaseRecover(s, front);
      if id in Recover(s, front).ops { DraftRelease(Recover(s, front), id, Failed); }
    }
  }

  lemma DraftEnqueue(s: State, id: Id, task: Id, owner: Id, payload: Payload, key: Option<string>, at: int)
    requires DraftAll(s) && task in s.docs && Allowed(s.docs[task].state, RunningState(KindOf(payload)))
    requires ApplySnapshot(s.docs[task], payload).Ok?
    ensures DraftAll(Enqueue(s, id, task, owner, payload, key, at))
  {
    SnapshotFacts(s.docs[task], payload);
    SubmissionStates(s.docs[task].state, KindOf(payload));
    assert DraftOk(s.docs[task]);
    DraftReplace(s, Enqueue(s, id, task, owner, payload, key, at), task);
  }

  lemma DraftSubmit(s: State, id: Id, task: Id, owner: Id, payload: Payload, key: Option<string>, at: int, configured: bool)
    requires DraftAll(s)
    ensures DraftAll(SubmitTo(s, id, task, owner, payload, key, at, configured).0)
  {
    if task in s.docs && s.docs[task].owner == owner
       && Existing(s, task, owner, KindOf(payload), key).None? && Refusal(s, id, task, payload, configured).None? {
      DraftEnqueue(s, id, task, owner, payload, key, at);
    }
  }

  lemma DraftEdit(s: State, task: Id, owner: Id, edit: Edit)
    requires Base(s) && DraftAll(s)
    ensures DraftAll(EditTo(s, task, owner, edit).0)
  {
    var r := EditTo(s, task, owner, edit).0;
    if r != s {
      assert DocOk(s.docs[task]) && DraftOk(s.docs[task]);
      EditKeepsDraft(s.docs[task], edit);
      DraftReplace(s, r, task);
    }
  }

  lemma DraftCleanup(s: State, w: Id, o: Id)
    requires Base(s) && DraftAll(s) && IsBroken(s, w, o)
    ensures DraftAll(CleanupTo(s, w, o))
  {
    var id := s.jobs[(w, o)].op;
    if id in s.ops { DraftRelease(s, id, if s.ops[id].status == Queued then Failed else s.ops[id].status); }
  }

  /** The requests. */
  lemma DraftRequest(s: State, step: Step)
    requires Base(s) && DraftAll(s) && IsRequest(step)
    ensures DraftAll(Next(s, step))
  {
    match step
    case CreateTask(task, owner, source, settings) =>
    case EditTask(task, owner, edit) => DraftEdit(s, task, owner, edit);
    case Submit(id, task, owner, payload, key, at, configured) => DraftSubmit(s, id, task, owner, payload, key, at, configured);
    case Retry(id, op, owner, key, at, configured) =>
      if op in s.ops { DraftSubmit(s, id, s.ops[op].task, owner, s.ops[op].payload, key, at, configured); }
    case CancelQueued(owner, id) => if id in s.ops { DraftRelease(s, id, Cancelled); }
    case ClearCompleted(owner) =>
  }

  predicate IsRequest(step: Step) {
    step.CreateTask? || step.EditTask? || step.Submit? || step.Retry? || step.CancelQueued? || step.ClearCompleted?
  }

  /** The steps that write no result. */
  lemma DraftOther(s: State, step: Step)
    requires Base(s) && DraftAll(s) && !step.Respond? && !step.RunError? && !step.CancelRun?
    ensures DraftAll(Next(s, step))
  {
    if IsRequest(step) {
      DraftRequest(s, step);
      return;
    }
    match step
    case RecoverStale(worker, owner, stale) => DraftRecover(s, stale);
    case Claim(w, o, configured) =>
    case Cleanup(w, o) => if IsBroken(s, w, o) { DraftCleanup(s, w, o); }
    case _ => QuietSame(s, step);
  }

  lemma DraftRespondStep(s: State, step: Step)
    requires Base(s) && DraftAll(s) && step.Respond?
    ensures DraftAll(Next(s, step)) <==> DraftGuard(s, step)
  {
    var w, o := step.worker, step.owner;
    if IsCalling(s, w, o) && s.jobs[(w, o)].op in s.ops { DraftRespond(s, w, o, step.reply, step.ids); }
  }

  lemma DraftRunErrorStep(s: State, step: Step)
    requires Base(s) && DraftAll(s) && step.RunError?
    ensures DraftAll(Next(s, step)) <==> DraftGuard(s, step)
  {
    var w, o := step.worker, step.owner;
    if (w, o) in s.jobs && s.jobs[(w, o)].op in s.ops { DraftRecord(s, s.jobs[(w, o)].op, Failed); }
  }

  lemma DraftCancelStep(s: State, step: Step)
    requires Base(s) && DraftAll(s) && step.CancelRun?
    ensures DraftAll(Next(s, step)) <==> DraftGuard(s, step)
  {
    var w, o := step.worker, step.owner;
    if (w, o) in s.jobs && s.jobs[(w, o)].op in s.ops { DraftRecord(s, s.jobs[(w, o)].op, Cancelled); }
  }

  /** One step: first drafts and states stay together iff the guard holds. */
  lemma DraftStep(s: State, step: Step)
    requires Base(s) && DraftAll(s)
    ensures DraftAll(Next(s, step)) <==> DraftGuard(s, step)
  {
    if step.Respond? {
      DraftRespondStep(s, step);
    } else if step.RunError? {
      DraftRunErrorStep(s, step);
    } else if step.CancelRun? {
      DraftCancelStep(s, step);
    } else {
      DraftOther(s, step);
    }
  }

  // ---------------------------------------------------------------- runs

  ghost predicate DraftThroughout(s: State, steps: seq<Step>) {
    forall k | 0 <= k <= |steps| :: DraftAll(Run(s, steps[..k]))
  }

  ghost predicate DraftGuardThroughout(s: State, steps: seq<Step>) {
    forall k | 0 <= k < |steps| :: DraftGuard(Run(s, steps[..k]), steps[k])
  }

  lemma {:induction false} DraftCarried(s: State, steps: seq<Step>, k: nat)
    requires Base(s) && k < |steps| && DraftAll(Run(s, steps[..k]))
    ensures DraftAll(Run(s, steps[..k + 1])) <==> DraftGuard(Run(s, steps[..k]), steps[k])
  {
    BaseRun(s, steps[..k]);
    RunPrefix(s, steps, k);
    DraftStep(Run(s, steps[..k]), steps[k]);
  }

  lemma {:induction false} DraftUpTo(s: State, steps: seq<Step>, k: nat)
    requires Base(s) && DraftAll(s) && DraftGuardThroughout(s, steps) && k <= |steps|
    ensures DraftAll(Run(s, steps[..k]))
  {
    if k > 0 {
      DraftUpTo(s, steps, k - 1);
      DraftCarried(s, steps, k - 1);
    }
  }

  /** Over every run: each document has its one first draft exactly in the states that need
      it, in every state of the run, iff every result was written on the right side. */
  lemma DraftExact(now: int, steps: seq<Step>)
    ensures DraftThroughout(Initial(now), steps) <==> DraftGuardThroughout(Initial(now), steps)
  {
    var s := Initial(now);
    InitialBase(now);
    if DraftGuardThroughout(s, steps) {
      forall k | 0 <= k <= |steps| ensures DraftAll(Run(s, steps[..k])) { DraftUpTo(s, steps, k); }
    }
    if DraftThroughout(s, steps) {
      forall k | 0 <= k < |steps| ensures DraftGuard(Run(s, steps[..k]), steps[k]) {
        assert DraftAll(Run(s, steps[..k])) && DraftAll(Run(s, steps[..k + 1]));
        DraftCarried(s, steps, k);
      }
    }
  }
}
