/** Locks at the commit, over every run and without any proviso on it. The locks of a document
    are frozen while an operation is active, so a text that was checked against the locks read
    before the provider call holds the locks in force when it is saved; the one exception is
    the answer of an operation that has ended in the meantime, and it is stated exactly. */
module QueueLocks {
  import opened Basics
  import opened Domain
  import opened Validation
  import opened Documents
  import opened DocumentFacts
  import opened Queue
  import opened QueueInvariant
  import opened QueueAgreement
  import opened QueueFreeze

  // ---------------------------------------------------------------- the invariant

  predicate FirstIsDraft(versions: seq<Version>) {
    versions != [] ==> versions[0].kind == FirstDraftVersion
  }

  /** What a job has read: a sound document, and the locks of its document while its operation
      is active. */
  predicate InputsFit(s: State, k: (Id, Id))
    requires k in s.jobs
  {
    var job := s.jobs[k];
    HasInputs(job) ==>
      && DocOk(job.phase.inputs) && FirstIsDraft(job.phase.inputs.versions)
      && (job.op in s.ops && ActiveOp(s.ops[job.op]) ==>
            s.ops[job.op].task in s.docs && job.phase.inputs.locks == s.docs[s.ops[job.op].task].locks)
  }

  ghost predicate LocksRead(s: State) {
    && (forall t | t in s.docs :: FirstIsDraft(s.docs[t].versions))
    && (forall k | k in s.jobs :: InputsFit(s, k))
  }

  lemma EditFirst(s: State, step: Step, t: Id)
    requires t in s.docs && step.EditTask? && FirstIsDraft(s.docs[t].versions)
    ensures t in Next(s, step).docs && FirstIsDraft(Next(s, step).docs[t].versions)
  {
  }

  lemma PersistFirst(doc: Doc, inputs: Doc, p: Payload, reply: Reply, ids: seq<Id>)
    requires FirstIsDraft(doc.versions) && inputs.versions <= doc.versions
    requires Persist(doc, inputs, p, Invoke(inputs, p, reply), ids).Ok?
    ensures FirstIsDraft(Persist(doc, inputs, p, Invoke(inputs, p, reply), ids).value.versions)
  {
  }

  lemma AnswerFirst(s: State, step: Step, t: Id)
    requires Base(s) && t in s.docs && Answers(s, step, t) && FirstIsDraft(s.docs[t].versions)
    ensures t in Next(s, step).docs && FirstIsDraft(Next(s, step).docs[t].versions)
  {
    var k := (step.worker, step.owner);
    var id, inputs := Writes(s, step).value, s.jobs[k].phase.inputs;
    assert JobOk(s, k);
    var answer := Answer(s, id, inputs, step.reply, step.ids);
    RespondShows(s, step, id, answer);
    SameVersions(Next(s, step).docs[t], if answer.Ok? then answer.value else s.docs[t]);
    if answer.Ok? { PersistFirst(s.docs[t], inputs, s.ops[id].payload, step.reply, step.ids); }
  }

  lemma SameVersions(a: Doc, b: Doc)
    requires Content(a) == Content(b)
    ensures a.versions == b.versions && a.locks == b.locks
  {
    assert Content(a).versions == a.versions && Content(b).versions == b.versions;
    assert Content(a).locks == a.locks && Content(b).locks == b.locks;
  }

  lemma FirstStep(s: State, step: Step, t: Id)
    requires Base(s) && LocksRead(s) && t in Next(s, step).docs
    ensures FirstIsDraft(Next(s, step).docs[t].versions)
  {
    if t !in s.docs { NewDocEmpty(s, step, t); }
    else if Answers(s, step, t) { AnswerFirst(s, step, t); }
    else if step.EditTask? { EditFirst(s, step, t); }
    else if step.Submit? || step.Retry? { SubmitVersions(s, step, t); }
    else { VersionsUntouched(s, step, t); }
  }

  lemma InputsStep(s: State, step: Step, k: (Id, Id))
    requires Base(s) && LocksRead(s) && k in Next(s, step).jobs
    ensures InputsFit(Next(s, step), k)
  {
    var r := Next(s, step);
    JobsFollowStep(s, step);
    var job := r.jobs[k];
    if HasInputs(job) && k in s.jobs && HasInputs(s.jobs[k]) && job.op == s.jobs[k].op && job.phase.inputs == s.jobs[k].phase.inputs {
      assert InputsFit(s, k) && JobOk(s, k);
      if job.op in r.ops && ActiveOp(r.ops[job.op]) { LocksFollow(s, step, job.op); }
    } else if HasInputs(job) {
      assert DocOk(s.docs[s.ops[job.op].task]);
    }
  }

  /** The locks of an operation's document do not change while it stays active. */
  lemma LocksFollow(s: State, step: Step, i: Id)
    requires Base(s) && i in s.issued && i in Next(s, step).ops && ActiveOp(Next(s, step).ops[i])
    ensures i in s.ops && ActiveOp(s.ops[i]) && s.ops[i].task in s.docs && Next(s, step).ops[i].task == s.ops[i].task
    ensures s.ops[i].task in Next(s, step).docs && Next(s, step).docs[s.ops[i].task].locks == s.docs[s.ops[i].task].locks
  {
    OpsContinue(s, step, i);
    assert OpOk(s, i);
    CoreFrozenStep(s, step, s.ops[i].task);
  }

  lemma LocksReadStep(s: State, step: Step)
    requires Base(s) && LocksRead(s)
    ensures LocksRead(Next(s, step))
  {
    var r := Next(s, step);
    forall t | t in r.docs ensures FirstIsDraft(r.docs[t].versions) { FirstStep(s, step, t); }
    forall k | k in r.jobs ensures InputsFit(r, k) { InputsStep(s, step, k); }
  }

  lemma {:induction false} LocksReadAlways(now: int, steps: seq<Step>)
    ensures LocksRead(Run(Initial(now), steps))
  {
    if steps != [] {
      var front := steps[..|steps| - 1];
      LocksReadAlways(now, front);
      BaseAlways(now, front);
      LocksReadStep(Run(Initial(now), front), steps[|steps| - 1]);
    }
  }

  // ---------------------------------------------------------------- what an answer saves

  /** The step saves a version for an operation on `t` that has ended already, and its text
      misses a current lock. */
  ghost predicate SavesUnheld(s: State, step: Step, t: Id) {
    Answers(s, step, t) &&
    var id, inputs := Writes(s, step).value, s.jobs[(step.worker, step.owner)].phase.inputs;
    var o := Invoke(inputs, s.ops[id].payload, step.reply);
    && t in s.docs && !ActiveOp(s.ops[id])
    && Answer(s, id, inputs, step.reply, step.ids).Ok?
    && o.SaveVersion? && !AllHeld(o.content, LockTexts(s.docs[t].locks))
  }

  /** A text checked against the locks that are still in force holds them; a first draft is
      written only where there is no lock. */
  lemma InvokeHolds(inputs: Doc, p: Payload, reply: Reply, locks: seq<Lock>)
    requires DocOk(inputs) && FirstIsDraft(inputs.versions) && inputs.locks == locks && Invoke(inputs, p, reply).SaveVersion?
    ensures AllHeld(Invoke(inputs, p, reply).content, LockTexts(locks))
  {
    if p.FirstDraftPayload? {
      NoDraftNoVersions(inputs.versions);
      NoVersionsNoLocks(inputs);
    }
  }

  lemma NoDraftNoVersions(versions: seq<Version>)
    requires FirstIsDraft(versions)
    ensures HasFirstDraft(versions) <==> versions != []
  {
    if versions != [] { assert versions[0].kind == FirstDraftVersion; }
  }

  /** The versions of a document after a saved outcome. */
  lemma PersistVersions(doc: Doc, inputs: Doc, p: Payload, o: Outcome, ids: seq<Id>, r: Doc)
    requires Persist(doc, inputs, p, o, ids) == Ok(r)
    ensures r.locks == doc.locks
    ensures if o.SaveVersion? then |ids| > 0 && r.versions == doc.versions + [Version(ids[0], o.parent, o.kind, o.content)]
            else r.versions == doc.versions
  {
  }

  lemma AnswerHeldIff(s: State, step: Step, t: Id)
    requires Base(s) && LocksRead(s) && t in s.docs && Answers(s, step, t)
    ensures AddsHeldVersion(s, Next(s, step), t) <==> !SavesUnheld(s, step, t)
  {
    var k := (step.worker, step.owner);
    var id, inputs := Writes(s, step).value, s.jobs[k].phase.inputs;
    var p := s.ops[id].payload;
    var answer := Answer(s, id, inputs, step.reply, step.ids);
    RespondShows(s, step, id, answer);
    var r := Next(s, step);
    SameVersions(r.docs[t], if answer.Ok? then answer.value else s.docs[t]);
    if answer.Ok? {
      var o := Invoke(inputs, p, step.reply);
      PersistVersions(s.docs[t], inputs, p, o, step.ids, answer.value);
      assert InputsFit(s, k);
      if o.SaveVersion? {
        if ActiveOp(s.ops[id]) { InvokeHolds(inputs, p, step.reply, s.docs[t].locks); }
        AddedIff(s, r, t, Version(step.ids[0], o.parent, o.kind, o.content));
      }
    }
  }

  lemma AddedIff(s: State, r: State, t: Id, v: Version)
    requires t in s.docs && t in r.docs && r.docs[t].versions == s.docs[t].versions + [v] && r.docs[t].locks == s.docs[t].locks
    ensures AddsHeldVersion(s, r, t) <==> AllHeld(v.content, LockTexts(s.docs[t].locks))
  {
    var before := s.docs[t].versions;
    assert |before + [v]| == |before| + 1;
    forall w | before + [w] == before + [v] ensures w == v { assert (before + [w])[|before|] == (before + [v])[|before|]; }
  }

  /** One step of any state that a run can reach: at most one version is added to a document and
      it holds the locks in force, which are not touched, iff the step does not save a version
      for an ended operation whose text misses a current lock. */
  lemma VersionsHoldLocks(s: State, step: Step, t: Id)
    requires Base(s) && LocksRead(s) && t in s.docs
    ensures AddsHeldVersion(s, Next(s, step), t) <==> !SavesUnheld(s, step, t)
  {
    if Answers(s, step, t) { AnswerHeldIff(s, step, t); }
    else if step.EditTask? { EditHoldsLocks(s, step, t); }
    else if step.Submit? || step.Retry? { SubmitVersions(s, step, t); }
    else { VersionsUntouched(s, step, t); }
  }

  /** The same over every run, with any number of workers and no proviso. */
  lemma {:induction false} SavedVersionsHoldLocks(now: int, steps: seq<Step>, step: Step, t: Id)
    requires t in Run(Initial(now), steps).docs
    ensures
      var s := Run(Initial(now), steps);
      AddsHeldVersion(s, Next(s, step), t) <==> !SavesUnheld(s, step, t)
  {
    BaseAlways(now, steps);
    LocksReadAlways(now, steps);
    VersionsHoldLocks(Run(Initial(now), steps), step, t);
  }
}
