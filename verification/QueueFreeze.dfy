/** Frozen inputs. While an operation is active, locks, source and settings of its document
    never change, and the rest changes only by the late answer of an operation that has ended
    already; so, but for those, what a job read before the provider call still holds at its
    commit: the first draft, the suggestions and the member's decisions. */
module QueueFreeze {
  import opened Basics
  import opened Domain
  import opened Validation
  import opened Documents
  import opened DocumentFacts
  import opened Queue
  import opened QueueInvariant
  import opened QueueAgreement
  import opened QueueDraft

  /** Results are written only for running operations, clean-ups only for queued ones. */
  ghost predicate Live(s: State, step: Step) {
    && (Writes(s, step).Some? ==> s.ops[Writes(s, step).value].status == Running)
    && CleanupJustified(s, step)
  }

  /** A live step meets both exact conditions. */
  lemma LiveMeetsGuards(s: State, step: Step)
    requires Base(s) && Agree(s) && Live(s, step)
    ensures Guard(s, step) && DraftGuard(s, step)
  {
    var id := Writes(s, step);
    if id.Some? {
      ActiveIsAlone(s, id.value);
      SubmissionStates(s.ops[id.value].initial, KindOf(s.ops[id.value].payload));
    }
  }

  // ---------------------------------------------------------------- nothing else writes

  predicate ContentKept(s: State, r: State, t: Id) {
    t in s.docs && t in r.docs && Content(r.docs[t]) == Content(s.docs[t])
  }

  /** The step writes the answer of an operation on document `t`. */
  ghost predicate Answers(s: State, step: Step, t: Id) {
    step.Respond? && Writes(s, step).Some? && s.ops[Writes(s, step).value].task == t
  }

  lemma {:induction false} RecoverKeepsContent(s: State, stale: seq<Id>, t: Id)
    requires t in s.docs
    ensures ContentKept(s, Recover(s, stale), t)
  {
    if stale != [] { RecoverKeepsContent(s, stale[..|stale| - 1], t); }
  }

  lemma RequestKeepsContent(s: State, step: Step, t: Id)
    requires t in s.docs && HasActive(s.ops, t)
    requires step.CreateTask? || step.EditTask? || step.Submit? || step.Retry? || step.CancelQueued?
             || step.ClearCompleted? || step.RecoverStale?
    ensures ContentKept(s, Next(s, step), t)
  {
    match step
    case RecoverStale(_, _, stale) => RecoverKeepsContent(s, stale, t);
    case _ =>
  }

  lemma JobKeepsContent(s: State, step: Step, t: Id)
    requires t in s.docs && !Answers(s, step, t)
    requires step.Claim? || step.Respond? || step.RunError? || step.CancelRun? || step.Cleanup?
    ensures ContentKept(s, Next(s, step), t)
  {
  }

  /** Source, settings, analyses, suggestions, versions and locks of a document with an active
      operation change only by an answer written to it. */
  lemma OnlyAnswersWrite(s: State, step: Step, t: Id)
    requires t in s.docs && HasActive(s.ops, t) && !Answers(s, step, t)
    ensures ContentKept(s, Next(s, step), t)
  {
    if IsQuiet(step) {
      QuietSame(s, step);
    } else if step.Claim? || step.Respond? || step.RunError? || step.CancelRun? || step.Cleanup? {
      JobKeepsContent(s, step, t);
    } else {
      RequestKeepsContent(s, step, t);
    }
  }

  /** The operation stays what it was, or ends. */
  predicate Continues(s: State, r: State, i: Id) {
    i in s.ops && i in r.ops ==>
      && (ActiveOp(r.ops[i]) ==> ActiveOp(s.ops[i]))
      && r.ops[i].task == s.ops[i].task && r.ops[i].payload == s.ops[i].payload
      && r.ops[i].owner == s.ops[i].owner && r.ops[i].key == s.ops[i].key
  }

  lemma SubmitContinues(s: State, id: Id, task: Id, owner: Id, payload: Payload, key: Option<string>, at: int, configured: bool, i: Id)
    requires i in s.ops ==> OpOk(s, i)
    ensures Continues(s, SubmitTo(s, id, task, owner, payload, key, at, configured).0, i)
    ensures
      var r := SubmitTo(s, id, task, owner, payload, key, at, configured).0;
      i in r.ops && i !in s.ops ==> i !in s.issued
  {
    SubmitCases(s, id, task, owner, payload, key, at, configured);
  }

  /** No step makes an ended operation active or changes its request; only submissions add
      operations, under unused ids. */
  lemma OpsContinue(s: State, step: Step, i: Id)
    requires Base(s)
    ensures Continues(s, Next(s, step), i)
    ensures i in Next(s, step).ops && i !in s.ops ==> i !in s.issued && (step.Submit? || step.Retry?)
  {
    if step.Submit? || step.Retry? { SubmissionContinues(s, step, i); }
    else if step.RecoverStale? { StaleContinues(s, step, i); }
    else if step.Respond? || step.RunError? || step.CancelRun? || step.Cleanup? { EndContinues(s, step, i); }
    else { OtherContinues(s, step, i); }
  }

  lemma StaleContinues(s: State, step: Step, i: Id)
    requires step.RecoverStale?
    ensures Continues(s, Next(s, step), i) && (i in Next(s, step).ops ==> i in s.ops)
  {
    RecoverContinues(s, step.stale, i);
  }

  lemma SubmissionContinues(s: State, step: Step, i: Id)
    requires Base(s) && (step.Submit? || step.Retry?)
    ensures Continues(s, Next(s, step), i) && (i in Next(s, step).ops && i !in s.ops ==> i !in s.issued)
  {
    match step
    case Submit(id, task, owner, payload, key, at, configured) => SubmitContinues(s, id, task, owner, payload, key, at, configured, i);
    case Retry(id, op, owner, key, at, configured) =>
      if op in s.ops { SubmitContinues(s, id, s.ops[op].task, owner, s.ops[op].payload, key, at, configured, i); }
  }

  lemma EndContinues(s: State, step: Step, i: Id)
    requires step.Respond? || step.RunError? || step.CancelRun? || step.Cleanup?
    ensures Continues(s, Next(s, step), i) && (i in Next(s, step).ops ==> i in s.ops)
  {
  }

  lemma OtherContinues(s: State, step: Step, i: Id)
    requires !step.Submit? && !step.Retry? && !step.RecoverStale?
    requires !step.Respond? && !step.RunError? && !step.CancelRun? && !step.Cleanup?
    ensures Continues(s, Next(s, step), i) && (i in Next(s, step).ops ==> i in s.ops)
  {
  }

  lemma {:induction false} RecoverContinues(s: State, stale: seq<Id>, i: Id)
    ensures Continues(s, Recover(s, stale), i) && (i in Recover(s, stale).ops <==> i in s.ops)
  {
    if stale != [] { RecoverContinues(s, stale[..|stale| - 1], i); }
  }

  /** A saved outcome changes its document: every analysis and version does, a merge unless it
      adds nothing and deletes nothing. */
  predicate Changes(doc: Doc, inputs: Doc, p: Payload, o: Outcome) {
    match o
    case Refused => false
    case SaveAnalysis(_) => true
    case SaveVersion(_, _, _) => true
    case SaveIdeas(ideas) =>
      p.SuggestionsPayload? &&
      var (fixed, replacements) := Merged(inputs, p.analysis, p.decisions, ideas);
      replacements != [] || exists i :: 0 <= i < |doc.suggestions| && Deleted(doc.suggestions[i], p.analysis, IdsOf(fixed))
  }

  predicate Deleted(row: SuggestionRow, analysis: Id, fixed: set<Id>) {
    row.analysis == analysis && row.id !in fixed
  }

  lemma {:induction false} KeptAll(rows: seq<SuggestionRow>, analysis: Id, fixed: set<Id>)
    ensures |Kept(rows, analysis, fixed)| <= |rows|
    ensures Kept(rows, analysis, fixed) == rows <==> forall i | 0 <= i < |rows| :: !Deleted(rows[i], analysis, fixed)
  {
    if rows != [] {
      var front, last := rows[..|rows| - 1], rows[|rows| - 1];
      KeptAll(front, analysis, fixed);
      assert rows == front + [last];
      if Deleted(last, analysis, fixed) {
        assert |Kept(rows, analysis, fixed)| < |rows|;
      } else {
        assert Kept(rows, analysis, fixed) == Kept(front, analysis, fixed) + [last];
        SnocSame(Kept(front, analysis, fixed), front, last);
        assert forall i | 0 <= i < |front| :: front[i] == rows[i];
      }
    }
  }

  lemma SnocSame(a: seq<SuggestionRow>, b: seq<SuggestionRow>, last: SuggestionRow)
    ensures a + [last] == b + [last] <==> a == b
  {
    if a + [last] == b + [last] { assert a == (a + [last])[..|a|] && b == (b + [last])[..|b|]; }
  }

  lemma MergeChanges(doc: Doc, inputs: Doc, analysis: Id, decisions: map<Id, Choice>, ideas: seq<Idea>, ids: seq<Id>)
    requires MergeSuggestions(doc, inputs, analysis, decisions, ideas, ids).Ok?
    ensures
      var (fixed, replacements) := Merged(inputs, analysis, decisions, ideas);
      MergeSuggestions(doc, inputs, analysis, decisions, ideas, ids).value.suggestions == doc.suggestions <==>
      replacements == [] && forall i | 0 <= i < |doc.suggestions| :: !Deleted(doc.suggestions[i], analysis, IdsOf(fixed))
  {
    var (fixed, replacements) := Merged(inputs, analysis, decisions, ideas);
    var kept, added := Kept(doc.suggestions, analysis, IdsOf(fixed)), NewRows(analysis, replacements, ids);
    KeptAll(doc.suggestions, analysis, IdsOf(fixed));
    if replacements == [] {
      assert kept + added == kept;
    } else {
      var all := kept + added;
      assert all[|kept|].id == ids[0];
      assert forall i | 0 <= i < |doc.suggestions| :: doc.suggestions[i].id != ids[0];
    }
  }

  lemma PersistChanges(doc: Doc, inputs: Doc, p: Payload, o: Outcome, ids: seq<Id>)
    requires Persist(doc, inputs, p, o, ids).Ok?
    ensures Content(Persist(doc, inputs, p, o, ids).value) != Content(doc) <==> Changes(doc, inputs, p, o)
  {
    match o
    case Refused =>
    case SaveAnalysis(_) => assert |Persist(doc, inputs, p, o, ids).value.analyses| == |doc.analyses| + 1;
    case SaveVersion(_, _, _) => assert |Persist(doc, inputs, p, o, ids).value.versions| == |doc.versions| + 1;
    case SaveIdeas(ideas) => MergeChanges(doc, inputs, p.analysis, p.decisions, ideas, ids);
  }

  /** The step saves the answer of an operation on `t` that has ended already, and it changes
      the document. */
  ghost predicate LateChange(s: State, step: Step, t: Id) {
    Answers(s, step, t) &&
    var id, inputs := Writes(s, step).value, s.jobs[(step.worker, step.owner)].phase.inputs;
    && t in s.docs && !ActiveOp(s.ops[id])
    && Answer(s, id, inputs, step.reply, step.ids).Ok?
    && Changes(s.docs[t], inputs, s.ops[id].payload, Invoke(inputs, s.ops[id].payload, step.reply))
  }

  lemma LateChangeShows(s: State, step: Step, t: Id)
    requires t in s.docs && Answers(s, step, t) && !ActiveOp(s.ops[Writes(s, step).value])
    ensures ContentKept(s, Next(s, step), t) <==> !LateChange(s, step, t)
  {
    var id, inputs := Writes(s, step).value, s.jobs[(step.worker, step.owner)].phase.inputs;
    var answer := Answer(s, id, inputs, step.reply, step.ids);
    RespondShows(s, step, id, answer);
    if answer.Ok? {
      PersistChanges(s.docs[t], inputs, s.ops[id].payload, Invoke(inputs, s.ops[id].payload, step.reply), step.ids);
    }
  }

  /** From submission until an operation ends, in every reachable state: a step leaves the
      content of its document alone iff it is no late change. */
  lemma FrozenStep(s: State, step: Step, i: Id)
    requires Base(s)
    requires i in s.ops && i in Next(s, step).ops && ActiveOp(Next(s, step).ops[i])
    ensures ActiveOp(s.ops[i]) && Next(s, step).ops[i].task == s.ops[i].task && Next(s, step).ops[i].payload == s.ops[i].payload
    ensures ContentKept(s, Next(s, step), s.ops[i].task) <==> !LateChange(s, step, s.ops[i].task)
  {
    OpsContinue(s, step, i);
    assert OpOk(s, i);
    var t := s.ops[i].task;
    if Answers(s, step, t) {
      AnswerEnds(s, step);
      LateChangeShows(s, step, t);
    } else {
      OnlyAnswersWrite(s, step, t);
    }
  }

  /** What is never changed while an operation is active, and what only grows. */
  predicate CoreKept(before: Doc, after: Doc) {
    && after.owner == before.owner && after.source == before.source && after.settings == before.settings
    && after.locks == before.locks && after.final == before.final && before.versions <= after.versions
  }

  lemma PersistKeepsCore(doc: Doc, inputs: Doc, p: Payload, o: Outcome, ids: seq<Id>)
    requires Persist(doc, inputs, p, o, ids).Ok?
    ensures CoreKept(doc, Persist(doc, inputs, p, o, ids).value)
  {
  }

  lemma AnswerKeepsCore(s: State, step: Step, t: Id)
    requires t in s.docs && Answers(s, step, t)
    ensures t in Next(s, step).docs && CoreKept(s.docs[t], Next(s, step).docs[t])
  {
    var id, inputs := Writes(s, step).value, s.jobs[(step.worker, step.owner)].phase.inputs;
    var answer := Answer(s, id, inputs, step.reply, step.ids);
    RespondShows(s, step, id, answer);
    if answer.Ok? {
      PersistKeepsCore(s.docs[t], inputs, s.ops[id].payload, Invoke(inputs, s.ops[id].payload, step.reply), step.ids);
    }
  }

  /** Whatever workers and clients do: owner, source, settings, locks and final version of a
      document with an active operation are kept by every step, and no version is lost. */
  lemma CoreFrozenStep(s: State, step: Step, t: Id)
    requires t in s.docs && HasActive(s.ops, t)
    ensures t in Next(s, step).docs && CoreKept(s.docs[t], Next(s, step).docs[t])
  {
    if Answers(s, step, t) {
      AnswerKeepsCore(s, step, t);
    } else {
      OnlyAnswersWrite(s, step, t);
      SameCore(s.docs[t], Next(s, step).docs[t]);
    }
  }

  lemma SameCore(before: Doc, after: Doc)
    requires Content(before) == Content(after)
    ensures CoreKept(before, after)
  {
    assert Content(before).versions == before.versions && Content(after).versions == after.versions;
  }

  lemma AnswerEnds(s: State, step: Step)
    requires Base(s) && step.Respond? && Writes(s, step).Some?
    ensures var id := Writes(s, step).value; id in Next(s, step).ops && !ActiveOp(Next(s, step).ops[id])
  {
    assert OpOk(s, Writes(s, step).value);
  }

  // ---------------------------------------------------------------- what jobs have read

  predicate HasInputs(job: Job) { job.phase.Prepared? || job.phase.Calling? }

  /** A job's inputs are still the document's content while its operation is active; they
      passed the preparation. */
  predicate JobFrozen(s: State, k: (Id, Id))
    requires k in s.jobs
  {
    var job := s.jobs[k];
    HasInputs(job) && job.op in s.ops ==>
      && PreparationOk(job.phase.inputs, s.ops[job.op].payload)
      && (ActiveOp(s.ops[job.op]) ==> s.ops[job.op].task in s.docs && Content(job.phase.inputs) == Content(s.docs[s.ops[job.op].task]))
  }

  /** The decisions of an active operation name exactly the suggestions of its analysis. */
  predicate DecisionsMatch(s: State, i: Id)
    requires i in s.ops && s.ops[i].task in s.docs
  {
    match DecisionsOf(s.ops[i].payload)
    case None => true
    case Some((analysis, decisions)) => decisions.Keys == IdsOf(RowsOf(s.docs[s.ops[i].task].suggestions, analysis))
  }

  ghost predicate Orderly(s: State) {
    && Base(s) && Agree(s) && DraftAll(s)
    && (forall k | k in s.jobs :: JobFrozen(s, k))
    && (forall i | i in s.ops && ActiveOp(s.ops[i]) :: s.ops[i].task in s.docs && DecisionsMatch(s, i))
    && (forall t | t in s.docs :: SuggestionsOk(s.docs[t].suggestions))
  }

  /** How the job records of a step relate to those before. */
  ghost predicate JobsFollow(s: State, r: State) {
    forall k | k in r.jobs && HasInputs(r.jobs[k]) ::
      || (k in s.jobs && HasInputs(s.jobs[k]) && r.jobs[k].op == s.jobs[k].op && r.jobs[k].phase.inputs == s.jobs[k].phase.inputs)
      || (r.docs == s.docs && r.ops == s.ops && r.jobs[k].op in s.ops && s.ops[r.jobs[k].op].task in s.docs
          && r.jobs[k].phase.inputs == s.docs[s.ops[r.jobs[k].op].task]
          && PreparationOk(r.jobs[k].phase.inputs, s.ops[r.jobs[k].op].payload))
  }

  lemma {:induction false} RecoverJobs(s: State, stale: seq<Id>)
    ensures Recover(s, stale).jobs == s.jobs
  {
    if stale != [] { RecoverJobs(s, stale[..|stale| - 1]); }
  }

  lemma JobsFollowStep(s: State, step: Step)
    ensures JobsFollow(s, Next(s, step))
  {
    if step.RecoverStale? { RecoverJobs(s, step.stale); }
    else if step.Tick? || step.Prepare? || step.Claim? || step.Crash? { QuietJobsFollow(s, step); }
    else if step.Respond? || step.RunError? || step.CancelRun? || step.Cleanup? { EndJobsFollow(s, step); }
    else { OtherJobsFollow(s, step); }
  }

  lemma EndJobsFollow(s: State, step: Step)
    requires step.Respond? || step.RunError? || step.CancelRun? || step.Cleanup?
    ensures JobsFollow(s, Next(s, step))
  {
  }

  lemma QuietJobsFollow(s: State, step: Step)
    requires step.Tick? || step.Prepare? || step.Claim? || step.Crash?
    ensures JobsFollow(s, Next(s, step))
  {
  }

  lemma OtherJobsFollow(s: State, step: Step)
    requires !step.Tick? && !step.Prepare? && !step.Claim? && !step.Crash? && !step.RecoverStale?
    requires !step.Respond? && !step.RunError? && !step.CancelRun? && !step.Cleanup?
    ensures JobsFollow(s, Next(s, step))
  {
  }

  /** A guarded step is no late change of a document with an active operation. */
  lemma GuardKeeps(s: State, step: Step, i: Id)
    requires Base(s) && Guard(s, step) && i in s.ops && i in Next(s, step).ops && ActiveOp(Next(s, step).ops[i])
    ensures ActiveOp(s.ops[i]) && Next(s, step).ops[i].task == s.ops[i].task && Next(s, step).ops[i].payload == s.ops[i].payload
    ensures ContentKept(s, Next(s, step), s.ops[i].task)
  {
    FrozenStep(s, step, i);
    if Answers(s, step, s.ops[i].task) { assert i == Writes(s, step).value; }
  }

  lemma FrozenJobsStep(s: State, step: Step, k: (Id, Id))
    requires Orderly(s) && Guard(s, step) && k in Next(s, step).jobs
    ensures JobFrozen(Next(s, step), k)
  {
    var r := Next(s, step);
    JobsFollowStep(s, step);
    var job := r.jobs[k];
    if HasInputs(job) && job.op in r.ops {
      if k in s.jobs && HasInputs(s.jobs[k]) && job.op == s.jobs[k].op && job.phase.inputs == s.jobs[k].phase.inputs {
        assert JobOk(s, k) && JobFrozen(s, k);
        OpsContinue(s, step, job.op);
        if ActiveOp(r.ops[job.op]) { GuardKeeps(s, step, job.op); }
      }
    }
  }

  lemma EnqueuedDecisions(s: State, step: Step, i: Id)
    requires Base(s) && i in Next(s, step).ops && i !in s.ops && (step.Submit? || step.Retry?)
    ensures Next(s, step).ops[i].task in Next(s, step).docs && DecisionsMatch(Next(s, step), i)
  {
    var r := Next(s, step);
    var op := r.ops[i];
    var doc := s.docs[op.task];
    SnapshotFacts(doc, op.payload);
    match DecisionsOf(op.payload)
    case None =>
    case Some((analysis, decisions)) =>
      SameIdeasIds(doc.suggestions, r.docs[op.task].suggestions, analysis);
  }

  lemma DecisionsStep(s: State, step: Step, i: Id)
    requires Orderly(s) && Guard(s, step) && i in Next(s, step).ops && ActiveOp(Next(s, step).ops[i])
    ensures Next(s, step).ops[i].task in Next(s, step).docs && DecisionsMatch(Next(s, step), i)
  {
    if i in s.ops {
      GuardKeeps(s, step, i);
    } else {
      OpsContinue(s, step, i);
      EnqueuedDecisions(s, step, i);
    }
  }

  // ---------------------------------------------------------------- suggestions

  lemma EditSuggestions(doc: Doc, edit: Edit)
    requires ApplyEdit(doc, edit).Ok?
    ensures SameIdeas(doc.suggestions, ApplyEdit(doc, edit).value.suggestions)
  {
  }

  /** The merge a running operation performs, on inputs that are still the document's. */
  lemma PersistSuggestions(doc: Doc, inputs: Doc, p: Payload, reply: Reply, ids: seq<Id>)
    requires SuggestionsOk(doc.suggestions) && Content(inputs) == Content(doc)
    requires Persist(doc, inputs, p, Invoke(inputs, p, reply), ids).Ok?
    ensures
      var next := Persist(doc, inputs, p, Invoke(inputs, p, reply), ids).value.suggestions;
      && SuggestionsOk(next)
      && (forall a: Id | RowsOf(doc.suggestions, a) != [] :: |RowsOf(next, a)| <= |RowsOf(doc.suggestions, a)|)
      && (p.SuggestionsPayload? ==> Fixed(RowsOf(doc.suggestions, p.analysis), p.decisions) <= RowsOf(next, p.analysis))
  {
    if p.SuggestionsPayload? {
      var ideas := reply.ideas;
      assert MergeSuggestions(doc, inputs, p.analysis, p.decisions, ideas, ids) == MergeSuggestions(doc, doc, p.analysis, p.decisions, ideas, ids);
      MergeKeeps(doc, p.analysis, p.decisions, ideas, ids);
    }
  }

  /** A refused answer, in particular an invalid merged set, writes nothing but the state. */
  lemma RefusedWritesNothing(s: State, step: Step)
    requires Base(s) && step.Respond? && Writes(s, step).Some?
    requires Answer(s, Writes(s, step).value, s.jobs[(step.worker, step.owner)].phase.inputs, step.reply, step.ids).Err?
    ensures ContentKept(s, Next(s, step), s.ops[Writes(s, step).value].task)
  {
    assert OpOk(s, Writes(s, step).value);
  }

  lemma AnswerSuggestions(s: State, step: Step)
    requires Orderly(s) && step.Respond? && Writes(s, step).Some? && ActiveOp(s.ops[Writes(s, step).value])
    ensures
      var t := s.ops[Writes(s, step).value].task;
      && t in s.docs && t in Next(s, step).docs && SuggestionsOk(Next(s, step).docs[t].suggestions)
      && forall a: Id | RowsOf(s.docs[t].suggestions, a) != [] ::
           |RowsOf(Next(s, step).docs[t].suggestions, a)| <= |RowsOf(s.docs[t].suggestions, a)|
  {
    var id := Writes(s, step).value;
    var k := (step.worker, step.owner);
    assert OpOk(s, id) && JobFrozen(s, k);
    var op, inputs := s.ops[id], s.jobs[k].phase.inputs;
    if Answer(s, id, inputs, step.reply, step.ids).Ok? {
      PersistSuggestions(s.docs[op.task], inputs, op.payload, step.reply, step.ids);
    }
  }

  /** The document was edited or snapshotted; its ideas are the same. */
  lemma RestSuggestions(s: State, step: Step, t: Id)
    requires t in s.docs && (step.EditTask? || step.Submit? || step.Retry?)
    ensures t in Next(s, step).docs && SameIdeas(s.docs[t].suggestions, Next(s, step).docs[t].suggestions)
  {
    if step.EditTask? && ApplyEdit(s.docs[t], step.edit).Ok? { EditSuggestions(s.docs[t], step.edit); }
  }

  lemma SuggestionsStep(s: State, step: Step, t: Id)
    requires Orderly(s) && Live(s, step) && t in Next(s, step).docs
    ensures SuggestionsOk(Next(s, step).docs[t].suggestions)
  {
    var r := Next(s, step);
    if t !in s.docs {
      NewDocEmpty(s, step, t);
      assert forall a: Id :: RowsOf([], a) == [];
    } else if Answers(s, step, t) {
      AnswerSuggestions(s, step);
    } else if step.EditTask? || step.Submit? || step.Retry? {
      RestSuggestions(s, step, t);
      SameIdeasKeep(s.docs[t].suggestions, r.docs[t].suggestions);
    } else {
      SuggestionsUntouched(s, step, t);
    }
  }

  lemma NewDocEmpty(s: State, step: Step, t: Id)
    requires Base(s) && t in Next(s, step).docs && t !in s.docs
    ensures Next(s, step).docs[t].suggestions == [] && Next(s, step).docs[t].versions == [] && Next(s, step).docs[t].analyses == []
  {
    if step.RecoverStale? {
      RecoverDocs(s, step.stale);
    } else if IsQuiet(step) {
      QuietSame(s, step);
    } else if step.CreateTask? || step.EditTask? || step.Submit? || step.Retry? || step.CancelQueued? || step.ClearCompleted? {
      RequestDocs(s, step, t);
    } else {
      JobDocs(s, step, t);
    }
  }

  lemma RequestDocs(s: State, step: Step, t: Id)
    requires step.CreateTask? || step.EditTask? || step.Submit? || step.Retry? || step.CancelQueued? || step.ClearCompleted?
    requires t in Next(s, step).docs && t !in s.docs
    ensures Next(s, step).docs[t].suggestions == [] && Next(s, step).docs[t].versions == [] && Next(s, step).docs[t].analyses == []
  {
  }

  lemma JobDocs(s: State, step: Step, t: Id)
    requires step.Claim? || step.Respond? || step.RunError? || step.CancelRun? || step.Cleanup?
    requires t in Next(s, step).docs
    ensures t in s.docs
  {
  }

  lemma {:induction false} RecoverDocs(s: State, stale: seq<Id>)
    requires Base(s)
    ensures Recover(s, stale).docs.Keys == s.docs.Keys
  {
    if stale != [] { RecoverDocs(s, stale[..|stale| - 1]); }
  }

  lemma SuggestionsUntouched(s: State, step: Step, t: Id)
    requires t in s.docs && !Answers(s, step, t) && !step.EditTask? && !step.Submit? && !step.Retry?
    ensures t in Next(s, step).docs && Next(s, step).docs[t].suggestions == s.docs[t].suggestions
  {
    if IsQuiet(step) {
      QuietSame(s, step);
    } else if step.Claim? || step.Respond? || step.RunError? || step.CancelRun? || step.Cleanup? {
      JobKeepsContent(s, step, t);
    } else if step.RecoverStale? {
      RecoverKeepsContent(s, step.stale, t);
    }
  }

  /** Once an analysis has suggestions, no step gives it more, but for the answer of an operation
      that has ended already. */
  lemma SuggestionsNeverGrow(s: State, step: Step, t: Id, a: Id)
    requires Orderly(s) && t in s.docs && RowsOf(s.docs[t].suggestions, a) != []
    requires Answers(s, step, t) ==> ActiveOp(s.ops[Writes(s, step).value])
    ensures t in Next(s, step).docs
    ensures |RowsOf(Next(s, step).docs[t].suggestions, a)| <= |RowsOf(s.docs[t].suggestions, a)|
  {
    if Answers(s, step, t) {
      AnswerSuggestions(s, step);
    } else if step.EditTask? || step.Submit? || step.Retry? {
      RestSuggestions(s, step, t);
      SameIdeasGroups(s.docs[t].suggestions, Next(s, step).docs[t].suggestions, a);
    } else {
      SuggestionsUntouched(s, step, t);
    }
  }

  // ---------------------------------------------------------------- steps and runs

  /** A live step keeps an orderly state orderly. */
  lemma OrderlyStep(s: State, step: Step)
    requires Orderly(s) && Live(s, step)
    ensures Orderly(Next(s, step))
  {
    var r := Next(s, step);
    BaseStep(s, step);
    LiveMeetsGuards(s, step);
    AgreeStep(s, step);
    DraftStep(s, step);
    forall k | k in r.jobs ensures JobFrozen(r, k) { FrozenJobsStep(s, step, k); }
    forall i | i in r.ops && ActiveOp(r.ops[i]) ensures r.ops[i].task in r.docs && DecisionsMatch(r, i) { DecisionsStep(s, step, i); }
    forall t | t in r.docs ensures SuggestionsOk(r.docs[t].suggestions) { SuggestionsStep(s, step, t); }
  }

  ghost predicate LiveThroughout(s: State, steps: seq<Step>) {
    forall k | 0 <= k < |steps| :: Live(Run(s, steps[..k]), steps[k])
  }

  lemma InitialOrderly(now: int)
    ensures Orderly(Initial(now))
  {
    InitialBase(now);
  }

  /** Every state of a live run is orderly. */
  lemma {:induction false} OrderlyAlways(now: int, steps: seq<Step>)
    requires LiveThroughout(Initial(now), steps)
    ensures Orderly(Run(Initial(now), steps))
  {
    if steps == [] {
      InitialOrderly(now);
    } else {
      var front := steps[..|steps| - 1];
      forall k | 0 <= k < |front| ensures Live(Run(Initial(now), front[..k]), front[k]) {
        assert front[..k] == steps[..k];
      }
      OrderlyAlways(now, front);
      assert Live(Run(Initial(now), steps[..|steps| - 1]), steps[|steps| - 1]);
      OrderlyStep(Run(Initial(now), front), steps[|steps| - 1]);
    }
  }

  // ---------------------------------------------------------------- what it is for

  predicate ActiveIn(s: State, i: Id) { i in s.ops && ActiveOp(s.ops[i]) }

  /** The operation is active in every state of the run. */
  ghost predicate ActiveAlong(s: State, steps: seq<Step>, i: Id) {
    forall k | 0 <= k <= |steps| :: ActiveIn(Run(s, steps[..k]), i)
  }

  lemma {:induction false} ShorterRun(s: State, steps: seq<Step>, i: Id)
    requires steps != [] && ActiveAlong(s, steps, i)
    ensures ActiveAlong(s, steps[..|steps| - 1], i) && ActiveIn(Run(s, steps), i) && ActiveIn(Run(s, steps[..|steps| - 1]), i)
  {
    var front := steps[..|steps| - 1];
    assert steps[..|steps|] == steps;
    forall k | 0 <= k <= |front| ensures ActiveIn(Run(s, front[..k]), i) { assert front[..k] == steps[..k]; }
  }

  /** Over every stretch of every run in which an operation stays active, with no proviso:
      locks, source, settings and the rest of the core of its document stay what submission
      left, and versions are only added. */
  lemma {:induction false} CoreFrozenAlong(s: State, steps: seq<Step>, i: Id)
    requires Base(s) && ActiveIn(s, i) && ActiveAlong(s, steps, i)
    ensures i in Run(s, steps).ops && Run(s, steps).ops[i].task == s.ops[i].task
    ensures
      var t := s.ops[i].task;
      t in s.docs && t in Run(s, steps).docs && CoreKept(s.docs[t], Run(s, steps).docs[t])
  {
    if steps == [] {
      assert OpOk(s, i);
    } else {
      ShorterRun(s, steps, i);
      var front := steps[..|steps| - 1];
      CoreFrozenAlong(s, front, i);
      BaseRun(s, front);
      OpsContinue(Run(s, front), steps[|steps| - 1], i);
      CoreFrozenStep(Run(s, front), steps[|steps| - 1], s.ops[i].task);
    }
  }

  /** No step of the run is a late change of document `t`. */
  ghost predicate NoLateChange(s: State, steps: seq<Step>, t: Id) {
    forall k | 0 <= k < |steps| :: !LateAt(s, steps, t, k)
  }

  ghost predicate LateAt(s: State, steps: seq<Step>, t: Id, k: nat)
    requires k < |steps|
  {
    LateChange(Run(s, steps[..k]), steps[k], t)
  }

  ghost predicate KeptAt(s: State, steps: seq<Step>, t: Id, k: nat)
    requires k < |steps|
  {
    ContentKept(Run(s, steps[..k]), Run(s, steps[..k + 1]), t)
  }

  /** Every step of the run leaves the content of document `t` alone. */
  ghost predicate KeptThroughout(s: State, steps: seq<Step>, t: Id) {
    forall k | 0 <= k < |steps| :: KeptAt(s, steps, t, k)
  }

  /** Over every stretch of every run in which an operation stays active: every step leaves the
      content of its document alone iff none is a late change of it. */
  lemma {:induction false} FrozenExact(s: State, steps: seq<Step>, i: Id)
    requires Base(s) && ActiveIn(s, i) && ActiveAlong(s, steps, i)
    ensures KeptThroughout(s, steps, s.ops[i].task) <==> NoLateChange(s, steps, s.ops[i].task)
  {
    forall k | 0 <= k < |steps|
      ensures KeptAt(s, steps, s.ops[i].task, k) <==> !LateAt(s, steps, s.ops[i].task, k)
    {
      FrozenAt(s, steps, i, k);
    }
  }

  lemma {:induction false} FrozenAt(s: State, steps: seq<Step>, i: Id, k: nat)
    requires Base(s) && ActiveIn(s, i) && ActiveAlong(s, steps, i) && k < |steps|
    ensures KeptAt(s, steps, s.ops[i].task, k) <==> !LateAt(s, steps, s.ops[i].task, k)
  {
    var front := steps[..k];
    forall m | 0 <= m <= k ensures ActiveIn(Run(s, front[..m]), i) { assert front[..m] == steps[..m]; }
    CoreFrozenAlong(s, front, i);
    BaseRun(s, front);
    RunPrefix(s, steps, k);
    assert ActiveIn(Run(s, steps[..k + 1]), i);
    FrozenStep(Run(s, front), steps[k], i);
  }

  /** So its content is what it was at the start of the stretch, in particular what submission
      left, unless a late change hit it. */
  lemma {:induction false} FrozenAlong(s: State, steps: seq<Step>, i: Id)
    requires Base(s) && ActiveIn(s, i) && ActiveAlong(s, steps, i) && NoLateChange(s, steps, s.ops[i].task)
    ensures ContentKept(s, Run(s, steps), s.ops[i].task)
  {
    FrozenExact(s, steps, i);
    assert OpOk(s, i);
    KeptToEnd(s, steps, s.ops[i].task);
  }

  lemma {:induction false} KeptToEnd(s: State, steps: seq<Step>, t: Id)
    requires t in s.docs && KeptThroughout(s, steps, t)
    ensures ContentKept(s, Run(s, steps), t)
  {
    if steps != [] {
      var n := |steps| - 1;
      var front := steps[..n];
      forall k | 0 <= k < n ensures KeptAt(s, front, t, k) {
        assert front[..k] == steps[..k] && front[..k + 1] == steps[..k + 1] && KeptAt(s, steps, t, k);
      }
      KeptToEnd(s, front, t);
      assert steps[..n + 1] == steps;
      assert KeptAt(s, steps, t, n);
    }
  }

  lemma NoVersionsNoLocks(doc: Doc)
    requires DocOk(doc) && doc.versions == []
    ensures doc.locks == []
  {
    assert |doc.locks| > 0 ==> LockMatches(doc.versions, doc.locks[0]);
  }

  lemma RespondShows(s: State, step: Step, id: Id, answer: Result<Doc, Error>)
    requires step.Respond? && IsCalling(s, step.worker, step.owner) && s.jobs[(step.worker, step.owner)].op == id
    requires id in s.ops && s.ops[id].task in s.docs
    requires answer == Answer(s, id, s.jobs[(step.worker, step.owner)].phase.inputs, step.reply, step.ids)
    ensures s.ops[id].task in Next(s, step).docs
    ensures Content(Next(s, step).docs[s.ops[id].task]) == Content(if answer.Ok? then answer.value else s.docs[s.ops[id].task])
  {
  }

  /** At most one version is added, and it satisfies the locks, which are not touched. */
  ghost predicate AddsHeldVersion(s: State, r: State, t: Id) {
    t in s.docs && t in r.docs &&
    (r.docs[t].versions == s.docs[t].versions
     || (r.docs[t].locks == s.docs[t].locks
         && exists v :: r.docs[t].versions == s.docs[t].versions + [v] && AllHeld(v.content, LockTexts(r.docs[t].locks))))
  }

  lemma EditHoldsLocks(s: State, step: Step, t: Id)
    requires t in s.docs && step.EditTask?
    ensures AddsHeldVersion(s, Next(s, step), t)
  {
    var r := Next(s, step);
    if r.docs[t].versions != s.docs[t].versions {
      var v := Version(step.edit.id, Some(step.edit.parent), ManualVersion, step.edit.content);
      assert r.docs[t].versions == s.docs[t].versions + [v];
    }
  }

  lemma SubmitVersions(s: State, step: Step, t: Id)
    requires t in s.docs && (step.Submit? || step.Retry?)
    ensures t in Next(s, step).docs && Next(s, step).docs[t].versions == s.docs[t].versions
  {
  }

  lemma VersionsUntouched(s: State, step: Step, t: Id)
    requires t in s.docs && !Answers(s, step, t) && !step.EditTask? && !step.Submit? && !step.Retry?
    ensures t in Next(s, step).docs && Next(s, step).docs[t].versions == s.docs[t].versions
  {
    if IsQuiet(step) {
      QuietSame(s, step);
    } else if step.Claim? || step.Respond? || step.RunError? || step.CancelRun? || step.Cleanup? {
      JobKeepsContent(s, step, t);
    } else if step.RecoverStale? {
      RecoverKeepsContent(s, step.stale, t);
    }
  }

  /** "First draft already exists" and "revision without draft" are out of reach for a running
      operation, and so is a failed decision lookup. */
  lemma RunningIsPrepared(s: State, w: Id, o: Id)
    requires Orderly(s) && IsCalling(s, w, o) && s.jobs[(w, o)].op in s.ops && s.ops[s.jobs[(w, o)].op].status == Running
    ensures
      var op, inputs := s.ops[s.jobs[(w, o)].op], s.jobs[(w, o)].phase.inputs;
      && (KindOf(op.payload) == FirstDraft ==> !HasFirstDraft(inputs.versions))
      && (KindOf(op.payload) == Revision ==> HasFirstDraft(inputs.versions) && VersionAt(inputs.versions, op.payload.parent) >= 0)
      && LookupsSucceed(inputs, op.payload)
      && (op.payload.SuggestionsPayload? ==>
            var previous := RowsOf(inputs.suggestions, op.payload.analysis);
            MergeCapacity(|previous|, |Fixed(previous, op.payload.decisions)|) >= 1)
  {
    var id := s.jobs[(w, o)].op;
    var op, inputs := s.ops[id], s.jobs[(w, o)].phase.inputs;
    ActiveIsAlone(s, id);
    assert JobFrozen(s, (w, o));
    var doc := s.docs[op.task];
    assert DraftOk(doc) && inputs.versions == doc.versions && inputs.suggestions == doc.suggestions;
    SubmissionStates(op.initial, KindOf(op.payload));
    DraftedIffOneFirstDraft(doc);
    if op.payload.SuggestionsPayload? { MergeCapacityPositive(inputs, op.payload); }
  }

  /** Every decision lookup of a queued operation succeeds. */
  lemma QueuedLookupsSucceed(s: State, i: Id)
    requires Orderly(s) && i in s.ops && ActiveOp(s.ops[i])
    ensures s.ops[i].task in s.docs && LookupsSucceed(s.docs[s.ops[i].task], s.ops[i].payload)
  {
    assert DecisionsMatch(s, i);
  }
}
