/** What the requests and the worker's steps on the queue come to, clause by clause: who may do
    what, and which rows are different afterwards. */
module QueueMeans {
  import opened Basics
  import opened Domain
  import opened Validation
  import opened Documents
  import opened DocumentFacts
  import opened DocumentMeans
  import opened Queue
  import opened QueueInvariant

  // ---------------------------------------------------------------- what is left alone

  /** At most row `i` differs; none appears or goes. */
  predicate OnlyOp(before: map<Id, Op>, after: map<Id, Op>, i: Id) {
    after.Keys == before.Keys && forall j | j in before && j != i :: after[j] == before[j]
  }

  /** At most document `t` differs. */
  predicate OnlyDoc(before: map<Id, Doc>, after: map<Id, Doc>, t: Id) {
    after.Keys == before.Keys && forall u | u in before && u != t :: after[u] == before[u]
  }

  /** At most job `k` differs. */
  ghost predicate OnlyJob(before: map<(Id, Id), Job>, after: map<(Id, Id), Job>, k: (Id, Id)) {
    forall l: (Id, Id) | l != k :: (l in after <==> l in before) && (l in before ==> after[l] == before[l])
  }

  // ---------------------------------------------------------------- who may ask

  predicate Owns(s: State, task: Id, owner: Id) {
    task in s.docs && s.docs[task].owner == owner
  }

  /** No operation of the document is queued or running. */
  predicate Quiet(s: State, task: Id) {
    forall i | i in s.ops && s.ops[i].task == task :: s.ops[i].status != Queued && s.ops[i].status != Running
  }

  // ---------------------------------------------------------------- submissions

  /** The row was submitted under this key, by this member, for this document and kind. */
  predicate Repeats(op: Op, task: Id, owner: Id, payload: Payload, key: Option<string>) {
    key.Some? && op.key == key && op.task == task && op.owner == owner && KindOf(op.payload) == KindOf(payload)
  }

  ghost predicate Submittable(s: State, id: Id, task: Id, owner: Id, payload: Payload, configured: bool) {
    && Owns(s, task, owner) && Quiet(s, task)
    && StartsFrom(s.docs[task].state, KindOf(payload))
    && configured
    && DecisionsFit(s.docs[task], payload)
    && id !in s.issued
  }

  /** The decisions of the payload on the rows they name; nothing else of a row changes. */
  predicate RowDecided(before: SuggestionRow, after: SuggestionRow, p: Payload) {
    var d := DecisionsOf(p);
    if d.Some? && before.analysis == d.value.0 && before.id in d.value.1
    then after == before.(note := d.value.1[before.id].note, decision := if d.value.1[before.id].selected then Accepted else Rejected)
    else after == before
  }

  /** One operation more, queued, and its document shows it. */
  predicate QueuedUp(s: State, t: State, id: Id, task: Id, owner: Id, payload: Payload, key: Option<string>, at: int)
    requires task in s.docs
  {
    && t.ops == s.ops[id := Op(owner, task, payload, Queued, key, at, s.docs[task].state, 0)]
    && t.issued == s.issued + {id} && t.jobs == s.jobs && t.now == s.now
    && OnlyDoc(s.docs, t.docs, task)
    && t.docs[task] == s.docs[task].(state := RunningState(KindOf(payload)), suggestions := t.docs[task].suggestions)
    && |t.docs[task].suggestions| == |s.docs[task].suggestions|
    && forall i | 0 <= i < |s.docs[task].suggestions| :: RowDecided(s.docs[task].suggestions[i], t.docs[task].suggestions[i], payload)
  }

  /** A submission: a known key is answered with its operation or refused for another body;
      else an operation is queued iff the document and the member's settings admit it. */
  ghost predicate Submitted(s: State, t: State, r: Result<Id, Error>,
    id: Id, task: Id, owner: Id, payload: Payload, key: Option<string>, at: int, configured: bool)
  {
    && (r == Err(NotFound) <==> !Owns(s, task, owner))
    && (Owns(s, task, owner) ==> forall i | i in s.ops && Repeats(s.ops[i], task, owner, payload, key) ::
          t == s && r == if s.ops[i].payload == payload then Ok(i) else Err(KeyReused))
    && ((forall i | i in s.ops :: !Repeats(s.ops[i], task, owner, payload, key)) ==>
          && (r.Ok? <==> Submittable(s, id, task, owner, payload, configured))
          && (r.Ok? ==> r.value == id && QueuedUp(s, t, id, task, owner, payload, key, at)))
    && (r.Err? ==> t == s)
  }

  lemma RefusalMeans(s: State, id: Id, task: Id, owner: Id, payload: Payload, configured: bool)
    requires Owns(s, task, owner)
    ensures Refusal(s, id, task, payload, configured).None? <==> Submittable(s, id, task, owner, payload, configured)
    ensures Refusal(s, id, task, payload, configured) != Some(NotFound)
  {
    SnapshotFits(s.docs[task], payload);
    WhereOperationsStart(s.docs[task].state, KindOf(payload));
  }

  lemma EnqueueMeans(s: State, id: Id, task: Id, owner: Id, payload: Payload, key: Option<string>, at: int)
    requires task in s.docs && ApplySnapshot(s.docs[task], payload).Ok?
    ensures QueuedUp(s, Enqueue(s, id, task, owner, payload, key, at), id, task, owner, payload, key, at)
  {
  }

  lemma SubmitMeans(s: State, id: Id, task: Id, owner: Id, payload: Payload, key: Option<string>, at: int, configured: bool)
    requires Base(s)
    ensures
      var (t, r) := SubmitTo(s, id, task, owner, payload, key, at, configured);
      Submitted(s, t, r, id, task, owner, payload, key, at, configured)
  {
    if Owns(s, task, owner) {
      var existing := Existing(s, task, owner, KindOf(payload), key);
      if existing.Some? {
        OnlyExisting(s, task, owner, payload, key);
      } else {
        NewMeans(s, id, task, owner, payload, key, at, configured);
      }
    }
  }

  /** A submission under a new key, or without one. */
  lemma NewMeans(s: State, id: Id, task: Id, owner: Id, payload: Payload, key: Option<string>, at: int, configured: bool)
    requires Owns(s, task, owner) && Existing(s, task, owner, KindOf(payload), key).None?
    ensures forall i | i in s.ops :: !Repeats(s.ops[i], task, owner, payload, key)
    ensures
      var (t, r) := SubmitTo(s, id, task, owner, payload, key, at, configured);
      && r != Err(NotFound) && (r.Ok? <==> Submittable(s, id, task, owner, payload, configured))
      && (if r.Ok? then r.value == id && QueuedUp(s, t, id, task, owner, payload, key, at) else t == s)
  {
    RefusalMeans(s, id, task, owner, payload, configured);
    if Refusal(s, id, task, payload, configured).None? { EnqueueMeans(s, id, task, owner, payload, key, at); }
  }

  lemma OnlyExisting(s: State, task: Id, owner: Id, payload: Payload, key: Option<string>)
    requires Base(s) && Existing(s, task, owner, KindOf(payload), key).Some?
    ensures
      var e := Existing(s, task, owner, KindOf(payload), key).value;
      e in s.ops && Repeats(s.ops[e], task, owner, payload, key)
      && forall i | i in s.ops && Repeats(s.ops[i], task, owner, payload, key) :: i == e
  {
    var e := Existing(s, task, owner, KindOf(payload), key).value;
    forall i | i in s.ops && Repeats(s.ops[i], task, owner, payload, key) ensures i == e {
      assert SameScope(s.ops[i], s.ops[e].task, s.ops[e].owner, KindOf(s.ops[e].payload), s.ops[e].key.value);
    }
  }

  /** A retry submits the stored request of a failed or cancelled operation of the member; any
      other is refused. */
  lemma RetryMeans(s: State, id: Id, op: Id, owner: Id, key: Option<string>, at: int, configured: bool)
    requires Base(s)
    ensures
      var (t, r) := RetryTo(s, id, op, owner, key, at, configured);
      if op in s.ops && s.ops[op].owner == owner && (s.ops[op].status == Failed || s.ops[op].status == Cancelled)
      then Submitted(s, t, r, id, s.ops[op].task, owner, s.ops[op].payload, key, at, configured)
      else t == s && r == Err(if op in s.ops && s.ops[op].owner == owner then NotRetryable else NotFound)
  {
    if op in s.ops && s.ops[op].owner == owner && (s.ops[op].status == Failed || s.ops[op].status == Cancelled) {
      SubmitMeans(s, id, s.ops[op].task, owner, s.ops[op].payload, key, at, configured);
    }
  }

  // ---------------------------------------------------------------- the member's edits

  /** What an endpoint asks of the document. */
  ghost predicate Editable(doc: Doc, edit: Edit) {
    match edit
    case UpdateDraft(_, _) => doc.state == Draft
    case UpdateAnalysis(analysis, _) => exists i :: 0 <= i < |doc.analyses| && doc.analyses[i].id == analysis
    case UpdateSuggestion(suggestion, _, _) => exists i :: 0 <= i < |doc.suggestions| && doc.suggestions[i].id == suggestion
    case ManualEdit(id, parent, content) =>
      && HasVersion(doc, parent) && doc.state != Archived && !HasVersion(doc, id)
      && (exists i :: 0 <= i < |doc.versions| && doc.versions[i].kind == FirstDraftVersion)
      && AllHeld(content, LockTexts(doc.locks))
    case CreateLock(id, version, start, end) =>
      && HasVersion(doc, version) && doc.state != Archived
      && start < end <= |doc.versions[VersionAt(doc.versions, version)].content|
      && forall i | 0 <= i < |doc.locks| ::
           && doc.locks[i].id != id
           && (doc.locks[i].source == version ==> doc.locks[i].end <= start || end <= doc.locks[i].start)
    case DeleteLock(lock) => exists i :: 0 <= i < |doc.locks| && doc.locks[i].id == lock
    case Finalize(version) => HasVersion(doc, version) && doc.state != Archived
    case Archive => true
    case Restore => doc.state == Archived && doc.archivedFrom.Some?
  }

  /** What it changes. */
  ghost predicate EditDone(a: Doc, b: Doc, edit: Edit) {
    match edit
    case UpdateDraft(source, settings) => b == a.(source := source, settings := settings)
    case UpdateAnalysis(analysis, payload) =>
      && b == a.(analyses := b.analyses) && |b.analyses| == |a.analyses|
      && forall i | 0 <= i < |a.analyses| ::
           b.analyses[i] == if a.analyses[i].id == analysis then a.analyses[i].(payload := payload) else a.analyses[i]
    case UpdateSuggestion(suggestion, decision, note) =>
      && b == a.(suggestions := b.suggestions) && |b.suggestions| == |a.suggestions|
      && forall i | 0 <= i < |a.suggestions| ::
           b.suggestions[i] == if a.suggestions[i].id == suggestion then a.suggestions[i].(decision := decision, note := note) else a.suggestions[i]
    case ManualEdit(id, parent, content) =>
      b == a.(state := Editing, versions := a.versions + [Version(id, Some(parent), ManualVersion, content)])
    case CreateLock(id, version, start, end) =>
      && b == a.(locks := b.locks) && |b.locks| == |a.locks| + 1 && (forall i | 0 <= i < |a.locks| :: b.locks[i] == a.locks[i])
      && LockMatches(a.versions, b.locks[|a.locks|])
      && b.locks[|a.locks|] == Lock(id, version, b.locks[|a.locks|].text, start, end, b.locks[|a.locks|].order)
      && (forall i | 0 <= i < |a.locks| :: a.locks[i].order < b.locks[|a.locks|].order)
      && (if a.locks == [] then b.locks[0].order == 0 else exists i :: 0 <= i < |a.locks| && a.locks[i].order + 1 == b.locks[|a.locks|].order)
    case DeleteLock(id) => b == a.(locks := b.locks) && Filtered(b.locks, a.locks, (lock: Lock) => lock.id != id)
    case Finalize(version) => b == a.(final := Some(version), state := Finalized)
    case Archive => b == if a.state == Archived then a else a.(archivedFrom := Some(a.state), state := Archived)
    case Restore => Some(b.state) == a.archivedFrom && b == a.(state := b.state, archivedFrom := None)
  }

  lemma RowEdits(doc: Doc, edit: Edit)
    requires edit.UpdateDraft? || edit.UpdateAnalysis? || edit.UpdateSuggestion?
    ensures ApplyEdit(doc, edit).Ok? <==> Editable(doc, edit)
    ensures ApplyEdit(doc, edit).Ok? ==> EditDone(doc, ApplyEdit(doc, edit).value, edit)
  {
  }

  lemma VersionEdits(doc: Doc, edit: Edit)
    requires edit.ManualEdit? || edit.Finalize?
    ensures ApplyEdit(doc, edit).Ok? <==> Editable(doc, edit)
    ensures ApplyEdit(doc, edit).Ok? ==> EditDone(doc, ApplyEdit(doc, edit).value, edit)
  {
    match edit
    case ManualEdit(id, parent, _) =>
      VersionKnown(doc, parent);
      VersionKnown(doc, id);
    case Finalize(version) => VersionKnown(doc, version);
  }

  lemma StateEdits(doc: Doc, edit: Edit)
    requires edit.Archive? || edit.Restore?
    ensures ApplyEdit(doc, edit).Ok? <==> Editable(doc, edit)
    ensures ApplyEdit(doc, edit).Ok? ==> EditDone(doc, ApplyEdit(doc, edit).value, edit)
  {
  }

  lemma LockCreated(doc: Doc, id: Id, version: Id, start: nat, end: nat)
    ensures
      var edit := CreateLock(id, version, start, end);
      && (ApplyEdit(doc, edit).Ok? <==> Editable(doc, edit))
      && (ApplyEdit(doc, edit).Ok? ==> EditDone(doc, ApplyEdit(doc, edit).value, edit))
  {
    VersionKnown(doc, version);
    assert forall i | 0 <= i < |doc.locks| :: RangesOverlap(doc.locks[i], version, start, end) <==>
      doc.locks[i].source == version && start < doc.locks[i].end && doc.locks[i].start < end;
  }

  lemma LockDeleted(doc: Doc, lock: Id)
    ensures
      && (ApplyEdit(doc, DeleteLock(lock)).Ok? <==> Editable(doc, DeleteLock(lock)))
      && (ApplyEdit(doc, DeleteLock(lock)).Ok? ==> EditDone(doc, ApplyEdit(doc, DeleteLock(lock)).value, DeleteLock(lock)))
  {
    WithoutLockFiltered(doc.locks, lock);
  }

  lemma ApplyMeans(doc: Doc, edit: Edit)
    ensures ApplyEdit(doc, edit).Ok? <==> Editable(doc, edit)
    ensures ApplyEdit(doc, edit).Ok? ==> EditDone(doc, ApplyEdit(doc, edit).value, edit)
  {
    match edit
    case CreateLock(id, version, start, end) => LockCreated(doc, id, version, start, end);
    case DeleteLock(lock) => LockDeleted(doc, lock);
    case ManualEdit(_, _, _) => VersionEdits(doc, edit);
    case Finalize(_) => VersionEdits(doc, edit);
    case Archive => StateEdits(doc, edit);
    case Restore => StateEdits(doc, edit);
    case _ => RowEdits(doc, edit);
  }

  /** An endpoint succeeds iff the document is the member's, has no active operation and admits
      the edit, and then that document alone is edited. */
  ghost predicate Edited(s: State, t: State, r: Result<Id, Error>, task: Id, owner: Id, edit: Edit) {
    && (r.Ok? <==> Owns(s, task, owner) && Quiet(s, task) && Editable(s.docs[task], edit))
    && (r.Err? ==> t == s)
    && (r.Ok? ==> t == s.(docs := t.docs) && OnlyDoc(s.docs, t.docs, task) && EditDone(s.docs[task], t.docs[task], edit))
  }

  lemma EditMeans(s: State, task: Id, owner: Id, edit: Edit)
    ensures var (t, r) := EditTo(s, task, owner, edit); Edited(s, t, r, task, owner, edit)
  {
    if task in s.docs {
      ApplyMeans(s.docs[task], edit);
      assert HasActive(s.ops, task) <==> !Quiet(s, task);
    }
  }

  // ---------------------------------------------------------------- the worker's answer

  predicate HasDraft(doc: Doc) {
    exists i :: 0 <= i < |doc.versions| && doc.versions[i].kind == FirstDraftVersion
  }

  /** A reply that is saved, given the rows read before the call and the ids drawn for new rows. */
  ghost predicate Acceptable(doc: Doc, inputs: Doc, p: Payload, reply: Reply, ids: seq<Id>) {
    match p
    case AnalysisPayload => reply.TextReply? && ids != []
    case SuggestionsPayload(analysis, decisions) =>
      && reply.IdeasReply? && Complete([], reply.ideas)
      && var (fixed, added) := Merged(inputs, analysis, decisions, reply.ideas);
         Complete(fixed, added) && |added| <= |ids| && FreshIds(ids, doc.suggestions)
    case FirstDraftPayload(_, _) => reply.TextReply? && !HasDraft(inputs) && ids != [] && !HasVersion(doc, ids[0])
    case RevisionPayload(parent, scope) =>
      && reply.TextReply? && HasVersion(inputs, parent) && HasDraft(inputs)
      && AllHeld(reply.text, LockTexts(inputs.locks))
      && (scope.Selection? ==>
            var content := inputs.versions[VersionAt(inputs.versions, parent)].content;
            scope.end <= |content| && KeepsOutside(content, reply.text, scope.start, scope.end))
      && ids != [] && !HasVersion(doc, ids[0])
  }

  /** The rows a merge leaves: those of other analyses and the kept ones, then the new ones. */
  ghost predicate MergeSaved(a: Doc, b: Doc, inputs: Doc, p: Payload, ideas: seq<Idea>, ids: seq<Id>, kept: seq<SuggestionRow>)
    requires p.SuggestionsPayload?
  {
    var (fixed, added) := Merged(inputs, p.analysis, p.decisions, ideas);
    MergedRows(a.suggestions, b.suggestions, p.analysis, fixed, added, ids, kept)
  }

  /** What a saved reply does to the document. */
  ghost predicate AnswerSaved(a: Doc, b: Doc, inputs: Doc, p: Payload, reply: Reply, ids: seq<Id>)
    requires Acceptable(a, inputs, p, reply, ids)
  {
    match p
    case AnalysisPayload =>
      b == a.(state := AnalysisReady, analyses := b.analyses) && NewestSelected(a.analyses, b.analyses, ids[0], reply.text)
    case SuggestionsPayload(_, _) =>
      b == a.(state := SuggestionsReady, suggestions := b.suggestions) && exists kept :: MergeSaved(a, b, inputs, p, reply.ideas, ids, kept)
    case FirstDraftPayload(_, _) =>
      b == a.(state := Editing, versions := a.versions + [Version(ids[0], None, FirstDraftVersion, reply.text)])
    case RevisionPayload(parent, _) =>
      b == a.(state := Editing, versions := a.versions + [Version(ids[0], Some(parent), AiRevision, reply.text)])
  }

  ghost predicate ReplyJudged(doc: Doc, inputs: Doc, p: Payload, reply: Reply, ids: seq<Id>) {
    var r := Persist(doc, inputs, p, Invoke(inputs, p, reply), ids);
    && (r.Ok? <==> Acceptable(doc, inputs, p, reply, ids))
    && (r.Ok? ==> AnswerSaved(doc, r.value.(state := SucceededState(KindOf(p))), inputs, p, reply, ids))
  }

  lemma AnalysisJudged(doc: Doc, inputs: Doc, reply: Reply, ids: seq<Id>)
    ensures ReplyJudged(doc, inputs, AnalysisPayload, reply, ids)
  {
    if Persist(doc, inputs, AnalysisPayload, Invoke(inputs, AnalysisPayload, reply), ids).Ok? {
      AnalysisRecorded(doc, inputs, reply, ids);
    }
  }

  lemma IdeasJudged(doc: Doc, inputs: Doc, p: Payload, reply: Reply, ids: seq<Id>)
    requires p.SuggestionsPayload?
    ensures ReplyJudged(doc, inputs, p, reply, ids)
  {
    if reply.IdeasReply? {
      CompleteIsValid([], reply.ideas);
      assert IdeasOf([]) + reply.ideas == reply.ideas;
      var kept := MergeMeans(doc, inputs, p.analysis, p.decisions, reply.ideas, ids);
      var r := MergeSuggestions(doc, inputs, p.analysis, p.decisions, reply.ideas, ids);
      if r.Ok? { assert MergeSaved(doc, r.value.(state := SuggestionsReady), inputs, p, reply.ideas, ids, kept); }
    }
  }

  lemma TextJudged(doc: Doc, inputs: Doc, p: Payload, reply: Reply, ids: seq<Id>)
    requires p.FirstDraftPayload? || p.RevisionPayload?
    ensures ReplyJudged(doc, inputs, p, reply, ids)
  {
    assert HasDraft(inputs) <==> HasFirstDraft(inputs.versions);
    if ids != [] { VersionKnown(doc, ids[0]); }
    if p.RevisionPayload? { VersionKnown(inputs, p.parent); }
  }

  /** After the provider call: an acceptable reply is saved and the operation succeeds; any
      other fails it and puts its document back. A row that is gone breaks the run. */
  ghost predicate Answered(s: State, t: State, w: Id, o: Id, reply: Reply, ids: seq<Id>)
    requires IsCalling(s, w, o)
  {
    var id, inputs := s.jobs[(w, o)].op, s.jobs[(w, o)].phase.inputs;
    && t.issued == s.issued && t.now == s.now && OnlyJob(s.jobs, t.jobs, (w, o)) && (w, o) in t.jobs
    && if id !in s.ops || s.ops[id].task !in s.docs then
         t.ops == s.ops && t.docs == s.docs && t.jobs[(w, o)] == Job(id, Broken)
       else
         var op := s.ops[id];
         && OnlyDoc(s.docs, t.docs, op.task)
         && if Acceptable(s.docs[op.task], inputs, op.payload, reply, ids) then
              && t.ops == s.ops[id := op.(status := Succeeded)] && t.jobs[(w, o)] == Job(id, Saved)
              && AnswerSaved(s.docs[op.task], t.docs[op.task], inputs, op.payload, reply, ids)
            else
              && t.ops == s.ops[id := op.(status := Failed)] && t.jobs[(w, o)] == Job(id, Broken)
              && t.docs[op.task] == s.docs[op.task].(state := op.initial)
  }

  lemma Judged(doc: Doc, inputs: Doc, p: Payload, reply: Reply, ids: seq<Id>)
    ensures ReplyJudged(doc, inputs, p, reply, ids)
  {
    match p
    case AnalysisPayload => AnalysisJudged(doc, inputs, reply, ids);
    case SuggestionsPayload(_, _) => IdeasJudged(doc, inputs, p, reply, ids);
    case _ => TextJudged(doc, inputs, p, reply, ids);
  }

  lemma AnswerMeans(s: State, w: Id, o: Id, reply: Reply, ids: seq<Id>)
    requires IsCalling(s, w, o)
    ensures Answered(s, RespondTo(s, w, o, reply, ids), w, o, reply, ids)
  {
    var id := s.jobs[(w, o)].op;
    if id in s.ops && s.ops[id].task in s.docs {
      Judged(s.docs[s.ops[id].task], s.jobs[(w, o)].phase.inputs, s.ops[id].payload, reply, ids);
    }
  }

  // ---------------------------------------------------------------- preparation and recovery

  /** Every row a run needs is there, every suggestion of the analysis has a decision, a
      regeneration has something to replace, and drafts work from a complete set. */
  ghost predicate Preparable(doc: Doc, p: Payload) {
    match p
    case AnalysisPayload => true
    case SuggestionsPayload(analysis, decisions) =>
      && HasAnalysis(doc, analysis) && DecidesEach(doc.suggestions, analysis, decisions)
      && ((exists i :: 0 <= i < |doc.suggestions| && doc.suggestions[i].analysis == analysis) ==>
            exists i :: 0 <= i < |doc.suggestions| && doc.suggestions[i].analysis == analysis && Dropped(doc.suggestions[i], decisions))
    case FirstDraftPayload(analysis, decisions) => SetChosen(doc, analysis, decisions)
    case RevisionPayload(parent, scope) =>
      HasVersion(doc, parent) && (scope.FromSuggestions? ==> SetChosen(doc, scope.basis, scope.choices))
  }

  predicate Dropped(row: SuggestionRow, decisions: map<Id, Choice>) {
    row.id !in decisions || !decisions[row.id].selected
  }

  predicate DecidesEach(rows: seq<SuggestionRow>, analysis: Id, decisions: map<Id, Choice>) {
    forall i | 0 <= i < |rows| && rows[i].analysis == analysis :: rows[i].id in decisions
  }

  predicate SetChosen(doc: Doc, analysis: Id, decisions: map<Id, Choice>) {
    HasAnalysis(doc, analysis) && DecidesEach(doc.suggestions, analysis, decisions) && Complete(RowsOf(doc.suggestions, analysis), [])
  }

  lemma LookupsMean(rows: seq<SuggestionRow>, analysis: Id, decisions: map<Id, Choice>)
    ensures IdsOf(RowsOf(rows, analysis)) <= decisions.Keys <==> DecidesEach(rows, analysis, decisions)
  {
    forall x: Id ensures x in IdsOf(RowsOf(rows, analysis)) <==> exists i :: 0 <= i < |rows| && rows[i].analysis == analysis && rows[i].id == x {
      GroupIds(rows, analysis, x);
    }
  }

  lemma {:induction false} SomeDropped(rows: seq<SuggestionRow>, analysis: Id, decisions: map<Id, Choice>)
    ensures |Fixed(RowsOf(rows, analysis), decisions)| <= |RowsOf(rows, analysis)|
    ensures RowsOf(rows, analysis) == [] <==> forall i | 0 <= i < |rows| :: rows[i].analysis != analysis
    ensures |Fixed(RowsOf(rows, analysis), decisions)| < |RowsOf(rows, analysis)| <==>
      exists i :: 0 <= i < |rows| && rows[i].analysis == analysis && Dropped(rows[i], decisions)
  {
    if rows != [] {
      var front, last := rows[..|rows| - 1], rows[|rows| - 1];
      var group := RowsOf(front, analysis);
      SomeDropped(front, analysis, decisions);
      assert (group + [last])[..|group|] == group;
      assert RowsOf(rows, analysis) == if last.analysis == analysis then group + [last] else group;
      assert forall i | 0 <= i < |front| :: rows[i] == front[i];
    }
  }

  lemma SetMeans(doc: Doc, analysis: Id, decisions: map<Id, Choice>)
    ensures
      && HasAnalysis(doc, analysis) && ValidSet(IdeasOf(RowsOf(doc.suggestions, analysis)))
      && IdsOf(RowsOf(doc.suggestions, analysis)) <= decisions.Keys
      <==> SetChosen(doc, analysis, decisions)
  {
    var group := RowsOf(doc.suggestions, analysis);
    CompleteIsValid(group, []);
    assert IdeasOf(group) + [] == IdeasOf(group);
    LookupsMean(doc.suggestions, analysis, decisions);
  }

  lemma PreparationMeans(doc: Doc, p: Payload)
    ensures PreparationOk(doc, p) <==> Preparable(doc, p)
  {
    match p
    case SuggestionsPayload(analysis, decisions) =>
      LookupsMean(doc.suggestions, analysis, decisions);
      SomeDropped(doc.suggestions, analysis, decisions);
    case FirstDraftPayload(analysis, decisions) => SetMeans(doc, analysis, decisions);
    case RevisionPayload(parent, scope) =>
      VersionKnown(doc, parent);
      if scope.FromSuggestions? { SetMeans(doc, scope.basis, scope.choices); }
    case _ =>
  }

  /** The document is back where the operation found it, if it still shows the operation. */
  predicate PutBack(before: Doc, after: Doc, op: Op) {
    after == if before.state == RunningState(KindOf(op.payload)) then before.(state := op.initial) else before
  }

  /** The operation ended with `status` and its document went back to where it was found,
      whatever it shows; without both rows nothing happened. */
  predicate RowsEnded(s: State, t: State, id: Id, status: OperationStatus) {
    if id in s.ops && s.ops[id].task in s.docs then
      var op := s.ops[id];
      t.ops == s.ops[id := op.(status := status)] && t.docs == s.docs[op.task := s.docs[op.task].(state := op.initial)]
    else t.ops == s.ops && t.docs == s.docs
  }

  /** Exactly the stale operations failed, and their documents were put back. */
  predicate Recovered(s: State, t: State, stale: seq<Id>)
    requires forall i | i in stale :: i in s.ops
  {
    && t == s.(ops := t.ops, docs := t.docs) && t.ops.Keys == s.ops.Keys && t.docs.Keys == s.docs.Keys
    && (forall i | i in s.ops :: t.ops[i] == if i in stale && s.ops[i].task in s.docs then s.ops[i].(status := Failed) else s.ops[i])
    && (forall u | u in s.docs && forall i | i in stale :: s.ops[i].task != u :: t.docs[u] == s.docs[u])
    && forall i | i in stale && s.ops[i].task in s.docs && Alone(s.ops, stale, i) ::
         PutBack(s.docs[s.ops[i].task], t.docs[s.ops[i].task], s.ops[i])
  }

  /** No other listed operation has the same document. */
  predicate Alone(ops: map<Id, Op>, stale: seq<Id>, i: Id)
    requires i in ops && forall j | j in stale :: j in ops
  {
    forall j | j in stale && j != i :: ops[j].task != ops[i].task
  }

  lemma {:induction false} RecoverMeans(s: State, stale: seq<Id>)
    requires Distinct(stale) && forall i | i in stale :: i in s.ops
    ensures Recovered(s, Recover(s, stale), stale)
  {
    if stale != [] {
      var front, last := stale[..|stale| - 1], stale[|stale| - 1];
      RecoverMeans(s, front);
      assert stale == front + [last];
      RecoverNext(s, Recover(s, front), front, last);
    }
  }

  function FailOne(t: State, id: Id): (r: State)
    requires id in t.ops
  {
    if t.ops[id].task in t.docs then End(t, id, Failed, Released(t, id)) else t
  }

  lemma FailOneRows(t: State, id: Id)
    requires id in t.ops
    ensures FailOne(t, id) == t.(ops := FailOne(t, id).ops, docs := FailOne(t, id).docs)
    ensures FailOne(t, id).ops == if t.ops[id].task in t.docs then t.ops[id := t.ops[id].(status := Failed)] else t.ops
    ensures OnlyDoc(t.docs, FailOne(t, id).docs, t.ops[id].task)
    ensures t.ops[id].task in t.docs ==> PutBack(t.docs[t.ops[id].task], FailOne(t, id).docs[t.ops[id].task], t.ops[id])
  {
  }

  lemma RecoverNext(s: State, t: State, front: seq<Id>, last: Id)
    requires (forall i | i in front :: i in s.ops) && last in s.ops && last !in front && Recovered(s, t, front)
    ensures Recovered(s, FailOne(t, last), front + [last])
  {
    var more, r := front + [last], FailOne(t, last);
    assert t.ops[last] == s.ops[last];
    FailOneRows(t, last);
    assert forall i | i in s.ops :: i in more <==> i in front || i == last;
    forall i | i in more && s.ops[i].task in s.docs && Alone(s.ops, more, i)
      ensures PutBack(s.docs[s.ops[i].task], r.docs[s.ops[i].task], s.ops[i])
    {
      AloneNext(s, t, front, last, r, i);
    }
    forall u | u in s.docs && forall i | i in more :: s.ops[i].task != u
      ensures r.docs[u] == s.docs[u]
    {
      assert last in more;
      assert forall i | i in front :: i in more;
    }
  }

  lemma AloneNext(s: State, t: State, front: seq<Id>, last: Id, r: State, i: Id)
    requires (forall i | i in front :: i in s.ops) && last in s.ops && last !in front && Recovered(s, t, front)
    requires t.ops[last] == s.ops[last] && OnlyDoc(t.docs, r.docs, s.ops[last].task)
    requires s.ops[last].task in t.docs ==> PutBack(t.docs[s.ops[last].task], r.docs[s.ops[last].task], s.ops[last])
    requires i in front + [last] && i in s.ops && s.ops[i].task in s.docs && Alone(s.ops, front + [last], i)
    ensures PutBack(s.docs[s.ops[i].task], r.docs[s.ops[i].task], s.ops[i])
  {
    var more := front + [last];
    assert last in more;
    assert forall j | j in front :: j in more;
    if i == last {
      assert t.docs[s.ops[i].task] == s.docs[s.ops[i].task];
    } else {
      assert Alone(s.ops, front, i);
      assert PutBack(s.docs[s.ops[i].task], t.docs[s.ops[i].task], s.ops[i]);
    }
  }
}
