/** Concrete runs from the empty system that break the first-draft rule: a shutdown right after
    the success commit leaves a draft in a state that allows another, and the late success of
    a recovered operation leaves two. */
module QueueDraftRuns {
  import opened Basics
  import opened Domain
  import opened Documents
  import opened DocumentFacts
  import opened Queue
  import opened QueueInvariant
  import opened QueueAgreement
  import opened QueueDraft
  import opened QueueBadRuns

  // ---------------------------------------------------------------- one operation, step by step

  /** The document an operation is queued with. */
  function ShownDoc(doc: Doc, payload: Payload): (r: Doc)
    requires ApplySnapshot(doc, payload).Ok?
  {
    ApplySnapshot(doc, payload).value.(state := RunningState(KindOf(payload)))
  }

  function Row(payload: Payload, status: OperationStatus, initial: TaskState, started: int): (op: Op) {
    Op(MEMBER, TASK, payload, status, None, 0, initial, started)
  }

  /** Nothing is active and the member's document can take the operation. */
  predicate Free(s: State, id: Id, payload: Payload) {
    && TASK in s.docs && s.docs[TASK].owner == MEMBER && id !in s.issued
    && (forall i | i in s.ops :: !ActiveOp(s.ops[i]))
    && Allowed(s.docs[TASK].state, RunningState(KindOf(payload))) && ApplySnapshot(s.docs[TASK], payload).Ok?
  }

  function Queues(s: State, id: Id, payload: Payload): (r: State)
    requires Free(s, id, payload)
  {
    s.(docs := s.docs[TASK := ShownDoc(s.docs[TASK], payload)], issued := s.issued + {id},
       ops := s.ops[id := Row(payload, Queued, s.docs[TASK].state, 0)])
  }

  lemma SubmitQueues(s: State, id: Id, payload: Payload)
    requires Free(s, id, payload)
    ensures Next(s, Submit(id, TASK, MEMBER, payload, None, 0, true)) == Queues(s, id, payload)
  {
  }

  /** The operation claimed by worker `w`, which has read the queued document. */
  function InCall(s: State, w: Id, id: Id, payload: Payload): (r: State)
    requires Free(s, id, payload)
  {
    var doc := ShownDoc(s.docs[TASK], payload);
    Queues(s, id, payload).(
      ops := s.ops[id := Row(payload, Running, s.docs[TASK].state, s.now)],
      jobs := s.jobs[(w, MEMBER) := Job(id, Calling(doc))])
  }

  lemma PrepareReads(s: State, w: Id, id: Id, doc: Doc)
    requires (w, MEMBER) in s.jobs && s.jobs[(w, MEMBER)] == Job(id, Started) && id in s.ops && s.ops[id].status == Queued
    requires s.ops[id].task in s.docs && s.docs[s.ops[id].task] == doc && PreparationOk(doc, s.ops[id].payload)
    ensures Next(s, Prepare(w, MEMBER, true)) == s.(jobs := s.jobs[(w, MEMBER) := Job(id, Prepared(doc))])
  {
  }

  lemma ClaimStarts(s: State, w: Id, id: Id, doc: Doc)
    requires (w, MEMBER) in s.jobs && s.jobs[(w, MEMBER)] == Job(id, Prepared(doc)) && id in s.ops && s.ops[id].status == Queued
    requires s.ops[id].task in s.docs && s.docs[s.ops[id].task].state == Shown(s.ops[id])
    ensures Next(s, Claim(w, MEMBER, true)) ==
            s.(ops := s.ops[id := s.ops[id].(status := Running, started := s.now)], jobs := s.jobs[(w, MEMBER) := Job(id, Calling(doc))])
  {
  }

  lemma {:induction false} Append(before: seq<Step>, s: State, step: Step, r: State) returns (steps: seq<Step>)
    requires Run(Initial(0), before) == s && Next(s, step) == r
    ensures Run(Initial(0), steps) == r
  {
    RunSnoc(Initial(0), before, step);
    steps := before + [step];
  }

  /** Submit, pick, prepare and claim. */
  lemma RunToCall(before: seq<Step>, s: State, w: Id, id: Id, payload: Payload) returns (steps: seq<Step>)
    requires Run(Initial(0), before) == s && Free(s, id, payload) && (w, MEMBER) !in s.jobs
    requires PreparationOk(ShownDoc(s.docs[TASK], payload), payload)
    ensures Run(Initial(0), steps) == InCall(s, w, id, payload)
  {
    var doc := ShownDoc(s.docs[TASK], payload);
    steps := RunToPick(before, s, w, id, payload);
    var picked := Queues(s, id, payload).(jobs := s.jobs[(w, MEMBER) := Job(id, Started)]);
    PickedFits(s, w, id, payload, picked);
    steps := RunFromPick(steps, picked, w, id, doc);
  }

  lemma PickedFits(s: State, w: Id, id: Id, payload: Payload, picked: State)
    requires Free(s, id, payload) && picked == Queues(s, id, payload).(jobs := s.jobs[(w, MEMBER) := Job(id, Started)])
    ensures
      var doc := ShownDoc(s.docs[TASK], payload);
      && id in picked.ops && TASK in picked.docs && picked.docs[TASK] == doc && doc.state == Shown(picked.ops[id])
      && picked.ops[id] == Row(payload, Queued, s.docs[TASK].state, 0)
      && picked.(ops := picked.ops[id := picked.ops[id].(status := Running, started := s.now)],
                 jobs := picked.jobs[(w, MEMBER) := Job(id, Calling(doc))]) == InCall(s, w, id, payload)
  {
    var doc, r := ShownDoc(s.docs[TASK], payload), InCall(s, w, id, payload);
    assert picked.jobs[(w, MEMBER) := Job(id, Calling(doc))] == r.jobs;
    assert picked.ops[id := picked.ops[id].(status := Running, started := s.now)] == r.ops;
  }

  lemma RunToPick(before: seq<Step>, s: State, w: Id, id: Id, payload: Payload) returns (steps: seq<Step>)
    requires Run(Initial(0), before) == s && Free(s, id, payload) && (w, MEMBER) !in s.jobs
    ensures Run(Initial(0), steps) == Queues(s, id, payload).(jobs := s.jobs[(w, MEMBER) := Job(id, Started)])
  {
    var queued := Queues(s, id, payload);
    SubmitQueues(s, id, payload);
    steps := Append(before, s, Submit(id, TASK, MEMBER, payload, None, 0, true), queued);
    TickPicks(queued, w, id);
    steps := Append(steps, queued, Tick(w, map[MEMBER := id]), queued.(jobs := s.jobs[(w, MEMBER) := Job(id, Started)]));
  }

  lemma RunFromPick(before: seq<Step>, s: State, w: Id, id: Id, doc: Doc) returns (steps: seq<Step>)
    requires Run(Initial(0), before) == s && (w, MEMBER) in s.jobs && s.jobs[(w, MEMBER)] == Job(id, Started)
    requires id in s.ops && s.ops[id].status == Queued && s.ops[id].task in s.docs && s.docs[s.ops[id].task] == doc
    requires doc.state == Shown(s.ops[id]) && PreparationOk(doc, s.ops[id].payload)
    ensures Run(Initial(0), steps) ==
            s.(ops := s.ops[id := s.ops[id].(status := Running, started := s.now)], jobs := s.jobs[(w, MEMBER) := Job(id, Calling(doc))])
  {
    var prepared := s.(jobs := s.jobs[(w, MEMBER) := Job(id, Prepared(doc))]);
    PrepareReads(s, w, id, doc);
    steps := Append(before, s, Prepare(w, MEMBER, true), prepared);
    ClaimStarts(prepared, w, id, doc);
    var r := Next(prepared, Claim(w, MEMBER, true));
    steps := Append(steps, prepared, Claim(w, MEMBER, true), r);
    assert prepared.jobs[(w, MEMBER) := Job(id, Calling(doc))] == s.jobs[(w, MEMBER) := Job(id, Calling(doc))];
  }

  /** The state after an answer that is saved. */
  function AfterAnswer(s: State, w: Id, id: Id, saved: Doc): (r: State)
    requires id in s.ops
  {
    s.(docs := s.docs[s.ops[id].task := saved.(state := SucceededState(KindOf(s.ops[id].payload)))],
       ops := s.ops[id := s.ops[id].(status := Succeeded)], jobs := s.jobs[(w, MEMBER) := Job(id, Saved)])
  }

  lemma RespondSaves(s: State, w: Id, id: Id, inputs: Doc, reply: Reply, ids: seq<Id>, saved: Doc)
    requires (w, MEMBER) in s.jobs && s.jobs[(w, MEMBER)] == Job(id, Calling(inputs)) && id in s.ops && s.ops[id].task in s.docs
    requires Persist(s.docs[s.ops[id].task], inputs, s.ops[id].payload, Invoke(inputs, s.ops[id].payload, reply), ids) == Ok(saved)
    ensures Next(s, Respond(w, MEMBER, reply, ids)) == AfterAnswer(s, w, id, saved)
  {
  }

  lemma ReturnDrops(s: State, w: Id, id: Id)
    requires (w, MEMBER) in s.jobs && s.jobs[(w, MEMBER)] == Job(id, Saved)
    ensures Next(s, Return(w, MEMBER)) == s.(jobs := s.jobs - {(w, MEMBER)})
  {
  }

  /** The state after a whole operation of a worker without other jobs. */
  function Completed(s: State, id: Id, payload: Payload, saved: Doc): (r: State)
    requires Free(s, id, payload)
  {
    State(s.docs[TASK := saved.(state := SucceededState(KindOf(payload)))],
          s.ops[id := Row(payload, Succeeded, s.docs[TASK].state, s.now)], map[], s.issued + {id}, s.now)
  }

  /** A whole operation of worker 1, from submission to return. */
  lemma RunToCompleted(before: seq<Step>, s: State, id: Id, payload: Payload, reply: Reply, ids: seq<Id>, saved: Doc) returns (steps: seq<Step>)
    requires Run(Initial(0), before) == s && Free(s, id, payload) && s.jobs == map[]
    requires PreparationOk(ShownDoc(s.docs[TASK], payload), payload)
    requires
      var doc := ShownDoc(s.docs[TASK], payload);
      Persist(doc, doc, payload, Invoke(doc, payload, reply), ids) == Ok(saved)
    ensures Run(Initial(0), steps) == Completed(s, id, payload, saved)
  {
    steps := RunToCall(before, s, 1, id, payload);
    var called := InCall(s, 1, id, payload);
    CallFits(s, id, payload, saved);
    steps := RunFromCall(steps, called, id, ShownDoc(s.docs[TASK], payload), reply, ids, saved);
  }

  lemma CallFits(s: State, id: Id, payload: Payload, saved: Doc)
    requires Free(s, id, payload) && s.jobs == map[]
    ensures
      var called, doc := InCall(s, 1, id, payload), ShownDoc(s.docs[TASK], payload);
      && called.jobs == map[(1, MEMBER) := Job(id, Calling(doc))] && id in called.ops && TASK in called.docs && called.docs[TASK] == doc
      && called.ops[id] == Row(payload, Running, s.docs[TASK].state, s.now)
      && AfterAnswer(called, 1, id, saved).(jobs := map[]) == Completed(s, id, payload, saved)
  {
    var r, called := Completed(s, id, payload, saved), InCall(s, 1, id, payload);
    assert AfterAnswer(called, 1, id, saved).docs == r.docs;
    assert AfterAnswer(called, 1, id, saved).ops == r.ops;
  }

  lemma RunFromCall(before: seq<Step>, s: State, id: Id, doc: Doc, reply: Reply, ids: seq<Id>, saved: Doc) returns (steps: seq<Step>)
    requires Run(Initial(0), before) == s && s.jobs == map[(1, MEMBER) := Job(id, Calling(doc))]
    requires id in s.ops && s.ops[id].task in s.docs && s.docs[s.ops[id].task] == doc
    requires Persist(doc, doc, s.ops[id].payload, Invoke(doc, s.ops[id].payload, reply), ids) == Ok(saved)
    ensures Run(Initial(0), steps) == AfterAnswer(s, 1, id, saved).(jobs := map[])
  {
    RespondSaves(s, 1, id, doc, reply, ids, saved);
    var answered := AfterAnswer(s, 1, id, saved);
    steps := Append(before, s, Respond(1, MEMBER, reply, ids), answered);
    ReturnDrops(answered, 1, id);
    assert answered.jobs - {(1, MEMBER)} == map[];
    steps := Append(steps, answered, Return(1, MEMBER), answered.(jobs := map[]));
  }

  // ---------------------------------------------------------------- up to the suggestions

  const ANALYSIS: Id := 40

  function Ideas(): (ideas: seq<Idea>) {
    [Idea("a", "a", ""), Idea("b", "b", ""), Idea("c", "c", ""), Idea("d", "d", ""), Idea("e", "e", "")]
  }

  function Rows(): (rows: seq<SuggestionRow>) {
    NewRows(ANALYSIS, Ideas(), [50, 51, 52, 53, 54])
  }

  function Analyzed(): (doc: Doc) {
    Page(AnalysisReady).(analyses := [AnalysisRow(ANALYSIS, 1, "text", true)])
  }

  function Suggested(): (doc: Doc) {
    Analyzed().(suggestions := Rows(), state := SuggestionsReady)
  }

  function AllChosen(): (decisions: map<Id, Choice>) {
    map[50 := Choice(true, None), 51 := Choice(true, None), 52 := Choice(true, None), 53 := Choice(true, None), 54 := Choice(true, None)]
  }

  function DraftPayload(): (p: Payload) { FirstDraftPayload(ANALYSIS, AllChosen()) }

  lemma AnalysisSaves(doc: Doc)
    requires doc == Page(Analyzing)
    ensures Persist(doc, doc, AnalysisPayload, Invoke(doc, AnalysisPayload, TextReply("text")), [ANALYSIS]) ==
            Ok(Analyzed().(state := Analyzing))
  {
    var row := AnalysisRow(ANALYSIS, NextSequence(doc.analyses), "text", true);
    assert Unselected(doc.analyses) + [row] == [row];
  }

  lemma SuggestionsSave(doc: Doc, p: Payload)
    requires doc == Analyzed().(state := Suggesting) && p == SuggestionsPayload(ANALYSIS, map[])
    ensures Persist(doc, doc, p, Invoke(doc, p, IdeasReply(Ideas())), [50, 51, 52, 53, 54]) == Ok(Suggested().(state := Suggesting))
  {
    DistinctIdeas();
    assert Invoke(doc, p, IdeasReply(Ideas())) == SaveIdeas(Ideas());
    FirstMerge(doc, ANALYSIS, map[], Ideas(), [50, 51, 52, 53, 54], [], Rows());
  }

  lemma DistinctIdeas()
    ensures ValidSet(Ideas())
  {
  }

  /** The first creation of suggestions saves them all. */
  lemma {:induction false} FirstMerge(
    doc: Doc, analysis: Id, decisions: map<Id, Choice>, ideas: seq<Idea>, ids: seq<Id>, none: seq<SuggestionRow>, rows: seq<SuggestionRow>)
    requires doc.suggestions == none == [] && ValidSet(ideas) && |ids| == |ideas| && FreshIds(ids, none)
    requires rows == NewRows(analysis, ideas, ids)
    ensures MergeSuggestions(doc, doc, analysis, decisions, ideas, ids) == Ok(doc.(suggestions := rows))
  {
    MergesAll(doc, analysis, decisions, ideas, none);
    NothingKept(analysis, ideas, rows, none);
    MergeOf(doc, analysis, decisions, ideas, ids, none, ideas);
  }

  /** What a merge saves, by its parts. */
  lemma {:induction false} MergeOf(
    doc: Doc, analysis: Id, decisions: map<Id, Choice>, ideas: seq<Idea>, ids: seq<Id>, fixed: seq<SuggestionRow>, replacements: seq<Idea>)
    requires Merged(doc, analysis, decisions, ideas) == (fixed, replacements) && ValidSet(IdeasOf(fixed) + replacements)
    requires |ids| >= |replacements| && FreshIds(ids, doc.suggestions)
    ensures MergeSuggestions(doc, doc, analysis, decisions, ideas, ids) ==
            Ok(doc.(suggestions := Kept(doc.suggestions, analysis, IdsOf(fixed)) + NewRows(analysis, replacements, ids)))
  {
  }

  lemma {:induction false} NothingKept(analysis: Id, ideas: seq<Idea>, rows: seq<SuggestionRow>, none: seq<SuggestionRow>)
    requires none == []
    ensures IdeasOf(none) + ideas == ideas && Kept(none, analysis, IdsOf(none)) + rows == rows
  {
    assert IdeasOf(none) == [] && Kept(none, analysis, IdsOf(none)) == [];
  }

  lemma {:induction false} MergesAll(doc: Doc, analysis: Id, decisions: map<Id, Choice>, ideas: seq<Idea>, none: seq<SuggestionRow>)
    requires doc.suggestions == none == [] && |ideas| <= 8
    ensures Merged(doc, analysis, decisions, ideas) == (none, ideas)
  {
    NothingFixed(ideas);
  }

  lemma {:induction false} NothingFixed(ideas: seq<Idea>)
    ensures Replacements(ideas, []) == ideas
  {
    if ideas != [] { NothingFixed(ideas[..|ideas| - 1]); }
  }

  lemma SuggestedGroup()
    ensures RowsOf(Rows(), ANALYSIS) == Rows() && IdsOf(Rows()) == {50, 51, 52, 53, 54}
    ensures ValidSet(IdeasOf(Rows())) && IdeasOf(Rows()) == Ideas()
  {
    RowsOfUniform(Rows(), ANALYSIS, ANALYSIS);
    var rows := Rows();
    assert rows[0].id == 50 && rows[1].id == 51 && rows[2].id == 52 && rows[3].id == 53 && rows[4].id == 54;
  }

  /** The member's document with suggestions, nothing active. */
  function Ready(): (s: State) {
    State(map[TASK := Suggested()],
          map[7 := Row(AnalysisPayload, Succeeded, Draft, 0), 8 := Row(SuggestionsPayload(ANALYSIS, map[]), Succeeded, AnalysisReady, 0)],
          map[], {7, 8}, 0)
  }

  lemma RunToAnalyzed() returns (steps: seq<Step>)
    ensures Run(Initial(0), steps) == State(map[TASK := Analyzed()], map[7 := Row(AnalysisPayload, Succeeded, Draft, 0)], map[], {7}, 0)
  {
    var created := Initial(0).(docs := map[TASK := Page(Draft)]);
    var create := CreateTask(TASK, MEMBER, "text", "settings");
    assert Next(Initial(0), create) == created;
    steps := Append([], Initial(0), create, created);
    assert ShownDoc(Page(Draft), AnalysisPayload) == Page(Analyzing);
    AnalysisSaves(Page(Analyzing));
    steps := RunToCompleted(steps, created, 7, AnalysisPayload, TextReply("text"), [ANALYSIS], Analyzed().(state := Analyzing));
  }

  lemma RunToReady() returns (steps: seq<Step>)
    ensures Run(Initial(0), steps) == Ready()
  {
    steps := RunToAnalyzed();
    var s := State(map[TASK := Analyzed()], map[7 := Row(AnalysisPayload, Succeeded, Draft, 0)], map[], {7}, 0);
    var p := SuggestionsPayload(ANALYSIS, map[]);
    steps := RunSuggestions(steps, s, p);
  }

  lemma RunSuggestions(before: seq<Step>, s: State, p: Payload) returns (steps: seq<Step>)
    requires s == State(map[TASK := Analyzed()], map[7 := Row(AnalysisPayload, Succeeded, Draft, 0)], map[], {7}, 0)
    requires Run(Initial(0), before) == s && p == SuggestionsPayload(ANALYSIS, map[])
    ensures Run(Initial(0), steps) == Ready()
  {
    var saved := Suggested().(state := Suggesting);
    SuggestionsPrepare(p);
    SuggestionsSave(Analyzed().(state := Suggesting), p);
    CompletedIsReady(s, p, saved);
    steps := RunToCompleted(before, s, 8, p, IdeasReply(Ideas()), [50, 51, 52, 53, 54], saved);
  }

  lemma CompletedIsReady(s: State, p: Payload, saved: Doc)
    requires s == State(map[TASK := Analyzed()], map[7 := Row(AnalysisPayload, Succeeded, Draft, 0)], map[], {7}, 0)
    requires p == SuggestionsPayload(ANALYSIS, map[]) && saved == Suggested().(state := Suggesting) && ApplySnapshot(Analyzed(), p).Ok?
    ensures Free(s, 8, p) && Completed(s, 8, p, saved) == Ready()
  {
  }

  lemma SuggestionsPrepare(p: Payload)
    requires p == SuggestionsPayload(ANALYSIS, map[])
    ensures ApplySnapshot(Analyzed(), p).Ok? && ShownDoc(Analyzed(), p) == Analyzed().(state := Suggesting)
    ensures PreparationOk(ShownDoc(Analyzed(), p), p)
  {
    assert Analyzed().analyses[0].id == ANALYSIS && Analyzed().analyses[0].selected;
    assert IdsOf(RowsOf([], ANALYSIS)) == {};
    assert Snapshot([], ANALYSIS, map[]) == [];
  }

  // ---------------------------------------------------------------- the first draft

  /** Any document with these suggestions, whatever has been decided on them. */
  predicate Draftable(doc: Doc) {
    && doc.owner == MEMBER && doc.state == SuggestionsReady && doc.archivedFrom == None && doc.versions == []
    && doc.analyses == Analyzed().analyses && SameIdeas(Rows(), doc.suggestions)
  }

  lemma DraftPrepares(doc: Doc)
    requires Draftable(doc)
    ensures ApplySnapshot(doc, DraftPayload()).Ok? && PreparationOk(ShownDoc(doc, DraftPayload()), DraftPayload())
    ensures Draftable(ShownDoc(doc, DraftPayload()).(state := SuggestionsReady))
  {
    var p, shown := DraftPayload(), Snapshot(doc.suggestions, ANALYSIS, AllChosen());
    assert doc.analyses[0].id == ANALYSIS && doc.analyses[0].selected;
    ChosenGroup(doc.suggestions);
    ChosenGroup(shown);
  }

  lemma ChosenGroup(rows: seq<SuggestionRow>)
    requires SameIdeas(Rows(), rows)
    ensures RowsOf(rows, ANALYSIS) == rows && IdsOf(rows) == AllChosen().Keys && ValidSet(IdeasOf(rows))
  {
    RowsOfUniform(rows, ANALYSIS, ANALYSIS);
    SuggestedGroup();
    assert IdsOf(rows) == IdsOf(Rows()) by {
      assert forall i | 0 <= i < |rows| :: rows[i].id == Rows()[i].id;
    }
    assert IdeasOf(rows) == IdeasOf(Rows());
  }

  lemma DraftSaves(doc: Doc, inputs: Doc, id: Id)
    requires inputs.versions == [] && VersionAt(doc.versions, id) < 0
    ensures Persist(doc, inputs, DraftPayload(), Invoke(inputs, DraftPayload(), TextReply("text")), [id]) ==
            Ok(doc.(versions := doc.versions + [Version(id, None, FirstDraftVersion, "text")]))
  {
  }

  /** A first draft is being written. */
  lemma RunToDrafting() returns (steps: seq<Step>, s: State, doc: Doc)
    ensures Run(Initial(0), steps) == s && s.docs == map[TASK := doc] && Draftable(doc.(state := SuggestionsReady)) && doc.state == Generating
    ensures s.ops.Keys == {7, 8, 9} && s.ops[9] == Row(DraftPayload(), Running, SuggestionsReady, 0)
    ensures !ActiveOp(s.ops[7]) && !ActiveOp(s.ops[8]) && s.now == 0
    ensures s.jobs == map[(1, MEMBER) := Job(9, Calling(doc))] && s.issued == {7, 8, 9}
  {
    steps := RunToReady();
    doc, s := ReadyFits();
    steps := RunToCall(steps, Ready(), 1, 9, DraftPayload());
  }

  lemma ReadyFits() returns (doc: Doc, s: State)
    ensures Free(Ready(), 9, DraftPayload()) && s == InCall(Ready(), 1, 9, DraftPayload())
    ensures doc == ShownDoc(Ready().docs[TASK], DraftPayload()) && PreparationOk(doc, DraftPayload())
    ensures Draftable(doc.(state := SuggestionsReady)) && doc.state == Generating && s.docs == map[TASK := doc]
    ensures s.ops.Keys == {7, 8, 9} && s.ops[9] == Row(DraftPayload(), Running, SuggestionsReady, 0)
    ensures !ActiveOp(s.ops[7]) && !ActiveOp(s.ops[8]) && s.now == 0
    ensures s.jobs == map[(1, MEMBER) := Job(9, Calling(doc))] && s.issued == {7, 8, 9}
  {
    SuggestedDraftable();
    DraftPrepares(Suggested());
    doc := ShownDoc(Suggested(), DraftPayload());
    s := InCall(Ready(), 1, 9, DraftPayload());
  }

  lemma SuggestedDraftable()
    ensures Draftable(Suggested())
  {
  }

  lemma CancelUndrafts(s: State, doc: Doc)
    requires TASK in s.docs && 9 in s.ops && s.ops[9] == Row(DraftPayload(), Succeeded, SuggestionsReady, 0)
    requires s.docs[TASK].versions != [] && s.docs[TASK].archivedFrom == None && (1, MEMBER) in s.jobs && s.jobs[(1, MEMBER)] == Job(9, Saved)
    ensures !DraftAll(Next(s, CancelRun(1, MEMBER)))
  {
    var r := Next(s, CancelRun(1, MEMBER));
    assert r.docs[TASK].state == SuggestionsReady;
    assert !DraftOk(r.docs[TASK]);
  }

  /** A shutdown right after the commit of a first draft: the document has its draft and is in a
      state that allows another one. */
  lemma ShutdownOrphansDraftRun() returns (steps: seq<Step>)
    ensures !DraftAll(Run(Initial(0), steps))
  {
    var s: State, doc: Doc;
    steps, s, doc := RunToDrafting();
    var saved := doc.(versions := doc.versions + [Version(60, None, FirstDraftVersion, "text")]);
    DraftSaves(doc, doc, 60);
    RespondSaves(s, 1, 9, doc, TextReply("text"), [60], saved);
    var answered := AfterAnswer(s, 1, 9, saved);
    steps := Append(steps, s, Respond(1, MEMBER, TextReply("text"), [60]), answered);
    CancelUndrafts(answered, saved);
    steps := Append(steps, answered, CancelRun(1, MEMBER), Next(answered, CancelRun(1, MEMBER)));
  }

  lemma RecoverDraft(s: State, doc: Doc)
    requires s.docs == map[TASK := doc] && doc.state == Generating && s.ops.Keys == {7, 8, 9} && s.now == 721
    requires s.ops[9] == Row(DraftPayload(), Running, SuggestionsReady, 0) && !ActiveOp(s.ops[7]) && !ActiveOp(s.ops[8])
    requires (2, MEMBER) !in s.jobs
    ensures Next(s, RecoverStale(2, MEMBER, [9])) ==
            s.(docs := map[TASK := doc.(state := SuggestionsReady)], ops := s.ops[9 := Row(DraftPayload(), Failed, SuggestionsReady, 0)])
  {
    assert Stale(s, MEMBER, 9) && !Stale(s, MEMBER, 7) && !Stale(s, MEMBER, 8);
    assert Recover(s, []) == s && [9][..0] == [];
  }

  /** The first draft of worker 1 outlives the stale window and is recovered by worker 2. */
  lemma RunToAbandoned() returns (steps: seq<Step>, s: State, inputs: Doc)
    ensures Run(Initial(0), steps) == s && TASK in s.docs && Draftable(s.docs[TASK]) && inputs.versions == []
    ensures s.ops.Keys == {7, 8, 9} && (forall i | i in s.ops :: !ActiveOp(s.ops[i])) && s.issued == {7, 8, 9}
    ensures s.ops[9] == Row(DraftPayload(), Failed, SuggestionsReady, 0)
    ensures s.jobs == map[(1, MEMBER) := Job(9, Calling(inputs))]
  {
    var drafting: State;
    steps, drafting, inputs := RunToDrafting();
    PassesTo(drafting, 721);
    var late := drafting.(now := 721);
    steps := Append(steps, drafting, Pass(721), late);
    RecoverDraft(late, inputs);
    s := late.(docs := map[TASK := inputs.(state := SuggestionsReady)], ops := late.ops[9 := Row(DraftPayload(), Failed, SuggestionsReady, 0)]);
    steps := Append(steps, late, RecoverStale(2, MEMBER, [9]), s);
  }

  /** The member submits again and worker 2 saves a first draft, while worker 1 still waits. */
  lemma RunToRedrafted() returns (steps: seq<Step>, s: State, inputs: Doc)
    ensures Run(Initial(0), steps) == s && TASK in s.docs && s.docs[TASK].state == Editing && s.docs[TASK].archivedFrom == None
    ensures s.docs[TASK].versions == [Version(61, None, FirstDraftVersion, "text")] && inputs.versions == []
    ensures 9 in s.ops && s.ops[9] == Row(DraftPayload(), Failed, SuggestionsReady, 0)
    ensures (1, MEMBER) in s.jobs && s.jobs[(1, MEMBER)] == Job(9, Calling(inputs))
  {
    var idle: State;
    steps, idle, inputs := RunToAbandoned();
    steps, s := RunRedraft(steps, idle, DraftPayload());
  }

  lemma RunRedraft(before: seq<Step>, idle: State, p: Payload) returns (steps: seq<Step>, s: State)
    requires Run(Initial(0), before) == idle && p == DraftPayload() && TASK in idle.docs && Draftable(idle.docs[TASK])
    requires (forall i | i in idle.ops :: !ActiveOp(idle.ops[i])) && 10 !in idle.issued && (2, MEMBER) !in idle.jobs
    ensures Run(Initial(0), steps) == s && TASK in s.docs && s.docs[TASK].state == Editing && s.docs[TASK].archivedFrom == None
    ensures s.docs[TASK].versions == [Version(61, None, FirstDraftVersion, "text")]
    ensures forall i | i in idle.ops && i != 10 :: i in s.ops && s.ops[i] == idle.ops[i]
    ensures forall k | k in idle.jobs && k != (2, MEMBER) :: k in s.jobs && s.jobs[k] == idle.jobs[k]
  {
    DraftPrepares(idle.docs[TASK]);
    steps := RunToCall(before, idle, 2, 10, p);
    var called := InCall(idle, 2, 10, p);
    s := Redraft(idle, called);
    steps := Append(steps, called, Respond(2, MEMBER, TextReply("text"), [61]), s);
  }

  lemma Redraft(idle: State, called: State) returns (s: State)
    requires Free(idle, 10, DraftPayload()) && Draftable(idle.docs[TASK]) && called == InCall(idle, 2, 10, DraftPayload())
    ensures s == Next(called, Respond(2, MEMBER, TextReply("text"), [61]))
    ensures TASK in s.docs && s.docs[TASK].state == Editing && s.docs[TASK].archivedFrom == None
    ensures s.docs[TASK].versions == [Version(61, None, FirstDraftVersion, "text")]
    ensures forall i | i in idle.ops && i != 10 :: i in s.ops && s.ops[i] == idle.ops[i]
    ensures forall k | k in idle.jobs && k != (2, MEMBER) :: k in s.jobs && s.jobs[k] == idle.jobs[k]
  {
    DraftPrepares(idle.docs[TASK]);
    var doc := ShownDoc(idle.docs[TASK], DraftPayload());
    DraftSaves(doc, doc, 61);
    var saved := doc.(versions := doc.versions + [Version(61, None, FirstDraftVersion, "text")]);
    RespondSaves(called, 2, 10, doc, TextReply("text"), [61], saved);
    s := AfterAnswer(called, 2, 10, saved);
  }

  /** The late success of the recovered operation leaves two first drafts. */
  lemma LateSuccessLeavesTwoDrafts() returns (steps: seq<Step>)
    ensures !DraftAll(Run(Initial(0), steps))
    ensures TASK in Run(Initial(0), steps).docs && FirstDrafts(Run(Initial(0), steps).docs[TASK].versions) == 2
  {
    var s: State, inputs: Doc;
    steps, s, inputs := RunToRedrafted();
    var doc := s.docs[TASK];
    DraftSaves(doc, inputs, 60);
    var saved := doc.(versions := doc.versions + [Version(60, None, FirstDraftVersion, "text")]);
    RespondSaves(s, 1, 9, inputs, TextReply("text"), [60], saved);
    var r := AfterAnswer(s, 1, 9, saved);
    steps := Append(steps, s, Respond(1, MEMBER, TextReply("text"), [60]), r);
    TwoDrafts(r.docs[TASK], doc.versions[0], Version(60, None, FirstDraftVersion, "text"));
  }

  lemma TwoDrafts(doc: Doc, a: Version, b: Version)
    requires doc.versions == [a] + [b] && a.kind == b.kind == FirstDraftVersion && doc.state == Editing
    ensures FirstDrafts(doc.versions) == 2 && !DraftOk(doc)
  {
    assert [a][..0] == [] && FirstDrafts([a]) == 1;
    assert doc.versions[..1] == [a] && doc.versions[1] == b;
  }
}
