/** Concrete runs from the empty system in which the late answer of a recovered operation hits a
    document that has moved on: it changes the content under a queued operation, saves a text
    that misses a lock created since, and leaves an analysis with one suggestion. */
module QueueLateRuns {
  import opened Basics
  import opened Domain
  import opened Validation
  import opened Documents
  import opened DocumentFacts
  import opened Queue
  import opened QueueInvariant
  import opened QueueAgreement
  import opened QueueFreeze
  import opened QueueMerge
  import opened QueueBadRuns
  import opened QueueDraftRuns
  import StrippedEdits

  // ---------------------------------------------------------------- content under a queued operation

  lemma LateAnswerThaws(s: State)
    requires TASK in s.docs && s.docs[TASK] == Page(Analyzing) && 7 in s.ops && 8 in s.ops
    requires s.ops[7] == Work(Failed, 5, 0) && s.ops[8] == Work(Queued, 900, 0)
    requires (1, MEMBER) in s.jobs && s.jobs[(1, MEMBER)] == Job(7, Calling(Page(Analyzing)))
    ensures
      var r := Next(s, Respond(1, MEMBER, TextReply("analysis"), [40]));
      8 in r.ops && r.ops[8] == s.ops[8] && !ContentKept(s, r, TASK)
  {
    var r := Next(s, Respond(1, MEMBER, TextReply("analysis"), [40]));
    assert |r.docs[TASK].analyses| == 1 && |Content(r.docs[TASK]).analyses| == 1 && |Content(s.docs[TASK]).analyses| == 0;
  }

  /** The content of a document changes while an operation on it is queued. */
  lemma LateAnswerChangesFrozenContent() returns (steps: seq<Step>, step: Step)
    ensures
      var s := Run(Initial(0), steps);
      var r := Next(s, step);
      && 8 in s.ops && s.ops[8].task == TASK && s.ops[8].status == Queued && 8 in r.ops && r.ops[8] == s.ops[8]
      && !ContentKept(s, r, TASK)
  {
    steps := RunToQueued();
    steps := RunToPicked(steps, QueuedState(), 1);
    var s1 := QueuedState().(jobs := QueuedState().jobs[(1, MEMBER) := Job(7, Started)]);
    steps := RunToCalling(steps, s1, 1);
    steps := RunToRecovered(steps, Run(Initial(0), steps));
    steps := RunToResubmitted(steps, Run(Initial(0), steps));
    step := Respond(1, MEMBER, TextReply("analysis"), [40]);
    LateAnswerThaws(Run(Initial(0), steps));
  }

  // ---------------------------------------------------------------- a recovered call

  /** Operation `id` recovered: its document back at the initial state. */
  function Recovered(s: State, id: Id): (r: State)
    requires id in s.ops && TASK in s.docs
  {
    s.(now := s.now + 721, ops := s.ops[id := s.ops[id].(status := Failed)],
       docs := s.docs[TASK := s.docs[TASK].(state := s.ops[id].initial)])
  }

  predicate SoleCall(s: State, id: Id) {
    && id in s.ops && TASK in s.docs && s.ops[id].status == Running && s.ops[id].owner == MEMBER && s.ops[id].task == TASK
    && s.ops[id].started == s.now && s.docs[TASK].state == Shown(s.ops[id])
    && (forall i | i in s.ops && i != id :: !ActiveOp(s.ops[i])) && (2, MEMBER) !in s.jobs
  }

  lemma RecoverSole(s: State, id: Id, late: State)
    requires SoleCall(s, id) && late == s.(now := s.now + 721)
    ensures Next(late, RecoverStale(2, MEMBER, [id])) == Recovered(s, id)
  {
    assert forall i | i in late.ops :: Stale(late, MEMBER, i) <==> i == id;
    assert Recover(late, []) == late && [id][..0] == [];
  }

  lemma RunToLate(before: seq<Step>, s: State, id: Id) returns (steps: seq<Step>)
    requires Run(Initial(0), before) == s && SoleCall(s, id)
    ensures Run(Initial(0), steps) == Recovered(s, id)
  {
    var late := s.(now := s.now + 721);
    PassesTo(s, 721);
    steps := Append(before, s, Pass(721), late);
    RecoverSole(s, id, late);
    steps := Append(steps, late, RecoverStale(2, MEMBER, [id]), Recovered(s, id));
  }

  lemma CallIsSole(s: State, w: Id, id: Id, payload: Payload)
    requires Free(s, id, payload) && w != 2 && (2, MEMBER) !in s.jobs
    ensures SoleCall(InCall(s, w, id, payload), id)
  {
  }

  // ---------------------------------------------------------------- a lock created since

  function Revise(): (p: Payload) { RevisionPayload(60, WholeText) }

  /** A finished first draft, nothing active. */
  lemma RunToDrafted() returns (steps: seq<Step>, s: State)
    ensures Run(Initial(0), steps) == s && TASK in s.docs && s.docs[TASK].owner == MEMBER && s.docs[TASK].state == Editing
    ensures s.docs[TASK].versions == [Version(60, None, FirstDraftVersion, "text")] && s.docs[TASK].locks == []
    ensures (forall i | i in s.ops :: !ActiveOp(s.ops[i])) && s.issued == {7, 8, 9} && s.jobs == map[] && s.now == 0
  {
    steps := RunToReady();
    var doc, called := ReadyFits();
    DraftSaves(doc, doc, 60);
    var saved := doc.(versions := doc.versions + [Version(60, None, FirstDraftVersion, "text")]);
    steps := RunToCompleted(steps, Ready(), 9, DraftPayload(), TextReply("text"), [60], saved);
    s := Completed(Ready(), 9, DraftPayload(), saved);
    DraftedFits(doc, saved, s);
  }

  lemma DraftedFits(doc: Doc, saved: Doc, s: State)
    requires Free(Ready(), 9, DraftPayload()) && doc == ShownDoc(Ready().docs[TASK], DraftPayload())
    requires saved == doc.(versions := doc.versions + [Version(60, None, FirstDraftVersion, "text")])
    requires s == Completed(Ready(), 9, DraftPayload(), saved)
    ensures TASK in s.docs && s.docs[TASK].owner == MEMBER && s.docs[TASK].state == Editing
    ensures s.docs[TASK].versions == [Version(60, None, FirstDraftVersion, "text")] && s.docs[TASK].locks == []
    ensures (forall i | i in s.ops :: !ActiveOp(s.ops[i])) && s.issued == {7, 8, 9} && s.jobs == map[] && s.now == 0
  {
    assert [] + [Version(60, None, FirstDraftVersion, "text")] == [Version(60, None, FirstDraftVersion, "text")];
  }

  lemma RevisionFits(s: State, p: Payload)
    requires TASK in s.docs && s.docs[TASK].owner == MEMBER && s.docs[TASK].state == Editing && p == Revise()
    requires s.docs[TASK].versions == [Version(60, None, FirstDraftVersion, "text")] && 10 !in s.issued
    requires forall i | i in s.ops :: !ActiveOp(s.ops[i])
    ensures Free(s, 10, p) && PreparationOk(ShownDoc(s.docs[TASK], p), p) && ShownDoc(s.docs[TASK], p) == s.docs[TASK].(state := Revising)
  {
  }

  /** A revision recovered after its window, while worker 1 still waits for its text. */
  lemma RunToStaleRevision() returns (steps: seq<Step>, s: State, inputs: Doc)
    ensures Run(Initial(0), steps) == s && TASK in s.docs && s.docs[TASK].owner == MEMBER && s.docs[TASK].state == Editing
    ensures inputs.versions == s.docs[TASK].versions == [Version(60, None, FirstDraftVersion, "text")] && inputs.locks == s.docs[TASK].locks == []
    ensures (forall i | i in s.ops :: !ActiveOp(s.ops[i])) && 10 in s.ops && s.ops[10].task == TASK && s.ops[10].payload == Revise()
    ensures (1, MEMBER) in s.jobs && s.jobs[(1, MEMBER)] == Job(10, Calling(inputs))
  {
    var drafted: State;
    steps, drafted := RunToDrafted();
    RevisionFits(drafted, Revise());
    steps := RunToCall(steps, drafted, 1, 10, Revise());
    CallIsSole(drafted, 1, 10, Revise());
    inputs := ShownDoc(drafted.docs[TASK], Revise());
    s := Recovered(InCall(drafted, 1, 10, Revise()), 10);
    steps := RunToLate(steps, InCall(drafted, 1, 10, Revise()), 10);
  }

  lemma LockCreated(s: State)
    requires TASK in s.docs && s.docs[TASK].owner == MEMBER && s.docs[TASK].state == Editing && s.docs[TASK].locks == []
    requires s.docs[TASK].versions == [Version(60, None, FirstDraftVersion, "text")] && forall i | i in s.ops :: !ActiveOp(s.ops[i])
    ensures Next(s, EditTask(TASK, MEMBER, CreateLock(70, 60, 0, 4))) ==
            s.(docs := s.docs[TASK := s.docs[TASK].(locks := [Lock(70, 60, "text", 0, 4, 0)])])
  {
    assert "text"[0..4] == "text";
    assert [] + [Lock(70, 60, "text", 0, 4, 0)] == [Lock(70, 60, "text", 0, 4, 0)];
  }

  lemma RevisionSaves(doc: Doc, inputs: Doc)
    requires inputs.versions == doc.versions == [Version(60, None, FirstDraftVersion, "text")] && inputs.locks == []
    ensures Persist(doc, inputs, Revise(), Invoke(inputs, Revise(), TextReply("new")), [61]) ==
            Ok(doc.(versions := doc.versions + [Version(61, Some(60), AiRevision, "new")]))
  {
    assert inputs.versions[0].kind == FirstDraftVersion;
    assert LockTexts(inputs.locks) == [];
  }

  lemma NewMissesLock(locks: seq<Lock>)
    requires |locks| == 1 && locks[0].text == "text"
    ensures !AllHeld("new", LockTexts(locks))
  {
    var texts := LockTexts(locks);
    assert texts == [] + ["text"] && texts[0] in texts;
    CountSnoc([], "text", "text");
    StrippedEdits.TooShort("new", "text");
  }

  /** A text is saved that misses a lock created after the recovery: the locks were checked as
      they had been read. */
  lemma LateRevisionMissesLock() returns (steps: seq<Step>, step: Step)
    ensures
      var s := Run(Initial(0), steps);
      TASK in s.docs && !AddsHeldVersion(s, Next(s, step), TASK)
  {
    var stale: State, inputs: Doc;
    steps, stale, inputs := RunToStaleRevision();
    var lock := EditTask(TASK, MEMBER, CreateLock(70, 60, 0, 4));
    var s := stale.(docs := stale.docs[TASK := stale.docs[TASK].(locks := [Lock(70, 60, "text", 0, 4, 0)])]);
    LockCreated(stale);
    steps := Append(steps, stale, lock, s);
    step := Respond(1, MEMBER, TextReply("new"), [61]);
    LateTextUnheld(s, inputs);
  }

  lemma LateTextUnheld(s: State, inputs: Doc)
    requires TASK in s.docs && inputs.versions == s.docs[TASK].versions == [Version(60, None, FirstDraftVersion, "text")] && inputs.locks == []
    requires |s.docs[TASK].locks| == 1 && s.docs[TASK].locks[0].text == "text"
    requires 10 in s.ops && s.ops[10].task == TASK && s.ops[10].payload == Revise()
    requires (1, MEMBER) in s.jobs && s.jobs[(1, MEMBER)] == Job(10, Calling(inputs))
    ensures !AddsHeldVersion(s, Next(s, Respond(1, MEMBER, TextReply("new"), [61])), TASK)
  {
    var doc, v := s.docs[TASK], Version(61, Some(60), AiRevision, "new");
    RevisionSaves(doc, inputs);
    RespondSaves(s, 1, 10, inputs, TextReply("new"), [61], doc.(versions := doc.versions + [v]));
    var r := AfterAnswer(s, 1, 10, doc.(versions := doc.versions + [v]));
    NewMissesLock(doc.locks);
    assert r.docs[TASK].versions == doc.versions + [v] && r.docs[TASK].locks == doc.locks;
    forall w | doc.versions + [w] == doc.versions + [v] ensures w == v { assert (doc.versions + [w])[1] == (doc.versions + [v])[1]; }
  }

  // ---------------------------------------------------------------- a merge on moved rows

  /** The suggestions of the run: five rows of one analysis, in this order. */
  predicate FiveRows(rows: seq<SuggestionRow>) {
    |rows| == 5 && forall i | 0 <= i < 5 :: rows[i].id == 50 + i && rows[i].analysis == ANALYSIS && rows[i].idea == Ideas()[i]
  }

  /** The member keeps the first four suggestions, or the last one. */
  function KeepFour(): (d: map<Id, Choice>) {
    map[50 := Choice(true, None), 51 := Choice(true, None), 52 := Choice(true, None), 53 := Choice(true, None), 54 := Choice(false, None)]
  }

  function KeepLast(): (d: map<Id, Choice>) {
    map[50 := Choice(false, None), 51 := Choice(false, None), 52 := Choice(false, None), 53 := Choice(false, None), 54 := Choice(true, None)]
  }

  function FreshIdeas(): (ideas: seq<Idea>) {
    [Idea("f", "f", ""), Idea("g", "g", ""), Idea("h", "h", ""), Idea("i", "i", ""), Idea("j", "j", "")]
  }

  lemma {:induction false} FixedConcat(a: seq<SuggestionRow>, b: seq<SuggestionRow>, d: map<Id, Choice>)
    ensures Fixed(a + b, d) == Fixed(a, d) + Fixed(b, d)
  {
    if b == [] {
      assert a + b == a;
    } else {
      FixedConcat(a, b[..|b| - 1], d);
      assert (a + b)[..|a + b| - 1] == a + b[..|b| - 1];
    }
  }

  lemma {:induction false} FixedUniform(rows: seq<SuggestionRow>, d: map<Id, Choice>, all: bool)
    requires forall i | 0 <= i < |rows| :: rows[i].id in d && d[rows[i].id].selected == all
    ensures Fixed(rows, d) == if all then rows else []
  {
    if rows != [] {
      FixedUniform(rows[..|rows| - 1], d, all);
      assert rows == rows[..|rows| - 1] + [rows[|rows| - 1]];
    }
  }

  lemma {:induction false} FiveFixed(rows: seq<SuggestionRow>, d: map<Id, Choice>)
    requires FiveRows(rows) && (d == KeepFour() || d == KeepLast())
    ensures Fixed(rows, d) == if d == KeepFour() then rows[..4] else rows[4..]
  {
    assert rows == rows[..4] + rows[4..];
    FixedConcat(rows[..4], rows[4..], d);
    FixedUniform(rows[..4], d, d == KeepFour());
    FixedUniform(rows[4..], d, d != KeepFour());
  }

  lemma {:induction false} NoneClashing(ideas: seq<Idea>, fixed: seq<SuggestionRow>)
    requires forall i | 0 <= i < |ideas| :: !Clashes(ideas[i], fixed)
    ensures Replacements(ideas, fixed) == ideas
  {
    if ideas != [] {
      NoneClashing(ideas[..|ideas| - 1], fixed);
      assert ideas == ideas[..|ideas| - 1] + [ideas[|ideas| - 1]];
    }
  }

  /** What a merge of the fresh ideas on rows as they were read adds. */
  lemma {:induction false} FiveMerged(inputs: Doc, d: map<Id, Choice>, ideas: seq<Idea>)
    requires FiveRows(inputs.suggestions) && (d == KeepFour() || d == KeepLast()) && ideas == FreshIdeas()
    ensures
      var fixed := if d == KeepFour() then inputs.suggestions[..4] else inputs.suggestions[4..];
      Merged(inputs, ANALYSIS, d, ideas) == (fixed, ideas[..5 - |fixed|])
  {
    RowsOfUniform(inputs.suggestions, ANALYSIS, ANALYSIS);
    FiveFixed(inputs.suggestions, d);
    FreshReplace(inputs.suggestions, Fixed(inputs.suggestions, d), ideas);
  }

  lemma {:induction false} FreshReplace(rows: seq<SuggestionRow>, fixed: seq<SuggestionRow>, ideas: seq<Idea>)
    requires FiveRows(rows) && (fixed == rows[..4] || fixed == rows[4..]) && ideas == FreshIdeas()
    ensures Replacements(ideas, fixed) == ideas && Upto(ideas, MergeCapacity(5, |fixed|)) == ideas[..5 - |fixed|]
  {
    forall i | 0 <= i < |ideas| ensures !Clashes(ideas[i], fixed) { FreshClash(rows, fixed, i); }
    NoneClashing(ideas, fixed);
  }

  lemma FreshClash(rows: seq<SuggestionRow>, fixed: seq<SuggestionRow>, i: nat)
    requires FiveRows(rows) && (fixed == rows[..4] || fixed == rows[4..]) && i < 5
    ensures !Clashes(FreshIdeas()[i], fixed)
  {
    assert forall j | 0 <= j < |fixed| :: fixed[j].idea == Ideas()[j] || fixed[j].idea == Ideas()[4];
    OldNew(i);
  }

  lemma OldNew(i: nat)
    requires i < 5
    ensures forall j | 0 <= j < 5 :: Ideas()[j].key != FreshIdeas()[i].key && Ideas()[j].title != FreshIdeas()[i].title
  {
  }

  lemma OldKeys()
    ensures forall i, j | 0 <= i < j < 5 :: Ideas()[i].key != Ideas()[j].key && FreshIdeas()[i].key != FreshIdeas()[j].key
  {
  }

  lemma MergedSetValid(rows: seq<SuggestionRow>, fixed: seq<SuggestionRow>, n: nat)
    requires FiveRows(rows) && (fixed == rows[..4] || fixed == rows[4..]) && n == 5 - |fixed|
    ensures ValidSet(IdeasOf(fixed) + FreshIdeas()[..n])
  {
    var at := if fixed == rows[..4] then 0 else 4;
    var all := IdeasOf(fixed) + FreshIdeas()[..n];
    forall i | 0 <= i < 5 ensures all[i] == if i < |fixed| then Ideas()[if |fixed| == 4 then i else 4] else FreshIdeas()[i - |fixed|] {}
    OldKeys();
    forall i | 0 <= i < 5 ensures forall j | 0 <= j < 5 :: Ideas()[j].key != FreshIdeas()[i].key { OldNew(i); }
  }

  /** The merge is saved, and the analysis has what is left of the fixed rows and the new ones. */
  lemma {:induction false} MergeSaves(doc: Doc, inputs: Doc, p: Payload, d: map<Id, Choice>, ids: seq<Id>, ideas: seq<Idea>) returns (saved: Doc)
    requires FiveRows(inputs.suggestions) && (d == KeepFour() || d == KeepLast()) && p == SuggestionsPayload(ANALYSIS, d) && ideas == FreshIdeas()
    requires FreshIds(ids, doc.suggestions) && |ids| >= (if d == KeepFour() then 1 else 4)
    ensures Persist(doc, inputs, p, Invoke(inputs, p, IdeasReply(ideas)), ids) == Ok(saved)
    ensures saved == doc.(suggestions := saved.suggestions)
    ensures
      var fixed := if d == KeepFour() then inputs.suggestions[..4] else inputs.suggestions[4..];
      saved.suggestions == Kept(doc.suggestions, ANALYSIS, IdsOf(fixed)) + NewRows(ANALYSIS, ideas[..5 - |fixed|], ids)
  {
    var fixed := if d == KeepFour() then inputs.suggestions[..4] else inputs.suggestions[4..];
    FiveMerged(inputs, d, ideas);
    MergedSetValid(inputs.suggestions, fixed, 5 - |fixed|);
    FreshSetValid(ideas);
    assert Invoke(inputs, p, IdeasReply(ideas)) == SaveIdeas(ideas);
    saved := doc.(suggestions := Kept(doc.suggestions, ANALYSIS, IdsOf(fixed)) + NewRows(ANALYSIS, ideas[..5 - |fixed|], ids));
  }

  lemma FreshSetValid(ideas: seq<Idea>)
    requires ideas == FreshIdeas()
    ensures ValidSet(ideas)
  {
    OldKeys();
  }

  // ---------------------------------------------------------------- the run

  /** The document with five suggestions, at rest. */
  predicate Suggestive(doc: Doc) {
    doc.owner == MEMBER && doc.state == SuggestionsReady && doc.analyses == Analyzed().analyses && FiveRows(doc.suggestions)
  }

  lemma KeepPrepares(doc: Doc, p: Payload, d: map<Id, Choice>)
    requires Suggestive(doc) && (d == KeepFour() || d == KeepLast()) && p == SuggestionsPayload(ANALYSIS, d)
    ensures ApplySnapshot(doc, p).Ok? && PreparationOk(ShownDoc(doc, p), p)
    ensures Suggestive(ShownDoc(doc, p).(state := SuggestionsReady)) && ShownDoc(doc, p).state == Suggesting
  {
    KeepSnapshots(doc, p, d);
    KeepPrepared(ShownDoc(doc, p), p, d);
  }

  lemma KeepPrepared(shown: Doc, p: Payload, d: map<Id, Choice>)
    requires FiveRows(shown.suggestions) && HasAnalysis(shown, ANALYSIS)
    requires (d == KeepFour() || d == KeepLast()) && p == SuggestionsPayload(ANALYSIS, d)
    ensures PreparationOk(shown, p)
  {
    var rows := shown.suggestions;
    FiveGroup(rows);
    FiveFixed(rows, d);
    assert |rows[4..]| == 1 && |rows[..4]| == 4;
    assert d.Keys == {50, 51, 52, 53, 54};
  }

  lemma KeepSnapshots(doc: Doc, p: Payload, d: map<Id, Choice>)
    requires Suggestive(doc) && (d == KeepFour() || d == KeepLast()) && p == SuggestionsPayload(ANALYSIS, d)
    ensures ApplySnapshot(doc, p) == Ok(doc.(suggestions := Snapshot(doc.suggestions, ANALYSIS, d)))
    ensures FiveRows(Snapshot(doc.suggestions, ANALYSIS, d)) && HasAnalysis(doc, ANALYSIS)
  {
    assert doc.analyses[0].id == ANALYSIS && doc.analyses[0].selected;
    FiveGroup(doc.suggestions);
    assert d.Keys == {50, 51, 52, 53, 54};
  }

  lemma FiveGroup(rows: seq<SuggestionRow>)
    requires FiveRows(rows)
    ensures RowsOf(rows, ANALYSIS) == rows && IdsOf(rows) == {50, 51, 52, 53, 54}
  {
    RowsOfUniform(rows, ANALYSIS, ANALYSIS);
    assert rows[0].id == 50 && rows[1].id == 51 && rows[2].id == 52 && rows[3].id == 53 && rows[4].id == 54;
  }

  /** A regeneration that keeps four is recovered while worker 1 still waits for its answer. */
  lemma RunToStaleMerge() returns (steps: seq<Step>, s: State, inputs: Doc)
    ensures Run(Initial(0), steps) == s && TASK in s.docs && Suggestive(s.docs[TASK]) && FiveRows(inputs.suggestions)
    ensures (forall i | i in s.ops :: !ActiveOp(s.ops[i])) && 9 in s.ops && s.ops[9].task == TASK
    ensures s.ops[9].payload == SuggestionsPayload(ANALYSIS, KeepFour()) && s.issued == {7, 8, 9}
    ensures s.jobs == map[(1, MEMBER) := Job(9, Calling(inputs))]
  {
    var p := SuggestionsPayload(ANALYSIS, KeepFour());
    steps := RunToReady();
    ReadySuggestive();
    KeepPrepares(Suggested(), p, KeepFour());
    steps, s, inputs := RunToStaleCall(steps, Ready(), p);
  }

  lemma ReadySuggestive()
    ensures Suggestive(Suggested()) && Ready().docs[TASK] == Suggested() && (forall i | i in Ready().ops :: !ActiveOp(Ready().ops[i]))
  {
  }

  lemma RunToStaleCall(before: seq<Step>, ready: State, p: Payload) returns (steps: seq<Step>, s: State, inputs: Doc)
    requires Run(Initial(0), before) == ready && ready.jobs == map[] && ready.issued == {7, 8} && TASK in ready.docs && Suggestive(ready.docs[TASK])
    requires (forall i | i in ready.ops :: !ActiveOp(ready.ops[i])) && KindOf(p) == Suggestions && ApplySnapshot(ready.docs[TASK], p).Ok?
    requires
      var shown := ShownDoc(ready.docs[TASK], p);
      PreparationOk(shown, p) && Suggestive(shown.(state := SuggestionsReady)) && shown.state == Suggesting
    ensures Run(Initial(0), steps) == s && TASK in s.docs && Suggestive(s.docs[TASK]) && FiveRows(inputs.suggestions)
    ensures (forall i | i in s.ops :: !ActiveOp(s.ops[i])) && 9 in s.ops && s.ops[9].task == TASK && s.ops[9].payload == p && s.issued == {7, 8, 9}
    ensures s.jobs == map[(1, MEMBER) := Job(9, Calling(inputs))]
  {
    assert Free(ready, 9, p);
    inputs := ShownDoc(ready.docs[TASK], p);
    steps := RunToCall(before, ready, 1, 9, p);
    var called := InCall(ready, 1, 9, p);
    CallIsSole(ready, 1, 9, p);
    s := Recovered(called, 9);
    StaleFits(ready, p, called, s, inputs);
    steps := RunToLate(steps, called, 9);
  }

  lemma StaleFits(ready: State, p: Payload, called: State, s: State, inputs: Doc)
    requires Free(ready, 9, p) && ready.jobs == map[] && ready.issued == {7, 8} && KindOf(p) == Suggestions
    requires called == InCall(ready, 1, 9, p) && inputs == ShownDoc(ready.docs[TASK], p) && s == Recovered(called, 9)
    requires ready.docs[TASK].state == SuggestionsReady && Suggestive(inputs.(state := SuggestionsReady))
    ensures TASK in s.docs && Suggestive(s.docs[TASK]) && FiveRows(inputs.suggestions)
    ensures (forall i | i in s.ops :: !ActiveOp(s.ops[i])) && 9 in s.ops && s.ops[9].task == TASK && s.ops[9].payload == p && s.issued == {7, 8, 9}
    ensures s.jobs == map[(1, MEMBER) := Job(9, Calling(inputs))]
  {
  }

  lemma {:induction false} KeptIds(rows: seq<SuggestionRow>, analysis: Id, fixed: set<Id>)
    requires forall i | 0 <= i < |rows| :: rows[i].analysis == analysis
    ensures forall i | 0 <= i < |Kept(rows, analysis, fixed)| :: Kept(rows, analysis, fixed)[i].id in fixed && Kept(rows, analysis, fixed)[i].analysis == analysis
  {
    if rows != [] { KeptIds(rows[..|rows| - 1], analysis, fixed); }
  }

  /** Another regeneration keeps the last row only and replaces the rest. */
  lemma RunToReplaced() returns (steps: seq<Step>, s: State, inputs: Doc)
    ensures Run(Initial(0), steps) == s && TASK in s.docs && FiveRows(inputs.suggestions)
    ensures forall i | 0 <= i < |s.docs[TASK].suggestions| ::
      s.docs[TASK].suggestions[i].id in {54, 61, 62, 63, 64} && s.docs[TASK].suggestions[i].analysis == ANALYSIS
    ensures 9 in s.ops && s.ops[9].task == TASK && s.ops[9].payload == SuggestionsPayload(ANALYSIS, KeepFour())
    ensures (1, MEMBER) in s.jobs && s.jobs[(1, MEMBER)] == Job(9, Calling(inputs))
  {
    var stale: State;
    var p := SuggestionsPayload(ANALYSIS, KeepLast());
    steps, stale, inputs := RunToStaleMerge();
    KeepPrepares(stale.docs[TASK], p, KeepLast());
    assert Free(stale, 10, p);
    steps, s := RunReplace(steps, stale, p);
  }

  lemma RunReplace(before: seq<Step>, stale: State, p: Payload) returns (steps: seq<Step>, s: State)
    requires Run(Initial(0), before) == stale && Free(stale, 10, p) && (2, MEMBER) !in stale.jobs
    requires p == SuggestionsPayload(ANALYSIS, KeepLast()) && Suggestive(stale.docs[TASK])
    ensures Run(Initial(0), steps) == s
    ensures TASK in s.docs && forall i | 0 <= i < |s.docs[TASK].suggestions| ::
      s.docs[TASK].suggestions[i].id in {54, 61, 62, 63, 64} && s.docs[TASK].suggestions[i].analysis == ANALYSIS
    ensures forall i | i in stale.ops && i != 10 :: i in s.ops && s.ops[i] == stale.ops[i]
    ensures forall k | k in stale.jobs && k != (2, MEMBER) :: k in s.jobs && s.jobs[k] == stale.jobs[k]
  {
    KeepPrepares(stale.docs[TASK], p, KeepLast());
    steps := RunToCall(before, stale, 2, 10, p);
    var called := InCall(stale, 2, 10, p);
    s := Replace(stale, called, p);
    steps := Append(steps, called, Respond(2, MEMBER, IdeasReply(FreshIdeas()), [61, 62, 63, 64]), s);
  }

  lemma Replace(stale: State, called: State, p: Payload) returns (s: State)
    requires Free(stale, 10, p) && p == SuggestionsPayload(ANALYSIS, KeepLast()) && Suggestive(stale.docs[TASK]) && called == InCall(stale, 2, 10, p)
    ensures s == Next(called, Respond(2, MEMBER, IdeasReply(FreshIdeas()), [61, 62, 63, 64]))
    ensures TASK in s.docs && forall i | 0 <= i < |s.docs[TASK].suggestions| ::
      s.docs[TASK].suggestions[i].id in {54, 61, 62, 63, 64} && s.docs[TASK].suggestions[i].analysis == ANALYSIS
    ensures forall i | i in stale.ops && i != 10 :: i in s.ops && s.ops[i] == stale.ops[i]
    ensures forall k | k in stale.jobs && k != (2, MEMBER) :: k in s.jobs && s.jobs[k] == stale.jobs[k]
  {
    KeepPrepares(stale.docs[TASK], p, KeepLast());
    var doc := ShownDoc(stale.docs[TASK], p);
    var ids := [61, 62, 63, 64];
    var saved := ReplacedDoc(doc, p, ids);
    RespondSaves(called, 2, 10, doc, IdeasReply(FreshIdeas()), ids, saved);
    s := AfterAnswer(called, 2, 10, saved);
  }

  lemma ReplacedDoc(doc: Doc, p: Payload, ids: seq<Id>) returns (saved: Doc)
    requires FiveRows(doc.suggestions) && p == SuggestionsPayload(ANALYSIS, KeepLast()) && ids == [61, 62, 63, 64]
    ensures Persist(doc, doc, p, Invoke(doc, p, IdeasReply(FreshIdeas())), ids) == Ok(saved)
    ensures forall i | 0 <= i < |saved.suggestions| :: saved.suggestions[i].id in {54, 61, 62, 63, 64} && saved.suggestions[i].analysis == ANALYSIS
  {
    saved := MergeSaves(doc, doc, p, KeepLast(), ids, FreshIdeas());
    ReplacedIds(doc, saved, ids);
  }

  lemma ReplacedIds(doc: Doc, saved: Doc, ids: seq<Id>)
    requires FiveRows(doc.suggestions) && ids == [61, 62, 63, 64]
    requires saved.suggestions == Kept(doc.suggestions, ANALYSIS, IdsOf(doc.suggestions[4..])) + NewRows(ANALYSIS, FreshIdeas()[..4], ids)
    ensures forall i | 0 <= i < |saved.suggestions| :: saved.suggestions[i].id in {54, 61, 62, 63, 64} && saved.suggestions[i].analysis == ANALYSIS
  {
    KeptIds(doc.suggestions, ANALYSIS, IdsOf(doc.suggestions[4..]));
    assert IdsOf(doc.suggestions[4..]) <= {54};
    assert forall i | 0 <= i < 4 :: ids[i] in {61, 62, 63, 64};
  }

  /** The late answer keeps none of its four rows, since they are gone, and adds one. */
  lemma {:induction false} LateMergeLeavesOne(doc: Doc, inputs: Doc, saved: Doc)
    requires FiveRows(inputs.suggestions)
    requires forall i | 0 <= i < |doc.suggestions| :: doc.suggestions[i].id in {54, 61, 62, 63, 64} && doc.suggestions[i].analysis == ANALYSIS
    requires saved.suggestions == Kept(doc.suggestions, ANALYSIS, IdsOf(inputs.suggestions[..4])) + NewRows(ANALYSIS, FreshIdeas()[..1], [71])
    ensures |RowsOf(saved.suggestions, ANALYSIS)| == 1 && !SuggestionsOk(saved.suggestions)
  {
    var fixed := IdsOf(inputs.suggestions[..4]);
    assert forall id | id in fixed :: id in {50, 51, 52, 53};
    KeptIds(doc.suggestions, ANALYSIS, fixed);
    NoneKept(doc.suggestions, fixed);
    RowsOfUniform(saved.suggestions, ANALYSIS, ANALYSIS);
    assert !GroupOk(RowsOf(saved.suggestions, ANALYSIS));
  }

  lemma {:induction false} NoneKept(rows: seq<SuggestionRow>, fixed: set<Id>)
    requires forall i | 0 <= i < |rows| :: rows[i].id !in fixed && rows[i].analysis == ANALYSIS
    ensures Kept(rows, ANALYSIS, fixed) == []
  {
    if rows != [] { NoneKept(rows[..|rows| - 1], fixed); }
  }

  /** An analysis is left with a single suggestion: the set was valid on the rows that had been
      read, of which none is left. */
  lemma LateMergeLeavesTooFew() returns (steps: seq<Step>)
    ensures
      var s := Run(Initial(0), steps);
      && TASK in s.docs && |RowsOf(s.docs[TASK].suggestions, ANALYSIS)| == 1 && !SuggestionsAll(s)
  {
    var s: State, inputs: Doc;
    steps, s, inputs := RunToReplaced();
    var r := MergeLate(s, inputs);
    steps := Append(steps, s, Respond(1, MEMBER, IdeasReply(FreshIdeas()), [71]), r);
  }

  lemma MergeLate(s: State, inputs: Doc) returns (r: State)
    requires TASK in s.docs && FiveRows(inputs.suggestions)
    requires forall i | 0 <= i < |s.docs[TASK].suggestions| ::
      s.docs[TASK].suggestions[i].id in {54, 61, 62, 63, 64} && s.docs[TASK].suggestions[i].analysis == ANALYSIS
    requires 9 in s.ops && s.ops[9].task == TASK && s.ops[9].payload == SuggestionsPayload(ANALYSIS, KeepFour())
    requires (1, MEMBER) in s.jobs && s.jobs[(1, MEMBER)] == Job(9, Calling(inputs))
    ensures r == Next(s, Respond(1, MEMBER, IdeasReply(FreshIdeas()), [71])) && TASK in r.docs
    ensures |RowsOf(r.docs[TASK].suggestions, ANALYSIS)| == 1 && !SuggestionsAll(r)
  {
    var doc := s.docs[TASK];
    var saved := MergeSaves(doc, inputs, s.ops[9].payload, KeepFour(), [71], FreshIdeas());
    RespondSaves(s, 1, 9, inputs, IdeasReply(FreshIdeas()), [71], saved);
    r := AfterAnswer(s, 1, 9, saved);
    LateMergeLeavesOne(doc, inputs, saved);
    assert r.docs[TASK].suggestions == saved.suggestions;
    assert !SuggestionsOk(r.docs[TASK].suggestions);
  }
}
