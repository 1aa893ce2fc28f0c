/** Merges of suggestions over every run, on rows that may have changed since they were read;
    and with them the exact condition under which a run stays orderly. Row ids are never used
    twice, which is a condition on the ids a step draws. */
module QueueMerge {
  import opened Basics
  import opened Domain
  import opened Documents
  import opened DocumentFacts
  import opened Queue
  import opened QueueInvariant
  import opened QueueAgreement
  import opened QueueDraft
  import opened QueueFreeze

  // ---------------------------------------------------------------- rows and their ids

  predicate DistinctIds(rows: seq<SuggestionRow>) {
    forall i, j | 0 <= i < j < |rows| :: rows[i].id != rows[j].id
  }

  /** Rows with the same id are the same suggestion, whatever has been decided on them. */
  predicate SameRows(a: seq<SuggestionRow>, b: seq<SuggestionRow>) {
    forall i, j | 0 <= i < |a| && 0 <= j < |b| && a[i].id == b[j].id :: a[i].analysis == b[j].analysis && a[i].idea == b[j].idea
  }

  lemma SelfSame(rows: seq<SuggestionRow>)
    requires DistinctIds(rows)
    ensures SameRows(rows, rows)
  {
  }

  /** Every row of `part` is a row of `rows`. */
  predicate Part(part: seq<SuggestionRow>, rows: seq<SuggestionRow>) {
    forall x | x in part :: x in rows
  }

  lemma {:induction false} GroupPart(rows: seq<SuggestionRow>, analysis: Id)
    ensures Part(RowsOf(rows, analysis), rows) && (DistinctIds(rows) ==> DistinctIds(RowsOf(rows, analysis)))
  {
    if rows != [] {
      var front, last := rows[..|rows| - 1], rows[|rows| - 1];
      GroupPart(front, analysis);
      var r := RowsOf(front, analysis);
      if DistinctIds(rows) {
        assert DistinctIds(front);
        forall i | 0 <= i < |r| ensures r[i].id != last.id { var j := PartRow(r, front, i); assert rows[j].id != last.id; }
      }
    }
  }

  lemma PartRow(part: seq<SuggestionRow>, rows: seq<SuggestionRow>, i: nat) returns (j: nat)
    requires Part(part, rows) && i < |part|
    ensures j < |rows| && rows[j] == part[i]
  {
    assert part[i] in part;
    j :| 0 <= j < |rows| && rows[j] == part[i];
  }

  lemma {:induction false} AmongPart(rows: seq<SuggestionRow>, ids: set<Id>)
    ensures Part(Among(rows, ids), rows) && (DistinctIds(rows) ==> DistinctIds(Among(rows, ids)))
    ensures forall x | x in Among(rows, ids) :: x.id in ids
  {
    if rows != [] {
      var front, last := rows[..|rows| - 1], rows[|rows| - 1];
      AmongPart(front, ids);
      var r := Among(front, ids);
      if DistinctIds(rows) {
        assert DistinctIds(front);
        forall i | 0 <= i < |r| ensures r[i].id != last.id { var j := PartRow(r, front, i); assert rows[j].id != last.id; }
      }
    }
  }

  lemma {:induction false} KeptPart(rows: seq<SuggestionRow>, analysis: Id, fixed: set<Id>)
    ensures Part(Kept(rows, analysis, fixed), rows) && (DistinctIds(rows) ==> DistinctIds(Kept(rows, analysis, fixed)))
  {
    if rows != [] {
      var front, last := rows[..|rows| - 1], rows[|rows| - 1];
      KeptPart(front, analysis, fixed);
      var r := Kept(front, analysis, fixed);
      if DistinctIds(rows) {
        assert DistinctIds(front);
        forall i | 0 <= i < |r| ensures r[i].id != last.id { var j := PartRow(r, front, i); assert rows[j].id != last.id; }
      }
    }
  }

  // ---------------------------------------------------------------- one merge, on any rows

  /** The fixed rows that are still there. */
  function Left(doc: Doc, inputs: Doc, analysis: Id, decisions: map<Id, Choice>): (r: seq<SuggestionRow>) {
    Among(RowsOf(doc.suggestions, analysis), IdsOf(Fixed(RowsOf(inputs.suggestions, analysis), decisions)))
  }

  /** After a merge the analysis has the fixed rows that are still there, then the new ones;
      other analyses are untouched. */
  lemma {:induction false} LateMergeGroup(doc: Doc, inputs: Doc, analysis: Id, decisions: map<Id, Choice>, ideas: seq<Idea>, ids: seq<Id>)
    requires MergeSuggestions(doc, inputs, analysis, decisions, ideas, ids).Ok?
    ensures
      var next, replacements := MergeSuggestions(doc, inputs, analysis, decisions, ideas, ids).value.suggestions, Merged(inputs, analysis, decisions, ideas).1;
      && |ids| >= |replacements|
      && RowsOf(next, analysis) == Left(doc, inputs, analysis, decisions) + NewRows(analysis, replacements, ids)
      && forall other: Id | other != analysis :: RowsOf(next, other) == RowsOf(doc.suggestions, other)
  {
    var (fixed, replacements) := Merged(inputs, analysis, decisions, ideas);
    var added, kept := NewRows(analysis, replacements, ids), Kept(doc.suggestions, analysis, IdsOf(fixed));
    KeptSame(doc.suggestions, analysis, IdsOf(fixed));
    RowsOfConcat(kept, added, analysis);
    RowsOfUniform(added, analysis, analysis);
    forall other: Id | other != analysis ensures RowsOf(kept + added, other) == RowsOf(doc.suggestions, other) {
      KeptOther(doc.suggestions, analysis, IdsOf(fixed), other);
      RowsOfConcat(kept, added, other);
      RowsOfUniform(added, analysis, other);
    }
  }

  /** The size of the analysis after the merge. */
  function MergedSize(doc: Doc, inputs: Doc, analysis: Id, decisions: map<Id, Choice>, ideas: seq<Idea>): (n: nat) {
    |Left(doc, inputs, analysis, decisions)| + |Merged(inputs, analysis, decisions, ideas).1|
  }

  lemma {:induction false} IdsCount(rows: seq<SuggestionRow>)
    ensures |IdsOf(rows)| <= |rows| && (DistinctIds(rows) ==> |IdsOf(rows)| == |rows|)
  {
    if rows != [] {
      var front, last := rows[..|rows| - 1], rows[|rows| - 1];
      IdsCount(front);
      IdsOfSnoc(front, last);
      assert rows == front + [last];
      if DistinctIds(rows) {
        assert DistinctIds(front);
        forall id | id in IdsOf(front) ensures id != last.id {
          var i :| 0 <= i < |front| && front[i].id == id;
          assert rows[i].id != last.id;
        }
      }
    } else {
      assert IdsOf(rows) == {};
    }
  }

  /** Fewer rows, all with ids of `rows`. */
  lemma NoMoreThan(part: seq<SuggestionRow>, rows: seq<SuggestionRow>)
    requires DistinctIds(part) && forall x | x in part :: x.id in IdsOf(rows)
    ensures |part| <= |rows|
  {
    IdsCount(part);
    IdsCount(rows);
    assert IdsOf(part) <= IdsOf(rows) by {
      forall id | id in IdsOf(part) ensures id in IdsOf(rows) {
        var i :| 0 <= i < |part| && part[i].id == id;
        assert part[i] in part;
      }
    }
    SubsetSize(IdsOf(part), IdsOf(rows));
  }

  lemma {:induction false} SubsetSize(a: set<Id>, b: set<Id>)
    requires a <= b
    ensures |a| <= |b|
  {
    if a != {} {
      var x :| x in a;
      SubsetSize(a - {x}, b - {x});
    }
  }

  /** The row of `fixed` behind a row that is still there. */
  lemma Origin(left: seq<SuggestionRow>, fixed: seq<SuggestionRow>, i: nat) returns (j: nat)
    requires i < |left| && left[i].id in IdsOf(fixed) && SameRows(fixed, left)
    ensures j < |fixed| && fixed[j].id == left[i].id && fixed[j].idea == left[i].idea
  {
    j :| 0 <= j < |fixed| && fixed[j].id == left[i].id;
  }

  /** Distinct keys of a valid set are distinct on what is left of it. */
  lemma {:induction false} LeftKeys(left: seq<SuggestionRow>, fixed: seq<SuggestionRow>, replacements: seq<Idea>, added: seq<SuggestionRow>)
    requires ValidSet(IdeasOf(fixed) + replacements) && SameRows(fixed, left) && DistinctIds(left)
    requires (forall i | 0 <= i < |left| :: left[i].id in IdsOf(fixed)) && IdeasOf(added) == replacements
    ensures forall i, j | 0 <= i < j < |left + added| :: (left + added)[i].idea.key != (left + added)[j].idea.key
  {
    forall i, j | 0 <= i < j < |left + added| ensures (left + added)[i].idea.key != (left + added)[j].idea.key {
      LeftKeyAt(left, fixed, replacements, added, i, j);
    }
  }

  lemma {:induction false} LeftKeyAt(left: seq<SuggestionRow>, fixed: seq<SuggestionRow>, replacements: seq<Idea>, added: seq<SuggestionRow>, i: nat, j: nat)
    requires ValidSet(IdeasOf(fixed) + replacements) && SameRows(fixed, left) && DistinctIds(left)
    requires (forall i | 0 <= i < |left| :: left[i].id in IdsOf(fixed)) && IdeasOf(added) == replacements && i < j < |left + added|
    ensures (left + added)[i].idea.key != (left + added)[j].idea.key
  {
    var all := IdeasOf(fixed) + replacements;
    var a, b := if i < |left| then 0 else |fixed| + (i - |left|), if j < |left| then 0 else |fixed| + (j - |left|);
    if i < |left| { a := Origin(left, fixed, i); }
    if j < |left| { b := Origin(left, fixed, j); }
    assert all[a] == (left + added)[i].idea && all[b] == (left + added)[j].idea;
    assert a != b;
    if a < b { assert all[a].key != all[b].key; } else { assert all[b].key != all[a].key; }
  }

  /** What a merge needs to know of the rows: ids are unique and name the same suggestions as
      when they were read. */
  predicate RowsFit(doc: Doc, inputs: Doc) {
    DistinctIds(doc.suggestions) && SameRows(inputs.suggestions, doc.suggestions)
  }

  /** The exact condition on a merge: the set it leaves is valid iff the fixed rows that are
      still there and the replacements together are none or at least five. */
  lemma {:induction false} LateMergeValid(doc: Doc, inputs: Doc, analysis: Id, decisions: map<Id, Choice>, ideas: seq<Idea>, ids: seq<Id>)
    requires MergeSuggestions(doc, inputs, analysis, decisions, ideas, ids).Ok? && RowsFit(doc, inputs)
    ensures
      var next := MergeSuggestions(doc, inputs, analysis, decisions, ideas, ids).value.suggestions;
      var n := MergedSize(doc, inputs, analysis, decisions, ideas);
      && |RowsOf(next, analysis)| == n <= 8
      && (GroupOk(RowsOf(next, analysis)) <==> n == 0 || n >= 5)
  {
    var (fixed, replacements) := Merged(inputs, analysis, decisions, ideas);
    var left, added := Left(doc, inputs, analysis, decisions), NewRows(analysis, replacements, ids);
    LateMergeGroup(doc, inputs, analysis, decisions, ideas, ids);
    LeftFits(doc, inputs, analysis, decisions);
    NoMoreThan(left, fixed);
    assert IdeasOf(added) == replacements;
    LeftKeys(left, fixed, replacements, added);
    KeysValid(left + added);
  }

  lemma KeysValid(rows: seq<SuggestionRow>)
    requires forall i, j | 0 <= i < j < |rows| :: rows[i].idea.key != rows[j].idea.key
    ensures ValidSet(IdeasOf(rows)) <==> 5 <= |rows| <= 8
  {
  }

  lemma {:induction false} LeftFits(doc: Doc, inputs: Doc, analysis: Id, decisions: map<Id, Choice>)
    requires RowsFit(doc, inputs)
    ensures
      var left, fixed := Left(doc, inputs, analysis, decisions), Fixed(RowsOf(inputs.suggestions, analysis), decisions);
      DistinctIds(left) && SameRows(fixed, left) && (forall x | x in left :: x.id in IdsOf(fixed)) && (forall i | 0 <= i < |left| :: left[i].id in IdsOf(fixed))
  {
    var group, read := RowsOf(doc.suggestions, analysis), RowsOf(inputs.suggestions, analysis);
    var fixed := Fixed(read, decisions);
    var left := Among(group, IdsOf(fixed));
    GroupPart(doc.suggestions, analysis);
    GroupPart(inputs.suggestions, analysis);
    FixedIds(read, decisions);
    AmongPart(group, IdsOf(fixed));
    PartSame(fixed, inputs.suggestions, left, doc.suggestions);
    forall i | 0 <= i < |left| ensures left[i].id in IdsOf(fixed) { assert left[i] in left; }
  }

  lemma PartSame(a: seq<SuggestionRow>, rows: seq<SuggestionRow>, b: seq<SuggestionRow>, more: seq<SuggestionRow>)
    requires Part(a, rows) && Part(b, more) && SameRows(rows, more)
    ensures SameRows(a, b)
  {
    forall i, j | 0 <= i < |a| && 0 <= j < |b| && a[i].id == b[j].id ensures a[i].analysis == b[j].analysis && a[i].idea == b[j].idea {
      var k := PartRow(a, rows, i);
      var l := PartRow(b, more, j);
    }
  }

  // ---------------------------------------------------------------- rows over runs

  /** What a job has read names the same suggestions as its document does now. */
  predicate JobRows(s: State, k: (Id, Id))
    requires k in s.jobs
  {
    var job := s.jobs[k];
    HasInputs(job) && job.op in s.ops && s.ops[job.op].task in s.docs ==>
      SameRows(job.phase.inputs.suggestions, s.docs[s.ops[job.op].task].suggestions)
  }

  ghost predicate RowsOk(s: State) {
    && (forall t | t in s.docs :: DistinctIds(s.docs[t].suggestions))
    && (forall k | k in s.jobs :: JobRows(s, k))
  }

  /** The ids a step draws for new rows are not those of rows some job has read. */
  ghost predicate DrawsFresh(s: State, step: Step) {
    step.Respond? ==>
      forall k, i, j | k in s.jobs && HasInputs(s.jobs[k]) && 0 <= i < |step.ids| && 0 <= j < |s.jobs[k].phase.inputs.suggestions| ::
        step.ids[i] != s.jobs[k].phase.inputs.suggestions[j].id
  }

  lemma SameIdeasRows(a: seq<SuggestionRow>, b: seq<SuggestionRow>, read: seq<SuggestionRow>)
    requires SameIdeas(a, b)
    ensures (DistinctIds(a) ==> DistinctIds(b)) && (SameRows(read, a) ==> SameRows(read, b))
  {
  }

  lemma MergedRows(doc: Doc, inputs: Doc, analysis: Id, decisions: map<Id, Choice>, ideas: seq<Idea>, ids: seq<Id>, read: seq<SuggestionRow>)
    requires MergeSuggestions(doc, inputs, analysis, decisions, ideas, ids).Ok? && DistinctIds(doc.suggestions)
    ensures
      var next := MergeSuggestions(doc, inputs, analysis, decisions, ideas, ids).value.suggestions;
      && DistinctIds(next)
      && (SameRows(read, doc.suggestions) && (forall i, j | 0 <= i < |ids| && 0 <= j < |read| :: ids[i] != read[j].id) ==> SameRows(read, next))
  {
    var (fixed, replacements) := Merged(inputs, analysis, decisions, ideas);
    var kept, added := Kept(doc.suggestions, analysis, IdsOf(fixed)), NewRows(analysis, replacements, ids);
    KeptPart(doc.suggestions, analysis, IdsOf(fixed));
    forall i, j | 0 <= i < |kept| && 0 <= j < |added| ensures kept[i].id != added[j].id {
      var k := PartRow(kept, doc.suggestions, i);
    }
    if SameRows(read, doc.suggestions) {
      forall i, j | 0 <= i < |read| && 0 <= j < |kept| && read[i].id == kept[j].id
        ensures read[i].analysis == kept[j].analysis && read[i].idea == kept[j].idea
      {
        var k := PartRow(kept, doc.suggestions, j);
      }
    }
    ConcatRows(kept, added, read);
  }

  lemma ConcatRows(kept: seq<SuggestionRow>, added: seq<SuggestionRow>, read: seq<SuggestionRow>)
    requires DistinctIds(kept) && DistinctIds(added) && forall i, j | 0 <= i < |kept| && 0 <= j < |added| :: kept[i].id != added[j].id
    ensures DistinctIds(kept + added)
    ensures SameRows(read, kept) && (forall i, j | 0 <= i < |added| && 0 <= j < |read| :: added[i].id != read[j].id) ==> SameRows(read, kept + added)
  {
  }

  lemma PersistRows(doc: Doc, inputs: Doc, p: Payload, o: Outcome, ids: seq<Id>, read: seq<SuggestionRow>)
    requires Persist(doc, inputs, p, o, ids).Ok? && DistinctIds(doc.suggestions)
    ensures
      var next := Persist(doc, inputs, p, o, ids).value.suggestions;
      && DistinctIds(next)
      && (SameRows(read, doc.suggestions) && (forall i, j | 0 <= i < |ids| && 0 <= j < |read| :: ids[i] != read[j].id) ==> SameRows(read, next))
  {
    if o.SaveIdeas? { MergedRows(doc, inputs, p.analysis, p.decisions, o.ideas, ids, read); }
  }

  /** The suggestions of a document after a step: distinct ids, and the same names for what has
      been read of it. */
  lemma RowsStep(s: State, step: Step, t: Id, read: seq<SuggestionRow>)
    requires Base(s) && RowsOk(s) && t in Next(s, step).docs
    ensures DistinctIds(Next(s, step).docs[t].suggestions)
    ensures
      t in s.docs && SameRows(read, s.docs[t].suggestions)
      && (step.Respond? ==> forall i, j | 0 <= i < |step.ids| && 0 <= j < |read| :: step.ids[i] != read[j].id) ==>
        SameRows(read, Next(s, step).docs[t].suggestions)
  {
    if t !in s.docs {
      NewDocEmpty(s, step, t);
    } else if Answers(s, step, t) {
      AnswerRows(s, step, t, read);
    } else if step.EditTask? || step.Submit? || step.Retry? {
      RestSuggestions(s, step, t);
      SameIdeasRows(s.docs[t].suggestions, Next(s, step).docs[t].suggestions, read);
    } else {
      SuggestionsUntouched(s, step, t);
    }
  }

  lemma AnswerRows(s: State, step: Step, t: Id, read: seq<SuggestionRow>)
    requires t in s.docs && DistinctIds(s.docs[t].suggestions) && Answers(s, step, t)
    ensures t in Next(s, step).docs && DistinctIds(Next(s, step).docs[t].suggestions)
    ensures
      SameRows(read, s.docs[t].suggestions) && (forall i, j | 0 <= i < |step.ids| && 0 <= j < |read| :: step.ids[i] != read[j].id) ==>
        SameRows(read, Next(s, step).docs[t].suggestions)
  {
    var id, inputs := Writes(s, step).value, s.jobs[(step.worker, step.owner)].phase.inputs;
    var answer := Answer(s, id, inputs, step.reply, step.ids);
    AnswerShown(s, step, t);
    if answer.Ok? { PersistRows(s.docs[t], inputs, s.ops[id].payload, Invoke(inputs, s.ops[id].payload, step.reply), step.ids, read); }
  }

  /** The suggestions after an answer. */
  lemma AnswerShown(s: State, step: Step, t: Id)
    requires t in s.docs && Answers(s, step, t)
    ensures
      var id, inputs := Writes(s, step).value, s.jobs[(step.worker, step.owner)].phase.inputs;
      var answer := Answer(s, id, inputs, step.reply, step.ids);
      t in Next(s, step).docs && Next(s, step).docs[t].suggestions == (if answer.Ok? then answer.value else s.docs[t]).suggestions
  {
    var id, inputs := Writes(s, step).value, s.jobs[(step.worker, step.owner)].phase.inputs;
    var answer := Answer(s, id, inputs, step.reply, step.ids);
    RespondShows(s, step, id, answer);
    SameSuggestions(Next(s, step).docs[t], if answer.Ok? then answer.value else s.docs[t]);
  }

  lemma SameSuggestions(a: Doc, b: Doc)
    requires Content(a) == Content(b)
    ensures a.suggestions == b.suggestions
  {
    assert Content(a).suggestions == a.suggestions && Content(b).suggestions == b.suggestions;
  }

  lemma JobRowsStep(s: State, step: Step, k: (Id, Id))
    requires Base(s) && RowsOk(s) && DrawsFresh(s, step) && k in Next(s, step).jobs
    ensures JobRows(Next(s, step), k)
  {
    var r := Next(s, step);
    JobsFollowStep(s, step);
    var job := r.jobs[k];
    if HasInputs(job) && job.op in r.ops && r.ops[job.op].task in r.docs {
      if k in s.jobs && HasInputs(s.jobs[k]) && job.op == s.jobs[k].op && job.phase.inputs == s.jobs[k].phase.inputs {
        assert JobOk(s, k) && JobRows(s, k);
        OpsContinue(s, step, job.op);
        RowsStep(s, step, r.ops[job.op].task, job.phase.inputs.suggestions);
      } else {
        SelfSame(job.phase.inputs.suggestions);
      }
    }
  }

  lemma RowsOkStep(s: State, step: Step)
    requires Base(s) && RowsOk(s) && DrawsFresh(s, step)
    ensures RowsOk(Next(s, step))
  {
    var r := Next(s, step);
    forall t | t in r.docs ensures DistinctIds(r.docs[t].suggestions) { RowsStep(s, step, t, []); }
    forall k | k in r.jobs ensures JobRows(r, k) { JobRowsStep(s, step, k); }
  }

  // ---------------------------------------------------------------- the exact condition on a step

  ghost predicate SuggestionsAll(s: State) {
    forall t | t in s.docs :: SuggestionsOk(s.docs[t].suggestions)
  }

  /** The step saves a merge of operation `id`. */
  ghost predicate Merges(s: State, step: Step) {
    step.Respond? && Writes(s, step).Some? &&
    var id, inputs := Writes(s, step).value, s.jobs[(step.worker, step.owner)].phase.inputs;
    && s.ops[id].task in s.docs && s.ops[id].payload.SuggestionsPayload? && step.reply.IdeasReply?
    && Answer(s, id, inputs, step.reply, step.ids).Ok?
  }

  /** What the saved merge leaves of its analysis. */
  ghost function SizeAfter(s: State, step: Step): (n: nat)
    requires Merges(s, step)
  {
    var op := s.ops[Writes(s, step).value];
    MergedSize(s.docs[op.task], s.jobs[(step.worker, step.owner)].phase.inputs, op.payload.analysis, op.payload.decisions, step.reply.ideas)
  }

  /** The merge, if the step saves one, leaves none or at least five suggestions. */
  ghost predicate LeavesEnough(s: State, step: Step) {
    Merges(s, step) ==> SizeAfter(s, step) == 0 || SizeAfter(s, step) >= 5
  }

  /** The rows of the merged document. */
  lemma MergeShown(s: State, step: Step)
    requires Base(s) && RowsOk(s) && Merges(s, step)
    ensures
      var op := s.ops[Writes(s, step).value];
      var before, next := s.docs[op.task].suggestions, Next(s, step).docs[op.task].suggestions;
      && op.task in Next(s, step).docs && |RowsOf(next, op.payload.analysis)| == SizeAfter(s, step)
      && (GroupOk(RowsOf(next, op.payload.analysis)) <==> SizeAfter(s, step) == 0 || SizeAfter(s, step) >= 5)
      && forall other: Id | other != op.payload.analysis :: RowsOf(next, other) == RowsOf(before, other)
  {
    var k := (step.worker, step.owner);
    var id, inputs := Writes(s, step).value, s.jobs[k].phase.inputs;
    var op := s.ops[id];
    assert JobRows(s, k);
    AnswerShown(s, step, op.task);
    assert Answer(s, id, inputs, step.reply, step.ids) ==
           MergeSuggestions(s.docs[op.task], inputs, op.payload.analysis, op.payload.decisions, step.reply.ideas, step.ids);
    LateMergeValid(s.docs[op.task], inputs, op.payload.analysis, op.payload.decisions, step.reply.ideas, step.ids);
    LateMergeGroup(s.docs[op.task], inputs, op.payload.analysis, op.payload.decisions, step.reply.ideas, step.ids);
  }

  /** An answer that saves no merge leaves the suggestions alone. */
  lemma OtherAnswerShown(s: State, step: Step, t: Id)
    requires t in s.docs && Answers(s, step, t) && !Merges(s, step)
    ensures t in Next(s, step).docs && Next(s, step).docs[t].suggestions == s.docs[t].suggestions
  {
    AnswerShown(s, step, t);
  }

  lemma SuggestionsAtDoc(s: State, step: Step, t: Id)
    requires Base(s) && RowsOk(s) && SuggestionsAll(s) && t in Next(s, step).docs
    ensures SuggestionsOk(Next(s, step).docs[t].suggestions) <==> (Answers(s, step, t) ==> LeavesEnough(s, step))
  {
    if t !in s.docs {
      NewDocEmpty(s, step, t);
      assert forall a: Id :: RowsOf([], a) == [];
    } else if Answers(s, step, t) && Merges(s, step) {
      MergeShown(s, step);
      MergedOkIff(s.docs[t].suggestions, Next(s, step).docs[t].suggestions, s.ops[Writes(s, step).value].payload.analysis);
    } else if Answers(s, step, t) {
      OtherAnswerShown(s, step, t);
    } else if step.EditTask? || step.Submit? || step.Retry? {
      RestSuggestions(s, step, t);
      SameIdeasKeep(s.docs[t].suggestions, Next(s, step).docs[t].suggestions);
    } else {
      SuggestionsUntouched(s, step, t);
    }
  }

  lemma MergedOkIff(before: seq<SuggestionRow>, next: seq<SuggestionRow>, analysis: Id)
    requires SuggestionsOk(before) && forall other: Id | other != analysis :: RowsOf(next, other) == RowsOf(before, other)
    ensures SuggestionsOk(next) <==> GroupOk(RowsOf(next, analysis))
  {
    forall a: Id ensures GroupOk(RowsOf(before, a)) {}
    if GroupOk(RowsOf(next, analysis)) {
      forall a: Id ensures GroupOk(RowsOf(next, a)) { if a != analysis { assert RowsOf(next, a) == RowsOf(before, a); } }
    }
  }

  /** One step: every analysis keeps none or five to eight suggestions with distinct keys iff a
      saved merge leaves none or at least five. */
  lemma SuggestionsStepExact(s: State, step: Step)
    requires Base(s) && RowsOk(s) && SuggestionsAll(s)
    ensures SuggestionsAll(Next(s, step)) <==> LeavesEnough(s, step)
  {
    var r := Next(s, step);
    forall t | t in r.docs ensures SuggestionsOk(r.docs[t].suggestions) <==> (Answers(s, step, t) ==> LeavesEnough(s, step)) {
      SuggestionsAtDoc(s, step, t);
    }
    if Merges(s, step) {
      var t := s.ops[Writes(s, step).value].task;
      MergeShown(s, step);
      assert Answers(s, step, t) && t in r.docs;
    }
  }

  /** Exactly when a step gives an analysis that has suggestions more of them. */
  lemma GrowsIff(s: State, step: Step, t: Id, a: Id)
    requires Base(s) && RowsOk(s) && t in s.docs && RowsOf(s.docs[t].suggestions, a) != []
    ensures t in Next(s, step).docs
    ensures |RowsOf(Next(s, step).docs[t].suggestions, a)| > |RowsOf(s.docs[t].suggestions, a)| <==>
            Answers(s, step, t) && Merges(s, step) && s.ops[Writes(s, step).value].payload.analysis == a
            && SizeAfter(s, step) > |RowsOf(s.docs[t].suggestions, a)|
  {
    if Answers(s, step, t) && Merges(s, step) {
      MergeShown(s, step);
    } else if Answers(s, step, t) {
      OtherAnswerShown(s, step, t);
    } else if step.EditTask? || step.Submit? || step.Retry? {
      RestSuggestions(s, step, t);
      SameIdeasGroups(s.docs[t].suggestions, Next(s, step).docs[t].suggestions, a);
    } else {
      SuggestionsUntouched(s, step, t);
    }
  }
}
