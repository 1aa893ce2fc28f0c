/** What the lookups, filters and the merge of a document come to, row by row. */
module DocumentMeans {
  import opened Basics
  import opened Domain
  import opened Documents

  // ---------------------------------------------------------------- lookups

  ghost predicate HasVersion(doc: Doc, id: Id) {
    exists i :: 0 <= i < |doc.versions| && doc.versions[i].id == id
  }

  lemma VersionKnown(doc: Doc, id: Id)
    ensures VersionAt(doc.versions, id) >= 0 <==> HasVersion(doc, id)
  {
  }

  // ---------------------------------------------------------------- submitted decisions

  /** The decisions name the selected analysis and exactly the suggestions it has. */
  ghost predicate DecidesAll(doc: Doc, analysis: Id, decisions: map<Id, Choice>) {
    && (exists i :: 0 <= i < |doc.analyses| && doc.analyses[i].id == analysis && doc.analyses[i].selected)
    && forall x: Id :: x in decisions <==>
         exists i :: 0 <= i < |doc.suggestions| && doc.suggestions[i].analysis == analysis && doc.suggestions[i].id == x
  }

  ghost predicate DecisionsFit(doc: Doc, p: Payload) {
    match p
    case AnalysisPayload => true
    case SuggestionsPayload(analysis, decisions) => DecidesAll(doc, analysis, decisions)
    case FirstDraftPayload(analysis, decisions) => DecidesAll(doc, analysis, decisions)
    case RevisionPayload(_, FromSuggestions(analysis, decisions)) => DecidesAll(doc, analysis, decisions)
    case RevisionPayload(_, _) => true
  }

  lemma {:induction false} GroupIds(rows: seq<SuggestionRow>, analysis: Id, x: Id)
    ensures x in IdsOf(RowsOf(rows, analysis)) <==>
      exists i :: 0 <= i < |rows| && rows[i].analysis == analysis && rows[i].id == x
  {
    RowsOfFiltered(rows, analysis);
    var part, keep := RowsOf(rows, analysis), (row: SuggestionRow) => row.analysis == analysis;
    var from: seq<nat> :| Subsequence(part, rows, from) && Hits(rows, from, keep);
    if i :| 0 <= i < |rows| && rows[i].analysis == analysis && rows[i].id == x {
      assert i in from;
      var k :| 0 <= k < |from| && from[k] == i;
      assert part[k] == rows[i];
    }
    if x in IdsOf(part) {
      var k :| 0 <= k < |part| && part[k].id == x;
      assert from[k] in from;
    }
  }

  lemma SnapshotFits(doc: Doc, p: Payload)
    ensures ApplySnapshot(doc, p).Ok? <==> DecisionsFit(doc, p)
  {
    var submitted := DecisionsOf(p);
    if submitted.Some? {
      var (analysis, decisions) := submitted.value;
      forall x: Id ensures x in IdsOf(RowsOf(doc.suggestions, analysis)) <==>
        exists i :: 0 <= i < |doc.suggestions| && doc.suggestions[i].analysis == analysis && doc.suggestions[i].id == x
      {
        GroupIds(doc.suggestions, analysis, x);
      }
      assert DecidesAll(doc, analysis, decisions) <==> ApplySnapshot(doc, p).Ok?;
    }
  }

  // ---------------------------------------------------------------- filters

  lemma {:induction false} RowsOfFiltered(rows: seq<SuggestionRow>, analysis: Id)
    ensures Filtered(RowsOf(rows, analysis), rows, (row: SuggestionRow) => row.analysis == analysis)
  {
    var keep := (row: SuggestionRow) => row.analysis == analysis;
    if rows == [] {
      FilteredNone(keep);
    } else {
      var front, last := rows[..|rows| - 1], rows[|rows| - 1];
      RowsOfFiltered(front, analysis);
      var part := RowsOf(front, analysis);
      FilteredLast(part, RowsOf(rows, analysis), rows, keep);
    }
  }

  /** The rows the member keeps are the selected ones of the analysis. */
  lemma {:induction false} FixedFiltered(rows: seq<SuggestionRow>, analysis: Id, decisions: map<Id, Choice>)
    ensures Filtered(Fixed(RowsOf(rows, analysis), decisions), rows,
      (row: SuggestionRow) => row.analysis == analysis && row.id in decisions && decisions[row.id].selected)
  {
    var keep := (row: SuggestionRow) => row.analysis == analysis && row.id in decisions && decisions[row.id].selected;
    if rows == [] {
      FilteredNone(keep);
    } else {
      var front, last := rows[..|rows| - 1], rows[|rows| - 1];
      var group := RowsOf(front, analysis);
      FixedFiltered(front, analysis, decisions);
      assert (group + [last])[..|group|] == group;
      assert RowsOf(rows, analysis) == if last.analysis == analysis then group + [last] else group;
      var part := Fixed(group, decisions);
      FilteredLast(part, Fixed(RowsOf(rows, analysis), decisions), rows, keep);
    }
  }

  /** Neither the key nor the title is that of a kept suggestion. */
  predicate Newcomer(idea: Idea, fixed: seq<SuggestionRow>) {
    forall k | 0 <= k < |fixed| :: fixed[k].idea.key != idea.key && fixed[k].idea.title != idea.title
  }

  lemma {:induction false} ReplacementsFiltered(ideas: seq<Idea>, fixed: seq<SuggestionRow>)
    ensures Filtered(Replacements(ideas, fixed), ideas, (idea: Idea) => Newcomer(idea, fixed))
  {
    var keep := (idea: Idea) => Newcomer(idea, fixed);
    if ideas == [] {
      FilteredNone(keep);
    } else {
      var front, last := ideas[..|ideas| - 1], ideas[|ideas| - 1];
      var part := Replacements(front, fixed);
      ReplacementsFiltered(front, fixed);
      assert Newcomer(last, fixed) <==> !Clashes(last, fixed);
      FilteredLast(part, Replacements(ideas, fixed), ideas, keep);
    }
  }

  lemma {:induction false} KeptFiltered(rows: seq<SuggestionRow>, analysis: Id, fixed: set<Id>)
    ensures Filtered(Kept(rows, analysis, fixed), rows, (row: SuggestionRow) => row.analysis != analysis || row.id in fixed)
  {
    var keep := (row: SuggestionRow) => row.analysis != analysis || row.id in fixed;
    if rows == [] {
      FilteredNone(keep);
    } else {
      var front, last := rows[..|rows| - 1], rows[|rows| - 1];
      var part := Kept(front, analysis, fixed);
      KeptFiltered(front, analysis, fixed);
      FilteredLast(part, Kept(rows, analysis, fixed), rows, keep);
    }
  }

  lemma {:induction false} WithoutLockFiltered(locks: seq<Lock>, id: Id)
    ensures Filtered(WithoutLock(locks, id), locks, (lock: Lock) => lock.id != id)
  {
    var keep := (lock: Lock) => lock.id != id;
    if locks == [] {
      FilteredNone(keep);
    } else {
      var front, last := locks[..|locks| - 1], locks[|locks| - 1];
      var part := WithoutLock(front, id);
      WithoutLockFiltered(front, id);
      FilteredLast(part, WithoutLock(locks, id), locks, keep);
    }
  }

  // ---------------------------------------------------------------- the merge

  /** Eight suggestions at first, later as many as before within five and eight. */
  function Target(previous: nat): (n: nat) {
    if previous == 0 || previous > 8 then 8 else if previous < 5 then 5 else previous
  }

  /** The first candidates, up to the target; when more rows are kept than the target allows, the
      surplus is cut from the end of the list instead. */
  predicate Fills(added: seq<Idea>, candidates: seq<Idea>, kept: nat, target: nat) {
    && added <= candidates
    && if kept <= target then |added| == (if |candidates| <= target - kept then |candidates| else target - kept)
       else |added| == if |candidates| >= kept - target then |candidates| - (kept - target) else 0
  }

  lemma CapacityFills(candidates: seq<Idea>, previous: nat, kept: nat)
    ensures Fills(Upto(candidates, MergeCapacity(previous, kept)), candidates, kept, Target(previous))
  {
  }

  /** A merge keeps the selected rows of the analysis and adds, in the order of the reply, the
      first ideas that repeat no kept key or title. */
  lemma MergedExact(inputs: Doc, analysis: Id, decisions: map<Id, Choice>, ideas: seq<Idea>)
    returns (previous: seq<SuggestionRow>, candidates: seq<Idea>)
    ensures Filtered(previous, inputs.suggestions, (row: SuggestionRow) => row.analysis == analysis)
    ensures
      var (fixed, added) := Merged(inputs, analysis, decisions, ideas);
      && Filtered(fixed, inputs.suggestions,
           (row: SuggestionRow) => row.analysis == analysis && row.id in decisions && decisions[row.id].selected)
      && Filtered(candidates, ideas, (idea: Idea) => Newcomer(idea, fixed))
      && Fills(added, candidates, |fixed|, Target(|previous|))
  {
    previous := RowsOf(inputs.suggestions, analysis);
    RowsOfFiltered(inputs.suggestions, analysis);
    FixedFiltered(inputs.suggestions, analysis, decisions);
    var fixed := Fixed(previous, decisions);
    candidates := Replacements(ideas, fixed);
    ReplacementsFiltered(ideas, fixed);
    CapacityFills(candidates, |previous|, |fixed|);
  }

  /** The merged list has five to eight suggestions with pairwise different keys. */
  predicate Complete(fixed: seq<SuggestionRow>, added: seq<Idea>) {
    && 5 <= |fixed| + |added| <= 8
    && (forall i, j | 0 <= i < j < |fixed| :: fixed[i].idea.key != fixed[j].idea.key)
    && (forall i, j | 0 <= i < j < |added| :: added[i].key != added[j].key)
    && (forall i, j | 0 <= i < |fixed| && 0 <= j < |added| :: fixed[i].idea.key != added[j].key)
  }

  lemma CompleteIsValid(fixed: seq<SuggestionRow>, added: seq<Idea>)
    ensures ValidSet(IdeasOf(fixed) + added) <==> Complete(fixed, added)
  {
    var all := IdeasOf(fixed) + added;
    var n := |fixed|;
    if ValidSet(all) {
      forall i, j | 0 <= i < j < |fixed| ensures fixed[i].idea.key != fixed[j].idea.key { assert all[i].key != all[j].key; }
      forall i, j | 0 <= i < j < |added| ensures added[i].key != added[j].key { assert all[n + i].key != all[n + j].key; }
      forall i, j | 0 <= i < |fixed| && 0 <= j < |added| ensures fixed[i].idea.key != added[j].key { assert all[i].key != all[n + j].key; }
    }
  }

  /** The rows of other analyses and the kept ones, in order, then the added ones, undecided. */
  ghost predicate MergedRows(before: seq<SuggestionRow>, after: seq<SuggestionRow>, analysis: Id,
    fixed: seq<SuggestionRow>, added: seq<Idea>, ids: seq<Id>, kept: seq<SuggestionRow>)
  {
    && Filtered(kept, before, (row: SuggestionRow) => row.analysis != analysis || row.id in IdsOf(fixed))
    && |added| <= |ids| && |after| == |kept| + |added|
    && (forall i | 0 <= i < |kept| :: after[i] == kept[i])
    && forall i | 0 <= i < |added| :: after[|kept| + i] == SuggestionRow(ids[i], analysis, added[i], Pending, None)
  }

  lemma RowsMerged(before: seq<SuggestionRow>, after: seq<SuggestionRow>, analysis: Id,
    fixed: seq<SuggestionRow>, added: seq<Idea>, ids: seq<Id>) returns (kept: seq<SuggestionRow>)
    requires |added| <= |ids| && after == Kept(before, analysis, IdsOf(fixed)) + NewRows(analysis, added, ids)
    ensures MergedRows(before, after, analysis, fixed, added, ids, kept)
  {
    kept := Kept(before, analysis, IdsOf(fixed));
    KeptFiltered(before, analysis, IdsOf(fixed));
  }

  /** A saved merge: accepted iff the merged list is complete and the row ids are new; the other
      rows of the analysis go, the new ones come last, undecided. */
  lemma MergeMeans(doc: Doc, inputs: Doc, analysis: Id, decisions: map<Id, Choice>, ideas: seq<Idea>, ids: seq<Id>)
    returns (kept: seq<SuggestionRow>)
    ensures
      var (fixed, added) := Merged(inputs, analysis, decisions, ideas);
      var r := MergeSuggestions(doc, inputs, analysis, decisions, ideas, ids);
      && (r.Ok? <==> Complete(fixed, added) && |ids| >= |added| && FreshIds(ids, doc.suggestions))
      && (r.Ok? ==>
            && r.value == doc.(suggestions := r.value.suggestions)
            && MergedRows(doc.suggestions, r.value.suggestions, analysis, fixed, added, ids, kept))
  {
    var (fixed, added) := Merged(inputs, analysis, decisions, ideas);
    var r := MergeSuggestions(doc, inputs, analysis, decisions, ideas, ids);
    CompleteIsValid(fixed, added);
    kept := [];
    if r.Ok? { kept := RowsMerged(doc.suggestions, r.value.suggestions, analysis, fixed, added, ids); }
  }
}
