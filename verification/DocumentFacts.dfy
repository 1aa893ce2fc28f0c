/** What every edit and every saved result keeps true of a document. */
module DocumentFacts {
  import opened Basics
  import opened Domain
  import opened TextMatch
  import opened Validation
  import opened Documents
  import opened DocumentMeans

  // ---------------------------------------------------------------- rows and locks

  predicate DistinctVersions(versions: seq<Version>) {
    forall i, j | 0 <= i < j < |versions| :: versions[i].id != versions[j].id
  }

  /** A lock reads what stands at its range of its source version. */
  predicate LockMatches(versions: seq<Version>, lock: Lock) {
    var v := VersionAt(versions, lock.source);
    v >= 0 && lock.start < lock.end <= |versions[v].content| && lock.text == versions[v].content[lock.start..lock.end]
  }

  /** Locks match their versions; those of one version are disjoint; order indexes and ids
      are distinct. */
  predicate LocksOk(versions: seq<Version>, locks: seq<Lock>) {
    && (forall i | 0 <= i < |locks| :: LockMatches(versions, locks[i]))
    && (forall i, j | 0 <= i < j < |locks| :: LocksApart(locks[i], locks[j]))
  }

  predicate LocksApart(a: Lock, b: Lock) {
    && a.id != b.id && a.order != b.order
    && (a.source == b.source ==> a.end <= b.start || b.end <= a.start)
  }

  predicate DocOk(doc: Doc) {
    && DistinctVersions(doc.versions)
    && LocksOk(doc.versions, doc.locks)
    && (doc.state == Archived ==> doc.archivedFrom.Some?)
    && doc.archivedFrom != Some(Archived)
  }

  lemma {:induction false} VersionAtUnique(versions: seq<Version>, i: nat)
    requires DistinctVersions(versions) && i < |versions|
    ensures VersionAt(versions, versions[i].id) == i
  {
  }

  lemma LockMatchesMore(versions: seq<Version>, v: Version, lock: Lock)
    requires DistinctVersions(versions + [v]) && LockMatches(versions, lock)
    ensures LockMatches(versions + [v], lock)
  {
    var i := VersionAt(versions, lock.source);
    VersionAtUnique(versions + [v], i);
  }

  /** A new version leaves the locks as they are. */
  lemma LocksOkMore(versions: seq<Version>, v: Version, locks: seq<Lock>)
    requires DistinctVersions(versions) && VersionAt(versions, v.id) < 0 && LocksOk(versions, locks)
    ensures DistinctVersions(versions + [v]) && LocksOk(versions + [v], locks)
  {
    forall i | 0 <= i < |locks| ensures LockMatches(versions + [v], locks[i]) {
      LockMatchesMore(versions, v, locks[i]);
    }
  }

  lemma WithoutLockSubset(locks: seq<Lock>, id: Id) returns (from: seq<nat>)
    ensures Subsequence(WithoutLock(locks, id), locks, from)
  {
    WithoutLockFiltered(locks, id);
    from :| Subsequence(WithoutLock(locks, id), locks, from) && Hits(locks, from, (lock: Lock) => lock.id != id);
  }

  lemma LocksOkFewer(versions: seq<Version>, locks: seq<Lock>, id: Id)
    requires LocksOk(versions, locks)
    ensures LocksOk(versions, WithoutLock(locks, id))
  {
    var from := WithoutLockSubset(locks, id);
    var r := WithoutLock(locks, id);
    forall i | 0 <= i < |r| ensures LockMatches(versions, r[i]) { assert LockMatches(versions, locks[from[i]]); }
    forall i, j | 0 <= i < j < |r| ensures LocksApart(r[i], r[j]) { assert LocksApart(locks[from[i]], locks[from[j]]); }
  }

  lemma LocksOkAdded(doc: Doc, id: Id, version: Id, start: nat, end: nat)
    requires DocOk(doc) && AddLock(doc, id, version, start, end).Ok?
    ensures var next := AddLock(doc, id, version, start, end).value; LocksOk(next.versions, next.locks)
  {
    var next := AddLock(doc, id, version, start, end).value;
    var lock := next.locks[|doc.locks|];
    assert LockMatches(doc.versions, lock);
    forall i | 0 <= i < |doc.locks| ensures LocksApart(doc.locks[i], lock) {
      assert !RangesOverlap(doc.locks[i], version, start, end);
    }
  }

  /** Every accepted edit keeps locks matching, disjoint and distinctly ordered. */
  lemma EditKeepsDoc(doc: Doc, edit: Edit)
    requires DocOk(doc) && ApplyEdit(doc, edit).Ok?
    ensures DocOk(ApplyEdit(doc, edit).value)
  {
    match edit
    case ManualEdit(id, parent, content) =>
      LocksOkMore(doc.versions, Version(id, Some(parent), ManualVersion, content), doc.locks);
    case CreateLock(id, version, start, end) => LocksOkAdded(doc, id, version, start, end);
    case DeleteLock(lock) => LocksOkFewer(doc.versions, doc.locks, lock);
    case _ =>
  }

  lemma PersistKeepsDoc(doc: Doc, inputs: Doc, p: Payload, o: Outcome, ids: seq<Id>)
    requires DocOk(doc) && Persist(doc, inputs, p, o, ids).Ok?
    ensures DocOk(Persist(doc, inputs, p, o, ids).value)
    ensures var d := Persist(doc, inputs, p, o, ids).value;
      d.state == doc.state && d.archivedFrom == doc.archivedFrom && d.owner == doc.owner && d.locks == doc.locks && doc.versions <= d.versions
  {
    match o
    case SaveVersion(parent, kind, content) =>
      LocksOkMore(doc.versions, Version(ids[0], parent, kind, content), doc.locks);
    case _ =>
  }

  function LocksFrom(locks: seq<Lock>, version: Id): (r: seq<Lock>) {
    if locks == [] then []
    else
      var front, last := locks[..|locks| - 1], locks[|locks| - 1];
      if last.source == version then LocksFrom(front, version) + [last] else LocksFrom(front, version)
  }

  lemma {:induction false} LocksFromOk(versions: seq<Version>, locks: seq<Lock>, version: Id)
    requires LocksOk(versions, locks)
    ensures LocksOk(versions, LocksFrom(locks, version))
  {
    if locks != [] {
      var front, last := locks[..|locks| - 1], locks[|locks| - 1];
      assert LocksOk(versions, front);
      LocksFromOk(versions, front, version);
      var r := LocksFrom(front, version);
      forall k | 0 <= k < |r| ensures LocksApart(r[k], last) {
        LocksFromIn(front, version);
        assert r[k] in front;
        var i :| 0 <= i < |front| && front[i] == r[k];
        assert LocksApart(locks[i], last);
      }
      assert LockMatches(versions, last);
      LocksOkSnoc(versions, r, last);
    }
  }

  lemma {:induction false} LocksFromIn(locks: seq<Lock>, version: Id)
    ensures forall x | x in LocksFrom(locks, version) :: x in locks && x.source == version
  {
    if locks != [] { LocksFromIn(locks[..|locks| - 1], version); }
  }

  lemma LocksOkSnoc(versions: seq<Version>, locks: seq<Lock>, last: Lock)
    requires LocksOk(versions, locks) && LockMatches(versions, last) && forall k | 0 <= k < |locks| :: LocksApart(locks[k], last)
    ensures LocksOk(versions, locks + [last])
  {
  }

  /** The validator always accepts a version's own content against the locks taken from it. */
  lemma OwnContentAccepted(doc: Doc, v: nat)
    requires DocOk(doc) && v < |doc.versions|
    ensures AllHeld(doc.versions[v].content, LockTexts(LocksFrom(doc.locks, doc.versions[v].id)))
  {
    var version := doc.versions[v];
    var own := LocksFrom(doc.locks, version.id);
    LocksFromOk(doc.versions, doc.locks, version.id);
    LocksFromIn(doc.locks, version.id);
    VersionAtUnique(doc.versions, v);
    var starts: seq<int> := seq(|own|, i requires 0 <= i < |own| => own[i].start);
    forall i | 0 <= i < |own| ensures Occurs(version.content, LockTexts(own)[i], starts[i]) {
      assert LockMatches(doc.versions, own[i]);
    }
    forall i, j | 0 <= i < j < |own| && LockTexts(own)[i] == LockTexts(own)[j]
      ensures Apart(starts[i], starts[j], |LockTexts(own)[i]|)
    {
      assert LockMatches(doc.versions, own[i]) && LockMatches(doc.versions, own[j]) && LocksApart(own[i], own[j]);
    }
    AssignedHeld(version.content, LockTexts(own), starts);
  }

  // ---------------------------------------------------------------- first draft

  /** The state that counts: the one an archived document came from. */
  function Effective(doc: Doc): (s: TaskState) {
    if doc.state == Archived && doc.archivedFrom.Some? then doc.archivedFrom.value else doc.state
  }

  /** One first draft, and every later version descends from an earlier one. */
  predicate Rooted(versions: seq<Version>) {
    && versions != [] && versions[0].kind == FirstDraftVersion && versions[0].parent == None
    && forall i | 0 < i < |versions| :: versions[i].kind != FirstDraftVersion && HasParent(versions[..i], versions[i])
  }

  predicate HasParent(earlier: seq<Version>, v: Version) {
    v.parent.Some? && exists j :: 0 <= j < |earlier| && earlier[j].id == v.parent.value
  }

  /** Editing, revising and finalized documents have their first draft; others have no version. */
  predicate DraftOk(doc: Doc) {
    if Drafted(Effective(doc)) then Rooted(doc.versions) else doc.versions == []
  }

  function FirstDrafts(versions: seq<Version>): (n: nat) {
    if versions == [] then 0
    else FirstDrafts(versions[..|versions| - 1]) + (if versions[|versions| - 1].kind == FirstDraftVersion then 1 else 0)
  }

  lemma {:induction false} RootedHasOne(versions: seq<Version>)
    requires Rooted(versions)
    ensures FirstDrafts(versions) == 1
  {
    var front := versions[..|versions| - 1];
    if front == [] {
      assert FirstDrafts(front) == 0;
    } else {
      forall i | 0 < i < |front| ensures HasParent(front[..i], front[i]) {
        assert front[..i] == versions[..i] && HasParent(versions[..i], versions[i]);
      }
      RootedHasOne(front);
    }
  }

  /** A document is editing, revising or finalized iff it has exactly one first draft. */
  lemma DraftedIffOneFirstDraft(doc: Doc)
    requires DraftOk(doc)
    ensures Drafted(Effective(doc)) <==> FirstDrafts(doc.versions) == 1
    ensures Drafted(Effective(doc)) <==> HasFirstDraft(doc.versions)
  {
    if Drafted(Effective(doc)) { RootedHasOne(doc.versions); }
  }

  /** Every parent chain ends at the first draft. */
  lemma {:induction false} ChainEndsAtDraft(versions: seq<Version>, i: nat) returns (chain: seq<nat>)
    requires Rooted(versions) && i < |versions|
    ensures |chain| > 0 && chain[0] == i && chain[|chain| - 1] == 0
    ensures forall k | 0 <= k < |chain| :: chain[k] < |versions|
    ensures forall k | 0 <= k < |chain| - 1 :: versions[chain[k]].parent == Some(versions[chain[k + 1]].id)
    decreases i
  {
    if i == 0 {
      chain := [0];
    } else {
      assert HasParent(versions[..i], versions[i]);
      var j :| 0 <= j < i && versions[..i][j].id == versions[i].parent.value;
      var rest := ChainEndsAtDraft(versions, j);
      chain := [i] + rest;
    }
  }

  lemma RootedMore(versions: seq<Version>, v: Version)
    requires Rooted(versions) && v.kind != FirstDraftVersion && HasParent(versions, v)
    ensures Rooted(versions + [v])
  {
    var all := versions + [v];
    forall i | 0 < i < |all| ensures all[i].kind != FirstDraftVersion && HasParent(all[..i], all[i]) {
      if i < |versions| {
        assert all[..i] == versions[..i];
      } else {
        assert all[..i] == versions;
      }
    }
  }

  lemma ParentKnown(versions: seq<Version>, v: Version)
    requires v.parent.Some? && VersionAt(versions, v.parent.value) >= 0
    ensures HasParent(versions, v)
  {
    var j := VersionAt(versions, v.parent.value);
    assert versions[j].id == v.parent.value;
  }

  /** No accepted edit separates the document's state from its first draft. */
  lemma EditKeepsDraft(doc: Doc, edit: Edit)
    requires DocOk(doc) && DraftOk(doc) && ApplyEdit(doc, edit).Ok?
    ensures DraftOk(ApplyEdit(doc, edit).value)
  {
    match edit
    case ManualEdit(id, parent, content) =>
      var v := Version(id, Some(parent), ManualVersion, content);
      ParentKnown(doc.versions, v);
      RootedMore(doc.versions, v);
    case _ =>
  }

  // ---------------------------------------------------------------- analyses

  /** One analysis more, the last row: the text under the next number, and the only one that is
      selected; the earlier ones keep everything else. */
  ghost predicate NewestSelected(before: seq<AnalysisRow>, after: seq<AnalysisRow>, id: Id, text: string) {
    && |after| == |before| + 1
    && after[|before|].id == id && after[|before|].payload == text && after[|before|].selected
    && (forall i | 0 <= i < |before| :: before[i].sequence < after[|before|].sequence)
    && (if before == [] then after[|before|].sequence == 1 else exists i :: 0 <= i < |before| && before[i].sequence + 1 == after[|before|].sequence)
    && (forall i | 0 <= i < |before| ::
          after[i].id == before[i].id && after[i].sequence == before[i].sequence && after[i].payload == before[i].payload && !after[i].selected)
  }

  /** What a saved analysis does to its document. */
  lemma AnalysisRecorded(doc: Doc, inputs: Doc, reply: Reply, ids: seq<Id>)
    requires Persist(doc, inputs, AnalysisPayload, Invoke(inputs, AnalysisPayload, reply), ids).Ok?
    ensures reply.TextReply? && |ids| > 0
    ensures
      var r := Persist(doc, inputs, AnalysisPayload, Invoke(inputs, AnalysisPayload, reply), ids).value;
      r == doc.(analyses := r.analyses) && NewestSelected(doc.analyses, r.analyses, ids[0], reply.text)
  {
    var before, n := doc.analyses, NextSequence(doc.analyses);
    assert before != [] && n == 1 ==> before[0].sequence + 1 == n;
  }

  // ---------------------------------------------------------------- suggestions

  /** Per analysis there are no suggestions, or five to eight with distinct keys. */
  ghost predicate SuggestionsOk(rows: seq<SuggestionRow>) {
    forall a: Id :: GroupOk(RowsOf(rows, a))
  }

  predicate GroupOk(group: seq<SuggestionRow>) {
    group == [] || ValidSet(IdeasOf(group))
  }

  /** Rows that differ only in decision and note. */
  predicate SameIdeas(a: seq<SuggestionRow>, b: seq<SuggestionRow>) {
    |a| == |b| && forall i | 0 <= i < |a| :: a[i].id == b[i].id && a[i].analysis == b[i].analysis && a[i].idea == b[i].idea
  }

  lemma {:induction false} SameIdeasGroups(a: seq<SuggestionRow>, b: seq<SuggestionRow>, analysis: Id)
    requires SameIdeas(a, b)
    ensures SameIdeas(RowsOf(a, analysis), RowsOf(b, analysis))
  {
    if a != [] { SameIdeasGroups(a[..|a| - 1], b[..|b| - 1], analysis); }
  }

  lemma SameIdeasKeep(a: seq<SuggestionRow>, b: seq<SuggestionRow>)
    requires SameIdeas(a, b) && SuggestionsOk(a)
    ensures SuggestionsOk(b)
  {
    forall x: Id ensures GroupOk(RowsOf(b, x)) {
      SameIdeasGroups(a, b, x);
      assert GroupOk(RowsOf(a, x));
      assert IdeasOf(RowsOf(a, x)) == IdeasOf(RowsOf(b, x));
    }
  }

  lemma SameIdeasIds(a: seq<SuggestionRow>, b: seq<SuggestionRow>, analysis: Id)
    requires SameIdeas(a, b)
    ensures IdsOf(RowsOf(a, analysis)) == IdsOf(RowsOf(b, analysis))
  {
    SameIdeasGroups(a, b, analysis);
    var x, y := RowsOf(a, analysis), RowsOf(b, analysis);
    forall id ensures id in IdsOf(x) <==> id in IdsOf(y) {
      if i :| 0 <= i < |x| && x[i].id == id { assert y[i].id == id; }
      if i :| 0 <= i < |y| && y[i].id == id { assert x[i].id == id; }
    }
  }

  lemma {:induction false} RowsOfConcat(a: seq<SuggestionRow>, b: seq<SuggestionRow>, analysis: Id)
    ensures RowsOf(a + b, analysis) == RowsOf(a, analysis) + RowsOf(b, analysis)
  {
    if b == [] {
      assert a + b == a;
    } else {
      RowsOfConcat(a, b[..|b| - 1], analysis);
      assert (a + b)[..|a + b| - 1] == a + b[..|b| - 1];
    }
  }

  lemma {:induction false} RowsOfUniform(rows: seq<SuggestionRow>, analysis: Id, other: Id)
    requires forall i | 0 <= i < |rows| :: rows[i].analysis == analysis
    ensures RowsOf(rows, other) == if other == analysis then rows else []
  {
    if rows != [] {
      RowsOfUniform(rows[..|rows| - 1], analysis, other);
      assert rows == rows[..|rows| - 1] + [rows[|rows| - 1]];
    }
  }

  /** Deleting the unselected rows of one analysis does not touch the others. */
  lemma {:induction false} KeptOther(rows: seq<SuggestionRow>, analysis: Id, fixed: set<Id>, other: Id)
    requires other != analysis
    ensures RowsOf(Kept(rows, analysis, fixed), other) == RowsOf(rows, other)
  {
    if rows != [] {
      var front, last := rows[..|rows| - 1], rows[|rows| - 1];
      KeptOther(front, analysis, fixed, other);
      if last.analysis != analysis || last.id in fixed {
        assert Kept(rows, analysis, fixed)[..|Kept(front, analysis, fixed)|] == Kept(front, analysis, fixed);
      }
    }
  }

  /** Rows of a group filtered by a set of ids. */
  function Among(group: seq<SuggestionRow>, ids: set<Id>): (r: seq<SuggestionRow>) {
    if group == [] then []
    else
      var front, last := group[..|group| - 1], group[|group| - 1];
      if last.id in ids then Among(front, ids) + [last] else Among(front, ids)
  }

  lemma {:induction false} AmongSnoc(group: seq<SuggestionRow>, last: SuggestionRow, ids: set<Id>)
    ensures Among(group + [last], ids) == if last.id in ids then Among(group, ids) + [last] else Among(group, ids)
  {
    assert (group + [last])[..|group|] == group;
  }

  lemma {:induction false} KeptSame(rows: seq<SuggestionRow>, analysis: Id, fixed: set<Id>)
    ensures RowsOf(Kept(rows, analysis, fixed), analysis) == Among(RowsOf(rows, analysis), fixed)
  {
    if rows != [] {
      var front, last := rows[..|rows| - 1], rows[|rows| - 1];
      KeptSame(front, analysis, fixed);
      if last.analysis == analysis { AmongSnoc(RowsOf(front, analysis), last, fixed); }
      if last.analysis != analysis || last.id in fixed {
        assert Kept(rows, analysis, fixed)[..|Kept(front, analysis, fixed)|] == Kept(front, analysis, fixed);
      }
    }
  }

  lemma {:induction false} FixedIds(group: seq<SuggestionRow>, decisions: map<Id, Choice>)
    ensures forall id :: id in IdsOf(Fixed(group, decisions)) <==> id in IdsOf(group) && id in decisions && decisions[id].selected
    ensures |Fixed(group, decisions)| <= |group|
    ensures forall x | x in Fixed(group, decisions) :: x in group
  {
    if group != [] {
      var front, last := group[..|group| - 1], group[|group| - 1];
      FixedIds(front, decisions);
      IdsOfSnoc(front, last);
      IdsOfSnoc(Fixed(front, decisions), last);
      assert group == front + [last];
    }
  }

  lemma IdsOfSnoc(rows: seq<SuggestionRow>, last: SuggestionRow)
    ensures IdsOf(rows + [last]) == IdsOf(rows) + {last.id}
  {
    var all := rows + [last];
    forall id | id in IdsOf(rows) + {last.id} ensures id in IdsOf(all) {
      if id in IdsOf(rows) {
        var i :| 0 <= i < |rows| && rows[i].id == id;
        assert all[i].id == id;
      } else {
        assert all[|rows|].id == id;
      }
    }
  }

  /** Filtering by the ids of the fixed rows selects exactly the fixed rows. */
  lemma {:induction false} AmongFixed(group: seq<SuggestionRow>, decisions: map<Id, Choice>, ids: set<Id>)
    requires forall id | id in IdsOf(group) :: id in ids <==> id in decisions && decisions[id].selected
    ensures Among(group, ids) == Fixed(group, decisions)
  {
    if group != [] {
      var front, last := group[..|group| - 1], group[|group| - 1];
      assert group == front + [last];
      IdsOfSnoc(front, last);
      AmongFixed(front, decisions, ids);
    }
  }

  /** The rows of the analysis after a merge: the fixed rows unchanged, then the new ones. */
  lemma MergeGroup(doc: Doc, analysis: Id, decisions: map<Id, Choice>, ideas: seq<Idea>, ids: seq<Id>)
    requires MergeSuggestions(doc, doc, analysis, decisions, ideas, ids).Ok?
    ensures
      var (fixed, replacements) := Merged(doc, analysis, decisions, ideas);
      |ids| >= |replacements|
      && RowsOf(MergeSuggestions(doc, doc, analysis, decisions, ideas, ids).value.suggestions, analysis)
         == fixed + NewRows(analysis, replacements, ids)
  {
    var group := RowsOf(doc.suggestions, analysis);
    var (fixed, replacements) := Merged(doc, analysis, decisions, ideas);
    var added := NewRows(analysis, replacements, ids);
    var kept := Kept(doc.suggestions, analysis, IdsOf(fixed));
    FixedIds(group, decisions);
    AmongFixed(group, decisions, IdsOf(fixed));
    KeptSame(doc.suggestions, analysis, IdsOf(fixed));
    RowsOfConcat(kept, added, analysis);
    RowsOfUniform(added, analysis, analysis);
  }

  /** Each regeneration keeps every fixed row, leaves a valid set, never grows the set after
      its first creation, and leaves other analyses alone. */
  lemma MergeKeeps(doc: Doc, analysis: Id, decisions: map<Id, Choice>, ideas: seq<Idea>, ids: seq<Id>)
    requires SuggestionsOk(doc.suggestions)
    requires MergeSuggestions(doc, doc, analysis, decisions, ideas, ids).Ok?
    ensures
      var next := MergeSuggestions(doc, doc, analysis, decisions, ideas, ids).value.suggestions;
      var before := RowsOf(doc.suggestions, analysis);
      && SuggestionsOk(next)
      && Fixed(before, decisions) <= RowsOf(next, analysis)
      && ValidSet(IdeasOf(RowsOf(next, analysis)))
      && (before != [] ==> |RowsOf(next, analysis)| <= |before|)
      && (forall other: Id | other != analysis :: RowsOf(next, other) == RowsOf(doc.suggestions, other))
  {
    var next := MergeSuggestions(doc, doc, analysis, decisions, ideas, ids).value.suggestions;
    var before := RowsOf(doc.suggestions, analysis);
    var (fixed, replacements) := Merged(doc, analysis, decisions, ideas);
    var added := NewRows(analysis, replacements, ids);
    MergeGroup(doc, analysis, decisions, ideas, ids);
    assert GroupOk(before);
    FixedIds(before, decisions);
    assert IdeasOf(fixed + added) == IdeasOf(fixed) + replacements;
    forall other: Id | other != analysis ensures RowsOf(next, other) == RowsOf(doc.suggestions, other) {
      KeptOther(doc.suggestions, analysis, IdsOf(fixed), other);
      RowsOfConcat(Kept(doc.suggestions, analysis, IdsOf(fixed)), added, other);
      RowsOfUniform(added, analysis, other);
    }
    forall x: Id ensures GroupOk(RowsOf(next, x)) {
      if x != analysis { assert GroupOk(RowsOf(doc.suggestions, x)); }
    }
  }

  /** When the preparation passed and the sets are valid, at least one replacement fits. */
  lemma MergeCapacityPositive(doc: Doc, p: Payload)
    requires SuggestionsOk(doc.suggestions) && p.SuggestionsPayload? && PreparationOk(doc, p)
    ensures
      var previous := RowsOf(doc.suggestions, p.analysis);
      MergeCapacity(|previous|, |Fixed(previous, p.decisions)|) >= 1
  {
    var previous := RowsOf(doc.suggestions, p.analysis);
    assert GroupOk(previous);
    FixedIds(previous, p.decisions);
  }
}
