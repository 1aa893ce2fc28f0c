/** A document with its analyses, suggestions, versions and locks: the edits a member can
    make and what an AI operation saves. */
module Documents {
  import opened Basics
  import opened Domain
  import opened Validation

  type Id = nat

  datatype VersionKind = FirstDraftVersion | AiRevision | ManualVersion

  datatype Version = Version(id: Id, parent: Option<Id>, kind: VersionKind, content: string)

  datatype Lock = Lock(id: Id, source: Id, text: string, start: nat, end: nat, order: int)

  datatype AnalysisRow = AnalysisRow(id: Id, sequence: nat, payload: string, selected: bool)

  datatype Decision = Pending | Accepted | Rejected

  /** What the provider writes about one suggestion; `title` is the stripped title. */
  datatype Idea = Idea(key: string, title: string, detail: string)

  datatype SuggestionRow = SuggestionRow(id: Id, analysis: Id, idea: Idea, decision: Decision, note: Option<string>)

  datatype Doc = Doc(
    owner: Id, source: string, settings: string, state: TaskState, archivedFrom: Option<TaskState>,
    analyses: seq<AnalysisRow>, suggestions: seq<SuggestionRow>, versions: seq<Version>, locks: seq<Lock>,
    final: Option<Id>)

  datatype Error =
    | NotFound | KeyReused | InProgress | InvalidState | NotConfigured | SnapshotStale | Conflict
    | NotEditable | TaskArchived | FirstDraftRequired | LockedTextChanged | InvalidSelection | LockOverlap
    | NotRestorable | NotQueued | NotRetryable | InvalidOperation

  // ---------------------------------------------------------------- lookups

  /** The position of a version, or -1. */
  function VersionAt(versions: seq<Version>, id: Id): (i: int)
    ensures -1 <= i < |versions|
    ensures i >= 0 ==> versions[i].id == id
    ensures i < 0 ==> forall k | 0 <= k < |versions| :: versions[k].id != id
  {
    if versions == [] then -1
    else if versions[|versions| - 1].id == id then |versions| - 1
    else VersionAt(versions[..|versions| - 1], id)
  }

  predicate HasFirstDraft(versions: seq<Version>) {
    exists i :: 0 <= i < |versions| && versions[i].kind == FirstDraftVersion
  }

  function LockTexts(locks: seq<Lock>): (texts: seq<string>)
    ensures |texts| == |locks|
    ensures forall i | 0 <= i < |locks| :: texts[i] == locks[i].text
  {
    seq(|locks|, i requires 0 <= i < |locks| => locks[i].text)
  }

  /** `coalesce(max(order_index), -1) + 1` */
  function NextOrder(locks: seq<Lock>): (n: int)
    ensures forall i | 0 <= i < |locks| :: locks[i].order < n
    ensures if locks == [] then n == 0 else exists i :: 0 <= i < |locks| && locks[i].order + 1 == n
  {
    if locks == [] then 0
    else
      var front, last := locks[..|locks| - 1], locks[|locks| - 1].order;
      if front == [] || last >= NextOrder(front) then last + 1
      else
        var n := NextOrder(front);
        var i :| 0 <= i < |front| && front[i].order + 1 == n;
        assert locks[i].order + 1 == n;
        n
  }

  function NextSequence(rows: seq<AnalysisRow>): (n: nat)
    ensures forall i | 0 <= i < |rows| :: rows[i].sequence < n
    ensures n >= 1 && (n > 1 ==> exists i :: 0 <= i < |rows| && rows[i].sequence + 1 == n)
  {
    if rows == [] then 1
    else
      var n := NextSequence(rows[..|rows| - 1]);
      var last := rows[|rows| - 1].sequence;
      if last >= n then last + 1 else n
  }

  /** The rows of one analysis, in table order. */
  function RowsOf(rows: seq<SuggestionRow>, analysis: Id): (r: seq<SuggestionRow>) {
    if rows == [] then []
    else
      var front, last := rows[..|rows| - 1], rows[|rows| - 1];
      if last.analysis == analysis then RowsOf(front, analysis) + [last] else RowsOf(front, analysis)
  }

  function IdeasOf(rows: seq<SuggestionRow>): (ideas: seq<Idea>)
    ensures |ideas| == |rows|
    ensures forall i | 0 <= i < |rows| :: ideas[i] == rows[i].idea
  {
    seq(|rows|, i requires 0 <= i < |rows| => rows[i].idea)
  }

  function IdsOf(rows: seq<SuggestionRow>): (ids: set<Id>) {
    set i | 0 <= i < |rows| :: rows[i].id
  }

  /** `SuggestionSet`: five to eight suggestions with distinct keys. */
  predicate ValidSet(ideas: seq<Idea>) {
    5 <= |ideas| <= 8 && forall i, j | 0 <= i < j < |ideas| :: ideas[i].key != ideas[j].key
  }

  // ---------------------------------------------------------------- member edits

  datatype Edit =
    | UpdateDraft(source: string, settings: string)
    | UpdateAnalysis(analysis: Id, payload: string)
    | UpdateSuggestion(suggestion: Id, decision: Decision, note: Option<string>)
    | ManualEdit(id: Id, parent: Id, content: string)
    | CreateLock(id: Id, version: Id, start: nat, end: nat)
    | DeleteLock(lock: Id)
    | Finalize(version: Id)
    | Archive
    | Restore

  predicate RangesOverlap(lock: Lock, version: Id, start: nat, end: nat) {
    lock.source == version && start < lock.end && end > lock.start
  }

  function WithoutLock(locks: seq<Lock>, id: Id): (r: seq<Lock>)
    ensures forall x :: x in r <==> x in locks && x.id != id
  {
    if locks == [] then []
    else
      var front, last := locks[..|locks| - 1], locks[|locks| - 1];
      if last.id == id then WithoutLock(front, id) else WithoutLock(front, id) + [last]
  }

  function Reworded(rows: seq<AnalysisRow>, id: Id, payload: string): (r: seq<AnalysisRow>)
    ensures |r| == |rows|
  {
    seq(|rows|, i requires 0 <= i < |rows| => if rows[i].id == id then rows[i].(payload := payload) else rows[i])
  }

  function Decided(rows: seq<SuggestionRow>, id: Id, decision: Decision, note: Option<string>): (r: seq<SuggestionRow>)
    ensures |r| == |rows|
    ensures forall i | 0 <= i < |rows| :: r[i].id == rows[i].id && r[i].analysis == rows[i].analysis && r[i].idea == rows[i].idea
  {
    seq(|rows|, i requires 0 <= i < |rows| =>
      if rows[i].id == id then rows[i].(decision := decision, note := note) else rows[i])
  }

  /** `create_lock` on the lock rows. */
  function AddLock(doc: Doc, id: Id, version: Id, start: nat, end: nat): (r: Result<Doc, Error>) {
    var v := VersionAt(doc.versions, version);
    if v < 0 then Err(NotFound)
    else if doc.state == Archived then Err(TaskArchived)
    else if end <= start || end > |doc.versions[v].content| then Err(InvalidSelection)
    else if exists i :: 0 <= i < |doc.locks| && RangesOverlap(doc.locks[i], version, start, end) then Err(LockOverlap)
    else if exists i :: 0 <= i < |doc.locks| && doc.locks[i].id == id then Err(Conflict)
    else
      var lock := Lock(id, version, doc.versions[v].content[start..end], start, end, NextOrder(doc.locks));
      Ok(doc.(locks := doc.locks + [lock]))
  }

  /** `create_manual_edit` */
  ghost function AddManualVersion(doc: Doc, id: Id, parent: Id, content: string): (r: Result<Doc, Error>) {
    if VersionAt(doc.versions, parent) < 0 then Err(NotFound)
    else if doc.state == Archived then Err(TaskArchived)
    else if !HasFirstDraft(doc.versions) then Err(FirstDraftRequired)
    else if !AllHeld(content, LockTexts(doc.locks)) then Err(LockedTextChanged)
    else if VersionAt(doc.versions, id) >= 0 then Err(Conflict)
    else Ok(doc.(versions := doc.versions + [Version(id, Some(parent), ManualVersion, content)], state := Editing))
  }

  /** The guarded endpoints, after "no active operation" has been checked. */
  ghost function ApplyEdit(doc: Doc, edit: Edit): (r: Result<Doc, Error>) {
    match edit
    case UpdateDraft(source, settings) =>
      if doc.state != Draft then Err(NotEditable) else Ok(doc.(source := source, settings := settings))
    case UpdateAnalysis(analysis, payload) =>
      if exists i :: 0 <= i < |doc.analyses| && doc.analyses[i].id == analysis
      then Ok(doc.(analyses := Reworded(doc.analyses, analysis, payload))) else Err(NotFound)
    case UpdateSuggestion(suggestion, decision, note) =>
      if suggestion in IdsOf(doc.suggestions)
      then Ok(doc.(suggestions := Decided(doc.suggestions, suggestion, decision, note))) else Err(NotFound)
    case ManualEdit(id, parent, content) => AddManualVersion(doc, id, parent, content)
    case CreateLock(id, version, start, end) => AddLock(doc, id, version, start, end)
    case DeleteLock(lock) =>
      if exists i :: 0 <= i < |doc.locks| && doc.locks[i].id == lock
      then Ok(doc.(locks := WithoutLock(doc.locks, lock))) else Err(NotFound)
    case Finalize(version) =>
      if VersionAt(doc.versions, version) < 0 then Err(NotFound)
      else if doc.state == Archived then Err(TaskArchived)
      else Ok(doc.(final := Some(version), state := Finalized))
    case Archive =>
      if doc.state == Archived then Ok(doc) else Ok(doc.(archivedFrom := Some(doc.state), state := Archived))
    case Restore =>
      if doc.state != Archived || doc.archivedFrom.None? then Err(NotRestorable)
      else Ok(doc.(state := doc.archivedFrom.value, archivedFrom := None))
  }

  // ---------------------------------------------------------------- operation inputs

  datatype Choice = Choice(selected: bool, note: Option<string>)

  datatype Scope =
    | WholeText
    | Selection(start: nat, end: nat)
    | FromSuggestions(basis: Id, choices: map<Id, Choice>)

  /** The stored request body; the kind of the operation follows from it. */
  datatype Payload =
    | AnalysisPayload
    | SuggestionsPayload(analysis: Id, decisions: map<Id, Choice>)
    | FirstDraftPayload(analysis: Id, decisions: map<Id, Choice>)
    | RevisionPayload(parent: Id, scope: Scope)

  function KindOf(p: Payload): (k: OperationKind) {
    match p
    case AnalysisPayload => Analysis
    case SuggestionsPayload(_, _) => Suggestions
    case FirstDraftPayload(_, _) => FirstDraft
    case RevisionPayload(_, _) => Revision
  }

  /** The suggestion decisions a payload carries, with the analysis they belong to. */
  function DecisionsOf(p: Payload): (d: Option<(Id, map<Id, Choice>)>) {
    match p
    case AnalysisPayload => None
    case SuggestionsPayload(a, d) => Some((a, d))
    case FirstDraftPayload(a, d) => Some((a, d))
    case RevisionPayload(_, FromSuggestions(a, d)) => Some((a, d))
    case RevisionPayload(_, _) => None
  }

  predicate SelectedAnalysis(doc: Doc, id: Id) {
    exists i :: 0 <= i < |doc.analyses| && doc.analyses[i].id == id && doc.analyses[i].selected
  }

  predicate HasAnalysis(doc: Doc, id: Id) {
    exists i :: 0 <= i < |doc.analyses| && doc.analyses[i].id == id
  }

  function Snapshot(rows: seq<SuggestionRow>, analysis: Id, decisions: map<Id, Choice>): (r: seq<SuggestionRow>)
    ensures |r| == |rows|
    ensures forall i | 0 <= i < |rows| :: r[i].id == rows[i].id && r[i].analysis == rows[i].analysis && r[i].idea == rows[i].idea
  {
    seq(|rows|, i requires 0 <= i < |rows| =>
      if rows[i].analysis == analysis && rows[i].id in decisions
      then rows[i].(decision := if decisions[rows[i].id].selected then Accepted else Rejected,
                    note := decisions[rows[i].id].note)
      else rows[i])
  }

  /** `_apply_suggestion_snapshot` */
  function ApplySnapshot(doc: Doc, p: Payload): (r: Result<Doc, Error>) {
    match DecisionsOf(p)
    case None => Ok(doc)
    case Some((analysis, decisions)) =>
      if !SelectedAnalysis(doc, analysis) || decisions.Keys != IdsOf(RowsOf(doc.suggestions, analysis)) then Err(SnapshotStale)
      else Ok(doc.(suggestions := Snapshot(doc.suggestions, analysis, decisions)))
  }

  /** Every lookup `decision_map[item.id]` of the preparation succeeds. */
  predicate LookupsSucceed(doc: Doc, p: Payload) {
    match DecisionsOf(p)
    case None => true
    case Some((analysis, decisions)) => IdsOf(RowsOf(doc.suggestions, analysis)) <= decisions.Keys
  }

  /** The rows the member keeps. */
  function Fixed(rows: seq<SuggestionRow>, decisions: map<Id, Choice>): (r: seq<SuggestionRow>) {
    if rows == [] then []
    else
      var front, last := rows[..|rows| - 1], rows[|rows| - 1];
      if last.id in decisions && decisions[last.id].selected then Fixed(front, decisions) + [last] else Fixed(front, decisions)
  }

  /** The reads before the lease succeed: no missing row, no failed lookup, no invalid set. */
  predicate PreparationOk(doc: Doc, p: Payload) {
    && LookupsSucceed(doc, p)
    && match p
       case AnalysisPayload => true
       case SuggestionsPayload(a, d) =>
         var previous := RowsOf(doc.suggestions, a);
         HasAnalysis(doc, a) && (previous == [] || |Fixed(previous, d)| < |previous|)
       case FirstDraftPayload(a, d) => HasAnalysis(doc, a) && ValidSet(IdeasOf(RowsOf(doc.suggestions, a)))
       case RevisionPayload(parent, scope) =>
         && VersionAt(doc.versions, parent) >= 0
         && (scope.FromSuggestions? ==>
               HasAnalysis(doc, scope.basis) && ValidSet(IdeasOf(RowsOf(doc.suggestions, scope.basis))))
  }

  // ---------------------------------------------------------------- provider replies

  /** What comes back from the provider call: an error (or a blank or unparsable reply), a
      text, or a list of suggestions. */
  datatype Reply = ProviderFailed | TextReply(text: string) | IdeasReply(ideas: seq<Idea>)

  datatype Outcome =
    | Refused
    | SaveAnalysis(payload: string)
    | SaveIdeas(ideas: seq<Idea>)
    | SaveVersion(parent: Option<Id>, kind: VersionKind, content: string)

  /** The AI service on the inputs read before the call. */
  ghost function Invoke(inputs: Doc, p: Payload, reply: Reply): (o: Outcome) {
    match p
    case AnalysisPayload => if reply.TextReply? then SaveAnalysis(reply.text) else Refused
    case SuggestionsPayload(_, _) => if reply.IdeasReply? && ValidSet(reply.ideas) then SaveIdeas(reply.ideas) else Refused
    case FirstDraftPayload(_, _) =>
      if !HasFirstDraft(inputs.versions) && reply.TextReply? then SaveVersion(None, FirstDraftVersion, reply.text) else Refused
    case RevisionPayload(parent, scope) =>
      var v := VersionAt(inputs.versions, parent);
      if v < 0 || !HasFirstDraft(inputs.versions) || !reply.TextReply? || !AllHeld(reply.text, LockTexts(inputs.locks)) then Refused
      else if scope.Selection? && !(scope.end <= |inputs.versions[v].content|
                && KeepsOutside(inputs.versions[v].content, reply.text, scope.start, scope.end)) then Refused
      else SaveVersion(Some(parent), AiRevision, reply.text)
  }

  /** `list[:n]`, which counts from the end when `n` is negative. */
  function Upto<T>(list: seq<T>, n: int): (r: seq<T>) {
    if n >= |list| then list else if n >= 0 then list[..n] else if |list| + n >= 0 then list[..|list| + n] else []
  }

  predicate Clashes(idea: Idea, fixed: seq<SuggestionRow>) {
    exists i :: 0 <= i < |fixed| && (fixed[i].idea.key == idea.key || fixed[i].idea.title == idea.title)
  }

  function Replacements(ideas: seq<Idea>, fixed: seq<SuggestionRow>): (r: seq<Idea>) {
    if ideas == [] then []
    else
      var front, last := ideas[..|ideas| - 1], ideas[|ideas| - 1];
      if Clashes(last, fixed) then Replacements(front, fixed) else Replacements(front, fixed) + [last]
  }

  /** `(max(5, min(8, len(previous))) if previous else 8) - len(fixed)` */
  function MergeCapacity(previous: nat, fixed: nat): (n: int) {
    (if previous == 0 then 8 else if previous < 5 then 5 else if previous > 8 then 8 else previous) - fixed
  }

  function NewRows(analysis: Id, ideas: seq<Idea>, ids: seq<Id>): (rows: seq<SuggestionRow>)
    requires |ids| >= |ideas|
    ensures |rows| == |ideas|
    ensures forall i | 0 <= i < |ideas| :: rows[i] == SuggestionRow(ids[i], analysis, ideas[i], Pending, None)
  {
    seq(|ideas|, i requires 0 <= i < |ideas| => SuggestionRow(ids[i], analysis, ideas[i], Pending, None))
  }

  /** The rows that `delete_unselected` leaves. */
  function Kept(rows: seq<SuggestionRow>, analysis: Id, fixed: set<Id>): (r: seq<SuggestionRow>) {
    if rows == [] then []
    else
      var front, last := rows[..|rows| - 1], rows[|rows| - 1];
      if last.analysis != analysis || last.id in fixed then Kept(front, analysis, fixed) + [last] else Kept(front, analysis, fixed)
  }

  /** Identifiers for new rows: pairwise distinct and unused. */
  predicate FreshIds(ids: seq<Id>, rows: seq<SuggestionRow>) {
    && (forall i, j | 0 <= i < j < |ids| :: ids[i] != ids[j])
    && (forall i, k | 0 <= i < |ids| && 0 <= k < |rows| :: ids[i] != rows[k].id)
  }

  /** The suggestions of the merged set: the fixed ones, then the replacements that fit. */
  function Merged(inputs: Doc, analysis: Id, decisions: map<Id, Choice>, ideas: seq<Idea>): (r: (seq<SuggestionRow>, seq<Idea>)) {
    var previous := RowsOf(inputs.suggestions, analysis);
    var fixed := Fixed(previous, decisions);
    (fixed, Upto(Replacements(ideas, fixed), MergeCapacity(|previous|, |fixed|)))
  }

  /** `persist` of `suggest`: validate the merged set, then replace the unselected rows. */
  function MergeSuggestions(doc: Doc, inputs: Doc, analysis: Id, decisions: map<Id, Choice>, ideas: seq<Idea>, ids: seq<Id>)
    : (r: Result<Doc, Error>)
  {
    var (fixed, replacements) := Merged(inputs, analysis, decisions, ideas);
    if !ValidSet(IdeasOf(fixed) + replacements) then Err(InvalidOperation)
    else if |ids| < |replacements| || !FreshIds(ids, doc.suggestions) then Err(Conflict)
    else Ok(doc.(suggestions := Kept(doc.suggestions, analysis, IdsOf(fixed)) + NewRows(analysis, replacements, ids)))
  }

  function Unselected(rows: seq<AnalysisRow>): (r: seq<AnalysisRow>)
    ensures |r| == |rows|
  {
    seq(|rows|, i requires 0 <= i < |rows| => rows[i].(selected := false))
  }

  /** The `persist` closures: what a successful operation writes, apart from the state. */
  function Persist(doc: Doc, inputs: Doc, p: Payload, o: Outcome, ids: seq<Id>): (r: Result<Doc, Error>) {
    match o
    case Refused => Err(InvalidOperation)
    case SaveAnalysis(payload) =>
      if |ids| == 0 then Err(Conflict)
      else Ok(doc.(analyses := Unselected(doc.analyses) + [AnalysisRow(ids[0], NextSequence(doc.analyses), payload, true)]))
    case SaveIdeas(ideas) =>
      if p.SuggestionsPayload? then MergeSuggestions(doc, inputs, p.analysis, p.decisions, ideas, ids) else Err(InvalidOperation)
    case SaveVersion(parent, kind, content) =>
      if |ids| == 0 || VersionAt(doc.versions, ids[0]) >= 0 then Err(Conflict)
      else Ok(doc.(versions := doc.versions + [Version(ids[0], parent, kind, content)]))
  }

  /** Everything of a document except its state. */
  function Content(doc: Doc): (c: Doc) {
    doc.(state := Draft, archivedFrom := None)
  }
}
