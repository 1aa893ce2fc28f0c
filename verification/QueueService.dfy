/** The request handlers and the worker as code that updates rows in place. Every method is
    tied to one step of the transition system, so each result about runs holds of it. */
module QueueService {
  import opened Basics
  import opened Domain
  import opened Validation
  import opened Documents
  import opened AiLimits
  import opened Queue
  import opened QueueInvariant
  import opened QueueMeans
  import QueueAgreement

  // ---------------------------------------------------------------- values

  /** `_apply_suggestion_snapshot` on the rows of a document. */
  method SuggestionSnapshot(doc: Doc, payload: Payload) returns (r: Result<Doc, Error>)
    ensures r == ApplySnapshot(doc, payload)
    ensures r.Ok? <==>
      match DecisionsOf(payload)
      case None => true
      case Some((analysis, decisions)) => SelectedAnalysis(doc, analysis) && decisions.Keys == IdsOf(RowsOf(doc.suggestions, analysis))
    ensures r.Ok? ==> r.value == doc.(suggestions := r.value.suggestions) && |r.value.suggestions| == |doc.suggestions|
    ensures r.Ok? && DecisionsOf(payload).Some? ==>
      var (analysis, decisions) := DecisionsOf(payload).value;
      forall i | 0 <= i < |doc.suggestions| ::
        var before, after := doc.suggestions[i], r.value.suggestions[i];
        if before.analysis == analysis && before.id in decisions
        then after == before.(decision := after.decision, note := decisions[before.id].note)
             && after.decision == if decisions[before.id].selected then Accepted else Rejected
        else after == before
  {
    var submitted := DecisionsOf(payload);
    if submitted.None? { return Ok(doc); }
    var (analysis, decisions) := submitted.value;
    if !SelectedAnalysis(doc, analysis) { return Err(SnapshotStale); }
    if decisions.Keys != IdsOf(RowsOf(doc.suggestions, analysis)) { return Err(SnapshotStale); }
    var rows := RecordDecisions(doc.suggestions, analysis, decisions);
    r := Ok(doc.(suggestions := rows));
  }

  /** The loop over the records of the analysis. */
  method RecordDecisions(records: seq<SuggestionRow>, analysis: Id, decisions: map<Id, Choice>) returns (rows: seq<SuggestionRow>)
    ensures rows == Snapshot(records, analysis, decisions)
  {
    rows := records;
    for i := 0 to |rows|
      invariant |rows| == |records|
      invariant forall k | 0 <= k < i :: rows[k] == Snapshot(records, analysis, decisions)[k]
      invariant forall k | i <= k < |rows| :: rows[k] == records[k]
    {
      var row := rows[i];
      if row.analysis == analysis && row.id in decisions {
        rows := rows[i := row.(decision := if decisions[row.id].selected then Accepted else Rejected, note := decisions[row.id].note)];
      }
    }
  }

  function Constraints(locks: seq<Lock>): (r: seq<Constraint<char>>)
    ensures |r| == |locks| && ConstraintTexts(r) == LockTexts(locks)
  {
    var r := seq(|locks|, i requires 0 <= i < |locks| => Constraint(locks[i].text, locks[i].order));
    assert forall i | 0 <= i < |locks| :: ConstraintTexts(r)[i] == LockTexts(locks)[i];
    r
  }

  /** `create_manual_edit` on the rows of a document. */
  method EditedVersion(doc: Doc, id: Id, parent: Id, content: string) returns (r: Result<Doc, Error>)
    ensures r == AddManualVersion(doc, id, parent, content)
    ensures r.Ok? <==>
      VersionAt(doc.versions, parent) >= 0 && doc.state != Archived && HasFirstDraft(doc.versions)
      && AllHeld(content, LockTexts(doc.locks)) && VersionAt(doc.versions, id) < 0
    ensures r.Ok? ==> r.value.state == Editing && r.value.versions == doc.versions + [Version(id, Some(parent), ManualVersion, content)]
    ensures r.Ok? ==> r.value == doc.(versions := r.value.versions, state := r.value.state)
  {
    if VersionAt(doc.versions, parent) < 0 { return Err(NotFound); }
    if doc.state == Archived { return Err(TaskArchived); }
    if !HasFirstDraft(doc.versions) { return Err(FirstDraftRequired); }
    var failures := ValidateLockConstraints(content, Constraints(doc.locks));
    if failures != [] { return Err(LockedTextChanged); }
    if VersionAt(doc.versions, id) >= 0 { return Err(Conflict); }
    r := Ok(doc.(versions := doc.versions + [Version(id, Some(parent), ManualVersion, content)], state := Editing));
  }

  function Fragments(locks: seq<Lock>): (r: seq<Fragment<char>>)
    ensures |r| == |locks| && Texts(r) == LockTexts(locks)
  {
    var r := seq(|locks|, i requires 0 <= i < |locks| => Fragment("", locks[i].text));
    assert forall i | 0 <= i < |locks| :: Texts(r)[i] == LockTexts(locks)[i];
    r
  }

  /** A revision reply judged by the AI validators. */
  method JudgeRevision(inputs: Doc, parent: Id, scope: Scope, reply: Reply) returns (o: Outcome)
    ensures o == Invoke(inputs, RevisionPayload(parent, scope), reply)
    ensures
      var v := VersionAt(inputs.versions, parent);
      if v >= 0 && HasFirstDraft(inputs.versions) && reply.TextReply? && AllHeld(reply.text, LockTexts(inputs.locks))
         && (scope.Selection? ==> scope.end <= |inputs.versions[v].content|
                                  && KeepsOutside(inputs.versions[v].content, reply.text, scope.start, scope.end))
      then o == SaveVersion(Some(parent), AiRevision, reply.text) else o == Refused
  {
    var v := VersionAt(inputs.versions, parent);
    if v < 0 || !HasFirstDraft(inputs.versions) || !reply.TextReply? { return Refused; }
    if scope.Selection? {
      if scope.end > |inputs.versions[v].content| { return Refused; }
      var violations := ValidateSelectionRevision(inputs.versions[v].content, reply.text, scope.start, scope.end, Fragments(inputs.locks));
      if violations != [] { return Refused; }
    } else {
      var missing := ValidateLockedFragments(reply.text, Fragments(inputs.locks));
      if missing != [] { return Refused; }
    }
    o := SaveVersion(Some(parent), AiRevision, reply.text);
  }

  /** The AI service on the inputs read before the call. */
  method InvokeService(inputs: Doc, payload: Payload, reply: Reply) returns (o: Outcome)
    ensures o == Invoke(inputs, payload, reply)
    ensures payload.AnalysisPayload? ==> (o.SaveAnalysis? <==> reply.TextReply?)
    ensures payload.SuggestionsPayload? ==> (o.SaveIdeas? <==> reply.IdeasReply? && ValidSet(reply.ideas))
    ensures payload.FirstDraftPayload? ==> (o.SaveVersion? <==> reply.TextReply? && !HasFirstDraft(inputs.versions))
    ensures payload.RevisionPayload? && o.SaveVersion? ==> HasFirstDraft(inputs.versions) && AllHeld(reply.text, LockTexts(inputs.locks))
    ensures o.SaveAnalysis? ==> reply == TextReply(o.payload)
    ensures o.SaveIdeas? ==> reply == IdeasReply(o.ideas)
    ensures o.SaveVersion? ==> reply == TextReply(o.content) && (o.parent.None? <==> payload.FirstDraftPayload?)
  {
    match payload
    case AnalysisPayload => o := if reply.TextReply? then SaveAnalysis(reply.text) else Refused;
    case SuggestionsPayload(_, _) => o := if reply.IdeasReply? && ValidSet(reply.ideas) then SaveIdeas(reply.ideas) else Refused;
    case FirstDraftPayload(_, _) =>
      o := if !HasFirstDraft(inputs.versions) && reply.TextReply? then SaveVersion(None, FirstDraftVersion, reply.text) else Refused;
    case RevisionPayload(parent, scope) => o := JudgeRevision(inputs, parent, scope, reply);
  }

  // ---------------------------------------------------------------- queries

  /** `ORDER BY created_at, id`, strictly. */
  predicate Ordered(ops: map<Id, Op>, rows: seq<Id>) {
    && (forall k | 0 <= k < |rows| :: rows[k] in ops)
    && (forall k, l | 0 <= k < l < |rows| :: Before(rows[k], ops[rows[k]], rows[l], ops[rows[l]]))
  }

  function Placed(ops: map<Id, Op>, rows: seq<Id>, id: Id): (r: seq<Id>)
    requires id in ops && Ordered(ops, rows) && id !in rows
    ensures Ordered(ops, r) && forall x :: x in r <==> x in rows || x == id
  {
    if rows == [] then [id]
    else if Before(id, ops[id], rows[0], ops[rows[0]]) then [id] + rows
    else
      var rest := Placed(ops, rows[1..], id);
      assert forall x | x in rest :: x in ops && Before(rows[0], ops[rows[0]], x, ops[x]);
      [rows[0]] + rest
  }

  /** The active rows in submission order. */
  method ActiveRows(ops: map<Id, Op>) returns (rows: seq<Id>)
    ensures Ordered(ops, rows) && forall i :: i in rows <==> i in ops && (ops[i].status == Queued || ops[i].status == Running)
    ensures forall k, l | 0 <= k < l < |rows| ::
      ops[rows[k]].created < ops[rows[l]].created || (ops[rows[k]].created == ops[rows[l]].created && rows[k] < rows[l])
  {
    rows := [];
    var left := ops.Keys;
    while left != {}
      invariant left <= ops.Keys && Ordered(ops, rows)
      invariant forall i :: i in rows <==> i in ops && i !in left && ActiveOp(ops[i])
      decreases left
    {
      var i :| i in left;
      left := left - {i};
      if ActiveOp(ops[i]) { rows := Placed(ops, rows, i); }
    }
  }

  /** The running rows of a member that started before the cut-off. */
  method StaleRows(ops: map<Id, Op>, owner: Id, now: int) returns (rows: seq<Id>)
    ensures Distinct(rows)
    ensures forall i :: i in rows <==> i in ops && ops[i].owner == owner && ops[i].status == Running && ops[i].started < now - STALE_SECONDS
  {
    rows := [];
    var left := ops.Keys;
    while left != {}
      invariant left <= ops.Keys && Distinct(rows)
      invariant forall i :: i in rows <==>
        i in ops && i !in left && ops[i].owner == owner && ops[i].status == Running && ops[i].started < now - STALE_SECONDS
      decreases left
    {
      var i :| i in left;
      left := left - {i};
      if ops[i].owner == owner && ops[i].status == Running && ops[i].started < now - STALE_SECONDS { rows := rows + [i]; }
    }
  }

  lemma SoleExisting(s: State, task: Id, owner: Id, kind: OperationKind, key: string, i: Id)
    requires Base(s) && i in s.ops && SameScope(s.ops[i], task, owner, kind, key)
    ensures Existing(s, task, owner, kind, Some(key)) == Some(i)
  {
    var e := Existing(s, task, owner, kind, Some(key));
    assert e.Some?;
    assert SameScope(s.ops[e.value], s.ops[i].task, s.ops[i].owner, KindOf(s.ops[i].payload), s.ops[i].key.value);
  }

  /** Archiving and restoring gives back the document as it was. */
  lemma RestoreUndoesArchive(doc: Doc)
    requires doc.state != Archived && doc.archivedFrom == None
    ensures ApplyEdit(doc, Archive).Ok? && ApplyEdit(ApplyEdit(doc, Archive).value, Restore) == Ok(doc)
  {
  }

  // ---------------------------------------------------------------- rows updated in place

  class Server {
    var docs: map<Id, Doc>
    var ops: map<Id, Op>
    var jobs: map<(Id, Id), Job>
    var issued: set<Id>
    var now: int

    function Contents(): (s: State)
      reads this
    {
      State(docs, ops, jobs, issued, now)
    }

    method Submit(id: Id, task: Id, owner: Id, payload: Payload, key: Option<string>, at: int, configured: bool)
      returns (r: Result<Id, Error>)
      requires Base(Contents())
      modifies this
      ensures (Contents(), r) == SubmitTo(old(Contents()), id, task, owner, payload, key, at, configured)
      ensures Submitted(old(Contents()), Contents(), r, id, task, owner, payload, key, at, configured)
    {
      SubmitMeans(Contents(), id, task, owner, payload, key, at, configured);
      if task !in docs || docs[task].owner != owner { return Err(NotFound); }
      var kind := KindOf(payload);
      if key.Some? && exists i :: i in ops && SameScope(ops[i], task, owner, kind, key.value) {
        var i :| i in ops && SameScope(ops[i], task, owner, kind, key.value);
        SoleExisting(Contents(), task, owner, kind, key.value, i);
        return if ops[i].payload == payload then Ok(i) else Err(KeyReused);
      }
      assert Existing(Contents(), task, owner, kind, key) == None;
      r := AdmitOperation(id, task, owner, payload, key, at, configured);
    }

    /** The rest of `submit`, when no operation has the key. */
    method AdmitOperation(id: Id, task: Id, owner: Id, payload: Payload, key: Option<string>, at: int, configured: bool)
      returns (r: Result<Id, Error>)
      requires task in docs
      modifies this
      ensures
        var refusal := Refusal(old(Contents()), id, task, payload, configured);
        if refusal.Some? then Contents() == old(Contents()) && r == Err(refusal.value)
        else Contents() == Enqueue(old(Contents()), id, task, owner, payload, key, at) && r == Ok(id)
    {
      var kind := KindOf(payload);
      if HasActive(ops, task) { return Err(InProgress); }
      var doc := docs[task];
      if !Allowed(doc.state, RunningState(kind)) { return Err(InvalidState); }
      if !configured { return Err(NotConfigured); }
      var snapshot := SuggestionSnapshot(doc, payload);
      if snapshot.Err? { return Err(snapshot.error); }
      if id in issued { return Err(Conflict); }
      ops := ops[id := Op(owner, task, payload, Queued, key, at, doc.state, 0)];
      issued := issued + {id};
      docs := docs[task := snapshot.value.(state := RunningState(kind))];
      r := Ok(id);
    }

    method RetryOperation(id: Id, op: Id, owner: Id, key: Option<string>, at: int, configured: bool) returns (r: Result<Id, Error>)
      requires Base(Contents())
      modifies this
      ensures (Contents(), r) == RetryTo(old(Contents()), id, op, owner, key, at, configured)
      ensures op in old(ops) && old(ops)[op].owner == owner && (old(ops)[op].status == Failed || old(ops)[op].status == Cancelled) ==>
        var row := old(ops)[op]; Submitted(old(Contents()), Contents(), r, id, row.task, owner, row.payload, key, at, configured)
      ensures !(op in old(ops) && old(ops)[op].owner == owner && (old(ops)[op].status == Failed || old(ops)[op].status == Cancelled)) ==>
        r.Err? && Contents() == old(Contents())
    {
      if op !in ops || ops[op].owner != owner { return Err(NotFound); }
      if ops[op].status != Failed && ops[op].status != Cancelled { return Err(NotRetryable); }
      r := Submit(id, ops[op].task, owner, ops[op].payload, key, at, configured);
    }

    method Cancel(owner: Id, op: Id) returns (r: Result<Id, Error>)
      modifies this
      ensures (Contents(), r) == CancelTo(old(Contents()), owner, op)
      ensures r.Ok? <==> op in old(ops) && old(ops)[op].owner == owner && old(ops)[op].task in old(docs) && old(ops)[op].status == Queued
      ensures r.Ok? ==> OnlyOp(old(ops), ops, op)
      ensures r.Ok? ==> OnlyDoc(old(docs), docs, ops[op].task) && PutBack(old(docs)[ops[op].task], docs[ops[op].task], ops[op])
      ensures r.Ok? ==> jobs == old(jobs) && ops[op] == old(ops)[op].(status := Cancelled)
      ensures r.Err? ==> Contents() == old(Contents())
    {
      if op !in ops || ops[op].owner != owner || ops[op].task !in docs { return Err(NotFound); }
      if ops[op].status != Queued { return Err(NotQueued); }
      var row := ops[op];
      ops := ops[op := row.(status := Cancelled)];
      var doc := docs[row.task];
      if doc.state == Shown(row) { doc := doc.(state := row.initial); }
      docs := docs[row.task := doc];
      r := Ok(op);
    }

    method ClearHistory(owner: Id)
      modifies this
      ensures Contents() == ClearTo(old(Contents()), owner)
      ensures forall i :: i in ops <==> i in old(ops) && (old(ops)[i].owner != owner || ActiveOp(old(ops)[i]))
      ensures forall i | i in ops :: ops[i] == old(ops)[i]
    {
      ops := map i | i in ops && (ops[i].owner != owner || ActiveOp(ops[i])) :: ops[i];
    }

    // ------------------------------------------------------------ document endpoints

    /** `_owned_task` and `_assert_no_active_ai` */
    function Refused(task: Id, owner: Id): (e: Option<Error>)
      reads this
    {
      if task !in docs || docs[task].owner != owner then Some(NotFound)
      else if HasActive(ops, task) then Some(InProgress)
      else None
    }

    method UpdateDraftRow(task: Id, owner: Id, source: string, settings: string) returns (r: Result<Id, Error>)
      modifies this
      ensures (Contents(), r) == EditTo(old(Contents()), task, owner, UpdateDraft(source, settings))
      ensures Edited(old(Contents()), Contents(), r, task, owner, UpdateDraft(source, settings))
    {
      EditMeans(Contents(), task, owner, UpdateDraft(source, settings));
      var refused := Refused(task, owner);
      if refused.Some? { return Err(refused.value); }
      if docs[task].state != Draft { return Err(NotEditable); }
      docs := docs[task := docs[task].(source := source, settings := settings)];
      r := Ok(task);
    }

    method UpdateAnalysisRow(task: Id, owner: Id, analysis: Id, payload: string) returns (r: Result<Id, Error>)
      modifies this
      ensures (Contents(), r) == EditTo(old(Contents()), task, owner, UpdateAnalysis(analysis, payload))
      ensures Edited(old(Contents()), Contents(), r, task, owner, UpdateAnalysis(analysis, payload))
    {
      EditMeans(Contents(), task, owner, UpdateAnalysis(analysis, payload));
      var refused := Refused(task, owner);
      if refused.Some? { return Err(refused.value); }
      if !HasAnalysis(docs[task], analysis) { return Err(NotFound); }
      docs := docs[task := docs[task].(analyses := Reworded(docs[task].analyses, analysis, payload))];
      r := Ok(task);
    }

    method UpdateSuggestionRow(task: Id, owner: Id, suggestion: Id, decision: Decision, note: Option<string>) returns (r: Result<Id, Error>)
      modifies this
      ensures (Contents(), r) == EditTo(old(Contents()), task, owner, UpdateSuggestion(suggestion, decision, note))
      ensures Edited(old(Contents()), Contents(), r, task, owner, UpdateSuggestion(suggestion, decision, note))
    {
      EditMeans(Contents(), task, owner, UpdateSuggestion(suggestion, decision, note));
      var refused := Refused(task, owner);
      if refused.Some? { return Err(refused.value); }
      if suggestion !in IdsOf(docs[task].suggestions) { return Err(NotFound); }
      docs := docs[task := docs[task].(suggestions := Decided(docs[task].suggestions, suggestion, decision, note))];
      r := Ok(task);
    }

    method CreateManualEdit(task: Id, owner: Id, id: Id, parent: Id, content: string) returns (r: Result<Id, Error>)
      modifies this
      ensures (Contents(), r) == EditTo(old(Contents()), task, owner, ManualEdit(id, parent, content))
      ensures Edited(old(Contents()), Contents(), r, task, owner, ManualEdit(id, parent, content))
    {
      EditMeans(Contents(), task, owner, ManualEdit(id, parent, content));
      var refused := Refused(task, owner);
      if refused.Some? { return Err(refused.value); }
      var next := EditedVersion(docs[task], id, parent, content);
      if next.Err? { return Err(next.error); }
      docs := docs[task := next.value];
      r := Ok(task);
    }

    method CreateLockRow(task: Id, owner: Id, id: Id, version: Id, start: nat, end: nat) returns (r: Result<Id, Error>)
      modifies this
      ensures (Contents(), r) == EditTo(old(Contents()), task, owner, CreateLock(id, version, start, end))
      ensures Edited(old(Contents()), Contents(), r, task, owner, CreateLock(id, version, start, end))
      ensures r.Ok? <==>
        && task in old(docs) && old(docs)[task].owner == owner
        && (forall i | i in old(ops) && old(ops)[i].task == task :: old(ops)[i].status != Queued && old(ops)[i].status != Running)
        && var doc, v := old(docs)[task], VersionAt(old(docs)[task].versions, version);
           && doc.state != Archived && v >= 0 && start < end <= |doc.versions[v].content|
           && (forall i | 0 <= i < |doc.locks| :: doc.locks[i].id != id)
           && (forall i | 0 <= i < |doc.locks| && doc.locks[i].source == version :: doc.locks[i].end <= start || end <= doc.locks[i].start)
      ensures r.Ok? ==>
        var doc, v := old(docs)[task], VersionAt(old(docs)[task].versions, version);
        docs == old(docs)[task :=
          doc.(locks := doc.locks + [Lock(id, version, doc.versions[v].content[start..end], start, end, NextOrder(doc.locks))])]
    {
      EditMeans(Contents(), task, owner, CreateLock(id, version, start, end));
      var refused := Refused(task, owner);
      if refused.Some? { return Err(refused.value); }
      var next := AddLock(docs[task], id, version, start, end);
      if next.Err? { return Err(next.error); }
      docs := docs[task := next.value];
      r := Ok(task);
    }

    method DeleteLockRow(task: Id, owner: Id, lock: Id) returns (r: Result<Id, Error>)
      modifies this
      ensures (Contents(), r) == EditTo(old(Contents()), task, owner, DeleteLock(lock))
      ensures Edited(old(Contents()), Contents(), r, task, owner, DeleteLock(lock))
    {
      EditMeans(Contents(), task, owner, DeleteLock(lock));
      var refused := Refused(task, owner);
      if refused.Some? { return Err(refused.value); }
      var doc := docs[task];
      if !exists i :: 0 <= i < |doc.locks| && doc.locks[i].id == lock { return Err(NotFound); }
      docs := docs[task := doc.(locks := WithoutLock(doc.locks, lock))];
      r := Ok(task);
    }

    method FinalizeVersion(task: Id, owner: Id, version: Id) returns (r: Result<Id, Error>)
      modifies this
      ensures (Contents(), r) == EditTo(old(Contents()), task, owner, Finalize(version))
      ensures Edited(old(Contents()), Contents(), r, task, owner, Finalize(version))
    {
      EditMeans(Contents(), task, owner, Finalize(version));
      var refused := Refused(task, owner);
      if refused.Some? { return Err(refused.value); }
      var doc := docs[task];
      if VersionAt(doc.versions, version) < 0 { return Err(NotFound); }
      if doc.state == Archived { return Err(TaskArchived); }
      docs := docs[task := doc.(final := Some(version), state := Finalized)];
      r := Ok(task);
    }

    method ArchiveTask(task: Id, owner: Id) returns (r: Result<Id, Error>)
      modifies this
      ensures (Contents(), r) == EditTo(old(Contents()), task, owner, Archive)
      ensures Edited(old(Contents()), Contents(), r, task, owner, Archive)
    {
      EditMeans(Contents(), task, owner, Archive);
      var refused := Refused(task, owner);
      if refused.Some? { return Err(refused.value); }
      var doc := docs[task];
      if doc.state != Archived { doc := doc.(archivedFrom := Some(doc.state), state := Archived); }
      docs := docs[task := doc];
      r := Ok(task);
    }

    method RestoreTask(task: Id, owner: Id) returns (r: Result<Id, Error>)
      modifies this
      ensures (Contents(), r) == EditTo(old(Contents()), task, owner, Restore)
      ensures Edited(old(Contents()), Contents(), r, task, owner, Restore)
    {
      EditMeans(Contents(), task, owner, Restore);
      var refused := Refused(task, owner);
      if refused.Some? { return Err(refused.value); }
      var doc := docs[task];
      if doc.state != Archived || doc.archivedFrom.None? { return Err(NotRestorable); }
      docs := docs[task := doc.(state := doc.archivedFrom.value, archivedFrom := None)];
      r := Ok(task);
    }

    // ------------------------------------------------------------ the worker

    /** `recover_stale_operations` */
    method RecoverStaleOperations(worker: Id, owner: Id) returns (stale: seq<Id>)
      requires MayRecover(Contents(), worker, owner)
      modifies this
      ensures Contents() == Next(old(Contents()), Step.RecoverStale(worker, owner, stale))
      ensures Distinct(stale) && forall i :: i in stale <==>
        i in old(ops) && old(ops)[i].owner == owner && old(ops)[i].status == Running && old(ops)[i].started < now - 720
      ensures Recovered(old(Contents()), Contents(), stale)
    {
      stale := StaleRows(ops, owner, now);
      RecoverIsStep(Contents(), worker, owner, stale);
      RecoverMeans(Contents(), stale);
      RecoverRows(stale);
    }

    /** Its loop over the selected rows. */
    method RecoverRows(stale: seq<Id>)
      modifies this`ops, this`docs
      ensures Contents() == Recover(old(Contents()), stale)
    {
      for i := 0 to |stale|
        invariant Contents() == Recover(old(Contents()), stale[..i])
      {
        var id := stale[i];
        assert stale[..i + 1][..i] == stale[..i];
        if id in ops && ops[id].task in docs {
          var row := ops[id];
          var doc := docs[row.task];
          if doc.state == Shown(row) { doc := doc.(state := row.initial); }
          ops := ops[id := row.(status := Failed)];
          docs := docs[row.task := doc];
        }
      }
      assert stale[..|stale|] == stale;
    }

    /** The loop of `tick` over the active rows with its `seen` set. */
    method StartFirst(worker: Id, rows: seq<Id>, busy: set<Id>) returns (picks: map<Id, Id>)
      requires forall k | 0 <= k < |rows| :: rows[k] in ops
      modifies this`jobs
      ensures picks == FirstRows(ops, rows, busy)
      ensures jobs == WithFirst(old(jobs), worker, ops, rows, busy)
    {
      var seen := busy;
      picks := map[];
      for i := 0 to |rows|
        invariant picks == FirstRows(ops, rows[..i], busy) && seen == busy + picks.Keys
        invariant jobs == WithFirst(old(jobs), worker, ops, rows[..i], busy)
      {
        var id := rows[i];
        var owner := ops[id].owner;
        assert rows[..i + 1][..i] == rows[..i];
        if owner !in seen {
          seen := seen + {owner};
          jobs := jobs[(worker, owner) := Job(id, Started)];
          picks := picks[owner := id];
        }
      }
      assert rows[..|rows|] == rows;
    }

    /** The second half of `tick`: start the oldest active operation of every member that is
        neither running nor already served by this worker. */
    method Schedule(worker: Id) returns (picks: map<Id, Id>)
      modifies this`jobs
      ensures PicksOk(old(Contents()), worker, picks)
      ensures Contents() == Next(old(Contents()), Step.Tick(worker, picks))
      ensures forall k :: k in jobs <==> k in old(jobs) || (k.0 == worker && k.1 in picks)
      ensures forall k | k in jobs :: jobs[k] == if k.0 == worker && k.1 in picks then Job(picks[k.1], Started) else old(jobs)[k]
    {
      var rows := ActiveRows(ops);
      var busy := BusyMembers(jobs, ops, worker);
      picks := StartFirst(worker, rows, busy);
      FirstRowsPicked(ops, rows, busy);
      WithFirstPicks(old(jobs), worker, ops, rows, busy);
      PicksFound(old(Contents()), worker, rows, picks);
      TickIsStep(old(Contents()), worker, picks);
      WithJobsRows(old(jobs), worker, picks);
    }

    /** `tick`: recover the members this worker has no job for, then schedule. */
    method TickOnce(worker: Id) returns (ghost steps: seq<Step>)
      modifies this
      ensures Contents() == Run(old(Contents()), steps)
      ensures steps != [] && steps[|steps| - 1].Tick? && steps[|steps| - 1].worker == worker
      ensures forall i | 0 <= i < |steps| - 1 :: steps[i].RecoverStale? && steps[i].worker == worker
      ensures forall o: Id :: RecoversIn(steps, o) <==> HasRunning(old(ops), o) && (worker, o) !in old(jobs)
    {
      steps := [];
      var owners := set i | i in ops && ops[i].status == Running :: ops[i].owner;
      while owners != {}
        invariant Contents() == Run(old(Contents()), steps) && jobs == old(jobs)
        invariant forall i | 0 <= i < |steps| :: steps[i].RecoverStale? && steps[i].worker == worker
        invariant forall o: Id :: RecoversIn(steps, o) <==> HasRunning(old(ops), o) && o !in owners && (worker, o) !in old(jobs)
        invariant forall o | o in owners :: HasRunning(old(ops), o)
        decreases owners
      {
        var owner :| owner in owners;
        owners := owners - {owner};
        if (worker, owner) !in jobs {
          var stale := RecoverStaleOperations(worker, owner);
          QueueAgreement.RunSnoc(old(Contents()), steps, Step.RecoverStale(worker, owner, stale));
          RecoversNext(steps, Step.RecoverStale(worker, owner, stale));
          steps := steps + [Step.RecoverStale(worker, owner, stale)];
        }
      }
      var picks := Schedule(worker);
      QueueAgreement.RunSnoc(old(Contents()), steps, Step.Tick(worker, picks));
      RecoversNext(steps, Step.Tick(worker, picks));
      steps := steps + [Step.Tick(worker, picks)];
    }

    /** `execute` up to the lease: the rows it reads. */
    method PrepareRun(worker: Id, owner: Id, ready: bool)
      requires IsStarted(Contents(), worker, owner)
      modifies this`jobs
      ensures Contents() == PrepareTo(old(Contents()), worker, owner, ready)
      ensures OnlyJob(old(jobs), jobs, (worker, owner))
      ensures
        var id := old(jobs)[(worker, owner)].op;
        && ((worker, owner) !in jobs <==> id !in ops || ops[id].status != Queued)
        && ((worker, owner) in jobs ==> jobs[(worker, owner)] == Job(id,
              if ready && ops[id].task in docs && Preparable(docs[ops[id].task], ops[id].payload) then Prepared(docs[ops[id].task]) else Broken))
    {
      var key := (worker, owner);
      var id := jobs[key].op;
      if id in ops && ops[id].task in docs { PreparationMeans(docs[ops[id].task], ops[id].payload); }
      if id !in ops || ops[id].status != Queued {
        jobs := jobs - {key};
      } else if !ready || ops[id].task !in docs || !PreparationOk(docs[ops[id].task], ops[id].payload) {
        jobs := jobs[key := Job(id, Broken)];
      } else {
        jobs := jobs[key := Job(id, Prepared(docs[ops[id].task]))];
      }
    }

    /** `_execute` under the lease, up to the commit that claims the operation. */
    method ClaimOperation(worker: Id, owner: Id, configured: bool)
      requires IsPrepared(Contents(), worker, owner)
      modifies this
      ensures Contents() == ClaimTo(old(Contents()), worker, owner, configured)
      ensures docs == old(docs) && OnlyJob(old(jobs), jobs, (worker, owner))
      ensures
        var job := old(jobs)[(worker, owner)];
        var id := job.op;
        if id in old(ops) && old(ops)[id].status != Queued then ops == old(ops) && (worker, owner) !in jobs
        else if id in old(ops) && configured && old(ops)[id].task in docs
                && docs[old(ops)[id].task].state == RunningState(KindOf(old(ops)[id].payload))
        then ops == old(ops)[id := old(ops)[id].(status := Running, started := now)]
             && jobs == old(jobs)[(worker, owner) := Job(id, Calling(job.phase.inputs))]
        else ops == old(ops) && jobs == old(jobs)[(worker, owner) := Job(id, Broken)]
    {
      var key := (worker, owner);
      var id := jobs[key].op;
      if id !in ops {
        jobs := jobs[key := Job(id, Broken)];
      } else if ops[id].status != Queued {
        jobs := jobs - {key};
      } else if !configured || ops[id].task !in docs || docs[ops[id].task].state != Shown(ops[id]) {
        jobs := jobs[key := Job(id, Broken)];
      } else {
        ops := ops[id := ops[id].(status := Running, started := now)];
        jobs := jobs[key := Job(id, Calling(jobs[key].phase.inputs))];
      }
    }

    /** `_record_failure` and `_record_cancellation` */
    method RecordEnd(id: Id, status: OperationStatus)
      modifies this`ops, this`docs
      ensures Contents() == Record(old(Contents()), id, status)
      ensures RowsEnded(old(Contents()), Contents(), id, status)
    {
      if id in ops && ops[id].task in docs {
        var row := ops[id];
        docs := docs[row.task := docs[row.task].(state := row.initial)];
        ops := ops[id := row.(status := status)];
      }
    }

    /** `_execute` after the provider call. */
    method SaveAnswer(worker: Id, owner: Id, reply: Reply, ids: seq<Id>)
      requires IsCalling(Contents(), worker, owner)
      modifies this
      ensures Contents() == RespondTo(old(Contents()), worker, owner, reply, ids)
      ensures Answered(old(Contents()), Contents(), worker, owner, reply, ids)
    {
      AnswerMeans(Contents(), worker, owner, reply, ids);
      var key := (worker, owner);
      var job := jobs[key];
      var id := job.op;
      if id !in ops || ops[id].task !in docs {
        jobs := jobs[key := Job(id, Broken)];
        return;
      }
      var row := ops[id];
      var outcome := InvokeService(job.phase.inputs, row.payload, reply);
      var saved := Persist(docs[row.task], job.phase.inputs, row.payload, outcome, ids);
      if saved.Ok? {
        docs := docs[row.task := saved.value.(state := SucceededState(KindOf(row.payload)))];
        ops := ops[id := row.(status := Succeeded)];
        jobs := jobs[key := Job(id, Saved)];
      } else {
        RecordEnd(id, Failed);
        jobs := jobs[key := Job(id, Broken)];
      }
    }

    /** The generic exception handler of `_execute`. */
    method HandleRunError(worker: Id, owner: Id)
      requires IsCalling(Contents(), worker, owner) || IsSaved(Contents(), worker, owner)
      modifies this
      ensures Contents() == RunErrorTo(old(Contents()), worker, owner)
      ensures
        var id := old(jobs)[(worker, owner)].op;
        if id in old(ops) && old(ops)[id].status == Succeeded
        then Contents() == old(Contents()).(jobs := old(jobs) - {(worker, owner)})
        else RowsEnded(old(Contents()), Contents(), id, Failed) && jobs == old(jobs)[(worker, owner) := Job(id, Broken)]
    {
      var key := (worker, owner);
      var id := jobs[key].op;
      if id in ops && ops[id].status == Succeeded {
        jobs := jobs - {key};
      } else {
        RecordEnd(id, Failed);
        jobs := jobs[key := Job(id, Broken)];
      }
    }

    /** The cancellation handler of `_execute`. */
    method HandleCancellation(worker: Id, owner: Id)
      modifies this
      ensures Contents() == CancelRunTo(old(Contents()), worker, owner)
      ensures jobs == old(jobs) - {(worker, owner)}
      ensures
        if IsCalling(old(Contents()), worker, owner) || IsSaved(old(Contents()), worker, owner)
        then RowsEnded(old(Contents()), Contents(), old(jobs)[(worker, owner)].op, Cancelled)
        else ops == old(ops) && docs == old(docs)
    {
      var key := (worker, owner);
      if key in jobs && (jobs[key].phase.Calling? || jobs[key].phase.Saved?) {
        RecordEnd(jobs[key].op, Cancelled);
      }
      jobs := jobs - {key};
    }

    /** The clean-up of `execute`: two conditional updates. */
    method CleanUp(worker: Id, owner: Id)
      requires IsBroken(Contents(), worker, owner)
      modifies this
      ensures Contents() == CleanupTo(old(Contents()), worker, owner)
      ensures jobs == old(jobs) - {(worker, owner)}
      ensures
        var id := old(jobs)[(worker, owner)].op;
        if id in old(ops) && old(ops)[id].task in old(docs) then
          var op := old(ops)[id];
          && ops == old(ops)[id := op.(status := if op.status == Queued then Failed else op.status)]
          && OnlyDoc(old(docs), docs, op.task) && PutBack(old(docs)[op.task], docs[op.task], op)
        else ops == old(ops) && docs == old(docs)
    {
      var key := (worker, owner);
      var id := jobs[key].op;
      if id in ops && ops[id].task in docs {
        var row := ops[id];
        if docs[row.task].state == Shown(row) {
          docs := docs[row.task := docs[row.task].(state := row.initial)];
        }
        if row.status == Queued {
          ops := ops[id := row.(status := Failed)];
        }
      }
      jobs := jobs - {key};
    }
  }

  /** One of the steps recovers the member. */
  ghost predicate RecoversIn(steps: seq<Step>, owner: Id) {
    exists i :: 0 <= i < |steps| && steps[i].RecoverStale? && steps[i].owner == owner
  }

  lemma RecoversNext(steps: seq<Step>, step: Step)
    ensures forall o: Id :: RecoversIn(steps + [step], o) <==> RecoversIn(steps, o) || (step.RecoverStale? && step.owner == o)
  {
    var all := steps + [step];
    forall o: Id ensures RecoversIn(all, o) <==> RecoversIn(steps, o) || (step.RecoverStale? && step.owner == o) {
      if i :| 0 <= i < |steps| && steps[i].RecoverStale? && steps[i].owner == o { assert all[i] == steps[i]; }
      if step.RecoverStale? && step.owner == o { assert all[|steps|] == step; }
    }
  }

  /** The members a worker leaves alone: those it has a job for, and those with a running
      operation. */
  function BusyMembers(jobs: map<(Id, Id), Job>, ops: map<Id, Op>, worker: Id): (r: set<Id>) {
    (set k | k in jobs && k.0 == worker :: k.1) + (set i | i in ops && ops[i].status == Running :: ops[i].owner)
  }

  lemma WithJobsRows(jobs: map<(Id, Id), Job>, worker: Id, picks: map<Id, Id>)
    ensures forall k :: k in WithJobs(jobs, worker, picks) <==> k in jobs || (k.0 == worker && k.1 in picks)
    ensures forall k | k in WithJobs(jobs, worker, picks) ::
      WithJobs(jobs, worker, picks)[k] == if k.0 == worker && k.1 in picks then Job(picks[k.1], Started) else jobs[k]
  {
  }

  lemma WithJobsNext(jobs: map<(Id, Id), Job>, worker: Id, picks: map<Id, Id>, owner: Id, id: Id)
    ensures WithJobs(jobs, worker, picks)[(worker, owner) := Job(id, Started)] == WithJobs(jobs, worker, picks[owner := id])
  {
  }

  /** The first row of every member outside `busy`. */
  function FirstRows(ops: map<Id, Op>, rows: seq<Id>, busy: set<Id>): (picks: map<Id, Id>)
    requires forall k | 0 <= k < |rows| :: rows[k] in ops
  {
    if rows == [] then map[]
    else
      var before, id := FirstRows(ops, rows[..|rows| - 1], busy), rows[|rows| - 1];
      if ops[id].owner in busy || ops[id].owner in before then before else before[ops[id].owner := id]
  }

  /** The jobs started for those rows, one after the other. */
  function WithFirst(jobs: map<(Id, Id), Job>, worker: Id, ops: map<Id, Op>, rows: seq<Id>, busy: set<Id>): (r: map<(Id, Id), Job>)
    requires forall k | 0 <= k < |rows| :: rows[k] in ops
  {
    if rows == [] then jobs
    else
      var front, id := rows[..|rows| - 1], rows[|rows| - 1];
      var before, owner := WithFirst(jobs, worker, ops, front, busy), ops[id].owner;
      if owner in busy || owner in FirstRows(ops, front, busy) then before else before[(worker, owner) := Job(id, Started)]
  }

  lemma {:induction false} WithFirstPicks(jobs: map<(Id, Id), Job>, worker: Id, ops: map<Id, Op>, rows: seq<Id>, busy: set<Id>)
    requires forall k | 0 <= k < |rows| :: rows[k] in ops
    ensures WithFirst(jobs, worker, ops, rows, busy) == WithJobs(jobs, worker, FirstRows(ops, rows, busy))
  {
    if rows != [] {
      var front, id := rows[..|rows| - 1], rows[|rows| - 1];
      WithFirstPicks(jobs, worker, ops, front, busy);
      WithJobsNext(jobs, worker, FirstRows(ops, front, busy), ops[id].owner, id);
    }
  }

  lemma {:induction false} FirstRowsPicked(ops: map<Id, Op>, rows: seq<Id>, busy: set<Id>)
    requires forall k | 0 <= k < |rows| :: rows[k] in ops
    ensures Picked(ops, rows, busy, FirstRows(ops, rows, busy))
  {
    if rows != [] {
      var front, id := rows[..|rows| - 1], rows[|rows| - 1];
      FirstRowsPicked(ops, front, busy);
      var next := PickedNext(ops, front, id, busy, FirstRows(ops, front, busy));
      assert front + [id] == rows;
    }
  }

  lemma PickedNext(ops: map<Id, Op>, rows: seq<Id>, id: Id, skip: set<Id>, picks: map<Id, Id>) returns (r: map<Id, Id>)
    requires id in ops && Picked(ops, rows, skip, picks)
    ensures r == if ops[id].owner in skip || ops[id].owner in picks then picks else picks[ops[id].owner := id]
    ensures Picked(ops, rows + [id], skip, r)
  {
    var owner, more := ops[id].owner, rows + [id];
    r := if owner in skip || owner in picks then picks else picks[owner := id];
    forall o | o in r
      ensures o !in skip && PickedAt(ops, more, o, r[o])
    {
      if o in picks {
        assert PickedAt(ops, rows, o, picks[o]);
        var k :| 0 <= k < |rows| && rows[k] == picks[o] && picks[o] in ops && ops[picks[o]].owner == o
          && forall l | 0 <= l < k :: rows[l] in ops && ops[rows[l]].owner != o;
        assert more[k] == picks[o];
        assert forall l | 0 <= l < k :: more[l] == rows[l];
      } else {
        assert more[|rows|] == r[o];
        assert forall l | 0 <= l < |rows| :: more[l] == rows[l];
      }
    }
  }

  /** In submission order, the first row of a member is its oldest. */
  lemma PickedOldest(ops: map<Id, Op>, rows: seq<Id>, owner: Id, id: Id)
    requires Ordered(ops, rows) && (forall i :: i in rows <==> i in ops && ActiveOp(ops[i])) && PickedAt(ops, rows, owner, id)
    ensures IsOldestActive(ops, id) && ops[id].owner == owner
    ensures (ops[id].status == Queued || ops[id].status == Running)
      && forall j | j in ops && (ops[j].status == Queued || ops[j].status == Running) && ops[j].owner == owner && j != id ::
           ops[id].created < ops[j].created || (ops[id].created == ops[j].created && id < j)
  {
    var k :| 0 <= k < |rows| && rows[k] == id && id in ops && ops[id].owner == owner
      && forall l | 0 <= l < k :: rows[l] in ops && ops[rows[l]].owner != owner;
    assert id in rows;
    forall j | j in ops && ActiveOp(ops[j]) && ops[j].owner == ops[id].owner && j != id
      ensures Before(id, ops[id], j, ops[j])
    {
      assert j in rows;
      var l :| 0 <= l < |rows| && rows[l] == j;
    }
  }

  lemma PicksCover(s: State, worker: Id, rows: seq<Id>, picks: map<Id, Id>, o: Id)
    requires (forall i :: i in rows <==> i in s.ops && ActiveOp(s.ops[i])) && Picked(s.ops, rows, BusyMembers(s.jobs, s.ops, worker), picks)
    ensures o in picks <==> HasWork(s.ops, o) && !HasRunning(s.ops, o) && (worker, o) !in s.jobs
  {
    var busy := BusyMembers(s.jobs, s.ops, worker);
    assert o in busy <==> HasRunning(s.ops, o) || (worker, o) in s.jobs by {
      if (worker, o) in s.jobs { assert (worker, o).1 in busy; }
    }
    if o in picks {
      assert PickedAt(s.ops, rows, o, picks[o]);
      assert picks[o] in rows;
    }
    if HasWork(s.ops, o) {
      var i :| i in s.ops && s.ops[i].owner == o && ActiveOp(s.ops[i]);
      assert i in rows;
      var k :| 0 <= k < |rows| && rows[k] == i;
    }
  }

  lemma PicksFound(s: State, worker: Id, rows: seq<Id>, picks: map<Id, Id>)
    requires Ordered(s.ops, rows) && (forall i :: i in rows <==> i in s.ops && ActiveOp(s.ops[i]))
    requires Picked(s.ops, rows, BusyMembers(s.jobs, s.ops, worker), picks)
    ensures PicksOk(s, worker, picks)
  {
    forall o | o in picks
      ensures IsOldestActive(s.ops, picks[o]) && s.ops[picks[o]].owner == o
    {
      PickedOldest(s.ops, rows, o, picks[o]);
    }
    forall o: Id
      ensures o in picks <==> HasWork(s.ops, o) && !HasRunning(s.ops, o) && (worker, o) !in s.jobs
    {
      PicksCover(s, worker, rows, picks, o);
    }
  }

  lemma TickIsStep(s: State, worker: Id, picks: map<Id, Id>)
    requires PicksOk(s, worker, picks)
    ensures Next(s, Step.Tick(worker, picks)) == s.(jobs := WithJobs(s.jobs, worker, picks))
  {
  }

  /** The jobs of a worker with the picked operations added. */
  function WithJobs(jobs: map<(Id, Id), Job>, worker: Id, picks: map<Id, Id>): (r: map<(Id, Id), Job>) {
    jobs + map k: (Id, Id) | k in (set o | o in picks :: (worker, o)) :: Job(picks[k.1], Started)
  }

  lemma RecoverIsStep(s: State, worker: Id, owner: Id, stale: seq<Id>)
    requires MayRecover(s, worker, owner) && Distinct(stale)
    requires forall i :: i in stale <==> i in s.ops && s.ops[i].owner == owner && s.ops[i].status == Running && s.ops[i].started < s.now - STALE_SECONDS
    ensures Next(s, Step.RecoverStale(worker, owner, stale)) == Recover(s, stale)
  {
    assert forall i | i in s.ops :: i in stale <==> Stale(s, owner, i);
  }

  /** What the loop has picked from the rows so far: for each member outside `skip`, the first
      of its rows. */
  ghost predicate Picked(ops: map<Id, Op>, rows: seq<Id>, skip: set<Id>, picks: map<Id, Id>) {
    && (forall k | 0 <= k < |rows| :: rows[k] in ops && (ops[rows[k]].owner in picks || ops[rows[k]].owner in skip))
    && (forall o | o in picks :: o !in skip && PickedAt(ops, rows, o, picks[o]))
  }

  ghost predicate PickedAt(ops: map<Id, Op>, rows: seq<Id>, owner: Id, id: Id) {
    exists k :: 0 <= k < |rows| && rows[k] == id && id in ops && ops[id].owner == owner
      && forall l | 0 <= l < k :: rows[l] in ops && ops[rows[l]].owner != owner
  }
}
