/** The durable AI queue as a transition system. One step is one committed transaction of a
    request or of a worker; a step that the code refuses leaves the state alone. `Next` is
    total, so every list of steps is a run. */
module Queue {
  import opened Basics
  import opened Domain
  import opened AiLimits
  import opened Documents
  import opened DocumentFacts

  datatype Op = Op(
    owner: Id, task: Id, payload: Payload, status: OperationStatus, key: Option<string>,
    created: int, initial: TaskState, started: int)

  /** How far `execute` has come for the operation a worker picked up. */
  datatype Phase =
    | Started                  // picked by `tick`
    | Prepared(inputs: Doc)    // rows read, lease not yet taken
    | Calling(inputs: Doc)     // claimed and committed, provider call under way
    | Saved                    // success committed, method not yet returned
    | Broken                   // an exception is on its way to the clean-up

  datatype Job = Job(op: Id, phase: Phase)

  /** `jobs` is keyed by worker and member; `issued` holds every operation id ever used. */
  datatype State = State(
    docs: map<Id, Doc>, ops: map<Id, Op>, jobs: map<(Id, Id), Job>, issued: set<Id>, now: int)

  datatype Step =
    | CreateTask(task: Id, owner: Id, source: string, settings: string)
    | EditTask(task: Id, owner: Id, edit: Edit)
    | Submit(id: Id, task: Id, owner: Id, payload: Payload, key: Option<string>, at: int, configured: bool)
    | Retry(id: Id, op: Id, owner: Id, key: Option<string>, at: int, configured: bool)
    | CancelQueued(owner: Id, op: Id)
    | ClearCompleted(owner: Id)
    | Tick(worker: Id, picks: map<Id, Id>)
    | RecoverStale(worker: Id, owner: Id, stale: seq<Id>)
    | Prepare(worker: Id, owner: Id, ready: bool)
    | LeaseBusy(worker: Id, owner: Id)
    | Claim(worker: Id, owner: Id, configured: bool)
    | Respond(worker: Id, owner: Id, reply: Reply, ids: seq<Id>)
    | RunError(worker: Id, owner: Id)
    | CancelRun(worker: Id, owner: Id)
    | Return(worker: Id, owner: Id)
    | Cleanup(worker: Id, owner: Id)
    | Crash(worker: Id)
    | Pass(seconds: nat)

  /** The state a document shows while the operation is active. */
  function Shown(op: Op): (s: TaskState) { RunningState(KindOf(op.payload)) }

  predicate ActiveOp(op: Op) { IsActive(op.status) }

  /** `ORDER BY created_at, id` */
  predicate Before(i: Id, a: Op, j: Id, b: Op) {
    a.created < b.created || (a.created == b.created && i < j)
  }

  predicate HasActive(ops: map<Id, Op>, task: Id) {
    exists i :: i in ops && ops[i].task == task && ActiveOp(ops[i])
  }

  // ---------------------------------------------------------------- requests

  predicate SameScope(op: Op, task: Id, owner: Id, kind: OperationKind, key: string) {
    op.task == task && op.owner == owner && KindOf(op.payload) == kind && op.key == Some(key)
  }

  /** `_existing`, apart from the comparison of bodies. */
  ghost function Existing(s: State, task: Id, owner: Id, kind: OperationKind, key: Option<string>): (r: Option<Id>)
    ensures r.Some? ==> key.Some? && r.value in s.ops && SameScope(s.ops[r.value], task, owner, kind, key.value)
    ensures r.None? && key.Some? ==> forall i | i in s.ops :: !SameScope(s.ops[i], task, owner, kind, key.value)
  {
    if key.Some? && exists i :: i in s.ops && SameScope(s.ops[i], task, owner, kind, key.value)
    then var i :| i in s.ops && SameScope(s.ops[i], task, owner, kind, key.value); Some(i)
    else None
  }

  /** Why `submit` refuses, when no operation with this key exists. */
  ghost function Refusal(s: State, id: Id, task: Id, payload: Payload, configured: bool): (e: Option<Error>)
    requires task in s.docs
  {
    if HasActive(s.ops, task) then Some(InProgress)
    else if !Allowed(s.docs[task].state, RunningState(KindOf(payload))) then Some(InvalidState)
    else if !configured then Some(NotConfigured)
    else if ApplySnapshot(s.docs[task], payload).Err? then Some(ApplySnapshot(s.docs[task], payload).error)
    else if id in s.issued then Some(Conflict)
    else None
  }

  /** The queued operation and the document that shows it. */
  ghost function Enqueue(s: State, id: Id, task: Id, owner: Id, payload: Payload, key: Option<string>, at: int): (r: State)
    requires task in s.docs && ApplySnapshot(s.docs[task], payload).Ok?
  {
    var doc := s.docs[task];
    var op := Op(owner, task, payload, Queued, key, at, doc.state, 0);
    s.(ops := s.ops[id := op], issued := s.issued + {id},
       docs := s.docs[task := ApplySnapshot(doc, payload).value.(state := RunningState(KindOf(payload)))])
  }

  /** `submit`: the new state and the reply. */
  ghost function SubmitTo(s: State, id: Id, task: Id, owner: Id, payload: Payload, key: Option<string>, at: int, configured: bool)
    : (r: (State, Result<Id, Error>))
  {
    if task !in s.docs || s.docs[task].owner != owner then (s, Err(NotFound))
    else
      var existing := Existing(s, task, owner, KindOf(payload), key);
      if existing.Some? then
        (s, if s.ops[existing.value].payload == payload then Ok(existing.value) else Err(KeyReused))
      else
        var refusal := Refusal(s, id, task, payload, configured);
        if refusal.Some? then (s, Err(refusal.value))
        else (Enqueue(s, id, task, owner, payload, key, at), Ok(id))
  }

  /** `retry`: resubmit the stored payload of a failed or cancelled operation. */
  ghost function RetryTo(s: State, id: Id, op: Id, owner: Id, key: Option<string>, at: int, configured: bool)
    : (r: (State, Result<Id, Error>))
  {
    if op !in s.ops || s.ops[op].owner != owner then (s, Err(NotFound))
    else if s.ops[op].status != Failed && s.ops[op].status != Cancelled then (s, Err(NotRetryable))
    else SubmitTo(s, id, s.ops[op].task, owner, s.ops[op].payload, key, at, configured)
  }

  /** An operation ends with `status`; its document goes to `doc`. */
  function End(s: State, id: Id, status: OperationStatus, doc: Doc): (r: State)
    requires id in s.ops
  {
    s.(ops := s.ops[id := s.ops[id].(status := status)], docs := s.docs[s.ops[id].task := doc])
  }

  /** The document back at the operation's initial state, if it still shows the operation. */
  function Released(s: State, id: Id): (doc: Doc)
    requires id in s.ops && s.ops[id].task in s.docs
  {
    var doc := s.docs[s.ops[id].task];
    if doc.state == Shown(s.ops[id]) then doc.(state := s.ops[id].initial) else doc
  }

  function CancelTo(s: State, owner: Id, id: Id): (r: (State, Result<Id, Error>)) {
    if id !in s.ops || s.ops[id].owner != owner || s.ops[id].task !in s.docs then (s, Err(NotFound))
    else if s.ops[id].status != Queued then (s, Err(NotQueued))
    else (End(s, id, Cancelled, Released(s, id)), Ok(id))
  }

  function ClearTo(s: State, owner: Id): (r: State) {
    s.(ops := map i | i in s.ops && (s.ops[i].owner != owner || ActiveOp(s.ops[i])) :: s.ops[i])
  }

  ghost function EditTo(s: State, task: Id, owner: Id, edit: Edit): (r: (State, Result<Id, Error>)) {
    if task !in s.docs || s.docs[task].owner != owner then (s, Err(NotFound))
    else if HasActive(s.ops, task) then (s, Err(InProgress))
    else
      var next := ApplyEdit(s.docs[task], edit);
      if next.Err? then (s, Err(next.error)) else (s.(docs := s.docs[task := next.value]), Ok(task))
  }

  // ---------------------------------------------------------------- workers

  predicate IsOldestActive(ops: map<Id, Op>, id: Id) {
    id in ops && ActiveOp(ops[id]) &&
    forall j | j in ops && ActiveOp(ops[j]) && ops[j].owner == ops[id].owner && j != id :: Before(id, ops[id], j, ops[j])
  }

  predicate HasRunning(ops: map<Id, Op>, owner: Id) {
    exists i :: i in ops && ops[i].owner == owner && ops[i].status == Running
  }

  predicate HasWork(ops: map<Id, Op>, owner: Id) {
    exists i :: i in ops && ops[i].owner == owner && ActiveOp(ops[i])
  }

  /** What `tick` starts: for every member with work, none of it running and no job of this
      worker, the oldest active operation. */
  ghost predicate PicksOk(s: State, worker: Id, picks: map<Id, Id>) {
    && (forall o | o in picks :: IsOldestActive(s.ops, picks[o]) && s.ops[picks[o]].owner == o)
    && (forall o: Id :: o in picks <==> HasWork(s.ops, o) && !HasRunning(s.ops, o) && (worker, o) !in s.jobs)
  }

  function Stale(s: State, owner: Id, i: Id): (r: bool) {
    i in s.ops && s.ops[i].owner == owner && s.ops[i].status == Running && s.ops[i].started < s.now - STALE_SECONDS
  }

  /** `tick` recovers members it has no job for; `execute` recovers its own member first. */
  predicate MayRecover(s: State, worker: Id, owner: Id) {
    (worker, owner) in s.jobs ==> s.jobs[(worker, owner)].phase == Started
  }

  predicate Distinct(ids: seq<Id>) {
    forall i, j | 0 <= i < j < |ids| :: ids[i] != ids[j]
  }

  /** The loop of `recover_stale_operations` over the rows it selected. */
  function Recover(s: State, stale: seq<Id>): (r: State) {
    if stale == [] then s
    else
      var before := Recover(s, stale[..|stale| - 1]);
      var id := stale[|stale| - 1];
      if id in before.ops && before.ops[id].task in before.docs then End(before, id, Failed, Released(before, id)) else before
  }

  function Drop(s: State, worker: Id, owner: Id): (r: State) {
    s.(jobs := s.jobs - {(worker, owner)})
  }

  function Enter(s: State, worker: Id, owner: Id, phase: Phase): (r: State)
    requires (worker, owner) in s.jobs
  {
    s.(jobs := s.jobs[(worker, owner) := s.jobs[(worker, owner)].(phase := phase)])
  }

  /** `_record_failure`: no look at the operation's status. */
  function Record(s: State, id: Id, status: OperationStatus): (r: State) {
    if id in s.ops && s.ops[id].task in s.docs
    then End(s, id, status, s.docs[s.ops[id].task].(state := s.ops[id].initial)) else s
  }

  /** The reads before the lease. */
  function PrepareTo(s: State, worker: Id, owner: Id, ready: bool): (r: State)
    requires (worker, owner) in s.jobs
  {
    var id := s.jobs[(worker, owner)].op;
    if id !in s.ops || s.ops[id].status != Queued then Drop(s, worker, owner)
    else if !ready || s.ops[id].task !in s.docs || !PreparationOk(s.docs[s.ops[id].task], s.ops[id].payload)
    then Enter(s, worker, owner, Broken)
    else Enter(s, worker, owner, Prepared(s.docs[s.ops[id].task]))
  }

  /** The conditional claim under the lease. */
  function ClaimTo(s: State, worker: Id, owner: Id, configured: bool): (r: State)
    requires (worker, owner) in s.jobs && s.jobs[(worker, owner)].phase.Prepared?
  {
    var job := s.jobs[(worker, owner)];
    var id := job.op;
    if id !in s.ops then Enter(s, worker, owner, Broken)
    else if s.ops[id].status != Queued then Drop(s, worker, owner)
    else if !configured || s.ops[id].task !in s.docs || s.docs[s.ops[id].task].state != Shown(s.ops[id])
    then Enter(s, worker, owner, Broken)
    else
      Enter(s.(ops := s.ops[id := s.ops[id].(status := Running, started := s.now)]),
            worker, owner, Calling(job.phase.inputs))
  }

  /** The document a successful reply produces, or why it is refused. */
  ghost function Answer(s: State, id: Id, inputs: Doc, reply: Reply, ids: seq<Id>): (r: Result<Doc, Error>)
    requires id in s.ops && s.ops[id].task in s.docs
  {
    var op := s.ops[id];
    Persist(s.docs[op.task], inputs, op.payload, Invoke(inputs, op.payload, reply), ids)
  }

  /** The provider's answer: success and failure are both written without a look at the
      operation's status. A deleted row makes the write fail. */
  ghost function RespondTo(s: State, worker: Id, owner: Id, reply: Reply, ids: seq<Id>): (r: State)
    requires (worker, owner) in s.jobs && s.jobs[(worker, owner)].phase.Calling?
  {
    var job := s.jobs[(worker, owner)];
    var id := job.op;
    if id !in s.ops || s.ops[id].task !in s.docs then Enter(s, worker, owner, Broken)
    else
      var answer := Answer(s, id, job.phase.inputs, reply, ids);
      if answer.Ok?
      then Enter(End(s, id, Succeeded, answer.value.(state := SucceededState(KindOf(s.ops[id].payload)))), worker, owner, Saved)
      else Enter(Record(s, id, Failed), worker, owner, Broken)
  }

  /** The generic handler: it returns if the success was saved, else records a failure. */
  function RunErrorTo(s: State, worker: Id, owner: Id): (r: State)
    requires (worker, owner) in s.jobs
  {
    var id := s.jobs[(worker, owner)].op;
    if id in s.ops && s.ops[id].status == Succeeded then Drop(s, worker, owner)
    else Enter(Record(s, id, Failed), worker, owner, Broken)
  }

  /** The worker shuts down: a run that was claimed records the cancellation without a look at
      the operation's status; earlier and later phases just stop. */
  function CancelRunTo(s: State, w: Id, o: Id): (r: State) {
    if IsCalling(s, w, o) || IsSaved(s, w, o) then Drop(Record(s, s.jobs[(w, o)].op, Cancelled), w, o) else Drop(s, w, o)
  }

  /** The clean-up of `execute`: the document is reset if it shows the operation's running
      state, whatever the operation's status; only a queued operation is failed. */
  function CleanupTo(s: State, worker: Id, owner: Id): (r: State)
    requires (worker, owner) in s.jobs
  {
    var id := s.jobs[(worker, owner)].op;
    var after :=
      if id in s.ops && s.ops[id].task in s.docs
      then End(s, id, if s.ops[id].status == Queued then Failed else s.ops[id].status, Released(s, id))
      else s;
    Drop(after, worker, owner)
  }

  predicate IsStarted(s: State, w: Id, o: Id) { (w, o) in s.jobs && s.jobs[(w, o)].phase.Started? }
  predicate IsPrepared(s: State, w: Id, o: Id) { (w, o) in s.jobs && s.jobs[(w, o)].phase.Prepared? }
  predicate IsCalling(s: State, w: Id, o: Id) { (w, o) in s.jobs && s.jobs[(w, o)].phase.Calling? }
  predicate IsSaved(s: State, w: Id, o: Id) { (w, o) in s.jobs && s.jobs[(w, o)].phase.Saved? }
  predicate IsBroken(s: State, w: Id, o: Id) { (w, o) in s.jobs && s.jobs[(w, o)].phase.Broken? }

  // ---------------------------------------------------------------- steps and runs

  ghost function Next(s: State, step: Step): (r: State) {
    match step
    case CreateTask(task, owner, source, settings) =>
      if task in s.docs then s
      else s.(docs := s.docs[task := Doc(owner, source, settings, Draft, None, [], [], [], [], None)])
    case EditTask(task, owner, edit) => EditTo(s, task, owner, edit).0
    case Submit(id, task, owner, payload, key, at, configured) => SubmitTo(s, id, task, owner, payload, key, at, configured).0
    case Retry(id, op, owner, key, at, configured) => RetryTo(s, id, op, owner, key, at, configured).0
    case CancelQueued(owner, op) => CancelTo(s, owner, op).0
    case ClearCompleted(owner) => ClearTo(s, owner)
    case Tick(worker, picks) =>
      if PicksOk(s, worker, picks)
      then s.(jobs := s.jobs + map k: (Id, Id) | k in (set o | o in picks :: (worker, o)) :: Job(picks[k.1], Started)) else s
    case RecoverStale(worker, owner, stale) =>
      if MayRecover(s, worker, owner) && (forall i | i in s.ops :: i in stale <==> Stale(s, owner, i))
         && (forall i | i in stale :: i in s.ops) && Distinct(stale) then Recover(s, stale) else s
    case Prepare(w, o, ready) => if IsStarted(s, w, o) then PrepareTo(s, w, o, ready) else s
    case LeaseBusy(w, o) => if IsPrepared(s, w, o) then Drop(s, w, o) else s
    case Claim(w, o, configured) => if IsPrepared(s, w, o) then ClaimTo(s, w, o, configured) else s
    case Respond(w, o, reply, ids) => if IsCalling(s, w, o) then RespondTo(s, w, o, reply, ids) else s
    case RunError(w, o) => if IsCalling(s, w, o) || IsSaved(s, w, o) then RunErrorTo(s, w, o) else s
    case CancelRun(w, o) => CancelRunTo(s, w, o)
    case Return(w, o) => if IsSaved(s, w, o) then Drop(s, w, o) else s
    case Cleanup(w, o) => if IsBroken(s, w, o) then CleanupTo(s, w, o) else s
    case Crash(w) => s.(jobs := map k | k in s.jobs && k.0 != w :: s.jobs[k])
    case Pass(seconds) => s.(now := s.now + seconds)
  }

  ghost function Run(s: State, steps: seq<Step>): (r: State) {
    if steps == [] then s else Next(Run(s, steps[..|steps| - 1]), steps[|steps| - 1])
  }

  function Initial(now: int): (s: State) {
    State(map[], map[], map[], {}, now)
  }
}
