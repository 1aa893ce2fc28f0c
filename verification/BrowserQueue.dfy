/** The browser's queue store: answers to earlier requests are dropped when the member or the
    list has changed since they were sent. Each method is the code between two awaits. */
module BrowserQueue {
  import opened Basics
  import opened Domain

  type Id = nat

  /** An operation row as the server reports it, with the member it belongs to. */
  datatype Item = Item(id: Id, task: Id, status: OperationStatus, member: Id)

  datatype Busy = Idle | OnItem(id: Id) | OnHistory

  /** `owner` is None for the empty member id; `timer` holds the run its poll was started for. */
  datatype Store = Store(
    items: seq<Item>, updates: map<Id, Item>, notice: Option<Item>, error: bool, expanded: bool,
    owner: Option<Id>, generation: nat, revision: nat, timer: Option<nat>, busy: Busy)

  predicate Active(item: Item) { IsActive(item.status) }

  // ---------------------------------------------------------------- the code on values

  function Find(items: seq<Item>, id: Id): (r: Option<Item>)
    ensures r.Some? ==> r.value in items && r.value.id == id
    ensures r.None? ==> forall i | 0 <= i < |items| :: items[i].id != id
  {
    if items == [] then None else if items[0].id == id then Some(items[0]) else Find(items[1..], id)
  }

  function Without(items: seq<Item>, id: Id): (r: seq<Item>)
    ensures forall x :: x in r <==> x in items && x.id != id
  {
    if items == [] then []
    else if items[0].id == id then Without(items[1..], id)
    else [items[0]] + Without(items[1..], id)
  }

  function OnlyActive(items: seq<Item>): (r: seq<Item>)
    ensures forall x :: x in r <==> x in items && Active(x)
  {
    if items == [] then []
    else if Active(items[0]) then [items[0]] + OnlyActive(items[1..])
    else OnlyActive(items[1..])
  }

  /** The row reports the end of an operation the list shows as active. */
  predicate Ends(items: seq<Item>, row: Item) {
    var previous := Find(items, row.id);
    previous.Some? && Active(previous.value) && !Active(row)
  }

  function Noted(st: Store, row: Item): (r: Store) {
    if Ends(st.items, row) then st.(updates := st.updates[row.task := row], notice := Some(row)) else st
  }

  function AcceptTo(st: Store, item: Item): (r: Store) {
    Noted(st, item).(items := [item] + Without(st.items, item.id), revision := st.revision + 1)
  }

  /** The loop over the answered rows. */
  function NotedAll(st: Store, rows: seq<Item>): (r: Store)
    ensures r.items == st.items && r.owner == st.owner && r.timer == st.timer && r.busy == st.busy
    ensures r.generation == st.generation && r.revision == st.revision
  {
    if rows == [] then st else Noted(NotedAll(st, rows[..|rows| - 1]), rows[|rows| - 1])
  }

  /** The second half of `refresh`; None stands for a failed request. */
  function RefreshTo(st: Store, run: nat, version: nat, rows: Option<seq<Item>>): (r: Store) {
    if rows.None? then (if run == st.generation then st.(error := true) else st)
    else if run != st.generation || version != st.revision then st
    else NotedAll(st, rows.value).(items := rows.value, error := false)
  }

  /** The end of `poll`: the next round is scheduled only for the current member. */
  function ScheduleTo(st: Store, chain: nat): (r: Store) {
    if chain == st.generation && st.owner.Some? then st.(timer := Some(chain)) else st
  }

  function StopTo(st: Store): (r: Store) {
    Store([], map[], None, false, false, None, st.generation + 1, st.revision + 1, None, Idle)
  }

  function StartTo(st: Store, member: Option<Id>): (r: Store) {
    if st.owner == member then st else StopTo(st).(owner := member)
  }

  /** The second half of `submit`; a failed request throws before it. */
  function SubmitTo(st: Store, run: nat, item: Item): (r: Store) {
    if run == st.generation then AcceptTo(st, item).(expanded := true, error := false) else st
  }

  /** The second half of `control`. */
  function ControlTo(st: Store, run: nat, item: Option<Item>): (r: Store) {
    if run != st.generation then st
    else if item.Some? then AcceptTo(st, item.value).(error := false, busy := Idle)
    else st.(error := true, busy := Idle)
  }

  function DoneTasks(items: seq<Item>): (r: set<Id>) {
    set i | 0 <= i < |items| && !Active(items[i]) :: items[i].task
  }

  /** The second half of `clearHistory`. */
  function ClearTo(st: Store, run: nat, ok: bool): (r: Store) {
    if run != st.generation then st
    else if !ok then st.(error := true, busy := Idle)
    else st.(items := OnlyActive(st.items), updates := st.updates - DoneTasks(st.items),
             notice := if st.notice.Some? && !Active(st.notice.value) then None else st.notice,
             error := false, busy := Idle)
  }

  // ---------------------------------------------------------------- what it means

  predicate UnderWay(item: Item) { item.status == Queued || item.status == Running }

  /** The first row with this id is under way, and the given one is not. */
  predicate JustEnded(items: seq<Item>, row: Item) {
    && !UnderWay(row)
    && exists i :: 0 <= i < |items| && items[i].id == row.id && UnderWay(items[i]) && forall k | 0 <= k < i :: items[k].id != row.id
  }

  lemma {:induction false} FindsFirst(items: seq<Item>, id: Id)
    ensures Find(items, id).Some? ==>
      exists i :: 0 <= i < |items| && items[i] == Find(items, id).value && forall k | 0 <= k < i :: items[k].id != id
  {
    if items != [] && items[0].id != id {
      var rest := items[1..];
      FindsFirst(rest, id);
      if Find(rest, id).Some? {
        var i :| 0 <= i < |rest| && rest[i] == Find(rest, id).value && forall k | 0 <= k < i :: rest[k].id != id;
        assert items[i + 1] == rest[i];
        assert forall k | 0 < k < i + 1 :: items[k] == rest[k - 1];
      }
    }
  }

  lemma EndsExact(items: seq<Item>, row: Item)
    ensures Ends(items, row) <==> JustEnded(items, row)
  {
    FindsFirst(items, row.id);
  }

  lemma {:induction false} WithoutFiltered(items: seq<Item>, id: Id)
    ensures Filtered(Without(items, id), items, (item: Item) => item.id != id)
  {
    var keep := (item: Item) => item.id != id;
    if items == [] {
      FilteredNone(keep);
    } else {
      WithoutFiltered(items[1..], id);
      FilteredFirst(Without(items[1..], id), Without(items, id), items, keep);
    }
  }

  lemma {:induction false} OnlyActiveFiltered(items: seq<Item>)
    ensures Filtered(OnlyActive(items), items, (item: Item) => UnderWay(item))
  {
    var keep := (item: Item) => UnderWay(item);
    if items == [] {
      FilteredNone(keep);
    } else {
      OnlyActiveFiltered(items[1..]);
      FilteredFirst(OnlyActive(items[1..]), OnlyActive(items), items, keep);
    }
  }

  /** The row comes first, the others follow in order, and an ending is reported. */
  ghost predicate PutFirst(a: Store, b: Store, item: Item) {
    && b.items != [] && b.items[0] == item && Filtered(b.items[1..], a.items, (x: Item) => x.id != item.id)
    && b.revision == a.revision + 1
    && (if JustEnded(a.items, item) then b.updates == a.updates[item.task := item] && b.notice == Some(item)
        else b.updates == a.updates && b.notice == a.notice)
    && b.owner == a.owner && b.generation == a.generation && b.timer == a.timer
  }

  lemma AcceptPutsFirst(st: Store, item: Item)
    ensures PutFirst(st, AcceptTo(st, item), item)
  {
    EndsExact(st.items, item);
    WithoutFiltered(st.items, item.id);
    assert ([item] + Without(st.items, item.id))[1..] == Without(st.items, item.id);
  }

  /** `i` is the last of the rows that ended (of the task, if one is given). */
  predicate LastEnded(items: seq<Item>, rows: seq<Item>, task: Option<Id>, i: nat) {
    && i < |rows| && JustEnded(items, rows[i]) && (task.Some? ==> rows[i].task == task.value)
    && forall k | i < k < |rows| :: !(JustEnded(items, rows[k]) && (task.Some? ==> rows[k].task == task.value))
  }

  predicate NoneEnded(items: seq<Item>, rows: seq<Item>, task: Option<Id>) {
    forall k | 0 <= k < |rows| :: !(JustEnded(items, rows[k]) && (task.Some? ==> rows[k].task == task.value))
  }

  /** The last row that ended is the notice, and for each task the last one of the task its
      update; without one nothing changes. */
  ghost predicate Reported(a: Store, b: Store, rows: seq<Item>) {
    && (if NoneEnded(a.items, rows, None) then b.notice == a.notice
        else exists i: nat :: LastEnded(a.items, rows, None, i) && b.notice == Some(rows[i]))
    && forall t: Id :: TaskReported(a, b, rows, t)
  }

  ghost predicate TaskReported(a: Store, b: Store, rows: seq<Item>, t: Id) {
    if NoneEnded(a.items, rows, Some(t)) then (t in b.updates <==> t in a.updates) && (t in a.updates ==> b.updates[t] == a.updates[t])
    else t in b.updates && exists i: nat :: LastEnded(a.items, rows, Some(t), i) && b.updates[t] == rows[i]
  }

  lemma LastMoves(items: seq<Item>, rows: seq<Item>, task: Option<Id>, row: Item, i: nat)
    requires LastEnded(items, rows, task, i)
    ensures !(JustEnded(items, row) && (task.Some? ==> row.task == task.value)) ==> LastEnded(items, rows + [row], task, i)
    ensures !NoneEnded(items, rows, task)
  {
  }

  lemma NoneMoves(items: seq<Item>, rows: seq<Item>, task: Option<Id>, row: Item)
    ensures JustEnded(items, row) && (task.Some? ==> row.task == task.value) ==> LastEnded(items, rows + [row], task, |rows|)
    ensures NoneEnded(items, rows + [row], task) <==> NoneEnded(items, rows, task) && !(JustEnded(items, row) && (task.Some? ==> row.task == task.value))
  {
    var all := rows + [row];
    assert all[|rows|] == row;
    assert forall k | 0 <= k < |rows| :: all[k] == rows[k];
  }

  lemma {:induction false} NotedAllReports(st: Store, rows: seq<Item>)
    ensures Reported(st, NotedAll(st, rows), rows)
  {
    if rows != [] {
      var front, last := rows[..|rows| - 1], rows[|rows| - 1];
      var before, after := NotedAll(st, front), NotedAll(st, rows);
      assert front + [last] == rows;
      NotedAllReports(st, front);
      EndsExact(st.items, last);
      NoticeNext(st, before, after, front, last);
      forall t: Id ensures TaskReported(st, after, rows, t) {
        TaskNext(st, before, after, front, last, t);
      }
    }
  }

  /** An answer is applied only under its own run and revision: its rows are shown, and what has
      ended is reported. A failed request shows an error in its own run. */
  ghost predicate Refreshed(a: Store, b: Store, run: nat, version: nat, rows: Option<seq<Item>>) {
    if rows.None? then b == a.(error := a.error || run == a.generation)
    else if run != a.generation || version != a.revision then b == a
    else Reported(a, b, rows.value) && b == a.(items := rows.value, error := false, updates := b.updates, notice := b.notice)
  }

  lemma NotedAllKeeps(st: Store, rows: seq<Item>)
    ensures NotedAll(st, rows) == st.(updates := NotedAll(st, rows).updates, notice := NotedAll(st, rows).notice)
  {
  }

  lemma RefreshMeans(st: Store, run: nat, version: nat, rows: Option<seq<Item>>)
    ensures Refreshed(st, RefreshTo(st, run, version, rows), run, version, rows)
  {
    if rows.Some? && run == st.generation && version == st.revision {
      var noted, shown := NotedAll(st, rows.value), RefreshTo(st, run, version, rows);
      NotedAllReports(st, rows.value);
      NotedAllKeeps(st, rows.value);
      forall t: Id ensures TaskReported(st, shown, rows.value, t) {
        assert TaskReported(st, noted, rows.value, t);
      }
    }
  }

  lemma NoticeNext(st: Store, before: Store, after: Store, front: seq<Item>, last: Item)
    requires Reported(st, before, front)
    requires after.notice == if JustEnded(st.items, last) then Some(last) else before.notice
    ensures
      if NoneEnded(st.items, front + [last], None) then after.notice == st.notice
      else exists i: nat :: LastEnded(st.items, front + [last], None, i) && after.notice == Some((front + [last])[i])
  {
    NoneMoves(st.items, front, None, last);
    if !JustEnded(st.items, last) && !NoneEnded(st.items, front, None) {
      var i: nat :| LastEnded(st.items, front, None, i) && before.notice == Some(front[i]);
      LastMoves(st.items, front, None, last, i);
      assert (front + [last])[i] == front[i];
    }
  }

  lemma TaskNext(st: Store, before: Store, after: Store, front: seq<Item>, last: Item, t: Id)
    requires Reported(st, before, front)
    requires after.updates == if JustEnded(st.items, last) then before.updates[last.task := last] else before.updates
    ensures TaskReported(st, after, front + [last], t)
  {
    assert TaskReported(st, before, front, t);
    NoneMoves(st.items, front, Some(t), last);
    if !(JustEnded(st.items, last) && last.task == t) && !NoneEnded(st.items, front, Some(t)) {
      var i: nat :| LastEnded(st.items, front, Some(t), i) && before.updates[t] == front[i];
      LastMoves(st.items, front, Some(t), last, i);
      assert (front + [last])[i] == front[i];
    }
  }

  /** A successful clear leaves the rows under way, in order, and forgets the updates of tasks
      with another row and a notice that is not under way. */
  ghost predicate Cleared(a: Store, b: Store, run: nat, ok: bool) {
    if run != a.generation then b == a
    else if !ok then b == a.(error := true, busy := Idle)
    else
      && Filtered(b.items, a.items, (item: Item) => UnderWay(item))
      && (forall t :: t in b.updates <==> t in a.updates && forall i | 0 <= i < |a.items| && a.items[i].task == t :: UnderWay(a.items[i]))
      && (forall t | t in b.updates :: b.updates[t] == a.updates[t])
      && b.notice == (if a.notice.Some? && !UnderWay(a.notice.value) then None else a.notice)
      && b == a.(items := b.items, updates := b.updates, notice := b.notice, error := false, busy := Idle)
  }

  lemma ClearMeans(st: Store, run: nat, ok: bool)
    ensures Cleared(st, ClearTo(st, run, ok), run, ok)
  {
    OnlyActiveFiltered(st.items);
    assert forall t :: t in DoneTasks(st.items) <==> exists i :: 0 <= i < |st.items| && st.items[i].task == t && !UnderWay(st.items[i]);
  }

  class QueueStore {
    var items: seq<Item>
    var updates: map<Id, Item>
    var notice: Option<Item>
    var error: bool
    var expanded: bool
    var owner: Option<Id>
    var generation: nat
    var revision: nat
    var timer: Option<nat>
    var busy: Busy

    function Contents(): (st: Store)
      reads this
    {
      Store(items, updates, notice, error, expanded, owner, generation, revision, timer, busy)
    }

    method Accept(item: Item)
      modifies this
      ensures Contents() == AcceptTo(old(Contents()), item)
      ensures PutFirst(old(Contents()), Contents(), item)
      ensures busy == old(busy) && error == old(error) && expanded == old(expanded)
    {
      AcceptPutsFirst(Contents(), item);
      var previous := Find(items, item.id);
      if previous.Some? && Active(previous.value) && !Active(item) {
        updates := updates[item.task := item];
        notice := Some(item);
      }
      items := [item] + Without(items, item.id);
      revision := revision + 1;
    }

    method RefreshReply(run: nat, version: nat, rows: Option<seq<Item>>)
      modifies this
      ensures Contents() == RefreshTo(old(Contents()), run, version, rows)
      ensures Refreshed(old(Contents()), Contents(), run, version, rows)
    {
      RefreshMeans(Contents(), run, version, rows);
      if rows.None? {
        if run == generation { error := true; }
        return;
      }
      if run != generation || version != revision { return; }
      for i := 0 to |rows.value|
        invariant Contents() == NotedAll(old(Contents()), rows.value[..i])
      {
        var row := rows.value[i];
        var previous := Find(items, row.id);
        assert rows.value[..i + 1][..i] == rows.value[..i];
        if previous.Some? && Active(previous.value) && !Active(row) {
          updates := updates[row.task := row];
          notice := Some(row);
        }
      }
      assert rows.value[..|rows.value|] == rows.value;
      items := rows.value;
      error := false;
    }

    method Schedule(chain: nat)
      modifies this
      ensures Contents() == ScheduleTo(old(Contents()), chain)
      ensures Contents() == old(Contents()).(timer := if chain == generation && owner.Some? then Some(chain) else old(timer))
    {
      if chain == generation && owner.Some? { timer := Some(chain); }
    }

    method Stop()
      modifies this
      ensures Contents() == StopTo(old(Contents()))
      ensures Contents() == Store([], map[], None, false, false, None, old(generation) + 1, old(revision) + 1, None, Idle)
    {
      generation, revision, owner, timer := generation + 1, revision + 1, None, None;
      items, updates, notice, error, expanded, busy := [], map[], None, false, false, Idle;
    }

    /** Returns the run to poll for, if a polling chain starts. */
    method Start(member: Option<Id>) returns (chain: Option<nat>)
      modifies this
      ensures Contents() == StartTo(old(Contents()), member)
      ensures chain == if owner != old(owner) && member.Some? then Some(generation) else None
      ensures owner == member && (owner == old(owner) ==> Contents() == old(Contents()))
      ensures owner != old(owner) ==>
        Contents() == Store([], map[], None, false, false, member, old(generation) + 1, old(revision) + 1, None, Idle)
    {
      if owner == member { return None; }
      Stop();
      owner := member;
      chain := if owner.Some? then Some(generation) else None;
    }

    method SubmitReply(run: nat, item: Item)
      modifies this
      ensures Contents() == SubmitTo(old(Contents()), run, item)
      ensures run != generation ==> Contents() == old(Contents())
      ensures run == generation ==> PutFirst(old(Contents()), Contents(), item) && expanded && !error && busy == old(busy)
    {
      if run == generation {
        Accept(item);
        expanded, error := true, false;
      }
    }

    method ControlReply(run: nat, item: Option<Item>)
      modifies this
      ensures Contents() == ControlTo(old(Contents()), run, item)
      ensures run != generation ==> Contents() == old(Contents())
      ensures run == generation ==> busy == Idle && (error <==> item.None?)
      ensures run == generation && item.Some? ==> PutFirst(old(Contents()), Contents(), item.value) && expanded == old(expanded)
      ensures run == generation && item.None? ==> Contents() == old(Contents()).(error := true, busy := Idle)
    {
      if item.Some? {
        if run == generation { Accept(item.value); error := false; }
      } else {
        if run == generation { error := true; }
      }
      if run == generation { busy := Idle; }
    }

    method ClearReply(run: nat, ok: bool)
      modifies this
      ensures Contents() == ClearTo(old(Contents()), run, ok)
      ensures revision == old(revision) && (run != generation ==> Contents() == old(Contents()))
      ensures Cleared(old(Contents()), Contents(), run, ok)
    {
      ClearMeans(Contents(), run, ok);
      if run == generation && ok {
        var done := DoneTasks(items);
        items := OnlyActive(items);
        updates := updates - done;
        if notice.Some? && !Active(notice.value) { notice := None; }
        error := false;
      } else if run == generation {
        error := true;
      }
      if run == generation { busy := Idle; }
    }
  }

  // ---------------------------------------------------------------- runs

  /** A list request in flight: the run and version it was sent under, the polling chain it
      belongs to if any, and the member it was sent for. */
  datatype Flight = Flight(run: nat, version: nat, chain: Option<nat>, sender: Option<Id>)

  /** A submission, control or clear request in flight. */
  datatype Request = Request(run: nat, sender: Option<Id>)

  datatype State = State(store: Store, flights: map<Id, Flight>, requests: map<Id, Request>, issued: set<Id>)

  datatype Step =
    | Start(member: Option<Id>, id: Id)
    | Stop
    | Fire(id: Id)
    | Refresh(id: Id)
    | Answer(id: Id, rows: Option<seq<Item>>)
    | SendSubmit(id: Id)
    | SubmitReply(id: Id, item: Item)
    | SubmitFails(id: Id)
    | SendControl(id: Id, target: Id)
    | ControlReply(id: Id, result: Option<Item>)
    | SendClear(id: Id)
    | ClearReply(id: Id, ok: bool)

  function Send(s: State, id: Id, chain: Option<nat>): (r: State) {
    s.(flights := s.flights[id := Flight(s.store.generation, s.store.revision, chain, s.store.owner)], issued := s.issued + {id})
  }

  function Ask(s: State, id: Id): (r: State) {
    s.(requests := s.requests[id := Request(s.store.generation, s.store.owner)], issued := s.issued + {id})
  }

  /** The server answers with rows of the member the request was sent for. */
  predicate RowsFor(rows: seq<Item>, sender: Option<Id>) {
    forall i | 0 <= i < |rows| :: sender == Some(rows[i].member)
  }

  function AnswerTo(s: State, id: Id, rows: Option<seq<Item>>): (r: State)
    requires id in s.flights
  {
    var f := s.flights[id];
    var st := RefreshTo(s.store, f.run, f.version, rows);
    s.(store := if f.chain.Some? then ScheduleTo(st, f.chain.value) else st, flights := s.flights - {id})
  }

  /** A step that is not possible in the state changes nothing. Request ids are fresh. */
  function Next(s: State, step: Step): (r: State) {
    match step
    case Start(member, id) =>
      if id in s.issued || s.store.owner == member then s
      else
        var t := s.(store := StartTo(s.store, member));
        if member.Some? then Send(t, id, Some(t.store.generation)) else t
    case Stop => s.(store := StopTo(s.store))
    case Fire(id) =>
      if id in s.issued || s.store.timer.None? then s
      else Send(s.(store := s.store.(timer := None)), id, s.store.timer)
    case Refresh(id) => if id in s.issued then s else Send(s, id, None)
    case Answer(id, rows) =>
      if id !in s.flights || (rows.Some? && !RowsFor(rows.value, s.flights[id].sender)) then s else AnswerTo(s, id, rows)
    case SendSubmit(id) => if id in s.issued then s else Ask(s, id)
    case SubmitReply(id, item) =>
      if id !in s.requests || !RowsFor([item], s.requests[id].sender) then s
      else s.(store := SubmitTo(s.store, s.requests[id].run, item), requests := s.requests - {id})
    case SubmitFails(id) => s.(requests := s.requests - {id})
    case SendControl(id, item) =>
      if id in s.issued || s.store.busy != Idle then s else Ask(s.(store := s.store.(busy := OnItem(item))), id)
    case ControlReply(id, item) =>
      if id !in s.requests || (item.Some? && !RowsFor([item.value], s.requests[id].sender)) then s
      else s.(store := ControlTo(s.store, s.requests[id].run, item), requests := s.requests - {id})
    case SendClear(id) =>
      if id in s.issued || s.store.busy != Idle then s else Ask(s.(store := s.store.(busy := OnHistory)), id)
    case ClearReply(id, ok) =>
      if id !in s.requests then s
      else s.(store := ClearTo(s.store, s.requests[id].run, ok), requests := s.requests - {id})
  }

  function Run(s: State, steps: seq<Step>): (r: State) {
    if steps == [] then s else Next(Run(s, steps[..|steps| - 1]), steps[|steps| - 1])
  }

  function Initial(): (s: State) {
    State(Store([], map[], None, false, false, None, 0, 0, None, Idle), map[], map[], {})
  }

  // ---------------------------------------------------------------- the invariant

  /** A request in flight was sent under an earlier or the current run; if the current one, for
      the current member. */
  predicate FlightOk(st: Store, f: Flight) {
    && f.run <= st.generation && f.version <= st.revision
    && (f.run == st.generation ==> f.sender == st.owner)
    && (f.chain.Some? ==> f.chain.value <= f.run)
    && (f.chain == Some(st.generation) ==> st.owner.Some?)
  }

  predicate RequestOk(st: Store, q: Request) {
    q.run <= st.generation && (q.run == st.generation ==> q.sender == st.owner)
  }

  predicate Mine(st: Store, item: Item) { st.owner == Some(item.member) }

  /** Everything shown belongs to the current member. */
  predicate AllMine(st: Store) {
    && (forall i | 0 <= i < |st.items| :: Mine(st, st.items[i]))
    && (forall t | t in st.updates :: Mine(st, st.updates[t]))
    && (st.notice.Some? ==> Mine(st, st.notice.value))
  }

  /** A link of the current member's polling chain: a poll in flight. */
  predicate Polling(s: State, id: Id) {
    id in s.flights && s.flights[id].chain == Some(s.store.generation)
  }

  /** Exactly one link: a poll in flight or the timer, and only while someone is logged in. */
  ghost predicate OneChain(s: State) {
    && (forall i, j | Polling(s, i) && Polling(s, j) :: i == j)
    && (s.store.timer.Some? ==> s.store.owner.Some? && s.store.timer == Some(s.store.generation) && forall i :: !Polling(s, i))
    && (s.store.owner.Some? ==> s.store.timer.Some? || exists i :: Polling(s, i))
  }

  ghost predicate Inv(s: State) {
    && (forall i | i in s.flights :: i in s.issued && FlightOk(s.store, s.flights[i]))
    && (forall i | i in s.requests :: i in s.issued && RequestOk(s.store, s.requests[i]))
    && AllMine(s.store)
    && OneChain(s)
  }

  lemma NotedMine(st: Store, row: Item)
    requires AllMine(st) && Mine(st, row)
    ensures AllMine(Noted(st, row))
  {
  }

  lemma {:induction false} NotedAllMine(st: Store, rows: seq<Item>)
    requires AllMine(st) && forall i | 0 <= i < |rows| :: Mine(st, rows[i])
    ensures AllMine(NotedAll(st, rows))
  {
    if rows != [] {
      NotedAllMine(st, rows[..|rows| - 1]);
      NotedMine(NotedAll(st, rows[..|rows| - 1]), rows[|rows| - 1]);
    }
  }

  lemma AcceptMine(st: Store, item: Item)
    requires AllMine(st) && Mine(st, item)
    ensures AllMine(AcceptTo(st, item))
  {
    var r := AcceptTo(st, item);
    forall i | 0 <= i < |r.items|
      ensures Mine(st, r.items[i])
    {
      assert r.items[i] in r.items;
    }
  }

  lemma ClearMine(st: Store, run: nat, ok: bool)
    requires AllMine(st)
    ensures AllMine(ClearTo(st, run, ok))
  {
    var r := ClearTo(st, run, ok);
    forall i | 0 <= i < |r.items|
      ensures Mine(st, r.items[i])
    {
      assert r.items[i] in r.items;
    }
  }

  lemma RefreshMine(st: Store, run: nat, version: nat, rows: Option<seq<Item>>)
    requires AllMine(st) && (run == st.generation && rows.Some? ==> RowsFor(rows.value, st.owner))
    ensures AllMine(RefreshTo(st, run, version, rows))
  {
    if rows.Some? && run == st.generation && version == st.revision {
      NotedAllMine(st, rows.value);
    }
  }

  lemma ReplyMine(s: State, step: Step)
    requires Inv(s) && (step.SubmitReply? || step.ControlReply?)
    ensures AllMine(Next(s, step).store)
  {
    match step
    case SubmitReply(id, item) =>
      if id in s.requests && s.requests[id].run == s.store.generation && RowsFor([item], s.requests[id].sender) {
        assert [item][0] == item;
        AcceptMine(s.store, item);
      }
    case ControlReply(id, result) =>
      if id in s.requests && s.requests[id].run == s.store.generation && result.Some? && RowsFor([result.value], s.requests[id].sender) {
        assert [result.value][0] == result.value;
        AcceptMine(s.store, result.value);
      }
  }

  lemma MineStep(s: State, step: Step)
    requires Inv(s)
    ensures AllMine(Next(s, step).store)
  {
    if step.Answer? { AnswerMine(s, step.id, step.rows); }
    else if step.SubmitReply? || step.ControlReply? { ReplyMine(s, step); }
    else if step.ClearReply? { if step.id in s.requests { ClearMine(s.store, s.requests[step.id].run, step.ok); } }
    else { SendMine(s, step); }
  }

  lemma AnswerMine(s: State, id: Id, rows: Option<seq<Item>>)
    requires Inv(s)
    ensures AllMine(Next(s, Answer(id, rows)).store)
  {
    if id in s.flights && (rows.Some? ==> RowsFor(rows.value, s.flights[id].sender)) {
      RefreshMine(s.store, s.flights[id].run, s.flights[id].version, rows);
    }
  }

  lemma SendMine(s: State, step: Step)
    requires AllMine(s.store) && !step.Answer? && !step.SubmitReply? && !step.ControlReply? && !step.ClearReply?
    ensures AllMine(Next(s, step).store)
  {
  }

  /** What a step does to the counters: they never go back; the owner changes only with the
      generation; an accepted row or a stop raises the revision. */
  lemma CountersStep(s: State, step: Step)
    ensures
      var r := Next(s, step);
      && r.store.generation >= s.store.generation && r.store.revision >= s.store.revision
      && (r.store.generation == s.store.generation ==> r.store.owner == s.store.owner)
      && (r.store.generation != s.store.generation ==> r.store.revision != s.store.revision)
  {
  }

  lemma RequestsStep(s: State, step: Step)
    requires Inv(s)
    ensures forall i | i in Next(s, step).requests :: i in Next(s, step).issued && RequestOk(Next(s, step).store, Next(s, step).requests[i])
  {
    var r := Next(s, step);
    CountersStep(s, step);
    forall i | i in r.requests
      ensures i in r.issued && RequestOk(r.store, r.requests[i])
    {
      if i in s.requests { assert RequestOk(s.store, s.requests[i]); }
    }
  }

  lemma FlightsStep(s: State, step: Step)
    requires Inv(s)
    ensures forall i | i in Next(s, step).flights :: i in Next(s, step).issued && FlightOk(Next(s, step).store, Next(s, step).flights[i])
  {
    var r := Next(s, step);
    CountersStep(s, step);
    forall i | i in r.flights
      ensures i in r.issued && FlightOk(r.store, r.flights[i])
    {
      if i in s.flights { assert FlightOk(s.store, s.flights[i]); }
    }
  }

  /** Nothing the chain depends on changed. */
  lemma ChainSame(s: State, r: State)
    requires OneChain(s) && r.store.generation == s.store.generation
    requires r.store.owner == s.store.owner && r.store.timer == s.store.timer
    requires forall i :: Polling(s, i) <==> Polling(r, i)
    ensures OneChain(r)
  {
  }

  /** A new generation leaves every flight of the old ones behind. */
  lemma NoneLeft(s: State, r: State)
    requires Inv(s) && r.flights == s.flights && r.store.generation > s.store.generation
    ensures forall i :: !Polling(r, i)
  {
    forall i
      ensures !Polling(r, i)
    {
      if i in s.flights { assert FlightOk(s.store, s.flights[i]); }
    }
  }

  lemma StartChain(s: State, member: Option<Id>, id: Id)
    requires Inv(s)
    ensures OneChain(Next(s, Start(member, id)))
  {
    var r := Next(s, Start(member, id));
    if id !in s.issued && s.store.owner != member {
      var t := s.(store := StartTo(s.store, member));
      NoneLeft(s, t);
      assert forall i | Polling(r, i) :: Polling(t, i) || i == id;
      assert member.Some? ==> Polling(r, id);
    }
  }

  lemma FireChain(s: State, id: Id)
    requires Inv(s)
    ensures OneChain(Next(s, Fire(id)))
  {
    var r := Next(s, Fire(id));
    if id !in s.issued && s.store.timer.Some? {
      assert forall i | Polling(r, i) :: Polling(s, i) || i == id;
      assert Polling(r, id);
    }
  }

  lemma AnswerChain(s: State, id: Id, rows: Option<seq<Item>>)
    requires Inv(s) && id in s.flights
    ensures OneChain(AnswerTo(s, id, rows))
  {
    var r := AnswerTo(s, id, rows);
    assert forall i :: Polling(r, i) <==> Polling(s, i) && i != id;
    if !Polling(s, id) { ChainSame(s, r); }
  }

  lemma ChainStep(s: State, step: Step)
    requires Inv(s)
    ensures OneChain(Next(s, step))
  {
    match step
    case Start(member, id) => StartChain(s, member, id);
    case Stop => NoneLeft(s, Next(s, Stop));
    case Fire(id) => FireChain(s, id);
    case Answer(id, rows) => if id in s.flights { AnswerChain(s, id, rows); }
    case Refresh(id) =>
      assert forall i :: Polling(s, i) <==> Polling(Next(s, step), i);
      ChainSame(s, Next(s, step));
    case _ => ChainSame(s, Next(s, step));
  }

  lemma InvStep(s: State, step: Step)
    requires Inv(s)
    ensures Inv(Next(s, step))
  {
    MineStep(s, step);
    RequestsStep(s, step);
    FlightsStep(s, step);
    ChainStep(s, step);
  }

  lemma {:induction false} InvAlways(steps: seq<Step>)
    ensures Inv(Run(Initial(), steps))
  {
    if steps != [] {
      InvAlways(steps[..|steps| - 1]);
      InvStep(Run(Initial(), steps[..|steps| - 1]), steps[|steps| - 1]);
    }
  }

  /** Nothing from an earlier login is ever shown. */
  lemma ShowsOnlyCurrentMember(steps: seq<Step>)
    ensures AllMine(Run(Initial(), steps).store)
  {
    InvAlways(steps);
  }

  /** While someone is logged in there is exactly one live link of a polling chain, a poll in
      flight or the timer; otherwise none. */
  lemma OnePollingChain(steps: seq<Step>)
    ensures
      var s := Run(Initial(), steps);
      && (s.store.owner.Some? <==> s.store.timer.Some? || exists i :: Polling(s, i))
      && !(s.store.timer.Some? && exists i :: Polling(s, i))
      && (forall i, j | Polling(s, i) && Polling(s, j) :: i == j)
  {
    InvAlways(steps);
    var s := Run(Initial(), steps);
    assert forall i | Polling(s, i) :: FlightOk(s.store, s.flights[i]);
  }

  // ---------------------------------------------------------------- late answers

  /** The row a step puts into the list: the answer to a submission, cancel or retry that was
      sent for the current member. */
  function Accepts(s: State, step: Step): (r: Option<Item>) {
    match step
    case SubmitReply(id, item) =>
      if id in s.requests && s.requests[id].run == s.store.generation && RowsFor([item], s.requests[id].sender)
      then Some(item) else None
    case ControlReply(id, result) =>
      if id in s.requests && s.requests[id].run == s.store.generation && result.Some? && RowsFor([result.value], s.requests[id].sender)
      then result else None
    case _ => None
  }

  /** A local acceptance, a stop or a change of member. */
  predicate Disturbs(s: State, step: Step) {
    Accepts(s, step).Some? || step.Stop? || (step.Start? && step.id !in s.issued && step.member != s.store.owner)
  }

  ghost predicate Undisturbed(s: State, steps: seq<Step>) {
    forall i | 0 <= i < |steps| :: !Disturbs(Run(s, steps[..i]), steps[i])
  }

  lemma RevisionStep(s: State, step: Step)
    ensures Next(s, step).store.revision == s.store.revision + if Disturbs(s, step) then 1 else 0
  {
  }

  lemma UndisturbedSnoc(s: State, steps: seq<Step>)
    requires steps != []
    ensures
      var n := |steps| - 1;
      Undisturbed(s, steps) <==> Undisturbed(s, steps[..n]) && !Disturbs(Run(s, steps[..n]), steps[n])
  {
    var n := |steps| - 1;
    assert forall i | 0 <= i < n :: steps[..n][..i] == steps[..i];
    if Undisturbed(s, steps[..n]) && !Disturbs(Run(s, steps[..n]), steps[n]) {
      forall i | 0 <= i < |steps|
        ensures !Disturbs(Run(s, steps[..i]), steps[i])
      {
        if i < n { assert !Disturbs(Run(s, steps[..n][..i]), steps[..n][i]); }
      }
    }
  }

  /** The revision is a faithful witness: it is unchanged exactly when nothing disturbed. */
  lemma {:induction false} RevisionWitness(s: State, steps: seq<Step>)
    ensures Run(s, steps).store.revision >= s.store.revision
    ensures Run(s, steps).store.revision == s.store.revision <==> Undisturbed(s, steps)
    ensures Undisturbed(s, steps) ==> Run(s, steps).store.generation == s.store.generation
  {
    if steps != [] {
      var n := |steps| - 1;
      RevisionWitness(s, steps[..n]);
      RevisionStep(Run(s, steps[..n]), steps[n]);
      CountersStep(Run(s, steps[..n]), steps[n]);
      UndisturbedSnoc(s, steps);
    }
  }

  /** A request in flight keeps the run and version it was sent under. */
  lemma {:induction false} FlightStays(s: State, steps: seq<Step>, id: Id)
    requires id in s.flights && id in s.issued
    ensures id in Run(s, steps).issued
    ensures id in Run(s, steps).flights ==> Run(s, steps).flights[id] == s.flights[id]
  {
    if steps != [] {
      FlightStays(s, steps[..|steps| - 1], id);
      FlightStep(Run(s, steps[..|steps| - 1]), steps[|steps| - 1], id);
    }
  }

  lemma FlightStep(s: State, step: Step, id: Id)
    requires id in s.issued
    ensures id in Next(s, step).issued
    ensures id in Next(s, step).flights ==> id in s.flights && Next(s, step).flights[id] == s.flights[id]
  {
  }

  /** A poll's rows replace the list exactly when no local acceptance, stop or change of
      member happened since the poll was sent; otherwise the answer changes nothing shown. */
  lemma {:induction false} PollAppliedIffUndisturbed(s: State, send: Step, steps: seq<Step>, rows: seq<Item>)
    requires send.Start? || send.Fire? || send.Refresh?
    requires send.id !in s.issued && Inv(s) && send.id in Next(s, send).flights
    requires send.id in Run(Next(s, send), steps).flights
    requires RowsFor(rows, Run(Next(s, send), steps).flights[send.id].sender)
    ensures
      var late := Run(Next(s, send), steps);
      var shown := Next(late, Answer(send.id, Some(rows))).store;
      if Undisturbed(Next(s, send), steps) then shown.items == rows && !shown.error
      else shown.items == late.store.items && shown.updates == late.store.updates && shown.notice == late.store.notice
  {
    var sent := Next(s, send);
    SentUnder(s, send);
    FlightStays(sent, steps, send.id);
    RevisionWitness(sent, steps);
    AnswerShows(Run(sent, steps), send.id, rows);
  }

  lemma SentUnder(s: State, send: Step)
    requires send.Start? || send.Fire? || send.Refresh?
    requires send.id !in s.issued && Inv(s) && send.id in Next(s, send).flights
    ensures
      var r := Next(s, send);
      send.id in r.issued && r.flights[send.id].run == r.store.generation && r.flights[send.id].version == r.store.revision
  {
  }

  lemma AnswerShows(s: State, id: Id, rows: seq<Item>)
    requires id in s.flights && RowsFor(rows, s.flights[id].sender)
    ensures
      var r := Next(s, Answer(id, Some(rows))).store;
      if s.flights[id].run == s.store.generation && s.flights[id].version == s.store.revision
      then r.items == rows && !r.error
      else r.items == s.store.items && r.updates == s.store.updates && r.notice == s.store.notice
  {
  }

  // ---------------------------------------------------------------- accepted rows stay

  predicate Has(items: seq<Item>, id: Id) {
    exists i :: 0 <= i < |items| && items[i].id == id
  }

  /** Steps that may not remove a row: not a stop, a change of member, a successful clear of
      the history, or an answer to a request that is not in `flights`. */
  predicate Harmless(step: Step, flights: set<Id>, owner: Option<Id>) {
    match step
    case Stop => false
    case Start(member, _) => member == owner
    case ClearReply(_, ok) => !ok
    case Answer(id, rows) => rows.None? || id in flights
    case _ => true
  }

  /** Every listed request was sent before the latest revision. */
  predicate Outdated(s: State, flights: set<Id>) {
    forall id | id in flights && id in s.flights :: s.flights[id].version < s.store.revision
  }

  lemma AcceptHas(st: Store, item: Item, id: Id)
    requires Has(st.items, id) || item.id == id
    ensures Has(AcceptTo(st, item).items, id)
  {
    var r := AcceptTo(st, item).items;
    if item.id == id {
      assert r[0].id == id;
    } else {
      var i :| 0 <= i < |st.items| && st.items[i].id == id;
      assert st.items[i] in r;
      var j :| 0 <= j < |r| && r[j] == st.items[i];
    }
  }

  lemma HasStep(s: State, step: Step, flights: set<Id>, id: Id)
    requires Has(s.store.items, id) && Outdated(s, flights) && flights <= s.issued && Harmless(step, flights, s.store.owner)
    ensures Has(Next(s, step).store.items, id)
  {
    match step
    case SubmitReply(q, item) => AcceptHas(s.store, item, id);
    case ControlReply(q, result) => if result.Some? { AcceptHas(s.store, result.value, id); }
    case _ =>
  }

  lemma OutdatedStep(s: State, step: Step, flights: set<Id>)
    requires Outdated(s, flights) && flights <= s.issued && Harmless(step, flights, s.store.owner)
    ensures Outdated(Next(s, step), flights) && flights <= Next(s, step).issued && Next(s, step).store.owner == s.store.owner
  {
    CountersStep(s, step);
    forall id | id in flights
      ensures id in Next(s, step).issued && (id in Next(s, step).flights ==> Next(s, step).flights[id].version < Next(s, step).store.revision)
    {
      FlightStep(s, step, id);
    }
    assert Next(s, step).store.owner == s.store.owner;
  }

  lemma {:induction false} HasAlong(s: State, steps: seq<Step>, flights: set<Id>, id: Id)
    requires Has(s.store.items, id) && Outdated(s, flights) && flights <= s.issued
    requires forall i | 0 <= i < |steps| :: Harmless(steps[i], flights, s.store.owner)
    ensures
      var r := Run(s, steps);
      Has(r.store.items, id) && Outdated(r, flights) && flights <= r.issued && r.store.owner == s.store.owner
  {
    if steps != [] {
      var n := |steps| - 1;
      HasAlong(s, steps[..n], flights, id);
      HasStep(Run(s, steps[..n]), steps[n], flights, id);
      OutdatedStep(Run(s, steps[..n]), steps[n], flights);
    }
  }

  /** A row just accepted stays in the list, whatever answers arrive to requests sent before
      the acceptance and whatever else happens, short of a stop, a change of member, a clear
      of the history, or an answer to a later request. */
  lemma {:induction false} AcceptedStays(before: seq<Step>, accept: Step, later: seq<Step>)
    requires Accepts(Run(Initial(), before), accept).Some?
    requires
      var s := Next(Run(Initial(), before), accept);
      forall i | 0 <= i < |later| :: Harmless(later[i], s.flights.Keys, s.store.owner)
    ensures
      var s := Run(Initial(), before);
      Has(Run(Next(s, accept), later).store.items, Accepts(s, accept).value.id)
  {
    var s := Run(Initial(), before);
    InvAlways(before);
    InvStep(s, accept);
    JustAccepted(s, accept);
    HasAlong(Next(s, accept), later, Next(s, accept).flights.Keys, Accepts(s, accept).value.id);
  }

  lemma JustAccepted(s: State, accept: Step)
    requires Inv(s) && Accepts(s, accept).Some?
    ensures
      var r := Next(s, accept);
      Has(r.store.items, Accepts(s, accept).value.id) && Outdated(r, r.flights.Keys) && r.flights == s.flights
  {
    AcceptHas(s.store, Accepts(s, accept).value, Accepts(s, accept).value.id);
    assert forall id | id in s.flights :: FlightOk(s.store, s.flights[id]);
  }

  // ---------------------------------------------------------------- cleared history

  /** The list shows a finished row it did not show before. */
  ghost predicate BringsBack(before: seq<Item>, after: seq<Item>) {
    exists x :: x in after && !Active(x) && x !in before
  }

  /** A successful clear of the current run leaves only active rows. */
  lemma ClearRemoves(s: State, clear: Id)
    requires clear in s.requests && s.requests[clear].run == s.store.generation
    ensures forall x | x in Next(s, ClearReply(clear, true)).store.items :: Active(x)
    ensures Next(s, ClearReply(clear, true)).store.revision == s.store.revision
  {
  }

  /** Clearing the history does not raise the revision, so cleared rows can come back. Exactly
      when: a poll is sent, later a clear of the current run succeeds at step `c`, and then the
      poll is answered. The answer brings finished rows back iff nothing disturbed the store
      from the sending to the answer and the answer carries a finished row that is not shown;
      over a list without finished rows, iff it carries any. */
  lemma {:induction false} ClearedRowsReturnIff(before: seq<Step>, send: Step, steps: seq<Step>, c: nat, rows: seq<Item>)
    requires send.Start? || send.Fire? || send.Refresh?
    requires
      var s := Run(Initial(), before);
      send.id !in s.issued && send.id in Next(s, send).flights
    requires
      var sent := Next(Run(Initial(), before), send);
      && c < |steps| && steps[c].ClearReply? && steps[c].ok
      && steps[c].id in Run(sent, steps[..c]).requests
      && Run(sent, steps[..c]).requests[steps[c].id].run == Run(sent, steps[..c]).store.generation
      && send.id in Run(sent, steps).flights && RowsFor(rows, Run(sent, steps).flights[send.id].sender)
    ensures
      var sent := Next(Run(Initial(), before), send);
      var late := Run(sent, steps).store.items;
      var shown := Next(Run(sent, steps), Answer(send.id, Some(rows))).store.items;
      && (forall x | x in Run(sent, steps[..c + 1]).store.items :: Active(x))
      && (BringsBack(late, shown) <==> Undisturbed(sent, steps) && BringsBack(late, rows))
      && ((forall x | x in late :: Active(x)) ==>
            ((exists x :: x in shown && !Active(x)) <==> Undisturbed(sent, steps) && exists x :: x in rows && !Active(x)))
  {
    var s := Run(Initial(), before);
    var sent := Next(s, send);
    InvAlways(before);
    PollAppliedIffUndisturbed(s, send, steps, rows);
    ClearRemoves(Run(sent, steps[..c]), steps[c].id);
    assert steps[..c + 1][..c] == steps[..c];
  }

  /** A run in which they do: the list is loaded, a clear and the next poll are sent, the poll is
      answered with what the server held before the clear, after the clear was confirmed. */
  lemma {:induction false} ClearedRowReturns() returns (steps: seq<Step>, row: Item)
    ensures !Active(row)
    ensures |steps| == 6 && steps[4] == ClearReply(11, true) && row !in Run(Initial(), steps[..5]).store.items
    ensures row in Run(Initial(), steps).store.items
  {
    row := Item(5, 3, Succeeded, 1);
    var load, answer := [Start(Some(1), 10), Answer(10, Some([row]))], Answer(12, Some([row]));
    var s := Loaded(row);
    ClearThenAnswer(s, row);
    steps := load + [SendClear(11), Fire(12), ClearReply(11, true), answer];
    TwoSteps(Initial(), load[0], load[1]);
    RunSnoc(Initial(), load, SendClear(11));
    RunSnoc(Initial(), load + [SendClear(11)], Fire(12));
    RunSnoc(Initial(), load + [SendClear(11)] + [Fire(12)], ClearReply(11, true));
    assert steps[..5] == load + [SendClear(11)] + [Fire(12)] + [ClearReply(11, true)];
    RunSnoc(Initial(), steps[..5], answer);
    assert steps == steps[..5] + [answer];
  }

  lemma {:induction false} TwoSteps(s: State, a: Step, b: Step)
    ensures Run(s, [a, b]) == Next(Next(s, a), b)
  {
    RunSnoc(s, [], a);
    RunSnoc(s, [a], b);
    assert [] + [a] == [a] && [a] + [b] == [a, b];
  }

  /** A clear and a poll are sent; the clear is confirmed first. */
  lemma ClearThenAnswer(s: State, row: Item)
    requires s.store.items == [row] && !Active(row) && s.store.owner == Some(row.member)
    requires s.store.busy == Idle && s.store.timer.Some? && 11 !in s.issued && 12 !in s.issued
    ensures
      var cleared := Next(Next(Next(s, SendClear(11)), Fire(12)), ClearReply(11, true));
      row !in cleared.store.items && Next(cleared, Answer(12, Some([row]))).store.items == [row]
  {
    var sent := Next(Next(s, SendClear(11)), Fire(12));
    ClearRemoves(sent, 11);
    AnswerShows(Next(sent, ClearReply(11, true)), 12, [row]);
  }

  lemma {:induction false} RunSnoc(s: State, steps: seq<Step>, step: Step)
    ensures Run(s, steps + [step]) == Next(Run(s, steps), step)
  {
    assert (steps + [step])[..|steps|] == steps;
  }

  /** A member logs in and the first poll loads one finished row. */
  lemma Loaded(row: Item) returns (s: State)
    requires !Active(row) && row.member == 1
    ensures s == Next(Next(Initial(), Start(Some(1), 10)), Answer(10, Some([row])))
    ensures s.store.items == [row] && s.store.owner == Some(1) && s.store.generation == 1 && s.store.revision == 1
    ensures s.store.timer == Some(1) && s.store.busy == Idle && s.issued == {10} && s.requests == map[] && s.flights == map[]
  {
    var sent := Next(Initial(), Start(Some(1), 10));
    assert sent.flights == map[10 := Flight(1, 1, Some(1), Some(1))];
    s := Next(sent, Answer(10, Some([row])));
    AnswerShows(sent, 10, [row]);
  }

  /** Every operation the list shows as active and the answer as ended is reported for its
      task, with a row of that answer. */
  lemma {:induction false} EndsAreReported(st: Store, rows: seq<Item>, i: nat)
    requires i < |rows| && Ends(st.items, rows[i])
    ensures
      var r := NotedAll(st, rows);
      && rows[i].task in r.updates && r.notice.Some?
      && r.updates[rows[i].task] in rows && Ends(st.items, r.updates[rows[i].task]) && r.updates[rows[i].task].task == rows[i].task
      && r.notice.value in rows && Ends(st.items, r.notice.value)
  {
    var n := |rows| - 1;
    if i < n {
      EndsAreReported(st, rows[..n], i);
    }
  }
}
