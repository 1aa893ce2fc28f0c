/** Idempotent submission over whole runs: whatever happens in between, short of clearing the
    member's history, one key stands for one operation. */
module QueueIdempotency {
  import opened Basics
  import opened Domain
  import opened Documents
  import opened DocumentFacts
  import opened Queue
  import opened QueueInvariant
  import opened QueueAgreement
  import opened QueueFreeze

  /** What a client sends, apart from what the server draws anew for each delivery. */
  datatype Request = Request(task: Id, owner: Id, payload: Payload, key: string)

  /** The operation a key stands for. */
  predicate Answered(s: State, q: Request, x: Id) {
    x in s.ops && SameScope(s.ops[x], q.task, q.owner, KindOf(q.payload), q.key) && s.ops[x].payload == q.payload
  }

  ghost function Deliver(s: State, q: Request, id: Id, at: int, configured: bool): (r: (State, Result<Id, Error>)) {
    SubmitTo(s, id, q.task, q.owner, q.payload, Some(q.key), at, configured)
  }

  /** A successful reply names an operation with this key and body. */
  lemma ReplyNames(s: State, q: Request, id: Id, at: int, configured: bool)
    requires Deliver(s, q, id, at, configured).1.Ok?
    ensures Answered(Deliver(s, q, id, at, configured).0, q, Deliver(s, q, id, at, configured).1.value)
  {
  }

  /** Delivering again returns the same operation and changes nothing; the same key with
      another body of that kind is refused and changes nothing. */
  lemma DeliverAgain(s: State, q: Request, x: Id, q': Request, id: Id, at: int, configured: bool)
    requires Base(s) && Answered(s, q, x)
    requires q'.task == q.task && q'.owner == q.owner && q'.key == q.key && KindOf(q'.payload) == KindOf(q.payload)
    ensures Deliver(s, q', id, at, configured) == (s, if q'.payload == q.payload then Ok(x) else Err(KeyReused))
  {
    assert OpOk(s, x);
    var e := Existing(s, q.task, q.owner, KindOf(q.payload), Some(q.key));
    assert e.Some?;
    assert SameScope(s.ops[e.value], s.ops[x].task, s.ops[x].owner, KindOf(s.ops[x].payload), s.ops[x].key.value);
    assert e.value == x;
  }

  lemma {:induction false} RecoverStays(s: State, stale: seq<Id>, i: Id)
    requires i in s.ops
    ensures i in Recover(s, stale).ops
  {
    if stale != [] { RecoverStays(s, stale[..|stale| - 1], i); }
  }

  /** Rows leave the table only when their member clears the history. */
  lemma OpStays(s: State, step: Step, i: Id)
    requires i in s.ops && step != ClearCompleted(s.ops[i].owner)
    ensures i in Next(s, step).ops
  {
    if step.RecoverStale? { RecoverStays(s, step.stale, i); }
  }

  lemma AnsweredStep(s: State, step: Step, q: Request, x: Id)
    requires Base(s) && Answered(s, q, x) && step != ClearCompleted(q.owner)
    ensures Answered(Next(s, step), q, x)
  {
    OpStays(s, step, x);
    OpsContinue(s, step, x);
  }

  lemma {:induction false} AnsweredRun(s: State, steps: seq<Step>, q: Request, x: Id)
    requires Base(s) && Answered(s, q, x) && ClearCompleted(q.owner) !in steps
    ensures Answered(Run(s, steps), q, x)
  {
    if steps != [] {
      var front := steps[..|steps| - 1];
      assert ClearCompleted(q.owner) !in front;
      AnsweredRun(s, front, q, x);
      BaseRun(s, front);
      assert steps[|steps| - 1] in steps;
      AnsweredStep(Run(s, front), steps[|steps| - 1], q, x);
    }
  }

  /** Two deliveries of one request, any steps in between: if the first was answered, the
      second gets the same answer and creates nothing. So a submission creates at most one
      operation and every successful reply names it. */
  lemma OneSubmissionOneOperation(
    s: State, q: Request, id: Id, at: int, configured: bool, between: seq<Step>, id': Id, at': int, configured': bool)
    requires Base(s) && ClearCompleted(q.owner) !in between
    requires Deliver(s, q, id, at, configured).1.Ok?
    ensures
      var (first, reply) := Deliver(s, q, id, at, configured);
      Deliver(Run(first, between), q, id', at', configured') == (Run(first, between), reply)
  {
    var (first, reply) := Deliver(s, q, id, at, configured);
    ReplyNames(s, q, id, at, configured);
    BaseSubmit(s, id, q.task, q.owner, q.payload, Some(q.key), at, configured);
    AnsweredRun(first, between, q, reply.value);
    BaseRun(first, between);
    DeliverAgain(Run(first, between), q, reply.value, q, id', at', configured');
  }

  /** A delivery that is not answered leaves no trace. */
  lemma RefusedLeavesNoTrace(s: State, q: Request, id: Id, at: int, configured: bool)
    requires Deliver(s, q, id, at, configured).1.Err?
    ensures Deliver(s, q, id, at, configured).0 == s
  {
  }

  // ---------------------------------------------------------------- any number of deliveries

  /** One attempt of a client: what others do before it, and whether the request arrives. */
  datatype Attempt = Attempt(between: seq<Step>, delivered: bool, id: Id, at: int, configured: bool)

  /** The state in which the attempt reaches the server. */
  ghost function Arrives(s: State, a: Attempt): (r: State) { Run(s, a.between) }

  ghost function Reply(s: State, q: Request, a: Attempt): (r: Result<Id, Error>) {
    Deliver(Arrives(s, a), q, a.id, a.at, a.configured).1
  }

  ghost function Try(s: State, q: Request, a: Attempt): (r: State) {
    if a.delivered then Deliver(Arrives(s, a), q, a.id, a.at, a.configured).0 else Arrives(s, a)
  }

  ghost function TryAll(s: State, q: Request, attempts: seq<Attempt>): (r: State) {
    if attempts == [] then s else Try(TryAll(s, q, attempts[..|attempts| - 1]), q, attempts[|attempts| - 1])
  }

  /** Nobody clears the member's history. */
  predicate NoClear(attempts: seq<Attempt>, owner: Id) {
    forall i | 0 <= i < |attempts| :: ClearCompleted(owner) !in attempts[i].between
  }

  lemma TryKeeps(s: State, q: Request, a: Attempt)
    requires Base(s)
    ensures Base(Try(s, q, a))
  {
    BaseRun(s, a.between);
    BaseSubmit(Arrives(s, a), a.id, q.task, q.owner, q.payload, Some(q.key), a.at, a.configured);
  }

  lemma {:induction false} TryAllKeeps(s: State, q: Request, attempts: seq<Attempt>)
    requires Base(s)
    ensures Base(TryAll(s, q, attempts))
  {
    if attempts != [] {
      TryAllKeeps(s, q, attempts[..|attempts| - 1]);
      TryKeeps(TryAll(s, q, attempts[..|attempts| - 1]), q, attempts[|attempts| - 1]);
    }
  }

  lemma TryAnswered(s: State, q: Request, a: Attempt, x: Id)
    requires Base(s) && Answered(s, q, x) && ClearCompleted(q.owner) !in a.between
    ensures Answered(Arrives(s, a), q, x) && Try(s, q, a) == Arrives(s, a) && Reply(s, q, a) == Ok(x)
  {
    AnsweredRun(s, a.between, q, x);
    BaseRun(s, a.between);
    DeliverAgain(Arrives(s, a), q, x, q, a.id, a.at, a.configured);
  }

  lemma {:induction false} TryAllSnoc(s: State, q: Request, attempts: seq<Attempt>, n: nat)
    requires n < |attempts|
    ensures TryAll(s, q, attempts[..n + 1]) == Try(TryAll(s, q, attempts[..n]), q, attempts[n])
  {
    assert attempts[..n + 1][..n] == attempts[..n];
  }

  /** An attempt on top of an answered state leaves it answered. */
  lemma TryStays(s: State, q: Request, a: Attempt, x: Id)
    requires Base(s) && Answered(s, q, x) && ClearCompleted(q.owner) !in a.between
    ensures Answered(Try(s, q, a), q, x)
  {
    TryAnswered(s, q, a, x);
  }

  lemma {:induction false} AnsweredAlong(s: State, q: Request, attempts: seq<Attempt>, x: Id, i: nat, n: nat)
    requires Base(s) && i <= n <= |attempts| && NoClear(attempts, q.owner)
    requires Answered(TryAll(s, q, attempts[..i]), q, x)
    ensures Answered(TryAll(s, q, attempts[..n]), q, x)
  {
    if i < n {
      AnsweredAlong(s, q, attempts, x, i, n - 1);
      AnsweredNext(s, q, attempts, x, n - 1, n);
    }
  }

  lemma {:induction false} AnsweredNext(s: State, q: Request, attempts: seq<Attempt>, x: Id, n: nat, m: nat)
    requires Base(s) && m == n + 1 <= |attempts| && ClearCompleted(q.owner) !in attempts[n].between
    requires Answered(TryAll(s, q, attempts[..n]), q, x)
    ensures Answered(TryAll(s, q, attempts[..m]), q, x)
  {
    TryAllKeeps(s, q, attempts[..n]);
    TryAllSnoc(s, q, attempts, n);
    TryStays(TryAll(s, q, attempts[..n]), q, attempts[n], x);
  }

  /** After a delivery answered with an operation, the key stands for it. */
  lemma {:induction false} AnsweredAt(s: State, q: Request, attempts: seq<Attempt>, i: nat, x: Id)
    requires i < |attempts| && attempts[i].delivered && Reply(TryAll(s, q, attempts[..i]), q, attempts[i]) == Ok(x)
    ensures Answered(TryAll(s, q, attempts[..i + 1]), q, x)
  {
    var before, a := TryAll(s, q, attempts[..i]), attempts[i];
    ReplyNames(Arrives(before, a), q, a.id, a.at, a.configured);
    TryAllSnoc(s, q, attempts, i);
  }

  /** A submission delivered any number of times: once a delivery is answered with an
      operation, every later one gets the same answer and changes nothing; before that, a
      delivery changes nothing. So at most one operation is created. */
  lemma {:induction false} ManyDeliveriesOneOperation(s: State, q: Request, attempts: seq<Attempt>, i: nat, j: nat)
    requires Base(s) && NoClear(attempts, q.owner) && i < j < |attempts|
    requires attempts[i].delivered && attempts[j].delivered
    ensures
      var before, after := TryAll(s, q, attempts[..i]), TryAll(s, q, attempts[..j]);
      if Reply(before, q, attempts[i]).Ok?
      then Reply(after, q, attempts[j]) == Reply(before, q, attempts[i]) && Try(after, q, attempts[j]) == Arrives(after, attempts[j])
      else Try(before, q, attempts[i]) == Arrives(before, attempts[i])
  {
    var before := TryAll(s, q, attempts[..i]);
    var a := attempts[i];
    if Reply(before, q, a).Ok? {
      var x := Reply(before, q, a).value;
      AnsweredAt(s, q, attempts, i, x);
      AnsweredAlong(s, q, attempts, x, i + 1, j);
      TryAllKeeps(s, q, attempts[..j]);
      TryAnswered(TryAll(s, q, attempts[..j]), q, attempts[j], x);
    } else {
      RefusedLeavesNoTrace(Arrives(before, a), q, a.id, a.at, a.configured);
    }
  }
}
