/** Concrete runs in which the code falls short of its intent, at least one for each unchecked
    write: the provisos of the other results are needed. */
module QueueBadRuns {
  import opened Basics
  import opened Domain
  import opened Documents
  import opened DocumentFacts
  import opened Queue
  import opened QueueInvariant
  import opened QueueAgreement
  import opened QueueDraft
  import opened QueueOneWorker

  const MEMBER: Id := 1
  const TASK: Id := 0

  function Page(state: TaskState): (doc: Doc) {
    Doc(MEMBER, "text", "settings", state, None, [], [], [], [], None)
  }

  function Work(status: OperationStatus, at: int, started: int): (op: Op) {
    Op(MEMBER, TASK, AnalysisPayload, status, None, at, Draft, started)
  }

  /** `tick` with one queued operation and no job of this worker picks it. */
  lemma TickPicks(s: State, worker: Id, id: Id)
    requires id in s.ops && s.ops[id].status == Queued && s.ops[id].owner == MEMBER && (worker, MEMBER) !in s.jobs
    requires forall i | i in s.ops && ActiveOp(s.ops[i]) :: i == id
    ensures Next(s, Tick(worker, map[MEMBER := id])) == s.(jobs := s.jobs[(worker, MEMBER) := Job(id, Started)])
  {
    var picks := map[MEMBER := id];
    OnlyPick(s, worker, id);
    var keys := set o | o in picks :: (worker, o);
    assert MEMBER in picks;
    assert keys == {(worker, MEMBER)};
    assert Next(s, Tick(worker, picks)).jobs == s.jobs[(worker, MEMBER) := Job(id, Started)];
  }

  lemma OnlyPick(s: State, worker: Id, id: Id)
    requires id in s.ops && s.ops[id].status == Queued && s.ops[id].owner == MEMBER && (worker, MEMBER) !in s.jobs
    requires forall i | i in s.ops && ActiveOp(s.ops[i]) :: i == id
    ensures PicksOk(s, worker, map[MEMBER := id])
  {
    assert IsOldestActive(s.ops, id);
    assert HasWork(s.ops, MEMBER);
  }

  lemma SubmitsTo(s: State, id: Id, at: int)
    requires TASK in s.docs && s.docs[TASK] == Page(Draft) && id !in s.issued && !HasActive(s.ops, TASK)
    ensures Next(s, Submit(id, TASK, MEMBER, AnalysisPayload, None, at, true)) ==
            s.(docs := s.docs[TASK := Page(Analyzing)], ops := s.ops[id := Work(Queued, at, 0)], issued := s.issued + {id})
  {
  }

  lemma PreparesTo(s: State, w: Id, ready: bool)
    requires s.docs == map[TASK := Page(Analyzing)] && s.ops == map[7 := Work(Queued, 5, 0)]
    requires (w, MEMBER) in s.jobs && s.jobs[(w, MEMBER)] == Job(7, Started)
    ensures Next(s, Prepare(w, MEMBER, ready)) ==
            s.(jobs := s.jobs[(w, MEMBER) := Job(7, if ready then Prepared(Page(Analyzing)) else Broken)])
  {
  }

  lemma ClaimsTo(s: State, w: Id)
    requires s.docs == map[TASK := Page(Analyzing)] && s.ops == map[7 := Work(Queued, 5, 0)] && s.now == 0
    requires (w, MEMBER) in s.jobs && s.jobs[(w, MEMBER)] == Job(7, Prepared(Page(Analyzing)))
    ensures Next(s, Claim(w, MEMBER, true)) ==
            s.(ops := map[7 := Work(Running, 5, 0)], jobs := s.jobs[(w, MEMBER) := Job(7, Calling(Page(Analyzing)))])
  {
  }

  /** One document with one queued operation. */
  function QueuedState(): (s: State) {
    State(map[TASK := Page(Analyzing)], map[7 := Work(Queued, 5, 0)], map[], {7}, 0)
  }

  lemma RunToQueued() returns (steps: seq<Step>)
    ensures Run(Initial(0), steps) == QueuedState()
  {
    var create := CreateTask(TASK, MEMBER, "text", "settings");
    var submit := Submit(7, TASK, MEMBER, AnalysisPayload, None, 5, true);
    var s1 := Initial(0).(docs := map[TASK := Page(Draft)]);
    assert Next(Initial(0), create) == s1;
    RunSnoc(Initial(0), [], create);
    SubmitsTo(s1, 7, 5);
    RunSnoc(Initial(0), [create], submit);
    assert [] + [create] == [create];
    steps := [create] + [submit];
  }

  lemma RunToPicked(before: seq<Step>, s: State, worker: Id) returns (steps: seq<Step>)
    requires Run(Initial(0), before) == s && s.ops == map[7 := Work(Queued, 5, 0)] && (worker, MEMBER) !in s.jobs
    ensures Run(Initial(0), steps) == s.(jobs := s.jobs[(worker, MEMBER) := Job(7, Started)])
  {
    TickPicks(s, worker, 7);
    RunSnoc(Initial(0), before, Tick(worker, map[MEMBER := 7]));
    steps := before + [Tick(worker, map[MEMBER := 7])];
  }

  /** Worker `w` prepares and claims the picked operation. */
  lemma RunToCalling(before: seq<Step>, s: State, w: Id) returns (steps: seq<Step>)
    requires Run(Initial(0), before) == s && s.now == 0
    requires s.docs == map[TASK := Page(Analyzing)] && s.ops == map[7 := Work(Queued, 5, 0)]
    requires (w, MEMBER) in s.jobs && s.jobs[(w, MEMBER)] == Job(7, Started)
    ensures Run(Initial(0), steps) ==
            s.(ops := map[7 := Work(Running, 5, 0)], jobs := s.jobs[(w, MEMBER) := Job(7, Calling(Page(Analyzing)))])
  {
    PreparesTo(s, w, true);
    RunSnoc(Initial(0), before, Prepare(w, MEMBER, true));
    var prepared := s.(jobs := s.jobs[(w, MEMBER) := Job(7, Prepared(Page(Analyzing)))]);
    ClaimsTo(prepared, w);
    RunSnoc(Initial(0), before + [Prepare(w, MEMBER, true)], Claim(w, MEMBER, true));
    steps := before + [Prepare(w, MEMBER, true)] + [Claim(w, MEMBER, true)];
    assert prepared.jobs[(w, MEMBER) := Job(7, Calling(Page(Analyzing)))] == s.jobs[(w, MEMBER) := Job(7, Calling(Page(Analyzing)))];
  }

  lemma CleanupBreaks(s: State)
    requires s.docs == map[TASK := Page(Analyzing)] && s.ops == map[7 := Work(Running, 5, 0)]
    requires (1, MEMBER) in s.jobs && s.jobs[(1, MEMBER)] == Job(7, Broken)
    ensures !Agree(Next(s, Cleanup(1, MEMBER)))
  {
    var r := Next(s, Cleanup(1, MEMBER));
    assert r.docs[TASK].state == Draft && r.ops[7].status == Running;
    assert !AgreeAt(r, TASK);
  }

  /** The clean-up resets a document another worker is working on: worker 1 fails during
      preparation, worker 2 claims the operation, then worker 1 cleans up. */
  lemma CleanupStrandsRunningOperation() returns (steps: seq<Step>)
    ensures !Agree(Run(Initial(0), steps))
  {
    steps := RunToQueued();
    steps := RunToPicked(steps, QueuedState(), 1);
    var s1 := QueuedState().(jobs := QueuedState().jobs[(1, MEMBER) := Job(7, Started)]);
    steps := RunToPicked(steps, s1, 2);
    var s2 := s1.(jobs := s1.jobs[(2, MEMBER) := Job(7, Started)]);
    PreparesTo(s2, 1, false);
    RunSnoc(Initial(0), steps, Prepare(1, MEMBER, false));
    steps := steps + [Prepare(1, MEMBER, false)];
    var s3 := s2.(jobs := s2.jobs[(1, MEMBER) := Job(7, Broken)]);
    steps := RunToCalling(steps, s3, 2);
    var s4 := s3.(ops := map[7 := Work(Running, 5, 0)], jobs := s3.jobs[(2, MEMBER) := Job(7, Calling(Page(Analyzing)))]);
    CleanupBreaks(s4);
    RunSnoc(Initial(0), steps, Cleanup(1, MEMBER));
    steps := steps + [Cleanup(1, MEMBER)];
  }

  lemma CancelsTo(s: State)
    requires s.docs == map[TASK := Page(Analyzing)] && s.ops == map[7 := Work(Queued, 5, 0)]
    ensures Next(s, CancelQueued(MEMBER, 7)) == s.(docs := map[TASK := Page(Draft)], ops := map[7 := Work(Cancelled, 5, 0)])
  {
  }

  lemma LateCleanupBreaks(s: State)
    requires TASK in s.docs && s.docs[TASK] == Page(Analyzing) && 7 in s.ops && 8 in s.ops
    requires s.ops[7] == Work(Cancelled, 5, 0) && s.ops[8] == Work(Queued, 900, 0)
    requires (1, MEMBER) in s.jobs && s.jobs[(1, MEMBER)] == Job(7, Broken)
    ensures !Agree(Next(s, Cleanup(1, MEMBER)))
  {
    var r := Next(s, Cleanup(1, MEMBER));
    assert r.docs[TASK].state == Draft && r.ops[8].status == Queued;
    assert !AgreeAt(r, TASK);
  }

  /** One more step of worker 1 or of a client. */
  lemma {:induction false} Extend(before: seq<Step>, s: State, step: Step, r: State) returns (steps: seq<Step>)
    requires Run(Initial(0), before) == s && Next(s, step) == r && ByThroughout(before, 1) && By(step, 1)
    ensures Run(Initial(0), steps) == r && ByThroughout(steps, 1)
  {
    RunSnoc(Initial(0), before, step);
    steps := before + [step];
  }

  /** Worker 1 picks the first operation and fails during its preparation. */
  lemma RunToBroken() returns (steps: seq<Step>, s: State)
    ensures Run(Initial(0), steps) == s && ByThroughout(steps, 1)
    ensures s == QueuedState().(jobs := map[(1, MEMBER) := Job(7, Broken)])
  {
    var s0 := Initial(0).(docs := map[TASK := Page(Draft)]);
    var create := CreateTask(TASK, MEMBER, "text", "settings");
    assert Next(Initial(0), create) == s0;
    steps := Extend([], Initial(0), create, s0);
    SubmitsTo(s0, 7, 5);
    steps := Extend(steps, s0, Submit(7, TASK, MEMBER, AnalysisPayload, None, 5, true), QueuedState());
    TickPicks(QueuedState(), 1, 7);
    var s1 := QueuedState().(jobs := map[(1, MEMBER) := Job(7, Started)]);
    steps := Extend(steps, QueuedState(), Tick(1, map[MEMBER := 7]), s1);
    s := QueuedState().(jobs := map[(1, MEMBER) := Job(7, Broken)]);
    PreparesTo(s1, 1, false);
    steps := Extend(steps, s1, Prepare(1, MEMBER, false), s);
  }

  /** One worker is enough: its run fails during preparation, the member cancels and submits
      again, and the clean-up resets the document of the new operation. */
  lemma CleanupStrandsNextOperation() returns (steps: seq<Step>)
    ensures ByThroughout(steps, 1) && !Agree(Run(Initial(0), steps))
  {
    var broken: State;
    steps, broken := RunToBroken();
    var idle := broken.(docs := map[TASK := Page(Draft)], ops := map[7 := Work(Cancelled, 5, 0)]);
    CancelsTo(broken);
    steps := Extend(steps, broken, CancelQueued(MEMBER, 7), idle);
    var again := Submit(8, TASK, MEMBER, AnalysisPayload, None, 900, true);
    var resubmitted := Next(idle, again);
    SubmitsTo(idle, 8, 900);
    steps := Extend(steps, idle, again, resubmitted);
    LateCleanupBreaks(resubmitted);
    steps := Extend(steps, resubmitted, Cleanup(1, MEMBER), Next(resubmitted, Cleanup(1, MEMBER)));
  }

  lemma RecoversTo(s: State)
    requires s.docs == map[TASK := Page(Analyzing)] && s.ops == map[7 := Work(Running, 5, 0)] && s.now == 721
    requires (2, MEMBER) !in s.jobs
    ensures Next(s, RecoverStale(2, MEMBER, [7])) == s.(ops := map[7 := Work(Failed, 5, 0)], docs := map[TASK := Page(Draft)])
  {
    assert Stale(s, MEMBER, 7);
    assert Recover(s, []) == s;
    assert [7][..0] == [];
  }

  lemma LateAnswerBreaks(s: State)
    requires TASK in s.docs && s.docs[TASK] == Page(Analyzing) && 7 in s.ops && 8 in s.ops
    requires s.ops[7] == Work(Failed, 5, 0) && s.ops[8] == Work(Queued, 900, 0)
    requires (1, MEMBER) in s.jobs && s.jobs[(1, MEMBER)] == Job(7, Calling(Page(Analyzing)))
    ensures !Agree(Next(s, Respond(1, MEMBER, TextReply("analysis"), [40])))
  {
    var r := Next(s, Respond(1, MEMBER, TextReply("analysis"), [40]));
    assert r.docs[TASK].state == AnalysisReady && r.ops[8].status == Queued;
    assert !AgreeAt(r, TASK);
  }

  lemma PassesTo(s: State, seconds: nat)
    ensures Next(s, Pass(seconds)) == s.(now := s.now + seconds)
  {
  }

  /** The running call outlives the stale window and is recovered. */
  lemma RunToRecovered(before: seq<Step>, s: State) returns (steps: seq<Step>)
    requires Run(Initial(0), before) == s && s.now == 0 && (2, MEMBER) !in s.jobs
    requires s.docs == map[TASK := Page(Analyzing)] && s.ops == map[7 := Work(Running, 5, 0)]
    ensures Run(Initial(0), steps) ==
            s.(now := 721, ops := map[7 := Work(Failed, 5, 0)], docs := map[TASK := Page(Draft)])
  {
    var later := s.(now := 721);
    PassesTo(s, 721);
    RunSnoc(Initial(0), before, Pass(721));
    steps := before + [Pass(721)];
    assert Run(Initial(0), steps) == later;
    RecoversTo(later);
    RunSnoc(Initial(0), steps, RecoverStale(2, MEMBER, [7]));
    steps := steps + [RecoverStale(2, MEMBER, [7])];
  }

  /** The member submits again. */
  lemma RunToResubmitted(before: seq<Step>, s: State) returns (steps: seq<Step>)
    requires Run(Initial(0), before) == s && s.issued == {7}
    requires s.docs == map[TASK := Page(Draft)] && s.ops == map[7 := Work(Failed, 5, 0)]
    ensures
      var r := Run(Initial(0), steps);
      && TASK in r.docs && r.docs[TASK] == Page(Analyzing) && 7 in r.ops && 8 in r.ops
      && r.ops[7] == Work(Failed, 5, 0) && r.ops[8] == Work(Queued, 900, 0) && r.jobs == s.jobs
  {
    var submit := Submit(8, TASK, MEMBER, AnalysisPayload, None, 900, true);
    SubmitsTo(s, 8, 900);
    RunSnoc(Initial(0), before, submit);
    steps := before + [submit];
  }

  /** A late success: the run outlives the stale window, is recovered, the member submits
      again, and then the first answer arrives and takes the document away from the second
      operation. */
  lemma LateSuccessStrandsQueuedOperation() returns (steps: seq<Step>)
    ensures !Agree(Run(Initial(0), steps))
  {
    steps := RunToQueued();
    steps := RunToPicked(steps, QueuedState(), 1);
    var s1 := QueuedState().(jobs := QueuedState().jobs[(1, MEMBER) := Job(7, Started)]);
    steps := RunToCalling(steps, s1, 1);
    steps := RunToRecovered(steps, Run(Initial(0), steps));
    steps := RunToResubmitted(steps, Run(Initial(0), steps));
    LateAnswerBreaks(Run(Initial(0), steps));
    RunSnoc(Initial(0), steps, Respond(1, MEMBER, TextReply("analysis"), [40]));
    steps := steps + [Respond(1, MEMBER, TextReply("analysis"), [40])];
  }

  lemma CancelKeepsRow(s: State)
    requires s.docs == map[TASK := Page(Analyzing)] && s.ops == map[7 := Work(Running, 5, 0)]
    requires (1, MEMBER) in s.jobs && s.jobs[(1, MEMBER)] == Job(7, Calling(Page(Analyzing)))
    ensures
      var saved := Next(s, Respond(1, MEMBER, TextReply("analysis"), [40]));
      var r := Next(saved, CancelRun(1, MEMBER));
      && saved.docs.Keys == {TASK} && saved.docs[TASK].state == AnalysisReady && saved.ops.Keys == {7} && saved.ops[7].status == Succeeded
      && r.docs.Keys == {TASK} && r.docs[TASK].state == Draft && |r.docs[TASK].analyses| == 1
      && r.ops.Keys == {7} && r.ops[7].status == Cancelled
  {
    AnswerSaves(s);
    CancelAfterSave(Next(s, Respond(1, MEMBER, TextReply("analysis"), [40])));
  }

  lemma AnswerSaves(s: State)
    requires s.docs == map[TASK := Page(Analyzing)] && s.ops == map[7 := Work(Running, 5, 0)]
    requires (1, MEMBER) in s.jobs && s.jobs[(1, MEMBER)] == Job(7, Calling(Page(Analyzing)))
    ensures
      var saved := Next(s, Respond(1, MEMBER, TextReply("analysis"), [40]));
      && saved.docs.Keys == {TASK} && saved.docs[TASK].state == AnalysisReady && |saved.docs[TASK].analyses| == 1
      && saved.ops == map[7 := Work(Succeeded, 5, 0)] && (1, MEMBER) in saved.jobs && saved.jobs[(1, MEMBER)] == Job(7, Saved)
  {
  }

  lemma CancelAfterSave(s: State)
    requires s.docs.Keys == {TASK} && |s.docs[TASK].analyses| == 1 && s.ops == map[7 := Work(Succeeded, 5, 0)]
    requires (1, MEMBER) in s.jobs && s.jobs[(1, MEMBER)] == Job(7, Saved)
    ensures
      var r := Next(s, CancelRun(1, MEMBER));
      && r.docs.Keys == {TASK} && r.docs[TASK].state == Draft && |r.docs[TASK].analyses| == 1
      && r.ops.Keys == {7} && r.ops[7].status == Cancelled
  {
  }

  /** A shutdown right after the success commit: the operation is recorded as cancelled and the
      document goes back to its initial state, although the result was saved and stays. */
  lemma ShutdownUndoesSuccess() returns (steps: seq<Step>)
    ensures
      var s := Run(Initial(0), steps);
      && TASK in s.docs && s.docs[TASK].state == Draft && |s.docs[TASK].analyses| == 1
      && 7 in s.ops && s.ops[7].status == Cancelled
  {
    steps := RunToQueued();
    steps := RunToPicked(steps, QueuedState(), 1);
    var s1 := QueuedState().(jobs := QueuedState().jobs[(1, MEMBER) := Job(7, Started)]);
    steps := RunToCalling(steps, s1, 1);
    var s2 := Run(Initial(0), steps);
    CancelKeepsRow(s2);
    RunSnoc(Initial(0), steps, Respond(1, MEMBER, TextReply("analysis"), [40]));
    steps := steps + [Respond(1, MEMBER, TextReply("analysis"), [40])];
    RunSnoc(Initial(0), steps, CancelRun(1, MEMBER));
    steps := steps + [CancelRun(1, MEMBER)];
  }

  /** The same shutdown after a first draft: whenever the draft was saved and the run has not
      yet returned, it leaves a document with a draft in a state that allows another one. */
  lemma ShutdownOrphansDraft(s: State, w: Id, o: Id)
    requires Base(s) && DraftAll(s) && IsSaved(s, w, o) && s.jobs[(w, o)].op in s.ops
    requires
      var op := s.ops[s.jobs[(w, o)].op];
      KindOf(op.payload) == FirstDraft && op.task in s.docs && Drafted(Effective(s.docs[op.task]))
    ensures !DraftAll(Next(s, CancelRun(w, o)))
  {
    var id := s.jobs[(w, o)].op;
    assert OpOk(s, id);
    SubmissionStates(s.ops[id].initial, FirstDraft);
    DraftCancelStep(s, CancelRun(w, o));
  }
}
