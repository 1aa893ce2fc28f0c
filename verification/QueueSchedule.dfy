/** Conditions a deployer can check, in place of conditions on what a write finds: results
    arrive within the stale window, a failed run is cleaned up at once, and no shutdown
    interrupts a run that has just committed. */
module QueueSchedule {
  import opened Basics
  import opened Domain
  import opened Documents
  import opened DocumentFacts
  import opened AiLimits
  import opened Queue
  import opened QueueInvariant
  import opened QueueAgreement
  import opened QueueFreeze
  import opened QueueOneWorker
  import opened QueueClaims

  // ---------------------------------------------------------------- the stale window

  /** A claimed run writes its result within the stale window of its claim. */
  predicate Timely(s: State, step: Step) {
    Writes(s, step).Some? ==> s.now <= s.ops[Writes(s, step).value].started + STALE_SECONDS
  }

  /** A timely write of a run that has not committed yet finds its operation running. */
  lemma TimelyFindsRunning(s: State, step: Step)
    requires ClaimsOk(s) && Writes(s, step).Some? && Timely(s, step)
    ensures s.ops[Writes(s, step).value].status == Running <==> !IsSaved(s, step.worker, step.owner)
  {
    assert ClaimOk(s, (step.worker, step.owner));
  }

  /** With any number of workers, a timely step is live iff it is no late shutdown and no
      unjustified clean-up. */
  lemma TimelyLive(s: State, step: Step)
    requires ClaimsOk(s) && Timely(s, step)
    ensures Live(s, step) <==> CleanupJustified(s, step) && !CancelsSaved(s, step)
  {
    if Writes(s, step).Some? { TimelyFindsRunning(s, step); }
    SavedWrites(s, step);
  }

  /** After the success commit only a shutdown still writes. */
  lemma SavedWrites(s: State, step: Step)
    requires ClaimsOk(s)
    ensures CancelsSaved(s, step) <==> WriterStep(step) && Writes(s, step).Some? && IsSaved(s, step.worker, step.owner)
  {
    if WriterStep(step) {
      var k := (step.worker, step.owner);
      assert k in s.jobs ==> ClaimOk(s, k);
    }
  }

  // ---------------------------------------------------------------- prompt clean-ups

  lemma BrokenByOwnStep(s: State, step: Step, w: Id, o: Id)
    requires !IsBroken(s, w, o) && IsBroken(Next(s, step), w, o)
    ensures (step.Prepare? || step.Claim? || step.Respond? || step.RunError?) && step.worker == w && step.owner == o
  {
    if !step.Tick? && !((step.Prepare? || step.Claim? || step.Respond? || step.RunError?) && (w, o) == (step.worker, step.owner)) {
      OtherJobsKept(s, step, (w, o));
    }
  }

  /** A run that breaks leaves its operation queued, or its document no longer showing it. */
  lemma JustBroken(s: State, step: Step, w: Id, o: Id)
    requires Base(s) && !IsBroken(s, w, o) && IsBroken(Next(s, step), w, o)
    ensures CleanupJustified(Next(s, step), Cleanup(w, o))
  {
    BrokenByOwnStep(s, step, w, o);
    var id := s.jobs[(w, o)].op;
    if id in s.ops {
      assert OpOk(s, id);
      SubmissionStates(s.ops[id].initial, KindOf(s.ops[id].payload));
    }
    var early := step.Prepare? || step.Claim?;
    if early { BrokenEarly(s, step, id); } else { BrokenLate(s, step, id); }
  }

  lemma BrokenEarly(s: State, step: Step, id: Id)
    requires (step.Prepare? || step.Claim?) && (step.worker, step.owner) in s.jobs && s.jobs[(step.worker, step.owner)].op == id
    requires !IsBroken(s, step.worker, step.owner) && IsBroken(Next(s, step), step.worker, step.owner)
    ensures CleanupJustified(Next(s, step), Cleanup(step.worker, step.owner))
  {
  }

  lemma BrokenLate(s: State, step: Step, id: Id)
    requires (step.Respond? || step.RunError?) && (step.worker, step.owner) in s.jobs && s.jobs[(step.worker, step.owner)].op == id
    requires id in s.ops ==> s.ops[id].task in s.docs && s.ops[id].initial != Shown(s.ops[id])
    requires !IsBroken(s, step.worker, step.owner) && IsBroken(Next(s, step), step.worker, step.owner)
    ensures CleanupJustified(Next(s, step), Cleanup(step.worker, step.owner))
  {
  }

  /** The broken job, the row of its operation and its document are in `r` as they are in `s`. */
  predicate SameFor(s: State, r: State, w: Id, o: Id) {
    && IsBroken(s, w, o) && IsBroken(r, w, o) && r.jobs[(w, o)].op == s.jobs[(w, o)].op
    && var id := s.jobs[(w, o)].op;
    && (id in r.ops <==> id in s.ops)
    && (id in s.ops ==>
          && r.ops[id] == s.ops[id] && (s.ops[id].task in r.docs <==> s.ops[id].task in s.docs)
          && (s.ops[id].task in s.docs ==> r.docs[s.ops[id].task] == s.docs[s.ops[id].task]))
  }

  /** The run at `k` broke in step `j`, and no step in between touched its operation or the
      document of it; steps on anything else do not matter. */
  ghost predicate BrokeAt(s: State, steps: seq<Step>, k: nat, j: nat, w: Id, o: Id)
    requires j < k < |steps|
  {
    !IsBroken(Run(s, steps[..j]), w, o) && SameFor(Run(s, steps[..j + 1]), Run(s, steps[..k]), w, o)
  }

  /** Every clean-up finds its operation and document as the step that broke its run left them. */
  ghost predicate PromptCleanups(s: State, steps: seq<Step>) {
    forall k | 0 <= k < |steps| && steps[k].Cleanup? && IsBroken(Run(s, steps[..k]), steps[k].worker, steps[k].owner) ::
      exists j :: 0 <= j < k && BrokeAt(s, steps, k, j, steps[k].worker, steps[k].owner)
  }

  lemma StillJustified(s: State, r: State, w: Id, o: Id)
    requires SameFor(s, r, w, o) && CleanupJustified(s, Cleanup(w, o))
    ensures CleanupJustified(r, Cleanup(w, o))
  {
  }

  /** With any number of workers a prompt clean-up is justified. */
  lemma {:induction false} PromptJustified(now: int, steps: seq<Step>, k: nat)
    requires PromptCleanups(Initial(now), steps) && k < |steps|
    ensures CleanupJustified(Run(Initial(now), steps[..k]), steps[k])
  {
    var step := steps[k];
    if step.Cleanup? && IsBroken(Run(Initial(now), steps[..k]), step.worker, step.owner) {
      var j :| 0 <= j < k && BrokeAt(Initial(now), steps, k, j, step.worker, step.owner);
      BrokenJustified(now, steps, k, j, step.worker, step.owner);
    }
  }

  lemma {:induction false} BrokenJustified(now: int, steps: seq<Step>, k: nat, j: nat, w: Id, o: Id)
    requires j < k < |steps| && BrokeAt(Initial(now), steps, k, j, w, o)
    ensures CleanupJustified(Run(Initial(now), steps[..k]), Cleanup(w, o))
  {
    BaseAlways(now, steps[..j]);
    RunPrefix(Initial(now), steps, j);
    JustBroken(Run(Initial(now), steps[..j]), steps[j], w, o);
    StillJustified(Run(Initial(now), steps[..j + 1]), Run(Initial(now), steps[..k]), w, o);
  }

  // ---------------------------------------------------------------- whole runs

  /** No shutdown interrupts a run between its success commit and its return. */
  ghost predicate NoLateShutdown(s: State, steps: seq<Step>) {
    forall k | 0 <= k < |steps| :: !CancelsSaved(Run(s, steps[..k]), steps[k])
  }

  ghost predicate TimelyThroughout(s: State, steps: seq<Step>) {
    forall k | 0 <= k < |steps| :: Timely(Run(s, steps[..k]), steps[k])
  }

  lemma {:induction false} ScheduledLive(now: int, steps: seq<Step>, k: nat)
    requires PromptCleanups(Initial(now), steps) && k < |steps|
    requires Timely(Run(Initial(now), steps[..k]), steps[k]) && !CancelsSaved(Run(Initial(now), steps[..k]), steps[k])
    ensures Live(Run(Initial(now), steps[..k]), steps[k])
  {
    PromptJustified(now, steps, k);
    ClaimsAlways(now, steps[..k]);
    TimelyLive(Run(Initial(now), steps[..k]), steps[k]);
  }

  /** Any number of workers: if every claimed run writes within the stale window, clean-ups are
      prompt and no shutdown is late, every state is orderly. */
  lemma {:induction false} ManyWorkersOrderly(now: int, steps: seq<Step>)
    requires TimelyThroughout(Initial(now), steps) && PromptCleanups(Initial(now), steps) && NoLateShutdown(Initial(now), steps)
    ensures Orderly(Run(Initial(now), steps))
  {
    forall k | 0 <= k < |steps| ensures Live(Run(Initial(now), steps[..k]), steps[k]) {
      ScheduledLive(now, steps, k);
    }
    OrderlyAlways(now, steps);
  }

  /** One worker: prompt clean-ups and no late shutdown are enough, however long calls take. */
  lemma {:induction false} OneWorkerScheduled(now: int, steps: seq<Step>, w: Id)
    requires ByThroughout(steps, w) && PromptCleanups(Initial(now), steps) && NoLateShutdown(Initial(now), steps)
    ensures Orderly(Run(Initial(now), steps))
  {
    forall k | 0 <= k < |steps|
      ensures CleanupJustified(Run(Initial(now), steps[..k]), steps[k]) && !CancelsSaved(Run(Initial(now), steps[..k]), steps[k])
    {
      PromptJustified(now, steps, k);
    }
    OneWorkerOrderly(now, steps, w);
  }
}
