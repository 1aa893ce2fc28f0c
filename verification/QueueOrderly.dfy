/** Orderly runs, exactly: agreement, one first draft, current inputs, matching decisions and
    valid suggestion sets, each with the condition that a run keeps it. The only assumption is
    that ids of new rows are not used twice. */
module QueueOrderly {
  import opened Basics
  import opened Domain
  import opened Documents
  import opened DocumentFacts
  import opened Queue
  import opened QueueInvariant
  import opened QueueAgreement
  import opened QueueDraft
  import opened QueueFreeze
  import opened QueueMerge

  ghost predicate FreshThroughout(s: State, steps: seq<Step>) {
    forall k | 0 <= k < |steps| :: DrawsFresh(Run(s, steps[..k]), steps[k])
  }

  lemma {:induction false} FreshPrefix(s: State, steps: seq<Step>, k: nat)
    requires FreshThroughout(s, steps) && k <= |steps|
    ensures FreshThroughout(s, steps[..k])
  {
    var front := steps[..k];
    forall i | 0 <= i < k ensures DrawsFresh(Run(s, front[..i]), front[i]) { assert front[..i] == steps[..i] && front[i] == steps[i]; }
  }

  /** In every run that draws fresh row ids, rows have distinct ids and what jobs have read
      names the same suggestions. */
  lemma {:induction false} RowsOkAlways(now: int, steps: seq<Step>)
    requires FreshThroughout(Initial(now), steps)
    ensures RowsOk(Run(Initial(now), steps))
  {
    if steps != [] {
      var n := |steps| - 1;
      FreshPrefix(Initial(now), steps, n);
      RowsOkAlways(now, steps[..n]);
      BaseAlways(now, steps[..n]);
      RowsOkStep(Run(Initial(now), steps[..n]), steps[n]);
    }
  }

  // ---------------------------------------------------------------- suggestion sets

  ghost predicate SuggestionsAt(s: State, steps: seq<Step>, k: nat)
    requires k <= |steps|
  {
    SuggestionsAll(Run(s, steps[..k]))
  }

  ghost predicate EnoughAt(s: State, steps: seq<Step>, k: nat)
    requires k < |steps|
  {
    LeavesEnough(Run(s, steps[..k]), steps[k])
  }

  lemma {:induction false} SuggestionsCarried(now: int, steps: seq<Step>, k: nat)
    requires FreshThroughout(Initial(now), steps) && k < |steps| && SuggestionsAt(Initial(now), steps, k)
    ensures SuggestionsAt(Initial(now), steps, k + 1) <==> EnoughAt(Initial(now), steps, k)
  {
    FreshPrefix(Initial(now), steps, k);
    RowsOkAlways(now, steps[..k]);
    BaseAlways(now, steps[..k]);
    RunPrefix(Initial(now), steps, k);
    SuggestionsStepExact(Run(Initial(now), steps[..k]), steps[k]);
  }

  lemma {:induction false} SuggestionsUpTo(now: int, steps: seq<Step>, k: nat)
    requires FreshThroughout(Initial(now), steps) && k <= |steps| && forall i | 0 <= i < |steps| :: EnoughAt(Initial(now), steps, i)
    ensures SuggestionsAt(Initial(now), steps, k)
  {
    if k > 0 {
      SuggestionsUpTo(now, steps, k - 1);
      SuggestionsCarried(now, steps, k - 1);
    }
  }

  /** Over every run: every analysis has none or five to eight suggestions with distinct keys in
      all states iff every saved merge leaves none or at least five. */
  lemma {:induction false} SuggestionsExact(now: int, steps: seq<Step>)
    requires FreshThroughout(Initial(now), steps)
    ensures (forall k | 0 <= k <= |steps| :: SuggestionsAt(Initial(now), steps, k)) <==>
            (forall k | 0 <= k < |steps| :: EnoughAt(Initial(now), steps, k))
  {
    if forall k | 0 <= k < |steps| :: EnoughAt(Initial(now), steps, k) {
      forall k | 0 <= k <= |steps| ensures SuggestionsAt(Initial(now), steps, k) { SuggestionsUpTo(now, steps, k); }
    }
    if forall k | 0 <= k <= |steps| :: SuggestionsAt(Initial(now), steps, k) {
      forall k | 0 <= k < |steps| ensures EnoughAt(Initial(now), steps, k) {
        assert SuggestionsAt(Initial(now), steps, k) && SuggestionsAt(Initial(now), steps, k + 1);
        SuggestionsCarried(now, steps, k);
      }
    }
  }

  /** In every reachable state: a step gives an analysis that has suggestions more of them iff it
      saves a merge whose fixed rows still there and replacements outnumber them. */
  lemma {:induction false} GrowsExact(now: int, steps: seq<Step>, step: Step, t: Id, a: Id)
    requires FreshThroughout(Initial(now), steps)
    requires t in Run(Initial(now), steps).docs && RowsOf(Run(Initial(now), steps).docs[t].suggestions, a) != []
    ensures
      var s := Run(Initial(now), steps);
      var before := |RowsOf(s.docs[t].suggestions, a)|;
      && t in Next(s, step).docs
      && (|RowsOf(Next(s, step).docs[t].suggestions, a)| > before <==>
            Answers(s, step, t) && Merges(s, step) && s.ops[Writes(s, step).value].payload.analysis == a && SizeAfter(s, step) > before)
  {
    BaseAlways(now, steps);
    RowsOkAlways(now, steps);
    GrowsIff(Run(Initial(now), steps), step, t, a);
  }

  // ---------------------------------------------------------------- orderly runs

  /** The exact condition under which a step keeps an orderly state orderly. */
  ghost predicate Sound(s: State, step: Step) {
    Guard(s, step) && DraftGuard(s, step) && LeavesEnough(s, step)
  }

  lemma OrderlyKept(s: State, step: Step)
    requires Orderly(s) && RowsOk(s) && Sound(s, step)
    ensures Orderly(Next(s, step))
  {
    var r := Next(s, step);
    BaseStep(s, step);
    AgreeStep(s, step);
    DraftStep(s, step);
    SuggestionsStepExact(s, step);
    forall k | k in r.jobs ensures JobFrozen(r, k) { FrozenJobsStep(s, step, k); }
    forall i | i in r.ops && ActiveOp(r.ops[i]) ensures r.ops[i].task in r.docs && DecisionsMatch(r, i) { DecisionsStep(s, step, i); }
  }

  lemma OrderlyStepExact(s: State, step: Step)
    requires Orderly(s) && RowsOk(s)
    ensures Orderly(Next(s, step)) <==> Sound(s, step)
  {
    if Sound(s, step) {
      OrderlyKept(s, step);
    } else {
      AgreeStep(s, step);
      DraftStep(s, step);
      SuggestionsStepExact(s, step);
    }
  }

  ghost predicate OrderlyAt(s: State, steps: seq<Step>, k: nat)
    requires k <= |steps|
  {
    Orderly(Run(s, steps[..k]))
  }

  ghost predicate SoundAt(s: State, steps: seq<Step>, k: nat)
    requires k < |steps|
  {
    Sound(Run(s, steps[..k]), steps[k])
  }

  lemma {:induction false} OrderlyCarried(now: int, steps: seq<Step>, k: nat)
    requires FreshThroughout(Initial(now), steps) && k < |steps| && OrderlyAt(Initial(now), steps, k)
    ensures OrderlyAt(Initial(now), steps, k + 1) <==> SoundAt(Initial(now), steps, k)
  {
    FreshPrefix(Initial(now), steps, k);
    RowsOkAlways(now, steps[..k]);
    RunPrefix(Initial(now), steps, k);
    OrderlyStepExact(Run(Initial(now), steps[..k]), steps[k]);
  }

  lemma {:induction false} OrderlyUpTo(now: int, steps: seq<Step>, k: nat)
    requires FreshThroughout(Initial(now), steps) && k <= |steps| && forall i | 0 <= i < |steps| :: SoundAt(Initial(now), steps, i)
    ensures OrderlyAt(Initial(now), steps, k)
  {
    if k == 0 {
      InitialOrderly(now);
    } else {
      OrderlyUpTo(now, steps, k - 1);
      OrderlyCarried(now, steps, k - 1);
    }
  }

  /** Over every run: all states are orderly iff every step meets the guard of agreement, the
      guard of the first draft and the condition on merges. */
  lemma {:induction false} OrderlyExact(now: int, steps: seq<Step>)
    requires FreshThroughout(Initial(now), steps)
    ensures (forall k | 0 <= k <= |steps| :: OrderlyAt(Initial(now), steps, k)) <==>
            (forall k | 0 <= k < |steps| :: SoundAt(Initial(now), steps, k))
  {
    if forall k | 0 <= k < |steps| :: SoundAt(Initial(now), steps, k) {
      forall k | 0 <= k <= |steps| ensures OrderlyAt(Initial(now), steps, k) { OrderlyUpTo(now, steps, k); }
    }
    if forall k | 0 <= k <= |steps| :: OrderlyAt(Initial(now), steps, k) {
      forall k | 0 <= k < |steps| ensures SoundAt(Initial(now), steps, k) {
        assert OrderlyAt(Initial(now), steps, k) && OrderlyAt(Initial(now), steps, k + 1);
        OrderlyCarried(now, steps, k);
      }
    }
  }
}
