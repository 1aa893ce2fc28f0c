/** The queue's promises to its members, each over every run from the empty system. */
module QueueTheorems {
  import opened Basics
  import opened Domain
  import opened Validation
  import opened Documents
  import opened DocumentFacts
  import opened Queue
  import opened QueueInvariant
  import opened QueueAgreement
  import opened QueueFifo
  import opened QueueDraft
  import opened QueueFreeze
  import opened QueueMerge
  import opened QueueOrderly

  /** Submissions in order: a running operation precedes everything else its member has
      waiting or running; in particular the member has no second running operation. */
  lemma {:induction false} RunningIsOldest(now: int, steps: seq<Step>, i: Id, j: Id)
    requires InOrderThroughout(Initial(now), steps)
    requires
      var ops := Run(Initial(now), steps).ops;
      && i in ops && j in ops && ops[i].owner == ops[j].owner && i != j
      && ops[i].status == Running && ActiveOp(ops[j])
    ensures
      var ops := Run(Initial(now), steps).ops;
      Before(i, ops[i], j, ops[j]) && ops[j].status == Queued
  {
    InitialBase(now);
    FifoUpTo(Initial(now), steps, |steps|);
    assert steps[..|steps|] == steps;
    var s := Run(Initial(now), steps);
    if s.ops[j].status == Running { OneRunning(s, i, j); }
  }

  /** ... and when a claim succeeds, everything the member submitted earlier has ended. */
  lemma {:induction false} ClaimsFollowSubmissions(now: int, steps: seq<Step>, w: Id, o: Id, id: Id, earlier: Id)
    requires InOrderThroughout(Initial(now), steps)
    requires
      var s := Run(Initial(now), steps);
      && IsPrepared(s, w, o) && s.jobs[(w, o)].op == id && id in s.ops && s.ops[id].status == Queued
      && earlier in s.ops && s.ops[earlier].owner == s.ops[id].owner && Before(earlier, s.ops[earlier], id, s.ops[id])
    ensures !ActiveOp(Run(Initial(now), steps).ops[earlier])
  {
    InitialBase(now);
    FifoUpTo(Initial(now), steps, |steps|);
    assert steps[..|steps|] == steps;
    assert IsOldestActive(Run(Initial(now), steps).ops, id);
  }

  /** Guarded steps: a document shows a running state iff it has an active operation, which is
      then the only one and the one it shows. So no document stays stuck. */
  lemma {:induction false} NoDocumentStuck(now: int, steps: seq<Step>, t: Id)
    requires GuardThroughout(Initial(now), steps) && t in Run(Initial(now), steps).docs
    ensures
      var s := Run(Initial(now), steps);
      && (IsRunning(s.docs[t].state) <==> HasActive(s.ops, t))
      && (forall i | i in s.ops && s.ops[i].task == t && ActiveOp(s.ops[i]) :: s.docs[t].state == Shown(s.ops[i]) && Alone(s, i))
  {
    InitialBase(now);
    BaseAlways(now, steps);
    AgreeUpTo(Initial(now), steps, |steps|);
    assert steps[..|steps|] == steps;
    var s := Run(Initial(now), steps);
    RunningIffActive(s, t);
    forall i | i in s.ops && s.ops[i].task == t && ActiveOp(s.ops[i])
      ensures s.docs[t].state == Shown(s.ops[i]) && Alone(s, i)
    {
      ActiveIsAlone(s, i);
    }
  }

  /** Results on the right side: a document is editing, revising or finalized, or archived from
      one of these, iff it has exactly one first draft; from every version the parents lead
      back to it. */
  lemma {:induction false} OneFirstDraft(now: int, steps: seq<Step>, t: Id, v: nat) returns (chain: seq<nat>)
    requires DraftGuardThroughout(Initial(now), steps) && t in Run(Initial(now), steps).docs
    ensures
      var doc := Run(Initial(now), steps).docs[t];
      && (Drafted(Effective(doc)) <==> FirstDrafts(doc.versions) == 1)
      && (!Drafted(Effective(doc)) <==> doc.versions == [])
      && (v < |doc.versions| ==>
            && |chain| > 0 && chain[0] == v && chain[|chain| - 1] == 0 && doc.versions[0].kind == FirstDraftVersion
            && (forall k | 0 <= k < |chain| :: chain[k] < |doc.versions|)
            && (forall k | 0 <= k < |chain| - 1 :: doc.versions[chain[k]].parent == Some(doc.versions[chain[k + 1]].id)))
  {
    InitialBase(now);
    DraftUpTo(Initial(now), steps, |steps|);
    assert steps[..|steps|] == steps;
    var doc := Run(Initial(now), steps).docs[t];
    DraftedIffOneFirstDraft(doc);
    chain := [];
    if v < |doc.versions| { chain := ChainEndsAtDraft(doc.versions, v); }
  }

  /** In every run, with no proviso: the locks of a document match the versions they were taken
      from, those of one version are disjoint, order indexes are distinct, and every version
      passes the check against the locks taken from it. */
  lemma {:induction false} LocksStayValid(now: int, steps: seq<Step>, t: Id, v: nat)
    requires t in Run(Initial(now), steps).docs && v < |Run(Initial(now), steps).docs[t].versions|
    ensures
      var doc := Run(Initial(now), steps).docs[t];
      && LocksOk(doc.versions, doc.locks)
      && AllHeld(doc.versions[v].content, LockTexts(LocksFrom(doc.locks, doc.versions[v].id)))
  {
    BaseAlways(now, steps);
    OwnContentAccepted(Run(Initial(now), steps).docs[t], v);
  }

  /** Row ids never used twice, and every saved merge leaves none or at least five of its
      analysis: every analysis has no suggestions, or five to eight with distinct keys. */
  lemma {:induction false} SuggestionSetsStayValid(now: int, steps: seq<Step>, t: Id, analysis: Id)
    requires FreshThroughout(Initial(now), steps) && forall k | 0 <= k < |steps| :: EnoughAt(Initial(now), steps, k)
    requires t in Run(Initial(now), steps).docs
    ensures
      var group := RowsOf(Run(Initial(now), steps).docs[t].suggestions, analysis);
      group == [] || ValidSet(IdeasOf(group))
  {
    SuggestionsUpTo(now, steps, |steps|);
    assert steps[..|steps|] == steps;
    assert GroupOk(RowsOf(Run(Initial(now), steps).docs[t].suggestions, analysis));
  }
}
