/** The analyses of a document over every run, without any proviso: they are numbered from one
    in the order they were saved, and the last one is the selected one. */
module QueueAnalyses {
  import opened Basics
  import opened Domain
  import opened Documents
  import opened DocumentFacts
  import opened Queue
  import opened QueueInvariant
  import opened QueueAgreement
  import opened QueueFreeze

  /** Numbered one, two, ...; selected is exactly the last. */
  predicate Numbered(rows: seq<AnalysisRow>) {
    forall i | 0 <= i < |rows| :: rows[i].sequence == i + 1 && (rows[i].selected <==> i == |rows| - 1)
  }

  lemma RecordedNumbered(before: seq<AnalysisRow>, after: seq<AnalysisRow>, id: Id, text: string)
    requires Numbered(before) && NewestSelected(before, after, id, text)
    ensures Numbered(after)
  {
    var n := |before|;
    assert n > 0 ==> before[n - 1].sequence == n;
  }

  lemma PersistNumbered(doc: Doc, inputs: Doc, p: Payload, reply: Reply, ids: seq<Id>)
    requires Numbered(doc.analyses) && Persist(doc, inputs, p, Invoke(inputs, p, reply), ids).Ok?
    ensures Numbered(Persist(doc, inputs, p, Invoke(inputs, p, reply), ids).value.analyses)
  {
    if p.AnalysisPayload? {
      AnalysisRecorded(doc, inputs, reply, ids);
      RecordedNumbered(doc.analyses, Persist(doc, inputs, p, Invoke(inputs, p, reply), ids).value.analyses, ids[0], reply.text);
    }
  }

  lemma SameAnalyses(a: Doc, b: Doc)
    requires Content(a) == Content(b)
    ensures a.analyses == b.analyses
  {
    assert Content(a).analyses == a.analyses && Content(b).analyses == b.analyses;
  }

  lemma AnswerNumbered(s: State, step: Step, t: Id)
    requires t in s.docs && Answers(s, step, t) && Numbered(s.docs[t].analyses)
    ensures t in Next(s, step).docs && Numbered(Next(s, step).docs[t].analyses)
  {
    var id, inputs := Writes(s, step).value, s.jobs[(step.worker, step.owner)].phase.inputs;
    var answer := Answer(s, id, inputs, step.reply, step.ids);
    RespondShows(s, step, id, answer);
    SameAnalyses(Next(s, step).docs[t], if answer.Ok? then answer.value else s.docs[t]);
    if answer.Ok? { PersistNumbered(s.docs[t], inputs, s.ops[id].payload, step.reply, step.ids); }
  }

  lemma EditNumbered(s: State, step: Step, t: Id)
    requires t in s.docs && step.EditTask? && Numbered(s.docs[t].analyses)
    ensures t in Next(s, step).docs && Numbered(Next(s, step).docs[t].analyses)
  {
  }

  lemma SubmitNumbered(s: State, step: Step, t: Id)
    requires t in s.docs && (step.Submit? || step.Retry?)
    ensures t in Next(s, step).docs && Next(s, step).docs[t].analyses == s.docs[t].analyses
  {
  }

  lemma OtherNumbered(s: State, step: Step, t: Id)
    requires t in s.docs && !Answers(s, step, t) && !step.EditTask? && !step.Submit? && !step.Retry?
    ensures t in Next(s, step).docs && Next(s, step).docs[t].analyses == s.docs[t].analyses
  {
    if IsQuiet(step) {
      QuietSame(s, step);
    } else if step.Claim? || step.Respond? || step.RunError? || step.CancelRun? || step.Cleanup? {
      JobKeepsContent(s, step, t);
      SameAnalyses(Next(s, step).docs[t], s.docs[t]);
    } else if step.RecoverStale? {
      RecoverKeepsContent(s, step.stale, t);
      SameAnalyses(Recover(s, step.stale).docs[t], s.docs[t]);
    }
  }

  lemma NumberedStep(s: State, step: Step, t: Id)
    requires Base(s) && t in Next(s, step).docs && (t in s.docs ==> Numbered(s.docs[t].analyses))
    ensures Numbered(Next(s, step).docs[t].analyses)
  {
    if t !in s.docs { NewDocEmpty(s, step, t); }
    else if Answers(s, step, t) { AnswerNumbered(s, step, t); }
    else if step.EditTask? { EditNumbered(s, step, t); }
    else if step.Submit? || step.Retry? { SubmitNumbered(s, step, t); }
    else { OtherNumbered(s, step, t); }
  }

  /** In every reachable state the analyses of a document are numbered in order, and the last is
      the one that is selected. */
  lemma {:induction false} AnalysesAlways(now: int, steps: seq<Step>, t: Id)
    requires t in Run(Initial(now), steps).docs
    ensures Numbered(Run(Initial(now), steps).docs[t].analyses)
  {
    if steps != [] {
      var front := steps[..|steps| - 1];
      var s := Run(Initial(now), front);
      BaseAlways(now, front);
      if t in s.docs { AnalysesAlways(now, front, t); }
      NumberedStep(s, steps[|steps| - 1], t);
    }
  }

  /** So at most one analysis of a document is ever selected. */
  lemma {:induction false} OneSelected(now: int, steps: seq<Step>, t: Id, i: nat, j: nat)
    requires t in Run(Initial(now), steps).docs
    requires
      var rows := Run(Initial(now), steps).docs[t].analyses;
      i < |rows| && j < |rows| && rows[i].selected && rows[j].selected
    ensures i == j
  {
    AnalysesAlways(now, steps, t);
  }
}
