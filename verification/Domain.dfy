/** Document states, operation kinds and the transition table. */
module Domain {
  datatype TaskState =
    | Draft | Analyzing | AnalysisReady | Suggesting | SuggestionsReady
    | Generating | Editing | Revising | Finalized | Archived

  datatype OperationKind = Analysis | Suggestions | FirstDraft | Revision

  datatype OperationStatus = Queued | Running | Succeeded | Failed | Cancelled

  /** `assert_transition` does not raise. */
  predicate Allowed(current: TaskState, target: TaskState) {
    if target == Archived then current != Archived
    else
      match current
      case Draft => target == Analyzing
      case Analyzing => target == AnalysisReady || target == Draft
      case AnalysisReady => target == Analyzing || target == Suggesting
      case Suggesting => target == SuggestionsReady || target == AnalysisReady
      case SuggestionsReady => target == Suggesting || target == Generating
      case Generating => target == Editing || target == SuggestionsReady
      case Editing => target == Revising || target == Finalized
      case Revising => target == Editing
      case Finalized => target == Revising
      case Archived => false
  }

  /** The state a document shows while an operation of the kind is queued or running. */
  function RunningState(kind: OperationKind): (s: TaskState) {
    match kind
    case Analysis => Analyzing
    case Suggestions => Suggesting
    case FirstDraft => Generating
    case Revision => Revising
  }

  /** The state a successful operation leaves behind. */
  function SucceededState(kind: OperationKind): (s: TaskState) {
    match kind
    case Analysis => AnalysisReady
    case Suggestions => SuggestionsReady
    case FirstDraft => Editing
    case Revision => Editing
  }

  predicate IsRunning(s: TaskState) {
    s == Analyzing || s == Suggesting || s == Generating || s == Revising
  }

  /** The states in which a first draft exists. */
  predicate Drafted(s: TaskState) {
    s == Editing || s == Revising || s == Finalized
  }

  predicate IsActive(status: OperationStatus) {
    status == Queued || status == Running
  }

  /** What the table says about a submitted operation: it starts from a resting state, on
      the same side of the first draft as its running state, and the success state is a
      legal and resting successor. */
  lemma SubmissionStates(initial: TaskState, kind: OperationKind)
    requires Allowed(initial, RunningState(kind))
    ensures IsRunning(RunningState(kind)) && !IsRunning(initial) && initial != Archived
    ensures Drafted(initial) == Drafted(RunningState(kind)) == (kind == Revision)
    ensures Allowed(RunningState(kind), SucceededState(kind)) && !IsRunning(SucceededState(kind))
    ensures Drafted(SucceededState(kind)) == (kind == Revision || kind == FirstDraft)
  {
  }

  /** The states from which an operation of the kind may be submitted. */
  predicate StartsFrom(state: TaskState, kind: OperationKind) {
    match kind
    case Analysis => state == Draft || state == AnalysisReady
    case Suggestions => state == AnalysisReady || state == SuggestionsReady
    case FirstDraft => state == SuggestionsReady
    case Revision => state == Editing || state == Finalized
  }

  /** The table admits an operation from these states alone, and each success leads on. */
  lemma WhereOperationsStart(state: TaskState, kind: OperationKind)
    ensures Allowed(state, RunningState(kind)) <==> StartsFrom(state, kind)
    ensures forall next :: StartsFrom(SucceededState(kind), next) <==>
      match kind
      case Analysis => next == Analysis || next == Suggestions
      case Suggestions => next == Suggestions || next == FirstDraft
      case FirstDraft => next == Revision
      case Revision => next == Revision
  {
  }
}
