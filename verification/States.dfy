/**
 The state machines of the orchestrator: every `*.status` field moves along one of these tables and
 nowhere else.  A table is written as the relation it lists.
 */
module States {

  datatype TaskState =
    | PENDING | WAITING_DEPENDENCY | RUNNING
    | COMPLETED | FAILED | TIMED_OUT | SKIPPED | CANCELLED | INTERRUPTED

  datatype PlanState =
    | PlanPending | PlanRunning
    | PlanCompleted | StoppedOnFailure | ShortCircuitedOnSuccess | PlanInterrupted | PlanFailed

  datatype CycleState = CycleRunning | CycleCompleted | CycleFailed | CycleInterrupted

  datatype ConversationState =
    | New | Active | WaitingModelResponse | RunningPlan | WaitingUser | Rotating
    | ConversationInterrupted | ConversationCompleted | ConversationFailed | Closed

  datatype SessionState =
    | Ready | SessionRunning | Interrupting | SessionCompleted | SessionFailed | Paused

  datatype WindowState = Healthy | Warning | Saturated

  predicate TaskStep(current: TaskState, target: TaskState) {
    match current
    case PENDING =>
      target.WAITING_DEPENDENCY? || target.RUNNING? || target.SKIPPED? || target.INTERRUPTED?
    case WAITING_DEPENDENCY =>
      target.PENDING? || target.SKIPPED? || target.INTERRUPTED?
    case RUNNING =>
      target.COMPLETED? || target.FAILED? || target.TIMED_OUT? || target.CANCELLED? || target.INTERRUPTED?
    case _ => false
  }

  predicate PlanStep(current: PlanState, target: PlanState) {
    match current
    case PlanPending => target.PlanRunning? || target.PlanFailed? || target.PlanInterrupted?
    case PlanRunning =>
      target.PlanCompleted? || target.StoppedOnFailure? || target.ShortCircuitedOnSuccess?
      || target.PlanInterrupted? || target.PlanFailed?
    case _ => false
  }

  predicate CycleStep(current: CycleState, target: CycleState) {
    current.CycleRunning? && !target.CycleRunning?
  }

  predicate ConversationStep(current: ConversationState, target: ConversationState) {
    match current
    case New => target.Active? || target.ConversationFailed?
    case Active =>
      target.WaitingModelResponse? || target.ConversationInterrupted? || target.ConversationFailed?
    case WaitingModelResponse =>
      target.RunningPlan? || target.ConversationCompleted? || target.Rotating?
      || target.ConversationInterrupted? || target.ConversationFailed?
    case RunningPlan =>
      target.WaitingModelResponse? || target.Rotating?
      || target.ConversationInterrupted? || target.ConversationFailed?
    case Rotating => target.Closed? || target.ConversationInterrupted? || target.ConversationFailed?
    case WaitingUser => target.WaitingModelResponse? || target.Rotating? || target.ConversationFailed?
    case ConversationCompleted => target.WaitingUser? || target.Closed? || target.ConversationFailed?
    case _ => false
  }

  predicate SessionStep(current: SessionState, target: SessionState) {
    match current
    case Ready => target.SessionRunning?
    case SessionRunning =>
      target.SessionCompleted? || target.Paused? || target.Interrupting? || target.SessionFailed?
    case Paused => target.SessionRunning? || target.Ready? || target.SessionFailed?
    case Interrupting => target.Ready? || target.SessionFailed?
    case SessionCompleted => target.SessionRunning?
    case SessionFailed => false
  }

  predicate WindowStep(current: WindowState, target: WindowState) {
    match current
    case Healthy => target.Warning? || target.Saturated?
    case Warning => target.Saturated?
    case Saturated => target.Healthy?
  }

  predicate TaskTerminal(s: TaskState) {
    !s.PENDING? && !s.WAITING_DEPENDENCY? && !s.RUNNING?
  }

  predicate PlanTerminal(s: PlanState) {
    !s.PlanPending? && !s.PlanRunning?
  }

  /** The outcomes that count as a failure for the stop conditions. */
  predicate TaskFailure(s: TaskState) {
    s.FAILED? || s.TIMED_OUT?
  }

  /** The states a task may still be launched or skipped from. */
  predicate Schedulable(s: TaskState) {
    s.PENDING? || s.WAITING_DEPENDENCY?
  }

  /** The states in which a user interruption applies to a conversation. */
  predicate ConversationActive(s: ConversationState) {
    s.Active? || s.WaitingModelResponse? || s.RunningPlan? || s.Rotating?
  }

  // ---- the tables again, row by row ------------------------------------------------------------------------------

  lemma TaskRows(s: TaskState)
    ensures (set t: TaskState | TaskStep(s, t)) ==
            match s
            case PENDING => {WAITING_DEPENDENCY, RUNNING, SKIPPED, INTERRUPTED}
            case WAITING_DEPENDENCY => {PENDING, SKIPPED, INTERRUPTED}
            case RUNNING => {COMPLETED, FAILED, TIMED_OUT, CANCELLED, INTERRUPTED}
            case _ => {}
  {
  }

  lemma PlanRows(s: PlanState)
    ensures (set t: PlanState | PlanStep(s, t)) ==
            match s
            case PlanPending => {PlanRunning, PlanFailed, PlanInterrupted}
            case PlanRunning =>
              {PlanCompleted, StoppedOnFailure, ShortCircuitedOnSuccess, PlanInterrupted, PlanFailed}
            case _ => {}
  {
  }

  lemma CycleRows(s: CycleState)
    ensures (set t: CycleState | CycleStep(s, t)) ==
            if s == CycleRunning then {CycleCompleted, CycleFailed, CycleInterrupted} else {}
  {
  }

  lemma ConversationRows(s: ConversationState)
    ensures (set t: ConversationState | ConversationStep(s, t)) ==
            match s
            case New => {Active, ConversationFailed}
            case Active => {WaitingModelResponse, ConversationInterrupted, ConversationFailed}
            case WaitingModelResponse =>
              {RunningPlan, ConversationCompleted, Rotating, ConversationInterrupted, ConversationFailed}
            case RunningPlan => {WaitingModelResponse, Rotating, ConversationInterrupted, ConversationFailed}
            case WaitingUser => {WaitingModelResponse, Rotating, ConversationFailed}
            case Rotating => {Closed, ConversationInterrupted, ConversationFailed}
            case ConversationCompleted => {WaitingUser, Closed, ConversationFailed}
            case _ => {}
  {
  }

  lemma SessionRows(s: SessionState)
    ensures (set t: SessionState | SessionStep(s, t)) ==
            match s
            case Ready => {SessionRunning}
            case SessionRunning => {SessionCompleted, Paused, Interrupting, SessionFailed}
            case Paused => {SessionRunning, Ready, SessionFailed}
            case Interrupting => {Ready, SessionFailed}
            case SessionCompleted => {SessionRunning}
            case SessionFailed => {}
  {
  }

  lemma WindowRows(s: WindowState)
    ensures (set t: WindowState | WindowStep(s, t)) ==
            match s
            case Healthy => {Warning, Saturated}
            case Warning => {Saturated}
            case Saturated => {Healthy}
  {
  }

  /** A task or a plan is over exactly when no step leaves its state. */
  lemma NoWayOut(s: TaskState, p: PlanState)
    ensures TaskTerminal(s) <==> forall t :: !TaskStep(s, t)
    ensures PlanTerminal(p) <==> forall t :: !PlanStep(p, t)
  {
    TaskRows(s);
    PlanRows(p);
    assert !TaskTerminal(s) ==> TaskStep(s, INTERRUPTED);
    assert !PlanTerminal(p) ==> PlanStep(p, PlanInterrupted);
  }
}
