/** The persisted records: only the fields the modelled components read or write. */
module Records {
  import opened Options
  import opened States

  datatype ExecutionPolicy = Sequential | Parallel

  datatype CycleType = Discovery | Execution | Clarification | Resume

  datatype MessageDirection = Outbound | Inbound

  datatype MessageType =
    | UserRequest | ExecutionResult | FinalAnswer | UserResponse | PlanMessage
    | ContextResumeRequest | ContextResumeAck | ProtocolCorrectionRequest | ChunkRequest | SystemError

  datatype OutputStream = Stdout | Stderr

  /** Why a plan ended. */
  datatype StopReason =
    | StopPlanOnSuccess(taskId: string)
    | CriticalTaskFailed(taskId: string)
    | StopPlanOnFailure(taskId: string)
    | PlainTaskFailed(taskId: string)
    | DurationBudget
    | StoppedByUser
    | StoppedByRestart

  /** Why a task ended as it did. */
  datatype Reason =
    | DependencyFailed(on: string)
    | DependencySkipped(on: string)
    | PlanStopped(stop: Option<StopReason>)
    | BudgetExceeded
    | UserInterrupt
    | Restart
    | SpawnFailed
    | ErrorCode(code: string)

  /** What the model declared; nothing in a run changes it. */
  datatype Declaration = Declaration(
    sessionId: string, taskId: string, planId: string,
    isCommand: bool, critical: bool, stopPlanOnFailure: bool, stopPlanOnSuccess: bool, stopsPlanOnFailure: bool,
    dependsOn: seq<string>, resourceLock: Option<string>)

  /** `recognised`: the exit code is the answer of a verdict program, not of the shell. */
  datatype TaskRecord = TaskRecord(
    decl: Declaration, status: TaskState, reason: Option<Reason>,
    exitCode: Option<int>, timedOut: bool, recognised: bool)

  datatype Counters = Counters(
    tasks: nat, completed: nat, failed: nat, skipped: nat, cancelled: nat, interrupted: nat)

  datatype PlanRecord = PlanRecord(
    sessionId: string, planId: string, conversationId: string, cycleId: string,
    policy: ExecutionPolicy, maxParallelWorkers: int,
    status: PlanState, stopReason: Option<StopReason>, counters: Counters)

  datatype CycleRecord = CycleRecord(
    cycleId: string, conversationId: string, sessionId: string, cycleType: CycleType,
    status: CycleState, inboundMessageId: Option<string>)

  datatype ConversationRecord = ConversationRecord(
    conversationId: string, sessionId: string, parentId: Option<string>, remoteId: Option<string>,
    status: ConversationState, autoClose: bool, window: WindowState, contextBytes: nat,
    currentCycleId: Option<string>, currentPlanId: Option<string>, closureReason: Option<string>)

  datatype SessionRecord = SessionRecord(
    sessionId: string, status: SessionState, currentConversationId: Option<string>,
    autoClose: bool, maxCycles: nat, consumedCycles: nat, rotationsCount: nat)

  datatype MessageRecord = MessageRecord(
    messageId: string, sessionId: string, conversationId: string,
    direction: MessageDirection, messageType: MessageType, sizeBytes: nat,
    cycleId: Option<string>, postConfirmed: bool, valid: bool, retransmissionOf: Option<string>)

  datatype BlobRecord = BlobRecord(
    blobId: string, sessionId: string, taskId: string, stream: OutputStream, content: seq<bv8>, sizeBytes: nat)

  /** The whole content of the store.  Messages are listed in insertion order. */
  datatype Tables = Tables(
    sessions: map<string, SessionRecord>,
    conversations: map<string, ConversationRecord>,
    cycles: map<string, CycleRecord>,
    plans: map<(string, string), PlanRecord>,
    tasks: map<(string, string), TaskRecord>,
    messages: seq<MessageRecord>,
    blobs: map<string, BlobRecord>)

  function TaskKey(t: TaskRecord): (string, string) {
    (t.decl.sessionId, t.decl.taskId)
  }

  function PlanKey(p: PlanRecord): (string, string) {
    (p.sessionId, p.planId)
  }

  /** Every table is keyed by the identifiers of its own records. */
  ghost predicate WellKeyed(t: Tables) {
    && (forall k | k in t.sessions :: t.sessions[k].sessionId == k)
    && (forall k | k in t.conversations :: t.conversations[k].conversationId == k)
    && (forall k | k in t.cycles :: t.cycles[k].cycleId == k)
    && (forall k | k in t.plans :: PlanKey(t.plans[k]) == k)
    && (forall k | k in t.tasks :: TaskKey(t.tasks[k]) == k)
    && (forall i, j | 0 <= i < j < |t.messages| :: t.messages[i].messageId != t.messages[j].messageId)
  }

  /** Insert, or replace in place: a record keeps the position of its first insertion. */
  function Upsert(rows: seq<MessageRecord>, r: MessageRecord): (out: seq<MessageRecord>)
    ensures forall m | m in out :: m == r || (m in rows && m.messageId != r.messageId)
    ensures r in out
  {
    if rows == [] then [r]
    else if rows[0].messageId == r.messageId then
      [r] + Without(rows[1..], r.messageId)
    else [rows[0]] + Upsert(rows[1..], r)
  }

  function Without(rows: seq<MessageRecord>, id: string): (out: seq<MessageRecord>)
    ensures forall m :: m in out <==> m in rows && m.messageId != id
  {
    if rows == [] then []
    else if rows[0].messageId == id then Without(rows[1..], id)
    else [rows[0]] + Without(rows[1..], id)
  }
}
