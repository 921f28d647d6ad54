/** The analytics reducer: facts in, tracked events out, seven maps in between. */
module Reducer {
  import opened Text

  type ConnectionId = nat
  datatype RequestId = StringId(s: string) | IntegerId(n: int)

  /** The metadata carried along for a connection and for a thread. */
  datatype Client = Client(product: string)
  datatype Metadata = Metadata(session: string)

  datatype Thread = Thread(connection: Option<ConnectionId>, metadata: Option<Metadata>)

  datatype PendingRequest =
    | TurnStart(thread: string, images: nat)
    | TurnSteer(thread: string, expectedTurn: string)

  datatype Turn = Turn(connection: Option<ConnectionId>, thread: Option<string>, images: Option<nat>, config: Option<string>,
                       startedAt: Option<nat>, tokens: Option<nat>, completed: Option<nat>, diff: Option<string>,
                       steers: nat, tools: nat)

  const EMPTY_TURN := Turn(None, None, None, None, None, None, None, None, 0, 0)

  datatype ItemKey = ItemKey(thread: string, turn: string, item: string)

  datatype ItemKind =
    | CommandExecution
    | FileChange
    | McpToolCall
    | DynamicToolCall
    | CollabAgentToolCall
    | WebSearch
    | ImageGeneration
    | Untracked

  /** `inProgress` is the status that has no terminal outcome. */
  datatype Item = Item(id: string, kind: ItemKind, inProgress: bool)

  datatype Subject = CommandSubject | FileSubject | McpSubject | PermissionsSubject | NetworkSubject

  datatype Review = Review(thread: string, turn: string, item: Option<string>, subject: Subject, startedAt: nat,
                           additionalPermissions: bool, networkAccess: bool)

  datatype Reviewer = Guardian | User
  datatype Status = Approved | Denied | Aborted | TimedOut
  datatype Resolution = NoResolution | SessionApproval | ExecPolicyAmendment | NetworkPolicyAmendment

  datatype Outcome =
    | GuardianApproved
    | GuardianDenied
    | GuardianAborted
    | UserApproved
    | UserApprovedForSession
    | UserDenied
    | UserAborted

  /** How one review ended. */
  datatype Finished = Finished(reviewer: Reviewer, status: Status, resolution: Resolution,
                               additionalPermissions: bool, networkAccess: bool)

  datatype Summary = Summary(reviews: nat, guardian: nat, user: nat, outcome: Option<Outcome>,
                             additionalPermissions: bool, networkAccess: bool)

  const NO_REVIEWS := Summary(0, 0, 0, None, false, false)

  datatype State = State(requests: map<(ConnectionId, RequestId), PendingRequest>, turns: map<string, Turn>,
                         connections: map<ConnectionId, Client>, threads: map<string, Thread>,
                         started: map<ItemKey, nat>, reviews: map<RequestId, Review>, summaries: map<ItemKey, Summary>)

  const FRESH := State(map[], map[], map[], map[], map[], map[], map[])

  // ----- facts -----

  datatype ThreadFact =
    | Initialize(connection: ConnectionId, client: Client)
    | ThreadResponse(connection: ConnectionId, thread: string, metadata: Metadata)
    | SubAgentThreadStarted(thread: string, statedParent: Option<string>, sourceParent: Option<string>, metadata: Metadata)
    | Compaction(thread: string)
    | GuardianReview(thread: string)

  datatype TurnFact =
    | TurnStartRequest(connection: ConnectionId, request: RequestId, thread: string, images: nat)
    | TurnSteerRequest(connection: ConnectionId, request: RequestId, thread: string, expectedTurn: string)
    | TurnStartResponse(connection: ConnectionId, request: RequestId, turn: string)
    | TurnSteerResponse(connection: ConnectionId, request: RequestId, turn: string)
    | ErrorResponse(connection: ConnectionId, request: RequestId)
    | TurnStarted(turn: string, at: Option<int>)
    | TurnDiffUpdated(turn: string, thread: string, diff: string)
    | TurnCompleted(turn: string, at: Option<int>)
    | TurnResolvedConfig(turn: string, thread: string, images: nat, config: string)
    | TurnTokenUsage(turn: string, thread: string, tokens: nat)

  datatype Decision = Accept | AcceptForSession | AcceptWithExecpolicyAmendment | ApplyNetworkPolicy(allow: bool) | Decline | Cancel
  datatype FileDecision = AcceptFile | AcceptFileForSession | DeclineFile | CancelFile
  datatype GuardianStatus = InProgress | GuardianSaysApproved | GuardianSaysDenied | GuardianTimedOut | GuardianSaysAborted
  datatype GuardianAction =
    | Command
    | Execve
    | ApplyPatch
    | NetworkAccess
    | RequestPermissions(network: bool, fileSystem: bool)
    | McpCall

  datatype ReviewFact =
    | CommandApprovalRequested(request: RequestId, thread: string, turn: string, item: string, startedAt: int,
                               networkContext: bool, amendments: bool, additional: Option<bool>)
    | FileApprovalRequested(request: RequestId, thread: string, turn: string, item: string, startedAt: int, grantRoot: bool)
    | PermissionsRequested(request: RequestId, thread: string, turn: string, item: string, startedAt: int,
                           network: bool, fileSystem: bool)
    | CommandApprovalAnswered(request: RequestId, decision: Decision, completedAt: nat)
    | FileApprovalAnswered(request: RequestId, fileDecision: FileDecision, completedAt: nat)
    | PermissionsAnswered(request: RequestId, granted: bool, session: bool, completedAt: nat)
    | ServerRequestAborted(request: RequestId, completedAt: nat)
    | GuardianCompleted(thread: string, turn: string, target: Option<string>, verdict: GuardianStatus, action: GuardianAction,
                        startedAt: int, finishedAt: int)

  datatype ItemFact =
    | ItemStarted(thread: string, turn: string, item: Item, at: int)
    | ItemCompleted(thread: string, turn: string, item: Item, at: int)

  datatype Fact =
    | OfThread(threadFact: ThreadFact)
    | OfTurn(turnFact: TurnFact)
    | OfReview(reviewFact: ReviewFact)
    | OfItem(itemFact: ItemFact)

  datatype Event =
    | ThreadInitialized(thread: string)
    | CompactionEvent(thread: string, client: Client)
    | GuardianEvent(thread: string, client: Client)
    | TurnEvent(id: string, thread: string, client: Client, turn: Turn)
    | TurnSteerEvent(thread: string, client: Client, acceptedTurn: Option<string>)
    | ReviewEvent(review: Review, finished: Finished, client: Client, completedAt: nat)
    | ToolEvent(key: ItemKey, kind: ItemKind, client: Client, startedAt: nat, completedAt: nat, summary: Summary)

  datatype Step = Step(state: State, out: seq<Event>)

  // ----- shared lookups -----

  /** `option_i64_to_u64`. */
  function ToUnsigned(n: int): Option<nat> {
    if n >= 0 then Some(n) else None
  }

  function Unsigned(n: Option<int>): Option<nat> {
    match n case Some(v) => ToUnsigned(v) case None => None
  }

  datatype Context =
    | Found(client: Client, metadata: Metadata)
    | MissingThreadConnection
    | MissingConnection(id: ConnectionId)
    | MissingMetadata

  /** `thread_context_or_warn`. */
  function ContextOf(s: State, thread: string): Context {
    if thread !in s.threads || s.threads[thread].connection == None then MissingThreadConnection
    else
      var id := s.threads[thread].connection.value;
      if id !in s.connections then MissingConnection(id)
      else if s.threads[thread].metadata == None then MissingMetadata
      else Found(s.connections[id], s.threads[thread].metadata.value)
  }

  function TurnOf(s: State, id: string): Turn {
    if id in s.turns then s.turns[id] else EMPTY_TURN
  }

  predicate HasMetadata(s: State, thread: string) {
    thread in s.threads && s.threads[thread].metadata.Some?
  }

  // ----- threads -----

  function InitializeThread(s: State, connection: ConnectionId, thread: string, metadata: Metadata): Step {
    if connection !in s.connections then Step(s, [])
    else Step(s.(threads := s.threads[thread := Thread(Some(connection), Some(metadata))]), [ThreadInitialized(thread)])
  }

  function ParentOf(stated: Option<string>, source: Option<string>): Option<string> {
    if stated.Some? then stated else source
  }

  function ConnectionOf(s: State, thread: Option<string>): Option<ConnectionId> {
    if thread.Some? && thread.value in s.threads then s.threads[thread.value].connection else None
  }

  function StartSubAgent(s: State, thread: string, parent: Option<string>, metadata: Metadata): Step {
    var known := if thread in s.threads then s.threads[thread] else Thread(None, None);
    var entry := Thread(if known.connection.Some? then known.connection else ConnectionOf(s, parent),
                        if known.metadata.Some? then known.metadata else Some(metadata));
    Step(s.(threads := s.threads[thread := entry]), [ThreadInitialized(thread)])
  }

  function IngestThread(s: State, f: ThreadFact): (r: Step)
    ensures r.state == s.(connections := r.state.connections, threads := r.state.threads)
  {
    match f
    case Initialize(connection, client) => Step(s.(connections := s.connections[connection := client]), [])
    case ThreadResponse(connection, thread, metadata) => InitializeThread(s, connection, thread, metadata)
    case SubAgentThreadStarted(thread, stated, source, metadata) => StartSubAgent(s, thread, ParentOf(stated, source), metadata)
    case Compaction(thread) =>
      var c := ContextOf(s, thread);
      Step(s, if c.Found? then [CompactionEvent(thread, c.client)] else [])
    case GuardianReview(thread) =>
      var c := ContextOf(s, thread);
      Step(s, if c.Found? then [GuardianEvent(thread, c.client)] else [])
  }

  // ----- turns -----

  /** `maybe_emit_turn_event`: emit and forget the turn once every part is known. */
  function MaybeEmit(s: State, id: string): (r: Step)
    ensures r.state == s.(turns := r.state.turns)
  {
    if id !in s.turns then Step(s, [])
    else
      var t := s.turns[id];
      if t.thread == None || t.images == None || t.config == None || t.completed == None || t.connection == None then Step(s, [])
      else if t.connection.value !in s.connections || !HasMetadata(s, t.thread.value) then Step(s, [])
      else Step(s.(turns := s.turns - {id}), [TurnEvent(id, t.thread.value, s.connections[t.connection.value], t)])
  }

  function SetTurn(s: State, id: string, t: Turn): State {
    s.(turns := s.turns[id := t])
  }

  function StartTurn(s: State, connection: ConnectionId, request: RequestId, id: string): (r: Step)
    ensures r.state == s.(requests := r.state.requests, turns := r.state.turns)
  {
    var key := (connection, request);
    if key !in s.requests then Step(s, [])
    else
      var s1 := s.(requests := s.requests - {key});
      match s.requests[key]
      case TurnStart(thread, images) =>
        MaybeEmit(SetTurn(s1, id, TurnOf(s, id).(connection := Some(connection), thread := Some(thread), images := Some(images))), id)
      case TurnSteer(_, _) => Step(s1, [])
  }

  function SteerEvents(s: State, connection: ConnectionId, thread: string, accepted: Option<string>): seq<Event> {
    if connection in s.connections && HasMetadata(s, thread) then [TurnSteerEvent(thread, s.connections[connection], accepted)] else []
  }

  function SteerTurn(s: State, connection: ConnectionId, request: RequestId, id: string): (r: Step)
    ensures r.state == s.(requests := r.state.requests, turns := r.state.turns)
  {
    var key := (connection, request);
    if key !in s.requests then Step(s, [])
    else
      var s1 := s.(requests := s.requests - {key});
      match s.requests[key]
      case TurnStart(_, _) => Step(s1, [])
      case TurnSteer(thread, _) =>
        var s2 := if id in s.turns then SetTurn(s1, id, s.turns[id].(steers := s.turns[id].steers + 1)) else s1;
        Step(s2, SteerEvents(s2, connection, thread, Some(id)))
  }

  function FailRequest(s: State, connection: ConnectionId, request: RequestId): (r: Step)
    ensures r.state == s.(requests := r.state.requests)
  {
    var key := (connection, request);
    if key !in s.requests then Step(s, [])
    else
      var s1 := s.(requests := s.requests - {key});
      match s.requests[key]
      case TurnStart(_, _) => Step(s1, [])
      case TurnSteer(thread, _) => Step(s1, SteerEvents(s1, connection, thread, None))
  }

  function IngestTurn(s: State, f: TurnFact): (r: Step)
    ensures r.state == s.(requests := r.state.requests, turns := r.state.turns)
  {
    match f
    case TurnStartRequest(connection, request, thread, images) =>
      Step(s.(requests := s.requests[(connection, request) := TurnStart(thread, images)]), [])
    case TurnSteerRequest(connection, request, thread, expectedTurn) =>
      Step(s.(requests := s.requests[(connection, request) := TurnSteer(thread, expectedTurn)]), [])
    case TurnStartResponse(connection, request, turn) => StartTurn(s, connection, request, turn)
    case TurnSteerResponse(connection, request, turn) => SteerTurn(s, connection, request, turn)
    case ErrorResponse(connection, request) => FailRequest(s, connection, request)
    case TurnStarted(turn, at) => Step(SetTurn(s, turn, TurnOf(s, turn).(startedAt := Unsigned(at))), [])
    case TurnDiffUpdated(turn, thread, diff) =>
      Step(SetTurn(s, turn, TurnOf(s, turn).(thread := Some(thread), diff := Some(diff))), [])
    case TurnCompleted(turn, at) =>
      var completedAt := match Unsigned(at) case Some(v) => v case None => 0;
      MaybeEmit(SetTurn(s, turn, TurnOf(s, turn).(completed := Some(completedAt))), turn)
    case TurnResolvedConfig(turn, thread, images, config) =>
      MaybeEmit(SetTurn(s, turn, TurnOf(s, turn).(thread := Some(thread), images := Some(images), config := Some(config))), turn)
    case TurnTokenUsage(turn, thread, tokens) =>
      MaybeEmit(SetTurn(s, turn, TurnOf(s, turn).(thread := Some(thread), tokens := Some(tokens))), turn)
  }

  // ----- reviews -----

  /** `item_review_summary_key`: only command, file and MCP reviews of a known item are summarised. */
  function SummaryKey(r: Review): Option<ItemKey> {
    if r.subject in {CommandSubject, FileSubject, McpSubject} && r.item.Some? then Some(ItemKey(r.thread, r.turn, r.item.value))
    else None
  }

  /** `final_approval_outcome`. */
  function OutcomeOf(f: Finished): Outcome {
    match (f.reviewer, f.status, f.resolution)
    case (Guardian, Approved, _) => GuardianApproved
    case (Guardian, Denied, _) => GuardianDenied
    case (Guardian, _, _) => GuardianAborted
    case (User, Approved, SessionApproval) => UserApprovedForSession
    case (User, Approved, _) => UserApproved
    case (User, Denied, _) => UserDenied
    case (User, _, _) => UserAborted
  }

  function SummaryAt(s: State, key: ItemKey): Summary {
    if key in s.summaries then s.summaries[key] else NO_REVIEWS
  }

  /** `record_item_review_summary`. */
  function AddReview(summary: Summary, f: Finished): Summary {
    Summary(summary.reviews + 1,
            summary.guardian + (if f.reviewer.Guardian? then 1 else 0),
            summary.user + (if f.reviewer.User? then 1 else 0),
            Some(OutcomeOf(f)),
            summary.additionalPermissions || f.additionalPermissions,
            summary.networkAccess || f.networkAccess)
  }

  function EmitReview(s: State, r: Review, f: Finished, completedAt: nat): (step: Step)
    ensures step.state == s.(summaries := step.state.summaries)
  {
    var s1 := match SummaryKey(r)
      case Some(key) => s.(summaries := s.summaries[key := AddReview(SummaryAt(s, key), f)])
      case None => s;
    var c := ContextOf(s, r.thread);
    Step(s1, if c.Found? then [ReviewEvent(r, f, c.client, completedAt)] else [])
  }

  function FinishedBy(r: Review, reviewer: Reviewer, result: (Status, Resolution)): Finished {
    Finished(reviewer, result.0, result.1, r.additionalPermissions, r.networkAccess)
  }

  function CommandResult(d: Decision): (Status, Resolution) {
    match d
    case Accept => (Approved, NoResolution)
    case AcceptForSession => (Approved, SessionApproval)
    case AcceptWithExecpolicyAmendment => (Approved, ExecPolicyAmendment)
    case ApplyNetworkPolicy(allow) => (if allow then Approved else Denied, NetworkPolicyAmendment)
    case Decline => (Denied, NoResolution)
    case Cancel => (Aborted, NoResolution)
  }

  function FileResult(d: FileDecision): (Status, Resolution) {
    match d
    case AcceptFile => (Approved, NoResolution)
    case AcceptFileForSession => (Approved, SessionApproval)
    case DeclineFile => (Denied, NoResolution)
    case CancelFile => (Aborted, NoResolution)
  }

  function PermissionsResult(granted: bool, session: bool): (Status, Resolution) {
    if !granted then (Denied, NoResolution) else (Approved, if session then SessionApproval else NoResolution)
  }

  function GuardianResult(v: GuardianStatus): Option<(Status, Resolution)> {
    match v
    case InProgress => None
    case GuardianSaysApproved => Some((Approved, NoResolution))
    case GuardianSaysDenied => Some((Denied, NoResolution))
    case GuardianTimedOut => Some((TimedOut, NoResolution))
    case GuardianSaysAborted => Some((Aborted, NoResolution))
  }

  function GuardianSubject(a: GuardianAction): Subject {
    match a
    case Command => CommandSubject
    case Execve => CommandSubject
    case ApplyPatch => FileSubject
    case NetworkAccess => NetworkSubject
    case RequestPermissions(_, _) => PermissionsSubject
    case McpCall => McpSubject
  }

  function GuardianAdditional(a: GuardianAction): bool {
    a.ApplyPatch? || a.NetworkAccess? || (a.RequestPermissions? && (a.network || a.fileSystem))
  }

  function GuardianNetwork(a: GuardianAction): bool {
    a.NetworkAccess? || (a.RequestPermissions? && a.network)
  }

  /** The review a server request opens, if its start time is usable. */
  function Opened(f: ReviewFact): Option<Review> {
    match f
    case CommandApprovalRequested(_, thread, turn, item, startedAt, networkContext, amendments, additional) =>
      if startedAt < 0 then None
      else Some(Review(thread, turn, Some(item), if networkContext then NetworkSubject else CommandSubject, startedAt,
                       additional.Some?, networkContext || amendments || additional == Some(true)))
    case FileApprovalRequested(_, thread, turn, item, startedAt, grantRoot) =>
      if startedAt < 0 then None else Some(Review(thread, turn, Some(item), FileSubject, startedAt, grantRoot, false))
    case PermissionsRequested(_, thread, turn, item, startedAt, network, fileSystem) =>
      if startedAt < 0 then None
      else Some(Review(thread, turn, Some(item), PermissionsSubject, startedAt, network || fileSystem, network))
    case _ => None
  }

  /** How the user, or an abort, ended a pending review. */
  function UserResult(f: ReviewFact): (Status, Resolution) {
    match f
    case CommandApprovalAnswered(_, decision, _) => CommandResult(decision)
    case FileApprovalAnswered(_, decision, _) => FileResult(decision)
    case PermissionsAnswered(_, granted, session, _) => PermissionsResult(granted, session)
    case _ => (Aborted, NoResolution)
  }

  datatype Closing = Closing(review: Review, finished: Finished, completedAt: nat)

  /** The review a fact finishes, if any. */
  function Closes(s: State, f: ReviewFact): Option<Closing> {
    match f
    case CommandApprovalRequested(_, _, _, _, _, _, _, _) => None
    case FileApprovalRequested(_, _, _, _, _, _) => None
    case PermissionsRequested(_, _, _, _, _, _, _) => None
    case GuardianCompleted(thread, turn, target, verdict, action, startedAt, finishedAt) =>
      if GuardianResult(verdict) == None || startedAt < 0 || finishedAt < 0 then None
      else
        var r := Review(thread, turn, target, GuardianSubject(action), startedAt, GuardianAdditional(action), GuardianNetwork(action));
        Some(Closing(r, FinishedBy(r, Guardian, GuardianResult(verdict).value), finishedAt))
    case _ =>
      if f.request !in s.reviews then None
      else Some(Closing(s.reviews[f.request], FinishedBy(s.reviews[f.request], User, UserResult(f)), f.completedAt))
  }

  function IngestReview(s: State, f: ReviewFact): (r: Step)
    ensures r.state == s.(reviews := r.state.reviews, summaries := r.state.summaries)
  {
    if f.CommandApprovalRequested? || f.FileApprovalRequested? || f.PermissionsRequested? then
      Step(match Opened(f) case Some(r) => s.(reviews := s.reviews[f.request := r]) case None => s, [])
    else
      match Closes(s, f)
      case None => Step(s, [])
      case Some(c) =>
        var s1 := if f.GuardianCompleted? then s else s.(reviews := s.reviews - {f.request});
        EmitReview(s1, c.review, c.finished, c.completedAt)
  }

  // ----- tool items -----

  predicate HasTerminalOutcome(item: Item) {
    item.kind in {WebSearch, ImageGeneration} || !item.inProgress
  }

  function CompleteItem(s: State, thread: string, turn: string, item: Item, at: int): (r: Step)
    ensures r.state == s.(turns := r.state.turns, started := r.state.started, summaries := r.state.summaries)
  {
    if item.kind.Untracked? || turn !in s.turns then Step(s, [])
    else
      var key := ItemKey(thread, turn, item.id);
      var s1 := SetTurn(s, turn, s.turns[turn].(tools := s.turns[turn].tools + 1));
      if key !in s.started then Step(s1, [])
      else
        var s2 := s1.(started := s.started - {key});
        var c := ContextOf(s, thread);
        if at < 0 || !c.Found? then Step(s2, [])
        else
          Step(s2.(summaries := s.summaries - {key}),
               if HasTerminalOutcome(item) then [ToolEvent(key, item.kind, c.client, s.started[key], at, SummaryAt(s, key))] else [])
  }

  function IngestItem(s: State, f: ItemFact): (r: Step)
    ensures r.state == s.(turns := r.state.turns, started := r.state.started, summaries := r.state.summaries)
  {
    match f
    case ItemStarted(thread, turn, item, at) =>
      Step(if item.kind.Untracked? || at < 0 then s else s.(started := s.started[ItemKey(thread, turn, item.id) := at]), [])
    case ItemCompleted(thread, turn, item, at) => CompleteItem(s, thread, turn, item, at)
  }

  /** An item fact counts a tool in its turn, and touches no turn otherwise. */
  predicate CountsTool(s: State, f: ItemFact) {
    f.ItemCompleted? && !f.item.kind.Untracked? && f.turn in s.turns
  }

  lemma ItemTurns(s: State, f: ItemFact)
    ensures IngestItem(s, f).state.turns
         == if CountsTool(s, f) then s.turns[f.turn := s.turns[f.turn].(tools := s.turns[f.turn].tools + 1)] else s.turns
    ensures forall e :: e in IngestItem(s, f).out ==> !e.TurnEvent?
  {
  }

  // ----- whole runs -----

  function Ingest(s: State, f: Fact): Step {
    match f
    case OfThread(t) => IngestThread(s, t)
    case OfTurn(t) => IngestTurn(s, t)
    case OfReview(r) => IngestReview(s, r)
    case OfItem(i) => IngestItem(s, i)
  }

  function After(s: State, facts: seq<Fact>): State {
    if facts == [] then s else Ingest(After(s, facts[..|facts| - 1]), facts[|facts| - 1]).state
  }

  function Emitted(s: State, facts: seq<Fact>): seq<Event> {
    if facts == [] then []
    else
      var n := |facts| - 1;
      Emitted(s, facts[..n]) + Ingest(After(s, facts[..n]), facts[n]).out
  }
}
