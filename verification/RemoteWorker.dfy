/** The worker that multiplexes one remote app-server connection. */
module RemoteWorker {
  import opened Text

  datatype RequestId = StringId(s: string) | IntegerId(n: int)

  /** Identifies one caller waiting on a oneshot channel. */
  type Token = nat

  /** What the server answered: a result or a JSON-RPC error. */
  datatype Answer = Success(body: nat) | ServerError(body: nat)

  datatype ErrorKind = InvalidInput | BrokenPipe | InvalidData | ConnectionAborted | UnexpectedEof | WriteError

  datatype Reply = Answered(answer: Answer) | Failed(kind: ErrorKind)

  datatype Sent = Sent(token: Token, reply: Reply)

  datatype Command =
    | Request(id: RequestId, token: Token)
    | Notify(token: Token)
    | ResolveServerRequest(id: RequestId, token: Token)
    | RejectServerRequest(id: RequestId, token: Token)
    | Shutdown(token: Token)

  /** A decoded JSON-RPC message; `decoded` is `None` where the typed decoding fails. */
  datatype Message =
    | Response(id: RequestId, body: nat)
    | Error(id: RequestId, body: nat)
    | Notification(decoded: Option<nat>)
    | ServerRequest(id: RequestId, decoded: Option<nat>)

  datatype Frame =
    | Message(message: Message)
    | InvalidJsonRpc
    | Close
    | Ignorable
    | TransportFailure
    | EndOfStream

  datatype Event = NotificationEvent(n: nat) | RequestEvent(n: nat) | Disconnected

  /** What the worker wrote to the connection. */
  datatype Written =
    | WroteRequest(id: RequestId, token: Token)
    | WroteNotification
    | WroteResponse(id: RequestId)
    | WroteError(id: RequestId)
    | WroteUnsupported(id: RequestId, code: int)

  const METHOD_NOT_FOUND := -32601

  /** One turn of the select loop, with how its write and its event delivery fare. */
  datatype Input =
    | OnCommand(command: Option<Command>, writeOk: bool, consumerOpen: bool)
    | OnFrame(frame: Frame, writeOk: bool, consumerOpen: bool)

  datatype State = State(pending: map<RequestId, Token>, exitError: Option<ErrorKind>, running: bool,
                         replies: seq<Sent>, acknowledged: seq<Token>, events: seq<Event>, written: seq<Written>)

  const START := State(map[], None, true, [], [], [], [])

  // ----- one turn, as a function -----

  /** `deliver_event`: a send to a dropped receiver is lost. */
  function Deliver(s: State, e: Event, consumerOpen: bool): State {
    if consumerOpen then s.(events := s.events + [e]) else s
  }

  /** Announce the end of the connection and leave the loop. */
  function Disconnect(s: State, kind: ErrorKind, consumerOpen: bool): State {
    Deliver(s, Disconnected, consumerOpen).(exitError := Some(kind), running := false)
  }

  function Resolve(s: State, id: RequestId, answer: Answer): State {
    if id in s.pending then
      s.(pending := s.pending - {id}, replies := s.replies + [Sent(s.pending[id], Answered(answer))])
    else s
  }

  function StepCommand(s: State, command: Option<Command>, writeOk: bool, consumerOpen: bool): State {
    match command
    case None => s.(running := false)
    case Some(Request(id, token)) =>
      if id in s.pending then
        s.(replies := s.replies + [Sent(token, Failed(InvalidInput))])
      else if writeOk then
        s.(pending := s.pending[id := token], written := s.written + [WroteRequest(id, token)])
      else
        Disconnect(s.(replies := s.replies + [Sent(token, Failed(WriteError))]), BrokenPipe, consumerOpen)
    case Some(Notify(token)) =>
      Acknowledge(s, token, WroteNotification, writeOk)
    case Some(ResolveServerRequest(id, token)) =>
      Acknowledge(s, token, WroteResponse(id), writeOk)
    case Some(RejectServerRequest(id, token)) =>
      Acknowledge(s, token, WroteError(id), writeOk)
    case Some(Shutdown(token)) =>
      s.(acknowledged := s.acknowledged + [token], running := false)
  }

  /** A write whose outcome is reported to its caller but does not end the loop. */
  function Acknowledge(s: State, token: Token, w: Written, writeOk: bool): State {
    s.(acknowledged := s.acknowledged + [token], written := if writeOk then s.written + [w] else s.written)
  }

  /** Hand an event to the consumer, leaving the loop when nobody listens any more. */
  function Forward(s: State, e: Event, consumerOpen: bool): State {
    if consumerOpen then Deliver(s, e, true) else s.(running := false)
  }

  function StepMessage(s: State, message: Message, writeOk: bool, consumerOpen: bool): State {
    match message
    case Response(id, body) => Resolve(s, id, Success(body))
    case Error(id, body) => Resolve(s, id, ServerError(body))
    case Notification(Some(n)) => Forward(s, NotificationEvent(n), consumerOpen)
    case Notification(None) => s
    case ServerRequest(id, Some(n)) => Forward(s, RequestEvent(n), consumerOpen)
    case ServerRequest(id, None) =>
      if writeOk then s.(written := s.written + [WroteUnsupported(id, METHOD_NOT_FOUND)])
      else Disconnect(s, BrokenPipe, consumerOpen)
  }

  function StepFrame(s: State, frame: Frame, writeOk: bool, consumerOpen: bool): State {
    match frame
    case Message(message) => StepMessage(s, message, writeOk, consumerOpen)
    case InvalidJsonRpc => Disconnect(s, InvalidData, consumerOpen)
    case Close => Disconnect(s, ConnectionAborted, consumerOpen)
    case Ignorable => s
    case TransportFailure => Disconnect(s, InvalidData, consumerOpen)
    case EndOfStream => Disconnect(s, UnexpectedEof, consumerOpen)
  }

  /** One turn; after the loop has been left nothing more is taken. */
  function Step(s: State, input: Input): State {
    if !s.running then s
    else
      match input
      case OnCommand(command, writeOk, consumerOpen) => StepCommand(s, command, writeOk, consumerOpen)
      case OnFrame(frame, writeOk, consumerOpen) => StepFrame(s, frame, writeOk, consumerOpen)
  }

  function Run(s: State, inputs: seq<Input>): State {
    if inputs == [] then s else Step(Run(s, inputs[..|inputs| - 1]), inputs[|inputs| - 1])
  }

  /** The error every request still pending on exit is failed with. */
  function ExitKind(s: State): ErrorKind {
    match s.exitError case Some(kind) => kind case None => BrokenPipe
  }

  /** `order` lists each pending id once. */
  ghost predicate Enumerates(order: seq<RequestId>, ids: set<RequestId>) {
    && (forall i :: 0 <= i < |order| ==> order[i] in ids)
    && (forall id :: id in ids ==> id in order)
    && (forall i, j :: 0 <= i < j < |order| ==> order[i] != order[j])
  }

  lemma EnumeratesRest(order: seq<RequestId>, ids: set<RequestId>)
    requires Enumerates(order, ids) && order != []
    ensures Enumerates(order[1..], ids - {order[0]})
  {
    assert order == [order[0]] + order[1..];
  }

  lemma EnumeratesCons(id: RequestId, rest: seq<RequestId>, ids: set<RequestId>)
    requires id in ids && Enumerates(rest, ids - {id})
    ensures Enumerates([id] + rest, ids)
  {
  }

  function FailPending(s: State, id: RequestId): State
    requires id in s.pending
  {
    s.(pending := s.pending - {id}, replies := s.replies + [Sent(s.pending[id], Failed(ExitKind(s)))])
  }

  /** Fail everything still pending, in the order the map is drained. */
  ghost function Drain(s: State, order: seq<RequestId>): State
    requires Enumerates(order, s.pending.Keys)
    decreases order
  {
    if order == [] then s
    else
      EnumeratesRest(order, s.pending.Keys);
      assert FailPending(s, order[0]).pending.Keys == s.pending.Keys - {order[0]};
      Drain(FailPending(s, order[0]), order[1..])
  }

  // ----- exactly one reply -----

  function Replies(sent: seq<Sent>, token: Token): nat {
    if sent == [] then 0
    else Replies(sent[..|sent| - 1], token) + if sent[|sent| - 1].token == token then 1 else 0
  }

  lemma RepliesSnoc(sent: seq<Sent>, x: Sent, token: Token)
    ensures Replies(sent + [x], token) == Replies(sent, token) + if x.token == token then 1 else 0
  {
    assert (sent + [x])[..|sent|] == sent;
  }

  /** Tokens of the request commands the worker takes over a run. */
  function Taken(s: State, inputs: seq<Input>): seq<Token> {
    if inputs == [] then []
    else
      var before := Run(s, inputs[..|inputs| - 1]);
      Taken(s, inputs[..|inputs| - 1]) + TakenBy(before, inputs[|inputs| - 1])
  }

  function TakenBy(s: State, input: Input): seq<Token> {
    if s.running && input.OnCommand? && input.command.Some? && input.command.value.Request?
    then [input.command.value.token] else []
  }

  ghost predicate Distinct(tokens: seq<Token>) {
    forall i, j :: 0 <= i < j < |tokens| ==> tokens[i] != tokens[j]
  }

  ghost predicate Waiting(s: State, token: Token) {
    exists id :: id in s.pending && s.pending[id] == token
  }

  /** Every request taken so far is waiting under one id or has had its one reply, never both. */
  ghost predicate Accounted(s: State, taken: seq<Token>) {
    && (forall t :: t in taken ==> Replies(s.replies, t) == if Waiting(s, t) then 0 else 1)
    && (forall t :: t !in taken ==> Replies(s.replies, t) == 0 && !Waiting(s, t))
    && (forall a, b :: a in s.pending && b in s.pending && s.pending[a] == s.pending[b] ==> a == b)
  }

  lemma AccountedReply(s: State, taken: seq<Token>, id: RequestId, reply: Reply)
    requires Accounted(s, taken) && id in s.pending
    ensures Accounted(s.(pending := s.pending - {id}, replies := s.replies + [Sent(s.pending[id], reply)]), taken)
  {
    var token := s.pending[id];
    var s' := s.(pending := s.pending - {id}, replies := s.replies + [Sent(token, reply)]);
    assert Waiting(s, token);
    assert token in taken;
    forall t ensures Replies(s'.replies, t) == Replies(s.replies, t) + if t == token then 1 else 0 {
      RepliesSnoc(s.replies, Sent(token, reply), t);
    }
    forall t ensures Waiting(s', t) <==> Waiting(s, t) && t != token {
      if Waiting(s, t) && t != token {
        var a :| a in s.pending && s.pending[a] == t;
        assert a in s'.pending;
      }
    }
  }

  lemma AccountedRejected(s: State, taken: seq<Token>, token: Token, reply: Reply)
    requires Accounted(s, taken) && token !in taken
    ensures Accounted(s.(replies := s.replies + [Sent(token, reply)]), taken + [token])
  {
    var s' := s.(replies := s.replies + [Sent(token, reply)]);
    forall t ensures Replies(s'.replies, t) == Replies(s.replies, t) + if t == token then 1 else 0 {
      RepliesSnoc(s.replies, Sent(token, reply), t);
    }
    forall t ensures Waiting(s', t) <==> Waiting(s, t) {
    }
  }

  lemma AccountedInsert(s: State, taken: seq<Token>, id: RequestId, token: Token)
    requires Accounted(s, taken) && token !in taken && id !in s.pending
    ensures Accounted(s.(pending := s.pending[id := token]), taken + [token])
  {
    var s' := s.(pending := s.pending[id := token]);
    forall t ensures Waiting(s', t) <==> Waiting(s, t) || t == token {
      if Waiting(s, t) {
        var a :| a in s.pending && s.pending[a] == t;
        assert a in s'.pending && s'.pending[a] == t;
      }
      if t == token {
        assert id in s'.pending && s'.pending[id] == t;
      }
    }
  }

  lemma AccountedSame(s: State, s': State, taken: seq<Token>)
    requires Accounted(s, taken) && s'.pending == s.pending && s'.replies == s.replies
    ensures Accounted(s', taken)
  {
    forall t ensures Waiting(s', t) <==> Waiting(s, t) {
    }
  }

  lemma AccountedStep(s: State, taken: seq<Token>, input: Input)
    requires Accounted(s, taken) && (forall t :: t in TakenBy(s, input) ==> t !in taken)
    ensures Accounted(Step(s, input), taken + TakenBy(s, input))
  {
    var s' := Step(s, input);
    if TakenBy(s, input) != [] {
      var id, token := input.command.value.id, input.command.value.token;
      assert token in TakenBy(s, input);
      if id in s.pending {
        AccountedRejected(s, taken, token, Failed(InvalidInput));
      } else if input.writeOk {
        AccountedInsert(s, taken, id, token);
        AccountedSame(s.(pending := s.pending[id := token]), s', taken + [token]);
      } else {
        AccountedRejected(s, taken, token, Failed(WriteError));
        AccountedSame(s.(replies := s.replies + [Sent(token, Failed(WriteError))]), s', taken + [token]);
      }
    } else {
      assert taken + [] == taken;
      if s'.pending == s.pending && s'.replies == s.replies {
        AccountedSame(s, s', taken);
      } else {
        var m := input.frame.message;
        var answer := if m.Response? then Success(m.body) else ServerError(m.body);
        AccountedReply(s, taken, m.id, Answered(answer));
      }
    }
  }

  lemma {:induction false} AccountedRun(inputs: seq<Input>)
    requires Distinct(Taken(START, inputs))
    ensures Accounted(Run(START, inputs), Taken(START, inputs))
  {
    if inputs != [] {
      var n := |inputs| - 1;
      var before, taken := Run(START, inputs[..n]), Taken(START, inputs[..n]);
      var more := TakenBy(before, inputs[n]);
      assert Taken(START, inputs) == taken + more;
      assert forall i :: 0 <= i < |taken| ==> (taken + more)[i] == taken[i];
      assert more != [] ==> (taken + more)[|taken|] == more[0];
      AccountedRun(inputs[..n]);
      AccountedStep(before, taken, inputs[n]);
    }
  }

  lemma {:induction false} DrainAccounted(s: State, order: seq<RequestId>, taken: seq<Token>)
    requires Enumerates(order, s.pending.Keys) && Accounted(s, taken)
    ensures Accounted(Drain(s, order), taken) && Drain(s, order).pending == map[]
    decreases order
  {
    if order == [] {
      assert s.pending.Keys == {};
    } else {
      EnumeratesRest(order, s.pending.Keys);
      assert FailPending(s, order[0]).pending.Keys == s.pending.Keys - {order[0]};
      AccountedReply(s, taken, order[0], Failed(ExitKind(s)));
      DrainAccounted(FailPending(s, order[0]), order[1..], taken);
    }
  }

  /** On every run and every way out, each request taken gets exactly one reply, and nobody else gets any. */
  lemma ExactlyOneReply(inputs: seq<Input>, order: seq<RequestId>, token: Token)
    requires Distinct(Taken(START, inputs))
    requires Enumerates(order, Run(START, inputs).pending.Keys)
    ensures Replies(Drain(Run(START, inputs), order).replies, token) == if token in Taken(START, inputs) then 1 else 0
  {
    AccountedRun(inputs);
    DrainAccounted(Run(START, inputs), order, Taken(START, inputs));
    assert !Waiting(Drain(Run(START, inputs), order), token);
  }

  /** The first outstanding waiter of an id stays until its own reply: no other step removes or replaces it. */
  lemma WaiterStays(s: State, input: Input, id: RequestId)
    requires id in s.pending
    ensures var s' := Step(s, input);
            || (id in s'.pending && s'.pending[id] == s.pending[id])
            || (|s'.replies| == |s.replies| + 1 && s'.replies[|s.replies|].token == s.pending[id]
                && s'.replies[|s.replies|].reply.Answered?)
  {
  }

  // ----- the code -----

  class Worker {
    var pendingRequests: map<RequestId, Token>
    var workerExitError: Option<ErrorKind>
    var running: bool
    var replies: seq<Sent>
    var acknowledged: seq<Token>
    var events: seq<Event>
    var written: seq<Written>

    ghost function View(): State
      reads this
    {
      State(pendingRequests, workerExitError, running, replies, acknowledged, events, written)
    }

    constructor ()
      ensures View() == START
    {
      pendingRequests, workerExitError, running := map[], None, true;
      replies, acknowledged, events, written := [], [], [], [];
    }

    /** One iteration of the select loop. */
    method Turn(input: Input)
      requires running
      modifies this
      ensures View() == Step(old(View()), input)
    {
      match input {
        case OnCommand(command, writeOk, consumerOpen) => HandleCommand(command, writeOk, consumerOpen);
        case OnFrame(frame, writeOk, consumerOpen) => HandleFrame(frame, writeOk, consumerOpen);
      }
    }

    method DeliverEvent(e: Event, consumerOpen: bool) returns (ok: bool)
      modifies this`events
      ensures View() == Deliver(old(View()), e, consumerOpen) && ok == consumerOpen
    {
      if consumerOpen {
        events := events + [e];
      }
      ok := consumerOpen;
    }

    method HandleCommand(command: Option<Command>, writeOk: bool, consumerOpen: bool)
      requires running
      modifies this
      ensures View() == StepCommand(old(View()), command, writeOk, consumerOpen)
    {
      if command.None? {
        running := false;
        return;
      }
      match command.value {
        case Request(id, token) =>
          if id in pendingRequests {
            replies := replies + [Sent(token, Failed(InvalidInput))];
            return;
          }
          ghost var before := pendingRequests;
          pendingRequests := pendingRequests[id := token];
          if writeOk {
            written := written + [WroteRequest(id, token)];
          } else {
            if id in pendingRequests {
              replies := replies + [Sent(pendingRequests[id], Failed(WriteError))];
              pendingRequests := pendingRequests - {id};
              assert pendingRequests == before;
            }
            var delivered := DeliverEvent(Disconnected, consumerOpen);
            workerExitError := Some(BrokenPipe);
            running := false;
          }
        case Notify(token) =>
          if writeOk {
            written := written + [WroteNotification];
          }
          acknowledged := acknowledged + [token];
        case ResolveServerRequest(id, token) =>
          if writeOk {
            written := written + [WroteResponse(id)];
          }
          acknowledged := acknowledged + [token];
        case RejectServerRequest(id, token) =>
          if writeOk {
            written := written + [WroteError(id)];
          }
          acknowledged := acknowledged + [token];
        case Shutdown(token) =>
          acknowledged := acknowledged + [token];
          running := false;
      }
    }

    method HandleFrame(frame: Frame, writeOk: bool, consumerOpen: bool)
      requires running
      modifies this
      ensures View() == StepFrame(old(View()), frame, writeOk, consumerOpen)
    {
      match frame {
        case Message(message) =>
          HandleMessage(message, writeOk, consumerOpen);
        case InvalidJsonRpc =>
          Leave(InvalidData, consumerOpen);
        case Close =>
          Leave(ConnectionAborted, consumerOpen);
        case Ignorable =>
        case TransportFailure =>
          Leave(InvalidData, consumerOpen);
        case EndOfStream =>
          Leave(UnexpectedEof, consumerOpen);
      }
    }

    /** Announce the disconnect, remember why and break. */
    method Leave(kind: ErrorKind, consumerOpen: bool)
      modifies this
      ensures View() == Disconnect(old(View()), kind, consumerOpen)
    {
      var delivered := DeliverEvent(Disconnected, consumerOpen);
      workerExitError := Some(kind);
      running := false;
    }

    method SendReply(id: RequestId, answer: Answer)
      modifies this
      ensures View() == Resolve(old(View()), id, answer)
    {
      if id in pendingRequests {
        var token := pendingRequests[id];
        pendingRequests := pendingRequests - {id};
        replies := replies + [Sent(token, Answered(answer))];
      }
    }

    method HandleMessage(message: Message, writeOk: bool, consumerOpen: bool)
      requires running
      modifies this
      ensures View() == StepMessage(old(View()), message, writeOk, consumerOpen)
    {
      match message {
        case Response(id, body) =>
          SendReply(id, Success(body));
        case Error(id, body) =>
          SendReply(id, ServerError(body));
        case Notification(decoded) =>
          if decoded.Some? {
            var delivered := DeliverEvent(NotificationEvent(decoded.value), consumerOpen);
            if !delivered {
              running := false;
            }
          }
        case ServerRequest(id, decoded) =>
          if decoded.Some? {
            var delivered := DeliverEvent(RequestEvent(decoded.value), consumerOpen);
            if !delivered {
              running := false;
            }
          } else if writeOk {
            written := written + [WroteUnsupported(id, METHOD_NOT_FOUND)];
          } else {
            Leave(BrokenPipe, consumerOpen);
          }
      }
    }

    /** The loop over `inputs` until a turn breaks, then the drain of what is still pending. */
    method RunLoop(inputs: seq<Input>) returns (consumed: nat, ghost order: seq<RequestId>)
      requires View() == START
      modifies this
      ensures consumed <= |inputs| && (consumed < |inputs| ==> !running)
      ensures Enumerates(order, Run(START, inputs[..consumed]).pending.Keys)
      ensures Run(START, inputs) == Run(START, inputs[..consumed])
      ensures running ==> View() == Run(START, inputs)
      ensures !running ==> View() == Drain(Run(START, inputs), order)
      ensures !running && Distinct(Taken(START, inputs)) ==>
        forall token :: Replies(replies, token) == if token in Taken(START, inputs) then 1 else 0
    {
      consumed := 0;
      assert inputs[..0] == [];
      while consumed < |inputs| && running
        invariant 0 <= consumed <= |inputs|
        invariant View() == Run(START, inputs[..consumed])
      {
        assert inputs[..consumed + 1][..consumed] == inputs[..consumed];
        Turn(inputs[consumed]);
        consumed := consumed + 1;
      }
      ghost var last := View();
      if running {
        assert inputs[..consumed] == inputs;
        order := AnyOrder(last.pending.Keys);
      } else {
        StoppedStays(START, inputs, consumed);
        order := DrainPending();
        if Distinct(Taken(START, inputs)) {
          forall token ensures Replies(replies, token) == if token in Taken(START, inputs) then 1 else 0 {
            ExactlyOneReply(inputs, order, token);
          }
        }
      }
    }

    /** Fail every request still pending, one map entry at a time. */
    method DrainPending() returns (ghost order: seq<RequestId>)
      modifies this`replies, this`pendingRequests
      ensures Enumerates(order, old(View()).pending.Keys)
      ensures View() == Drain(old(View()), order)
    {
      var kind := if workerExitError.Some? then workerExitError.value else BrokenPipe;
      ghost var start := View();
      order := [];
      while pendingRequests != map[]
        invariant Drained(start, order, View()) && kind == ExitKind(View())
        decreases pendingRequests.Keys
      {
        var id :| id in pendingRequests;
        DrainSnoc(start, order, View(), id);
        replies := replies + [Sent(pendingRequests[id], Failed(kind))];
        pendingRequests := pendingRequests - {id};
        order := order + [id];
      }
      DrainedAll(start, order, View());
    }
  }

  lemma {:induction false} StoppedStays(s: State, inputs: seq<Input>, k: nat)
    requires k <= |inputs| && !Run(s, inputs[..k]).running
    ensures Run(s, inputs) == Run(s, inputs[..k])
    decreases inputs
  {
    if k == |inputs| {
      assert inputs[..k] == inputs;
    } else {
      assert inputs[..|inputs| - 1][..k] == inputs[..k];
      StoppedStays(s, inputs[..|inputs| - 1], k);
    }
  }

  lemma {:induction false} AnyOrder(ids: set<RequestId>) returns (order: seq<RequestId>)
    ensures Enumerates(order, ids)
    decreases ids
  {
    if ids == {} {
      order := [];
    } else {
      var id :| id in ids;
      var rest := AnyOrder(ids - {id});
      EnumeratesCons(id, rest, ids);
      order := [id] + rest;
    }
  }

  /** `s` is `start` after draining the ids of `order`, all different, and no others. */
  ghost predicate Drained(start: State, order: seq<RequestId>, s: State)
    decreases order
  {
    if order == [] then s == start
    else order[0] in start.pending && Drained(FailPending(start, order[0]), order[1..], s)
  }

  lemma {:induction false} DrainSnoc(start: State, order: seq<RequestId>, s: State, id: RequestId)
    requires Drained(start, order, s) && id in s.pending
    ensures Drained(start, order + [id], FailPending(s, id))
    decreases order
  {
    if order == [] {
      assert (order + [id])[1..] == [];
    } else {
      assert (order + [id])[1..] == order[1..] + [id];
      DrainSnoc(FailPending(start, order[0]), order[1..], s, id);
    }
  }

  lemma {:induction false} DrainedAll(start: State, order: seq<RequestId>, s: State)
    requires Drained(start, order, s) && s.pending == map[]
    ensures Enumerates(order, start.pending.Keys) && s == Drain(start, order)
    decreases order
  {
    if order != [] {
      var next := FailPending(start, order[0]);
      DrainedAll(next, order[1..], s);
      assert next.pending.Keys == start.pending.Keys - {order[0]};
      EnumeratesCons(order[0], order[1..], start.pending.Keys);
      assert order == [order[0]] + order[1..];
    }
  }
}
