/** What the worker has done, read off its inputs one observable at a time. */
module RemoteHistory {
  import opened Text
  import opened RemoteWorker

  // ----- who waits, and until when -----

  /** The waiters: each written request waits from its writing to the answer under its id. */
  function Waiters(inputs: seq<Input>): map<RequestId, Token> {
    if inputs == [] then map[]
    else
      var past, now := inputs[..|inputs| - 1], inputs[|inputs| - 1];
      if !Alive(past) then Waiters(past)
      else
        match now
        case OnCommand(Some(Request(id, token)), true, _) => if id in Waiters(past) then Waiters(past) else Waiters(past)[id := token]
        case OnFrame(Message(Response(id, _)), _, _) => Waiters(past) - {id}
        case OnFrame(Message(Error(id, _)), _, _) => Waiters(past) - {id}
        case _ => Waiters(past)
  }

  /** No input so far has ended the loop. */
  predicate Alive(inputs: seq<Input>) {
    inputs == [] ||
    var past, now := inputs[..|inputs| - 1], inputs[|inputs| - 1];
    Alive(past) && !Ends(Waiters(past).Keys, now)
  }

  /**
   * A closed command channel, a shutdown, a request or a refusal that cannot be written, an event
   * nobody takes, and every way the connection can break.
   */
  predicate Ends(busy: set<RequestId>, now: Input) {
    match now
    case OnCommand(None, _, _) => true
    case OnCommand(Some(Shutdown(_)), _, _) => true
    case OnCommand(Some(Request(id, _)), writeOk, _) => !writeOk && id !in busy
    case OnFrame(Message(Notification(Some(_))), _, consumerOpen) => !consumerOpen
    case OnFrame(Message(ServerRequest(_, Some(_))), _, consumerOpen) => !consumerOpen
    case OnFrame(Message(ServerRequest(_, None)), writeOk, _) => !writeOk
    case OnFrame(InvalidJsonRpc, _, _) => true
    case OnFrame(Close, _, _) => true
    case OnFrame(TransportFailure, _, _) => true
    case OnFrame(EndOfStream, _, _) => true
    case _ => false
  }

  /** The error an ending input leaves behind; a shutdown and an absent consumer leave none. */
  function Blame(now: Input): Option<ErrorKind> {
    match now
    case OnCommand(Some(Request(_, _)), _, _) => Some(BrokenPipe)
    case OnFrame(Message(ServerRequest(_, None)), _, _) => Some(BrokenPipe)
    case OnFrame(InvalidJsonRpc, _, _) => Some(InvalidData)
    case OnFrame(TransportFailure, _, _) => Some(InvalidData)
    case OnFrame(Close, _, _) => Some(ConnectionAborted)
    case OnFrame(EndOfStream, _, _) => Some(UnexpectedEof)
    case _ => None
  }

  function Reason(inputs: seq<Input>): Option<ErrorKind> {
    if Alive(inputs) then None
    else
      var past, now := inputs[..|inputs| - 1], inputs[|inputs| - 1];
      if Alive(past) then Blame(now) else Reason(past)
  }

  // ----- what it wrote, acknowledged, raised and answered -----

  /** The line an input puts on the wire when the write succeeds. */
  function LineOf(busy: set<RequestId>, now: Input): seq<Written> {
    match now
    case OnCommand(Some(Request(id, token)), true, _) => if id in busy then [] else [WroteRequest(id, token)]
    case OnCommand(Some(Notify(_)), true, _) => [WroteNotification]
    case OnCommand(Some(ResolveServerRequest(id, _)), true, _) => [WroteResponse(id)]
    case OnCommand(Some(RejectServerRequest(id, _)), true, _) => [WroteError(id)]
    case OnFrame(Message(ServerRequest(id, None)), true, _) => [WroteUnsupported(id, -32601)]
    case _ => []
  }

  function Lines(inputs: seq<Input>): seq<Written> {
    if inputs == [] then []
    else
      var past, now := inputs[..|inputs| - 1], inputs[|inputs| - 1];
      if Alive(past) then Lines(past) + LineOf(Waiters(past).Keys, now) else Lines(past)
  }

  /** Every command but a request is acknowledged to its caller, whether its write succeeds or not. */
  function AckOf(now: Input): seq<Token> {
    match now
    case OnCommand(Some(Notify(token)), _, _) => [token]
    case OnCommand(Some(ResolveServerRequest(_, token)), _, _) => [token]
    case OnCommand(Some(RejectServerRequest(_, token)), _, _) => [token]
    case OnCommand(Some(Shutdown(token)), _, _) => [token]
    case _ => []
  }

  function Acks(inputs: seq<Input>): seq<Token> {
    if inputs == [] then []
    else
      var past, now := inputs[..|inputs| - 1], inputs[|inputs| - 1];
      if Alive(past) then Acks(past) + AckOf(now) else Acks(past)
  }

  /** The event an input raises for a consumer that listens. */
  function EventOf(busy: set<RequestId>, now: Input): seq<Event> {
    if !now.consumerOpen then []
    else
      match now
      case OnFrame(Message(Notification(Some(n))), _, _) => [NotificationEvent(n)]
      case OnFrame(Message(ServerRequest(_, Some(n))), _, _) => [RequestEvent(n)]
      case _ => if Ends(busy, now) && Blame(now).Some? then [Disconnected] else []
  }

  function Raised(inputs: seq<Input>): seq<Event> {
    if inputs == [] then []
    else
      var past, now := inputs[..|inputs| - 1], inputs[|inputs| - 1];
      if Alive(past) then Raised(past) + EventOf(Waiters(past).Keys, now) else Raised(past)
  }

  /** A duplicate and an unwritable request fail at once; an answer goes to the waiter under its id. */
  function AnswerOf(waiters: map<RequestId, Token>, now: Input): seq<Sent> {
    match now
    case OnCommand(Some(Request(id, token)), writeOk, _) =>
      if id in waiters then [Sent(token, Failed(InvalidInput))]
      else if writeOk then []
      else [Sent(token, Failed(WriteError))]
    case OnFrame(Message(Response(id, body)), _, _) => if id in waiters then [Sent(waiters[id], Answered(Success(body)))] else []
    case OnFrame(Message(Error(id, body)), _, _) => if id in waiters then [Sent(waiters[id], Answered(ServerError(body)))] else []
    case _ => []
  }

  function Answers(inputs: seq<Input>): seq<Sent> {
    if inputs == [] then []
    else
      var past, now := inputs[..|inputs| - 1], inputs[|inputs| - 1];
      if Alive(past) then Answers(past) + AnswerOf(Waiters(past), now) else Answers(past)
  }

  // ----- the worker does exactly that -----

  function History(inputs: seq<Input>): State {
    State(Waiters(inputs), Reason(inputs), Alive(inputs), Answers(inputs), Acks(inputs), Raised(inputs), Lines(inputs))
  }

  lemma CommandHistory(s: State, command: Option<Command>, writeOk: bool, consumerOpen: bool)
    requires s.running && s.exitError == None
    ensures var now := OnCommand(command, writeOk, consumerOpen); var busy := s.pending.Keys;
            StepCommand(s, command, writeOk, consumerOpen)
            == State(match now
                     case OnCommand(Some(Request(id, token)), true, _) => if id in s.pending then s.pending else s.pending[id := token]
                     case _ => s.pending,
                     if Ends(busy, now) then Blame(now) else None, !Ends(busy, now), s.replies + AnswerOf(s.pending, now),
                     s.acknowledged + AckOf(now), s.events + EventOf(busy, now), s.written + LineOf(busy, now))
  {
    assert s.replies + [] == s.replies && s.acknowledged + [] == s.acknowledged;
    assert s.events + [] == s.events && s.written + [] == s.written;
  }

  lemma FrameHistory(s: State, frame: Frame, writeOk: bool, consumerOpen: bool)
    requires s.running && s.exitError == None
    ensures var now := OnFrame(frame, writeOk, consumerOpen); var busy := s.pending.Keys;
            StepFrame(s, frame, writeOk, consumerOpen)
            == State(match frame
                     case Message(Response(id, _)) => s.pending - {id}
                     case Message(Error(id, _)) => s.pending - {id}
                     case _ => s.pending,
                     if Ends(busy, now) then Blame(now) else None, !Ends(busy, now), s.replies + AnswerOf(s.pending, now),
                     s.acknowledged + AckOf(now), s.events + EventOf(busy, now), s.written + LineOf(busy, now))
  {
    assert s.replies + [] == s.replies && s.acknowledged + [] == s.acknowledged;
    assert s.events + [] == s.events && s.written + [] == s.written;
    match frame {
      case Message(Response(id, _)) => assert id !in s.pending ==> s.pending - {id} == s.pending;
      case Message(Error(id, _)) => assert id !in s.pending ==> s.pending - {id} == s.pending;
      case _ =>
    }
  }

  /** In every run each observable of the worker is what its inputs say. */
  lemma {:induction false} RunIsHistory(inputs: seq<Input>)
    ensures Run(START, inputs) == History(inputs)
  {
    if inputs != [] {
      var n := |inputs| - 1;
      var past, now := inputs[..n], inputs[n];
      RunIsHistory(past);
      if Alive(past) {
        match now {
          case OnCommand(command, writeOk, consumerOpen) => CommandHistory(Run(START, past), command, writeOk, consumerOpen);
          case OnFrame(frame, writeOk, consumerOpen) => FrameHistory(Run(START, past), frame, writeOk, consumerOpen);
        }
      }
    }
  }

  /** What the drain sends: each waiter left fails with the reason of the exit, or with a broken pipe if there was none. */
  function Leftover(waiters: map<RequestId, Token>, order: seq<RequestId>, kind: ErrorKind): seq<Sent>
    requires forall i :: 0 <= i < |order| ==> order[i] in waiters
  {
    seq(|order|, i requires 0 <= i < |order| => Sent(waiters[order[i]], Failed(kind)))
  }

  lemma LeftoverCons(sent: seq<Sent>, waiters: map<RequestId, Token>, rest: map<RequestId, Token>, order: seq<RequestId>, kind: ErrorKind)
    requires order != [] && forall i :: 0 <= i < |order| ==> order[i] in waiters
    requires forall i :: 1 <= i < |order| ==> order[i] in rest && rest[order[i]] == waiters[order[i]]
    ensures forall i :: 0 <= i < |order[1..]| ==> order[1..][i] in rest
    ensures sent + Leftover(waiters, order, kind) == (sent + [Sent(waiters[order[0]], Failed(kind))]) + Leftover(rest, order[1..], kind)
  {
  }

  lemma DrainStep(s: State, order: seq<RequestId>) returns (next: State)
    requires Enumerates(order, s.pending.Keys) && order != []
    ensures Enumerates(order[1..], next.pending.Keys) && Drain(s, order) == Drain(next, order[1..])
    ensures ExitKind(next) == ExitKind(s) && next.replies == s.replies + [Sent(s.pending[order[0]], Failed(ExitKind(s)))]
    ensures forall i :: 1 <= i < |order| ==> order[i] in next.pending && next.pending[order[i]] == s.pending[order[i]]
  {
    next := FailPending(s, order[0]);
    EnumeratesRest(order, s.pending.Keys);
    assert next.pending.Keys == s.pending.Keys - {order[0]};
  }

  lemma {:induction false} DrainSends(s: State, order: seq<RequestId>)
    requires Enumerates(order, s.pending.Keys)
    ensures Drain(s, order).replies == s.replies + Leftover(s.pending, order, ExitKind(s))
    decreases order
  {
    if order != [] {
      var next := DrainStep(s, order);
      DrainSends(next, order[1..]);
      LeftoverCons(s.replies, s.pending, next.pending, order, ExitKind(s));
    }
  }

  /** After the loop, every waiter still there is failed with the error of the input that ended it. */
  lemma LeftoverFails(inputs: seq<Input>, order: seq<RequestId>)
    requires Enumerates(order, Waiters(inputs).Keys)
    ensures Run(START, inputs).pending == Waiters(inputs)
    ensures Drain(Run(START, inputs), order).replies
         == Answers(inputs) + Leftover(Waiters(inputs), order, match Reason(inputs) case Some(kind) => kind case None => BrokenPipe)
  {
    RunIsHistory(inputs);
    DrainSends(Run(START, inputs), order);
  }
}
