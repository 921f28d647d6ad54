/** Client, wire and server together: every reply reaches the waiter whose request it answers. */
module RemoteProtocol {
  import opened Text
  import opened RemoteWorker

  /** A request on its way, with the waiter it belongs to. */
  datatype InFlight = InFlight(id: RequestId, token: Token)

  /** A frame on its way to the client; an answer remembers which waiter's request it answers. */
  datatype Inbound = Answering(id: RequestId, token: Token, answer: Answer) | Other(frame: Frame)

  /**
   * `held` are the requests the server has received and not answered, `answered` those it has, and
   * `answers` every answer it ever gave, under the waiter whose request it answers.
   */
  datatype System = System(worker: State, toServer: seq<InFlight>, held: seq<InFlight>, answered: seq<InFlight>,
                           toClient: seq<Inbound>, answers: seq<Sent>, taken: seq<Token>)

  const BEGIN := System(START, [], [], [], [], [], [])

  /**
   * A client request carries the next fresh token. The server answers what it holds, in any order;
   * a server that breaks the protocol answers an old request again.
   */
  datatype Move =
    | ClientRequests(id: RequestId, writeOk: bool, consumerOpen: bool)
    | ClientDoes(command: Option<Command>, writeOk: bool, consumerOpen: bool)
    | ServerReceives
    | ServerAnswers(k: nat, answer: Answer)
    | ServerAnswersAgain(k: nat, answer: Answer)
    | ServerEmits(frame: Frame)
    | ClientReceives(writeOk: bool, consumerOpen: bool)

  predicate IsReply(frame: Frame) {
    frame.Message? && (frame.message.Response? || frame.message.Error?)
  }

  predicate Enabled(s: System, m: Move) {
    match m
    case ClientRequests(_, _, _) => true
    case ClientDoes(command, _, _) => !(command.Some? && command.value.Request?)
    case ServerReceives => s.toServer != []
    case ServerAnswers(k, _) => k < |s.held|
    case ServerAnswersAgain(k, _) => k < |s.answered|
    case ServerEmits(frame) => !IsReply(frame)
    case ClientReceives(_, _) => s.toClient != []
  }

  function AnswerFrame(id: RequestId, answer: Answer): Frame {
    match answer
    case Success(body) => Message(Response(id, body))
    case ServerError(body) => Message(Error(id, body))
  }

  function FrameOf(m: Inbound): Frame {
    match m
    case Answering(id, _, answer) => AnswerFrame(id, answer)
    case Other(frame) => frame
  }

  function FreshToken(s: System): Token {
    |s.taken|
  }

  /** Whether a request command was written, rather than refused or lost. */
  predicate Writes(s: State, id: RequestId, writeOk: bool) {
    s.running && id !in s.pending && writeOk
  }

  function GiveAnswer(s: System, r: InFlight, answer: Answer): System {
    s.(toClient := s.toClient + [Answering(r.id, r.token, answer)], answers := s.answers + [Sent(r.token, Answered(answer))])
  }

  function Apply(s: System, m: Move): System {
    match m
    case ClientRequests(id, writeOk, consumerOpen) =>
      var token := FreshToken(s);
      if !s.worker.running then s
      else
        s.(worker := Step(s.worker, OnCommand(Some(Request(id, token)), writeOk, consumerOpen)),
           toServer := if Writes(s.worker, id, writeOk) then s.toServer + [InFlight(id, token)] else s.toServer,
           taken := s.taken + [token])
    case ClientDoes(command, writeOk, consumerOpen) =>
      s.(worker := Step(s.worker, OnCommand(command, writeOk, consumerOpen)))
    case ServerReceives =>
      if s.toServer == [] then s
      else s.(toServer := s.toServer[1..], held := s.held + [s.toServer[0]])
    case ServerAnswers(k, answer) =>
      if k >= |s.held| then s
      else GiveAnswer(s, s.held[k], answer).(held := s.held[..k] + s.held[k + 1..], answered := s.answered + [s.held[k]])
    case ServerAnswersAgain(k, answer) =>
      if k >= |s.answered| then s else GiveAnswer(s, s.answered[k], answer)
    case ServerEmits(frame) => s.(toClient := s.toClient + [Other(frame)])
    case ClientReceives(writeOk, consumerOpen) =>
      if s.toClient == [] || !s.worker.running then s
      else
        s.(worker := Step(s.worker, OnFrame(FrameOf(s.toClient[0]), writeOk, consumerOpen)),
           toClient := s.toClient[1..])
  }

  /** Moves that are not enabled do not happen. */
  function RunSystem(moves: seq<Move>): System {
    if moves == [] then BEGIN
    else
      var s := RunSystem(moves[..|moves| - 1]);
      if Enabled(s, moves[|moves| - 1]) then Apply(s, moves[|moves| - 1]) else s
  }

  // ----- what is in flight -----

  function Answers(ms: seq<Inbound>): seq<InFlight> {
    if ms == [] then []
    else if ms[0].Answering? then [InFlight(ms[0].id, ms[0].token)] + Answers(ms[1..])
    else Answers(ms[1..])
  }

  /** The answers on the wire, as the replies they will become. */
  function OnWire(ms: seq<Inbound>): seq<Sent> {
    if ms == [] then []
    else if ms[0].Answering? then [Sent(ms[0].token, Answered(ms[0].answer))] + OnWire(ms[1..])
    else OnWire(ms[1..])
  }

  /** The replies that came from the server. */
  function Delivered(replies: seq<Sent>): seq<Sent> {
    if replies == [] then []
    else
      var n := |replies| - 1;
      Delivered(replies[..n]) + if replies[n].reply.Answered? then [replies[n]] else []
  }

  ghost function Outstanding(s: System): multiset<InFlight> {
    multiset(s.toServer) + multiset(s.held) + multiset(Answers(s.toClient))
  }

  /** Requests in flight are duplicate-free and are exactly the pending entries. */
  ghost predicate MatchesPending(s: System) {
    forall r :: Outstanding(s)[r] == if r.id in s.worker.pending && s.worker.pending[r.id] == r.token then 1 else 0
  }

  ghost predicate Good(s: System) {
    && (s.worker.running ==> MatchesPending(s))
    && (s.worker.running ==> s.answers == Delivered(s.worker.replies) + OnWire(s.toClient))
    && Delivered(s.worker.replies) <= s.answers
    && Accounted(s.worker, s.taken)
    && (forall m :: m in s.toClient && m.Other? ==> !IsReply(m.frame))
    && (forall i :: 0 <= i < |s.taken| ==> s.taken[i] == i)
  }

  lemma DeliveredSnoc(replies: seq<Sent>, x: Sent)
    ensures Delivered(replies + [x]) == Delivered(replies) + if x.reply.Answered? then [x] else []
  {
    assert (replies + [x])[..|replies|] == replies;
  }

  lemma {:induction false} AnswersSnoc(ms: seq<Inbound>, m: Inbound)
    ensures Answers(ms + [m]) == Answers(ms) + if m.Answering? then [InFlight(m.id, m.token)] else []
    ensures OnWire(ms + [m]) == OnWire(ms) + if m.Answering? then [Sent(m.token, Answered(m.answer))] else []
  {
    if ms == [] {
      assert ms + [m] == [m];
      assert [m][1..] == [];
    } else {
      assert (ms + [m])[1..] == ms[1..] + [m];
      AnswersSnoc(ms[1..], m);
    }
  }

  // ----- one lemma per move -----

  lemma RequestGood(s: System, id: RequestId, writeOk: bool, consumerOpen: bool)
    requires Good(s)
    ensures Good(Apply(s, ClientRequests(id, writeOk, consumerOpen)))
  {
    if s.worker.running {
      var token := FreshToken(s);
      var input := OnCommand(Some(Request(id, token)), writeOk, consumerOpen);
      var s' := Apply(s, ClientRequests(id, writeOk, consumerOpen));
      assert token !in s.taken;
      AccountedStep(s.worker, s.taken, input);
      RequestDelivered(s.worker, id, token, writeOk, consumerOpen);
      if Writes(s.worker, id, writeOk) {
        RequestMatches(s, id, token, s');
      } else if s'.worker.running {
        assert s'.worker.pending == s.worker.pending;
        assert Outstanding(s') == Outstanding(s);
      }
    }
  }

  lemma RequestDelivered(s: State, id: RequestId, token: Token, writeOk: bool, consumerOpen: bool)
    ensures Delivered(Step(s, OnCommand(Some(Request(id, token)), writeOk, consumerOpen)).replies) == Delivered(s.replies)
  {
    DeliveredSnoc(s.replies, Sent(token, Failed(InvalidInput)));
    DeliveredSnoc(s.replies, Sent(token, Failed(WriteError)));
  }

  lemma RequestMatches(s: System, id: RequestId, token: Token, s': System)
    requires MatchesPending(s) && id !in s.worker.pending
    requires s'.worker.pending == s.worker.pending[id := token]
    requires s'.toServer == s.toServer + [InFlight(id, token)] && s'.held == s.held && s'.toClient == s.toClient
    ensures MatchesPending(s')
  {
    assert Outstanding(s') == Outstanding(s) + multiset{InFlight(id, token)};
    forall r ensures Outstanding(s')[r] == if r.id in s'.worker.pending && s'.worker.pending[r.id] == r.token then 1 else 0 {
      assert Outstanding(s)[r] == if r.id in s.worker.pending && s.worker.pending[r.id] == r.token then 1 else 0;
    }
  }

  lemma OtherCommandGood(s: System, command: Option<Command>, writeOk: bool, consumerOpen: bool)
    requires Good(s) && !(command.Some? && command.value.Request?)
    ensures Good(Apply(s, ClientDoes(command, writeOk, consumerOpen)))
  {
    var s' := Apply(s, ClientDoes(command, writeOk, consumerOpen));
    AccountedStep(s.worker, s.taken, OnCommand(command, writeOk, consumerOpen));
    assert s.taken + [] == s.taken;
    assert s'.worker.pending == s.worker.pending && s'.worker.replies == s.worker.replies;
    assert Outstanding(s') == Outstanding(s);
  }

  lemma SameOutstandingGood(s: System, s': System)
    requires Good(s) && s'.worker == s.worker && s'.taken == s.taken && s'.answers == s.answers
    requires Outstanding(s') == Outstanding(s) && OnWire(s'.toClient) == OnWire(s.toClient)
    requires forall m :: m in s'.toClient && m.Other? ==> !IsReply(m.frame)
    ensures Good(s')
  {
  }

  lemma ReceiveGood(s: System)
    requires Good(s) && s.toServer != []
    ensures Good(Apply(s, ServerReceives))
  {
    var s' := Apply(s, ServerReceives);
    assert s.toServer == [s.toServer[0]] + s.toServer[1..];
    assert Outstanding(s') == Outstanding(s);
    SameOutstandingGood(s, s');
  }

  lemma EmitGood(s: System, frame: Frame)
    requires Good(s) && !IsReply(frame)
    ensures Good(Apply(s, ServerEmits(frame)))
  {
    AnswersSnoc(s.toClient, Other(frame));
    var s' := Apply(s, ServerEmits(frame));
    assert Answers(s'.toClient) == Answers(s.toClient);
    assert OnWire(s'.toClient) == OnWire(s.toClient);
    SameOutstandingGood(s, s');
  }

  lemma RemoveOne(held: seq<InFlight>, k: nat)
    requires k < |held|
    ensures multiset(held) == multiset(held[..k] + held[k + 1..]) + multiset{held[k]}
  {
    assert held == held[..k] + [held[k]] + held[k + 1..];
  }

  lemma AnswerGood(s: System, k: nat, answer: Answer)
    requires Good(s) && k < |s.held|
    ensures Good(Apply(s, ServerAnswers(k, answer)))
  {
    var r := s.held[k];
    var m := Answering(r.id, r.token, answer);
    var s' := Apply(s, ServerAnswers(k, answer));
    AnswersSnoc(s.toClient, m);
    RemoveOne(s.held, k);
    assert InFlight(r.id, r.token) == r;
    assert multiset(Answers(s'.toClient)) == multiset(Answers(s.toClient)) + multiset{r};
    assert Outstanding(s') == Outstanding(s);
    var x := Sent(r.token, Answered(answer));
    assert Delivered(s.worker.replies) + (OnWire(s.toClient) + [x]) == (Delivered(s.worker.replies) + OnWire(s.toClient)) + [x];
  }

  /** A frame that is no reply answers nobody. */
  lemma QuietFrame(s: State, frame: Frame, writeOk: bool, consumerOpen: bool)
    requires !IsReply(frame)
    ensures var s' := Step(s, OnFrame(frame, writeOk, consumerOpen)); s'.pending == s.pending && s'.replies == s.replies
  {
  }

  lemma OtherFrameGood(s: System, writeOk: bool, consumerOpen: bool)
    requires Good(s) && s.worker.running && s.toClient != [] && s.toClient[0].Other?
    ensures Good(Apply(s, ClientReceives(writeOk, consumerOpen)))
  {
    var frame := s.toClient[0].frame;
    assert s.toClient[0] in s.toClient;
    var s' := Apply(s, ClientReceives(writeOk, consumerOpen));
    AccountedStep(s.worker, s.taken, OnFrame(frame, writeOk, consumerOpen));
    assert s.taken + [] == s.taken;
    QuietFrame(s.worker, frame, writeOk, consumerOpen);
    SilentReceived(s, s');
  }

  lemma SilentReceived(s: System, s': System)
    requires Good(s) && s.toClient != [] && s.toClient[0].Other? && Accounted(s'.worker, s.taken)
    requires s' == s.(worker := s'.worker, toClient := s.toClient[1..]) && s.worker.running
    requires s'.worker.pending == s.worker.pending && s'.worker.replies == s.worker.replies
    ensures Good(s')
  {
    assert Outstanding(s') == Outstanding(s);
    assert forall m :: m in s'.toClient ==> m in s.toClient;
  }

  /** The reply at the head of the wire belongs to the waiter registered under its id. */
  lemma HeadAnswerMatches(s: System)
    requires Good(s) && s.worker.running && s.toClient != [] && s.toClient[0].Answering?
    ensures var m := s.toClient[0]; m.id in s.worker.pending && s.worker.pending[m.id] == m.token
  {
    var m := s.toClient[0];
    var r := InFlight(m.id, m.token);
    assert Answers(s.toClient)[0] == r;
    assert r in Answers(s.toClient);
    assert Outstanding(s)[r] > 0;
  }

  lemma AnswerFrameGood(s: System, writeOk: bool, consumerOpen: bool)
    requires Good(s) && s.worker.running && s.toClient != [] && s.toClient[0].Answering?
    ensures Good(Apply(s, ClientReceives(writeOk, consumerOpen)))
  {
    var m := s.toClient[0];
    var r := InFlight(m.id, m.token);
    var x := Sent(m.token, Answered(m.answer));
    var s' := Apply(s, ClientReceives(writeOk, consumerOpen));
    HeadAnswerMatches(s);
    AccountedStep(s.worker, s.taken, OnFrame(AnswerFrame(m.id, m.answer), writeOk, consumerOpen));
    assert s.taken + [] == s.taken;
    assert s'.worker == Resolve(s.worker, m.id, m.answer);
    assert s'.worker.replies == s.worker.replies + [x];
    DeliveredSnoc(s.worker.replies, x);
    assert Delivered(s.worker.replies) + ([x] + OnWire(s'.toClient)) == (Delivered(s.worker.replies) + [x]) + OnWire(s'.toClient);
    RemovedMatches(s, r, s');
    assert forall i :: i in s'.toClient ==> i in s.toClient;
  }

  lemma RemovedMatches(s: System, r: InFlight, s': System)
    requires MatchesPending(s) && r.id in s.worker.pending && s.worker.pending[r.id] == r.token
    requires s'.worker.pending == s.worker.pending - {r.id}
    requires s'.toServer == s.toServer && s'.held == s.held
    requires Answers(s.toClient) == [r] + Answers(s'.toClient)
    ensures MatchesPending(s')
  {
    assert Outstanding(s) == Outstanding(s') + multiset{r};
    forall q ensures Outstanding(s')[q] == if q.id in s'.worker.pending && s'.worker.pending[q.id] == q.token then 1 else 0 {
      assert Outstanding(s)[q] == if q.id in s.worker.pending && s.worker.pending[q.id] == q.token then 1 else 0;
    }
  }

  // ----- the main results -----

  /** The server keeps the protocol: it answers each request at most once. */
  predicate AnswersOnce(moves: seq<Move>) {
    forall i :: 0 <= i < |moves| ==> !moves[i].ServerAnswersAgain?
  }

  lemma {:induction false} SystemGood(moves: seq<Move>)
    requires AnswersOnce(moves)
    ensures Good(RunSystem(moves))
  {
    if moves == [] {
      assert Outstanding(BEGIN) == multiset{};
    } else {
      var s, m := RunSystem(moves[..|moves| - 1]), moves[|moves| - 1];
      SystemGood(moves[..|moves| - 1]);
      if Enabled(s, m) {
        match m {
          case ClientRequests(id, writeOk, consumerOpen) => RequestGood(s, id, writeOk, consumerOpen);
          case ClientDoes(command, writeOk, consumerOpen) => OtherCommandGood(s, command, writeOk, consumerOpen);
          case ServerReceives => ReceiveGood(s);
          case ServerAnswers(k, answer) => AnswerGood(s, k, answer);
          case ServerAnswersAgain(k, answer) => assert false;
          case ServerEmits(frame) => EmitGood(s, frame);
          case ClientReceives(writeOk, consumerOpen) =>
            if s.worker.running {
              if s.toClient[0].Answering? {
                AnswerFrameGood(s, writeOk, consumerOpen);
              } else {
                OtherFrameGood(s, writeOk, consumerOpen);
              }
            }
        }
      }
    }
  }

  lemma {:induction false} DeliveredContains(replies: seq<Sent>, x: Sent)
    requires x in replies && x.reply.Answered?
    ensures x in Delivered(replies)
  {
    var n := |replies| - 1;
    if replies[n] != x {
      assert replies == replies[..n] + [replies[n]];
      DeliveredContains(replies[..n], x);
    }
  }

  /** Every server answer a waiter got was given to that waiter's request. */
  ghost predicate OwnAnswers(s: System) {
    forall x :: x in s.worker.replies && x.reply.Answered? ==> x in s.answers
  }

  /**
   * With a server that answers each request once, each reply goes to the waiter whose request was
   * answered with it, replies arrive in the order they were given, and none is dropped while the
   * worker runs, although ids are reused freely.
   */
  lemma RepliesReachTheirWaiters(moves: seq<Move>)
    requires AnswersOnce(moves)
    ensures var s := RunSystem(moves);
            && OwnAnswers(s)
            && Delivered(s.worker.replies) <= s.answers
            && (s.worker.running ==> s.answers == Delivered(s.worker.replies) + OnWire(s.toClient))
  {
    SystemGood(moves);
    var s := RunSystem(moves);
    forall x | x in s.worker.replies && x.reply.Answered? ensures x in s.answers {
      DeliveredContains(s.worker.replies, x);
    }
  }

  /** Ids in flight across both wires and the server are distinct and equal the pending keys. */
  lemma InFlightEqualsPending(moves: seq<Move>)
    requires AnswersOnce(moves) && RunSystem(moves).worker.running
    ensures MatchesPending(RunSystem(moves))
  {
    SystemGood(moves);
  }

  // ----- what holds whatever the server does -----

  ghost predicate Numbered(s: System) {
    Accounted(s.worker, s.taken) && forall i :: 0 <= i < |s.taken| ==> s.taken[i] == i
  }

  lemma RequestNumbered(s: System, id: RequestId, writeOk: bool, consumerOpen: bool)
    requires Numbered(s)
    ensures Numbered(Apply(s, ClientRequests(id, writeOk, consumerOpen)))
  {
    if s.worker.running {
      assert FreshToken(s) !in s.taken;
      AccountedStep(s.worker, s.taken, OnCommand(Some(Request(id, FreshToken(s))), writeOk, consumerOpen));
    }
  }

  lemma StepNumbered(s: System, m: Move)
    requires Numbered(s) && Enabled(s, m)
    ensures Numbered(Apply(s, m))
  {
    assert s.taken + [] == s.taken;
    match m {
      case ClientRequests(id, writeOk, consumerOpen) => RequestNumbered(s, id, writeOk, consumerOpen);
      case ClientDoes(command, writeOk, consumerOpen) =>
        AccountedStep(s.worker, s.taken, OnCommand(command, writeOk, consumerOpen));
      case ClientReceives(writeOk, consumerOpen) =>
        AccountedStep(s.worker, s.taken, OnFrame(FrameOf(s.toClient[0]), writeOk, consumerOpen));
      case _ =>
    }
  }

  lemma {:induction false} RunNumbered(moves: seq<Move>)
    ensures Numbered(RunSystem(moves))
  {
    if moves != [] {
      var s, m := RunSystem(moves[..|moves| - 1]), moves[|moves| - 1];
      RunNumbered(moves[..|moves| - 1]);
      if Enabled(s, m) {
        StepNumbered(s, m);
      }
    }
  }

  /** No waiter is ever answered twice, even by a server that answers twice. */
  lemma NoWaiterAnsweredTwice(moves: seq<Move>, token: Token)
    ensures Replies(RunSystem(moves).worker.replies, token) <= 1
  {
    RunNumbered(moves);
    var s := RunSystem(moves);
    if token in s.taken {
      assert Replies(s.worker.replies, token) == if Waiting(s.worker, token) then 0 else 1;
    }
  }

  // ----- the wires -----

  /** What the server puts on its wire: every frame it emits, and each answer under the id of the request. */
  function SentBy(s: System, m: Move): seq<Frame> {
    match m
    case ServerEmits(frame) => if IsReply(frame) then [] else [frame]
    case ServerAnswers(k, Success(body)) => if k < |s.held| then [Message(Response(s.held[k].id, body))] else []
    case ServerAnswers(k, ServerError(body)) => if k < |s.held| then [Message(Error(s.held[k].id, body))] else []
    case ServerAnswersAgain(k, Success(body)) => if k < |s.answered| then [Message(Response(s.answered[k].id, body))] else []
    case ServerAnswersAgain(k, ServerError(body)) => if k < |s.answered| then [Message(Error(s.answered[k].id, body))] else []
    case _ => []
  }

  /** What the worker takes in: a command when its client gives one, or the frame that is first on the wire. */
  function TakenIn(s: System, m: Move): seq<Input> {
    match m
    case ClientRequests(id, writeOk, consumerOpen) =>
      if s.worker.running then [OnCommand(Some(Request(id, |s.taken|)), writeOk, consumerOpen)] else []
    case ClientDoes(command, writeOk, consumerOpen) =>
      if command.Some? && command.value.Request? then [] else [OnCommand(command, writeOk, consumerOpen)]
    case ClientReceives(writeOk, consumerOpen) =>
      if s.worker.running && s.toClient != [] then [OnFrame(FrameOf(s.toClient[0]), writeOk, consumerOpen)] else []
    case _ => []
  }

  function ServerSent(moves: seq<Move>): seq<Frame> {
    if moves == [] then []
    else ServerSent(moves[..|moves| - 1]) + SentBy(RunSystem(moves[..|moves| - 1]), moves[|moves| - 1])
  }

  function WorkerTook(moves: seq<Move>): seq<Input> {
    if moves == [] then []
    else WorkerTook(moves[..|moves| - 1]) + TakenIn(RunSystem(moves[..|moves| - 1]), moves[|moves| - 1])
  }

  function FrameIn(input: Input): seq<Frame> {
    match input case OnFrame(frame, _, _) => [frame] case _ => []
  }

  function FramesTaken(inputs: seq<Input>): seq<Frame> {
    if inputs == [] then [] else FramesTaken(inputs[..|inputs| - 1]) + FrameIn(inputs[|inputs| - 1])
  }

  function Frames(ms: seq<Inbound>): seq<Frame> {
    seq(|ms|, i requires 0 <= i < |ms| => FrameOf(ms[i]))
  }

  lemma TookOne(took: seq<Input>, input: Input)
    ensures Run(START, took + [input]) == Step(Run(START, took), input)
    ensures FramesTaken(took + [input]) == FramesTaken(took) + FrameIn(input)
  {
    assert (took + [input])[..|took|] == took;
  }

  lemma ServerMoveOnWire(s: System, m: Move)
    requires TakenIn(s, m) == []
    ensures var s' := if Enabled(s, m) then Apply(s, m) else s;
            s'.worker == s.worker && Frames(s'.toClient) == Frames(s.toClient) + SentBy(s, m)
  {
  }

  lemma ClientMoveOnWire(s: System, m: Move)
    requires TakenIn(s, m) != []
    ensures var s' := if Enabled(s, m) then Apply(s, m) else s;
            var input := TakenIn(s, m)[0];
            && TakenIn(s, m) == [input] && SentBy(s, m) == []
            && s'.worker == Step(s.worker, input) && Frames(s.toClient) == FrameIn(input) + Frames(s'.toClient)
  {
    if m.ClientReceives? {
      assert Frames(s.toClient) == [FrameOf(s.toClient[0])] + Frames(s.toClient[1..]);
    }
  }

  lemma WireLast(moves: seq<Move>, past: seq<Move>, m: Move)
    requires moves != [] && past == moves[..|moves| - 1] && m == moves[|moves| - 1]
    ensures var s := RunSystem(past); RunSystem(moves) == if Enabled(s, m) then Apply(s, m) else s
    ensures ServerSent(moves) == ServerSent(past) + SentBy(RunSystem(past), m)
    ensures WorkerTook(moves) == WorkerTook(past) + TakenIn(RunSystem(past), m)
  {
  }

  /** In every run the worker is where its inputs took it, and the server's frames reach it in order: taken, or still on the wire. */
  lemma {:induction false} WireKeepsOrder(moves: seq<Move>)
    ensures RunSystem(moves).worker == Run(START, WorkerTook(moves))
    ensures ServerSent(moves) == FramesTaken(WorkerTook(moves)) + Frames(RunSystem(moves).toClient)
  {
    if moves != [] {
      var past, m := moves[..|moves| - 1], moves[|moves| - 1];
      var s, s', took := RunSystem(past), RunSystem(moves), WorkerTook(past);
      WireKeepsOrder(past);
      WireLast(moves, past, m);
      var frames := FramesTaken(took);
      if TakenIn(s, m) == [] {
        ServerMoveOnWire(s, m);
        Regroup(frames, Frames(s.toClient), SentBy(s, m));
        assert took + [] == took;
      } else {
        ClientMoveOnWire(s, m);
        TookOne(took, TakenIn(s, m)[0]);
        Regroup(frames, FrameIn(TakenIn(s, m)[0]), Frames(s'.toClient));
      }
    }
  }

  lemma Regroup(a: seq<Frame>, b: seq<Frame>, c: seq<Frame>)
    ensures a + (b + c) == (a + b) + c
    ensures a + b + [] == a + b
  {
  }
}
