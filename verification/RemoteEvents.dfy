/** The handshake, the event channel and `next_event`: events arrive once, in wire order. */
module RemoteEvents {
  import opened Text
  import opened RemoteWorker

  // ----- the reference: what the wire says -----

  /** The event a frame stands for: decodable notifications and supported server requests. */
  function FrameEvents(frame: Frame): seq<Event> {
    match frame
    case Message(Notification(Some(n))) => [NotificationEvent(n)]
    case Message(ServerRequest(_, Some(n))) => [RequestEvent(n)]
    case _ => []
  }

  function WireEvents(frames: seq<Frame>): seq<Event> {
    if frames == [] then []
    else WireEvents(frames[..|frames| - 1]) + FrameEvents(frames[|frames| - 1])
  }

  lemma WireEventsSnoc(frames: seq<Frame>, k: nat)
    requires k < |frames|
    ensures WireEvents(frames[..k + 1]) == WireEvents(frames[..k]) + FrameEvents(frames[k])
  {
    assert frames[..k + 1][..k] == frames[..k];
  }

  // ----- the initialize handshake -----

  const INITIALIZE := StringId("initialize")

  datatype Refusal = Rejected | InvalidResponse | ClosedDuring | TransportFailed | UnexpectedEnd | WriteFailed | TimedOut

  datatype Verdict = GoOn | Accepted | Refused(why: Refusal)

  /** What one frame means to the handshake. */
  function Judge(frame: Frame, writeOk: bool): Verdict {
    match frame
    case Message(Response(id, _)) => if id == INITIALIZE then Accepted else GoOn
    case Message(Error(id, _)) => if id == INITIALIZE then Refused(Rejected) else GoOn
    case Message(Notification(_)) => GoOn
    case Message(ServerRequest(_, decoded)) => if decoded.Some? || writeOk then GoOn else Refused(WriteFailed)
    case InvalidJsonRpc => Refused(InvalidResponse)
    case Close => Refused(ClosedDuring)
    case Ignorable => GoOn
    case TransportFailure => Refused(TransportFailed)
    case EndOfStream => Refused(UnexpectedEnd)
  }

  /** Only the answer to the initialize request decides in favour; what the frame is tells why it decides against. */
  lemma JudgeMeans(frame: Frame, writeOk: bool)
    ensures Judge(frame, writeOk) == Accepted <==> exists body :: frame == Message(Response(StringId("initialize"), body))
    ensures Judge(frame, writeOk) == Refused(Rejected) <==> exists body :: frame == Message(Error(StringId("initialize"), body))
    ensures Judge(frame, writeOk) == Refused(WriteFailed) <==> !writeOk && exists id :: frame == Message(ServerRequest(id, None))
    ensures Judge(frame, writeOk) == Refused(InvalidResponse) <==> frame == InvalidJsonRpc
    ensures Judge(frame, writeOk) == Refused(ClosedDuring) <==> frame == Close
    ensures Judge(frame, writeOk) == Refused(TransportFailed) <==> frame == TransportFailure
    ensures Judge(frame, writeOk) == Refused(UnexpectedEnd) <==> frame == EndOfStream
    ensures Judge(frame, writeOk) != Refused(TimedOut)
  {
    match frame {
      case Message(Response(id, body)) => assert frame == Message(Response(id, body));
      case Message(Error(id, body)) => assert frame == Message(Error(id, body));
      case Message(ServerRequest(id, decoded)) => assert frame == Message(ServerRequest(id, decoded));
      case _ =>
    }
  }

  datatype Handshake = Connected(pendingEvents: seq<Event>, consumed: nat) | NotConnected(why: Refusal)

  /** `frames[..k]` leave the handshake undecided. */
  ghost predicate Undecided(frames: seq<Frame>, writes: nat -> bool, k: nat) {
    k <= |frames| && forall i :: 0 <= i < k ==> Judge(frames[i], writes(i)) == GoOn
  }

  /** The first `k` frames decide nothing and the next one, or the end of the wire, does. */
  ghost predicate DecidedAt(frames: seq<Frame>, writes: nat -> bool, k: nat) {
    Undecided(frames, writes, k) && (k < |frames| ==> Judge(frames[k], writes(k)) != GoOn)
  }

  /** How the handshake ends, given where it is decided: too late, by the end of the wire, or by the deciding frame. */
  function Ending(frames: seq<Frame>, writeOk: bool, k: nat, deadline: Option<nat>, lastWrite: bool): Handshake
    requires k <= |frames|
  {
    if deadline.Some? && deadline.value <= k then NotConnected(TimedOut)
    else if k == |frames| then NotConnected(UnexpectedEnd)
    else
      match Judge(frames[k], writeOk)
      case Refused(why) => NotConnected(why)
      case _ => if lastWrite then Connected(WireEvents(frames[..k]), k + 1) else NotConnected(WriteFailed)
  }

  /**
   * `initialize_remote_connection`: `deadline` is the number of frames read when the timer fires,
   * and a wire that has no more frames has ended.
   */
  method InitializeRemoteConnection(frames: seq<Frame>, writes: nat -> bool, deadline: Option<nat>, openWrite: bool, lastWrite: bool)
    returns (h: Handshake)
    ensures !openWrite ==> h == NotConnected(WriteFailed)
    ensures openWrite ==> forall k: nat :: DecidedAt(frames, writes, k) ==> h == Ending(frames, writes(k), k, deadline, lastWrite)
    ensures h.Connected? ==>
      && openWrite && lastWrite && 0 < h.consumed <= |frames|
      && Undecided(frames, writes, h.consumed - 1)
      && Judge(frames[h.consumed - 1], writes(h.consumed - 1)) == Accepted
      && h.pendingEvents == WireEvents(frames[..h.consumed])
      && (deadline.Some? ==> h.consumed <= deadline.value)
    ensures h.NotConnected? && h.why !in {WriteFailed, UnexpectedEnd, TimedOut} ==>
      exists k :: 0 <= k < |frames| && Undecided(frames, writes, k) && Judge(frames[k], writes(k)) == Refused(h.why)
    ensures h == NotConnected(TimedOut) ==> deadline.Some? && Undecided(frames, writes, deadline.value)
    ensures h == NotConnected(UnexpectedEnd) ==>
      exists k :: 0 <= k <= |frames| && Undecided(frames, writes, k) && (k < |frames| ==> frames[k] == EndOfStream)
    ensures h == NotConnected(WriteFailed) ==>
      || !openWrite
      || exists k :: 0 <= k < |frames| && Undecided(frames, writes, k)
                  && (Judge(frames[k], writes(k)) == Refused(WriteFailed) || (Judge(frames[k], writes(k)) == Accepted && !lastWrite))
  {
    if !openWrite {
      return NotConnected(WriteFailed);
    }
    var pendingEvents := [];
    var i := 0;
    while i < |frames|
      invariant 0 <= i <= |frames|
      invariant Undecided(frames, writes, i)
      invariant pendingEvents == WireEvents(frames[..i])
      invariant deadline.Some? ==> i <= deadline.value
    {
      if deadline == Some(i) {
        LateDecision(frames, writes, i);
        return NotConnected(TimedOut);
      }
      OneDecision(frames, writes, i);
      WireEventsSnoc(frames, i);
      match frames[i] {
        case Message(Response(id, _)) =>
          if id == INITIALIZE {
            h := if lastWrite then Connected(pendingEvents, i + 1) else NotConnected(WriteFailed);
            return;
          }
        case Message(Error(id, _)) =>
          if id == INITIALIZE {
            return NotConnected(Rejected);
          }
        case Message(Notification(decoded)) =>
          if decoded.Some? {
            pendingEvents := pendingEvents + [NotificationEvent(decoded.value)];
          }
        case Message(ServerRequest(_, decoded)) =>
          if decoded.Some? {
            pendingEvents := pendingEvents + [RequestEvent(decoded.value)];
          } else if !writes(i) {
            return NotConnected(WriteFailed);
          }
        case InvalidJsonRpc => return NotConnected(InvalidResponse);
        case Close => return NotConnected(ClosedDuring);
        case Ignorable =>
        case TransportFailure => return NotConnected(TransportFailed);
        case EndOfStream => return NotConnected(UnexpectedEnd);
      }
      i := i + 1;
    }
    OneDecision(frames, writes, i);
    h := NotConnected(if deadline == Some(i) then TimedOut else UnexpectedEnd);
  }

  lemma OneDecision(frames: seq<Frame>, writes: nat -> bool, i: nat)
    requires Undecided(frames, writes, i)
    ensures DecidedAt(frames, writes, i) ==> forall k: nat :: DecidedAt(frames, writes, k) ==> k == i
  {
  }

  lemma LateDecision(frames: seq<Frame>, writes: nat -> bool, i: nat)
    requires Undecided(frames, writes, i)
    ensures forall k: nat :: DecidedAt(frames, writes, k) ==> i <= k
  {
  }

  // ----- the client after the handshake -----

  /** `open` until the consumer is dropped; `seen` is everything `next_event` has returned. */
  datatype Client = Client(frames: seq<Frame>, position: nat, worker: State, pendingEvents: seq<Event>, read: nat,
                           open: bool, seen: seq<Event>)

  datatype Move =
    | TakeCommand(command: Option<Command>, writeOk: bool)
    | TakeFrame(writeOk: bool)
    | NextEvent
    | DropConsumer

  ghost predicate Bounded(c: Client) {
    c.read <= |c.worker.events| && c.position <= |c.frames| && (c.worker.running ==> c.worker.exitError == None)
  }

  function Pop(c: Client): Client
    requires c.read <= |c.worker.events|
  {
    if c.pendingEvents != [] then
      c.(pendingEvents := c.pendingEvents[1..], seen := c.seen + [c.pendingEvents[0]])
    else if c.read < |c.worker.events| then
      c.(read := c.read + 1, seen := c.seen + [c.worker.events[c.read]])
    else c
  }

  function Apply(c: Client, m: Move): Client
    requires Bounded(c)
  {
    match m
    case TakeCommand(command, writeOk) => c.(worker := Step(c.worker, OnCommand(command, writeOk, c.open)))
    case TakeFrame(writeOk) =>
      if !c.worker.running then c
      else if c.position < |c.frames| then
        c.(worker := Step(c.worker, OnFrame(c.frames[c.position], writeOk, c.open)), position := c.position + 1)
      else
        c.(worker := Step(c.worker, OnFrame(EndOfStream, writeOk, c.open)))
    case NextEvent => if c.open then Pop(c) else c
    case DropConsumer => c.(open := false)
  }

  function Connect(frames: seq<Frame>, consumed: nat): Client
    requires consumed <= |frames|
  {
    Client(frames, consumed, START, WireEvents(frames[..consumed]), 0, true, [])
  }

  /** The `Disconnected` marker a failed connection adds. */
  function Marker(c: Client): seq<Event> {
    if c.worker.exitError.Some? then [Disconnected] else []
  }

  function Reference(c: Client): seq<Event>
    requires c.position <= |c.frames|
  {
    WireEvents(c.frames[..c.position]) + Marker(c)
  }

  /** Seen, buffered and queued events together are exactly what the wire has said so far. */
  ghost predicate InWireOrder(c: Client) {
    && Bounded(c)
    && c.seen <= Reference(c)
    && (c.open ==> c.seen + c.pendingEvents + c.worker.events[c.read..] == Reference(c))
  }

  // ----- what a worker turn adds to the channel -----

  lemma CommandEvents(s: State, command: Option<Command>, writeOk: bool, open: bool)
    requires s.running && s.exitError == None
    ensures var s' := Step(s, OnCommand(command, writeOk, open));
            && s'.events == s.events + (if open && s'.exitError.Some? then [Disconnected] else [])
            && (s'.running ==> s'.exitError == None)
  {
  }

  lemma FrameTurnEvents(s: State, frame: Frame, writeOk: bool, open: bool)
    requires s.running && s.exitError == None
    ensures var s' := Step(s, OnFrame(frame, writeOk, open));
            && s'.events == s.events + (if open then FrameEvents(frame) + (if s'.exitError.Some? then [Disconnected] else []) else [])
            && (s'.running ==> s'.exitError == None)
  {
  }

  /** A worker turn that queues `added` keeps the order when the wire reference grows by the same. */
  lemma QueueExtends(c: Client, c': Client, added: seq<Event>)
    requires InWireOrder(c) && Bounded(c') && c.worker.running
    requires c'.seen == c.seen && c'.pendingEvents == c.pendingEvents && c'.read == c.read && c'.open == c.open
    requires c.open ==> c'.worker.events == c.worker.events + added
    requires Reference(c') == Reference(c) + added
    ensures InWireOrder(c')
  {
    if c.open {
      assert c'.worker.events[c.read..] == c.worker.events[c.read..] + added;
      assert c.seen + c.pendingEvents + (c.worker.events[c.read..] + added)
          == (c.seen + c.pendingEvents + c.worker.events[c.read..]) + added;
    }
  }

  lemma CommandKeepsOrder(c: Client, command: Option<Command>, writeOk: bool)
    requires InWireOrder(c)
    ensures InWireOrder(Apply(c, TakeCommand(command, writeOk)))
  {
    if c.worker.running {
      var c' := Apply(c, TakeCommand(command, writeOk));
      CommandEvents(c.worker, command, writeOk, c.open);
      assert Reference(c) == WireEvents(c.frames[..c.position]);
      QueueExtends(c, c', Marker(c'));
    }
  }

  lemma FrameGrowsReference(c: Client, writeOk: bool)
    requires Bounded(c) && c.worker.running
    ensures var c' := Apply(c, TakeFrame(writeOk));
            var frame := if c.position < |c.frames| then c.frames[c.position] else EndOfStream;
            Bounded(c') && Reference(c') == Reference(c) + (FrameEvents(frame) + Marker(c'))
  {
    var c' := Apply(c, TakeFrame(writeOk));
    var frame := if c.position < |c.frames| then c.frames[c.position] else EndOfStream;
    FrameTurnEvents(c.worker, frame, writeOk, c.open);
    if c.position < |c.frames| {
      WireEventsSnoc(c.frames, c.position);
    }
    var before := WireEvents(c.frames[..c.position]);
    assert before + [] == before;
    assert (before + FrameEvents(frame)) + Marker(c') == before + (FrameEvents(frame) + Marker(c'));
  }

  lemma FrameKeepsOrder(c: Client, writeOk: bool)
    requires InWireOrder(c)
    ensures InWireOrder(Apply(c, TakeFrame(writeOk)))
  {
    if c.worker.running {
      var c' := Apply(c, TakeFrame(writeOk));
      var frame := if c.position < |c.frames| then c.frames[c.position] else EndOfStream;
      FrameTurnEvents(c.worker, frame, writeOk, c.open);
      FrameGrowsReference(c, writeOk);
      QueueExtends(c, c', FrameEvents(frame) + Marker(c'));
    }
  }

  lemma PopKeepsOrder(c: Client)
    requires InWireOrder(c) && c.open
    ensures InWireOrder(Pop(c))
  {
    var queue := c.worker.events[c.read..];
    if c.pendingEvents != [] {
      assert c.pendingEvents == [c.pendingEvents[0]] + c.pendingEvents[1..];
      assert c.seen + c.pendingEvents + queue == (c.seen + [c.pendingEvents[0]]) + c.pendingEvents[1..] + queue;
    } else if c.read < |c.worker.events| {
      assert queue == [queue[0]] + c.worker.events[c.read + 1..];
      assert c.seen + [] + queue == (c.seen + [queue[0]]) + [] + c.worker.events[c.read + 1..];
    }
  }

  ghost predicate Reachable(start: Client, moves: seq<Move>, c: Client)
    decreases moves
  {
    if moves == [] then c == start
    else exists b :: Reachable(start, moves[..|moves| - 1], b) && Bounded(b) && c == Apply(b, moves[|moves| - 1])
  }

  lemma ConnectInOrder(frames: seq<Frame>, consumed: nat)
    requires consumed <= |frames|
    ensures InWireOrder(Connect(frames, consumed))
    ensures var c := Connect(frames, consumed); c.open && c.worker == START && c.position == consumed && c.seen == []
  {
    var c := Connect(frames, consumed);
    assert c.seen + c.pendingEvents + c.worker.events[c.read..] == c.pendingEvents;
  }

  /**
   * In every run, whatever the interleaving of commands, frames and reads, what `next_event` returned
   * is a prefix of the wire's events followed by at most one `Disconnected`; and while the consumer
   * lives nothing is lost, repeated or reordered.
   */
  lemma {:induction false} NextEventFollowsWire(frames: seq<Frame>, consumed: nat, moves: seq<Move>, c: Client)
    requires consumed <= |frames| && Reachable(Connect(frames, consumed), moves, c)
    ensures InWireOrder(c) && c.frames == frames
    decreases moves
  {
    var start := Connect(frames, consumed);
    if moves == [] {
      ConnectInOrder(frames, consumed);
    } else {
      var b :| Reachable(start, moves[..|moves| - 1], b) && Bounded(b) && c == Apply(b, moves[|moves| - 1]);
      NextEventFollowsWire(frames, consumed, moves[..|moves| - 1], b);
      match moves[|moves| - 1] {
        case TakeCommand(command, writeOk) => CommandKeepsOrder(b, command, writeOk);
        case TakeFrame(writeOk) => FrameKeepsOrder(b, writeOk);
        case NextEvent => if b.open { PopKeepsOrder(b); }
        case DropConsumer =>
      }
    }
  }

  /** In every run, asking for an event while the consumer lives returns the next one the wire has said, if there is one. */
  lemma NextEventReturns(frames: seq<Frame>, consumed: nat, moves: seq<Move>, c: Client)
    requires consumed <= |frames| && Reachable(Connect(frames, consumed), moves, c) && c.open
    ensures Bounded(c) && c.seen <= Reference(c)
    ensures c.seen < Reference(c) ==> Apply(c, NextEvent).seen == Reference(c)[..|c.seen| + 1]
    ensures c.seen == Reference(c) ==> Apply(c, NextEvent) == c
  {
    NextEventFollowsWire(frames, consumed, moves, c);
    var queue := c.worker.events[c.read..];
    var rest := c.pendingEvents + queue;
    assert Reference(c) == c.seen + rest;
    if rest != [] {
      assert rest[0] == if c.pendingEvents != [] then c.pendingEvents[0] else queue[0];
      assert Reference(c)[..|c.seen| + 1] == c.seen + [rest[0]];
    } else {
      assert c.pendingEvents == [] && queue == [];
    }
  }

  /** What a move gives the worker to do; a wire without frames left says that it has ended. */
  function InputOf(c: Client, m: Move): seq<Input>
    requires c.position <= |c.frames|
  {
    match m
    case TakeCommand(command, writeOk) => [OnCommand(command, writeOk, c.open)]
    case TakeFrame(writeOk) =>
      if !c.worker.running then []
      else [OnFrame(if c.position == |c.frames| then EndOfStream else c.frames[c.position], writeOk, c.open)]
    case NextEvent => []
    case DropConsumer => []
  }

  /** A move takes at most one frame off the wire, and the worker takes one step for what it is given. */
  lemma MoveFeedsWorker(c: Client, m: Move)
    requires Bounded(c)
    ensures var c' := Apply(c, m);
            && c'.worker == Run(c.worker, InputOf(c, m))
            && c'.position == c.position + (if m.TakeFrame? && c.worker.running && c.position < |c.frames| then 1 else 0)
            && c'.open == (c.open && !m.DropConsumer?)
  {
    var inputs := InputOf(c, m);
    if inputs != [] {
      assert inputs[..|inputs| - 1] == [];
    }
  }

  /** A consumer that has read everything available has seen every event so far. */
  lemma DrainedConsumerSawEverything(frames: seq<Frame>, consumed: nat, moves: seq<Move>, c: Client)
    requires consumed <= |frames| && Reachable(Connect(frames, consumed), moves, c)
    requires c.open && c.pendingEvents == [] && c.read == |c.worker.events|
    ensures c.position <= |frames| && c.seen == WireEvents(frames[..c.position]) + Marker(c)
  {
    NextEventFollowsWire(frames, consumed, moves, c);
    assert c.seen + [] + [] == c.seen;
  }

  // ----- the client object -----

  /** What awaiting `next_event` yields: an event, the end of the channel, or nothing yet. */
  datatype Poll = Ready(event: Option<Event>) | Blocked

  class RemoteAppServerClient {
    var pendingEvents: seq<Event>
    var channel: seq<Event>
    var workerAlive: bool

    constructor (buffered: seq<Event>)
      ensures pendingEvents == buffered && channel == [] && workerAlive
    {
      pendingEvents, channel, workerAlive := buffered, [], true;
    }

    function Backlog(): seq<Event>
      reads this
    {
      pendingEvents + channel
    }

    /** The handshake's buffer goes first; the channel ends only when it is empty and its worker gone. */
    method NextEvent() returns (p: Poll)
      modifies this`pendingEvents, this`channel
      ensures old(Backlog()) == (if p.Ready? && p.event.Some? then [p.event.value] else []) + Backlog()
      ensures old(Backlog()) != [] ==> p.Ready? && p.event.Some?
      ensures old(Backlog()) == [] ==> p == if workerAlive then Blocked else Ready(None)
    {
      if pendingEvents != [] {
        var e := pendingEvents[0];
        pendingEvents := pendingEvents[1..];
        return Ready(Some(e));
      }
      if channel != [] {
        var e := channel[0];
        channel := channel[1..];
        return Ready(Some(e));
      }
      p := if workerAlive then Blocked else Ready(None);
    }
  }
}
