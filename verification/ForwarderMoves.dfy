/** The forwarder as its consumer and its callers see it: what one move of a run does to the stream. */
module ForwarderMoves {
  import opened Text
  import opened Sequences
  import opened Forwarder

  /** Everything the consumer has received or will find in the channel. */
  function Stream(s: State): seq<Item> {
    s.received + s.queue
  }

  /** The event the worker is busy with. */
  function Current(s: State): Option<Event> {
    if s.phase.Idle? then None else Some(s.phase.event)
  }

  /** The transcript and what ends it must arrive; anything else may be dropped. */
  predicate MustArrive(e: Event) {
    match e
    case ServerNotification(TurnCompleted, _) => true
    case ServerNotification(ThreadSettingsUpdated, _) => true
    case ServerNotification(ItemCompleted, _) => true
    case ServerNotification(AgentMessageDelta, _) => true
    case ServerNotification(PlanDelta, _) => true
    case ServerNotification(ReasoningSummaryTextDelta, _) => true
    case ServerNotification(ReasoningTextDelta, _) => true
    case ServerNotification(BestEffort, _) => false
    case ServerRequest(_, _) => false
    case UpstreamLagged(_) => false
  }

  /** The worker is given an event: a token refresh is refused on the spot, any other is what it works on next. */
  ghost predicate Given(s: State, e: Event, s': State) {
    && Stream(s') == Stream(s) && s'.received == s.received && s'.open == s.open && s'.skipped == s.skipped && s'.enabled
    && s'.pulled == s.pulled + [e]
    && if e.ServerRequest? && e.tokenRefresh then Current(s') == None && s'.rejected == s.rejected + [Rejection(e.id, -32000)]
       else Current(s') == Some(e) && s'.rejected == s.rejected
  }

  /** The worker tries to send: what is due, the marker for what was dropped before the event itself, goes out if it fits. */
  ghost predicate Sends(s: State, e: Event, s': State) {
    && s'.received == s.received && s'.open == s.open && s'.pulled == s.pulled && s'.capacity == s.capacity
    && if !s.open then
         // Nobody is left to send to.
         Stream(s') == Stream(s) && !s'.enabled && Current(s') == None && s'.rejected == s.rejected
       else if |Stream(s)| - |s.received| < s.capacity then
         && s'.enabled && s'.rejected == s.rejected && s'.skipped == 0
         && if s.skipped > 0 then Stream(s') == Stream(s) + [Lagged(s.skipped)] && Current(s') == Some(e)
            else Stream(s') == Stream(s) + [Forwarded(e)] && Current(s') == None
       else if MustArrive(e) then
         s' == s
       else
         && Stream(s') == Stream(s) && s'.enabled && Current(s') == None
         && s'.skipped == (if s.skipped < 0xFFFF_FFFF_FFFF_FFFF then s.skipped + 1 else 0xFFFF_FFFF_FFFF_FFFF)
         && s'.rejected == s.rejected + match e case ServerRequest(id, _) => [Rejection(id, -32001)] case _ => []
  }

  /** One move. */
  ghost predicate Moves(s: State, m: Move, s': State) {
    match m
    case Pulls(e) => if s.enabled && Current(s) == None then Given(s, e, s') else s' == s
    case Progresses => if Current(s) == None then s' == s else Sends(s, Current(s).value, s')
    case Receives =>
      && Stream(s') == Stream(s) && s' == s.(queue := s'.queue, received := s'.received)
      && |s'.received| == |s.received| + if s.open && |Stream(s)| > |s.received| then 1 else 0
    case Closes => s' == s.(open := false)
  }

  lemma TierMeans(e: Event)
    ensures RequiresDelivery(e) <==> MustArrive(e)
  {
  }

  lemma PullMoves(s: State, e: Event)
    requires Good(s)
    ensures Moves(s, Pulls(e), Apply(s, Pulls(e)))
  {
  }

  lemma MarkerDue(s: State)
    requires Good(s) && !s.phase.Idle?
    ensures s.phase.FlushingMarker? || s.phase.TryingMarker? <==> s.skipped > 0
    ensures s.enabled
  {
  }

  lemma SendMoves(s: State)
    requires Good(s) && !s.phase.Idle?
    ensures Sends(s, s.phase.event, Progress(s))
  {
    TierMeans(s.phase.event);
    MarkerDue(s);
    var s' := Progress(s);
    if s.open && HasRoom(s) {
      var item := if s.skipped > 0 then Lagged(s.skipped) else Forwarded(s.phase.event);
      assert s'.queue == s.queue + [item];
      assert s.received + (s.queue + [item]) == (s.received + s.queue) + [item];
    }
  }

  lemma ReceiveMoves(s: State)
    ensures Moves(s, Receives, Receive(s))
  {
    if s.open && s.queue != [] {
      assert s.received + s.queue == (s.received + [s.queue[0]]) + s.queue[1..];
    }
  }

  /** In every run, each move does what the stream's reader is promised, and nothing else. */
  lemma RunMoves(capacity: nat, moves: seq<Move>, m: Move)
    ensures Moves(Run(Start(capacity), moves), m, Run(Start(capacity), moves + [m]))
  {
    var s := Run(Start(capacity), moves);
    RunGood(capacity, moves);
    assert (moves + [m])[..|moves|] == moves;
    match m {
      case Pulls(e) => PullMoves(s, e);
      case Progresses => if !s.phase.Idle? { SendMoves(s); }
      case Receives => ReceiveMoves(s);
      case Closes =>
    }
  }

  /** A run starts with an empty channel for at least one item, and nothing in hand. */
  lemma RunStarts(capacity: nat)
    ensures var s := Run(Start(capacity), []);
            && s.capacity >= 1 && (capacity >= 1 ==> s.capacity == capacity) && (capacity == 0 ==> s.capacity == 1)
            && Stream(s) == [] && s.open && s.enabled && Current(s) == None && s.skipped == 0 && s.rejected == [] && s.pulled == []
  {
  }

  // ----- a call of the object is a run -----

  /** What the consumer does before a send; a send of an event that must arrive waits for one more receive. */
  function Before(s: State, w: Meanwhile): seq<Move> {
    var acts := seq(w.receives, _ => Receives) + if w.closes then [Closes] else [];
    var s1 := Run(s, acts);
    if Current(s1).Some? && MustArrive(Current(s1).value) && s1.open && |s1.queue| >= s1.capacity then acts + [Receives] else acts
  }

  lemma {:induction false} RunConcat(s: State, a: seq<Move>, b: seq<Move>)
    ensures Run(s, a + b) == Run(Run(s, a), b)
  {
    if b == [] {
      assert a + b == a;
    } else {
      var n := |b| - 1;
      assert (a + b)[..|a| + n] == a + b[..n];
      RunConcat(s, a, b[..n]);
    }
  }

  lemma {:induction false} ReceivesRun(s: State, n: nat)
    ensures ReceiveMany(s, n) == Run(s, seq(n, _ => Receives))
  {
    if n > 0 {
      ReceivesRun(s, n - 1);
      var moves := seq(n, _ => Receives);
      assert moves[..n - 1] == seq(n - 1, _ => Receives);
    }
  }

  lemma ConsumeRun(s: State, w: Meanwhile)
    ensures Consume(s, w) == Run(s, seq(w.receives, _ => Receives) + if w.closes then [Closes] else [])
  {
    var moves := seq(w.receives, _ => Receives);
    ReceivesRun(s, w.receives);
    RunConcat(s, moves, [Closes]);
    assert Run(Run(s, moves), [Closes]) == Apply(Run(s, moves), Closes);
    assert moves + [] == moves;
  }

  lemma WaitRun(s: State, w: Meanwhile)
    requires Good(s)
    ensures Wait(s, w) == Run(s, Before(s, w))
  {
    var acts := seq(w.receives, _ => Receives) + if w.closes then [Closes] else [];
    ConsumeRun(s, w);
    var s1 := Consume(s, w);
    ReceiveManyGood(s, w.receives);
    if !s1.phase.Idle? {
      TierMeans(s1.phase.event);
    }
    RunConcat(s, acts, [Receives]);
    assert Run(s1, [Receives]) == Apply(s1, Receives);
  }

  /** The call is done after one send, or after a marker and one more. */
  function Call(s: State, w1: Meanwhile, w2: Meanwhile): seq<Move> {
    var first := Before(s, w1) + [Progresses];
    var s1 := Run(s, first);
    if Current(s1) == None then first else first + (Before(s1, w2) + [Progresses])
  }

  lemma SendRun(s: State, w: Meanwhile)
    requires Good(s)
    ensures Progress(Wait(s, w)) == Run(s, Before(s, w) + [Progresses])
  {
    WaitRun(s, w);
    var moves := Before(s, w);
    assert (moves + [Progresses])[..|moves|] == moves;
  }

  /** What the forwarding object does in a call is a run of the moves above, and leaves nothing in hand. */
  lemma CallIsRun(s: State, w1: Meanwhile, w2: Meanwhile)
    requires Good(s)
    ensures Finish(s, w1, w2) == Run(s, Call(s, w1, w2)) && Current(Finish(s, w1, w2)) == None
  {
    FinishGood(s, w1, w2);
    SendRun(s, w1);
    WaitGood(s, w1);
    ProgressGood(Wait(s, w1));
    var s1 := Progress(Wait(s, w1));
    SendRun(s1, w2);
    RunConcat(s, Before(s, w1) + [Progresses], Before(s1, w2) + [Progresses]);
  }
}
