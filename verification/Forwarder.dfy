/** Forwarding in-process events to a bounded consumer channel under backpressure. */
module Forwarder {
  import opened Text
  import opened Sequences

  datatype Kind =
    | TurnCompleted
    | ThreadSettingsUpdated
    | ItemCompleted
    | AgentMessageDelta
    | PlanDelta
    | ReasoningSummaryTextDelta
    | ReasoningTextDelta
    | BestEffort

  datatype Event =
    | ServerNotification(kind: Kind, n: nat)
    | ServerRequest(id: nat, tokenRefresh: bool)
    | UpstreamLagged(count: nat)

  /** `event_requires_delivery`: the lossless tier. */
  predicate RequiresDelivery(e: Event) {
    e.ServerNotification? && e.kind != BestEffort
  }

  datatype Item = Forwarded(event: Event) | Lagged(skipped: nat)

  datatype Rejection = Rejection(id: nat, code: int)

  const OVERLOADED := -32001
  const UNSUPPORTED := -32000
  const USIZE_MAX: nat := 0xFFFF_FFFF_FFFF_FFFF

  function SaturatingAdd(n: nat, k: nat): nat {
    if n + k > USIZE_MAX then USIZE_MAX else n + k
  }

  /**
   * Where a forwarding call stands. A lossless event waits for room for its marker and for itself;
   * a best-effort one only tries, and the consumer may act between the two tries.
   */
  datatype Phase =
    | Idle
    | FlushingMarker(event: Event)
    | SendingEvent(event: Event)
    | TryingMarker(event: Event)
    | TryingEvent(event: Event)

  /** What became of each run of input events: delivered, or dropped together behind one marker. */
  datatype Entry = Kept(event: Event) | Gap(events: seq<Event>)

  /** The channel and the worker's state; the last four fields are its history. */
  datatype State = State(capacity: nat, queue: seq<Item>, received: seq<Item>, open: bool, skipped: nat, enabled: bool,
                         phase: Phase, rejected: seq<Rejection>,
                         pulled: seq<Event>, log: seq<Entry>, gap: seq<Event>, lost: seq<Event>)

  function Start(capacity: nat): State {
    State(if capacity == 0 then 1 else capacity, [], [], true, 0, true, Idle, [], [], [], [], [])
  }

  // ----- the steps -----

  predicate HasRoom(s: State) {
    |s.queue| < s.capacity
  }

  function Reject(s: State, e: Event, code: int): State {
    if e.ServerRequest? then s.(rejected := s.rejected + [Rejection(e.id, code)]) else s
  }

  function Drop(s: State, e: Event): State {
    Reject(s.(skipped := SaturatingAdd(s.skipped, 1), phase := Idle, gap := s.gap + [e]), e, OVERLOADED)
  }

  /** The consumer is gone: the stream is disabled for good. */
  function Lose(s: State, e: Event): State {
    s.(enabled := false, phase := Idle, lost := s.lost + [e])
  }

  function Enqueue(s: State, e: Event): State {
    s.(queue := s.queue + [Forwarded(e)], phase := Idle, log := s.log + [Kept(e)])
  }

  function EnqueueMarker(s: State): State {
    s.(queue := s.queue + [Lagged(s.skipped)], skipped := 0, log := s.log + [Gap(s.gap)], gap := [])
  }

  /** Which send `forward_in_process_event` comes to first. */
  function Begin(s: State, e: Event): State {
    s.(phase := if s.skipped > 0 then (if RequiresDelivery(e) then FlushingMarker(e) else TryingMarker(e))
                else if RequiresDelivery(e) then SendingEvent(e)
                else TryingEvent(e))
  }

  /** The worker takes one event from the runtime. */
  function Pull(s: State, e: Event): State {
    var s1 := s.(pulled := s.pulled + [e]);
    if e.ServerRequest? && e.tokenRefresh then Reject(s1, e, UNSUPPORTED) else Begin(s1, e)
  }

  /** The next send of the call goes through, fails, drops its event, or keeps waiting. */
  function Progress(s: State): State {
    match s.phase
    case Idle => s
    case FlushingMarker(e) =>
      if !s.open then Lose(s, e) else if HasRoom(s) then EnqueueMarker(s).(phase := SendingEvent(e)) else s
    case SendingEvent(e) =>
      if !s.open then Lose(s, e) else if HasRoom(s) then Enqueue(s, e) else s
    case TryingMarker(e) =>
      if !s.open then Lose(s, e) else if HasRoom(s) then EnqueueMarker(s).(phase := TryingEvent(e)) else Drop(s, e)
    case TryingEvent(e) =>
      if !s.open then Lose(s, e) else if HasRoom(s) then Enqueue(s, e) else Drop(s, e)
  }

  function Receive(s: State): State {
    if s.open && s.queue != [] then s.(queue := s.queue[1..], received := s.received + [s.queue[0]]) else s
  }

  datatype Move = Pulls(event: Event) | Progresses | Receives | Closes

  function Apply(s: State, m: Move): State {
    match m
    case Pulls(e) => if s.enabled && s.phase.Idle? then Pull(s, e) else s
    case Progresses => Progress(s)
    case Receives => Receive(s)
    case Closes => s.(open := false)
  }

  function Run(s: State, moves: seq<Move>): State {
    if moves == [] then s else Apply(Run(s, moves[..|moves| - 1]), moves[|moves| - 1])
  }

  // ----- readings of the history -----

  function ItemOf(x: Entry): seq<Item> {
    match x case Kept(e) => [Forwarded(e)] case Gap(g) => [Lagged(SaturatingAdd(0, |g|))]
  }

  function EventsOf(x: Entry): seq<Event> {
    match x case Kept(e) => [e] case Gap(g) => g
  }

  function KeptOf(x: Entry): seq<Event> {
    match x case Kept(e) => [e] case Gap(_) => []
  }

  function DroppedOf(x: Entry): seq<Event> {
    match x case Kept(_) => [] case Gap(g) => g
  }

  /** Everything but token refreshes is handed to the forwarder. */
  function Handed(e: Event): seq<Event> {
    if e.ServerRequest? && e.tokenRefresh then [] else [e]
  }

  function Lossless(e: Event): seq<Event> {
    if RequiresDelivery(e) then [e] else []
  }

  function InFlight(phase: Phase): seq<Event> {
    if phase.Idle? then [] else [phase.event]
  }

  ghost predicate Droppable(g: seq<Event>) {
    forall e :: e in g ==> !RequiresDelivery(e)
  }

  ghost predicate GoodEntry(x: Entry) {
    x.Gap? ==> x.events != [] && Droppable(x.events)
  }

  /** The consumer's stream is the input, position by position, with each gap replaced by its size. */
  ghost predicate PositionAccurate(s: State) {
    && s.received + s.queue == FlatMap(ItemOf, s.log)
    && FlatMap(Handed, s.pulled) == FlatMap(EventsOf, s.log) + s.gap + InFlight(s.phase) + s.lost
    && s.skipped == SaturatingAdd(0, |s.gap|)
    && Droppable(s.gap)
    && (forall x :: x in s.log ==> GoodEntry(x))
  }

  ghost predicate WellFormed(s: State) {
    && 1 <= s.capacity && |s.queue| <= s.capacity
    && |s.lost| <= 1 && (s.enabled ==> s.lost == []) && (!s.enabled ==> s.phase.Idle? && !s.open)
    && (s.phase.FlushingMarker? ==> RequiresDelivery(s.phase.event) && s.skipped > 0)
    && (s.phase.SendingEvent? ==> RequiresDelivery(s.phase.event) && s.gap == [])
    && (s.phase.TryingMarker? ==> !RequiresDelivery(s.phase.event) && s.skipped > 0)
    && (s.phase.TryingEvent? ==> !RequiresDelivery(s.phase.event) && s.gap == [])
  }

  ghost predicate Good(s: State) {
    WellFormed(s) && PositionAccurate(s)
  }

  // ----- every step keeps the stream accurate -----

  lemma EnqueueAccurate(s: State, e: Event)
    requires PositionAccurate(s) && InFlight(s.phase) == [e] && s.gap == [] && s.lost == []
    ensures PositionAccurate(Enqueue(s, e))
  {
    var s' := Enqueue(s, e);
    FlatMapSnoc(ItemOf, s.log, Kept(e));
    FlatMapSnoc(EventsOf, s.log, Kept(e));
    assert s'.received + s'.queue == (s.received + s.queue) + [Forwarded(e)];
    var before := FlatMap(EventsOf, s.log);
    assert before + [] + [e] + [] == (before + [e]) + [] + [] + [];
  }

  lemma MarkerAccurate(s: State, next: Phase)
    requires PositionAccurate(s) && InFlight(next) == InFlight(s.phase) && s.gap != []
    ensures PositionAccurate(EnqueueMarker(s).(phase := next))
  {
    var s' := EnqueueMarker(s).(phase := next);
    FlatMapSnoc(ItemOf, s.log, Gap(s.gap));
    FlatMapSnoc(EventsOf, s.log, Gap(s.gap));
    assert s'.received + s'.queue == (s.received + s.queue) + [Lagged(s.skipped)];
    var before := FlatMap(EventsOf, s.log) + s.gap;
    assert before + [] == before;
  }

  lemma DropAccurate(s: State, e: Event)
    requires PositionAccurate(s) && InFlight(s.phase) == [e] && s.lost == [] && !RequiresDelivery(e)
    ensures PositionAccurate(Drop(s, e))
  {
    var s' := Drop(s, e);
    assert s'.log == s.log && s'.gap == s.gap + [e] && s'.pulled == s.pulled && s'.queue == s.queue && s'.received == s.received;
    GapGrows(FlatMap(EventsOf, s.log), s.gap, e);
  }

  lemma GapGrows(before: seq<Event>, gap: seq<Event>, e: Event)
    ensures before + gap + [e] + [] == before + (gap + [e]) + [] + []
  {
  }

  lemma LoseAccurate(s: State, e: Event)
    requires PositionAccurate(s) && InFlight(s.phase) == [e] && s.lost == []
    ensures PositionAccurate(Lose(s, e))
  {
    var before := FlatMap(EventsOf, s.log);
    assert before + s.gap + [e] + [] == before + s.gap + [] + ([] + [e]);
  }

  lemma PullAccurate(s: State, e: Event, next: Phase)
    requires PositionAccurate(s) && s.phase.Idle? && s.lost == [] && InFlight(next) == Handed(e)
    ensures PositionAccurate(s.(pulled := s.pulled + [e], phase := next))
  {
    FlatMapSnoc(Handed, s.pulled, e);
    var before := FlatMap(EventsOf, s.log) + s.gap;
    assert before + [] + [] == before;
    assert before + Handed(e) + [] == before + Handed(e);
  }

  lemma PullGood(s: State, e: Event)
    requires Good(s) && s.enabled && s.phase.Idle?
    ensures Good(Pull(s, e))
  {
    if e.ServerRequest? && e.tokenRefresh {
      PullAccurate(s, e, Idle);
    } else {
      PullAccurate(s, e, Begin(s, e).phase);
    }
  }

  lemma MarkerStepGood(s: State)
    requires Good(s) && (s.phase.FlushingMarker? || s.phase.TryingMarker?)
    ensures Good(Progress(s))
  {
    var e := s.phase.event;
    if !s.open {
      LoseAccurate(s, e);
    } else if HasRoom(s) {
      MarkerAccurate(s, Progress(s).phase);
    } else if s.phase.TryingMarker? {
      DropAccurate(s, e);
    }
  }

  lemma EventStepGood(s: State)
    requires Good(s) && (s.phase.SendingEvent? || s.phase.TryingEvent?)
    ensures Good(Progress(s))
  {
    var e := s.phase.event;
    if !s.open {
      LoseAccurate(s, e);
    } else if HasRoom(s) {
      EnqueueAccurate(s, e);
    } else if s.phase.TryingEvent? {
      DropAccurate(s, e);
    }
  }

  lemma ProgressGood(s: State)
    requires Good(s)
    ensures Good(Progress(s))
  {
    if s.phase.FlushingMarker? || s.phase.TryingMarker? {
      MarkerStepGood(s);
    } else if !s.phase.Idle? {
      EventStepGood(s);
    }
  }

  lemma ReceiveGood(s: State)
    requires Good(s)
    ensures Good(Receive(s))
  {
    if s.open && s.queue != [] {
      assert s.received + s.queue == (s.received + [s.queue[0]]) + s.queue[1..];
    }
  }

  /** In every run and interleaving the consumer's stream stays position-accurate. */
  lemma {:induction false} RunGood(capacity: nat, moves: seq<Move>)
    ensures Good(Run(Start(capacity), moves))
  {
    if moves != [] {
      var s := Run(Start(capacity), moves[..|moves| - 1]);
      RunGood(capacity, moves[..|moves| - 1]);
      match moves[|moves| - 1] {
        case Pulls(e) => if s.enabled && s.phase.Idle? { PullGood(s, e); }
        case Progresses => ProgressGood(s);
        case Receives => ReceiveGood(s);
        case Closes =>
      }
    }
  }

  // ----- the lossless tier -----

  lemma DroppedNotLossless(g: seq<Event>)
    requires Droppable(g)
    ensures FlatMap(Lossless, g) == []
  {
    FlatMapEmpty(Lossless, g);
  }

  lemma {:induction false} KeptLossless(log: seq<Entry>)
    requires forall x :: x in log ==> GoodEntry(x)
    ensures FlatMap(Lossless, FlatMap(EventsOf, log)) == FlatMap(Lossless, FlatMap(KeptOf, log))
  {
    if log != [] {
      var n := |log| - 1;
      KeptLossless(log[..n]);
      FlatMapConcat(Lossless, FlatMap(EventsOf, log[..n]), EventsOf(log[n]));
      FlatMapConcat(Lossless, FlatMap(KeptOf, log[..n]), KeptOf(log[n]));
      assert log[n] in log && GoodEntry(log[n]);
      if log[n].Gap? {
        DroppedNotLossless(log[n].events);
      }
    }
  }

  /**
   * Lossless events are delivered exactly once, in order, whatever the queue did: while the consumer
   * listens the only one not yet enqueued is the one being sent.
   */
  lemma LosslessDelivered(capacity: nat, moves: seq<Move>)
    ensures var s := Run(Start(capacity), moves);
            && FlatMap(Lossless, FlatMap(Handed, s.pulled))
               == FlatMap(Lossless, FlatMap(KeptOf, s.log)) + FlatMap(Lossless, InFlight(s.phase) + s.lost)
            && (s.open ==> s.lost == [])
  {
    RunGood(capacity, moves);
    LosslessOf(Run(Start(capacity), moves));
  }

  lemma LosslessOf(s: State)
    requires Good(s)
    ensures FlatMap(Lossless, FlatMap(Handed, s.pulled))
            == FlatMap(Lossless, FlatMap(KeptOf, s.log)) + FlatMap(Lossless, InFlight(s.phase) + s.lost)
  {
    KeptLossless(s.log);
    var events, rest := FlatMap(EventsOf, s.log), InFlight(s.phase) + s.lost;
    assert events + s.gap + InFlight(s.phase) + s.lost == (events + s.gap) + rest;
    LosslessSplit(events, s.gap, rest);
  }

  lemma LosslessSplit(events: seq<Event>, gap: seq<Event>, rest: seq<Event>)
    requires Droppable(gap)
    ensures FlatMap(Lossless, (events + gap) + rest) == FlatMap(Lossless, events) + FlatMap(Lossless, rest)
  {
    FlatMapConcat(Lossless, events + gap, rest);
    FlatMapConcat(Lossless, events, gap);
    DroppedNotLossless(gap);
  }

  // ----- server requests -----

  function RequestId(e: Event): seq<nat> {
    if e.ServerRequest? then [e.id] else []
  }

  function RefreshId(e: Event): seq<nat> {
    if e.ServerRequest? && e.tokenRefresh then [e.id] else []
  }

  function RejectedAs(code: int): Rejection -> seq<nat> {
    (r: Rejection) => if r.code == code then [r.id] else []
  }

  /** Everything dropped so far, announced or not. */
  function Dropped(s: State): seq<Event> {
    FlatMap(DroppedOf, s.log) + s.gap
  }

  /** Rejections so far: overload exactly for dropped requests, unsupported exactly for token refreshes. */
  ghost predicate RejectionsMatch(rejected: seq<Rejection>, dropped: seq<Event>, pulled: seq<Event>) {
    && FlatMap(RejectedAs(OVERLOADED), rejected) == FlatMap(RequestId, dropped)
    && FlatMap(RejectedAs(UNSUPPORTED), rejected) == FlatMap(RefreshId, pulled)
  }

  ghost predicate RejectionsAccounted(s: State) {
    RejectionsMatch(s.rejected, Dropped(s), s.pulled)
  }

  function Rejected(e: Event, code: int): seq<Rejection> {
    if e.ServerRequest? then [Rejection(e.id, code)] else []
  }

  lemma RejectSnoc(rejected: seq<Rejection>, id: nat, code: int)
    ensures FlatMap(RejectedAs(OVERLOADED), rejected + [Rejection(id, code)])
            == FlatMap(RejectedAs(OVERLOADED), rejected) + if code == OVERLOADED then [id] else []
    ensures FlatMap(RejectedAs(UNSUPPORTED), rejected + [Rejection(id, code)])
            == FlatMap(RejectedAs(UNSUPPORTED), rejected) + if code == UNSUPPORTED then [id] else []
  {
    FlatMapSnoc(RejectedAs(OVERLOADED), rejected, Rejection(id, code));
    FlatMapSnoc(RejectedAs(UNSUPPORTED), rejected, Rejection(id, code));
  }

  lemma MatchAfterDrop(rejected: seq<Rejection>, dropped: seq<Event>, pulled: seq<Event>, e: Event)
    requires RejectionsMatch(rejected, dropped, pulled)
    ensures RejectionsMatch(rejected + Rejected(e, OVERLOADED), dropped + [e], pulled)
  {
    FlatMapSnoc(RequestId, dropped, e);
    if e.ServerRequest? {
      RejectSnoc(rejected, e.id, OVERLOADED);
    } else {
      assert rejected + [] == rejected;
    }
  }

  lemma MatchAfterPull(rejected: seq<Rejection>, dropped: seq<Event>, pulled: seq<Event>, e: Event)
    requires RejectionsMatch(rejected, dropped, pulled)
    ensures e.ServerRequest? && e.tokenRefresh ==> RejectionsMatch(rejected + Rejected(e, UNSUPPORTED), dropped, pulled + [e])
    ensures !(e.ServerRequest? && e.tokenRefresh) ==> RejectionsMatch(rejected, dropped, pulled + [e])
  {
    FlatMapSnoc(RefreshId, pulled, e);
    if e.ServerRequest? {
      RejectSnoc(rejected, e.id, UNSUPPORTED);
    }
  }

  /** The step dropped `e` and rejected it if it was a request, or dropped and rejected nothing. */
  ghost predicate DropsAtMost(s: State, s': State, e: Event) {
    && s'.pulled == s.pulled
    && (|| (Dropped(s') == Dropped(s) && s'.rejected == s.rejected)
        || (Dropped(s') == Dropped(s) + [e] && s'.rejected == s.rejected + Rejected(e, OVERLOADED)))
  }

  lemma DropDrops(s: State, e: Event)
    ensures DropsAtMost(s, Drop(s, e), e)
  {
    assert FlatMap(DroppedOf, s.log) + (s.gap + [e]) == (FlatMap(DroppedOf, s.log) + s.gap) + [e];
    assert s.rejected + [] == s.rejected;
  }

  lemma EnqueueDropsNothing(s: State, e: Event)
    ensures Dropped(Enqueue(s, e)) == Dropped(s)
  {
    FlatMapSnoc(DroppedOf, s.log, Kept(e));
    assert FlatMap(DroppedOf, s.log) + [] == FlatMap(DroppedOf, s.log);
  }

  lemma MarkerDropsNothing(s: State)
    ensures Dropped(EnqueueMarker(s)) == Dropped(s)
  {
    FlatMapSnoc(DroppedOf, s.log, Gap(s.gap));
    assert Dropped(s) + [] == Dropped(s);
  }

  lemma PullRejects(s: State, e: Event)
    requires RejectionsAccounted(s)
    ensures RejectionsAccounted(Pull(s, e))
  {
    MatchAfterPull(s.rejected, Dropped(s), s.pulled, e);
  }

  lemma ProgressRejects(s: State)
    requires RejectionsAccounted(s)
    ensures RejectionsAccounted(Progress(s))
  {
    MarkerDropsNothing(s);
    if !s.phase.Idle? {
      var e := s.phase.event;
      EnqueueDropsNothing(s, e);
      DropDrops(s, e);
      MatchAfterDrop(s.rejected, Dropped(s), s.pulled, e);
    }
  }

  lemma {:induction false} RunRejects(capacity: nat, moves: seq<Move>)
    ensures RejectionsAccounted(Run(Start(capacity), moves))
  {
    if moves == [] {
      assert Dropped(Start(capacity)) == [];
    } else {
      var s := Run(Start(capacity), moves[..|moves| - 1]);
      RunRejects(capacity, moves[..|moves| - 1]);
      match moves[|moves| - 1] {
        case Pulls(e) => PullRejects(s, e);
        case Progresses => ProgressRejects(s);
        case Receives =>
        case Closes =>
      }
    }
  }

  ghost function Requests(events: seq<Event>): multiset<nat> {
    multiset(FlatMap(RequestId, events))
  }

  lemma RequestsConcat(a: seq<Event>, b: seq<Event>)
    ensures Requests(a + b) == Requests(a) + Requests(b)
  {
    FlatMapConcat(RequestId, a, b);
  }

  lemma {:induction false} RequestsOfLog(log: seq<Entry>)
    ensures Requests(FlatMap(EventsOf, log)) == Requests(FlatMap(KeptOf, log)) + Requests(FlatMap(DroppedOf, log))
  {
    if log != [] {
      var n := |log| - 1;
      RequestsOfLog(log[..n]);
      RequestsConcat(FlatMap(EventsOf, log[..n]), EventsOf(log[n]));
      RequestsConcat(FlatMap(KeptOf, log[..n]), KeptOf(log[n]));
      RequestsConcat(FlatMap(DroppedOf, log[..n]), DroppedOf(log[n]));
    }
  }

  /** Requests among the pulled events are those handed on and those refused as token refreshes. */
  ghost predicate PulledSplit(pulled: seq<Event>) {
    Requests(pulled) == Requests(FlatMap(Handed, pulled)) + multiset(FlatMap(RefreshId, pulled))
  }

  lemma {:induction false} RequestsPulled(pulled: seq<Event>)
    ensures PulledSplit(pulled)
  {
    if pulled == [] {
      NothingPulled();
    } else {
      var before, e := pulled[..|pulled| - 1], pulled[|pulled| - 1];
      assert pulled == before + [e];
      RequestsPulled(before);
      PulledSplitSnoc(before, e);
    }
  }

  lemma NothingPulled()
    ensures PulledSplit([])
  {
    assert FlatMap(Handed, []) == [] && FlatMap(RefreshId, []) == [] && FlatMap(RequestId, []) == [];
  }

  lemma PulledSplitSnoc(pulled: seq<Event>, e: Event)
    requires PulledSplit(pulled)
    ensures PulledSplit(pulled + [e])
  {
    FlatMapSnoc(Handed, pulled, e);
    FlatMapSnoc(RefreshId, pulled, e);
    RequestsSnoc(pulled, e);
    var handed := FlatMap(Handed, pulled);
    if e.ServerRequest? && e.tokenRefresh {
      assert handed + [] == handed;
    } else {
      RequestsSnoc(handed, e);
      assert FlatMap(RefreshId, pulled) + [] == FlatMap(RefreshId, pulled);
    }
  }

  lemma RequestsSnoc(events: seq<Event>, e: Event)
    ensures Requests(events + [e]) == Requests(events) + multiset(RequestId(e))
  {
    FlatMapSnoc(RequestId, events, e);
  }

  /**
   * Conservation: every server request the worker pulled is either in the consumer's stream, or was
   * answered with exactly one rejection, or is the one event still being tried, or is the single
   * event lost when the consumer went away.
   */
  lemma EveryRequestAnswered(capacity: nat, moves: seq<Move>)
    ensures var s := Run(Start(capacity), moves);
            && Requests(s.pulled)
               == Requests(FlatMap(KeptOf, s.log)) + Requests(InFlight(s.phase)) + Requests(s.lost)
                  + multiset(FlatMap(RejectedAs(OVERLOADED), s.rejected)) + multiset(FlatMap(RejectedAs(UNSUPPORTED), s.rejected))
            && |s.lost| <= 1 && (s.open ==> s.lost == []) && (s.phase.Idle? ==> Requests(InFlight(s.phase)) == multiset{})
  {
    var s := Run(Start(capacity), moves);
    RunGood(capacity, moves);
    RunRejects(capacity, moves);
    RequestsPulled(s.pulled);
    var events := FlatMap(EventsOf, s.log);
    RequestsConcat(events + s.gap + InFlight(s.phase), s.lost);
    RequestsConcat(events + s.gap, InFlight(s.phase));
    RequestsConcat(events, s.gap);
    RequestsOfLog(s.log);
    RequestsConcat(FlatMap(DroppedOf, s.log), s.gap);
  }

  // ----- how long a call can wait -----

  /** Let the call run until it finishes or has to wait. */
  function Settle(s: State): State {
    Progress(Progress(s))
  }

  /** Places the call still needs beyond what is free. */
  function Debt(s: State): nat {
    var need := if s.phase.FlushingMarker? then 2 else if s.phase.SendingEvent? then 1 else 0;
    if |s.queue| + need > s.capacity && need > 0 then |s.queue| + need - s.capacity else 0
  }

  lemma SettleDebt(s: State)
    requires WellFormed(s) && s.open
    ensures Debt(s) <= 2
    ensures Settle(s).phase.Idle? <==> Debt(s) == 0
    ensures Debt(Settle(s)) == Debt(s) && Settle(s).open
    ensures Debt(s) > 0 ==> |Settle(s).queue| == s.capacity && Settle(s).capacity == s.capacity
  {
  }

  lemma ReceiveDebt(s: State)
    requires WellFormed(s) && s.open && Debt(s) > 0 && |s.queue| == s.capacity
    ensures Debt(Receive(s)) == Debt(s) - 1 && Receive(s).open
  {
  }

  lemma SettleGood(s: State)
    requires Good(s)
    ensures Good(Settle(s)) && Good(Receive(Settle(s)))
  {
    ProgressGood(s);
    ProgressGood(Progress(s));
    ReceiveGood(Settle(s));
  }

  /**
   * A waiting call completes after exactly `Debt` receives, which is never more than two, and is two
   * exactly when a marker is due and the queue is full.
   */
  lemma CompletesAfterDebt(s: State)
    requires Good(s) && s.open
    ensures Debt(s) <= 2 && (Debt(s) == 2 <==> s.phase.FlushingMarker? && |s.queue| == s.capacity)
    ensures Settle(s).phase.Idle? <==> Debt(s) == 0
    ensures Debt(s) > 0 ==> Settle(s).queue != [] && Debt(Receive(Settle(s))) == Debt(s) - 1
    ensures Good(Receive(Settle(s))) && Receive(Settle(s)).open
  {
    SettleGood(s);
    SettleDebt(s);
    if Debt(s) > 0 {
      ReceiveDebt(Settle(s));
    }
  }

  /** Two receives are always enough; a closed channel needs none. */
  lemma TwoReceivesSuffice(s: State)
    requires Good(s)
    ensures s.open ==> Settle(Receive(Settle(Receive(Settle(s))))).phase.Idle?
    ensures !s.open ==> Progress(s).phase.Idle?
  {
    if s.open {
      CompletesAfterDebt(s);
      var s1 := Receive(Settle(s));
      CompletesAfterDebt(s1);
      CompletesAfterDebt(Receive(Settle(s1)));
    }
  }

  // ----- the worker object -----

  datatype ForwardEventResult = Continue | DisableStream

  datatype TrySendResult = Queued | Full | Closed

  /** What the consumer does before a send: receive some items, and perhaps go away. */
  datatype Meanwhile = Meanwhile(receives: nat, closes: bool)

  function ReceiveMany(s: State, n: nat): State {
    if n == 0 then s else Receive(ReceiveMany(s, n - 1))
  }

  function Consume(s: State, w: Meanwhile): State {
    var s1 := ReceiveMany(s, w.receives);
    if w.closes then s1.(open := false) else s1
  }

  predicate Blocked(s: State) {
    (s.phase.FlushingMarker? || s.phase.SendingEvent?) && s.open && !HasRoom(s)
  }

  /** The consumer acts; a send that still has to wait ends its wait with one more receive. */
  function Wait(s: State, w: Meanwhile): State {
    var s1 := Consume(s, w);
    if Blocked(s1) then Receive(s1) else s1
  }

  /** The rest of a call, with the consumer's behaviour before each of its two sends. */
  function Finish(s: State, w1: Meanwhile, w2: Meanwhile): State {
    var s1 := Progress(Wait(s, w1));
    if s1.phase.Idle? then s1 else Progress(Wait(s1, w2))
  }

  lemma {:induction false} ReceiveManyGood(s: State, n: nat)
    requires Good(s)
    ensures Good(ReceiveMany(s, n)) && ReceiveMany(s, n).phase == s.phase
  {
    if n > 0 {
      ReceiveManyGood(s, n - 1);
      ReceiveGood(ReceiveMany(s, n - 1));
    }
  }

  lemma WaitGood(s: State, w: Meanwhile)
    requires Good(s)
    ensures Good(Wait(s, w)) && Wait(s, w).phase == s.phase && !Blocked(Wait(s, w))
  {
    ReceiveManyGood(s, w.receives);
    ReceiveGood(Consume(s, w));
  }

  /** A send that need not wait gets the call past its marker, or past its event. */
  lemma UnblockedProgress(s: State)
    requires WellFormed(s) && !Blocked(s)
    ensures var next := Progress(s).phase;
            next.Idle? || ((s.phase.FlushingMarker? || s.phase.TryingMarker?) && (next.SendingEvent? || next.TryingEvent?))
  {
  }

  /** A call always ends, keeping the stream accurate, whatever the consumer does meanwhile. */
  lemma FinishGood(s: State, w1: Meanwhile, w2: Meanwhile)
    requires Good(s)
    ensures Good(Finish(s, w1, w2)) && Finish(s, w1, w2).phase.Idle?
  {
    WaitGood(s, w1);
    ProgressGood(Wait(s, w1));
    UnblockedProgress(Wait(s, w1));
    var s1 := Progress(Wait(s, w1));
    WaitGood(s1, w2);
    ProgressGood(Wait(s1, w2));
    UnblockedProgress(Wait(s1, w2));
  }

  class EventForwarder {
    const capacity: nat
    var queue: seq<Item>
    var received: seq<Item>
    var open: bool
    var skipped: nat
    var rejected: seq<Rejection>
    ghost var phase: Phase
    ghost var pulled: seq<Event>
    ghost var log: seq<Entry>
    ghost var gap: seq<Event>
    ghost var lost: seq<Event>

    ghost function View(): State
      reads this
    {
      State(capacity, queue, received, open, skipped, lost == [], phase, rejected, pulled, log, gap, lost)
    }

    constructor (requested: nat)
      ensures View() == Start(requested)
    {
      capacity := if requested == 0 then 1 else requested;
      queue, received, open, skipped, rejected := [], [], true, 0, [];
      phase, pulled, log, gap, lost := Idle, [], [], [], [];
    }

    method ConsumerActs(w: Meanwhile)
      modifies this`queue, this`received, this`open
      ensures View() == Consume(old(View()), w)
    {
      var i := 0;
      while i < w.receives
        invariant 0 <= i <= w.receives && View() == ReceiveMany(old(View()), i)
      {
        if open && queue != [] {
          received, queue := received + [queue[0]], queue[1..];
        }
        i := i + 1;
      }
      if w.closes {
        open := false;
      }
    }

    /** `send().await`: waits for room unless the consumer is gone. */
    method Send(item: Item, w: Meanwhile) returns (ok: bool)
      requires Good(View()) && (phase.FlushingMarker? || phase.SendingEvent?)
      modifies this`queue, this`received, this`open
      ensures var s := Wait(old(View()), w);
              View() == (if s.open then s.(queue := s.queue + [item]) else s) && ok == s.open
    {
      ReceiveManyGood(View(), w.receives);
      ConsumerActs(w);
      if open && |queue| >= capacity {
        received, queue := received + [queue[0]], queue[1..];
      }
      if open {
        queue := queue + [item];
      }
      ok := open;
    }

    /** `try_send`, after whatever the consumer did since the last one. */
    method TrySend(item: Item, w: Meanwhile) returns (result: TrySendResult)
      requires phase.TryingMarker? || phase.TryingEvent?
      modifies this`queue, this`received, this`open
      ensures var s := Wait(old(View()), w);
              && result == (if !s.open then Closed else if HasRoom(s) then Queued else Full)
              && View() == if result == Queued then s.(queue := s.queue + [item]) else s
    {
      ReceiveManyPhase(View(), w.receives);
      ConsumerActs(w);
      if !open {
        return Closed;
      }
      if |queue| < capacity {
        queue := queue + [item];
        return Queued;
      }
      result := Full;
    }

    method DropEvent(e: Event)
      modifies this
      ensures View() == Drop(old(View()), e) && lost == old(lost)
    {
      skipped, phase, gap := SaturatingAdd(skipped, 1), Idle, gap + [e];
      if e.ServerRequest? {
        rejected := rejected + [Rejection(e.id, OVERLOADED)];
      }
    }

    ghost method LoseEvent(e: Event)
      requires lost == []
      modifies this`phase, this`lost
      ensures View() == Lose(old(View()), e) && lost == [e]
    {
      phase, lost := Idle, lost + [e];
    }

    /** Put out the marker that is due; whether the call goes on. */
    method ForwardMarker(e: Event, w: Meanwhile) returns (r: Option<ForwardEventResult>)
      requires Good(View()) && lost == [] && (phase == FlushingMarker(e) || phase == TryingMarker(e))
      modifies this
      ensures View() == Progress(Wait(old(View()), w))
      ensures r == if !phase.Idle? then None else Some(if lost == [] then Continue else DisableStream)
    {
      WaitGood(View(), w);
      if RequiresDelivery(e) {
        var ok := Send(Lagged(skipped), w);
        if !ok {
          LoseEvent(e);
          return Some(DisableStream);
        }
        skipped, phase, log, gap := 0, SendingEvent(e), log + [Gap(gap)], [];
        return None;
      }
      var result := TrySend(Lagged(skipped), w);
      match result {
        case Queued => skipped, phase, log, gap := 0, TryingEvent(e), log + [Gap(gap)], [];
        case Full =>
          DropEvent(e);
          return Some(Continue);
        case Closed =>
          LoseEvent(e);
          return Some(DisableStream);
      }
      r := None;
    }

    method ForwardEvent(e: Event, w: Meanwhile) returns (r: ForwardEventResult)
      requires Good(View()) && lost == [] && (phase == SendingEvent(e) || phase == TryingEvent(e))
      modifies this
      ensures View() == Progress(Wait(old(View()), w))
      ensures r == if lost == [] then Continue else DisableStream
    {
      WaitGood(View(), w);
      if RequiresDelivery(e) {
        var ok := Send(Forwarded(e), w);
        if !ok {
          LoseEvent(e);
          return DisableStream;
        }
        phase, log := Idle, log + [Kept(e)];
        return Continue;
      }
      var result := TrySend(Forwarded(e), w);
      match result {
        case Queued => phase, log := Idle, log + [Kept(e)];
        case Full => DropEvent(e);
        case Closed =>
          LoseEvent(e);
          return DisableStream;
      }
      r := Continue;
    }

    /** `forward_in_process_event`. */
    method Forward(e: Event, w1: Meanwhile, w2: Meanwhile) returns (r: ForwardEventResult)
      requires Good(Begin(View(), e)) && lost == [] && phase.Idle?
      modifies this
      ensures View() == Finish(Begin(old(View()), e), w1, w2)
      ensures r == if lost == [] then Continue else DisableStream
    {
      phase := Begin(View(), e).phase;
      if skipped > 0 {
        WaitGood(View(), w1);
        ProgressGood(Wait(View(), w1));
        UnblockedProgress(Wait(View(), w1));
        var early := ForwardMarker(e, w1);
        if early.Some? {
          return early.value;
        }
        r := ForwardEvent(e, w2);
      } else {
        WaitGood(View(), w1);
        UnblockedProgress(Wait(View(), w1));
        r := ForwardEvent(e, w1);
      }
    }

    /** The worker loop's event branch. */
    method Take(e: Event, w1: Meanwhile, w2: Meanwhile) returns (r: ForwardEventResult)
      requires Good(View()) && lost == [] && phase.Idle?
      modifies this
      ensures Good(View()) && phase.Idle?
      ensures View() == if e.ServerRequest? && e.tokenRefresh then Pull(old(View()), e) else Finish(Pull(old(View()), e), w1, w2)
      ensures r == if lost == [] then Continue else DisableStream
    {
      PullGood(View(), e);
      FinishGood(Pull(View(), e), w1, w2);
      pulled := pulled + [e];
      if e.ServerRequest? && e.tokenRefresh {
        rejected := rejected + [Rejection(e.id, UNSUPPORTED)];
        return Continue;
      }
      r := Forward(e, w1, w2);
    }
  }

  lemma {:induction false} ReceiveManyPhase(s: State, n: nat)
    ensures ReceiveMany(s, n).phase == s.phase && ReceiveMany(s, n).capacity == s.capacity
  {
    if n > 0 {
      ReceiveManyPhase(s, n - 1);
    }
  }
}
