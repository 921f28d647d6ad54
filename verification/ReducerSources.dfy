/** Every value a turn event reports is the last one stated about that turn since it was last reported. */
module ReducerSources {
  import opened Text
  import opened Reducer
  import opened ReducerHistory

  // ----- statements -----

  /** What one fact says about one turn; a start time may be stated to be unknown. */
  datatype Statement = Statement(connection: Option<ConnectionId>, thread: Option<string>, images: Option<nat>, config: Option<string>,
                                 startedAt: Option<Option<nat>>, tokens: Option<nat>, completed: Option<nat>, diff: Option<string>,
                                 steered: bool, tooled: bool)

  const SILENCE := Statement(None, None, None, None, None, None, None, None, false, false)

  /** The request a turn fact responds to. */
  function Pending(facts: seq<Fact>, f: TurnFact): Option<PendingRequest> {
    if f.TurnStartResponse? || f.TurnSteerResponse? || f.ErrorResponse? then Waiting(facts, f.connection, f.request) else None
  }

  /** A time before the epoch is no time. */
  function Time(at: Option<int>): Option<nat> {
    match at
    case Some(t) => if t < 0 then None else Some(t)
    case None => None
  }

  /** A start response speaks for the start request it answers; a steer is counted on a turn already known. */
  function TurnStatement(f: TurnFact, pending: Option<PendingRequest>, known: bool): Statement {
    match f
    case TurnStartResponse(connection, _, _) =>
      (match pending
       case Some(TurnStart(thread, images)) => SILENCE.(connection := Some(connection), thread := Some(thread), images := Some(images))
       case _ => SILENCE)
    case TurnSteerResponse(_, _, _) => SILENCE.(steered := known && pending.Some? && pending.value.TurnSteer?)
    case TurnStarted(_, at) => SILENCE.(startedAt := Some(Time(at)))
    case TurnDiffUpdated(_, thread, diff) => SILENCE.(thread := Some(thread), diff := Some(diff))
    case TurnCompleted(_, at) => SILENCE.(completed := Some(match Time(at) case Some(t) => t case None => 0))
    case TurnResolvedConfig(_, thread, images, config) => SILENCE.(thread := Some(thread), images := Some(images), config := Some(config))
    case TurnTokenUsage(_, thread, tokens) => SILENCE.(thread := Some(thread), tokens := Some(tokens))
    case _ => SILENCE
  }

  predicate Mentions(f: TurnFact, id: string) {
    !f.TurnStartRequest? && !f.TurnSteerRequest? && !f.ErrorResponse? && f.turn == id
  }

  function StatementOf(facts: seq<Fact>, f: Fact, id: string, known: bool): Statement {
    match f
    case OfTurn(t) => if Mentions(t, id) then TurnStatement(t, Pending(facts, t), known) else SILENCE
    case OfItem(ItemCompleted(_, turn, item, _)) => SILENCE.(tooled := known && turn == id && !item.kind.Untracked?)
    case _ => SILENCE
  }

  /** A start that was asked for, a completion, a config and a token count try to report their turn. */
  predicate Trying(f: TurnFact, pending: Option<PendingRequest>) {
    match f
    case TurnStartResponse(_, _, _) => pending.Some? && pending.value.TurnStart?
    case TurnCompleted(_, _) => true
    case TurnResolvedConfig(_, _, _, _) => true
    case TurnTokenUsage(_, _, _) => true
    case _ => false
  }

  predicate Tries(facts: seq<Fact>, f: Fact, id: string) {
    f.OfTurn? && Trying(f.turnFact, Pending(facts, f.turnFact)) && f.turnFact.turn == id
  }

  /** Every part the event needs has been said, about the turn, its connection and its thread. */
  predicate Reportable(facts: seq<Fact>, t: Turn) {
    && t.thread.Some? && t.images.Some? && t.config.Some? && t.completed.Some? && t.connection.Some?
    && Known(facts, t.connection.value).Some? && MetadataSaid(facts, t.thread.value).Some?
  }

  function SaidNext(facts: seq<Fact>, f: Fact, id: string, said: seq<Statement>): seq<Statement> {
    var x := StatementOf(facts, f, id, said != []);
    if Tries(facts, f, id) && Reportable(facts, Described(said + [x])) then []
    else if x == SILENCE then said
    else said + [x]
  }

  /** The statements about a turn since it was last reported. */
  function Said(facts: seq<Fact>, id: string): seq<Statement> {
    if facts == [] then [] else SaidNext(facts[..|facts| - 1], facts[|facts| - 1], id, Said(facts[..|facts| - 1], id))
  }

  // ----- the last statement counts -----

  /** The last value stated under one heading. */
  function Last<T>(heading: Statement -> Option<T>, said: seq<Statement>): Option<T> {
    if said == [] then None
    else
      var n := |said| - 1;
      if heading(said[n]).Some? then heading(said[n]) else Last(heading, said[..n])
  }

  /** Stated at some point, and not contradicted after it. */
  lemma {:induction false} LastMeans<T>(heading: Statement -> Option<T>, said: seq<Statement>, v: T)
    ensures Last(heading, said) == Some(v)
       <==> exists k :: 0 <= k < |said| && heading(said[k]) == Some(v) && forall j :: k < j < |said| ==> heading(said[j]) == None
  {
    if said != [] {
      var n := |said| - 1;
      LastMeans(heading, said[..n], v);
      if heading(said[n]) == None {
        if k :| 0 <= k < n && heading(said[..n][k]) == Some(v) && forall j :: k < j < n ==> heading(said[..n][j]) == None {
          assert forall j :: k < j < |said| ==> heading(said[j]) == None;
        }
      }
    }
  }

  function Tally(heading: Statement -> bool, said: seq<Statement>): nat {
    if said == [] then 0
    else
      var n := |said| - 1;
      Tally(heading, said[..n]) + if heading(said[n]) then 1 else 0
  }

  /** The turn the statements describe. */
  function Described(said: seq<Statement>): Turn {
    Turn(Last((x: Statement) => x.connection, said), Last((x: Statement) => x.thread, said),
         Last((x: Statement) => x.images, said), Last((x: Statement) => x.config, said),
         (match Last((x: Statement) => x.startedAt, said) case Some(at) => at case None => None),
         Last((x: Statement) => x.tokens, said), Last((x: Statement) => x.completed, said), Last((x: Statement) => x.diff, said),
         Tally((x: Statement) => x.steered, said), Tally((x: Statement) => x.tooled, said))
  }

  function Override<T>(current: Option<T>, stated: Option<T>): Option<T> {
    if stated.Some? then stated else current
  }

  function Amend(t: Turn, x: Statement): Turn {
    Turn(Override(t.connection, x.connection), Override(t.thread, x.thread), Override(t.images, x.images),
         Override(t.config, x.config), (match x.startedAt case Some(at) => at case None => t.startedAt),
         Override(t.tokens, x.tokens), Override(t.completed, x.completed), Override(t.diff, x.diff),
         t.steers + (if x.steered then 1 else 0), t.tools + (if x.tooled then 1 else 0))
  }

  lemma LastSnoc<T>(heading: Statement -> Option<T>, said: seq<Statement>, x: Statement)
    ensures Last(heading, said + [x]) == Override(Last(heading, said), heading(x))
  {
    assert (said + [x])[..|said|] == said;
  }

  lemma TallySnoc(heading: Statement -> bool, said: seq<Statement>, x: Statement)
    ensures Tally(heading, said + [x]) == Tally(heading, said) + if heading(x) then 1 else 0
  {
    assert (said + [x])[..|said|] == said;
  }

  lemma DescribedSnoc(said: seq<Statement>, x: Statement)
    ensures Described(said + [x]) == Amend(Described(said), x)
  {
    LastSnoc((x: Statement) => x.connection, said, x);
    LastSnoc((x: Statement) => x.thread, said, x);
    LastSnoc((x: Statement) => x.images, said, x);
    LastSnoc((x: Statement) => x.config, said, x);
    LastSnoc((x: Statement) => x.startedAt, said, x);
    LastSnoc((x: Statement) => x.tokens, said, x);
    LastSnoc((x: Statement) => x.completed, said, x);
    LastSnoc((x: Statement) => x.diff, said, x);
    TallySnoc((x: Statement) => x.steered, said, x);
    TallySnoc((x: Statement) => x.tooled, said, x);
  }

  // ----- one fact amends one turn -----

  ghost predicate Describes(s: State, id: string, said: seq<Statement>) {
    && (id in s.turns <==> said != [])
    && TurnOf(s, id) == Described(said)
  }

  predicate Complete(s: State, t: Turn) {
    && t.thread.Some? && t.images.Some? && t.config.Some? && t.completed.Some? && t.connection.Some?
    && t.connection.value in s.connections && HasMetadata(s, t.thread.value)
  }

  lemma CompleteAsSaid(facts: seq<Fact>, t: Turn)
    ensures Complete(After(FRESH, facts), t) <==> Reportable(facts, t)
    ensures Reportable(facts, t) ==> Known(facts, t.connection.value) == Some(After(FRESH, facts).connections[t.connection.value])
  {
    if t.thread.Some? && t.connection.Some? {
      ThreadsAsSaid(facts, t.thread.value);
      ConnectionsAsSaid(facts, t.connection.value);
    }
  }

  /** A complete turn is reported and forgotten; an incomplete one is kept. */
  lemma EmitExactly(s: State, id: string, t: Turn)
    ensures MaybeEmit(SetTurn(s, id, t), id)
         == if Complete(s, t) then Step(s.(turns := s.turns - {id}), [TurnEvent(id, t.thread.value, s.connections[t.connection.value], t)])
            else Step(SetTurn(s, id, t), [])
  {
    assert s.turns[id := t] - {id} == s.turns - {id};
  }

  /** The step of a fact that tries to report its turn. */
  lemma TryingStep(facts: seq<Fact>, f: TurnFact, said: seq<Statement>) returns (s1: State)
    requires Trying(f, Pending(facts, f)) && Describes(After(FRESH, facts), f.turn, said)
    ensures var t := Described(said + [TurnStatement(f, Pending(facts, f), said != [])]);
            IngestTurn(After(FRESH, facts), f) == MaybeEmit(SetTurn(s1, f.turn, t), f.turn)
    ensures s1 == After(FRESH, facts).(requests := s1.requests)
  {
    var s, x := After(FRESH, facts), TurnStatement(f, Pending(facts, f), said != []);
    DescribedSnoc(said, x);
    if f.TurnStartResponse? {
      RequestsAsSaid(facts, f.connection, f.request);
      s1 := s.(requests := s.requests - {(f.connection, f.request)});
      assert Amend(TurnOf(s, f.turn), x)
          == TurnOf(s, f.turn).(connection := Some(f.connection), thread := x.thread, images := x.images);
    } else {
      s1 := s;
    }
  }

  /** What a trying fact leaves and reports. */
  lemma TryingTold(facts: seq<Fact>, f: TurnFact, said: seq<Statement>)
    requires Trying(f, Pending(facts, f)) && Describes(After(FRESH, facts), f.turn, said)
    ensures var s, t := After(FRESH, facts), Described(said + [TurnStatement(f, Pending(facts, f), said != [])]);
            var r := IngestTurn(s, f);
            if Reportable(facts, t)
            then r.state.turns == s.turns - {f.turn}
                 && r.out == [TurnEvent(f.turn, t.thread.value, Known(facts, t.connection.value).value, t)]
            else r.state.turns == s.turns[f.turn := t] && r.out == []
  {
    var t := Described(said + [TurnStatement(f, Pending(facts, f), said != [])]);
    var s1 := TryingStep(facts, f, said);
    EmitExactly(s1, f.turn, t);
    CompleteAsSaid(facts, t);
    assert Complete(s1, t) == Complete(After(FRESH, facts), t);
  }

  lemma TryingSpeaks(facts: seq<Fact>, f: TurnFact, known: bool)
    requires Trying(f, Pending(facts, f))
    ensures TurnStatement(f, Pending(facts, f), known) != SILENCE
  {
  }

  lemma TryingNext(facts: seq<Fact>, f: TurnFact, id: string, own: seq<Statement>, said: seq<Statement>)
    requires Trying(f, Pending(facts, f)) && Describes(After(FRESH, facts), f.turn, own) && Describes(After(FRESH, facts), id, said)
    requires f.turn == id ==> own == said
    ensures Describes(IngestTurn(After(FRESH, facts), f).state, id, SaidNext(facts, OfTurn(f), id, said))
  {
    TryingTold(facts, f, own);
    TryingSpeaks(facts, f, own != []);
  }

  lemma SteerTurns(s: State, connection: ConnectionId, request: RequestId, turn: string)
    ensures var key := (connection, request);
            SteerTurn(s, connection, request, turn).state.turns
            == if key in s.requests && s.requests[key].TurnSteer? && turn in s.turns
               then s.turns[turn := s.turns[turn].(steers := s.turns[turn].steers + 1)] else s.turns
  {
  }

  lemma SteerNext(facts: seq<Fact>, f: TurnFact, id: string, said: seq<Statement>)
    requires f.TurnSteerResponse? && Describes(After(FRESH, facts), id, said)
    ensures Describes(IngestTurn(After(FRESH, facts), f).state, id, SaidNext(facts, OfTurn(f), id, said))
  {
    RequestsAsSaid(facts, f.connection, f.request);
    SteerTurns(After(FRESH, facts), f.connection, f.request, f.turn);
    DescribedSnoc(said, StatementOf(facts, OfTurn(f), id, said != []));
  }

  lemma NotedNext(facts: seq<Fact>, f: TurnFact, id: string, said: seq<Statement>)
    requires (f.TurnStarted? || f.TurnDiffUpdated?) && Describes(After(FRESH, facts), id, said)
    ensures Describes(IngestTurn(After(FRESH, facts), f).state, id, SaidNext(facts, OfTurn(f), id, said))
  {
    DescribedSnoc(said, StatementOf(facts, OfTurn(f), id, said != []));
  }

  lemma SilentNext(facts: seq<Fact>, f: TurnFact, id: string, said: seq<Statement>)
    requires f.TurnStartRequest? || f.TurnSteerRequest? || f.ErrorResponse? || (f.TurnStartResponse? && !Trying(f, Pending(facts, f)))
    requires Describes(After(FRESH, facts), id, said)
    ensures Describes(IngestTurn(After(FRESH, facts), f).state, id, SaidNext(facts, OfTurn(f), id, said))
  {
    if f.TurnStartResponse? {
      RequestsAsSaid(facts, f.connection, f.request);
    }
    assert IngestTurn(After(FRESH, facts), f).state.turns == After(FRESH, facts).turns;
  }

  lemma TurnFactNext(facts: seq<Fact>, f: TurnFact, id: string, said: seq<Statement>)
    requires !Trying(f, Pending(facts, f)) && Describes(After(FRESH, facts), id, said)
    ensures Describes(IngestTurn(After(FRESH, facts), f).state, id, SaidNext(facts, OfTurn(f), id, said))
  {
    match f {
      case TurnSteerResponse(_, _, _) => SteerNext(facts, f, id, said);
      case TurnStarted(_, _) => NotedNext(facts, f, id, said);
      case TurnDiffUpdated(_, _, _) => NotedNext(facts, f, id, said);
      case _ => SilentNext(facts, f, id, said);
    }
  }

  lemma ItemNext(facts: seq<Fact>, f: ItemFact, id: string, said: seq<Statement>)
    requires Describes(After(FRESH, facts), id, said)
    ensures Describes(IngestItem(After(FRESH, facts), f).state, id, SaidNext(facts, OfItem(f), id, said))
  {
    ItemTurns(After(FRESH, facts), f);
    DescribedSnoc(said, StatementOf(facts, OfItem(f), id, said != []));
  }

  // ----- the main results -----

  /** In every run a turn is remembered once something was said about it, and is exactly what has been said. */
  lemma {:induction false} TurnsAsSaid(facts: seq<Fact>, id: string)
    ensures var s, said := After(FRESH, facts), Said(facts, id);
            (id in s.turns <==> said != []) && TurnOf(s, id) == Described(said)
  {
    if facts != [] {
      var past, now := facts[..|facts| - 1], facts[|facts| - 1];
      TurnsAsSaid(past, id);
      match now {
        case OfTurn(f) =>
          if Trying(f, Pending(past, f)) {
            TurnsAsSaid(past, f.turn);
            TryingNext(past, f, id, Said(past, f.turn), Said(past, id));
          } else {
            TurnFactNext(past, f, id, Said(past, id));
          }
        case OfItem(f) => ItemNext(past, f, id, Said(past, id));
        case OfThread(f) => assert IngestThread(After(FRESH, past), f).state.turns == After(FRESH, past).turns;
        case OfReview(f) => assert IngestReview(After(FRESH, past), f).state.turns == After(FRESH, past).turns;
      }
    }
  }

  /** The steer a response to a steer request reports. */
  function SteerTold(facts: seq<Fact>, connection: ConnectionId, pending: Option<PendingRequest>, accepted: Option<string>): seq<Event> {
    match pending
    case Some(TurnSteer(thread, _)) =>
      if Known(facts, connection).Some? && MetadataSaid(facts, thread).Some?
      then [TurnSteerEvent(thread, Known(facts, connection).value, accepted)] else []
    case _ => []
  }

  /** The report of a turn about which a last thing is said. */
  function Report(facts: seq<Fact>, id: string, said: seq<Statement>): seq<Event> {
    var t := Described(said);
    if Reportable(facts, t) then [TurnEvent(id, t.thread.value, Known(facts, t.connection.value).value, t)] else []
  }

  /** What a turn fact reports, on the strength of the facts before it. */
  function TurnTold(facts: seq<Fact>, f: TurnFact): seq<Event> {
    if f.TurnSteerResponse? then SteerTold(facts, f.connection, Pending(facts, f), Some(f.turn))
    else if f.ErrorResponse? then SteerTold(facts, f.connection, Pending(facts, f), None)
    else if Trying(f, Pending(facts, f)) then
      var said := Said(facts, f.turn);
      Report(facts, f.turn, said + [TurnStatement(f, Pending(facts, f), said != [])])
    else []
  }

  lemma SteersTold(facts: seq<Fact>, f: TurnFact)
    requires f.TurnSteerResponse? || f.ErrorResponse?
    ensures IngestTurn(After(FRESH, facts), f).out == TurnTold(facts, f)
  {
    RequestsAsSaid(facts, f.connection, f.request);
    ConnectionsAsSaid(facts, f.connection);
    match Pending(facts, f) {
      case Some(TurnSteer(thread, _)) => ThreadsAsSaid(facts, thread);
      case _ =>
    }
  }

  /** In every run a turn fact reports its turn with exactly what has been said about it, once all that is needed has been. */
  lemma TurnEventsTellFacts(facts: seq<Fact>, f: TurnFact)
    ensures IngestTurn(After(FRESH, facts), f).out == TurnTold(facts, f)
  {
    if f.TurnSteerResponse? || f.ErrorResponse? {
      SteersTold(facts, f);
    } else if Trying(f, Pending(facts, f)) {
      TurnsAsSaid(facts, f.turn);
      TryingTold(facts, f, Said(facts, f.turn));
    } else if f.TurnStartResponse? {
      RequestsAsSaid(facts, f.connection, f.request);
    }
  }
}
