/** Turn events: bounded by the facts they join, and independent of the order those arrive in. */
module ReducerTurns {
  import opened Text
  import opened Reducer
  import opened ReducerThreads

  function Bit(b: bool): nat {
    if b then 1 else 0
  }

  // ----- counting -----

  function EventsFor(out: seq<Event>, id: string): nat {
    if out == [] then 0
    else
      var n := |out| - 1;
      EventsFor(out[..n], id) + Bit(out[n].TurnEvent? && out[n].id == id)
  }

  lemma {:induction false} EventsForConcat(a: seq<Event>, b: seq<Event>, id: string)
    ensures EventsFor(a + b, id) == EventsFor(a, id) + EventsFor(b, id)
  {
    if b == [] {
      assert a + b == a;
    } else {
      var n := |b| - 1;
      assert (a + b)[..|a| + n] == a + b[..n];
      EventsForConcat(a, b[..n], id);
    }
  }

  /** A start response for a turn start that is still pending. */
  predicate StartsTurn(s: State, f: TurnFact, id: string) {
    f.TurnStartResponse? && f.turn == id && (f.connection, f.request) in s.requests
    && s.requests[(f.connection, f.request)].TurnStart?
  }

  predicate ConfiguresTurn(f: TurnFact, id: string) {
    f.TurnResolvedConfig? && f.turn == id
  }

  predicate CompletesTurn(f: TurnFact, id: string) {
    f.TurnCompleted? && f.turn == id
  }

  function Starts(s: State, facts: seq<Fact>, id: string): nat {
    if facts == [] then 0
    else
      var n := |facts| - 1;
      Starts(s, facts[..n], id) + Bit(facts[n].OfTurn? && StartsTurn(After(s, facts[..n]), facts[n].turnFact, id))
  }

  function Configs(facts: seq<Fact>, id: string): nat {
    if facts == [] then 0
    else
      var n := |facts| - 1;
      Configs(facts[..n], id) + Bit(facts[n].OfTurn? && ConfiguresTurn(facts[n].turnFact, id))
  }

  function Completions(facts: seq<Fact>, id: string): nat {
    if facts == [] then 0
    else
      var n := |facts| - 1;
      Completions(facts[..n], id) + Bit(facts[n].OfTurn? && CompletesTurn(facts[n].turnFact, id))
  }

  // ----- what one fact does to one turn -----

  /** The thread a fact records for the turn, if it records one. */
  function ThreadSet(s: State, f: TurnFact, id: string): Option<string> {
    if StartsTurn(s, f, id) then Some(s.requests[(f.connection, f.request)].thread)
    else if (f.TurnResolvedConfig? || f.TurnDiffUpdated? || f.TurnTokenUsage?) && f.turn == id then Some(f.thread)
    else None
  }

  /** The parts of a turn that decide whether it is reported. */
  datatype Parts = Parts(connection: Option<ConnectionId>, thread: Option<string>, images: bool, config: bool, completed: bool)

  function PartsOf(t: Turn): Parts {
    Parts(t.connection, t.thread, t.images.Some?, t.config.Some?, t.completed.Some?)
  }

  /** The parts after a fact, before the reducer looks whether the turn is complete. */
  function NextParts(s: State, f: TurnFact, id: string): Parts {
    var p := PartsOf(TurnOf(s, id));
    var start, config := StartsTurn(s, f, id), ConfiguresTurn(f, id);
    Parts(if start then Some(f.connection) else p.connection,
          if ThreadSet(s, f, id).Some? then ThreadSet(s, f, id) else p.thread,
          p.images || start || config,
          p.config || config,
          p.completed || CompletesTurn(f, id))
  }

  predicate Reportable(s: State, p: Parts) {
    && p.connection.Some? && p.connection.value in s.connections
    && p.thread.Some? && HasMetadata(s, p.thread.value)
    && p.images && p.config && p.completed
  }

  /** Either the complete turn was reported and forgotten, or nothing was reported about it. */
  ghost predicate Effect(s: State, r: Step, p: Parts, id: string) {
    if Reportable(s, p) && EventsFor(r.out, id) == 1 then id !in r.state.turns
    else EventsFor(r.out, id) == 0 && PartsOf(TurnOf(r.state, id)) == p
  }

  lemma EmitEffect(s: State, touched: string, t: Turn, id: string)
    ensures var r := MaybeEmit(SetTurn(s, touched, t), touched);
            if touched == id then
              Effect(s, r, PartsOf(t), id) && (EventsFor(r.out, id) == 1 <==> Reportable(s, PartsOf(t)))
            else
              EventsFor(r.out, id) == 0 && TurnOf(r.state, id) == TurnOf(s, id)
  {
    var r := MaybeEmit(SetTurn(s, touched, t), touched);
    if r.out != [] {
      assert r.out[..0] == [];
    }
  }

  /** A fact that reports the turn whenever it completes it. */
  ghost predicate Joins(s: State, r: Step, p: Parts, id: string) {
    Effect(s, r, p, id) && (Reportable(s, p) ==> EventsFor(r.out, id) == 1)
  }

  lemma StartMatched(s: State, f: TurnFact, id: string)
    requires f.TurnStartResponse? && (f.connection, f.request) in s.requests && s.requests[(f.connection, f.request)].TurnStart?
    ensures if f.turn == id then Joins(s, IngestTurn(s, f), NextParts(s, f, id), id)
            else Effect(s, IngestTurn(s, f), NextParts(s, f, id), id)
  {
    var key := (f.connection, f.request);
    var pending := s.requests[key];
    var t := TurnOf(s, f.turn).(connection := Some(f.connection), thread := Some(pending.thread), images := Some(pending.images));
    EmitEffect(s.(requests := s.requests - {key}), f.turn, t, id);
  }

  lemma StartEffect(s: State, f: TurnFact, id: string)
    requires f.TurnStartResponse?
    ensures Effect(s, IngestTurn(s, f), NextParts(s, f, id), id)
    ensures StartsTurn(s, f, id) ==> Joins(s, IngestTurn(s, f), NextParts(s, f, id), id)
  {
    if (f.connection, f.request) in s.requests && s.requests[(f.connection, f.request)].TurnStart? {
      StartMatched(s, f, id);
    }
  }

  lemma SteerQuiet(s: State, connection: ConnectionId, thread: string, accepted: Option<string>, id: string)
    ensures EventsFor(SteerEvents(s, connection, thread, accepted), id) == 0
  {
    var out := SteerEvents(s, connection, thread, accepted);
    if out != [] {
      assert out[..0] == [];
    }
  }

  lemma SteerTurnQuiet(s: State, connection: ConnectionId, request: RequestId, turn: string, id: string)
    ensures var r := SteerTurn(s, connection, request, turn);
            EventsFor(r.out, id) == 0 && PartsOf(TurnOf(r.state, id)) == PartsOf(TurnOf(s, id))
  {
    var key, after := (connection, request), SteerTurn(s, connection, request, turn).state;
    if key in s.requests && s.requests[key].TurnSteer? {
      SteerQuiet(after, connection, s.requests[key].thread, Some(turn), id);
    }
  }

  lemma FailRequestQuiet(s: State, connection: ConnectionId, request: RequestId, id: string)
    ensures var r := FailRequest(s, connection, request); EventsFor(r.out, id) == 0 && TurnOf(r.state, id) == TurnOf(s, id)
  {
    var key, after := (connection, request), FailRequest(s, connection, request).state;
    if key in s.requests && s.requests[key].TurnSteer? {
      SteerQuiet(after, connection, s.requests[key].thread, None, id);
    }
  }

  lemma QuietEffect(s: State, f: TurnFact, id: string)
    requires !f.TurnStartResponse? && !f.TurnCompleted? && !f.TurnResolvedConfig? && !f.TurnTokenUsage?
    ensures var r := IngestTurn(s, f); EventsFor(r.out, id) == 0 && PartsOf(TurnOf(r.state, id)) == NextParts(s, f, id)
  {
    if f.TurnSteerResponse? {
      SteerTurnQuiet(s, f.connection, f.request, f.turn, id);
    } else if f.ErrorResponse? {
      FailRequestQuiet(s, f.connection, f.request, id);
    }
  }

  /** The effect of a fact that amends the turn it names and tries the report. */
  ghost predicate Tries(s: State, f: TurnFact, id: string) {
    && (f.TurnCompleted? || f.TurnResolvedConfig? || f.TurnTokenUsage?)
    && if f.turn == id then Joins(s, IngestTurn(s, f), NextParts(s, f, id), id)
       else Effect(s, IngestTurn(s, f), NextParts(s, f, id), id)
  }

  lemma CompletedTries(s: State, f: TurnFact, id: string)
    requires f.TurnCompleted?
    ensures Tries(s, f, id)
  {
    EmitEffect(s, f.turn, TurnOf(s, f.turn).(completed := Some(match Unsigned(f.at) case Some(v) => v case None => 0)), id);
  }

  lemma ConfigTries(s: State, f: TurnFact, id: string)
    requires f.TurnResolvedConfig?
    ensures Tries(s, f, id)
  {
    EmitEffect(s, f.turn, TurnOf(s, f.turn).(thread := Some(f.thread), images := Some(f.images), config := Some(f.config)), id);
  }

  lemma UsageTries(s: State, f: TurnFact, id: string)
    requires f.TurnTokenUsage?
    ensures Tries(s, f, id)
  {
    EmitEffect(s, f.turn, TurnOf(s, f.turn).(thread := Some(f.thread), tokens := Some(f.tokens)), id);
  }

  /** A joining fact reports the turn exactly when that completes it. */
  lemma TurnFactEffect(s: State, f: TurnFact, id: string)
    ensures var r := IngestTurn(s, f);
            && Effect(s, r, NextParts(s, f, id), id)
            && ((StartsTurn(s, f, id) || ConfiguresTurn(f, id) || CompletesTurn(f, id)) && Reportable(s, NextParts(s, f, id))
                ==> EventsFor(r.out, id) == 1)
  {
    if f.TurnStartResponse? {
      StartEffect(s, f, id);
    } else if f.TurnCompleted? {
      CompletedTries(s, f, id);
    } else if f.TurnResolvedConfig? {
      ConfigTries(s, f, id);
    } else if f.TurnTokenUsage? {
      UsageTries(s, f, id);
    } else {
      QuietEffect(s, f, id);
    }
  }

  /** Facts about threads, reviews and items neither report a turn nor change its parts. */
  lemma OtherFactsKeepTurn(s: State, f: Fact, id: string)
    requires !f.OfTurn?
    ensures var r := Ingest(s, f); EventsFor(r.out, id) == 0 && PartsOf(TurnOf(r.state, id)) == PartsOf(TurnOf(s, id))
  {
    SingleOut(s, f);
    NoTurnEvents(Ingest(s, f).out, id);
    OtherFactsKeepParts(s, f, id);
  }

  lemma OtherFactsKeepParts(s: State, f: Fact, id: string)
    requires !f.OfTurn?
    ensures PartsOf(TurnOf(Ingest(s, f).state, id)) == PartsOf(TurnOf(s, id))
  {
    match f {
      case OfThread(t) => assert IngestThread(s, t).state.turns == s.turns;
      case OfReview(r) => assert IngestReview(s, r).state.turns == s.turns;
      case OfItem(i) => ItemKeepsParts(s, i, id);
    }
  }

  lemma ItemKeepsParts(s: State, f: ItemFact, id: string)
    ensures PartsOf(TurnOf(IngestItem(s, f).state, id)) == PartsOf(TurnOf(s, id))
  {
    ItemTurns(s, f);
  }

  lemma NoTurnEvents(out: seq<Event>, id: string)
    requires |out| <= 1 && forall e :: e in out ==> !e.TurnEvent?
    ensures EventsFor(out, id) == 0
  {
    if out != [] {
      assert out[..0] == [] && out[0] in out;
    }
  }

  lemma SingleOut(s: State, f: Fact)
    requires !f.OfTurn?
    ensures |Ingest(s, f).out| <= 1
    ensures forall e :: e in Ingest(s, f).out ==> !e.TurnEvent?
  {
  }

  // ----- never more turn events than starts, configs or completions -----

  ghost predicate Bounded(s: State, facts: seq<Fact>, id: string) {
    var t, e := PartsOf(TurnOf(After(s, facts), id)), EventsFor(Emitted(s, facts), id);
    && e + Bit(t.connection.Some?) <= Starts(s, facts, id)
    && e + Bit(t.config) <= Configs(facts, id)
    && e + Bit(t.completed) <= Completions(facts, id)
  }

  lemma {:induction false} RunBounded(s: State, facts: seq<Fact>, id: string)
    requires id !in s.turns
    ensures Bounded(s, facts, id)
  {
    if facts != [] {
      var n := |facts| - 1;
      RunBounded(s, facts[..n], id);
      var before := After(s, facts[..n]);
      EventsForConcat(Emitted(s, facts[..n]), Ingest(before, facts[n]).out, id);
      if facts[n].OfTurn? {
        TurnFactEffect(before, facts[n].turnFact, id);
      } else {
        OtherFactsKeepTurn(before, facts[n], id);
      }
    }
  }

  /** Over every run, a turn id is reported at most as often as it was started, configured or completed. */
  lemma TurnEventsBounded(facts: seq<Fact>, id: string)
    ensures var e := EventsFor(Emitted(FRESH, facts), id);
            e <= Starts(FRESH, facts, id) && e <= Configs(facts, id) && e <= Completions(facts, id)
  {
    RunBounded(FRESH, facts, id);
  }

  // ----- confluence -----

  /** The fact at hand names the agreed thread, and starts the turn only on a known connection. */
  predicate AgreesAt(s: State, f: Fact, id: string, thread: string) {
    f.OfTurn? ==>
      && (ThreadSet(s, f.turnFact, id).Some? ==> ThreadSet(s, f.turnFact, id).value == thread)
      && (StartsTurn(s, f.turnFact, id) ==> f.turnFact.connection in s.connections)
  }

  ghost predicate Agreed(s: State, facts: seq<Fact>, id: string, thread: string) {
    forall i :: 0 <= i < |facts| ==> AgreesAt(After(s, facts[..i]), facts[i], id, thread)
  }

  ghost predicate AtMostOnce(s: State, facts: seq<Fact>, id: string) {
    Starts(s, facts, id) <= 1 && Configs(facts, id) <= 1 && Completions(facts, id) <= 1
  }

  predicate AllThree(s: State, facts: seq<Fact>, id: string) {
    Starts(s, facts, id) == 1 && Configs(facts, id) == 1 && Completions(facts, id) == 1
  }

  /** The turn holds exactly the parts that have arrived, until all three have. */
  ghost predicate Joining(s: State, facts: seq<Fact>, id: string, thread: string) {
    var now, done := After(s, facts), AllThree(s, facts, id);
    var t := PartsOf(TurnOf(now, id));
    && EventsFor(Emitted(s, facts), id) == Bit(done)
    && (t.connection.Some? <==> Starts(s, facts, id) == 1 && !done)
    && (t.config <==> Configs(facts, id) == 1 && !done)
    && (t.completed <==> Completions(facts, id) == 1 && !done)
    && (t.connection.Some? ==> t.connection.value in now.connections)
    && (t.thread.Some? ==> t.thread.value == thread)
    && (t.connection.Some? || t.config ==> t.thread.Some? && t.images)
    && HasMetadata(now, thread)
  }

  lemma AgreedPrefix(s: State, facts: seq<Fact>, id: string, thread: string)
    requires facts != [] && Agreed(s, facts, id, thread)
    ensures Agreed(s, facts[..|facts| - 1], id, thread)
    ensures AgreesAt(After(s, facts[..|facts| - 1]), facts[|facts| - 1], id, thread)
  {
    var before := facts[..|facts| - 1];
    forall i | 0 <= i < |before| ensures AgreesAt(After(s, before[..i]), before[i], id, thread) {
      assert before[..i] == facts[..i];
    }
  }

  lemma JoinTurnStep(s: State, facts: seq<Fact>, id: string, thread: string)
    requires facts != [] && facts[|facts| - 1].OfTurn?
    requires Joining(s, facts[..|facts| - 1], id, thread) && AtMostOnce(s, facts, id)
    requires AgreesAt(After(s, facts[..|facts| - 1]), facts[|facts| - 1], id, thread)
    ensures Joining(s, facts, id, thread)
  {
    var n := |facts| - 1;
    var before, f := After(s, facts[..n]), facts[n].turnFact;
    EventsForConcat(Emitted(s, facts[..n]), IngestTurn(before, f).out, id);
    StepRemembers(before, facts[n]);
    TurnFactEffect(before, f, id);
  }

  lemma {:induction false} JoinRun(s: State, facts: seq<Fact>, id: string, thread: string)
    requires id !in s.turns && HasMetadata(s, thread)
    requires Agreed(s, facts, id, thread) && AtMostOnce(s, facts, id)
    ensures Joining(s, facts, id, thread)
  {
    if facts != [] {
      var n := |facts| - 1;
      AgreedPrefix(s, facts, id, thread);
      JoinRun(s, facts[..n], id, thread);
      if facts[n].OfTurn? {
        JoinTurnStep(s, facts, id, thread);
      } else {
        var before := After(s, facts[..n]);
        EventsForConcat(Emitted(s, facts[..n]), Ingest(before, facts[n]).out, id);
        StepRemembers(before, facts[n]);
        OtherFactsKeepTurn(before, facts[n], id);
      }
    }
  }

  /**
   * Whatever else happens in between, one matched start, one resolved config and one completion report
   * the turn exactly once, in any order: nothing before the last of the three, one event from it on.
   */
  lemma TurnReportedOnceAtLast(s: State, facts: seq<Fact>, k: nat, id: string, thread: string)
    requires id !in s.turns && HasMetadata(s, thread) && k <= |facts|
    requires Agreed(s, facts, id, thread) && AllThree(s, facts, id)
    ensures EventsFor(Emitted(s, facts), id) == 1
    ensures EventsFor(Emitted(s, facts[..k]), id) == Bit(AllThree(s, facts[..k], id))
  {
    JoinRun(s, facts, id, thread);
    PrefixAtMostOnce(s, facts, k, id);
    AgreedTake(s, facts, k, id, thread);
    JoinRun(s, facts[..k], id, thread);
  }

  lemma AgreedTake(s: State, facts: seq<Fact>, k: nat, id: string, thread: string)
    requires k <= |facts| && Agreed(s, facts, id, thread)
    ensures Agreed(s, facts[..k], id, thread)
  {
    forall i | 0 <= i < k ensures AgreesAt(After(s, facts[..k][..i]), facts[..k][i], id, thread) {
      assert facts[..k][..i] == facts[..i];
    }
  }

  lemma {:induction false} PrefixAtMostOnce(s: State, facts: seq<Fact>, k: nat, id: string)
    requires k <= |facts| && AtMostOnce(s, facts, id)
    ensures AtMostOnce(s, facts[..k], id)
  {
    if k == |facts| {
      assert facts[..k] == facts;
    } else {
      var n := |facts| - 1;
      PrefixAtMostOnce(s, facts[..n], k, id);
      assert facts[..n][..k] == facts[..k];
    }
  }
}
