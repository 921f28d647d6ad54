/** The reducer as the object it is: seven maps updated in place, one fact at a time. */
module ReducerObject {
  import opened Text
  import opened Reducer
  import opened ReducerThreads
  import opened ReducerTurns
  import ReducerSources
  import opened ReducerReviews

  /** What holds after any run of a fresh reducer. */
  ghost predicate RunHolds(facts: seq<Fact>, s: State, out: seq<Event>) {
    && (forall thread :: ContextOf(s, thread).Found? || ContextOf(s, thread).MissingThreadConnection?)
    && (forall id :: EventsFor(out, id) <= Starts(FRESH, facts, id) && EventsFor(out, id) <= Configs(facts, id)
                     && EventsFor(out, id) <= Completions(facts, id))
    && (forall id :: id in s.turns <==> ReducerSources.Said(facts, id) != [])
    && (forall id :: TurnOf(s, id) == ReducerSources.Described(ReducerSources.Said(facts, id)))
    && (forall key :: SummaryAt(s, key) == SummaryOf(Verdicts(facts, key)))
  }

  lemma RunHoldsAlways(facts: seq<Fact>)
    ensures RunHolds(facts, After(FRESH, facts), Emitted(FRESH, facts))
  {
    var s, out := After(FRESH, facts), Emitted(FRESH, facts);
    forall thread ensures ContextOf(s, thread).Found? || ContextOf(s, thread).MissingThreadConnection? {
      ContextNeverDangles(facts, thread);
    }
    forall id
      ensures EventsFor(out, id) <= Starts(FRESH, facts, id) && EventsFor(out, id) <= Configs(facts, id)
              && EventsFor(out, id) <= Completions(facts, id)
    {
      TurnEventsBounded(facts, id);
    }
    forall id
      ensures (id in s.turns <==> ReducerSources.Said(facts, id) != []) && TurnOf(s, id) == ReducerSources.Described(ReducerSources.Said(facts, id))
    {
      ReducerSources.TurnsAsSaid(facts, id);
    }
    forall key ensures SummaryAt(s, key) == SummaryOf(Verdicts(facts, key)) {
      SummaryDescribesReviews(facts, key);
    }
  }

  class AnalyticsReducer {
    var requests: map<(ConnectionId, RequestId), PendingRequest>
    var turns: map<string, Turn>
    var connections: map<ConnectionId, Client>
    var threads: map<string, Thread>
    var toolItemsStartedAt: map<ItemKey, nat>
    var pendingReviews: map<RequestId, Review>
    var itemReviewSummaries: map<ItemKey, Summary>

    ghost function View(): State
      reads this
    {
      State(requests, turns, connections, threads, toolItemsStartedAt, pendingReviews, itemReviewSummaries)
    }

    constructor ()
      ensures View() == FRESH
    {
      requests, turns, connections, threads := map[], map[], map[], map[];
      toolItemsStartedAt, pendingReviews, itemReviewSummaries := map[], map[], map[];
    }

    method ThreadContext(thread: string) returns (c: Context)
      ensures c == ContextOf(View(), thread)
    {
      if thread !in threads {
        return MissingThreadConnection;
      }
      var state := threads[thread];
      match state.connection {
        case None => return MissingThreadConnection;
        case Some(id) =>
          if id !in connections {
            return MissingConnection(id);
          }
          if state.metadata == None {
            return MissingMetadata;
          }
          return Found(connections[id], state.metadata.value);
      }
    }

    method IngestSubagentThreadStarted(thread: string, stated: Option<string>, source: Option<string>, metadata: Metadata)
      returns (out: seq<Event>)
      modifies this`threads
      ensures Step(View(), out) == StartSubAgent(old(View()), thread, ParentOf(stated, source), metadata)
    {
      var parent := if stated.Some? then stated else source;
      var parentConnection := None;
      if parent.Some? && parent.value in threads {
        parentConnection := threads[parent.value].connection;
      }
      var state := if thread in threads then threads[thread] else Thread(None, None);
      if state.metadata == None {
        state := state.(metadata := Some(metadata));
      }
      if state.connection == None {
        state := state.(connection := parentConnection);
      }
      threads := threads[thread := state];
      out := [ThreadInitialized(thread)];
    }

    method IngestThreadFact(f: ThreadFact) returns (out: seq<Event>)
      modifies this`threads, this`connections
      ensures Step(View(), out) == IngestThread(old(View()), f)
    {
      out := [];
      match f {
        case Initialize(connection, client) =>
          connections := connections[connection := client];
        case ThreadResponse(connection, thread, metadata) =>
          if connection in connections {
            threads := threads[thread := Thread(Some(connection), Some(metadata))];
            out := [ThreadInitialized(thread)];
          }
        case SubAgentThreadStarted(thread, stated, source, metadata) =>
          out := IngestSubagentThreadStarted(thread, stated, source, metadata);
        case Compaction(thread) =>
          var c := ThreadContext(thread);
          if c.Found? {
            out := [CompactionEvent(thread, c.client)];
          }
        case GuardianReview(thread) =>
          var c := ThreadContext(thread);
          if c.Found? {
            out := [GuardianEvent(thread, c.client)];
          }
      }
    }

    method MaybeEmitTurnEvent(id: string) returns (out: seq<Event>)
      modifies this`turns
      ensures Step(View(), out) == MaybeEmit(old(View()), id)
    {
      if id !in turns {
        return [];
      }
      var t := turns[id];
      if t.thread == None || t.images == None || t.config == None || t.completed == None || t.connection == None {
        return [];
      }
      if t.connection.value !in connections {
        return [];
      }
      if t.thread.value !in threads || threads[t.thread.value].metadata == None {
        return [];
      }
      out := [TurnEvent(id, t.thread.value, connections[t.connection.value], t)];
      turns := turns - {id};
    }

    method TakeRequest(connection: ConnectionId, request: RequestId) returns (pending: Option<PendingRequest>)
      modifies this`requests
      ensures var key := (connection, request);
              && requests == old(requests) - {key}
              && pending == if key in old(requests) then Some(old(requests)[key]) else None
    {
      var key := (connection, request);
      pending := if key in requests then Some(requests[key]) else None;
      requests := requests - {key};
    }

    method IngestTurnStartResponse(connection: ConnectionId, request: RequestId, id: string) returns (out: seq<Event>)
      modifies this`requests, this`turns
      ensures Step(View(), out) == StartTurn(old(View()), connection, request, id)
    {
      var pending := TakeRequest(connection, request);
      if pending.Some? && pending.value.TurnStart? {
        var t := if id in turns then turns[id] else EMPTY_TURN;
        t := t.(connection := Some(connection), thread := Some(pending.value.thread), images := Some(pending.value.images));
        turns := turns[id := t];
        out := MaybeEmitTurnEvent(id);
      } else {
        out := [];
        assert pending == None ==> requests == old(requests);
      }
    }

    method EmitTurnSteerEvent(connection: ConnectionId, thread: string, accepted: Option<string>) returns (out: seq<Event>)
      ensures out == SteerEvents(View(), connection, thread, accepted)
    {
      out := [];
      if connection in connections && thread in threads && threads[thread].metadata.Some? {
        out := [TurnSteerEvent(thread, connections[connection], accepted)];
      }
    }

    method IngestTurnSteerResponse(connection: ConnectionId, request: RequestId, id: string) returns (out: seq<Event>)
      modifies this`requests, this`turns
      ensures Step(View(), out) == SteerTurn(old(View()), connection, request, id)
    {
      var pending := TakeRequest(connection, request);
      out := [];
      if pending.Some? && pending.value.TurnSteer? {
        if id in turns {
          turns := turns[id := turns[id].(steers := turns[id].steers + 1)];
        }
        out := EmitTurnSteerEvent(connection, pending.value.thread, Some(id));
      } else {
        assert pending == None ==> requests == old(requests);
      }
    }

    method IngestErrorResponse(connection: ConnectionId, request: RequestId) returns (out: seq<Event>)
      modifies this`requests
      ensures Step(View(), out) == FailRequest(old(View()), connection, request)
    {
      var pending := TakeRequest(connection, request);
      out := [];
      if pending.Some? && pending.value.TurnSteer? {
        out := EmitTurnSteerEvent(connection, pending.value.thread, None);
      } else {
        assert pending == None ==> requests == old(requests);
      }
    }

    method IngestTurnFact(f: TurnFact) returns (out: seq<Event>)
      modifies this`requests, this`turns
      ensures Step(View(), out) == IngestTurn(old(View()), f)
    {
      out := [];
      match f {
        case TurnStartRequest(connection, request, thread, images) =>
          requests := requests[(connection, request) := TurnStart(thread, images)];
        case TurnSteerRequest(connection, request, thread, expectedTurn) =>
          requests := requests[(connection, request) := TurnSteer(thread, expectedTurn)];
        case TurnStartResponse(connection, request, id) =>
          out := IngestTurnStartResponse(connection, request, id);
        case TurnSteerResponse(connection, request, id) =>
          out := IngestTurnSteerResponse(connection, request, id);
        case ErrorResponse(connection, request) =>
          out := IngestErrorResponse(connection, request);
        case TurnStarted(id, at) =>
          var t := if id in turns then turns[id] else EMPTY_TURN;
          turns := turns[id := t.(startedAt := Unsigned(at))];
        case TurnDiffUpdated(id, thread, diff) =>
          var t := if id in turns then turns[id] else EMPTY_TURN;
          turns := turns[id := t.(thread := Some(thread), diff := Some(diff))];
        case TurnCompleted(id, at) =>
          var t := if id in turns then turns[id] else EMPTY_TURN;
          var completedAt := match Unsigned(at) case Some(v) => v case None => 0;
          turns := turns[id := t.(completed := Some(completedAt))];
          out := MaybeEmitTurnEvent(id);
        case TurnResolvedConfig(id, thread, images, config) =>
          var t := if id in turns then turns[id] else EMPTY_TURN;
          turns := turns[id := t.(thread := Some(thread), images := Some(images), config := Some(config))];
          out := MaybeEmitTurnEvent(id);
        case TurnTokenUsage(id, thread, tokens) =>
          var t := if id in turns then turns[id] else EMPTY_TURN;
          turns := turns[id := t.(thread := Some(thread), tokens := Some(tokens))];
          out := MaybeEmitTurnEvent(id);
      }
    }

    method RecordItemReviewSummary(key: ItemKey, f: Finished)
      modifies this`itemReviewSummaries
      ensures itemReviewSummaries == old(itemReviewSummaries)[key := AddReview(SummaryAt(old(View()), key), f)]
    {
      var summary := if key in itemReviewSummaries then itemReviewSummaries[key] else NO_REVIEWS;
      summary := summary.(reviews := summary.reviews + 1);
      match f.reviewer {
        case Guardian => summary := summary.(guardian := summary.guardian + 1);
        case User => summary := summary.(user := summary.user + 1);
      }
      summary := summary.(outcome := Some(OutcomeOf(f)),
                          additionalPermissions := summary.additionalPermissions || f.additionalPermissions,
                          networkAccess := summary.networkAccess || f.networkAccess);
      itemReviewSummaries := itemReviewSummaries[key := summary];
    }

    method EmitReviewEvent(r: Review, f: Finished, completedAt: nat) returns (out: seq<Event>)
      modifies this`itemReviewSummaries
      ensures Step(View(), out) == EmitReview(old(View()), r, f, completedAt)
    {
      var key := SummaryKey(r);
      if key.Some? {
        RecordItemReviewSummary(key.value, f);
      }
      out := [];
      var c := ThreadContext(r.thread);
      if c.Found? {
        out := [ReviewEvent(r, f, c.client, completedAt)];
      }
    }

    method IngestReviewFact(f: ReviewFact) returns (out: seq<Event>)
      modifies this`pendingReviews, this`itemReviewSummaries
      ensures Step(View(), out) == IngestReview(old(View()), f)
    {
      out := [];
      if f.CommandApprovalRequested? || f.FileApprovalRequested? || f.PermissionsRequested? {
        var pending := Opened(f);
        if pending.Some? {
          pendingReviews := pendingReviews[f.request := pending.value];
        }
      } else if f.GuardianCompleted? {
        var result := GuardianResult(f.verdict);
        if result.Some? && f.startedAt >= 0 && f.finishedAt >= 0 {
          var r := Review(f.thread, f.turn, f.target, GuardianSubject(f.action), f.startedAt,
                          GuardianAdditional(f.action), GuardianNetwork(f.action));
          out := EmitReviewEvent(r, FinishedBy(r, Guardian, result.value), f.finishedAt);
        }
      } else if f.request in pendingReviews {
        var r := pendingReviews[f.request];
        pendingReviews := pendingReviews - {f.request};
        out := EmitReviewEvent(r, FinishedBy(r, User, UserResult(f)), f.completedAt);
      }
    }

    method IngestItemCompleted(thread: string, turn: string, item: Item, at: int) returns (out: seq<Event>)
      modifies this`turns, this`toolItemsStartedAt, this`itemReviewSummaries
      ensures Step(View(), out) == CompleteItem(old(View()), thread, turn, item, at)
    {
      out := [];
      if item.kind.Untracked? || turn !in turns {
        return;
      }
      turns := turns[turn := turns[turn].(tools := turns[turn].tools + 1)];
      var key := ItemKey(thread, turn, item.id);
      if key !in toolItemsStartedAt {
        return;
      }
      var startedAt := toolItemsStartedAt[key];
      toolItemsStartedAt := toolItemsStartedAt - {key};
      if at < 0 {
        return;
      }
      var c := ThreadContext(thread);
      if !c.Found? {
        return;
      }
      if HasTerminalOutcome(item) {
        var summary := if key in itemReviewSummaries then itemReviewSummaries[key] else NO_REVIEWS;
        out := [ToolEvent(key, item.kind, c.client, startedAt, at, summary)];
      }
      itemReviewSummaries := itemReviewSummaries - {key};
    }

    /** `ingest`: one fact, all seven maps. */
    method IngestFact(f: Fact) returns (out: seq<Event>)
      modifies this
      ensures Step(View(), out) == Ingest(old(View()), f)
    {
      match f {
        case OfThread(t) => out := IngestThreadFact(t);
        case OfTurn(t) => out := IngestTurnFact(t);
        case OfReview(r) => out := IngestReviewFact(r);
        case OfItem(ItemCompleted(thread, turn, item, at)) => out := IngestItemCompleted(thread, turn, item, at);
        case OfItem(ItemStarted(thread, turn, item, at)) =>
          out := [];
          if !item.kind.Untracked? && at >= 0 {
            toolItemsStartedAt := toolItemsStartedAt[ItemKey(thread, turn, item.id) := at];
          }
      }
    }

    /** A whole run: what was emitted, and the state reached, are those of the fold and obey its laws. */
    method IngestAll(facts: seq<Fact>) returns (out: seq<Event>)
      modifies this
      ensures View() == After(old(View()), facts)
      ensures out == Emitted(old(View()), facts)
      ensures old(View()) == FRESH ==> RunHolds(facts, View(), out)
    {
      out := [];
      var i := 0;
      while i < |facts|
        invariant 0 <= i <= |facts|
        invariant View() == After(old(View()), facts[..i])
        invariant out == Emitted(old(View()), facts[..i])
      {
        var emitted := IngestFact(facts[i]);
        out := out + emitted;
        assert facts[..i + 1][..i] == facts[..i];
        i := i + 1;
      }
      assert facts[..i] == facts;
      RunHoldsAlways(facts);
    }
  }
}
