/** What the reducer remembers, read off the facts it was given. */
module ReducerHistory {
  import opened Text
  import opened Reducer

  // ----- connections and threads -----

  /** The client last announced on a connection. */
  function Known(facts: seq<Fact>, connection: ConnectionId): Option<Client> {
    if facts == [] then None
    else
      match facts[|facts| - 1]
      case OfThread(Initialize(c, client)) => if c == connection then Some(client) else Known(facts[..|facts| - 1], connection)
      case _ => Known(facts[..|facts| - 1], connection)
  }

  /** The parent a spawned thread names: the stated one before the one its source tells. */
  function Parent(stated: Option<string>, source: Option<string>): Option<string> {
    match (stated, source)
    case (Some(parent), _) => Some(parent)
    case (None, Some(parent)) => Some(parent)
    case (None, None) => None
  }

  /**
   * The connection of a thread: the last announced one it was registered on or, for a thread without
   * one, that of its parent when it was spawned.
   */
  function ConnectionSaid(facts: seq<Fact>, thread: string): Option<ConnectionId> {
    if facts == [] then None
    else
      var past := facts[..|facts| - 1];
      match facts[|facts| - 1]
      case OfThread(ThreadResponse(c, t, _)) => if t == thread && Known(past, c).Some? then Some(c) else ConnectionSaid(past, thread)
      case OfThread(SubAgentThreadStarted(t, stated, source, _)) =>
        if t == thread && ConnectionSaid(past, thread) == None && Parent(stated, source).Some?
        then ConnectionSaid(past, Parent(stated, source).value)
        else ConnectionSaid(past, thread)
      case _ => ConnectionSaid(past, thread)
  }

  /** The metadata of a thread: that of its last registration or, for a thread without any, of its spawning. */
  function MetadataSaid(facts: seq<Fact>, thread: string): Option<Metadata> {
    if facts == [] then None
    else
      var past := facts[..|facts| - 1];
      match facts[|facts| - 1]
      case OfThread(ThreadResponse(c, t, m)) => if t == thread && Known(past, c).Some? then Some(m) else MetadataSaid(past, thread)
      case OfThread(SubAgentThreadStarted(t, _, _, m)) =>
        if t == thread && MetadataSaid(past, thread) == None then Some(m) else MetadataSaid(past, thread)
      case _ => MetadataSaid(past, thread)
  }

  /** The client a thread's events are reported for. */
  function ClientSaid(facts: seq<Fact>, thread: string): Option<Client> {
    match ConnectionSaid(facts, thread)
    case Some(c) => Known(facts, c)
    case None => None
  }

  ghost predicate ConnectionAsSaid(s: State, facts: seq<Fact>, connection: ConnectionId) {
    && (connection in s.connections <==> Known(facts, connection).Some?)
    && (connection in s.connections ==> Known(facts, connection) == Some(s.connections[connection]))
  }

  lemma ConnectionsNext(s: State, f: Fact)
    ensures Ingest(s, f).state.connections
         == match f
            case OfThread(Initialize(c, client)) => s.connections[c := client]
            case _ => s.connections
  {
  }

  lemma {:induction false} ConnectionsAsSaid(facts: seq<Fact>, connection: ConnectionId)
    ensures ConnectionAsSaid(After(FRESH, facts), facts, connection)
  {
    if facts != [] {
      ConnectionsAsSaid(facts[..|facts| - 1], connection);
      ConnectionsNext(After(FRESH, facts[..|facts| - 1]), facts[|facts| - 1]);
    }
  }

  ghost predicate ThreadAsSaid(s: State, facts: seq<Fact>, thread: string) {
    && (thread in s.threads <==> MetadataSaid(facts, thread).Some?)
    && (if thread in s.threads then s.threads[thread] == Thread(ConnectionSaid(facts, thread), MetadataSaid(facts, thread))
        else ConnectionSaid(facts, thread) == None)
  }

  lemma RegisteredAsSaid(facts: seq<Fact>, c: ConnectionId, t: string, m: Metadata, thread: string)
    requires ConnectionAsSaid(After(FRESH, facts), facts, c) && ThreadAsSaid(After(FRESH, facts), facts, thread)
    ensures var next := facts + [OfThread(ThreadResponse(c, t, m))]; ThreadAsSaid(After(FRESH, next), next, thread)
  {
    var next := facts + [OfThread(ThreadResponse(c, t, m))];
    assert next[..|next| - 1] == facts;
  }

  function ConnectionIn(s: State, thread: string): Option<ConnectionId> {
    if thread in s.threads then s.threads[thread].connection else None
  }

  /** The spawned thread keeps what it has and takes from its parent and its spawning what it lacks. */
  lemma SpawnedEntry(s: State, f: ThreadFact)
    requires f.SubAgentThreadStarted?
    ensures var parent := Parent(f.statedParent, f.sourceParent); var own := ConnectionIn(s, f.thread);
            IngestThread(s, f).state.threads
            == s.threads[f.thread := Thread(if own == None && parent.Some? then ConnectionIn(s, parent.value) else own,
                                            if HasMetadata(s, f.thread) then s.threads[f.thread].metadata else Some(f.metadata))]
  {
    assert ParentOf(f.statedParent, f.sourceParent) == Parent(f.statedParent, f.sourceParent);
  }

  lemma SpawnedSaid(facts: seq<Fact>, f: ThreadFact, thread: string)
    requires f.SubAgentThreadStarted?
    ensures var next, parent, own := facts + [OfThread(f)], Parent(f.statedParent, f.sourceParent), ConnectionSaid(facts, thread);
            && ConnectionSaid(next, thread)
               == (if f.thread == thread && own == None && parent.Some? then ConnectionSaid(facts, parent.value) else own)
            && MetadataSaid(next, thread)
               == (if f.thread == thread && MetadataSaid(facts, thread) == None then Some(f.metadata) else MetadataSaid(facts, thread))
            && After(FRESH, next) == IngestThread(After(FRESH, facts), f).state
  {
    var next := facts + [OfThread(f)];
    assert next[..|next| - 1] == facts;
  }

  lemma SpawnedAsSaid(facts: seq<Fact>, f: ThreadFact, thread: string)
    requires f.SubAgentThreadStarted? && ThreadAsSaid(After(FRESH, facts), facts, thread)
    requires Parent(f.statedParent, f.sourceParent).Some? ==> ThreadAsSaid(After(FRESH, facts), facts, Parent(f.statedParent, f.sourceParent).value)
    ensures var next := facts + [OfThread(f)]; ThreadAsSaid(After(FRESH, next), next, thread)
  {
    SpawnedEntry(After(FRESH, facts), f);
    SpawnedSaid(facts, f, thread);
  }

  /** In every run the threads map holds what was said about each thread. */
  lemma {:induction false} ThreadsAsSaid(facts: seq<Fact>, thread: string)
    ensures ThreadAsSaid(After(FRESH, facts), facts, thread)
  {
    if facts != [] {
      var past, now := facts[..|facts| - 1], facts[|facts| - 1];
      assert past + [now] == facts;
      ThreadsAsSaid(past, thread);
      match now {
        case OfThread(ThreadResponse(c, t, m)) =>
          ConnectionsAsSaid(past, c);
          RegisteredAsSaid(past, c, t, m, thread);
        case OfThread(SubAgentThreadStarted(t, stated, source, m)) =>
          if Parent(stated, source).Some? {
            ThreadsAsSaid(past, Parent(stated, source).value);
          }
          SpawnedAsSaid(past, now.threadFact, thread);
        case _ =>
      }
    }
  }

  lemma {:induction false} SaidConnectionsKnown(facts: seq<Fact>, thread: string)
    ensures ConnectionSaid(facts, thread).Some? ==> Known(facts, ConnectionSaid(facts, thread).value).Some?
    ensures ConnectionSaid(facts, thread).Some? ==> MetadataSaid(facts, thread).Some?
  {
    if facts != [] {
      var past, now := facts[..|facts| - 1], facts[|facts| - 1];
      SaidConnectionsKnown(past, thread);
      match now {
        case OfThread(SubAgentThreadStarted(_, stated, source, _)) =>
          if Parent(stated, source).Some? {
            SaidConnectionsKnown(past, Parent(stated, source).value);
          }
        case _ =>
      }
    }
  }

  /** In every run a thread's context is the client and metadata said, and the connection is all that can be missing. */
  lemma ContextAsSaid(facts: seq<Fact>, thread: string)
    ensures var c := ContextOf(After(FRESH, facts), thread);
            match ClientSaid(facts, thread)
            case Some(client) => MetadataSaid(facts, thread).Some? && c == Found(client, MetadataSaid(facts, thread).value)
            case None => c == MissingThreadConnection
  {
    ThreadsAsSaid(facts, thread);
    SaidConnectionsKnown(facts, thread);
    if ConnectionSaid(facts, thread).Some? {
      ConnectionsAsSaid(facts, ConnectionSaid(facts, thread).value);
    }
  }

  /** A thread that could be registered or was spawned is announced; the rest is reported for the thread's own client. */
  function ThreadTold(facts: seq<Fact>, f: ThreadFact): seq<Event> {
    match f
    case Initialize(_, _) => []
    case ThreadResponse(c, thread, _) => if Known(facts, c).Some? then [ThreadInitialized(thread)] else []
    case SubAgentThreadStarted(thread, _, _, _) => [ThreadInitialized(thread)]
    case Compaction(thread) => if ClientSaid(facts, thread).Some? then [CompactionEvent(thread, ClientSaid(facts, thread).value)] else []
    case GuardianReview(thread) => if ClientSaid(facts, thread).Some? then [GuardianEvent(thread, ClientSaid(facts, thread).value)] else []
  }

  /** In every run a thread fact reports just that. */
  lemma ThreadsTold(facts: seq<Fact>, f: ThreadFact)
    ensures IngestThread(After(FRESH, facts), f).out == ThreadTold(facts, f)
  {
    if f.ThreadResponse? {
      ConnectionsAsSaid(facts, f.connection);
    } else if f.Compaction? || f.GuardianReview? {
      ContextAsSaid(facts, f.thread);
    }
  }

  // ----- turn requests -----

  /** The turn request waiting on a connection under an id: the last one made, until any response to it. */
  function Waiting(facts: seq<Fact>, connection: ConnectionId, request: RequestId): Option<PendingRequest> {
    if facts == [] then None
    else
      var past := facts[..|facts| - 1];
      match facts[|facts| - 1]
      case OfTurn(TurnStartRequest(c, r, thread, images)) =>
        if (c, r) == (connection, request) then Some(TurnStart(thread, images)) else Waiting(past, connection, request)
      case OfTurn(TurnSteerRequest(c, r, thread, expectedTurn)) =>
        if (c, r) == (connection, request) then Some(TurnSteer(thread, expectedTurn)) else Waiting(past, connection, request)
      case OfTurn(TurnStartResponse(c, r, _)) => if (c, r) == (connection, request) then None else Waiting(past, connection, request)
      case OfTurn(TurnSteerResponse(c, r, _)) => if (c, r) == (connection, request) then None else Waiting(past, connection, request)
      case OfTurn(ErrorResponse(c, r)) => if (c, r) == (connection, request) then None else Waiting(past, connection, request)
      case _ => Waiting(past, connection, request)
  }

  /** The request a turn fact makes, and the one it settles. */
  lemma RequestsNext(s: State, f: TurnFact)
    ensures IngestTurn(s, f).state.requests
         == match f
            case TurnStartRequest(c, r, thread, images) => s.requests[(c, r) := TurnStart(thread, images)]
            case TurnSteerRequest(c, r, thread, expectedTurn) => s.requests[(c, r) := TurnSteer(thread, expectedTurn)]
            case TurnStartResponse(c, r, _) => s.requests - {(c, r)}
            case TurnSteerResponse(c, r, _) => s.requests - {(c, r)}
            case ErrorResponse(c, r) => s.requests - {(c, r)}
            case _ => s.requests
  {
    if f.TurnStartResponse? || f.TurnSteerResponse? || f.ErrorResponse? {
      assert (f.connection, f.request) !in s.requests ==> s.requests - {(f.connection, f.request)} == s.requests;
    }
  }

  /** In every run the pending requests are those made and not yet responded to. */
  lemma {:induction false} RequestsAsSaid(facts: seq<Fact>, connection: ConnectionId, request: RequestId)
    ensures var s, key := After(FRESH, facts), (connection, request);
            && (key in s.requests <==> Waiting(facts, connection, request).Some?)
            && (key in s.requests ==> Waiting(facts, connection, request) == Some(s.requests[key]))
  {
    if facts != [] {
      var past, now := facts[..|facts| - 1], facts[|facts| - 1];
      RequestsAsSaid(past, connection, request);
      if now.OfTurn? {
        RequestsNext(After(FRESH, past), now.turnFact);
      }
    }
  }
}
