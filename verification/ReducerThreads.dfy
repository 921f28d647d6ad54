/** What every reachable reducer state knows about its threads. */
module ReducerThreads {
  import opened Text
  import opened Reducer

  ghost predicate ThreadsConnected(s: State) {
    forall t :: t in s.threads ==>
      && s.threads[t].metadata.Some?
      && (s.threads[t].connection.Some? ==> s.threads[t].connection.value in s.connections)
  }

  /** `later` knows at least the threads, connections and metadata `earlier` knew. */
  ghost predicate Remembers(earlier: State, later: State) {
    && (forall c :: c in earlier.connections ==> c in later.connections)
    && (forall t :: t in earlier.threads ==>
          && t in later.threads
          && (earlier.threads[t].connection.Some? ==> later.threads[t].connection.Some?)
          && (earlier.threads[t].metadata.Some? ==> later.threads[t].metadata.Some?))
  }

  lemma OtherFactsKeepThreads(s: State, f: Fact)
    requires !f.OfThread?
    ensures var s' := Ingest(s, f).state; s'.threads == s.threads && s'.connections == s.connections
  {
  }

  lemma ThreadFactRemembers(s: State, f: ThreadFact)
    ensures Remembers(s, IngestThread(s, f).state)
    ensures ThreadsConnected(s) ==> ThreadsConnected(IngestThread(s, f).state)
  {
  }

  lemma StepRemembers(s: State, f: Fact)
    ensures Remembers(s, Ingest(s, f).state)
    ensures ThreadsConnected(s) ==> ThreadsConnected(Ingest(s, f).state)
  {
    if f.OfThread? {
      ThreadFactRemembers(s, f.threadFact);
    } else {
      OtherFactsKeepThreads(s, f);
      SameThreadsRemember(s, Ingest(s, f).state);
    }
  }

  lemma SameThreadsRemember(s: State, s': State)
    requires s'.threads == s.threads && s'.connections == s.connections
    ensures Remembers(s, s') && (ThreadsConnected(s) ==> ThreadsConnected(s'))
  {
  }

  lemma {:induction false} RunRemembers(s: State, facts: seq<Fact>, k: nat)
    requires k <= |facts|
    ensures Remembers(After(s, facts[..k]), After(s, facts))
  {
    if k == |facts| {
      assert facts[..k] == facts;
    } else {
      var n := |facts| - 1;
      RunRemembers(s, facts[..n], k);
      assert facts[..n][..k] == facts[..k];
      StepRemembers(After(s, facts[..n]), facts[n]);
      RemembersTransitive(After(s, facts[..k]), After(s, facts[..n]), After(s, facts));
    }
  }

  lemma RemembersTransitive(a: State, b: State, c: State)
    requires Remembers(a, b) && Remembers(b, c)
    ensures Remembers(a, c)
  {
  }

  lemma {:induction false} RunConnected(s: State, facts: seq<Fact>)
    requires ThreadsConnected(s)
    ensures ThreadsConnected(After(s, facts))
  {
    if facts != [] {
      var n := |facts| - 1;
      RunConnected(s, facts[..n]);
      StepRemembers(After(s, facts[..n]), facts[n]);
    }
  }

  /** In every reachable state the missing-connection and missing-metadata branches are dead. */
  lemma ContextNeverDangles(facts: seq<Fact>, thread: string)
    ensures var c := ContextOf(After(FRESH, facts), thread); c.Found? || c.MissingThreadConnection?
  {
    RunConnected(FRESH, facts);
  }

  /** Once a thread's context is found it is found for ever after. */
  lemma ContextStaysFound(facts: seq<Fact>, k: nat, thread: string)
    requires k <= |facts| && ContextOf(After(FRESH, facts[..k]), thread).Found?
    ensures ContextOf(After(FRESH, facts), thread).Found?
  {
    RunRemembers(FRESH, facts, k);
    RunConnected(FRESH, facts);
    FoundFollows(After(FRESH, facts[..k]), After(FRESH, facts), thread);
  }

  lemma FoundFollows(earlier: State, later: State, thread: string)
    requires Remembers(earlier, later) && ThreadsConnected(later) && ContextOf(earlier, thread).Found?
    ensures ContextOf(later, thread).Found?
  {
  }

  // ----- where a thread's connection comes from -----

  ghost predicate Registered(facts: seq<Fact>, thread: string, c: ConnectionId) {
    exists k, m :: 0 <= k < |facts| && facts[k] == OfThread(ThreadResponse(c, thread, m))
  }

  predicate IsSpawn(f: Fact, child: string, parent: string) {
    && f.OfThread? && f.threadFact.SubAgentThreadStarted?
    && f.threadFact.thread == child
    && ParentOf(f.threadFact.statedParent, f.threadFact.sourceParent) == Some(parent)
  }

  ghost predicate Spawned(facts: seq<Fact>, child: string, parent: string) {
    exists k :: 0 <= k < |facts| && IsSpawn(facts[k], child, parent)
  }

  /** A line of subagents from `chain[0]` up to a thread registered on connection `c`. */
  ghost predicate Lineage(facts: seq<Fact>, chain: seq<string>, c: ConnectionId) {
    && chain != []
    && (forall i :: 0 <= i < |chain| - 1 ==> Spawned(facts, chain[i], chain[i + 1]))
    && Registered(facts, chain[|chain| - 1], c)
  }

  lemma LineageGrows(facts: seq<Fact>, chain: seq<string>, c: ConnectionId)
    requires facts != [] && Lineage(facts[..|facts| - 1], chain, c)
    ensures Lineage(facts, chain, c)
  {
    var before := facts[..|facts| - 1];
    forall i | 0 <= i < |chain| - 1 ensures Spawned(facts, chain[i], chain[i + 1]) {
      var k :| 0 <= k < |before| && IsSpawn(before[k], chain[i], chain[i + 1]);
      assert facts[k] == before[k];
    }
    var k, m :| 0 <= k < |before| && before[k] == OfThread(ThreadResponse(c, chain[|chain| - 1], m));
    assert facts[k] == before[k];
  }

  /** Where a thread's connection can have come from in one step. */
  ghost predicate ConnectionFrom(s: State, f: Fact, thread: string, c: Option<ConnectionId>) {
    || (thread in s.threads && s.threads[thread].connection == c)
    || (c.Some? && exists m :: f == OfThread(ThreadResponse(c.value, thread, m)))
    || (exists p :: IsSpawn(f, thread, p) && p in s.threads && s.threads[p].connection == c)
  }

  lemma ResponseSource(s: State, f: ThreadFact, thread: string)
    requires f.ThreadResponse? && thread in IngestThread(s, f).state.threads
    ensures ConnectionFrom(s, OfThread(f), thread, IngestThread(s, f).state.threads[thread].connection)
  {
    assert OfThread(f) == OfThread(ThreadResponse(f.connection, f.thread, f.metadata));
  }

  lemma SpawnSource(s: State, f: ThreadFact, thread: string)
    requires f.SubAgentThreadStarted? && thread in IngestThread(s, f).state.threads
    requires IngestThread(s, f).state.threads[thread].connection.Some?
    ensures ConnectionFrom(s, OfThread(f), thread, IngestThread(s, f).state.threads[thread].connection)
  {
    var parent := ParentOf(f.statedParent, f.sourceParent);
    if f.thread == thread && parent.Some? {
      assert IsSpawn(OfThread(f), thread, parent.value);
    }
  }

  lemma ConnectionSource(s: State, f: Fact, thread: string)
    requires var s' := Ingest(s, f).state; thread in s'.threads && s'.threads[thread].connection.Some?
    ensures ConnectionFrom(s, f, thread, Ingest(s, f).state.threads[thread].connection)
  {
    if !f.OfThread? {
      OtherFactsKeepThreads(s, f);
    } else if f.threadFact.ThreadResponse? {
      ResponseSource(s, f.threadFact, thread);
    } else if f.threadFact.SubAgentThreadStarted? {
      SpawnSource(s, f.threadFact, thread);
    }
  }

  /**
   * Every connection stored on a thread is an initialized connection on which the thread itself, or
   * an ancestor reached through spawned subagents, was registered.
   */
  lemma {:induction false} ConnectionProvenance(facts: seq<Fact>, thread: string) returns (chain: seq<string>)
    requires thread in After(FRESH, facts).threads && After(FRESH, facts).threads[thread].connection.Some?
    ensures chain != [] && chain[0] == thread
    ensures Lineage(facts, chain, After(FRESH, facts).threads[thread].connection.value)
    ensures After(FRESH, facts).threads[thread].connection.value in After(FRESH, facts).connections
    decreases |facts|
  {
    RunConnected(FRESH, facts);
    var c := After(FRESH, facts).threads[thread].connection.value;
    var n := |facts| - 1;
    var s, f := After(FRESH, facts[..n]), facts[n];
    ConnectionSource(s, f, thread);
    if thread in s.threads && s.threads[thread].connection == Some(c) {
      chain := ConnectionProvenance(facts[..n], thread);
      LineageGrows(facts, chain, c);
    } else if m :| f == OfThread(ThreadResponse(c, thread, m)) {
      chain := [thread];
      assert facts[n] == OfThread(ThreadResponse(c, thread, m));
    } else {
      var parent :| IsSpawn(f, thread, parent) && parent in s.threads && s.threads[parent].connection == Some(c);
      var rest := ConnectionProvenance(facts[..n], parent);
      LineageGrows(facts, rest, c);
      chain := [thread] + rest;
      LineageCons(facts, thread, rest, c);
    }
  }

  lemma LineageCons(facts: seq<Fact>, thread: string, rest: seq<string>, c: ConnectionId)
    requires facts != [] && Lineage(facts, rest, c) && IsSpawn(facts[|facts| - 1], thread, rest[0])
    ensures Lineage(facts, [thread] + rest, c)
  {
    var chain := [thread] + rest;
    forall i | 0 <= i < |chain| - 1 ensures Spawned(facts, chain[i], chain[i + 1]) {
      if i > 0 {
        assert Spawned(facts, rest[i - 1], rest[i - 1 + 1]);
      }
    }
  }
}
