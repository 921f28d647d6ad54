/** The analytics queue: dedupe gates in front of it, request batches behind it. */
module AnalyticsQueue {
  import opened Text

  const DEDUPE_MAX_KEYS: nat := 4096

  datatype Key = Key(turn: string, id: string)

  // ----- one dedupe gate -----

  function Cleared(emitted: set<Key>): set<Key> {
    if |emitted| >= DEDUPE_MAX_KEYS then {} else emitted
  }

  /** A call without a key passes and leaves the gate alone. */
  function Remember(emitted: set<Key>, call: Option<Key>): set<Key> {
    match call case Some(key) => Cleared(emitted) + {key} case None => emitted
  }

  predicate Admits(emitted: set<Key>, call: Option<Key>) {
    call.Some? ==> call.value !in Cleared(emitted)
  }

  // ----- runs -----

  function EmittedAfter(calls: seq<Option<Key>>): set<Key> {
    if calls == [] then {} else Remember(EmittedAfter(calls[..|calls| - 1]), calls[|calls| - 1])
  }

  function Keyed(calls: seq<Option<Key>>): nat {
    if calls == [] then 0 else Keyed(calls[..|calls| - 1]) + if calls[|calls| - 1].Some? then 1 else 0
  }

  /** How often one key got through. */
  function Admissions(calls: seq<Option<Key>>, key: Key): nat {
    if calls == [] then 0
    else
      var n := |calls| - 1;
      Admissions(calls[..n], key) + if calls[n] == Some(key) && Admits(EmittedAfter(calls[..n]), calls[n]) then 1 else 0
  }

  /** How often the gate was wiped. */
  function Clears(calls: seq<Option<Key>>): nat {
    if calls == [] then 0
    else
      var n := |calls| - 1;
      Clears(calls[..n]) + if calls[n].Some? && |EmittedAfter(calls[..n])| >= DEDUPE_MAX_KEYS then 1 else 0
  }

  lemma RememberSize(emitted: set<Key>, key: Key)
    ensures |Remember(emitted, Some(key))| <= |Cleared(emitted)| + 1
    ensures 1 <= |Remember(emitted, Some(key))|
  {
    var after := Cleared(emitted) + {key};
    if key in Cleared(emitted) {
      assert after == Cleared(emitted);
    }
    assert key in after;
  }

  /** Every wipe had to be paid for with a full set of keyed calls. */
  lemma {:induction false} ClearsArePaidFor(calls: seq<Option<Key>>)
    ensures |EmittedAfter(calls)| <= DEDUPE_MAX_KEYS
    ensures DEDUPE_MAX_KEYS * Clears(calls) + |EmittedAfter(calls)| <= Keyed(calls)
    ensures Keyed(calls) > 0 ==> |EmittedAfter(calls)| >= 1
  {
    if calls != [] {
      var n := |calls| - 1;
      ClearsArePaidFor(calls[..n]);
      if calls[n].Some? {
        RememberSize(EmittedAfter(calls[..n]), calls[n].value);
      }
    }
  }

  /** Between wipes a key passes once. */
  lemma {:induction false} AdmissionsFollowClears(calls: seq<Option<Key>>, key: Key)
    ensures Admissions(calls, key) <= Clears(calls) + if key in EmittedAfter(calls) then 1 else 0
  {
    if calls != [] {
      AdmissionsFollowClears(calls[..|calls| - 1], key);
    }
  }

  /** Over any calls, of which `n` carry a key, one key is admitted at most `1 + (n - 1) / 4096` times, and never if `n` is zero. */
  lemma AdmissionsBounded(calls: seq<Option<Key>>, key: Key)
    ensures var n := Keyed(calls); Admissions(calls, key) <= if n == 0 then 0 else 1 + (n - 1) / DEDUPE_MAX_KEYS
    ensures |EmittedAfter(calls)| <= DEDUPE_MAX_KEYS
  {
    ClearsArePaidFor(calls);
    AdmissionsFollowClears(calls, key);
  }

  /** Until the gate is wiped again, a key that has passed is refused. */
  lemma {:induction false} RepeatRefusedUntilFull(calls: seq<Option<Key>>, more: seq<Option<Key>>, key: Key)
    requires Clears(calls + [Some(key)] + more) == Clears(calls + [Some(key)])
    ensures key in EmittedAfter(calls + [Some(key)] + more)
    ensures |EmittedAfter(calls + [Some(key)] + more)| < DEDUPE_MAX_KEYS ==>
      !Admits(EmittedAfter(calls + [Some(key)] + more), Some(key))
  {
    var start := calls + [Some(key)];
    if more == [] {
      assert start + more == start;
      assert start[..|calls|] == calls;
    } else {
      var n := |more| - 1;
      assert (start + more)[..|start| + n] == start + more[..n];
      ClearsGrow(start, more[..n]);
      RepeatRefusedUntilFull(calls, more[..n], key);
    }
  }

  lemma {:induction false} ClearsGrow(start: seq<Option<Key>>, more: seq<Option<Key>>)
    ensures Clears(start) <= Clears(start + more)
  {
    if more == [] {
      assert start + more == start;
    } else {
      var n := |more| - 1;
      assert (start + more)[..|start| + n] == start + more[..n];
      ClearsGrow(start, more[..n]);
    }
  }

  // ----- what passes, read off the calls -----

  function KeysIn(calls: seq<Option<Key>>): set<Key> {
    set i | 0 <= i < |calls| && calls[i].Some? :: calls[i].value
  }

  /** The call the gate remembers from: the last keyed one that found as many keys as fit since the one before it. */
  function Window(calls: seq<Option<Key>>): (start: nat)
    ensures start <= |calls|
  {
    if calls == [] then 0
    else
      var n := |calls| - 1;
      var start := Window(calls[..n]);
      if calls[n].Some? && |KeysIn(calls[start..n])| >= 4096 then n else start
  }

  lemma KeysInSnoc(calls: seq<Option<Key>>, call: Option<Key>)
    ensures KeysIn(calls + [call]) == KeysIn(calls) + match call case Some(key) => {key} case None => {}
  {
    var more := calls + [call];
    assert forall i :: 0 <= i < |calls| ==> more[i] == calls[i];
    assert more[|calls|] == call;
    forall key | key in KeysIn(calls) ensures key in KeysIn(more) {
      var i :| 0 <= i < |calls| && calls[i].Some? && calls[i].value == key;
      assert more[i].value == key;
    }
    if call.Some? {
      assert more[|calls|].value == call.value;
    }
  }

  lemma KeysInOne(key: Key)
    ensures KeysIn([Some(key)]) == {key}
  {
    KeysInSnoc([], Some(key));
    assert [] + [Some(key)] == [Some(key)];
  }

  lemma WindowGrows(window: seq<Option<Key>>, call: Option<Key>)
    requires call.Some? ==> |KeysIn(window)| < DEDUPE_MAX_KEYS
    ensures KeysIn(window + [call]) == Remember(KeysIn(window), call)
  {
    KeysInSnoc(window, call);
  }

  lemma WindowMoves(window: seq<Option<Key>>, key: Key)
    requires |KeysIn(window)| >= DEDUPE_MAX_KEYS
    ensures KeysIn([Some(key)]) == Remember(KeysIn(window), Some(key))
  {
    KeysInOne(key);
  }

  lemma {:induction false} GateRemembers(calls: seq<Option<Key>>)
    ensures EmittedAfter(calls) == KeysIn(calls[Window(calls)..])
  {
    if calls != [] {
      var n := |calls| - 1;
      var start := Window(calls[..n]);
      var window := calls[start..n];
      GateRemembers(calls[..n]);
      assert calls[..n][start..] == window;
      if calls[n].Some? && |KeysIn(window)| >= DEDUPE_MAX_KEYS {
        assert calls[n..] == [calls[n]];
        WindowMoves(window, calls[n].value);
      } else {
        assert calls[start..] == window + [calls[n]];
        WindowGrows(window, calls[n]);
      }
    }
  }

  /** A call passes exactly when it has no key, or the gate is full, or the key is not among those remembered. */
  lemma PassesExactly(calls: seq<Option<Key>>, call: Option<Key>)
    ensures var window := calls[Window(calls)..];
            Admits(EmittedAfter(calls), call) <==> call == None || |KeysIn(window)| >= 4096 || call !in window
  {
    GateRemembers(calls);
  }

  // ----- the bound is attained -----

  function Pad(i: nat): string {
    if i == 0 then [] else Pad(i - 1) + "x"
  }

  lemma {:induction false} PadLength(i: nat)
    ensures |Pad(i)| == i
  {
    if i > 0 {
      PadLength(i - 1);
    }
  }

  /** The `i`-th of arbitrarily many different keys. */
  function NthKey(i: nat): Key {
    Key("turn", Pad(i))
  }

  function FirstKeys(i: nat): set<Key> {
    if i == 0 then {} else FirstKeys(i - 1) + {NthKey(i - 1)}
  }

  lemma {:induction false} FirstKeysDistinct(i: nat, j: nat)
    requires i <= j
    ensures |FirstKeys(i)| == i && NthKey(j) !in FirstKeys(i)
  {
    if i > 0 {
      FirstKeysDistinct(i - 1, j);
      FirstKeysDistinct(i - 1, i - 1);
      PadLength(j);
      PadLength(i - 1);
    }
  }

  function Round(i: nat): seq<Option<Key>> {
    if i == 0 then [] else Round(i - 1) + [Some(NthKey(i - 1))]
  }

  /** On an empty or full gate, a round of different keys admits the first one once. */
  lemma {:induction false} RoundEffect(calls: seq<Option<Key>>, i: nat)
    requires 1 <= i <= DEDUPE_MAX_KEYS && Cleared(EmittedAfter(calls)) == {}
    ensures EmittedAfter(calls + Round(i)) == FirstKeys(i)
    ensures Admissions(calls + Round(i), NthKey(0)) == Admissions(calls, NthKey(0)) + 1
    ensures Keyed(calls + Round(i)) == Keyed(calls) + i
  {
    var before, call := calls + Round(i - 1), Some(NthKey(i - 1));
    assert calls + Round(i) == before + [call];
    CallAdded(before, call, NthKey(0));
    if i == 1 {
      assert before == calls;
      assert FirstKeys(1) == {} + {NthKey(0)};
    } else {
      RoundEffect(calls, i - 1);
      FirstKeysDistinct(i - 1, i - 1);
      KeysDiffer(i - 1);
    }
  }

  lemma KeysDiffer(i: nat)
    requires i > 0
    ensures NthKey(i) != NthKey(0)
  {
    PadLength(0);
    PadLength(i);
  }

  lemma CallAdded(calls: seq<Option<Key>>, call: Option<Key>, key: Key)
    ensures EmittedAfter(calls + [call]) == Remember(EmittedAfter(calls), call)
    ensures Admissions(calls + [call], key)
         == Admissions(calls, key) + if call == Some(key) && Admits(EmittedAfter(calls), call) then 1 else 0
    ensures Keyed(calls + [call]) == Keyed(calls) + if call.Some? then 1 else 0
  {
    assert (calls + [call])[..|calls|] == calls;
  }

  function Rounds(m: nat): seq<Option<Key>> {
    if m == 0 then [] else Rounds(m - 1) + Round(DEDUPE_MAX_KEYS)
  }

  lemma {:induction false} RoundsEffect(m: nat)
    ensures Cleared(EmittedAfter(Rounds(m))) == {}
    ensures Admissions(Rounds(m), NthKey(0)) == m && Keyed(Rounds(m)) == DEDUPE_MAX_KEYS * m
  {
    if m > 0 {
      RoundsEffect(m - 1);
      RoundEffect(Rounds(m - 1), DEDUPE_MAX_KEYS);
      FirstKeysDistinct(DEDUPE_MAX_KEYS, DEDUPE_MAX_KEYS);
    }
  }

  /** For every `m`, some run of `4096 m + 1` keyed calls admits one key `m + 1` times. */
  lemma BoundAttained(m: nat) returns (calls: seq<Option<Key>>)
    ensures Keyed(calls) == DEDUPE_MAX_KEYS * m + 1
    ensures Admissions(calls, NthKey(0)) == 1 + (Keyed(calls) - 1) / DEDUPE_MAX_KEYS
  {
    RoundsEffect(m);
    RoundEffect(Rounds(m), 1);
    calls := Rounds(m) + Round(1);
  }

  /** The two gates share their shape but not their keys. */
  class AnalyticsEventsQueue {
    var appUsedEmittedKeys: set<Key>
    var pluginUsedEmittedKeys: set<Key>

    constructor ()
      ensures appUsedEmittedKeys == {} && pluginUsedEmittedKeys == {}
    {
      appUsedEmittedKeys, pluginUsedEmittedKeys := {}, {};
    }

    method ShouldEnqueueAppUsed(turn: string, connector: Option<string>) returns (admitted: bool)
      modifies this`appUsedEmittedKeys
      ensures var call := if connector.Some? then Some(Key(turn, connector.value)) else None;
              && appUsedEmittedKeys == Remember(old(appUsedEmittedKeys), call)
              && admitted == Admits(old(appUsedEmittedKeys), call)
    {
      if connector == None {
        return true;
      }
      if |appUsedEmittedKeys| >= DEDUPE_MAX_KEYS {
        appUsedEmittedKeys := {};
      }
      var key := Key(turn, connector.value);
      admitted := key !in appUsedEmittedKeys;
      appUsedEmittedKeys := appUsedEmittedKeys + {key};
    }

    method ShouldEnqueuePluginUsed(turn: string, plugin: string) returns (admitted: bool)
      modifies this`pluginUsedEmittedKeys
      ensures pluginUsedEmittedKeys == Remember(old(pluginUsedEmittedKeys), Some(Key(turn, plugin)))
      ensures admitted == Admits(old(pluginUsedEmittedKeys), Some(Key(turn, plugin)))
    {
      if |pluginUsedEmittedKeys| >= DEDUPE_MAX_KEYS {
        pluginUsedEmittedKeys := {};
      }
      var key := Key(turn, plugin);
      admitted := key !in pluginUsedEmittedKeys;
      pluginUsedEmittedKeys := pluginUsedEmittedKeys + {key};
    }
  }

  // ----- request batches -----

  function Flatten<E>(batches: seq<seq<E>>): seq<E> {
    if batches == [] then [] else batches[0] + Flatten(batches[1..])
  }

  ghost predicate Shared<E(!new)>(isolated: E -> bool, batch: seq<E>) {
    forall i :: 0 <= i < |batch| ==> !isolated(batch[i])
  }

  /** Batches are the events in order, none empty, isolated events alone, and shared batches as long as possible. */
  ghost predicate Batches<E(!new)>(isolated: E -> bool, events: seq<E>, batches: seq<seq<E>>) {
    && Flatten(batches) == events
    && (forall i :: 0 <= i < |batches| ==> batches[i] != [] && (Shared(isolated, batches[i]) || |batches[i]| == 1))
    && (forall i :: 0 < i < |batches| ==> !(Shared(isolated, batches[i - 1]) && Shared(isolated, batches[i])))
  }

  lemma {:induction false} FlattenSnoc<E>(batches: seq<seq<E>>, batch: seq<E>)
    ensures Flatten(batches + [batch]) == Flatten(batches) + batch
  {
    if batches == [] {
      assert batches + [batch] == [batch];
      assert [batch][1..] == [];
    } else {
      assert (batches + [batch])[1..] == batches[1..] + [batch];
      FlattenSnoc(batches[1..], batch);
    }
  }

  /** What the loop has built: finished batches, and a shared one still open. */
  ghost predicate Building<E(!new)>(isolated: E -> bool, events: seq<E>, batches: seq<seq<E>>, current: seq<E>) {
    && Flatten(batches) + current == events
    && Shared(isolated, current)
    && Batches(isolated, Flatten(batches), batches)
    && (batches != [] ==> !Shared(isolated, batches[|batches| - 1]))
  }

  lemma CloseBatch<E(!new)>(isolated: E -> bool, events: seq<E>, batches: seq<seq<E>>, current: seq<E>)
    requires Building(isolated, events, batches, current) && current != []
    ensures Batches(isolated, events, batches + [current])
  {
    FlattenSnoc(batches, current);
  }

  lemma AddIsolated<E(!new)>(isolated: E -> bool, events: seq<E>, batches: seq<seq<E>>, e: E)
    requires Batches(isolated, events, batches) && isolated(e)
    ensures Building(isolated, events + [e], batches + [[e]], [])
  {
    FlattenSnoc(batches, [e]);
    assert isolated([e][0]);
  }

  method TrackEventRequestBatches<E(!new)>(isolated: E -> bool, events: seq<E>) returns (batches: seq<seq<E>>)
    ensures Batches(isolated, events, batches)
  {
    batches := [];
    var current: seq<E> := [];
    var i := 0;
    while i < |events|
      invariant 0 <= i <= |events|
      invariant Building(isolated, events[..i], batches, current)
    {
      var e := events[i];
      assert events[..i + 1] == events[..i] + [e];
      if isolated(e) {
        if current != [] {
          CloseBatch(isolated, events[..i], batches, current);
          batches := batches + [current];
          current := [];
        } else {
          assert Flatten(batches) + [] == Flatten(batches);
        }
        AddIsolated(isolated, events[..i], batches, e);
        batches := batches + [[e]];
      } else {
        assert Flatten(batches) + (current + [e]) == (Flatten(batches) + current) + [e];
        current := current + [e];
      }
      i := i + 1;
    }
    assert events[..i] == events;
    if current != [] {
      CloseBatch(isolated, events, batches, current);
      batches := batches + [current];
    } else {
      assert Flatten(batches) + [] == Flatten(batches);
    }
  }

  lemma FirstBatch<E(!new)>(isolated: E -> bool, events: seq<E>, batches: seq<seq<E>>)
    requires Batches(isolated, events, batches) && events != []
    ensures batches != [] && batches[0] <= events && Batches(isolated, events[|batches[0]|..], batches[1..])
    ensures isolated(events[0]) ==> |batches[0]| == 1
    ensures !isolated(events[0]) ==> Shared(isolated, batches[0])
    ensures Shared(isolated, batches[0]) && |batches[0]| < |events| ==> isolated(events[|batches[0]|])
  {
    var b, rest := batches[0], batches[1..];
    assert events == b + Flatten(rest);
    assert events[|b|..] == Flatten(rest);
    assert b[0] == events[0];
    if rest != [] {
      assert rest[0] == batches[1] && !(Shared(isolated, batches[0]) && Shared(isolated, batches[1]));
      assert Flatten(rest)[0] == rest[0][0];
    }
  }

  /** Those conditions leave no choice: there is only one way to batch a list of events. */
  lemma {:induction false} BatchesUnique<E(!new)>(isolated: E -> bool, events: seq<E>, a: seq<seq<E>>, b: seq<seq<E>>)
    requires Batches(isolated, events, a) && Batches(isolated, events, b)
    ensures a == b
    decreases |events|
  {
    if events == [] {
      NoBatches(isolated, a);
      NoBatches(isolated, b);
    } else {
      FirstBatch(isolated, events, a);
      FirstBatch(isolated, events, b);
      SameFirst(isolated, events, a[0], b[0]);
      BatchesUnique(isolated, events[|a[0]|..], a[1..], b[1..]);
      assert a == [a[0]] + a[1..] && b == [b[0]] + b[1..];
    }
  }

  lemma NoBatches<E(!new)>(isolated: E -> bool, batches: seq<seq<E>>)
    requires Batches(isolated, [], batches)
    ensures batches == []
  {
  }

  lemma SameFirst<E(!new)>(isolated: E -> bool, events: seq<E>, x: seq<E>, y: seq<E>)
    requires events != [] && x != [] && y != [] && x <= events && y <= events
    requires isolated(events[0]) ==> |x| == 1 && |y| == 1
    requires !isolated(events[0]) ==> Shared(isolated, x) && Shared(isolated, y)
    requires Shared(isolated, x) && |x| < |events| ==> isolated(events[|x|])
    requires Shared(isolated, y) && |y| < |events| ==> isolated(events[|y|])
    ensures x == y
  {
  }
}
