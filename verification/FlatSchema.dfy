/** Flattening the `v2` namespace of a schema bundle, and why references keep their meaning. */
module FlatSchema {
  import opened Text
  import opened Json
  import opened SchemaRefs
  import opened Reachability

  const V2: string := "#/definitions/v2/"
  const SHARED: seq<string> := ["ClientRequest", "ServerNotification"]

  datatype Outcome = Built(bundle: Json) | Failed(reason: string)

  function ObjectAt(entries: seq<Entry>, key: string): Option<seq<Entry>> {
    match Get(entries, key)
    case Some(Obj(inner)) => Some(inner)
    case _ => None
  }

  /** Names of root definitions that `v` refers to. */
  function NonV2Names(v: Json): set<string> {
    set r | r in Refs(v) && StartsWith(r, DEFINITIONS) && !StartsWith(r, V2) :: r[|DEFINITIONS|..]
  }

  function Dependencies(defs: seq<Entry>, name: string): set<string> {
    match Get(defs, name)
    case Some(schema) => NonV2Names(schema)
    case None => {}
  }

  // ----- the dependency worklist -----

  function DependencyGraph(defs: seq<Entry>): Graph {
    (name: string) => Dependencies(defs, name)
  }

  ghost function Universe(defs: seq<Entry>, names: set<string>): (u: set<string>)
    ensures names <= u
    ensures forall n :: Dependencies(defs, n) <= u
  {
    var u := names + set e, n | e in defs && n in NonV2Names(e.value) :: n;
    assert forall n :: Dependencies(defs, n) <= u by {
      forall n ensures Dependencies(defs, n) <= u {
        if Get(defs, n).Some? {
          assert Entry(n, Get(defs, n).value) in defs;
        }
      }
    }
    u
  }

  ghost predicate WorklistInvariant(defs: seq<Entry>, names: set<string>, seen: set<string>, stack: seq<string>) {
    && names <= seen + Pending(stack)
    && (forall n :: n in seen ==> Dependencies(defs, n) <= seen + Pending(stack))
    && (forall t :: names <= t && ClosedUnder(DependencyGraph(defs), t) ==> seen + Pending(stack) <= t)
  }

  /** Visiting one name keeps the worklist invariant. */
  lemma WorklistStep(defs: seq<Entry>, names: set<string>, seen: set<string>, stack: seq<string>, name: string, pushed: seq<string>)
    requires WorklistInvariant(defs, names, seen, stack + [name])
    requires Pending(pushed) == Dependencies(defs, name) - (seen + {name})
    ensures WorklistInvariant(defs, names, seen + {name}, stack + pushed)
  {
    PendingAppend(stack, [name]);
    PendingAppend(stack, pushed);
    forall t | names <= t && ClosedUnder(DependencyGraph(defs), t) ensures seen + {name} + Pending(stack + pushed) <= t {
      assert name in t;
      assert Dependencies(defs, name) <= t;
    }
  }

  lemma SkipStep(defs: seq<Entry>, names: set<string>, seen: set<string>, stack: seq<string>)
    requires stack != [] && stack[|stack| - 1] in seen && WorklistInvariant(defs, names, seen, stack)
    ensures WorklistInvariant(defs, names, seen, stack[..|stack| - 1])
    ensures seen + Pending(stack[..|stack| - 1]) == seen + Pending(stack)
  {
    PendingPop(stack);
  }

  lemma VisitStep(defs: seq<Entry>, names: set<string>, seen: set<string>, stack: seq<string>, pushed: seq<string>, universe: set<string>)
    requires stack != [] && stack[|stack| - 1] !in seen && WorklistInvariant(defs, names, seen, stack)
    requires Pending(pushed) == Dependencies(defs, stack[|stack| - 1]) - (seen + {stack[|stack| - 1]})
    requires seen + Pending(stack) <= universe && Dependencies(defs, stack[|stack| - 1]) <= universe
    ensures var name, rest := stack[|stack| - 1], stack[..|stack| - 1];
            && WorklistInvariant(defs, names, seen + {name}, rest + pushed)
            && seen + {name} + Pending(rest + pushed) <= universe
            && universe - (seen + {name}) < universe - seen
  {
    var name, rest := stack[|stack| - 1], stack[..|stack| - 1];
    PendingPop(stack);
    assert stack == rest + [name];
    WorklistStep(defs, names, seen, rest, name, pushed);
    PendingAppend(rest, pushed);
    assert name in universe - seen;
  }

  /** Terminates on cyclic definitions and returns the least closed set. */
  method CollectDefinitionDependencies(defs: seq<Entry>, names: set<string>) returns (seen: set<string>)
    ensures LeastClosed(DependencyGraph(defs), names, seen)
  {
    seen := {};
    var toProcess := Enumerate(names);
    ghost var universe := Universe(defs, names);
    while toProcess != []
      invariant WorklistInvariant(defs, names, seen, toProcess)
      invariant seen + Pending(toProcess) <= universe
      decreases universe - seen, |toProcess|
    {
      var name, rest := toProcess[|toProcess| - 1], toProcess[..|toProcess| - 1];
      if name in seen {
        SkipStep(defs, names, seen, toProcess);
        toProcess := rest;
        continue;
      }
      var pushed := Enumerate(Dependencies(defs, name) - (seen + {name}));
      VisitStep(defs, names, seen, toProcess, pushed, universe);
      seen, toProcess := seen + {name}, rest + pushed;
    }
    assert Pending(toProcess) == {};
  }

  // ----- what the flat bundle holds -----

  /** The schema that ends up under `name`, before references are rewritten. */
  function FlatDefinition(defs: seq<Entry>, v2: seq<Entry>, deps: set<string>, name: string): Option<Json> {
    if name in SHARED && Get(defs, name).Some? then Get(defs, name)
    else if Get(v2, name).Some? then Get(v2, name)
    else if name != "v2" && name in deps then Get(defs, name)
    else None
  }

  function RewriteRef(r: string): string {
    Replace(r, V2, DEFINITIONS)
  }

  function Rewrite(v: Json): Json {
    MapRefs(v, RewriteRef)
  }

  /** Root names the first `k` shared definitions refer to. */
  ghost function NamesOfFirst(defs: seq<Entry>, k: nat): set<string>
    requires k <= |SHARED|
  {
    if k == 0 then {} else NamesOfFirst(defs, k - 1) + Dependencies(defs, SHARED[k - 1])
  }

  ghost function SharedNames(defs: seq<Entry>): set<string> {
    NamesOfFirst(defs, |SHARED|)
  }

  lemma {:induction false} SharedNamesContain(defs: seq<Entry>, k: nat, m: nat)
    requires k < m <= |SHARED|
    ensures Dependencies(defs, SHARED[k]) <= NamesOfFirst(defs, m)
  {
    if k < m - 1 {
      SharedNamesContain(defs, k, m - 1);
    }
  }

  predicate LocalRefsPresent(v: Json, defs: seq<Entry>) {
    forall r :: r in Refs(v) && StartsWith(r, DEFINITIONS) ==> Get(defs, Before(r[|DEFINITIONS|..], '/')).Some?
  }

  predicate NoV2Refs(v: Json) {
    forall r :: r in Refs(v) ==> !StartsWith(r, V2)
  }

  // ----- bundles that flatten -----

  /** A reference to a single root definition. */
  predicate RootRef(r: string, defs: seq<Entry>) {
    && StartsWith(r, DEFINITIONS)
    && var name := r[|DEFINITIONS|..]; '/' !in name && name != "v2" && Get(defs, name).Some?
  }

  /** A reference to a single definition of the namespace. */
  predicate V2Ref(r: string, v2: seq<Entry>) {
    && StartsWith(r, V2)
    && var name := r[|V2|..]; '/' !in name && Get(v2, name).Some?
  }

  /**
   * A closed bundle: references occur only inside definitions, each names one existing
   * definition, and those of the namespace stay in it.
   */
  ghost predicate ClosedBundle(root: seq<Entry>, defs: seq<Entry>, v2: seq<Entry>) {
    && Valid(Obj(root))
    && ObjectAt(root, "definitions") == Some(defs)
    && ObjectAt(defs, "v2") == Some(v2)
    && RefHere(Obj(root)).None? && RefHere(Obj(defs)).None? && RefHere(Obj(v2)).None?
    && (forall e :: e in root && e.key != "definitions" ==> Refs(e.value) == {})
    && (forall name :: name != "v2" && Get(defs, name).Some? ==> RootOrV2Refs(Get(defs, name).value, defs, v2))
    && (forall name :: Get(v2, name).Some? ==> OnlyV2Refs(Get(v2, name).value, v2))
  }

  /** No root name is also a namespace name. */
  ghost predicate NoClash(defs: seq<Entry>, v2: seq<Entry>) {
    forall name :: Get(defs, name).Some? ==> Get(v2, name).None?
  }

  predicate RootOrV2Refs(v: Json, defs: seq<Entry>, v2: seq<Entry>) {
    forall r :: r in Refs(v) ==> RootRef(r, defs) || V2Ref(r, v2)
  }

  predicate OnlyV2Refs(v: Json, v2: seq<Entry>) {
    forall r :: r in Refs(v) ==> V2Ref(r, v2)
  }

  /** What a reference denotes in the nested bundle. */
  function Resolve(defs: seq<Entry>, v2: seq<Entry>, r: string): Option<Json> {
    if StartsWith(r, V2) then Get(v2, r[|V2|..])
    else if StartsWith(r, DEFINITIONS) then Get(defs, r[|DEFINITIONS|..])
    else None
  }

  /** What a reference denotes in the flat bundle. */
  function ResolveFlat(flat: seq<Entry>, r: string): Option<Json> {
    if StartsWith(r, DEFINITIONS) then Get(flat, r[|DEFINITIONS|..]) else None
  }

  /** Every reference of a kept definition denotes the rewritten image of what it denoted before. */
  ghost predicate MeaningPreserved(defs: seq<Entry>, v2: seq<Entry>, deps: set<string>, flat: seq<Entry>) {
    forall name, r :: KeptRef(defs, v2, deps, name, r) ==> RefPreserved(defs, v2, flat, r)
  }

  /** `r` is a reference of the kept definition `name`. */
  predicate KeptRef(defs: seq<Entry>, v2: seq<Entry>, deps: set<string>, name: string, r: string) {
    FlatDefinition(defs, v2, deps, name).Some? && r in Refs(FlatDefinition(defs, v2, deps, name).value)
  }

  predicate RefPreserved(defs: seq<Entry>, v2: seq<Entry>, flat: seq<Entry>, r: string) {
    && Resolve(defs, v2, r).Some?
    && ResolveFlat(flat, RewriteRef(r)) == Some(Rewrite(Resolve(defs, v2, r).value))
  }

  // ----- rewriting one reference -----

  lemma V2Splits()
    ensures V2 == DEFINITIONS + "v2/"
    ensures '/' in V2 && V2[0] == '#'
  {
    assert V2[1] == '/';
  }

  lemma RewriteV2Ref(name: string)
    requires '/' !in name
    ensures RewriteRef(V2 + name) == DEFINITIONS + name
  {
    V2Splits();
    assert (V2 + name)[..|V2|] == V2 && (V2 + name)[|V2|..] == name;
    ReplaceAbsent(name, V2, DEFINITIONS, '/');
  }

  lemma RootNotV2(name: string)
    requires '/' !in name
    ensures !StartsWith(DEFINITIONS + name, V2)
  {
    V2Splits();
    var s := DEFINITIONS + name;
    assert |s| >= |V2| ==> s[..|V2|][|V2| - 1] == name[2] != '/';
    assert V2[|V2| - 1] == '/';
  }

  lemma RewriteRootRef(name: string)
    requires '/' !in name
    ensures RewriteRef(DEFINITIONS + name) == DEFINITIONS + name
  {
    V2Splits();
    RootNotV2(name);
    ReplaceAbsent(name, V2, DEFINITIONS, '/');
    var tail := DEFINITIONS[1..];
    assert tail == "/definitions/";
    ReplaceSkip(tail, name, V2, DEFINITIONS);
    assert (DEFINITIONS + name)[1..] == tail + name;
    assert [DEFINITIONS[0]] + (tail + name) == DEFINITIONS + name;
  }

  lemma PrefixRest(r: string, prefix: string)
    requires StartsWith(r, prefix)
    ensures r == prefix + r[|prefix|..]
  {
  }

  /** The name a well-formed reference ends up with. */
  lemma RewrittenName(r: string, defs: seq<Entry>, v2: seq<Entry>) returns (name: string)
    requires RootRef(r, defs) || V2Ref(r, v2)
    ensures '/' !in name && RewriteRef(r) == DEFINITIONS + name
    ensures V2Ref(r, v2) ==> r == V2 + name && Get(v2, name).Some? && Resolve(defs, v2, r) == Get(v2, name)
    ensures !V2Ref(r, v2) ==> name != "v2" && Get(defs, name).Some? && Resolve(defs, v2, r) == Get(defs, name)
    ensures !V2Ref(r, v2) ==> r == DEFINITIONS + name && !StartsWith(r, V2)
  {
    if V2Ref(r, v2) {
      name := r[|V2|..];
      PrefixRest(r, V2);
      RewriteV2Ref(name);
    } else {
      name := r[|DEFINITIONS|..];
      PrefixRest(r, DEFINITIONS);
      RewriteRootRef(name);
      RootNotV2(name);
    }
  }

  // ----- the meaning is preserved -----

  ghost predicate Holds(defs: seq<Entry>, v2: seq<Entry>, deps: set<string>, flat: seq<Entry>) {
    forall name :: Get(flat, name) == match FlatDefinition(defs, v2, deps, name) case Some(d) => Some(Rewrite(d)) case None => None
  }

  /**
   * The schema that displaces what `r` refers to when both maps define its name: shared root
   * definitions displace those of the namespace, which displace the other root definitions.
   */
  function Displacing(defs: seq<Entry>, v2: seq<Entry>, r: string): Option<Json> {
    if StartsWith(r, V2) then (if r[|V2|..] in SHARED then Get(defs, r[|V2|..]) else None)
    else if StartsWith(r, DEFINITIONS) then (if r[|DEFINITIONS|..] in SHARED then None else Get(v2, r[|DEFINITIONS|..]))
    else None
  }

  /** Every displaced schema a kept definition refers to is, once rewritten, the one that displaces it. */
  ghost predicate ClashesAgree(defs: seq<Entry>, v2: seq<Entry>, deps: set<string>) {
    forall name, r :: KeptRef(defs, v2, deps, name, r) ==> ClashAgrees(defs, v2, r)
  }

  predicate ClashAgrees(defs: seq<Entry>, v2: seq<Entry>, r: string) {
    Displacing(defs, v2, r).Some? && Resolve(defs, v2, r).Some? ==>
      Rewrite(Displacing(defs, v2, r).value) == Rewrite(Resolve(defs, v2, r).value)
  }

  /** The name a kept reference points to afterwards holds what it pointed to before, or what displaced it. */
  lemma TargetKept(root: seq<Entry>, defs: seq<Entry>, v2: seq<Entry>, deps: set<string>, owner: string, r: string)
    returns (name: string)
    requires ClosedBundle(root, defs, v2) && LeastClosed(DependencyGraph(defs), SharedNames(defs), deps)
    requires KeptRef(defs, v2, deps, owner, r)
    ensures '/' !in name && RewriteRef(r) == DEFINITIONS + name
    ensures Resolve(defs, v2, r).Some?
    ensures FlatDefinition(defs, v2, deps, name) == if Displacing(defs, v2, r).Some? then Displacing(defs, v2, r) else Resolve(defs, v2, r)
  {
    KeptRefKind(root, defs, v2, deps, owner, r);
    name := RewrittenName(r, defs, v2);
    if V2Ref(r, v2) {
      assert (V2 + name)[|V2|..] == name && StartsWith(r, V2);
    } else {
      assert (DEFINITIONS + name)[|DEFINITIONS|..] == name && StartsWith(r, DEFINITIONS);
    }
  }

  /** A kept definition refers into the namespace, or to a root definition that is a dependency. */
  lemma KeptRefKind(root: seq<Entry>, defs: seq<Entry>, v2: seq<Entry>, deps: set<string>, owner: string, r: string)
    requires ClosedBundle(root, defs, v2) && LeastClosed(DependencyGraph(defs), SharedNames(defs), deps)
    requires KeptRef(defs, v2, deps, owner, r)
    ensures V2Ref(r, v2) || (RootRef(r, defs) && r[|DEFINITIONS|..] in deps)
  {
    var d := FlatDefinition(defs, v2, deps, owner).value;
    if Get(v2, owner) == Some(d) {
      assert OnlyV2Refs(d, v2);
    } else {
      assert "v2" !in SHARED;
      assert Get(defs, owner) == Some(d) && RootOrV2Refs(d, defs, v2);
      DependenciesKept(defs, deps, owner);
      if !V2Ref(r, v2) {
        var name := r[|DEFINITIONS|..];
        PrefixRest(r, DEFINITIONS);
        RootNotV2(name);
        assert name in Dependencies(defs, owner);
      }
    }
  }

  /** Whatever a kept root definition refers to is a dependency. */
  lemma DependenciesKept(defs: seq<Entry>, deps: set<string>, owner: string)
    requires LeastClosed(DependencyGraph(defs), SharedNames(defs), deps) && (owner in deps || owner in SHARED)
    ensures Dependencies(defs, owner) <= deps
  {
    if owner !in deps {
      var k :| 0 <= k < |SHARED| && SHARED[k] == owner;
      SharedNamesContain(defs, k, |SHARED|);
    } else {
      assert DependencyGraph(defs)(owner) <= deps;
    }
  }

  lemma RefPreservedExactly(root: seq<Entry>, defs: seq<Entry>, v2: seq<Entry>, deps: set<string>, flat: seq<Entry>, owner: string, r: string)
    requires ClosedBundle(root, defs, v2) && LeastClosed(DependencyGraph(defs), SharedNames(defs), deps)
    requires Holds(defs, v2, deps, flat)
    requires KeptRef(defs, v2, deps, owner, r)
    ensures RefPreserved(defs, v2, flat, r) <==> ClashAgrees(defs, v2, r)
  {
    var target := TargetKept(root, defs, v2, deps, owner, r);
    assert (DEFINITIONS + target)[|DEFINITIONS|..] == target && StartsWith(DEFINITIONS + target, DEFINITIONS);
    assert Get(flat, target).Some?;
  }

  /** Flattening preserves meaning if and only if no kept reference loses a disagreeing clash. */
  lemma FlatMeaningExactly(root: seq<Entry>, defs: seq<Entry>, v2: seq<Entry>, deps: set<string>, flat: seq<Entry>)
    requires ClosedBundle(root, defs, v2) && LeastClosed(DependencyGraph(defs), SharedNames(defs), deps)
    requires Holds(defs, v2, deps, flat)
    ensures MeaningPreserved(defs, v2, deps, flat) <==> ClashesAgree(defs, v2, deps)
  {
    forall name, r | KeptRef(defs, v2, deps, name, r) ensures RefPreserved(defs, v2, flat, r) <==> ClashAgrees(defs, v2, r) {
      RefPreservedExactly(root, defs, v2, deps, flat, name, r);
    }
  }

  /** In particular when no root name is also a namespace name. */
  lemma NoClashAgrees(defs: seq<Entry>, v2: seq<Entry>, deps: set<string>)
    requires NoClash(defs, v2)
    ensures ClashesAgree(defs, v2, deps)
  {
  }

  /** Every reference of the rewritten definitions comes from a kept definition. */
  lemma FlatRefOrigin(defs: seq<Entry>, v2: seq<Entry>, deps: set<string>, plain: seq<Entry>, r: string)
    returns (owner: string, q: string)
    requires Valid(Obj(plain)) && RefHere(Obj(plain)).None?
    requires forall name :: Get(plain, name) == FlatDefinition(defs, v2, deps, name)
    requires r in Refs(Obj(MapEntries(plain, RewriteRef)))
    ensures KeptRef(defs, v2, deps, owner, q)
    ensures r == RewriteRef(q)
  {
    RefsMapped(Obj(plain), RewriteRef);
    q :| q in Refs(Obj(plain)) && r == RewriteRef(q);
    var i :| 0 <= i < |plain| && q in Refs(plain[i].value);
    owner := plain[i].key;
    assert plain[i] in plain;
    GetMember(plain, plain[i]);
  }

  /** Hence both final checks pass on a closed bundle. */
  lemma FlatChecksPass(root: seq<Entry>, defs: seq<Entry>, v2: seq<Entry>, deps: set<string>, plain: seq<Entry>)
    requires ClosedBundle(root, defs, v2) && LeastClosed(DependencyGraph(defs), SharedNames(defs), deps)
    requires Valid(Obj(plain)) && RefHere(Obj(plain)).None?
    requires forall name :: Get(plain, name) == FlatDefinition(defs, v2, deps, name)
    ensures NoV2Refs(Obj(MapEntries(plain, RewriteRef)))
    ensures LocalRefsPresent(Obj(MapEntries(plain, RewriteRef)), MapEntries(plain, RewriteRef))
  {
    var flat := MapEntries(plain, RewriteRef);
    forall r | r in Refs(Obj(flat))
      ensures !StartsWith(r, V2)
      ensures StartsWith(r, DEFINITIONS) ==> Get(flat, Before(r[|DEFINITIONS|..], '/')).Some?
    {
      var owner, q := FlatRefOrigin(defs, v2, deps, plain, r);
      var name := TargetKept(root, defs, v2, deps, owner, q);
      RootNotV2(name);
      assert FlatDefinition(defs, v2, deps, name).Some?;
      assert (DEFINITIONS + name)[|DEFINITIONS|..] == name;
      MapEntriesGet(plain, RewriteRef, name);
    }
  }

  // ----- the code -----

  lemma GetValid(entries: seq<Entry>, key: string)
    requires Valid(Obj(entries)) && Get(entries, key).Some?
    ensures Valid(Get(entries, key).value)
  {
    var i :| 0 <= i < |entries| && entries[i] == Entry(key, Get(entries, key).value);
    assert Valid(entries[i].value);
  }

  lemma PutValid(entries: seq<Entry>, key: string, v: Json)
    requires Valid(Obj(entries)) && Valid(v)
    ensures Valid(Obj(Put(entries, key, v)))
  {
    PutMembers(entries, key, v);
    var r := Put(entries, key, v);
    forall i | 0 <= i < |r| ensures Valid(r[i].value) {
      assert r[i] in r;
      if r[i] != Entry(key, v) {
        var j :| 0 <= j < |entries| && entries[j] == r[i];
      }
    }
  }

  /** The namespace with the root dependencies added, names already there winning. */
  function WithDependencies(defs: seq<Entry>, v2: seq<Entry>, deps: set<string>, name: string): Option<Json> {
    if Get(v2, name).Some? then Get(v2, name)
    else if name != "v2" && name in deps then Get(defs, name)
    else None
  }

  method AddDependencies(defs: seq<Entry>, v2: seq<Entry>, deps: set<string>) returns (flat: seq<Entry>)
    requires Valid(Obj(defs)) && Valid(Obj(v2))
    ensures Valid(Obj(flat))
    ensures forall name :: Get(flat, name) == WithDependencies(defs, v2, deps, name)
  {
    flat := v2;
    var rest := deps;
    while rest != {}
      invariant rest <= deps && Valid(Obj(flat))
      invariant forall name :: Get(flat, name) == WithDependencies(defs, v2, deps - rest, name)
      decreases rest
    {
      var name :| name in rest;
      ghost var before, done, inserted := flat, deps - rest, false;
      rest := rest - {name};
      if name != "v2" && Get(flat, name).None? && Get(defs, name).Some? {
        GetValid(defs, name);
        PutValid(flat, name, Get(defs, name).value);
        flat := Put(flat, name, Get(defs, name).value);
        inserted := true;
      }
      assert deps - rest == done + {name};
      forall other ensures Get(flat, other) == WithDependencies(defs, v2, deps - rest, other) {
        if inserted {
          PutGet(before, name, Get(defs, name).value, other);
        }
        assert Get(before, other) == WithDependencies(defs, v2, done, other);
      }
    }
  }

  /** `Map::extend` with the shared definitions, which win over what is there. */
  method AddShared(defs: seq<Entry>, base: seq<Entry>) returns (flat: seq<Entry>)
    requires Valid(Obj(defs)) && Valid(Obj(base))
    ensures Valid(Obj(flat))
    ensures forall name :: Get(flat, name) == if name in SHARED && Get(defs, name).Some? then Get(defs, name) else Get(base, name)
  {
    flat := base;
    var k := 0;
    while k < |SHARED|
      invariant 0 <= k <= |SHARED| && Valid(Obj(flat))
      invariant forall name :: Get(flat, name) == if name in SHARED[..k] && Get(defs, name).Some? then Get(defs, name) else Get(base, name)
    {
      var shared := SHARED[k];
      ghost var before, inserted := flat, false;
      if Get(defs, shared).Some? {
        GetValid(defs, shared);
        PutValid(flat, shared, Get(defs, shared).value);
        flat := Put(flat, shared, Get(defs, shared).value);
        inserted := true;
      }
      assert SHARED[..k + 1] == SHARED[..k] + [shared];
      forall name ensures Get(flat, name) == if name in SHARED[..k + 1] && Get(defs, name).Some? then Get(defs, name) else Get(base, name) {
        if inserted {
          PutGet(before, shared, Get(defs, shared).value, name);
        }
        assert Get(before, name) == if name in SHARED[..k] && Get(defs, name).Some? then Get(defs, name) else Get(base, name);
      }
      k := k + 1;
    }
    assert SHARED[..k] == SHARED;
  }

  /** The names the shared definitions bring in. */
  method CollectShared(defs: seq<Entry>) returns (names: set<string>)
    ensures names == SharedNames(defs)
  {
    names := {};
    var k := 0;
    while k < |SHARED|
      invariant 0 <= k <= |SHARED|
      invariant names == NamesOfFirst(defs, k)
    {
      if Get(defs, SHARED[k]).Some? {
        names := names + NonV2Names(Get(defs, SHARED[k]).value);
      }
      k := k + 1;
    }
  }

  /** The flat root object before references are rewritten. */
  function FlatRoot(root: seq<Entry>, plain: seq<Entry>): seq<Entry> {
    var title := match Get(root, "title") case Some(Str(s)) => s case _ => "CodexAppServerProtocol";
    Put(Put(root, "title", Str(title + "V2")), "definitions", Obj(plain))
  }

  lemma FlatRootGet(root: seq<Entry>, plain: seq<Entry>)
    ensures Get(MapEntries(FlatRoot(root, plain), RewriteRef), "definitions") == Some(Obj(MapEntries(plain, RewriteRef)))
  {
    var title := match Get(root, "title") case Some(Str(s)) => s case _ => "CodexAppServerProtocol";
    PutGet(Put(root, "title", Str(title + "V2")), "definitions", Obj(plain), "definitions");
    MapEntriesGet(FlatRoot(root, plain), RewriteRef, "definitions");
  }

  /** Beside its definitions the flat bundle has the old title with `V2` behind it, and the rest as it was but for its references. */
  ghost predicate FlatHead(root: seq<Entry>, bundle: Json) {
    && bundle.Obj?
    && (forall title :: Get(root, "title") == Some(Str(title)) ==> Get(bundle.entries, "title") == Some(Str(title + "V2")))
    && ((forall title :: Get(root, "title") != Some(Str(title))) ==> Get(bundle.entries, "title") == Some(Str("CodexAppServerProtocolV2")))
    && (forall key :: key != "title" && key != "definitions" ==> Get(bundle.entries, key) == RewrittenAt(Get(root, key), key))
  }

  lemma FlatRootAt(root: seq<Entry>, plain: seq<Entry>, title: string, key: string)
    requires title == match Get(root, "title") case Some(Str(s)) => s case _ => "CodexAppServerProtocol"
    requires key != "definitions"
    ensures Get(MapEntries(FlatRoot(root, plain), RewriteRef), key)
         == RewrittenAt(if key == "title" then Some(Str(title + "V2")) else Get(root, key), key)
  {
    PutGet(root, "title", Str(title + "V2"), key);
    PutGet(Put(root, "title", Str(title + "V2")), "definitions", Obj(plain), key);
    MapEntriesGet(FlatRoot(root, plain), RewriteRef, key);
  }

  lemma TitleKept(text: string)
    ensures RewrittenAt(Some(Str(text)), "title") == Some(Str(text))
  {
    assert |"title"| != |"$ref"|;
    assert MapAt("title", Str(text), RewriteRef) == MapRefs(Str(text), RewriteRef);
  }

  lemma FlatRootHead(root: seq<Entry>, plain: seq<Entry>)
    ensures FlatHead(root, Rewrite(Obj(FlatRoot(root, plain))))
  {
    var title := match Get(root, "title") case Some(Str(s)) => s case _ => "CodexAppServerProtocol";
    assert |"title"| != |"definitions"|;
    FlatRootAt(root, plain, title, "title");
    TitleKept(title + "V2");
    assert "CodexAppServerProtocol" + "V2" == "CodexAppServerProtocolV2";
    forall key | key != "title" && key != "definitions"
      ensures Get(MapEntries(FlatRoot(root, plain), RewriteRef), key) == RewrittenAt(Get(root, key), key)
    {
      FlatRootAt(root, plain, title, key);
    }
  }

  /** Only the definitions of a closed bundle hold references, so replacing them replaces all. */
  lemma PutDefinitionsRefs(entries: seq<Entry>, plain: seq<Entry>)
    requires Valid(Obj(entries)) && Valid(Obj(plain)) && RefHere(Obj(entries)).None?
    requires forall e :: e in entries && e.key != "definitions" ==> Refs(e.value) == {}
    ensures Refs(Obj(Put(entries, "definitions", Obj(plain)))) <= Refs(Obj(plain))
    ensures Valid(Obj(Put(entries, "definitions", Obj(plain))))
  {
    PutValid(entries, "definitions", Obj(plain));
    PutMembers(entries, "definitions", Obj(plain));
    PutGet(entries, "definitions", Obj(plain), "$ref");
    var r := Put(entries, "definitions", Obj(plain));
    forall q | q in Refs(Obj(r)) ensures q in Refs(Obj(plain)) {
      var i :| 0 <= i < |r| && q in Refs(r[i].value);
      assert r[i] in r;
    }
  }

  /** On a closed bundle the only references left are those of the definitions. */
  lemma FlatRootRefs(root: seq<Entry>, defs: seq<Entry>, v2: seq<Entry>, plain: seq<Entry>)
    requires ClosedBundle(root, defs, v2) && Valid(Obj(plain))
    ensures Refs(Obj(MapEntries(FlatRoot(root, plain), RewriteRef))) <= Refs(Obj(MapEntries(plain, RewriteRef)))
  {
    var title := match Get(root, "title") case Some(Str(s)) => s case _ => "CodexAppServerProtocol";
    var titled := Put(root, "title", Str(title + "V2"));
    PutValid(root, "title", Str(title + "V2"));
    PutMembers(root, "title", Str(title + "V2"));
    PutGet(root, "title", Str(title + "V2"), "$ref");
    StrNoRefs(Str(title + "V2"));
    PutDefinitionsRefs(titled, plain);
    ImageMonotone(Obj(FlatRoot(root, plain)), Obj(plain));
  }

  lemma ImageMonotone(a: Json, b: Json)
    requires Valid(a) && Valid(b) && Refs(a) <= Refs(b)
    ensures Refs(Rewrite(a)) <= Refs(Rewrite(b))
  {
    RefsMapped(a, RewriteRef);
    RefsMapped(b, RewriteRef);
  }

  function RewrittenAt(found: Option<Json>, name: string): Option<Json> {
    match found case Some(d) => Some(MapAt(name, d, RewriteRef)) case None => None
  }

  ghost predicate FlatShape(defs: seq<Entry>, v2: seq<Entry>, deps: set<string>, bundle: Json) {
    && bundle.Obj?
    && ObjectAt(bundle.entries, "definitions").Some?
    && var flat := ObjectAt(bundle.entries, "definitions").value;
    && (forall name :: Get(flat, name) == RewrittenAt(FlatDefinition(defs, v2, deps, name), name))
    && NoV2Refs(bundle) && LocalRefsPresent(bundle, flat)
  }

  /** The flat bundle as assembled, before it is checked. */
  ghost predicate Assembles(root: seq<Entry>, defs: seq<Entry>, v2: seq<Entry>, deps: set<string>, bundle: Json) {
    && FlatHead(root, bundle)
    && ObjectAt(bundle.entries, "definitions").Some?
    && forall name :: Get(ObjectAt(bundle.entries, "definitions").value, name) == RewrittenAt(FlatDefinition(defs, v2, deps, name), name)
  }

  /** The two checks: no reference into the namespace is left, and every local one names a definition that is there. */
  function Checked(bundle: Json): Outcome
    requires bundle.Obj? && ObjectAt(bundle.entries, "definitions").Some?
  {
    if !NoV2Refs(bundle) then Failed("flat v2 schema still references namespaced definitions")
    else if !LocalRefsPresent(bundle, ObjectAt(bundle.entries, "definitions").value) then Failed("flat v2 schema missing definitions")
    else Built(bundle)
  }

  lemma PlainHolds(root: seq<Entry>, defs: seq<Entry>, v2: seq<Entry>, deps: set<string>, plain: seq<Entry>)
    requires ClosedBundle(root, defs, v2)
    requires forall name :: Get(plain, name) == FlatDefinition(defs, v2, deps, name)
    ensures RefHere(Obj(plain)).None?
    ensures Holds(defs, v2, deps, MapEntries(plain, RewriteRef))
  {
    assert Get(plain, "$ref") == FlatDefinition(defs, v2, deps, "$ref");
    forall name
      ensures Get(MapEntries(plain, RewriteRef), name)
           == match FlatDefinition(defs, v2, deps, name) case Some(d) => Some(Rewrite(d)) case None => None
    {
      MapEntriesGet(plain, RewriteRef, name);
    }
  }

  /** The flat definitions are the rewritten ones, and keep their meaning exactly when clashes agree. */
  ghost predicate Faithful(defs: seq<Entry>, v2: seq<Entry>, deps: set<string>, bundle: Json) {
    && bundle.Obj? && ObjectAt(bundle.entries, "definitions").Some?
    && var flat := ObjectAt(bundle.entries, "definitions").value;
    && Holds(defs, v2, deps, flat)
    && (MeaningPreserved(defs, v2, deps, flat) <==> ClashesAgree(defs, v2, deps))
    && (NoClash(defs, v2) ==> MeaningPreserved(defs, v2, deps, flat))
  }

  /** A built bundle has the flat definitions and no dangling reference; a closed bundle always builds. */
  method BuildFlatV2Schema(bundle: Json) returns (r: Outcome, deps: set<string>)
    requires Valid(bundle)
    ensures r.Built? ==>
              && bundle.Obj? && ObjectAt(bundle.entries, "definitions").Some?
              && var defs := ObjectAt(bundle.entries, "definitions").value;
              && ObjectAt(defs, "v2").Some?
              && LeastClosed(DependencyGraph(defs), SharedNames(defs), deps)
              && FlatShape(defs, ObjectAt(defs, "v2").value, deps, r.bundle)
              && FlatHead(bundle.entries, r.bundle)
    ensures !bundle.Obj? ==> r == Failed("expected bundle root to be an object")
    ensures bundle.Obj? && ObjectAt(bundle.entries, "definitions").None? ==> r == Failed("expected bundle definitions map")
    ensures bundle.Obj? && ObjectAt(bundle.entries, "definitions").Some? ==>
              var defs := ObjectAt(bundle.entries, "definitions").value;
              if ObjectAt(defs, "v2").None? then r == Failed("expected v2 namespace in bundle definitions")
              else exists flat :: Assembles(bundle.entries, defs, ObjectAt(defs, "v2").value, deps, flat) && r == Checked(flat)
    ensures forall root, defs, v2 :: bundle == Obj(root) && ClosedBundle(root, defs, v2) ==>
              r.Built? && Faithful(defs, v2, deps, r.bundle)
  {
    deps := {};
    if !bundle.Obj? {
      return Failed("expected bundle root to be an object"), deps;
    }
    var root := bundle.entries;
    if ObjectAt(root, "definitions").None? {
      return Failed("expected bundle definitions map"), deps;
    }
    var defs := ObjectAt(root, "definitions").value;
    if ObjectAt(defs, "v2").None? {
      return Failed("expected v2 namespace in bundle definitions"), deps;
    }
    var v2 := ObjectAt(defs, "v2").value;
    GetValid(root, "definitions");
    GetValid(defs, "v2");

    var names := CollectShared(defs);
    var reached := CollectDefinitionDependencies(defs, names);
    deps := reached;
    var flat := AddDependencies(defs, v2, reached);
    flat := AddShared(defs, flat);
    r := FinishFlat(root, defs, v2, deps, flat);
  }

  /** Assemble the root, rewrite the references and run the two checks. */
  method FinishFlat(root: seq<Entry>, defs: seq<Entry>, v2: seq<Entry>, ghost deps: set<string>, plain: seq<Entry>)
    returns (r: Outcome)
    requires Valid(Obj(root)) && Valid(Obj(plain))
    requires LeastClosed(DependencyGraph(defs), SharedNames(defs), deps)
    requires forall name :: Get(plain, name) == FlatDefinition(defs, v2, deps, name)
    ensures exists flat :: Assembles(root, defs, v2, deps, flat) && r == Checked(flat)
    ensures r.Built? ==> FlatShape(defs, v2, deps, r.bundle) && FlatHead(root, r.bundle)
    ensures ClosedBundle(root, defs, v2) ==>
              r.Built? && Faithful(defs, v2, deps, r.bundle)
  {
    var flatBundle := Rewrite(Obj(FlatRoot(root, plain)));
    FlatRootGet(root, plain);
    FlatRootHead(root, plain);
    FlatEntries(defs, v2, deps, plain);
    assert Assembles(root, defs, v2, deps, flatBundle);
    if ClosedBundle(root, defs, v2) {
      ClosedBuilds(root, defs, v2, deps, plain);
    }
    if !NoV2Refs(flatBundle) {
      return Failed("flat v2 schema still references namespaced definitions");
    }
    var definitions := ObjectAt(flatBundle.entries, "definitions");
    if definitions.None? {
      return Failed("expected definitions map in flat v2 schema");
    }
    if !LocalRefsPresent(flatBundle, definitions.value) {
      return Failed("flat v2 schema missing definitions");
    }
    r := Built(flatBundle);
  }

  lemma FlatEntries(defs: seq<Entry>, v2: seq<Entry>, deps: set<string>, plain: seq<Entry>)
    requires forall name :: Get(plain, name) == FlatDefinition(defs, v2, deps, name)
    ensures forall name :: Get(MapEntries(plain, RewriteRef), name) == RewrittenAt(FlatDefinition(defs, v2, deps, name), name)
  {
    forall name ensures Get(MapEntries(plain, RewriteRef), name) == RewrittenAt(FlatDefinition(defs, v2, deps, name), name) {
      MapEntriesGet(plain, RewriteRef, name);
    }
  }

  /** On a closed bundle both checks pass and the result is faithful. */
  lemma ClosedBuilds(root: seq<Entry>, defs: seq<Entry>, v2: seq<Entry>, deps: set<string>, plain: seq<Entry>)
    requires ClosedBundle(root, defs, v2) && Valid(Obj(plain))
    requires LeastClosed(DependencyGraph(defs), SharedNames(defs), deps)
    requires forall name :: Get(plain, name) == FlatDefinition(defs, v2, deps, name)
    ensures var bundle := Rewrite(Obj(FlatRoot(root, plain)));
            NoV2Refs(bundle) && LocalRefsPresent(bundle, MapEntries(plain, RewriteRef)) && Faithful(defs, v2, deps, bundle)
  {
    PlainHolds(root, defs, v2, deps, plain);
    FlatChecksPass(root, defs, v2, deps, plain);
    FlatRootRefs(root, defs, v2, plain);
    ClosedFaithful(root, defs, v2, deps, plain);
  }

  lemma ClosedFaithful(root: seq<Entry>, defs: seq<Entry>, v2: seq<Entry>, deps: set<string>, plain: seq<Entry>)
    requires ClosedBundle(root, defs, v2)
    requires LeastClosed(DependencyGraph(defs), SharedNames(defs), deps)
    requires Holds(defs, v2, deps, MapEntries(plain, RewriteRef))
    ensures Faithful(defs, v2, deps, Rewrite(Obj(FlatRoot(root, plain))))
  {
    FlatRootGet(root, plain);
    FlatMeaningExactly(root, defs, v2, deps, MapEntries(plain, RewriteRef));
    if NoClash(defs, v2) {
      NoClashAgrees(defs, v2, deps);
    }
  }

  // ----- closed bundles exist -----

  function SelfReference(): Json {
    Obj([Entry("$ref", Str("#/definitions/v2/A"))])
  }

  lemma SelfReferenceRefs()
    ensures Refs(SelfReference()) == {"#/definitions/v2/A"} && Valid(SelfReference())
  {
    assert RefHere(SelfReference()) == Some("#/definitions/v2/A");
  }

  /** A namespace whose only definition refers to itself. */
  lemma ClosedBundleExample()
    ensures var v2 := [Entry("A", SelfReference())];
            var defs := [Entry("v2", Obj(v2))];
            ClosedBundle([Entry("definitions", Obj(defs))], defs, v2) && NoClash(defs, v2)
  {
    var v2 := [Entry("A", SelfReference())];
    var defs := [Entry("v2", Obj(v2))];
    var root := [Entry("definitions", Obj(defs))];
    SelfReferenceRefs();
    assert Get(v2, "A") == Some(SelfReference());
    assert "#/definitions/v2/A"[..|V2|] == V2 && "#/definitions/v2/A"[|V2|..] == "A";
    assert V2Ref("#/definitions/v2/A", v2);
    assert OnlyV2Refs(SelfReference(), v2);
    forall name | Get(v2, name).Some? ensures name == "A" {
    }
    forall name | Get(defs, name).Some? ensures name == "v2" {
    }
  }

  // ----- and a closed bundle whose meaning changes -----

  function Pointer(): Json {
    Obj([Entry("$ref", Str("#/definitions/B"))])
  }

  /** A shared definition that refers to a root definition whose name the namespace defines differently. */
  function ClashingDefinitions(): seq<Entry> {
    [Entry(SHARED[0], Pointer()), Entry("B", Null), Entry("v2", Obj([Entry("B", Bool(true))]))]
  }

  lemma PointerRef()
    ensures Refs(Pointer()) == {"#/definitions/B"} && Valid(Pointer())
    ensures RootRef("#/definitions/B", ClashingDefinitions())
    ensures Get(ClashingDefinitions(), "B") == Some(Null) && Get(ClashingDefinitions(), SHARED[0]) == Some(Pointer())
    ensures Get(ClashingDefinitions(), "v2") == Some(Obj([Entry("B", Bool(true))]))
  {
    var defs := ClashingDefinitions();
    assert RefHere(Pointer()) == Some("#/definitions/B");
    assert "#/definitions/B"[..|DEFINITIONS|] == DEFINITIONS && "#/definitions/B"[|DEFINITIONS|..] == "B";
    assert defs[1..][1..] == [defs[2]];
  }

  lemma ClashingKeys(name: string)
    requires Get(ClashingDefinitions(), name).Some?
    ensures name == SHARED[0] || name == "B" || name == "v2"
  {
    assert Entry(name, Get(ClashingDefinitions(), name).value) in ClashingDefinitions();
  }

  lemma ClashingValid()
    ensures Valid(Obj(ClashingDefinitions())) && RefHere(Obj(ClashingDefinitions())).None?
  {
    var defs := ClashingDefinitions();
    PointerRef();
    if Get(defs, "$ref").Some? {
      ClashingKeys("$ref");
    }
    assert UniqueKeys(defs);
  }

  lemma ClashingRefs(name: string)
    requires name != "v2" && Get(ClashingDefinitions(), name).Some?
    ensures RootOrV2Refs(Get(ClashingDefinitions(), name).value, ClashingDefinitions(), [Entry("B", Bool(true))])
  {
    PointerRef();
    ClashingKeys(name);
  }

  lemma ClashingClosed()
    ensures var defs := ClashingDefinitions();
            ClosedBundle([Entry("definitions", Obj(defs))], defs, [Entry("B", Bool(true))])
  {
    var defs, v2 := ClashingDefinitions(), [Entry("B", Bool(true))];
    ClashingValid();
    assert ObjectAt(defs, "v2") == Some(v2) by {
      PointerRef();
    }
    forall name | name != "v2" && Get(defs, name).Some? ensures RootOrV2Refs(Get(defs, name).value, defs, v2) {
      ClashingRefs(name);
    }
  }

  lemma ClashingValues()
    ensures var defs, v2 := ClashingDefinitions(), [Entry("B", Bool(true))];
            Resolve(defs, v2, "#/definitions/B") == Some(Null) && Displacing(defs, v2, "#/definitions/B") == Some(Bool(true))
  {
    PointerRef();
    assert |"#/definitions/B"| < |V2|;
    assert "#/definitions/B"[|DEFINITIONS|..] == "B" && "B" !in SHARED;
  }

  lemma ClashingKept(deps: set<string>)
    ensures KeptRef(ClashingDefinitions(), [Entry("B", Bool(true))], deps, SHARED[0], "#/definitions/B")
  {
    PointerRef();
  }

  lemma ClashDisagrees(defs: seq<Entry>, v2: seq<Entry>, deps: set<string>, name: string, r: string, kept: Json, lost: Json)
    requires KeptRef(defs, v2, deps, name, r) && Displacing(defs, v2, r) == Some(kept) && Resolve(defs, v2, r) == Some(lost)
    requires Rewrite(kept) != Rewrite(lost)
    ensures !ClashesAgree(defs, v2, deps)
  {
    assert !ClashAgrees(defs, v2, r);
  }

  /** There the reference of the shared definition changes its meaning. */
  lemma ClashExample(deps: set<string>)
    ensures var defs, v2 := ClashingDefinitions(), [Entry("B", Bool(true))];
            ClosedBundle([Entry("definitions", Obj(defs))], defs, v2) && !ClashesAgree(defs, v2, deps)
  {
    ClashingClosed();
    ClashingValues();
    ClashingKept(deps);
    ClashDisagrees(ClashingDefinitions(), [Entry("B", Bool(true))], deps, SHARED[0], "#/definitions/B", Bool(true), Null);
  }
}
