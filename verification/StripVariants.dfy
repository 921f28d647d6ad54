/** Dropping union variants by method, then every local definition that is no longer reachable. */
module StripVariants {
  import opened Text
  import opened Sequences
  import opened Json
  import opened SchemaRefs
  import opened Reachability

  function StringAt(v: Json, key: string): Option<string> {
    if !v.Obj? then None
    else
      match Get(v.entries, key)
      case Some(Str(s)) => Some(s)
      case _ => None
  }

  /** The literal a property schema pins its value to. */
  function StringLiteral(v: Json): Option<string> {
    if StringAt(v, "const").Some? then StringAt(v, "const")
    else if !v.Obj? then None
    else
      match Get(v.entries, "enum")
      case Some(Arr(values)) => if values != [] && values[0].Str? then Some(values[0].s) else None
      case _ => None
  }

  predicate IsMethodVariant(v: Json, methods: set<string>) {
    v.Obj? &&
    match Get(v.entries, "properties")
    case Some(Obj(properties)) =>
      (match Get(properties, "method")
       case Some(schema) => StringLiteral(schema).Some? && StringLiteral(schema).value in methods
       case None => false)
    case _ => false
  }

  // ----- which variants a method names -----

  /** `v` is an object with `w` under `key`. */
  predicate Has(v: Json, key: string, w: Json) {
    v.Obj? && Get(v.entries, key) == Some(w)
  }

  /** The schema pins its value to `m`: by a `const`, or by the first value of an `enum` where no `const` is a string. */
  ghost predicate Pins(schema: Json, m: string) {
    || Has(schema, "const", Str(m))
    || ((forall s :: !Has(schema, "const", Str(s))) && exists rest :: Has(schema, "enum", Arr([Str(m)] + rest)))
  }

  /** The variant's `method` property is pinned to `m`. */
  ghost predicate NamesMethod(v: Json, m: string) {
    exists properties, schema :: Has(v, "properties", Obj(properties)) && Get(properties, "method") == Some(schema) && Pins(schema, m)
  }

  lemma LiteralExactly(schema: Json, m: string)
    ensures StringLiteral(schema) == Some(m) <==> Pins(schema, m)
  {
    if schema.Obj? {
      match Get(schema.entries, "enum") {
        case Some(Arr(values)) =>
          if values != [] {
            assert values == [values[0]] + values[1..];
          }
        case _ =>
      }
      if StringAt(schema, "const").Some? {
        assert Has(schema, "const", Str(StringAt(schema, "const").value));
      }
    }
  }

  /** A variant is stripped exactly when it names one of the methods. */
  lemma VariantExactly(v: Json, methods: set<string>)
    ensures IsMethodVariant(v, methods) <==> exists m :: m in methods && NamesMethod(v, m)
  {
    forall schema, m ensures StringLiteral(schema) == Some(m) <==> Pins(schema, m) {
      LiteralExactly(schema, m);
    }
    if IsMethodVariant(v, methods) {
      var properties := Get(v.entries, "properties").value.entries;
      var schema := Get(properties, "method").value;
      assert Has(v, "properties", Obj(properties)) && Pins(schema, StringLiteral(schema).value);
      assert NamesMethod(v, StringLiteral(schema).value);
    }
  }

  predicate IsMapKey(key: string) {
    key == "definitions" || key == "$defs"
  }

  /** The local definition an object refers to itself, by the first segment of its path. */
  function NameHere(v: Json): set<string> {
    match RefHere(v)
    case Some(r) => if StartsWith(r, DEFINITIONS) then {Before(r[|DEFINITIONS|..], '/')} else {}
    case None => {}
  }

  /** Local definitions referred to at any depth; `skip` leaves out the definition maps. */
  function Names(v: Json, skip: bool): set<string>
    decreases v, 1
  {
    NameHere(v) +
    match v
    case Arr(items) => NamesOfItems(items, skip)
    case Obj(entries) => NamesOfEntries(entries, skip)
    case _ => {}
  }

  function NamesOfItems(items: seq<Json>, skip: bool): set<string>
    decreases items, 0
  {
    if items == [] then {}
    else NamesOfItems(items[..|items| - 1], skip) + Names(items[|items| - 1], skip)
  }

  function NamesOfEntries(entries: seq<Entry>, skip: bool): set<string>
    decreases entries, 0
  {
    if entries == [] then {}
    else
      var last := entries[|entries| - 1];
      NamesOfEntries(entries[..|entries| - 1], skip) +
      if skip && IsMapKey(last.key) then {} else Names(last.value, skip)
  }

  function LocalGraph(defs: seq<Entry>): Graph {
    (name: string) => match Get(defs, name) case Some(schema) => Names(schema, false) case None => {}
  }

  // ----- collecting into a shared queue and set -----

  ghost predicate Collected(queue: seq<string>, reachable: set<string>, names: set<string>,
                            queue': seq<string>, reachable': set<string>) {
    && reachable' == reachable + names
    && Pending(queue') == Pending(queue) + (names - reachable)
    && |queue'| >= |queue|
    && (names <= reachable ==> queue' == queue)
  }

  lemma CollectedTwice(q0: seq<string>, r0: set<string>, a: set<string>, q1: seq<string>, r1: set<string>,
                       b: set<string>, q2: seq<string>, r2: set<string>)
    requires Collected(q0, r0, a, q1, r1) && Collected(q1, r1, b, q2, r2)
    ensures Collected(q0, r0, a + b, q2, r2)
  {
  }

  method CollectRefHere(v: Json, queue: seq<string>, reachable: set<string>)
    returns (queue': seq<string>, reachable': set<string>)
    ensures Collected(queue, reachable, NameHere(v), queue', reachable')
  {
    queue', reachable' := queue, reachable;
    var reference := RefHere(v);
    if reference.Some? && StartsWith(reference.value, DEFINITIONS) {
      var name := Before(reference.value[|DEFINITIONS|..], '/');
      if name !in reachable {
        reachable' := reachable + {name};
        queue' := queue + [name];
        PendingAppend(queue, [name]);
      }
    }
  }

  /** Everything below `v`, the reference of `v` first. */
  method CollectRefs(v: Json, queue: seq<string>, reachable: set<string>)
    returns (queue': seq<string>, reachable': set<string>)
    ensures Collected(queue, reachable, Names(v, false), queue', reachable')
    decreases v, 1
  {
    queue', reachable' := CollectRefHere(v, queue, reachable);
    ghost var q, r := queue', reachable';
    match v {
      case Arr(items) =>
        queue', reachable' := CollectItemRefs(items, queue', reachable');
        CollectedTwice(queue, reachable, NameHere(v), q, r, NamesOfItems(items, false), queue', reachable');
      case Obj(entries) =>
        queue', reachable' := CollectEntryRefs(entries, queue', reachable');
        CollectedTwice(queue, reachable, NameHere(v), q, r, NamesOfEntries(entries, false), queue', reachable');
      case _ =>
    }
  }

  method CollectItemRefs(items: seq<Json>, queue: seq<string>, reachable: set<string>)
    returns (queue': seq<string>, reachable': set<string>)
    ensures Collected(queue, reachable, NamesOfItems(items, false), queue', reachable')
    decreases items, 0
  {
    queue', reachable' := queue, reachable;
    var n := 0;
    while n < |items|
      invariant 0 <= n <= |items|
      invariant Collected(queue, reachable, NamesOfItems(items[..n], false), queue', reachable')
    {
      ghost var q, r := queue', reachable';
      queue', reachable' := CollectRefs(items[n], queue', reachable');
      CollectedTwice(queue, reachable, NamesOfItems(items[..n], false), q, r, Names(items[n], false), queue', reachable');
      assert items[..n + 1][..n] == items[..n];
      n := n + 1;
    }
    assert items[..n] == items;
  }

  method CollectEntryRefs(entries: seq<Entry>, queue: seq<string>, reachable: set<string>)
    returns (queue': seq<string>, reachable': set<string>)
    ensures Collected(queue, reachable, NamesOfEntries(entries, false), queue', reachable')
    decreases entries, 0
  {
    queue', reachable' := queue, reachable;
    var n := 0;
    while n < |entries|
      invariant 0 <= n <= |entries|
      invariant Collected(queue, reachable, NamesOfEntries(entries[..n], false), queue', reachable')
    {
      ghost var q, r := queue', reachable';
      queue', reachable' := CollectRefs(entries[n].value, queue', reachable');
      CollectedTwice(queue, reachable, NamesOfEntries(entries[..n], false), q, r, Names(entries[n].value, false), queue', reachable');
      assert entries[..n + 1][..n] == entries[..n];
      n := n + 1;
    }
    assert entries[..n] == entries;
  }

  /** Everything outside the definition maps, the reference of `v` last. */
  method CollectRefsExcludingMaps(v: Json, queue: seq<string>, reachable: set<string>)
    returns (queue': seq<string>, reachable': set<string>)
    ensures Collected(queue, reachable, Names(v, true), queue', reachable')
    decreases v, 1
  {
    queue', reachable' := queue, reachable;
    ghost var names := {};
    match v {
      case Arr(items) =>
        queue', reachable' := CollectItemsExcludingMaps(items, queue, reachable);
        names := NamesOfItems(items, true);
      case Obj(entries) =>
        queue', reachable' := CollectEntriesExcludingMaps(entries, queue, reachable);
        names := NamesOfEntries(entries, true);
      case _ =>
    }
    ghost var q, r := queue', reachable';
    queue', reachable' := CollectRefHere(v, queue', reachable');
    CollectedTwice(queue, reachable, names, q, r, NameHere(v), queue', reachable');
    assert names + NameHere(v) == Names(v, true);
  }

  method CollectItemsExcludingMaps(items: seq<Json>, queue: seq<string>, reachable: set<string>)
    returns (queue': seq<string>, reachable': set<string>)
    ensures Collected(queue, reachable, NamesOfItems(items, true), queue', reachable')
    decreases items, 0
  {
    queue', reachable' := queue, reachable;
    var n := 0;
    while n < |items|
      invariant 0 <= n <= |items|
      invariant Collected(queue, reachable, NamesOfItems(items[..n], true), queue', reachable')
    {
      ghost var q, r := queue', reachable';
      queue', reachable' := CollectRefsExcludingMaps(items[n], queue', reachable');
      CollectedTwice(queue, reachable, NamesOfItems(items[..n], true), q, r, Names(items[n], true), queue', reachable');
      assert items[..n + 1][..n] == items[..n];
      n := n + 1;
    }
    assert items[..n] == items;
  }

  method CollectEntriesExcludingMaps(entries: seq<Entry>, queue: seq<string>, reachable: set<string>)
    returns (queue': seq<string>, reachable': set<string>)
    ensures Collected(queue, reachable, NamesOfEntries(entries, true), queue', reachable')
    decreases entries, 0
  {
    queue', reachable' := queue, reachable;
    var n := 0;
    while n < |entries|
      invariant 0 <= n <= |entries|
      invariant Collected(queue, reachable, NamesOfEntries(entries[..n], true), queue', reachable')
    {
      ghost var q, r := queue', reachable';
      assert entries[..n + 1][..n] == entries[..n];
      if !IsMapKey(entries[n].key) {
        queue', reachable' := CollectRefsExcludingMaps(entries[n].value, queue', reachable');
        CollectedTwice(queue, reachable, NamesOfEntries(entries[..n], true), q, r, Names(entries[n].value, true), queue', reachable');
      }
      n := n + 1;
    }
    assert entries[..n] == entries;
  }

  // ----- the reachability worklist -----

  ghost predicate ReachInvariant(graph: Graph, roots: set<string>, reachable: set<string>, queue: seq<string>) {
    && roots <= reachable && Pending(queue) <= reachable
    && (forall n :: n in reachable ==> n in Pending(queue) || graph(n) <= reachable)
    && (forall t :: roots <= t && ClosedUnder(graph, t) ==> reachable <= t)
  }

  lemma ReachStep(graph: Graph, roots: set<string>, reachable: set<string>, queue: seq<string>, name: string,
                  reachable': set<string>, queue': seq<string>)
    requires ReachInvariant(graph, roots, reachable, queue + [name])
    requires Collected(queue, reachable, graph(name), queue', reachable')
    ensures ReachInvariant(graph, roots, reachable', queue')
  {
    PendingAppend(queue, [name]);
    forall t | roots <= t && ClosedUnder(graph, t) ensures reachable' <= t {
      assert name in t;
      assert graph(name) <= t;
    }
  }

  ghost function ReachUniverse(defs: seq<Entry>, roots: set<string>): (u: set<string>)
    ensures roots <= u
    ensures forall n :: LocalGraph(defs)(n) <= u
  {
    var u := roots + set e, n | e in defs && n in Names(e.value, false) :: n;
    assert forall n :: LocalGraph(defs)(n) <= u by {
      forall n ensures LocalGraph(defs)(n) <= u {
        if Get(defs, n).Some? {
          assert Entry(n, Get(defs, n).value) in defs;
        }
      }
    }
    u
  }

  function LocalDefinitions(v: Json): Option<seq<Entry>> {
    if !v.Obj? then None
    else
      match Get(v.entries, "definitions")
      case Some(Obj(defs)) => Some(defs)
      case _ => None
  }

  /** Terminates on cyclic definitions and returns the least set reachable from outside the maps. */
  method ReachableLocalDefinitions(schema: Json) returns (reachable: set<string>)
    ensures LocalDefinitions(schema).Some? ==>
              LeastClosed(LocalGraph(LocalDefinitions(schema).value), Names(schema, true), reachable)
  {
    reachable := {};
    if LocalDefinitions(schema).None? {
      return;
    }
    var queue := [];
    queue, reachable := CollectRefsExcludingMaps(schema, queue, reachable);
    reachable := DrainQueue(LocalDefinitions(schema).value, Names(schema, true), queue, reachable);
  }

  lemma ReachStart(graph: Graph, roots: set<string>, queue: seq<string>)
    requires Pending(queue) == roots
    ensures ReachInvariant(graph, roots, roots, queue)
  {
  }

  lemma ReachDone(graph: Graph, roots: set<string>, reachable: set<string>)
    requires ReachInvariant(graph, roots, reachable, [])
    ensures LeastClosed(graph, roots, reachable)
  {
    assert Pending([]) == {};
  }

  lemma Progress(universe: set<string>, reachable: set<string>, found: set<string>, reachable': set<string>)
    requires reachable <= universe && found <= universe && reachable' == reachable + found
    ensures reachable' <= universe
    ensures found <= reachable ==> reachable' == reachable
    ensures !(found <= reachable) ==> universe - reachable' < universe - reachable
  {
    if !(found <= reachable) {
      var x :| x in found && x !in reachable;
      assert x in universe - reachable && x !in universe - reachable';
    }
  }

  /** One visit keeps the invariant and shrinks what is left to do. */
  lemma DrainStep(graph: Graph, roots: set<string>, universe: set<string>, queue: seq<string>, reachable: set<string>,
                  queue': seq<string>, reachable': set<string>)
    requires queue != [] && ReachInvariant(graph, roots, reachable, queue) && reachable <= universe
    requires graph(queue[|queue| - 1]) <= universe
    requires Collected(queue[..|queue| - 1], reachable, graph(queue[|queue| - 1]), queue', reachable')
    ensures ReachInvariant(graph, roots, reachable', queue') && reachable' <= universe
    ensures universe - reachable' < universe - reachable || (reachable' == reachable && |queue'| < |queue|)
  {
    var name, rest := queue[|queue| - 1], queue[..|queue| - 1];
    assert queue == rest + [name];
    ReachStep(graph, roots, reachable, rest, name, reachable', queue');
    Progress(universe, reachable, graph(name), reachable');
  }

  method DrainQueue(defs: seq<Entry>, ghost roots: set<string>, queue0: seq<string>, reachable0: set<string>)
    returns (reachable: set<string>)
    requires reachable0 == roots && Pending(queue0) == roots
    ensures LeastClosed(LocalGraph(defs), roots, reachable)
  {
    var queue := queue0;
    reachable := reachable0;
    ghost var universe := ReachUniverse(defs, roots);
    ReachStart(LocalGraph(defs), roots, queue);
    while queue != []
      invariant ReachInvariant(LocalGraph(defs), roots, reachable, queue)
      invariant reachable <= universe
      decreases universe - reachable, |queue|
    {
      var queue', reachable' := Visit(defs, queue[|queue| - 1], queue[..|queue| - 1], reachable);
      DrainStep(LocalGraph(defs), roots, universe, queue, reachable, queue', reachable');
      queue, reachable := queue', reachable';
    }
    ReachDone(LocalGraph(defs), roots, reachable);
  }

  method Visit(defs: seq<Entry>, name: string, queue: seq<string>, reachable: set<string>)
    returns (queue': seq<string>, reachable': set<string>)
    ensures Collected(queue, reachable, LocalGraph(defs)(name), queue', reachable')
  {
    if Get(defs, name).Some? {
      queue', reachable' := CollectRefs(Get(defs, name).value, queue, reachable);
    } else {
      queue', reachable' := queue, reachable;
    }
  }

  // ----- stripping -----

  function KeepVariants(variants: seq<Json>, methods: set<string>): (r: seq<Json>)
    ensures forall v :: v in r <==> v in variants && !IsMethodVariant(v, methods)
  {
    if variants == [] then []
    else
      var n := |variants| - 1;
      assert variants == variants[..n] + [variants[n]];
      KeepVariants(variants[..n], methods) + if IsMethodVariant(variants[n], methods) then [] else [variants[n]]
  }

  function KeepDefinitions(defs: seq<Entry>, names: set<string>): (r: seq<Entry>)
    ensures forall e :: e in r <==> e in defs && e.key in names
    ensures UniqueKeys(defs) ==> UniqueKeys(r)
  {
    if defs == [] then []
    else
      var n := |defs| - 1;
      assert defs == defs[..n] + [defs[n]];
      KeepDefinitions(defs[..n], names) + if defs[n].key in names then [defs[n]] else []
  }

  /** The root object once its `oneOf` is filtered. */
  function FilteredRoot(root: seq<Entry>, variants: seq<Json>, methods: set<string>): seq<Entry> {
    Put(root, "oneOf", Arr(KeepVariants(variants, methods)))
  }

  function Variants(v: Json): Option<seq<Json>> {
    if !v.Obj? then None
    else
      match Get(v.entries, "oneOf")
      case Some(Arr(variants)) => Some(variants)
      case _ => None
  }

  /** Without a root `oneOf` nothing changes; with one, exactly the reachable definitions stay. */
  method StripMethodVariants(schema: Json, methods: set<string>) returns (r: Json, ghost reach: set<string>)
    ensures Variants(schema).None? ==> r == schema
    ensures Variants(schema).Some? ==> Stripped(schema, methods, reach, r)
  {
    reach := {};
    if Variants(schema).None? {
      return schema, reach;
    }
    var root := FilteredRoot(schema.entries, Variants(schema).value, methods);
    var reachable := ReachableLocalDefinitions(Obj(root));
    reach := reachable;
    match LocalDefinitions(Obj(root)) {
      case Some(defs) => r := Obj(Put(root, "definitions", Obj(KeepDefinitions(defs, reachable))));
      case None => r := Obj(root);
    }
  }

  ghost predicate Stripped(schema: Json, methods: set<string>, reach: set<string>, r: Json) {
    && Variants(schema).Some?
    && var root := FilteredRoot(schema.entries, Variants(schema).value, methods);
    match LocalDefinitions(Obj(root))
    case Some(defs) =>
      && LeastClosed(LocalGraph(defs), Names(Obj(root), true), reach)
      && r == Obj(Put(root, "definitions", Obj(KeepDefinitions(defs, reach))))
    case None => r == Obj(root)
  }

  // ----- what stripping leaves -----

  /** The variant names none of the methods. */
  ghost predicate Unlisted(v: Json, methods: set<string>) {
    forall m :: m in methods ==> !NamesMethod(v, m)
  }

  /** Exactly the variants that name no listed method, in their order. */
  ghost predicate KeepsUnlisted(variants: seq<Json>, kept: seq<Json>, methods: set<string>) {
    Filtered((v: Json) => Unlisted(v, methods), kept, variants)
  }

  lemma {:induction false} KeepVariantsExactly(variants: seq<Json>, methods: set<string>)
    ensures KeepsUnlisted(variants, KeepVariants(variants, methods), methods)
  {
    var keep := (v: Json) => Unlisted(v, methods);
    if variants == [] {
      FilteredEmpty(keep);
    } else {
      var n := |variants| - 1;
      var before, v := variants[..n], variants[n];
      KeepVariantsExactly(before, methods);
      VariantExactly(v, methods);
      FilteredSnoc(keep, KeepVariants(before, methods), before, v);
      assert variants == before + [v];
    }
  }

  /** Exactly the definitions in the set, in their order. */
  ghost predicate KeepsReachable(defs: seq<Entry>, kept: seq<Entry>, reach: set<string>) {
    Filtered((e: Entry) => e.key in reach, kept, defs)
  }

  lemma {:induction false} KeepDefinitionsExactly(defs: seq<Entry>, reach: set<string>)
    ensures KeepsReachable(defs, KeepDefinitions(defs, reach), reach)
  {
    var keep := (e: Entry) => e.key in reach;
    if defs == [] {
      FilteredEmpty(keep);
    } else {
      var n := |defs| - 1;
      var before, e := defs[..n], defs[n];
      KeepDefinitionsExactly(before, reach);
      FilteredSnoc(keep, KeepDefinitions(before, reach), before, e);
      assert defs == before + [e];
    }
  }

  lemma StrippedGet(root: seq<Entry>, variants: seq<Json>, methods: set<string>, reach: set<string>, r: Json, key: string)
    requires Get(root, "oneOf") == Some(Arr(variants)) && Stripped(Obj(root), methods, reach, r)
    ensures r.Obj?
    ensures key == "oneOf" ==> Get(r.entries, key) == Some(Arr(KeepVariants(variants, methods)))
    ensures key != "oneOf" && key != "definitions" ==> Get(r.entries, key) == Get(root, key)
  {
    var filtered := FilteredRoot(root, variants, methods);
    PutGet(root, "oneOf", Arr(KeepVariants(variants, methods)), key);
    match LocalDefinitions(Obj(filtered)) {
      case None =>
      case Some(defs) => PutGet(filtered, "definitions", Obj(KeepDefinitions(defs, reach)), key);
    }
  }

  lemma FilteredDefinitions(root: seq<Entry>, variants: seq<Json>, methods: set<string>)
    ensures Get(FilteredRoot(root, variants, methods), "definitions") == Get(root, "definitions")
    ensures forall defs :: LocalDefinitions(Obj(FilteredRoot(root, variants, methods))) == Some(defs) <==> Get(root, "definitions") == Some(Obj(defs))
  {
    assert |"oneOf"| != |"definitions"|;
    PutGet(root, "oneOf", Arr(KeepVariants(variants, methods)), "definitions");
  }

  lemma StrippedDefinitions(root: seq<Entry>, variants: seq<Json>, methods: set<string>, reach: set<string>, r: Json)
    requires Get(root, "oneOf") == Some(Arr(variants)) && Stripped(Obj(root), methods, reach, r)
    ensures r.Obj?
    ensures forall defs :: Get(root, "definitions") == Some(Obj(defs)) ==> Get(r.entries, "definitions") == Some(Obj(KeepDefinitions(defs, reach)))
    ensures (forall defs :: Get(root, "definitions") != Some(Obj(defs))) ==> Get(r.entries, "definitions") == Get(root, "definitions")
  {
    FilteredDefinitions(root, variants, methods);
    var filtered := FilteredRoot(root, variants, methods);
    var local := LocalDefinitions(Obj(filtered));
    if local.Some? {
      PutGet(filtered, "definitions", Obj(KeepDefinitions(local.value, reach)), "definitions");
      assert Get(root, "definitions") == Some(Obj(local.value));
    }
  }

  /**
   * In the result the `oneOf` holds exactly the variants that name no listed method, and the
   * definition map exactly the reachable definitions, both in their order; nothing else changes.
   */
  lemma StrippedExactly(root: seq<Entry>, variants: seq<Json>, methods: set<string>, reach: set<string>, r: Json)
    requires Get(root, "oneOf") == Some(Arr(variants)) && Stripped(Obj(root), methods, reach, r)
    ensures r.Obj? && exists kept :: Get(r.entries, "oneOf") == Some(Arr(kept)) && KeepsUnlisted(variants, kept, methods)
    ensures forall key :: key != "oneOf" && key != "definitions" ==> Get(r.entries, key) == Get(root, key)
    ensures forall defs :: Get(root, "definitions") == Some(Obj(defs)) ==>
      exists left :: Get(r.entries, "definitions") == Some(Obj(left)) && KeepsReachable(defs, left, reach)
    ensures (forall defs :: Get(root, "definitions") != Some(Obj(defs))) ==> Get(r.entries, "definitions") == Get(root, "definitions")
  {
    StrippedGet(root, variants, methods, reach, r, "oneOf");
    KeepVariantsExactly(variants, methods);
    forall key | key != "oneOf" && key != "definitions" ensures Get(r.entries, key) == Get(root, key) {
      StrippedGet(root, variants, methods, reach, r, key);
    }
    StrippedDefinitions(root, variants, methods, reach, r);
    forall defs | Get(root, "definitions") == Some(Obj(defs))
      ensures exists left :: Get(r.entries, "definitions") == Some(Obj(left)) && KeepsReachable(defs, left, reach)
    {
      KeepDefinitionsExactly(defs, reach);
    }
  }

  // ----- dangling references -----

  /** Every local reference anywhere names a definition that is there. */
  ghost predicate NoDangling(v: Json) {
    forall n :: n in Names(v, false) ==> LocalDefinitions(v).Some? && Get(LocalDefinitions(v).value, n).Some?
  }

  /** Names used outside the root definitions, with nothing skipped. */
  ghost function OutsideNames(root: seq<Entry>): set<string> {
    NameHere(Obj(root)) + NamesOfEntries(Outside(root), false)
  }

  function Outside(root: seq<Entry>): (r: seq<Entry>)
    ensures forall e :: e in r <==> e in root && e.key != "definitions"
  {
    if root == [] then []
    else
      var n := |root| - 1;
      assert root == root[..n] + [root[n]];
      Outside(root[..n]) + if root[n].key == "definitions" then [] else [root[n]]
  }

  lemma {:induction false} NamesOfEntriesMember(entries: seq<Entry>, e: Entry, skip: bool)
    requires e in entries && !(skip && IsMapKey(e.key))
    ensures Names(e.value, skip) <= NamesOfEntries(entries, skip)
  {
    var n := |entries| - 1;
    if entries[n] != e {
      assert entries == entries[..n] + [entries[n]];
      NamesOfEntriesMember(entries[..n], e, skip);
    }
  }

  lemma {:induction false} NamesOfEntriesOrigin(entries: seq<Entry>, name: string, skip: bool) returns (e: Entry)
    requires name in NamesOfEntries(entries, skip)
    ensures e in entries && !(skip && IsMapKey(e.key)) && name in Names(e.value, skip)
  {
    var n := |entries| - 1;
    assert entries == entries[..n] + [entries[n]];
    if name in NamesOfEntries(entries[..n], skip) {
      e := NamesOfEntriesOrigin(entries[..n], name, skip);
    } else {
      e := entries[n];
    }
  }

  /** Names are those outside plus those of the definitions. */
  lemma NamesOfRoot(root: seq<Entry>, defs: seq<Entry>)
    requires UniqueKeys(root) && Get(root, "definitions") == Some(Obj(defs))
    ensures Names(Obj(root), false) == OutsideNames(root) + Names(Obj(defs), false)
  {
    forall name | name in Names(Obj(root), false) ensures name in OutsideNames(root) + Names(Obj(defs), false) {
      if name !in NameHere(Obj(root)) {
        var e := NamesOfEntriesOrigin(root, name, false);
        if e.key == "definitions" {
          GetMember(root, e);
        } else {
          NamesOfEntriesMember(Outside(root), e, false);
        }
      }
    }
    NamesOfEntriesMember(root, Entry("definitions", Obj(defs)), false);
    forall name | name in OutsideNames(root) ensures name in Names(Obj(root), false) {
      if name !in NameHere(Obj(root)) {
        var e := NamesOfEntriesOrigin(Outside(root), name, false);
        NamesOfEntriesMember(root, e, false);
      }
    }
  }

  lemma KeepDefinitionsGet(defs: seq<Entry>, names: set<string>, name: string)
    requires UniqueKeys(defs)
    ensures Get(KeepDefinitions(defs, names), name) == if name in names then Get(defs, name) else None
  {
    var kept := KeepDefinitions(defs, names);
    if name in names && Get(defs, name).Some? {
      GetMember(kept, Entry(name, Get(defs, name).value));
    }
  }

  lemma PutReplaces(root: seq<Entry>, key: string, v: Json)
    requires UniqueKeys(root) && Get(root, key).Some?
    ensures UniqueKeys(Put(root, key, v))
    ensures key == "definitions" ==> forall e :: e in Outside(Put(root, key, v)) <==> e in Outside(root)
    ensures forall other :: Get(Put(root, key, v), other) == if other == key then Some(v) else Get(root, other)
  {
    PutMembers(root, key, v);
    forall other ensures Get(Put(root, key, v), other) == if other == key then Some(v) else Get(root, other) {
      PutGet(root, key, v, other);
    }
  }

  lemma SameOutsideNames(a: seq<Entry>, b: seq<Entry>)
    requires forall e :: e in Outside(a) <==> e in Outside(b)
    requires RefHere(Obj(a)) == RefHere(Obj(b))
    ensures OutsideNames(a) == OutsideNames(b)
  {
    forall name | name in NamesOfEntries(Outside(a), false) ensures name in NamesOfEntries(Outside(b), false) {
      var e := NamesOfEntriesOrigin(Outside(a), name, false);
      NamesOfEntriesMember(Outside(b), e, false);
    }
    forall name | name in NamesOfEntries(Outside(b), false) ensures name in NamesOfEntries(Outside(a), false) {
      var e := NamesOfEntriesOrigin(Outside(b), name, false);
      NamesOfEntriesMember(Outside(a), e, false);
    }
  }

  /** Names used inside the kept definitions are reachable. */
  lemma KeptNames(defs: seq<Entry>, roots: set<string>, reach: set<string>)
    requires UniqueKeys(defs) && LeastClosed(LocalGraph(defs), roots, reach)
    ensures NamesOfEntries(KeepDefinitions(defs, reach), false) <= reach
    ensures Names(Obj(KeepDefinitions(defs, reach)), false) <= Names(Obj(defs), false)
  {
    var kept := KeepDefinitions(defs, reach);
    KeptStray(defs, reach);
    forall name | name in NamesOfEntries(kept, false) ensures name in reach && name in NamesOfEntries(defs, false) {
      var e := NamesOfEntriesOrigin(kept, name, false);
      GetMember(defs, e);
      assert LocalGraph(defs)(e.key) <= reach;
      NamesOfEntriesMember(defs, e, false);
    }
  }

  lemma KeptStray(defs: seq<Entry>, reach: set<string>)
    requires UniqueKeys(defs)
    ensures NameHere(Obj(KeepDefinitions(defs, reach))) <= NameHere(Obj(defs))
  {
    KeepDefinitionsGet(defs, reach, "$ref");
  }

  ghost function StrippedRoot(root: seq<Entry>, defs: seq<Entry>, reach: set<string>): seq<Entry> {
    Put(root, "definitions", Obj(KeepDefinitions(defs, reach)))
  }

  lemma StrippedRootNames(root: seq<Entry>, defs: seq<Entry>, reach: set<string>)
    requires UniqueKeys(root) && Get(root, "definitions") == Some(Obj(defs)) && UniqueKeys(defs)
    ensures var kept := KeepDefinitions(defs, reach); var out := StrippedRoot(root, defs, reach);
            && LocalDefinitions(Obj(out)) == Some(kept)
            && Names(Obj(out), false) == OutsideNames(root) + Names(Obj(kept), false)
  {
    var kept := KeepDefinitions(defs, reach);
    var out := StrippedRoot(root, defs, reach);
    PutReplaces(root, "definitions", Obj(kept));
    assert RefHere(Obj(out)) == RefHere(Obj(root));
    SameOutsideNames(out, root);
    NamesOfRoot(out, kept);
  }

  /** The name a `$ref` lying directly in the kept definition map refers to. */
  ghost function StrayName(defs: seq<Entry>, reach: set<string>): set<string> {
    NameHere(Obj(KeepDefinitions(defs, reach)))
  }

  lemma KeptPresent(defs: seq<Entry>, reach: set<string>, names: set<string>)
    requires UniqueKeys(defs) && forall n :: n in names ==> Get(defs, n).Some?
    ensures (forall n :: n in names ==> Get(KeepDefinitions(defs, reach), n).Some?) <==> names <= reach
  {
    forall n ensures Get(KeepDefinitions(defs, reach), n).Some? <==> n in reach && Get(defs, n).Some? {
      KeepDefinitionsGet(defs, reach, n);
    }
  }

  /** Once the variants are filtered, what remains is closed exactly when every name used outside the map is kept. */
  lemma RestrictedExactly(root: seq<Entry>, defs: seq<Entry>, reach: set<string>)
    requires UniqueKeys(root) && Get(root, "definitions") == Some(Obj(defs)) && UniqueKeys(defs)
    requires NoDangling(Obj(root))
    requires LeastClosed(LocalGraph(defs), Names(Obj(root), true), reach)
    ensures NoDangling(Obj(StrippedRoot(root, defs, reach))) <==> OutsideNames(root) + StrayName(defs, reach) <= reach
  {
    var kept := KeepDefinitions(defs, reach);
    StrippedRootNames(root, defs, reach);
    NamesOfRoot(root, defs);
    KeptNames(defs, Names(Obj(root), true), reach);
    assert LocalDefinitions(Obj(root)) == Some(defs);
    KeptPresent(defs, reach, OutsideNames(root) + Names(Obj(kept), false));
  }

  // ----- names the search does not see -----

  /** Names referred to only from within definition maps nested in `v`. */
  function HiddenNames(v: Json): set<string>
    decreases v, 1
  {
    match v
    case Arr(items) => HiddenInItems(items)
    case Obj(entries) => HiddenInEntries(entries)
    case _ => {}
  }

  function HiddenInItems(items: seq<Json>): set<string>
    decreases items, 0
  {
    if items == [] then {} else HiddenInItems(items[..|items| - 1]) + HiddenNames(items[|items| - 1])
  }

  function HiddenInEntries(entries: seq<Entry>): set<string>
    decreases entries, 0
  {
    if entries == [] then {}
    else
      var last := entries[|entries| - 1];
      HiddenInEntries(entries[..|entries| - 1]) + if IsMapKey(last.key) then Names(last.value, false) else HiddenNames(last.value)
  }

  lemma {:induction false} SeenOrHidden(v: Json)
    ensures Names(v, false) == Names(v, true) + HiddenNames(v)
    decreases v, 1
  {
    match v {
      case Arr(items) => SeenOrHiddenItems(items);
      case Obj(entries) => SeenOrHiddenEntries(entries);
      case _ =>
    }
  }

  lemma {:induction false} SeenOrHiddenItems(items: seq<Json>)
    ensures NamesOfItems(items, false) == NamesOfItems(items, true) + HiddenInItems(items)
    decreases items, 0
  {
    if items != [] {
      SeenOrHiddenItems(items[..|items| - 1]);
      SeenOrHidden(items[|items| - 1]);
    }
  }

  lemma {:induction false} SeenOrHiddenEntries(entries: seq<Entry>)
    ensures NamesOfEntries(entries, false) == NamesOfEntries(entries, true) + HiddenInEntries(entries)
    decreases entries, 0
  {
    if entries != [] {
      SeenOrHiddenEntries(entries[..|entries| - 1]);
      SeenOrHidden(entries[|entries| - 1].value);
    }
  }

  lemma {:induction false} OutsideSeen(root: seq<Entry>)
    ensures NamesOfEntries(Outside(root), true) == NamesOfEntries(root, true)
  {
    if root != [] {
      var n := |root| - 1;
      OutsideSeen(root[..n]);
      var rest := Outside(root[..n]);
      if root[n].key == "definitions" {
        assert Outside(root) == rest;
      } else {
        assert Outside(root) == rest + [root[n]];
        assert (rest + [root[n]])[..|rest|] == rest;
      }
    }
  }

  /** Everything the search starts from is reachable, so only hidden names can be missed. */
  lemma OnlyHiddenMissed(root: seq<Entry>, reach: set<string>)
    requires Names(Obj(root), true) <= reach
    ensures OutsideNames(root) <= reach <==> HiddenInEntries(Outside(root)) <= reach
  {
    SeenOrHiddenEntries(Outside(root));
    OutsideSeen(root);
  }

  /** The names the stripped schema uses that the search never looked at. */
  ghost function UnseenNames(root: seq<Entry>, variants: seq<Json>, methods: set<string>, reach: set<string>): set<string>
    requires LocalDefinitions(Obj(root)).Some?
  {
    HiddenInEntries(Outside(FilteredRoot(root, variants, methods))) + StrayName(LocalDefinitions(Obj(root)).value, reach)
  }

  /**
   * Exactly when stripping a closed schema leaves it closed: every name used under a definition map
   * nested in what is kept outside the root one must be reachable as well.
   */
  lemma StripDanglingExactly(root: seq<Entry>, variants: seq<Json>, methods: set<string>, reach: set<string>, r: Json)
    requires Valid(Obj(root)) && Get(root, "oneOf") == Some(Arr(variants)) && NoDangling(Obj(root))
    requires Stripped(Obj(root), methods, reach, r)
    ensures LocalDefinitions(Obj(root)).Some? ==> (NoDangling(r) <==> UnseenNames(root, variants, methods, reach) <= reach)
    ensures LocalDefinitions(Obj(root)).None? ==> NoDangling(r)
  {
    var filtered := FilteredRoot(root, variants, methods);
    FilteredNoDangling(root, variants, methods);
    FilteredKeepsDefinitions(root, variants, methods);
    if LocalDefinitions(Obj(root)).Some? {
      var defs := LocalDefinitions(Obj(root)).value;
      DefinitionsUnique(root, defs);
      RestrictedExactly(filtered, defs, reach);
      OnlyHiddenMissed(filtered, reach);
    }
  }

  /** A hidden name that is not also reachable always ends up dangling. */
  lemma HiddenReferenceDangles(root: seq<Entry>, variants: seq<Json>, methods: set<string>, reach: set<string>, r: Json, name: string)
    requires Valid(Obj(root)) && Get(root, "oneOf") == Some(Arr(variants)) && NoDangling(Obj(root))
    requires Stripped(Obj(root), methods, reach, r) && LocalDefinitions(Obj(root)).Some?
    requires name in HiddenInEntries(Outside(FilteredRoot(root, variants, methods))) && name !in reach
    ensures !NoDangling(r)
  {
    StripDanglingExactly(root, variants, methods, reach, r);
  }

  /** No object uses a definition map key. */
  predicate NoMapKeys(v: Json)
    decreases v, 1
  {
    match v
    case Arr(items) => forall i :: 0 <= i < |items| ==> NoMapKeys(items[i])
    case Obj(entries) => NoMapKeysIn(entries)
    case _ => true
  }

  predicate NoMapKeysIn(entries: seq<Entry>)
    decreases entries, 0
  {
    forall i :: 0 <= i < |entries| ==> !IsMapKey(entries[i].key) && NoMapKeys(entries[i].value)
  }

  lemma {:induction false} NothingSkipped(v: Json)
    requires NoMapKeys(v)
    ensures Names(v, true) == Names(v, false)
    decreases v, 1
  {
    match v {
      case Arr(items) => NothingSkippedItems(items);
      case Obj(entries) => NothingSkippedEntries(entries);
      case _ =>
    }
  }

  lemma {:induction false} NothingSkippedItems(items: seq<Json>)
    requires forall i :: 0 <= i < |items| ==> NoMapKeys(items[i])
    ensures NamesOfItems(items, true) == NamesOfItems(items, false)
    decreases items, 0
  {
    if items != [] {
      NothingSkippedItems(items[..|items| - 1]);
      NothingSkipped(items[|items| - 1]);
    }
  }

  lemma {:induction false} NothingSkippedEntries(entries: seq<Entry>)
    requires NoMapKeysIn(entries)
    ensures NamesOfEntries(entries, true) == NamesOfEntries(entries, false)
    decreases entries, 0
  {
    if entries != [] {
      NothingSkippedEntries(entries[..|entries| - 1]);
      NothingSkipped(entries[|entries| - 1].value);
    }
  }

  lemma OutsideRoots(root: seq<Entry>)
    requires NoMapKeysIn(Outside(root))
    ensures OutsideNames(root) <= Names(Obj(root), true)
  {
    forall name | name in NamesOfEntries(Outside(root), false) ensures name in NamesOfEntries(root, true) {
      var e := NamesOfEntriesOrigin(Outside(root), name, false);
      var i :| 0 <= i < |Outside(root)| && Outside(root)[i] == e;
      NothingSkipped(e.value);
      NamesOfEntriesMember(root, e, true);
    }
  }

  /** If nothing outside the definitions uses `definitions` or `$defs` as a key, no reference is left dangling. */
  lemma StripLeavesNoDangling(root: seq<Entry>, defs: seq<Entry>, reach: set<string>)
    requires UniqueKeys(root) && Get(root, "definitions") == Some(Obj(defs))
    requires UniqueKeys(defs) && RefHere(Obj(defs)).None?
    requires NoDangling(Obj(root)) && NoMapKeysIn(Outside(root))
    requires LeastClosed(LocalGraph(defs), Names(Obj(root), true), reach)
    ensures NoDangling(Obj(StrippedRoot(root, defs, reach)))
  {
    OutsideRoots(root);
    KeepDefinitionsGet(defs, reach, "$ref");
    RestrictedExactly(root, defs, reach);
  }

  // ----- end to end -----

  lemma {:induction false} KeepVariantsNames(variants: seq<Json>, methods: set<string>)
    ensures NamesOfItems(KeepVariants(variants, methods), false) <= NamesOfItems(variants, false)
  {
    if variants != [] {
      var n := |variants| - 1;
      var rest := KeepVariants(variants[..n], methods);
      KeepVariantsNames(variants[..n], methods);
      assert (rest + [variants[n]])[..|rest|] == rest;
      if IsMethodVariant(variants[n], methods) {
        assert rest + [] == rest;
      }
    }
  }

  lemma {:induction false} NamesOfEntriesBounded(entries: seq<Entry>, bound: set<string>)
    requires forall e :: e in entries ==> Names(e.value, false) <= bound
    ensures NamesOfEntries(entries, false) <= bound
  {
    if entries != [] {
      NamesOfEntriesBounded(entries[..|entries| - 1], bound);
    }
  }

  lemma PutNamesBounded(root: seq<Entry>, key: string, w: Json, v: Json)
    requires UniqueKeys(root) && Entry(key, w) in root && Names(v, false) <= Names(w, false)
    ensures NamesOfEntries(Put(root, key, v), false) <= NamesOfEntries(root, false)
  {
    var out, bound := Put(root, key, v), NamesOfEntries(root, false);
    NamesOfEntriesMember(root, Entry(key, w), false);
    PutMembers(root, key, v);
    forall e | e in out ensures Names(e.value, false) <= bound {
      if e != Entry(key, v) {
        NamesOfEntriesMember(root, e, false);
      }
    }
    NamesOfEntriesBounded(out, bound);
  }

  lemma PutShrinksNames(root: seq<Entry>, key: string, w: Json, v: Json)
    requires UniqueKeys(root) && Entry(key, w) in root && key != "$ref"
    requires Names(v, false) <= Names(w, false)
    ensures Names(Obj(Put(root, key, v)), false) <= Names(Obj(root), false)
  {
    PutNamesBounded(root, key, w, v);
    PutRefHere(root, key, v);
  }

  lemma FilteredNames(root: seq<Entry>, variants: seq<Json>, methods: set<string>)
    requires UniqueKeys(root) && Get(root, "oneOf") == Some(Arr(variants))
    ensures Names(Obj(FilteredRoot(root, variants, methods)), false) <= Names(Obj(root), false)
  {
    KeepVariantsNames(variants, methods);
    ReplaceShrinksNames(root, "oneOf", Arr(variants), Arr(KeepVariants(variants, methods)));
  }

  lemma ReplaceShrinksNames(root: seq<Entry>, key: string, w: Json, v: Json)
    requires UniqueKeys(root) && Get(root, key) == Some(w) && key != "$ref"
    requires Names(v, false) <= Names(w, false)
    ensures Names(Obj(Put(root, key, v)), false) <= Names(Obj(root), false)
  {
    PutShrinksNames(root, key, w, v);
  }

  lemma FilteredKeepsDefinitions(root: seq<Entry>, variants: seq<Json>, methods: set<string>)
    requires UniqueKeys(root)
    ensures UniqueKeys(FilteredRoot(root, variants, methods))
    ensures Get(FilteredRoot(root, variants, methods), "definitions") == Get(root, "definitions")
    ensures LocalDefinitions(Obj(FilteredRoot(root, variants, methods))) == LocalDefinitions(Obj(root))
  {
    PutMembers(root, "oneOf", Arr(KeepVariants(variants, methods)));
    PutGet(root, "oneOf", Arr(KeepVariants(variants, methods)), "definitions");
  }

  lemma NoDanglingSubset(a: Json, b: Json)
    requires Names(b, false) <= Names(a, false) && LocalDefinitions(b) == LocalDefinitions(a)
    requires NoDangling(a)
    ensures NoDangling(b)
  {
  }

  lemma DefinitionsUnique(root: seq<Entry>, defs: seq<Entry>)
    requires Valid(Obj(root)) && LocalDefinitions(Obj(root)) == Some(defs)
    ensures UniqueKeys(defs)
    ensures Get(root, "definitions") == Some(Obj(defs))
  {
    var i :| 0 <= i < |root| && root[i] == Entry("definitions", Obj(defs));
    assert Valid(root[i].value);
  }

  lemma KeptNoMapKeys(variants: seq<Json>, methods: set<string>)
    requires NoMapKeys(Arr(variants))
    ensures NoMapKeys(Arr(KeepVariants(variants, methods)))
  {
    var kept := KeepVariants(variants, methods);
    forall i | 0 <= i < |kept| ensures NoMapKeys(kept[i]) {
      assert kept[i] in variants;
    }
  }

  lemma NoMapKeysMember(entries: seq<Entry>, e: Entry)
    requires NoMapKeysIn(entries) && e in entries
    ensures !IsMapKey(e.key) && NoMapKeys(e.value)
  {
  }

  lemma FilteredNoMapKeys(root: seq<Entry>, variants: seq<Json>, methods: set<string>)
    requires UniqueKeys(root) && Get(root, "oneOf") == Some(Arr(variants)) && NoMapKeysIn(Outside(root))
    ensures NoMapKeysIn(Outside(FilteredRoot(root, variants, methods)))
  {
    var arms := Entry("oneOf", Arr(KeepVariants(variants, methods)));
    var filtered, before := FilteredRoot(root, variants, methods), Outside(root);
    NoMapKeysMember(before, Entry("oneOf", Arr(variants)));
    KeptNoMapKeys(variants, methods);
    PutMembers(root, arms.key, arms.value);
    forall e | e in Outside(filtered) ensures !IsMapKey(e.key) && NoMapKeys(e.value) {
      if e != arms {
        NoMapKeysMember(before, e);
      }
    }
  }

  lemma FilteredNoDangling(root: seq<Entry>, variants: seq<Json>, methods: set<string>)
    requires UniqueKeys(root) && Get(root, "oneOf") == Some(Arr(variants)) && NoDangling(Obj(root))
    ensures NoDangling(Obj(FilteredRoot(root, variants, methods)))
  {
    FilteredNames(root, variants, methods);
    FilteredKeepsDefinitions(root, variants, methods);
    NoDanglingSubset(Obj(root), Obj(FilteredRoot(root, variants, methods)));
  }

  ghost predicate SingleMap(root: seq<Entry>) {
    && NoMapKeysIn(Outside(root))
    && (LocalDefinitions(Obj(root)).Some? ==> RefHere(Obj(LocalDefinitions(Obj(root)).value)).None?)
  }

  /** Stripping a closed schema whose definition maps are only the root one keeps it closed. */
  lemma StripKeepsSchemaClosed(root: seq<Entry>, variants: seq<Json>, methods: set<string>, reach: set<string>, r: Json)
    requires Valid(Obj(root)) && Get(root, "oneOf") == Some(Arr(variants))
    requires NoDangling(Obj(root)) && SingleMap(root)
    requires Stripped(Obj(root), methods, reach, r)
    ensures NoDangling(r)
  {
    var filtered := FilteredRoot(root, variants, methods);
    assert NoDangling(Obj(filtered)) by {
      FilteredNoDangling(root, variants, methods);
    }
    FilteredKeepsDefinitions(root, variants, methods);
    match LocalDefinitions(Obj(root)) {
      case None =>
      case Some(defs) =>
        DefinitionsUnique(root, defs);
        FilteredNoMapKeys(root, variants, methods);
        StripLeavesNoDangling(filtered, defs, reach);
    }
  }

  /** A schema whose `$defs` map is skipped by the search for references. */
  function HidingRoot(defs: seq<Entry>, hidden: Json): seq<Entry> {
    [Entry("oneOf", Arr([])), Entry("$defs", hidden), Entry("definitions", Obj(defs))]
  }

  lemma HidingRootFacts(defs: seq<Entry>, hidden: Json)
    ensures var root := HidingRoot(defs, hidden);
            && RefHere(Obj(root)).None? && Get(root, "definitions") == Some(Obj(defs)) && UniqueKeys(root)
            && Get(root, "oneOf") == Some(Arr([]))
  {
    var root := HidingRoot(defs, hidden);
    assert root[1..][1..] == [root[2]];
  }

  lemma HidingRootNames(defs: seq<Entry>, hidden: Json)
    ensures NamesOfEntries(HidingRoot(defs, hidden), true) == {}
  {
    var root := HidingRoot(defs, hidden);
    assert root[..2] == [Entry("oneOf", Arr([])), Entry("$defs", hidden)];
    assert root[..2][..1] == [Entry("oneOf", Arr([]))];
    assert NamesOfEntries([Entry("oneOf", Arr([]))], true) == {};
    assert NamesOfEntries(root[..2], true) == {};
  }

  lemma HidingRootValid(defs: seq<Entry>, hidden: Json)
    requires Valid(Obj(defs)) && Valid(hidden)
    ensures Valid(Obj(HidingRoot(defs, hidden)))
  {
    HidingRootFacts(defs, hidden);
    assert Valid(Arr([]));
  }

  lemma HiddenOutside(defs: seq<Entry>, hidden: Json)
    ensures Names(hidden, false) <= OutsideNames(HidingRoot(defs, hidden))
  {
    var root := HidingRoot(defs, hidden);
    assert root[1] in root && root[1] in Outside(root);
    NamesOfEntriesMember(Outside(root), root[1], false);
  }

  /** What is referred to only from the hidden part dangles once nothing is kept. */
  lemma HiddenDangles(root: seq<Entry>, defs: seq<Entry>, name: string)
    requires UniqueKeys(root) && Get(root, "definitions") == Some(Obj(defs)) && UniqueKeys(defs) && NoDangling(Obj(root))
    requires LeastClosed(LocalGraph(defs), Names(Obj(root), true), {}) && name in OutsideNames(root)
    ensures !NoDangling(Obj(StrippedRoot(root, defs, {})))
  {
    RestrictedExactly(root, defs, {});
    assert name in OutsideNames(root) + StrayName(defs, {});
  }

  /** A closed schema that stripping opens: one definition, referred to only from the `$defs` map. */
  lemma HiddenReferenceExample(methods: set<string>) returns (root: seq<Entry>, r: Json)
    ensures Valid(Obj(root)) && Get(root, "oneOf") == Some(Arr([]))
    ensures NoDangling(Obj(root)) && Stripped(Obj(root), methods, {}, r) && !NoDangling(r)
  {
    var defs, hidden := [Entry("A", Null)], Obj([Entry("$ref", Str("#/definitions/A"))]);
    root := HidingRoot(defs, hidden);
    r := Obj(StrippedRoot(root, defs, {}));
    HidingRootFacts(defs, hidden);
    assert Valid(Obj(root)) by {
      HidingRootValid(defs, hidden);
    }
    HiddenExampleNames();
    assert NoDangling(Obj(root)) by {
      HidingRootAllNames(defs, hidden);
      assert Get(defs, "A") == Some(Null);
      assert Names(Obj(root), false) == {"A"};
    }
    HidingRootStripped(defs, hidden, methods);
    HiddenOutside(defs, hidden);
    HiddenDangles(root, defs, "A");
  }

  lemma HidingRootStripped(defs: seq<Entry>, hidden: Json, methods: set<string>)
    ensures var root := HidingRoot(defs, hidden);
            && FilteredRoot(root, [], methods) == root
            && Stripped(Obj(root), methods, {}, Obj(StrippedRoot(root, defs, {})))
            && LeastClosed(LocalGraph(defs), Names(Obj(root), true), {})
  {
    HidingRootFacts(defs, hidden);
    HidingRootNames(defs, hidden);
  }

  lemma HidingRootAllNames(defs: seq<Entry>, hidden: Json)
    ensures Names(Obj(HidingRoot(defs, hidden)), false) == Names(hidden, false) + Names(Obj(defs), false)
  {
    HidingRootFacts(defs, hidden);
    var root := HidingRoot(defs, hidden);
    assert root[..2] == [Entry("oneOf", Arr([])), Entry("$defs", hidden)] && root[..2][..1] == [Entry("oneOf", Arr([]))];
    assert NamesOfEntries([Entry("oneOf", Arr([]))], false) == {};
    assert NamesOfEntries(root[..2], false) == Names(hidden, false);
  }

  lemma HiddenExampleNames()
    ensures Names(Obj([Entry("$ref", Str("#/definitions/A"))]), false) == {"A"}
    ensures RefHere(Obj([Entry("A", Null)])).None? && Names(Obj([Entry("A", Null)]), false) == {}
  {
    assert [Entry("A", Null)][..0] == [];
    var entries := [Entry("$ref", Str("#/definitions/A"))];
    assert RefHere(Obj(entries)) == Some("#/definitions/A");
    assert "#/definitions/A"[|DEFINITIONS|..] == "A";
    assert Before("A", '/') == "A";
    assert entries[..0] == [];
    assert NamesOfEntries(entries, false) == {};
  }
}
