/** The whole bundle: schemas with and without a namespace, in one map of definitions. */
module MixedBundle {
  import opened Text
  import opened Json
  import opened SchemaRefs
  import opened SchemaBundle

  datatype Schema = Namespaced(g: Generated) | Unnamespaced(name: string, value: Json, inV1Dir: bool)

  // ----- which names belong to a namespace -----

  /** Type names, mapped to the namespace that claimed them first. */
  type Types = map<string, string>

  function Claim(types: Types, name: string, ns: string): Types {
    if name in types then types else types[name := ns]
  }

  function ClaimKeys(types: Types, entries: seq<Entry>, ns: string): Types {
    if entries == [] then types
    else Claim(ClaimKeys(types, entries[..|entries| - 1], ns), entries[|entries| - 1].key, ns)
  }

  function EntriesUnder(v: Json, key: string): seq<Entry> {
    if !v.Obj? then []
    else
      match Get(v.entries, key)
      case Some(Obj(entries)) => entries
      case _ => []
  }

  /** `collect_namespaced_types`. */
  function CollectTypes(schemas: seq<Schema>): Types {
    if schemas == [] then map[]
    else
      var types, last := CollectTypes(schemas[..|schemas| - 1]), schemas[|schemas| - 1];
      match last
      case Unnamespaced(_, _, _) => types
      case Namespaced(g) =>
        ClaimKeys(ClaimKeys(Claim(types, g.name, g.ns), EntriesUnder(g.value, "definitions"), g.ns), EntriesUnder(g.value, "$defs"), g.ns)
  }

  function TrimDigits(name: string): string {
    if name != [] && '0' <= name[|name| - 1] <= '9' then TrimDigits(name[..|name| - 1]) else name
  }

  /** `namespace_for_definition`: a numbered variant belongs where its base name does. */
  function NamespaceFor(name: string, types: Types): Option<string> {
    if name in types then Some(types[name])
    else if TrimDigits(name) in types then Some(types[TrimDigits(name)])
    else None
  }

  // ----- schemas without a namespace -----

  function KnownRef(types: Types, r: string): string {
    match StripPrefix(r, DEFINITIONS)
    case None => r
    case Some(suffix) =>
      match NamespaceFor(Before(suffix, '/'), types)
      case Some(ns) => DEFINITIONS + (ns + "/" + suffix)
      case None => r
  }

  /** `rewrite_refs_to_known_namespaces`. */
  function RewriteKnown(v: Json, types: Types): Json {
    MapRefs(v, (r: string) => KnownRef(types, r))
  }

  function NamedRef(ns: string, name: string, r: string): string {
    var direct, target := DEFINITIONS + name, DEFINITIONS + (ns + "/" + name);
    if r == direct then target
    else match StripPrefix(r, direct + "/") case Some(rest) => target + "/" + rest case None => r
  }

  /** `rewrite_named_ref_to_namespace`, for each name that belongs elsewhere. */
  function RewriteForced(v: Json, forced: seq<(string, string)>): Json {
    if forced == [] then v
    else
      var (name, ns) := forced[|forced| - 1];
      MapRefs(RewriteForced(v, forced[..|forced| - 1]), (r: string) => NamedRef(ns, name, r))
  }

  function TargetOf(name: string, types: Types, inV1Dir: bool): Option<string> {
    if inV1Dir then None else NamespaceFor(name, types)
  }

  function Forced(defs: seq<Entry>, types: Types, inV1Dir: bool): seq<(string, string)> {
    if defs == [] then []
    else
      var n := |defs| - 1;
      var target := TargetOf(defs[n].key, types, inV1Dir);
      Forced(defs[..n], types, inV1Dir) +
      if defs[n].key in IGNORED || defs[n].key in SPECIAL || target == None then [] else [(defs[n].key, target.value)]
  }

  // ----- what every schema inserts -----

  datatype Op = ToNamespace(x: Insertion) | ToRoot(name: string, value: Json)

  function RootDefinitions(defs: seq<Entry>, types: Types, inV1Dir: bool, annotate: Annotate): seq<Op> {
    if defs == [] then []
    else
      var n := |defs| - 1;
      RootDefinitions(defs[..n], types, inV1Dir, annotate) +
      if defs[n].key in IGNORED || defs[n].key in SPECIAL || TargetOf(defs[n].key, types, inV1Dir).Some? then []
      else [ToRoot(defs[n].key, annotate(defs[n].value, defs[n].key))]
  }

  function RootOps(name: string, v: Json, inV1Dir: bool, types: Types, annotate: Annotate): seq<Op> {
    if name in IGNORED then []
    else
      var value := RewriteKnown(v, types);
      RootDefinitions(Definitions(value), types, inV1Dir, annotate) +
      [ToRoot(name, RewriteForced(Remainder(value), Forced(Definitions(value), types, inV1Dir)))]
  }

  function NamespaceOps(xs: seq<Insertion>): seq<Op> {
    seq(|xs|, i requires 0 <= i < |xs| => ToNamespace(xs[i]))
  }

  function OpsOf(s: Schema, types: Types, annotate: Annotate): seq<Op> {
    match s
    case Namespaced(g) => NamespaceOps(Contributions(g, annotate))
    case Unnamespaced(name, value, inV1Dir) => RootOps(name, value, inV1Dir, types, annotate)
  }

  function AllOps(schemas: seq<Schema>, types: Types, annotate: Annotate): seq<Op> {
    if schemas == [] then []
    else AllOps(schemas[..|schemas| - 1], types, annotate) + OpsOf(schemas[|schemas| - 1], types, annotate)
  }

  // ----- the shared map -----

  /** A definition at the root, or the map of a namespace. */
  datatype Slot = Root(value: Json) | Names(names: map<string, Json>)

  type Table = map<string, Slot>

  function AsMap(entries: seq<Entry>): map<string, Json> {
    if entries == [] then map[] else AsMap(entries[..|entries| - 1])[entries[|entries| - 1].key := entries[|entries| - 1].value]
  }

  function IntoNames(names: map<string, Json>, x: Insertion, same: (Json, Json) -> bool): Option<Slot> {
    if x.name !in names then Some(Names(names[x.name := x.value]))
    else if same(names[x.name], x.value) then Some(Names(names))
    else None
  }

  /** `insert_into_namespace`: a root object under the namespace's name would be taken for its map. */
  function IntoSlot(slot: Option<Slot>, x: Insertion, same: (Json, Json) -> bool): Option<Slot> {
    match slot
    case None => IntoNames(map[], x, same)
    case Some(Names(names)) => IntoNames(names, x, same)
    case Some(Root(Obj(entries))) => IntoNames(AsMap(entries), x, same)
    case Some(Root(_)) => None
  }

  function SlotAt(table: Table, ns: string): Option<Slot> {
    if ns in table then Some(table[ns]) else None
  }

  function Apply(table: Table, op: Op, same: (Json, Json) -> bool): Option<Table> {
    match op
    case ToRoot(name, value) => Some(table[name := Root(value)])
    case ToNamespace(x) =>
      match IntoSlot(SlotAt(table, x.ns), x, same)
      case Some(slot) => Some(table[x.ns := slot])
      case None => None
  }

  function RunOps(ops: seq<Op>, same: (Json, Json) -> bool): Option<Table> {
    if ops == [] then Some(map[])
    else
      match RunOps(ops[..|ops| - 1], same)
      case None => None
      case Some(table) => Apply(table, ops[|ops| - 1], same)
  }

  // ----- the namespaces see only their own insertions -----

  function NamespacePart(ops: seq<Op>): seq<Insertion> {
    if ops == [] then []
    else
      var n := |ops| - 1;
      NamespacePart(ops[..n]) + if ops[n].ToNamespace? then [ops[n].x] else []
  }

  /** No root definition takes the name of a namespace. */
  ghost predicate Apart(ops: seq<Op>, spaces: set<string>) {
    forall i :: 0 <= i < |ops| ==> if ops[i].ToRoot? then ops[i].name !in spaces else ops[i].x.ns in spaces
  }

  /** The namespaces of the table hold exactly the store. */
  ghost predicate Mirrors(table: Table, store: Store, spaces: set<string>) {
    && (forall ns :: ns in table ==> (table[ns].Names? <==> ns in spaces))
    && (forall ns, name :: (ns, name) in store <==> ns in table && table[ns].Names? && name in table[ns].names)
    && (forall ns, name :: (ns, name) in store ==> table[ns].names[name] == store[(ns, name)])
  }

  lemma RootMirrors(table: Table, store: Store, spaces: set<string>, name: string, value: Json)
    requires Mirrors(table, store, spaces) && name !in spaces
    ensures Mirrors(table[name := Root(value)], store, spaces)
  {
  }

  lemma NamespaceMirrors(table: Table, store: Store, spaces: set<string>, x: Insertion, same: (Json, Json) -> bool)
    requires Mirrors(table, store, spaces) && x.ns in spaces
    ensures Apply(table, ToNamespace(x), same).Some? <==> Insert(store, x, same).Some?
    ensures Insert(store, x, same).Some? ==>
      Mirrors(Apply(table, ToNamespace(x), same).value, Insert(store, x, same).value, spaces)
  {
    var names := if x.ns in table then table[x.ns].names else map[];
    assert (x.ns, x.name) in store <==> x.name in names;
  }

  lemma {:induction false} RunMirrors(ops: seq<Op>, spaces: set<string>, same: (Json, Json) -> bool)
    requires Apart(ops, spaces)
    ensures RunOps(ops, same).Some? <==> InsertAll(NamespacePart(ops), same).Some?
    ensures RunOps(ops, same).Some? ==> Mirrors(RunOps(ops, same).value, InsertAll(NamespacePart(ops), same).value, spaces)
  {
    if ops != [] {
      var n := |ops| - 1;
      RunMirrors(ops[..n], spaces, same);
      InsertAllNext(NamespacePart(ops[..n]), ops[n], same);
      if RunOps(ops[..n], same).Some? {
        var table, store := RunOps(ops[..n], same).value, InsertAll(NamespacePart(ops[..n]), same).value;
        if ops[n].ToRoot? {
          RootMirrors(table, store, spaces, ops[n].name, ops[n].value);
        } else {
          NamespaceMirrors(table, store, spaces, ops[n].x, same);
        }
      }
    }
  }

  lemma InsertAllNext(xs: seq<Insertion>, op: Op, same: (Json, Json) -> bool)
    ensures op.ToRoot? ==> InsertAll(xs + [], same) == InsertAll(xs, same)
    ensures op.ToNamespace? && InsertAll(xs, same).None? ==> InsertAll(xs + [op.x], same).None?
    ensures op.ToNamespace? && InsertAll(xs, same).Some? ==> InsertAll(xs + [op.x], same) == Insert(InsertAll(xs, same).value, op.x, same)
  {
    assert xs + [] == xs;
    if op.ToNamespace? {
      assert (xs + [op.x])[..|xs|] == xs;
    }
  }

  // ----- the insertions into namespaces come from the namespaced schemas -----

  function NamespacedOf(schemas: seq<Schema>): seq<Generated> {
    if schemas == [] then []
    else
      var n := |schemas| - 1;
      NamespacedOf(schemas[..n]) + if schemas[n].Namespaced? then [schemas[n].g] else []
  }

  lemma {:induction false} NamespacedMember(schemas: seq<Schema>, g: Generated)
    ensures g in NamespacedOf(schemas) <==> Namespaced(g) in schemas
  {
    if schemas != [] {
      var n := |schemas| - 1;
      assert schemas == schemas[..n] + [schemas[n]];
      NamespacedMember(schemas[..n], g);
    }
  }

  lemma {:induction false} NamespacePartConcat(a: seq<Op>, b: seq<Op>)
    ensures NamespacePart(a + b) == NamespacePart(a) + NamespacePart(b)
  {
    if b == [] {
      assert a + b == a;
    } else {
      var n := |b| - 1;
      assert (a + b)[..|a| + n] == a + b[..n];
      NamespacePartConcat(a, b[..n]);
    }
  }

  lemma {:induction false} NamespacePartOfOps(xs: seq<Insertion>)
    ensures NamespacePart(NamespaceOps(xs)) == xs
  {
    if xs != [] {
      var n := |xs| - 1;
      NamespacePartOfOps(xs[..n]);
      assert NamespaceOps(xs)[..n] == NamespaceOps(xs[..n]);
      assert xs == xs[..n] + [xs[n]];
    }
  }

  lemma {:induction false} RootPartEmpty(ops: seq<Op>)
    requires forall i :: 0 <= i < |ops| ==> ops[i].ToRoot?
    ensures NamespacePart(ops) == []
  {
    if ops != [] {
      RootPartEmpty(ops[..|ops| - 1]);
    }
  }

  lemma {:induction false} RootDefinitionsAreRoot(defs: seq<Entry>, types: Types, inV1Dir: bool, annotate: Annotate)
    ensures forall op :: op in RootDefinitions(defs, types, inV1Dir, annotate) ==> op.ToRoot?
  {
    if defs != [] {
      RootDefinitionsAreRoot(defs[..|defs| - 1], types, inV1Dir, annotate);
    }
  }

  lemma OpsNamespacePart(s: Schema, types: Types, annotate: Annotate)
    ensures NamespacePart(OpsOf(s, types, annotate)) == if s.Namespaced? then Contributions(s.g, annotate) else []
  {
    match s {
      case Namespaced(g) => NamespacePartOfOps(Contributions(g, annotate));
      case Unnamespaced(name, value, inV1Dir) =>
        RootDefinitionsAreRoot(Definitions(RewriteKnown(value, types)), types, inV1Dir, annotate);
        RootPartEmpty(OpsOf(s, types, annotate));
    }
  }

  lemma {:induction false} AllOpsNamespacePart(schemas: seq<Schema>, types: Types, annotate: Annotate)
    ensures NamespacePart(AllOps(schemas, types, annotate)) == AllInsertions(NamespacedOf(schemas), annotate)
  {
    if schemas != [] {
      var n := |schemas| - 1;
      var before := NamespacedOf(schemas[..n]);
      AllOpsNamespacePart(schemas[..n], types, annotate);
      NamespacePartConcat(AllOps(schemas[..n], types, annotate), OpsOf(schemas[n], types, annotate));
      OpsNamespacePart(schemas[n], types, annotate);
      if schemas[n].Namespaced? {
        assert (before + [schemas[n].g])[..|before|] == before;
      } else {
        assert before + [] == before;
        assert AllInsertions(before, annotate) + [] == AllInsertions(before, annotate);
      }
    }
  }

  // ----- the main result -----

  function Assembled(schemas: seq<Schema>, annotate: Annotate, same: (Json, Json) -> bool): Option<Table> {
    RunOps(AllOps(schemas, CollectTypes(schemas), annotate), same)
  }

  /** The same names in the namespace on both sides, with equal schemas. */
  ghost predicate SameNamespace(a: Table, b: Table, ns: string, same: (Json, Json) -> bool) {
    && (ns in a <==> ns in b)
    && (ns in a ==>
          && a[ns].Names? && b[ns].Names? && a[ns].names.Keys == b[ns].names.Keys
          && forall name :: name in a[ns].names ==> same(a[ns].names[name], b[ns].names[name]))
  }

  lemma MirroredSame(a: Table, b: Table, m: Store, n: Store, spaces: set<string>, ns: string, same: (Json, Json) -> bool)
    requires Mirrors(a, m, spaces) && Mirrors(b, n, spaces) && ns in spaces
    requires m.Keys == n.Keys && forall key :: key in m ==> same(m[key], n[key])
    requires (ns in a <==> exists name :: (ns, name) in m) && (ns in b <==> exists name :: (ns, name) in n)
    ensures SameNamespace(a, b, ns, same)
  {
    if ns in a && ns in b {
      forall name ensures name in a[ns].names <==> name in b[ns].names {
        assert (ns, name) in m <==> (ns, name) in n;
      }
      forall name | name in a[ns].names ensures same(a[ns].names[name], b[ns].names[name]) {
        assert (ns, name) in m;
      }
    }
  }

  /** A namespace's map exists only once something is in it. */
  lemma {:induction false} NamespacesInhabited(ops: seq<Op>, spaces: set<string>, same: (Json, Json) -> bool, ns: string)
    requires Apart(ops, spaces) && RunOps(ops, same).Some? && ns in RunOps(ops, same).value && ns in spaces
    ensures RunOps(ops, same).value[ns].Names? && RunOps(ops, same).value[ns].names != map[]
  {
    var n := |ops| - 1;
    var before := RunOps(ops[..n], same).value;
    RunMirrors(ops[..n], spaces, same);
    if ns in before {
      NamespacesInhabited(ops[..n], spaces, same, ns);
    }
    if ops[n].ToNamespace? && ops[n].x.ns == ns {
      assert ops[n].x.name in RunOps(ops, same).value[ns].names;
    }
  }

  lemma InhabitedMirror(ops: seq<Op>, spaces: set<string>, same: (Json, Json) -> bool, ns: string)
    requires Apart(ops, spaces) && RunOps(ops, same).Some? && ns in spaces
    ensures InsertAll(NamespacePart(ops), same).Some?
    ensures ns in RunOps(ops, same).value <==> exists name :: (ns, name) in InsertAll(NamespacePart(ops), same).value
  {
    RunMirrors(ops, spaces, same);
    var table, store := RunOps(ops, same).value, InsertAll(NamespacePart(ops), same).value;
    if ns in table {
      NamespacesInhabited(ops, spaces, same, ns);
      var name :| name in table[ns].names;
      assert (ns, name) in store;
    }
  }

  /**
   * With schemas of both kinds, neither success nor any namespace depends on the order of the
   * schemas, provided no root definition takes the name of a namespace.
   */
  lemma MixedOrderIndependent(a: seq<Schema>, b: seq<Schema>, spaces: set<string>, annotate: Annotate, same: (Json, Json) -> bool)
    requires (forall s :: s in a <==> s in b) && Equivalence(same)
    requires Apart(AllOps(a, CollectTypes(a), annotate), spaces) && Apart(AllOps(b, CollectTypes(b), annotate), spaces)
    ensures Assembled(a, annotate, same).Some? <==> Assembled(b, annotate, same).Some?
    ensures Assembled(a, annotate, same).Some? ==>
      forall ns :: ns in spaces ==> SameNamespace(Assembled(a, annotate, same).value, Assembled(b, annotate, same).value, ns, same)
  {
    var p, q := AllOps(a, CollectTypes(a), annotate), AllOps(b, CollectTypes(b), annotate);
    AllOpsNamespacePart(a, CollectTypes(a), annotate);
    AllOpsNamespacePart(b, CollectTypes(b), annotate);
    RunMirrors(p, spaces, same);
    RunMirrors(q, spaces, same);
    forall g ensures g in NamespacedOf(a) <==> g in NamespacedOf(b) {
      NamespacedMember(a, g);
      NamespacedMember(b, g);
    }
    BundleOrderIndependent(NamespacedOf(a), NamespacedOf(b), annotate, same);
    if RunOps(p, same).Some? {
      forall ns | ns in spaces ensures SameNamespace(RunOps(p, same).value, RunOps(q, same).value, ns, same) {
        InhabitedMirror(p, spaces, same, ns);
        InhabitedMirror(q, spaces, same, ns);
        MirroredSame(RunOps(p, same).value, RunOps(q, same).value, InsertAll(NamespacePart(p), same).value,
                     InsertAll(NamespacePart(q), same).value, spaces, ns, same);
      }
    }
  }

  // ----- the code -----

  lemma {:induction false} RunOpsPrefix(ops: seq<Op>, all: seq<Op>, same: (Json, Json) -> bool)
    requires ops <= all && RunOps(ops, same).None?
    ensures RunOps(all, same).None?
    decreases all
  {
    if ops != all {
      RunOpsPrefix(ops, all[..|all| - 1], same);
    }
  }

  lemma RunOpsNext(done: seq<Op>, todo: seq<Op>, j: nat, same: (Json, Json) -> bool)
    requires j < |todo| && RunOps(done + todo[..j], same).Some?
    ensures RunOps(done + todo[..j + 1], same) == Apply(RunOps(done + todo[..j], same).value, todo[j], same)
    ensures done + todo[..j + 1] <= done + todo
  {
    var ops := done + todo[..j + 1];
    assert ops[..|ops| - 1] == done + todo[..j] && ops[|ops| - 1] == todo[j];
  }

  /** The insertions of one schema, stopping at the first collision. */
  method InsertSchema(ghost done: seq<Op>, todo: seq<Op>, table: Table, same: (Json, Json) -> bool) returns (r: Option<Table>)
    requires RunOps(done, same) == Some(table)
    ensures r == RunOps(done + todo, same)
  {
    var current := table;
    var j := 0;
    assert done + todo[..0] == done;
    while j < |todo|
      invariant 0 <= j <= |todo|
      invariant RunOps(done + todo[..j], same) == Some(current)
    {
      RunOpsNext(done, todo, j, same);
      var next := Apply(current, todo[j], same);
      if next.None? {
        RunOpsPrefix(done + todo[..j + 1], done + todo, same);
        return None;
      }
      current := next.value;
      j := j + 1;
    }
    assert todo[..j] == todo;
    r := Some(current);
  }

  lemma {:induction false} AllOpsPrefix(schemas: seq<Schema>, k: nat, types: Types, annotate: Annotate)
    requires k <= |schemas|
    ensures AllOps(schemas[..k], types, annotate) <= AllOps(schemas, types, annotate)
    decreases schemas
  {
    if k == |schemas| {
      assert schemas[..k] == schemas;
    } else {
      var n := |schemas| - 1;
      assert schemas[..n][..k] == schemas[..k];
      AllOpsPrefix(schemas[..n], k, types, annotate);
    }
  }

  /** Insert schema by schema, stopping at the first collision. */
  method BuildSchemaBundle(schemas: seq<Schema>, annotate: Annotate, same: (Json, Json) -> bool) returns (r: Option<Table>)
    ensures r == Assembled(schemas, annotate, same)
  {
    var types := CollectTypes(schemas);
    var table: Table := map[];
    var k := 0;
    while k < |schemas|
      invariant 0 <= k <= |schemas|
      invariant RunOps(AllOps(schemas[..k], types, annotate), same) == Some(table)
    {
      assert schemas[..k + 1][..k] == schemas[..k];
      var next := InsertSchema(AllOps(schemas[..k], types, annotate), OpsOf(schemas[k], types, annotate), table, same);
      if next.None? {
        AllOpsPrefix(schemas, k + 1, types, annotate);
        RunOpsPrefix(AllOps(schemas[..k + 1], types, annotate), AllOps(schemas, types, annotate), same);
        return None;
      }
      table := next.value;
      k := k + 1;
    }
    assert schemas[..k] == schemas;
    r := Some(table);
  }
}
