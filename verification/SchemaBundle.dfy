/** Collecting namespaced schemas into one bundle, whatever order they come in. */
module SchemaBundle {
  import opened Text
  import opened Json
  import opened SchemaRefs

  const IGNORED: seq<string> := ["Option<()>"]
  const SPECIAL: seq<string> := ["ClientNotification", "ClientRequest", "ServerNotification", "ServerRequest"]

  /** A schema generated under a namespace. */
  datatype Generated = Generated(ns: string, name: string, value: Json)

  datatype Insertion = Insertion(ns: string, name: string, value: Json)

  /** Namespace and name, mapped to the stored schema. */
  type Store = map<(string, string), Json>

  // ----- references move into the namespace -----

  function NamespacedRef(ns: string, r: string): string {
    match StripPrefix(r, DEFINITIONS)
    case Some(suffix) => if StartsWith(suffix, ns + "/") then r else DEFINITIONS + (ns + "/" + suffix)
    case None => r
  }

  function RewriteToNamespace(v: Json, ns: string): Json {
    MapRefs(v, (r: string) => NamespacedRef(ns, r))
  }

  lemma NamespacedRefTwice(ns: string, r: string)
    ensures NamespacedRef(ns, NamespacedRef(ns, r)) == NamespacedRef(ns, r)
  {
    match StripPrefix(r, DEFINITIONS) {
      case None =>
      case Some(suffix) =>
        if !StartsWith(suffix, ns + "/") {
          StripPrefixed(DEFINITIONS, ns + "/" + suffix);
          assert (ns + "/" + suffix)[..|ns + "/"|] == ns + "/";
        }
    }
  }

  /** Rewriting to a namespace is idempotent, so doing it twice to a definition is harmless. */
  lemma RewriteTwice(v: Json, ns: string)
    ensures RewriteToNamespace(RewriteToNamespace(v, ns), ns) == RewriteToNamespace(v, ns)
  {
    var f := (r: string) => NamespacedRef(ns, r);
    forall r ensures f(f(r)) == f(r) {
      NamespacedRefTwice(ns, r);
    }
    MapRefsCompose(v, f, f, f);
  }

  lemma {:induction false} MapRefsFixed(v: Json, f: string -> string)
    requires Valid(v) && forall r :: r in Refs(v) ==> f(r) == r
    ensures MapRefs(v, f) == v
  {
    match v {
      case Arr(items) =>
        forall i | 0 <= i < |items| ensures MapRefs(items[i], f) == items[i] {
          forall r | r in Refs(items[i]) ensures f(r) == r {
            assert r in Refs(v);
          }
          MapRefsFixed(items[i], f);
        }
        assert MapRefs(v, f).items == items;
      case Obj(entries) =>
        forall i | 0 <= i < |entries| ensures MapEntries(entries, f)[i] == entries[i] {
          RefsOfEntry(entries, i);
          MapRefsFixed(entries[i].value, f);
          if entries[i].key == "$ref" && entries[i].value.Str? {
            GetMember(entries, entries[i]);
            assert RefHere(v) == Some(entries[i].value.s);
          }
        }
        assert MapEntries(entries, f) == entries;
      case _ =>
    }
  }

  // ----- what one schema contributes -----

  /** Titles are added to a definition; what else happens to it does not matter here. */
  type Annotate = (Json, string) -> Json

  ghost predicate AddsNoRefs(annotate: Annotate) {
    forall v, name :: Valid(v) ==> Valid(annotate(v, name)) && Refs(annotate(v, name)) <= Refs(v)
  }

  function Extracted(defs: seq<Entry>, ns: string, annotate: Annotate): seq<Insertion> {
    if defs == [] then []
    else
      var n := |defs| - 1;
      Extracted(defs[..n], ns, annotate) +
      if defs[n].key in IGNORED || defs[n].key in SPECIAL then []
      else [Insertion(ns, defs[n].key, RewriteToNamespace(annotate(defs[n].value, defs[n].key), ns))]
  }

  function WithoutKey(entries: seq<Entry>, key: string): seq<Entry> {
    if entries == [] then []
    else
      var n := |entries| - 1;
      WithoutKey(entries[..n], key) + if entries[n].key == key then [] else [entries[n]]
  }

  function Definitions(v: Json): seq<Entry> {
    if !v.Obj? then []
    else
      match Get(v.entries, "definitions")
      case Some(Obj(defs)) => defs
      case _ => []
  }

  function Remainder(v: Json): Json {
    if v.Obj? then Obj(WithoutKey(v.entries, "definitions")) else v
  }

  /** The insertions a schema causes: its definitions in order, then itself. */
  function Contributions(g: Generated, annotate: Annotate): seq<Insertion> {
    if g.name in IGNORED then []
    else
      var value := RewriteToNamespace(g.value, g.ns);
      Extracted(Definitions(value), g.ns, annotate) + [Insertion(g.ns, g.name, Remainder(value))]
  }

  /** Annotating a rewritten definition leaves nothing for a second rewrite to do. */
  lemma AnnotatedFixed(d: Json, name: string, ns: string, annotate: Annotate)
    requires Valid(d) && AddsNoRefs(annotate)
    ensures var annotated := annotate(RewriteToNamespace(d, ns), name); RewriteToNamespace(annotated, ns) == annotated
  {
    var f := (r: string) => NamespacedRef(ns, r);
    var once := RewriteToNamespace(d, ns);
    MapRefsValid(d, f);
    RefsMapped(d, f);
    var annotated := annotate(once, name);
    forall r | r in Refs(annotated) ensures f(r) == r {
      assert r in Refs(once);
      var q :| q in Refs(d) && r == f(q);
      NamespacedRefTwice(ns, q);
    }
    MapRefsFixed(annotated, f);
  }

  lemma DefinitionRewritten(v: Json, defs: seq<Entry>, name: string, d: Json, ns: string)
    requires v.Obj? && Get(v.entries, "definitions") == Some(Obj(defs)) && Get(defs, name) == Some(d) && name != "$ref"
    ensures Get(Definitions(RewriteToNamespace(v, ns)), name) == Some(RewriteToNamespace(d, ns))
  {
    var f := (r: string) => NamespacedRef(ns, r);
    MapEntriesGet(v.entries, f, "definitions");
    MapEntriesGet(defs, f, name);
  }

  /** Stored definitions are the annotated originals with their references rewritten once. */
  lemma ExtractedRewrittenOnce(g: Generated, defs: seq<Entry>, name: string, d: Json, annotate: Annotate)
    requires Valid(g.value) && g.value.Obj? && Get(g.value.entries, "definitions") == Some(Obj(defs))
    requires Get(defs, name) == Some(d) && name != "$ref" && Valid(d) && AddsNoRefs(annotate)
    ensures Get(Definitions(RewriteToNamespace(g.value, g.ns)), name) == Some(RewriteToNamespace(d, g.ns))
    ensures RewriteToNamespace(annotate(RewriteToNamespace(d, g.ns), name), g.ns)
         == annotate(RewriteToNamespace(d, g.ns), name)
  {
    DefinitionRewritten(g.value, defs, name, d, g.ns);
    AnnotatedFixed(d, name, g.ns, annotate);
  }

  // ----- collision-checked insertion -----

  /** Equality of stored values, whether maps compare with or without key order. */
  ghost predicate Equivalence(same: (Json, Json) -> bool) {
    && (forall a :: same(a, a))
    && (forall a, b :: same(a, b) ==> same(b, a))
    && (forall a, b, c :: same(a, b) && same(b, c) ==> same(a, c))
  }

  function Insert(store: Store, x: Insertion, same: (Json, Json) -> bool): Option<Store> {
    var key := (x.ns, x.name);
    if key !in store then Some(store[key := x.value])
    else if same(store[key], x.value) then Some(store)
    else None
  }

  function InsertAll(xs: seq<Insertion>, same: (Json, Json) -> bool): Option<Store> {
    if xs == [] then Some(map[])
    else
      match InsertAll(xs[..|xs| - 1], same)
      case None => None
      case Some(store) => Insert(store, xs[|xs| - 1], same)
  }

  ghost predicate Consistent(xs: seq<Insertion>, same: (Json, Json) -> bool) {
    forall x, y :: x in xs && y in xs && x.ns == y.ns && x.name == y.name ==> same(x.value, y.value)
  }

  /** `store` holds exactly the keys of `xs`, with equal values. */
  ghost predicate Represents(store: Store, xs: seq<Insertion>, same: (Json, Json) -> bool) {
    && (forall x :: x in xs ==> (x.ns, x.name) in store && same(store[(x.ns, x.name)], x.value))
    && (forall key :: key in store ==> Insertion(key.0, key.1, store[key]) in xs)
  }

  lemma {:induction false} InsertAllExactly(xs: seq<Insertion>, same: (Json, Json) -> bool)
    requires Equivalence(same)
    ensures InsertAll(xs, same).Some? <==> Consistent(xs, same)
    ensures InsertAll(xs, same).Some? ==> Represents(InsertAll(xs, same).value, xs, same)
  {
    if xs != [] {
      var n := |xs| - 1;
      var x := xs[n];
      assert xs == xs[..n] + [x];
      InsertAllExactly(xs[..n], same);
      if InsertAll(xs[..n], same).Some? {
        InsertStep(InsertAll(xs[..n], same).value, xs[..n], x, same);
      } else {
        assert !Consistent(xs, same);
      }
    }
  }

  lemma InsertStep(store: Store, xs: seq<Insertion>, x: Insertion, same: (Json, Json) -> bool)
    requires Equivalence(same) && Consistent(xs, same) && Represents(store, xs, same)
    ensures Insert(store, x, same).Some? <==> Consistent(xs + [x], same)
    ensures Insert(store, x, same).Some? ==> Represents(Insert(store, x, same).value, xs + [x], same)
  {
    var key := (x.ns, x.name);
    if key in store {
      assert Insertion(x.ns, x.name, store[key]) in xs + [x] && x in xs + [x];
      if same(store[key], x.value) {
        forall y | y in xs && y.ns == x.ns && y.name == x.name ensures same(y.value, x.value) {
          assert same(store[key], y.value);
        }
      }
    }
  }

  // ----- the whole bundle -----

  function AllInsertions(schemas: seq<Generated>, annotate: Annotate): seq<Insertion> {
    if schemas == [] then []
    else AllInsertions(schemas[..|schemas| - 1], annotate) + Contributions(schemas[|schemas| - 1], annotate)
  }

  function Bundle(schemas: seq<Generated>, annotate: Annotate, same: (Json, Json) -> bool): Option<Store> {
    InsertAll(AllInsertions(schemas, annotate), same)
  }

  lemma {:induction false} AllInsertionsMember(schemas: seq<Generated>, annotate: Annotate, x: Insertion)
    ensures x in AllInsertions(schemas, annotate)
       <==> exists g :: g in schemas && x in Contributions(g, annotate)
  {
    if schemas != [] {
      var n := |schemas| - 1;
      assert schemas == schemas[..n] + [schemas[n]];
      AllInsertionsMember(schemas[..n], annotate, x);
    }
  }

  lemma SameInsertions(a: seq<Generated>, b: seq<Generated>, annotate: Annotate)
    requires forall g :: g in a <==> g in b
    ensures forall x :: x in AllInsertions(a, annotate) <==> x in AllInsertions(b, annotate)
  {
    forall x ensures x in AllInsertions(a, annotate) <==> x in AllInsertions(b, annotate) {
      AllInsertionsMember(a, annotate, x);
      AllInsertionsMember(b, annotate, x);
    }
  }

  /** Neither success nor the namespaces depend on the order, or the repetition, of the schemas. */
  lemma BundleOrderIndependent(a: seq<Generated>, b: seq<Generated>, annotate: Annotate, same: (Json, Json) -> bool)
    requires (forall g :: g in a <==> g in b) && Equivalence(same)
    ensures Bundle(a, annotate, same).Some? <==> Bundle(b, annotate, same).Some?
    ensures Bundle(a, annotate, same).Some? ==>
              var m, n := Bundle(a, annotate, same).value, Bundle(b, annotate, same).value;
              m.Keys == n.Keys && forall key :: key in m ==> same(m[key], n[key])
  {
    var xs, ys := AllInsertions(a, annotate), AllInsertions(b, annotate);
    SameInsertions(a, b, annotate);
    InsertAllExactly(xs, same);
    InsertAllExactly(ys, same);
    assert Consistent(xs, same) <==> Consistent(ys, same);
    if Bundle(a, annotate, same).Some? {
      SameStores(Bundle(a, annotate, same).value, Bundle(b, annotate, same).value, xs, ys, same);
    }
  }

  lemma SameStores(m: Store, n: Store, xs: seq<Insertion>, ys: seq<Insertion>, same: (Json, Json) -> bool)
    requires Equivalence(same) && Represents(m, xs, same) && Represents(n, ys, same)
    requires forall x :: x in xs <==> x in ys
    ensures m.Keys == n.Keys
    ensures forall key :: key in m ==> same(m[key], n[key])
  {
    forall key | key in m ensures key in n && same(m[key], n[key]) {
      var x := Insertion(key.0, key.1, m[key]);
      assert x in ys;
      assert (x.ns, x.name) == key;
    }
    forall key | key in n ensures key in m {
      var y := Insertion(key.0, key.1, n[key]);
      assert y in xs;
      assert (y.ns, y.name) == key;
    }
  }
}
