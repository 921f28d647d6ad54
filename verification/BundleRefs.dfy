/** References in the bundle end up where the definitions they name are stored. */
module BundleRefs {
  import opened Text
  import opened Sequences
  import opened Json
  import opened SchemaRefs
  import opened SchemaBundle
  import opened MixedBundle
  import opened MixedOrder

  // ----- references move into their namespace -----

  function InNamespace(ns: string, name: string): string {
    DEFINITIONS + (ns + "/" + name)
  }

  predicate LocalRef(r: string) {
    StartsWith(r, DEFINITIONS)
  }

  /** A reference of the namespace. */
  predicate Inside(ns: string, r: string) {
    StartsWith(r, InNamespace(ns, ""))
  }

  lemma InsideShape(ns: string, rest: string)
    ensures Inside(ns, InNamespace(ns, rest)) && LocalRef(InNamespace(ns, rest))
  {
    assert InNamespace(ns, rest) == InNamespace(ns, "") + rest;
    assert InNamespace(ns, rest)[..|DEFINITIONS|] == DEFINITIONS;
  }

  lemma NamespacedInside(ns: string, r: string)
    ensures LocalRef(r) ==> Inside(ns, NamespacedRef(ns, r))
    ensures !LocalRef(r) ==> NamespacedRef(ns, r) == r
  {
    if LocalRef(r) {
      var suffix := StripPrefix(r, DEFINITIONS).value;
      if StartsWith(suffix, ns + "/") {
        assert suffix == (ns + "/") + suffix[|ns + "/"|..];
        assert r == InNamespace(ns, suffix[|ns + "/"|..]);
        InsideShape(ns, suffix[|ns + "/"|..]);
      } else {
        InsideShape(ns, suffix);
      }
    }
  }

  /** A definition named outside the namespace's path is looked for inside the namespace. */
  lemma NamedMoved(ns: string, name: string)
    requires !StartsWith(name, ns + "/")
    ensures NamespacedRef(ns, DEFINITIONS + name) == InNamespace(ns, name)
  {
    StripPrefixed(DEFINITIONS, name);
  }

  lemma RewrittenInside(v: Json, ns: string, r: string)
    requires Valid(v) && r in Refs(RewriteToNamespace(v, ns)) && LocalRef(r)
    ensures Inside(ns, r)
  {
    var f := (q: string) => NamespacedRef(ns, q);
    RefsMapped(v, f);
    var q :| q in Refs(v) && r == f(q);
    NamespacedInside(ns, q);
  }

  /** Rewriting moves each reference and leaves none behind. */
  lemma ReferenceMoved(v: Json, ns: string, name: string)
    requires Valid(v) && DEFINITIONS + name in Refs(v) && !StartsWith(name, ns + "/")
    ensures InNamespace(ns, name) in Refs(RewriteToNamespace(v, ns))
    ensures DEFINITIONS + name !in Refs(RewriteToNamespace(v, ns))
  {
    var f := (q: string) => NamespacedRef(ns, q);
    RefsMapped(v, f);
    NamedMoved(ns, name);
    assert f(DEFINITIONS + name) in Image(Refs(v), f);
    StripPrefixed(DEFINITIONS, name);
    if DEFINITIONS + name in Refs(RewriteToNamespace(v, ns)) {
      RewrittenInside(v, ns, DEFINITIONS + name);
      InsideNamed(ns, name);
    }
  }

  lemma InsideNamed(ns: string, name: string)
    requires Inside(ns, DEFINITIONS + name)
    ensures StartsWith(name, ns + "/")
  {
    var whole := DEFINITIONS + name;
    assert InNamespace(ns, "") == DEFINITIONS + (ns + "/");
    assert whole[..|InNamespace(ns, "")|][|DEFINITIONS|..] == ns + "/";
    assert name[..|ns + "/"|] == ns + "/";
  }

  // ----- everything a schema inserts -----

  lemma {:induction false} WithoutKeyMembers(entries: seq<Entry>, key: string)
    ensures forall e :: e in WithoutKey(entries, key) <==> e in entries && e.key != key
    ensures UniqueKeys(entries) ==> UniqueKeys(WithoutKey(entries, key))
  {
    if entries != [] {
      var n := |entries| - 1;
      assert entries == entries[..n] + [entries[n]];
      WithoutKeyMembers(entries[..n], key);
    }
  }

  lemma RemainderRefs(v: Json)
    requires Valid(v)
    ensures Refs(Remainder(v)) <= Refs(v)
  {
    if v.Obj? {
      var rest := Remainder(v).entries;
      WithoutKeyMembers(v.entries, "definitions");
      forall r | r in Refs(Remainder(v)) ensures r in Refs(v) {
        if RefHere(Remainder(v)) == Some(r) {
          assert Entry("$ref", Str(r)) in v.entries;
          GetMember(v.entries, Entry("$ref", Str(r)));
        } else {
          var i :| 0 <= i < |rest| && r in Refs(rest[i].value);
          assert rest[i] in v.entries;
          var j :| 0 <= j < |v.entries| && v.entries[j] == rest[i];
          RefsOfEntry(v.entries, j);
        }
      }
    }
  }

  lemma {:induction false} ExtractedMember(defs: seq<Entry>, ns: string, annotate: Annotate, x: Insertion)
    ensures x in Extracted(defs, ns, annotate)
       <==> exists e :: e in defs && e.key !in IGNORED && e.key !in SPECIAL
                        && x == Insertion(ns, e.key, RewriteToNamespace(annotate(e.value, e.key), ns))
  {
    if defs != [] {
      var n := |defs| - 1;
      assert defs == defs[..n] + [defs[n]];
      ExtractedMember(defs[..n], ns, annotate, x);
    }
  }

  lemma DefinitionsValid(v: Json, e: Entry)
    requires Valid(v) && e in Definitions(v)
    ensures Valid(e.value)
  {
    var defs := Definitions(v);
    assert Entry("definitions", Obj(defs)) in v.entries;
    var i :| 0 <= i < |v.entries| && v.entries[i] == Entry("definitions", Obj(defs));
    var j :| 0 <= j < |defs| && defs[j] == e;
    assert Valid(v.entries[i].value);
  }

  /** Whatever a namespaced schema stores, all its local references point into its namespace. */
  lemma ContributionsMoved(g: Generated, annotate: Annotate, x: Insertion, r: string)
    requires Valid(g.value) && AddsNoRefs(annotate) && x in Contributions(g, annotate)
    requires r in Refs(x.value) && LocalRef(r)
    ensures x.ns == g.ns && Inside(g.ns, r)
  {
    var value := RewriteToNamespace(g.value, g.ns);
    MapRefsValid(g.value, (q: string) => NamespacedRef(g.ns, q));
    if x in Extracted(Definitions(value), g.ns, annotate) {
      ExtractedMember(Definitions(value), g.ns, annotate, x);
      var e :| e in Definitions(value) && x == Insertion(g.ns, e.key, RewriteToNamespace(annotate(e.value, e.key), g.ns));
      DefinitionsValid(value, e);
      RewrittenInside(annotate(e.value, e.key), g.ns, r);
    } else {
      RemainderRefs(value);
      RewrittenInside(g.value, g.ns, r);
    }
  }

  // ----- which definitions are contributed -----

  /** Every definition is moved out, but for the placeholder and the four request and notification unions. */
  predicate Movable(e: Entry) {
    e.key !in ["Option<()>", "ClientNotification", "ClientRequest", "ServerNotification", "ServerRequest"]
  }

  function Moved(ns: string, annotate: Annotate): Entry -> Insertion {
    (e: Entry) => Insertion(ns, e.key, RewriteToNamespace(annotate(e.value, e.key), ns))
  }

  function AllMovable(defs: seq<Entry>): seq<Entry> {
    if defs == [] then []
    else AllMovable(defs[..|defs| - 1]) + if Movable(defs[|defs| - 1]) then [defs[|defs| - 1]] else []
  }

  lemma {:induction false} AllMovableExactly(defs: seq<Entry>)
    ensures Filtered(Movable, AllMovable(defs), defs)
  {
    if defs == [] {
      FilteredEmpty(Movable);
    } else {
      var n := |defs| - 1;
      AllMovableExactly(defs[..n]);
      FilteredSnoc(Movable, AllMovable(defs[..n]), defs[..n], defs[n]);
      assert defs == defs[..n] + [defs[n]];
    }
  }

  lemma {:induction false} ExtractedExactly(defs: seq<Entry>, ns: string, annotate: Annotate)
    ensures Extracted(defs, ns, annotate) == Map(Moved(ns, annotate), AllMovable(defs))
  {
    if defs != [] {
      var n, f := |defs| - 1, Moved(ns, annotate);
      ExtractedExactly(defs[..n], ns, annotate);
      if Movable(defs[n]) {
        MapSnoc(f, AllMovable(defs[..n]), defs[n]);
      }
    }
  }

  lemma {:induction false} WithoutKeyExactly(entries: seq<Entry>, key: string)
    ensures Filtered((e: Entry) => e.key != key, WithoutKey(entries, key), entries)
  {
    var keep := (e: Entry) => e.key != key;
    if entries == [] {
      FilteredEmpty(keep);
    } else {
      var n := |entries| - 1;
      WithoutKeyExactly(entries[..n], key);
      FilteredSnoc(keep, WithoutKey(entries[..n], key), entries[..n], entries[n]);
      assert entries == entries[..n] + [entries[n]];
    }
  }

  /** A schema that is no placeholder contributes each movable definition in order, and then itself with everything but its definitions. */
  lemma ContributionsExactly(g: Generated, annotate: Annotate, value: Json) returns (kept: seq<Entry>, rest: seq<Entry>)
    requires value == RewriteToNamespace(g.value, g.ns)
    ensures Filtered(Movable, kept, match value case Obj(entries) => (match Get(entries, "definitions") case Some(Obj(defs)) => defs case _ => []) case _ => [])
    ensures value.Obj? ==> Filtered((e: Entry) => e.key != "definitions", rest, value.entries)
    ensures g.name == "Option<()>" ==> Contributions(g, annotate) == []
    ensures g.name != "Option<()>" ==>
      Contributions(g, annotate) == Map(Moved(g.ns, annotate), kept) + [Insertion(g.ns, g.name, if value.Obj? then Obj(rest) else value)]
  {
    kept := AllMovable(Definitions(value));
    AllMovableExactly(Definitions(value));
    ExtractedExactly(Definitions(value), g.ns, annotate);
    if value.Obj? {
      rest := WithoutKey(value.entries, "definitions");
      WithoutKeyExactly(value.entries, "definitions");
    } else {
      rest := [];
    }
  }

  // ----- and resolve there -----

  /** What a reference into a namespace stands for in the bundle. */
  function ResolveIn(table: Table, r: string): Option<Json> {
    match StripPrefix(r, DEFINITIONS)
    case None => None
    case Some(path) =>
      var ns := Before(path, '/');
      if |ns| < |path| && ns in table && table[ns].Names? && path[|ns| + 1..] in table[ns].names then Some(table[ns].names[path[|ns| + 1..]])
      else None
  }

  lemma ResolveNamed(table: Table, ns: string, name: string)
    requires '/' !in ns
    ensures ResolveIn(table, InNamespace(ns, name))
         == if ns in table && table[ns].Names? && name in table[ns].names then Some(table[ns].names[name]) else None
  {
    StripPrefixed(DEFINITIONS, ns + "/" + name);
    assert ns + "/" + name == ns + ['/'] + name;
    BeforeCut(ns, '/', name);
    assert (ns + "/" + name)[|ns| + 1..] == name;
  }

  /** What was inserted under a name is what references to that name stand for. */
  lemma InsertedResolves(schemas: seq<Schema>, spaces: set<string>, annotate: Annotate, same: (Json, Json) -> bool, table: Table, x: Insertion)
    requires Equivalence(same) && Apart(AllOps(schemas, CollectTypes(schemas), annotate), spaces)
    requires Assembled(schemas, annotate, same) == Some(table) && x in Insertions(schemas, annotate) && '/' !in x.ns
    ensures ResolveIn(table, InNamespace(x.ns, x.name)).Some?
    ensures same(ResolveIn(table, InNamespace(x.ns, x.name)).value, x.value)
  {
    var ops := AllOps(schemas, CollectTypes(schemas), annotate);
    AllOpsNamespacePart(schemas, CollectTypes(schemas), annotate);
    RunMirrors(ops, spaces, same);
    InsertAllExactly(NamespacePart(ops), same);
    ResolveNamed(table, x.ns, x.name);
  }

  /** A definition of a namespaced schema is inserted under its own name, and so is the schema itself. */
  lemma ContributionsInclude(g: Generated, annotate: Annotate, e: Entry)
    requires g.name !in IGNORED
    ensures var value := RewriteToNamespace(g.value, g.ns);
            && Insertion(g.ns, g.name, Remainder(value)) in Contributions(g, annotate)
            && (e in Definitions(value) && e.key !in IGNORED && e.key !in SPECIAL ==>
                Insertion(g.ns, e.key, RewriteToNamespace(annotate(e.value, e.key), g.ns)) in Contributions(g, annotate))
  {
    var value := RewriteToNamespace(g.value, g.ns);
    ExtractedMember(Definitions(value), g.ns, annotate, Insertion(g.ns, e.key, RewriteToNamespace(annotate(e.value, e.key), g.ns)));
  }

  lemma ContributedInserted(schemas: seq<Schema>, g: Generated, annotate: Annotate, x: Insertion)
    requires Namespaced(g) in schemas && x in Contributions(g, annotate)
    ensures x in Insertions(schemas, annotate)
  {
    NamespacedMember(schemas, g);
    AllInsertionsMember(NamespacedOf(schemas), annotate, x);
  }

  /** A reference to one of the schema's own definitions is moved to where that definition is stored. */
  lemma OwnReferenceFollowed(schemas: seq<Schema>, spaces: set<string>, annotate: Annotate, same: (Json, Json) -> bool, table: Table,
                             g: Generated, e: Entry)
    requires Equivalence(same) && Apart(AllOps(schemas, CollectTypes(schemas), annotate), spaces)
    requires Assembled(schemas, annotate, same) == Some(table) && Namespaced(g) in schemas && '/' !in g.ns
    requires g.name !in IGNORED && e in Definitions(RewriteToNamespace(g.value, g.ns)) && e.key !in IGNORED && e.key !in SPECIAL
    requires !StartsWith(e.key, g.ns + "/")
    ensures var r := NamespacedRef(g.ns, DEFINITIONS + e.key);
            && r == InNamespace(g.ns, e.key)
            && ResolveIn(table, r).Some? && same(ResolveIn(table, r).value, RewriteToNamespace(annotate(e.value, e.key), g.ns))
  {
    var x := Insertion(g.ns, e.key, RewriteToNamespace(annotate(e.value, e.key), g.ns));
    ContributionsInclude(g, annotate, e);
    ContributedInserted(schemas, g, annotate, x);
    NamedMoved(g.ns, e.key);
    InsertedResolves(schemas, spaces, annotate, same, table, x);
  }

  // ----- references from schemas without a namespace -----

  predicate AllDigits(s: string) {
    forall i :: 0 <= i < |s| ==> '0' <= s[i] <= '9'
  }

  lemma {:induction false} TrimDigitsMeans(base: string, digits: string)
    requires AllDigits(digits) && (base == [] || !('0' <= base[|base| - 1] <= '9'))
    ensures TrimDigits(base + digits) == base
  {
    if digits == [] {
      assert base + digits == base;
    } else {
      var n := |digits| - 1;
      assert (base + digits)[..|base| + n] == base + digits[..n];
      TrimDigitsMeans(base, digits[..n]);
    }
  }

  /** A claimed type name, perhaps with digits after it, leads to the namespace that claimed it. */
  lemma HomeMeans(types: Types, base: string, digits: string)
    requires AllDigits(digits) && (base == [] || !('0' <= base[|base| - 1] <= '9'))
    ensures base + digits in types ==> NamespaceFor(base + digits, types) == Some(types[base + digits])
    ensures base + digits !in types && base in types ==> NamespaceFor(base + digits, types) == Some(types[base])
    ensures base + digits !in types && base !in types ==> NamespaceFor(base + digits, types) == None
  {
    TrimDigitsMeans(base, digits);
  }

  /** `tail` is empty or begins a further path segment. */
  predicate IsTail(tail: string) {
    tail == [] || tail[0] == '/'
  }

  lemma FirstSegment(name: string, tail: string)
    requires '/' !in name && IsTail(tail)
    ensures Before(name + tail, '/') == name
  {
    if tail == [] {
      assert name + tail == name;
    } else {
      assert name + tail == name + ['/'] + tail[1..];
      BeforeCut(name, '/', tail[1..]);
    }
  }

  lemma KnownMoved(types: Types, name: string, tail: string)
    requires '/' !in name && IsTail(tail)
    ensures KnownRef(types, DEFINITIONS + (name + tail))
         == match NamespaceFor(name, types) case Some(ns) => InNamespace(ns, name + tail) case None => DEFINITIONS + (name + tail)
  {
    StripPrefixed(DEFINITIONS, name + tail);
    FirstSegment(name, tail);
  }

  /** In a schema without a namespace every reference to a claimed type moves to its home, and no other moves. */
  lemma KnownReferenceMoved(v: Json, types: Types, name: string, tail: string)
    requires Valid(v) && DEFINITIONS + (name + tail) in Refs(v) && '/' !in name && IsTail(tail)
    ensures NamespaceFor(name, types).Some? ==> InNamespace(NamespaceFor(name, types).value, name + tail) in Refs(RewriteKnown(v, types))
    ensures NamespaceFor(name, types).None? ==> DEFINITIONS + (name + tail) in Refs(RewriteKnown(v, types))
  {
    var f := (r: string) => KnownRef(types, r);
    RefsMapped(v, f);
    KnownMoved(types, name, tail);
    assert f(DEFINITIONS + (name + tail)) in Image(Refs(v), f);
  }

  lemma OtherRefsKept(v: Json, types: Types, r: string)
    requires Valid(v) && r in Refs(v) && !LocalRef(r)
    ensures r in Refs(RewriteKnown(v, types))
  {
    var f := (q: string) => KnownRef(types, q);
    RefsMapped(v, f);
    assert f(r) in Image(Refs(v), f);
  }

  /** A moved reference stands for what the namespace that claimed the name stores under it. */
  lemma KnownReferenceFollowed(schemas: seq<Schema>, spaces: set<string>, annotate: Annotate, same: (Json, Json) -> bool, table: Table,
                               g: Generated, x: Insertion)
    requires Equivalence(same) && Apart(AllOps(schemas, CollectTypes(schemas), annotate), spaces)
    requires Assembled(schemas, annotate, same) == Some(table) && Namespaced(g) in schemas && x in Contributions(g, annotate)
    requires '/' !in x.ns && '/' !in x.name && x.name in CollectTypes(schemas) && CollectTypes(schemas)[x.name] == x.ns
    ensures var r := KnownRef(CollectTypes(schemas), DEFINITIONS + x.name);
            r == InNamespace(x.ns, x.name) && ResolveIn(table, r).Some? && same(ResolveIn(table, r).value, x.value)
  {
    KnownMoved(CollectTypes(schemas), x.name, []);
    assert x.name + [] == x.name;
    ContributedInserted(schemas, g, annotate, x);
    InsertedResolves(schemas, spaces, annotate, same, table, x);
  }

  // ----- forced references -----

  /** A forced name moves, alone or with a path after it. */
  lemma NamedRefMoves(ns: string, name: string, tail: string)
    requires IsTail(tail)
    ensures NamedRef(ns, name, DEFINITIONS + (name + tail)) == InNamespace(ns, name + tail)
  {
    var direct, r := DEFINITIONS + name, DEFINITIONS + (name + tail);
    if tail == [] {
      assert name + tail == name;
    } else {
      assert r == (direct + "/") + tail[1..];
      StripPrefixed(direct + "/", tail[1..]);
      assert |r| > |direct|;
      assert DEFINITIONS + (ns + "/" + name) + "/" + tail[1..] == InNamespace(ns, name + tail);
    }
  }

  /** Nothing else does. */
  lemma NamedRefKeeps(ns: string, name: string, r: string)
    ensures NamedRef(ns, name, r) != r ==> exists tail :: IsTail(tail) && r == DEFINITIONS + (name + tail)
  {
    var found := StripPrefix(r, DEFINITIONS + name + "/");
    if r == DEFINITIONS + name {
      assert IsTail([]) && r == DEFINITIONS + (name + []);
    } else if found.Some? {
      assert IsTail("/" + found.value) && r == DEFINITIONS + (name + ("/" + found.value));
    }
  }
}
