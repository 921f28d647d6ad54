/** `$ref` strings inside a schema: where they are, and rewriting all of them. */
module SchemaRefs {
  import opened Text
  import opened Json

  const DEFINITIONS: string := "#/definitions/"

  /** The reference an object carries itself. */
  function RefHere(v: Json): Option<string> {
    if v.Obj? then
      match Get(v.entries, "$ref")
      case Some(Str(s)) => Some(s)
      case _ => None
    else None
  }

  /** Every reference at any depth. */
  function Refs(v: Json): set<string> {
    match v
    case Arr(items) => set i, r | 0 <= i < |items| && r in Refs(items[i]) :: r
    case Obj(entries) =>
      (if RefHere(v).Some? then {RefHere(v).value} else {}) +
      set i, r | 0 <= i < |entries| && r in Refs(entries[i].value) :: r
    case _ => {}
  }

  /** Rewrite every reference in place with `f`. */
  function MapRefs(v: Json, f: string -> string): Json
    decreases v, 1
  {
    match v
    case Arr(items) => Arr(seq(|items|, i requires 0 <= i < |items| => MapRefs(items[i], f)))
    case Obj(entries) => Obj(MapEntries(entries, f))
    case _ => v
  }

  function MapEntries(entries: seq<Entry>, f: string -> string): (r: seq<Entry>)
    ensures |r| == |entries|
    ensures forall i :: 0 <= i < |entries| ==> r[i].key == entries[i].key
    ensures forall i :: 0 <= i < |entries| ==> r[i].value == MapAt(entries[i].key, entries[i].value, f)
    decreases entries, 0
  {
    seq(|entries|, i requires 0 <= i < |entries| => Entry(entries[i].key, MapAt(entries[i].key, entries[i].value, f)))
  }

  /** The value stored under `key` after rewriting. */
  function MapAt(key: string, v: Json, f: string -> string): Json
    decreases v, 2
  {
    if key == "$ref" && v.Str? then Str(f(v.s)) else MapRefs(v, f)
  }

  lemma {:induction false} MapEntriesGet(entries: seq<Entry>, f: string -> string, key: string)
    ensures Get(MapEntries(entries, f), key)
         == match Get(entries, key) case Some(v) => Some(MapAt(key, v, f)) case None => None
  {
    if entries != [] && entries[0].key != key {
      MapEntriesGet(entries[1..], f, key);
      assert MapEntries(entries, f)[1..] == MapEntries(entries[1..], f);
    }
  }

  lemma MapRefHere(v: Json, f: string -> string)
    ensures RefHere(MapRefs(v, f)) == match RefHere(v) case Some(r) => Some(f(r)) case None => None
  {
    if v.Obj? {
      MapEntriesGet(v.entries, f, "$ref");
    }
  }

  lemma StrNoRefs(v: Json)
    requires v.Str?
    ensures Refs(v) == {}
  {
  }

  lemma RefsOfEntry(entries: seq<Entry>, i: nat)
    requires i < |entries|
    ensures Refs(entries[i].value) <= Refs(Obj(entries))
  {
    forall r | r in Refs(entries[i].value) ensures r in Refs(Obj(entries)) {
    }
  }

  ghost function Image(refs: set<string>, f: string -> string): set<string> {
    set r | r in refs :: f(r)
  }

  lemma {:induction false} RefsMapped(v: Json, f: string -> string)
    requires Valid(v)
    ensures Refs(MapRefs(v, f)) == Image(Refs(v), f)
  {
    match v {
      case Arr(items) =>
        forall i | 0 <= i < |items| ensures Refs(MapRefs(items[i], f)) == Image(Refs(items[i]), f) {
          RefsMapped(items[i], f);
        }
        RefsMappedItems(items, f);
      case Obj(entries) =>
        forall i | 0 <= i < |entries| ensures Refs(MapRefs(entries[i].value, f)) == Image(Refs(entries[i].value), f) {
          RefsMapped(entries[i].value, f);
        }
        RefsMappedEntries(entries, f);
      case _ =>
    }
  }

  lemma RefsMappedItems(items: seq<Json>, f: string -> string)
    requires forall i :: 0 <= i < |items| ==> Refs(MapRefs(items[i], f)) == Image(Refs(items[i]), f)
    ensures Refs(MapRefs(Arr(items), f)) == Image(Refs(Arr(items)), f)
  {
    var mapped := MapRefs(Arr(items), f).items;
    forall r | r in Refs(MapRefs(Arr(items), f)) ensures r in Image(Refs(Arr(items)), f) {
      var i :| 0 <= i < |mapped| && r in Refs(mapped[i]);
      var q :| q in Refs(items[i]) && r == f(q);
      assert q in Refs(Arr(items));
    }
    forall r | r in Image(Refs(Arr(items)), f) ensures r in Refs(MapRefs(Arr(items), f)) {
      var q :| q in Refs(Arr(items)) && r == f(q);
      var i :| 0 <= i < |items| && q in Refs(items[i]);
      assert r in Refs(mapped[i]);
    }
  }

  ghost predicate ValuesMapped(entries: seq<Entry>, f: string -> string) {
    forall i :: 0 <= i < |entries| ==> Refs(MapRefs(entries[i].value, f)) == Image(Refs(entries[i].value), f)
  }

  lemma MappedFrom(entries: seq<Entry>, f: string -> string, r: string)
    requires ValuesMapped(entries, f) && r in Refs(MapRefs(Obj(entries), f))
    ensures r in Image(Refs(Obj(entries)), f)
  {
    var v, mapped := Obj(entries), MapEntries(entries, f);
    MapRefHere(v, f);
    if RefHere(MapRefs(v, f)) == Some(r) {
      assert RefHere(v).value in Refs(v);
    } else {
      var i :| 0 <= i < |mapped| && r in Refs(mapped[i].value);
      var q :| q in Refs(entries[i].value) && r == f(q);
      RefsOfEntry(entries, i);
    }
  }

  lemma MappedTo(entries: seq<Entry>, f: string -> string, q: string)
    requires ValuesMapped(entries, f) && q in Refs(Obj(entries))
    ensures f(q) in Refs(MapRefs(Obj(entries), f))
  {
    var v, mapped := Obj(entries), MapEntries(entries, f);
    MapRefHere(v, f);
    if RefHere(v) != Some(q) {
      var i :| 0 <= i < |entries| && q in Refs(entries[i].value);
      assert f(q) in Refs(MapRefs(entries[i].value, f));
      assert mapped[i].value == MapRefs(entries[i].value, f);
      RefsOfEntry(mapped, i);
    }
  }

  lemma RefsMappedEntries(entries: seq<Entry>, f: string -> string)
    requires ValuesMapped(entries, f)
    ensures Refs(MapRefs(Obj(entries), f)) == Image(Refs(Obj(entries)), f)
  {
    forall r | r in Refs(MapRefs(Obj(entries), f)) ensures r in Image(Refs(Obj(entries)), f) {
      MappedFrom(entries, f, r);
    }
    forall r | r in Image(Refs(Obj(entries)), f) ensures r in Refs(MapRefs(Obj(entries), f)) {
      var q :| q in Refs(Obj(entries)) && r == f(q);
      MappedTo(entries, f, q);
    }
  }

  /** Two rewrites in a row are one rewrite. */
  lemma {:induction false} MapRefsCompose(v: Json, f: string -> string, g: string -> string, h: string -> string)
    requires forall r :: g(f(r)) == h(r)
    ensures MapRefs(MapRefs(v, f), g) == MapRefs(v, h)
  {
    match v {
      case Arr(items) =>
        forall i | 0 <= i < |items| ensures MapRefs(MapRefs(items[i], f), g) == MapRefs(items[i], h) {
          MapRefsCompose(items[i], f, g, h);
        }
        assert MapRefs(MapRefs(v, f), g).items == MapRefs(v, h).items;
      case Obj(entries) =>
        var once := MapEntries(entries, f);
        forall i | 0 <= i < |entries| ensures MapEntries(once, g)[i] == MapEntries(entries, h)[i] {
          MapRefsCompose(entries[i].value, f, g, h);
        }
        assert MapEntries(once, g) == MapEntries(entries, h);
      case _ =>
    }
  }

  lemma {:induction false} MapRefsValid(v: Json, f: string -> string)
    requires Valid(v)
    ensures Valid(MapRefs(v, f))
  {
    match v {
      case Arr(items) =>
        forall i | 0 <= i < |items| ensures Valid(MapRefs(items[i], f)) {
          MapRefsValid(items[i], f);
        }
      case Obj(entries) =>
        var mapped := MapEntries(entries, f);
        forall i | 0 <= i < |entries| ensures Valid(mapped[i].value) {
          MapRefsValid(entries[i].value, f);
        }
      case _ =>
    }
  }

  /** `Map::insert`: replace in place, or append. */
  function Put(entries: seq<Entry>, key: string, v: Json): seq<Entry> {
    if entries == [] then [Entry(key, v)]
    else if entries[0].key == key then [Entry(key, v)] + entries[1..]
    else [entries[0]] + Put(entries[1..], key, v)
  }

  lemma {:induction false} PutGet(entries: seq<Entry>, key: string, v: Json, other: string)
    ensures Get(Put(entries, key, v), other) == if other == key then Some(v) else Get(entries, other)
  {
    if entries != [] {
      if entries[0].key == key {
        assert ([Entry(key, v)] + entries[1..])[1..] == entries[1..];
      } else {
        PutGet(entries[1..], key, v, other);
        assert ([entries[0]] + Put(entries[1..], key, v))[1..] == Put(entries[1..], key, v);
      }
    }
  }

  lemma {:induction false} PutMembers(entries: seq<Entry>, key: string, v: Json)
    requires UniqueKeys(entries)
    ensures UniqueKeys(Put(entries, key, v))
    ensures forall e :: e in Put(entries, key, v) <==> e == Entry(key, v) || (e in entries && e.key != key)
  {
    if entries != [] {
      assert entries == [entries[0]] + entries[1..];
      PutMembers(entries[1..], key, v);
    }
  }

  lemma PutRefHere(entries: seq<Entry>, key: string, v: Json)
    requires key != "$ref"
    ensures RefHere(Obj(Put(entries, key, v))) == RefHere(Obj(entries))
  {
    PutGet(entries, key, v, "$ref");
  }

  /** `s.replace(pattern, replacement)`. */
  function Replace(s: string, pattern: string, replacement: string): string
    requires pattern != []
    decreases |s|
  {
    if |s| < |pattern| then s
    else if StartsWith(s, pattern) then replacement + Replace(s[|pattern|..], pattern, replacement)
    else [s[0]] + Replace(s[1..], pattern, replacement)
  }

  lemma {:induction false} ReplaceAbsent(s: string, pattern: string, replacement: string, c: char)
    requires pattern != [] && c in pattern && c !in s
    ensures Replace(s, pattern, replacement) == s
  {
    if |s| >= |pattern| {
      var i :| 0 <= i < |pattern| && pattern[i] == c;
      assert s[..|pattern|][i] == s[i] != c;
      ReplaceAbsent(s[1..], pattern, replacement, c);
    }
  }

  lemma {:induction false} ReplaceSkip(a: string, s: string, pattern: string, replacement: string)
    requires pattern != [] && pattern[0] !in a
    requires Replace(s, pattern, replacement) == s
    ensures Replace(a + s, pattern, replacement) == a + s
  {
    if a == [] {
      assert a + s == s;
    } else if |a + s| >= |pattern| {
      assert (a + s)[0] == a[0] && (a + s)[1..] == a[1..] + s;
      ReplaceSkip(a[1..], s, pattern, replacement);
      assert [a[0]] + (a[1..] + s) == a + s;
    }
  }
}
