/** Canonical form of JSON fixtures: what it identifies, and that it identifies nothing else. */
module Canonical {
  import opened Text
  import opened Json
  import opened JsonPrint
  import opened Sorting

  /** The key an array element is sorted by; `None` leaves the whole array in order. */
  function SortKey(item: Json): Option<string> {
    match item
    case Null => Some("null")
    case Bool(b) => Some(if b then "b:true" else "b:false")
    case Num(text) => Some("n:" + text)
    case Str(s) => Some("s:" + s)
    case Arr(_) => None
    case Obj(entries) => ObjectKey(Get(entries, "$ref"), Get(entries, "title"))
  }

  function ObjectKey(reference: Option<Json>, title: Option<Json>): Option<string> {
    if reference.Some? && reference.value.Str? then Some("ref:" + reference.value.s)
    else if title.Some? && title.value.Str? then Some("title:" + title.value.s)
    else None
  }

  predicate Sortable(items: seq<Json>) {
    forall i :: 0 <= i < |items| ==> SortKey(items[i]).Some?
  }

  /** Sort key first, serialization as the tie-break. */
  predicate ItemLe(x: Json, y: Json) {
    var kx, ky := SortKey(x), SortKey(y);
    kx.Some? && ky.Some? &&
    if kx.value == ky.value then LexLe(Print(x), Print(y)) else LexLe(kx.value, ky.value)
  }

  predicate KeyLe(e: Entry, f: Entry) {
    LexLe(e.key, f.key)
  }

  function Canon(v: Json): Json
    decreases v, 1
  {
    match v
    case Arr(items) =>
      var canonical := CanonItems(items);
      if Sortable(canonical) then Arr(Sort(canonical, ItemLe)) else Arr(canonical)
    case Obj(entries) => Obj(Sort(CanonEntries(entries), KeyLe))
    case _ => v
  }

  function CanonItems(items: seq<Json>): (r: seq<Json>)
    ensures |r| == |items|
    ensures forall i :: 0 <= i < |items| ==> r[i] == Canon(items[i])
    decreases items, 0
  {
    seq(|items|, i requires 0 <= i < |items| => Canon(items[i]))
  }

  function CanonEntries(entries: seq<Entry>): (r: seq<Entry>)
    ensures |r| == |entries|
    ensures forall i :: 0 <= i < |entries| ==> r[i] == Entry(entries[i].key, Canon(entries[i].value))
    decreases entries, 0
  {
    seq(|entries|, i requires 0 <= i < |entries| => Entry(entries[i].key, Canon(entries[i].value)))
  }

  // ----- what the canonical form is for -----

  /** The text an object carries under a key. */
  function TextUnder(entries: seq<Entry>, key: string): Option<string> {
    if entries == [] then None
    else if entries[0].key == key && entries[0].value.Str? then Some(entries[0].value.s)
    else TextUnder(entries[1..], key)
  }

  /** Scalars, and objects named by a text under `$ref` or `title`, may change places in an array. */
  predicate Reorderable(item: Json) {
    match item
    case Arr(_) => false
    case Obj(entries) => TextUnder(entries, "$ref").Some? || TextUnder(entries, "title").Some?
    case _ => true
  }

  predicate AllReorderable(items: seq<Json>) {
    forall i :: 0 <= i < |items| ==> Reorderable(items[i])
  }

  /**
   * Equality up to the order of object keys and, at any depth, the order of arrays
   * whose every element is reorderable.
   */
  ghost predicate Equiv(a: Json, b: Json)
    decreases a, 1
  {
    match a
    case Arr(xs) =>
      b.Arr? && exists p :: MatchItems(xs, b.items, p) && (AllReorderable(xs) || p == Identity(|xs|))
    case Obj(es) =>
      b.Obj? && exists p :: MatchEntries(es, b.entries, p)
    case _ => a == b
  }

  ghost predicate MatchItems(xs: seq<Json>, ys: seq<Json>, p: seq<nat>)
    decreases xs, 0
  {
    && |xs| == |ys| && IsPermutation(p, |xs|)
    && forall i :: 0 <= i < |xs| ==> Equiv(xs[i], ys[p[i]])
  }

  ghost predicate MatchEntries(es: seq<Entry>, fs: seq<Entry>, p: seq<nat>)
    decreases es, 0
  {
    && |es| == |fs| && IsPermutation(p, |es|)
    && forall i :: 0 <= i < |es| ==> es[i].key == fs[p[i]].key && Equiv(es[i].value, fs[p[i]].value)
  }

  /** In a valid object a key's value is found wherever it stands. */
  lemma {:induction false} TextFound(entries: seq<Entry>, key: string)
    requires UniqueKeys(entries)
    ensures TextUnder(entries, key) == match Get(entries, key) case Some(Str(s)) => Some(s) case _ => None
  {
    if entries != [] {
      TextFound(entries[1..], key);
      if entries[0].key == key && !entries[0].value.Str? {
        NoText(entries[1..], key);
      }
    }
  }

  lemma {:induction false} NoText(entries: seq<Entry>, key: string)
    requires forall i :: 0 <= i < |entries| ==> entries[i].key != key
    ensures TextUnder(entries, key) == None
  {
    if entries != [] {
      NoText(entries[1..], key);
    }
  }

  /** Exactly the reorderable elements have a sort key. */
  lemma SortKeyExactly(item: Json)
    requires Valid(item)
    ensures SortKey(item).Some? <==> Reorderable(item)
  {
    if item.Obj? {
      TextFound(item.entries, "$ref");
      TextFound(item.entries, "title");
    }
  }

  lemma SortableExactly(items: seq<Json>)
    requires forall i :: 0 <= i < |items| ==> Valid(items[i])
    ensures Sortable(items) <==> AllReorderable(items)
  {
    forall i | 0 <= i < |items| ensures SortKey(items[i]).Some? <==> Reorderable(items[i]) {
      SortKeyExactly(items[i]);
    }
  }

  // ----- the two sorts order their elements totally -----

  ghost predicate SortableSet(dom: set<Json>) {
    forall x :: x in dom ==> Valid(x) && SortKey(x).Some?
  }

  lemma ItemLeTotal(x: Json, y: Json)
    requires Valid(x) && Valid(y) && SortKey(x).Some? && SortKey(y).Some?
    ensures ItemLe(x, y) || ItemLe(y, x)
    ensures ItemLe(x, y) && ItemLe(y, x) ==> x == y
  {
    LexTotal(SortKey(x).value, SortKey(y).value);
    LexTotal(Print(x), Print(y));
    if Print(x) == Print(y) {
      PrintInjective(x, y);
    }
  }

  lemma ItemLeTransitive(x: Json, y: Json, z: Json)
    requires ItemLe(x, y) && ItemLe(y, z)
    ensures ItemLe(x, z)
  {
    var kx, ky, kz := SortKey(x).value, SortKey(y).value, SortKey(z).value;
    if kx == ky == kz {
      LexTransitive(Print(x), Print(y), Print(z));
    } else {
      LexTotal(kx, ky);
      LexTotal(ky, kz);
      LexTransitive(kx, ky, kz);
    }
  }

  lemma ItemsOrdered(dom: set<Json>)
    requires SortableSet(dom)
    ensures Orders(ItemLe, dom)
  {
    forall x, y | x in dom && y in dom
      ensures ItemLe(x, y) || ItemLe(y, x)
      ensures ItemLe(x, y) && ItemLe(y, x) ==> x == y
    {
      ItemLeTotal(x, y);
    }
    forall x, y, z | x in dom && y in dom && z in dom && ItemLe(x, y) && ItemLe(y, z) ensures ItemLe(x, z) {
      ItemLeTransitive(x, y, z);
    }
  }

  lemma EntriesOrdered(entries: seq<Entry>, dom: set<Entry>)
    requires UniqueKeys(entries)
    requires forall e :: e in dom ==> e in entries
    ensures Orders(KeyLe, dom)
  {
    forall e, f | e in dom && f in dom
      ensures KeyLe(e, f) || KeyLe(f, e)
      ensures KeyLe(e, f) && KeyLe(f, e) ==> e == f
    {
      LexTotal(e.key, f.key);
      if e.key == f.key {
        UniqueKeysMembers(entries, e, f);
      }
    }
    forall e, f, g | e in dom && f in dom && g in dom && KeyLe(e, f) && KeyLe(f, g) ensures KeyLe(e, g) {
      LexTransitive(e.key, f.key, g.key);
    }
  }

  lemma UniqueKeysRearranged(es: seq<Entry>, fs: seq<Entry>)
    requires UniqueKeys(es) && multiset(es) == multiset(fs)
    ensures UniqueKeys(fs)
  {
    SameElements(es, fs);
    var p := MultisetRearranged(fs, es);
    forall i, j | 0 <= i < j < |fs| ensures fs[i].key != fs[j].key {
      assert fs[i] == es[p[i]] && fs[j] == es[p[j]];
      assert p[i] < p[j] || p[j] < p[i];
    }
  }

  // ----- canonicalization keeps validity and sort keys -----

  lemma {:induction false} CanonValid(v: Json)
    requires Valid(v)
    ensures Valid(Canon(v))
  {
    match v {
      case Arr(items) =>
        var cs := CanonItems(items);
        forall i | 0 <= i < |items| ensures Valid(cs[i]) {
          CanonValid(items[i]);
        }
        if Sortable(cs) {
          var sorted := Sort(cs, ItemLe);
          SameElements(cs, sorted);
          forall i | 0 <= i < |sorted| ensures Valid(sorted[i]) {
            assert sorted[i] in cs;
          }
        }
      case Obj(entries) =>
        var es := CanonEntries(entries);
        forall i | 0 <= i < |entries| ensures Valid(es[i].value) {
          CanonValid(entries[i].value);
        }
        var sorted := Sort(es, KeyLe);
        SameElements(es, sorted);
        UniqueKeysRearranged(es, sorted);
        forall i | 0 <= i < |sorted| ensures Valid(sorted[i].value) {
          assert sorted[i] in es;
        }
      case _ =>
    }
  }

  lemma CanonGet(entries: seq<Entry>, key: string)
    requires UniqueKeys(entries)
    ensures Get(Sort(CanonEntries(entries), KeyLe), key) == CanonFound(Get(entries, key))
  {
    var es := CanonEntries(entries);
    var sorted := Sort(es, KeyLe);
    SameElements(es, sorted);
    UniqueKeysRearranged(es, sorted);
    var r := Get(entries, key);
    if r.Some? {
      var i :| 0 <= i < |entries| && entries[i] == Entry(key, r.value);
      assert es[i] in sorted;
      GetMember(sorted, es[i]);
    } else {
      assert forall i :: 0 <= i < |entries| ==> es[i].key == entries[i].key && entries[i] in entries;
      assert forall e :: e in sorted ==> e in es && e.key != key;
    }
  }

  function CanonFound(found: Option<Json>): Option<Json> {
    match found case Some(v) => Some(Canon(v)) case None => None
  }

  lemma CanonObjectKey(reference: Option<Json>, title: Option<Json>)
    ensures ObjectKey(CanonFound(reference), CanonFound(title)) == ObjectKey(reference, title)
  {
  }

  lemma CanonSortKey(v: Json)
    requires Valid(v)
    ensures SortKey(Canon(v)) == SortKey(v)
  {
    if v.Obj? {
      var sorted := Sort(CanonEntries(v.entries), KeyLe);
      var reference, title := Get(v.entries, "$ref"), Get(v.entries, "title");
      CanonGet(v.entries, "$ref");
      CanonGet(v.entries, "title");
      CanonObjectKey(reference, title);
      calc {
        SortKey(Canon(v));
        ObjectKey(Get(sorted, "$ref"), Get(sorted, "title"));
        ObjectKey(CanonFound(reference), CanonFound(title));
        ObjectKey(reference, title);
        SortKey(v);
      }
    }
  }

  lemma CanonItemsSortable(items: seq<Json>)
    requires forall i :: 0 <= i < |items| ==> Valid(items[i])
    ensures Sortable(CanonItems(items)) <==> Sortable(items)
  {
    forall i | 0 <= i < |items| ensures SortKey(CanonItems(items)[i]) == SortKey(items[i]) {
      CanonSortKey(items[i]);
    }
  }

  lemma CanonItemsOrdered(items: seq<Json>) returns (dom: set<Json>)
    requires forall i :: 0 <= i < |items| ==> Valid(items[i])
    requires Sortable(CanonItems(items))
    ensures Orders(ItemLe, dom) && Within(CanonItems(items), dom)
  {
    var cs := CanonItems(items);
    dom := set x | x in cs;
    forall x | x in dom ensures Valid(x) && SortKey(x).Some? {
      var i :| 0 <= i < |cs| && cs[i] == x;
      CanonValid(items[i]);
    }
    ItemsOrdered(dom);
  }

  lemma CanonEntriesOrdered(entries: seq<Entry>) returns (dom: set<Entry>)
    requires UniqueKeys(entries)
    ensures Orders(KeyLe, dom) && Within(CanonEntries(entries), dom)
  {
    dom := set e | e in CanonEntries(entries);
    EntriesOrdered(CanonEntries(entries), dom);
  }

  // ----- the main results -----

  /** The canonical form is equivalent to its input. */
  lemma {:induction false} CanonEquiv(v: Json)
    requires Valid(v)
    ensures Equiv(v, Canon(v))
  {
    match v {
      case Arr(items) =>
        var cs := CanonItems(items);
        forall i | 0 <= i < |items| ensures Equiv(items[i], cs[i]) {
          CanonEquiv(items[i]);
        }
        CanonItemsSortable(items);
        SortableExactly(items);
        if Sortable(cs) {
          var p := MultisetRearranged(cs, Sort(cs, ItemLe));
          assert MatchItems(items, Canon(v).items, p);
        } else {
          assert MatchItems(items, cs, Identity(|items|));
        }
      case Obj(entries) =>
        var es := CanonEntries(entries);
        forall i | 0 <= i < |entries| ensures Equiv(entries[i].value, es[i].value) {
          CanonEquiv(entries[i].value);
        }
        var p := MultisetRearranged(es, Sort(es, KeyLe));
        forall i | 0 <= i < |entries|
          ensures entries[i].key == Canon(v).entries[p[i]].key
          ensures Equiv(entries[i].value, Canon(v).entries[p[i]].value)
        {
          assert es[i] == Canon(v).entries[p[i]];
        }
        assert MatchEntries(entries, Canon(v).entries, p);
      case _ =>
    }
  }

  /** Equivalent values have the same canonical form. */
  lemma {:induction false} EquivSameCanon(a: Json, b: Json)
    requires Valid(a) && Valid(b) && Equiv(a, b)
    ensures Canon(a) == Canon(b)
    decreases a
  {
    match a {
      case Arr(xs) =>
        var ys := b.items;
        var p :| MatchItems(xs, ys, p) && (AllReorderable(xs) || p == Identity(|xs|));
        SortableExactly(xs);
        forall i | 0 <= i < |xs| ensures CanonItems(xs)[i] == CanonItems(ys)[p[i]] {
          EquivSameCanon(xs[i], ys[p[i]]);
        }
        assert Rearranges(CanonItems(xs), CanonItems(ys), p);
        RearrangedSameCanon(xs, ys, p);
      case Obj(es) =>
        var fs := b.entries;
        var p :| MatchEntries(es, fs, p);
        forall i | 0 <= i < |es| ensures CanonEntries(es)[i] == CanonEntries(fs)[p[i]] {
          EquivSameCanon(es[i].value, fs[p[i]].value);
        }
        assert Rearranges(CanonEntries(es), CanonEntries(fs), p);
        RearrangedMultiset(CanonEntries(es), CanonEntries(fs), p);
        var dom := CanonEntriesOrdered(es);
        SortDeterminedByMultiset(CanonEntries(es), CanonEntries(fs), KeyLe, dom);
      case _ =>
    }
  }

  lemma RearrangedSameCanon(xs: seq<Json>, ys: seq<Json>, p: seq<nat>)
    requires forall i :: 0 <= i < |xs| ==> Valid(xs[i])
    requires Rearranges(CanonItems(xs), CanonItems(ys), p) && (Sortable(xs) || p == Identity(|xs|))
    ensures Canon(Arr(xs)) == Canon(Arr(ys))
  {
    var cs, ds := CanonItems(xs), CanonItems(ys);
    RearrangedMultiset(cs, ds, p);
    CanonItemsSortable(xs);
    SameSortability(cs, ds);
    if Sortable(cs) {
      var dom := CanonItemsOrdered(xs);
      SortDeterminedByMultiset(cs, ds, ItemLe, dom);
    } else {
      assert cs == ds;
    }
  }

  lemma SameSortability(xs: seq<Json>, ys: seq<Json>)
    requires multiset(xs) == multiset(ys)
    ensures Sortable(xs) <==> Sortable(ys)
  {
    SameElements(xs, ys);
    assert forall i :: 0 <= i < |xs| ==> xs[i] in ys;
    assert forall i :: 0 <= i < |ys| ==> ys[i] in xs;
  }

  /** Values with the same canonical form are equivalent. */
  lemma {:induction false} SameCanonEquiv(a: Json, b: Json)
    requires Valid(a) && Valid(b) && Canon(a) == Canon(b)
    ensures Equiv(a, b)
    decreases a
  {
    match a {
      case Arr(xs) =>
        var ys := b.items;
        var p := CanonItemsMatched(xs, ys);
        SortableExactly(xs);
        forall i | 0 <= i < |xs| ensures Equiv(xs[i], ys[p[i]]) {
          SameCanonEquiv(xs[i], ys[p[i]]);
        }
        assert MatchItems(xs, ys, p);
      case Obj(es) =>
        var fs := b.entries;
        assert multiset(CanonEntries(es)) == multiset(CanonEntries(fs));
        var p := MultisetRearranged(CanonEntries(es), CanonEntries(fs));
        forall i | 0 <= i < |es| ensures es[i].key == fs[p[i]].key && Equiv(es[i].value, fs[p[i]].value) {
          assert CanonEntries(es)[i] == CanonEntries(fs)[p[i]];
          SameCanonEquiv(es[i].value, fs[p[i]].value);
        }
        assert MatchEntries(es, fs, p);
      case _ =>
    }
  }

  lemma CanonItemsMatched(xs: seq<Json>, ys: seq<Json>) returns (p: seq<nat>)
    requires Valid(Arr(xs)) && Valid(Arr(ys)) && Canon(Arr(xs)) == Canon(Arr(ys))
    ensures |xs| == |ys| && IsPermutation(p, |xs|) && (Sortable(xs) || p == Identity(|xs|))
    ensures forall i :: 0 <= i < |xs| ==> Canon(xs[i]) == Canon(ys[p[i]])
  {
    var cx, cy := CanonItems(xs), CanonItems(ys);
    CanonItemsSortable(xs);
    assert multiset(cx) == multiset(Canon(Arr(xs)).items) == multiset(Canon(Arr(ys)).items) == multiset(cy);
    SameSortability(cx, cy);
    if Sortable(cx) {
      p := MultisetRearranged(cx, cy);
    } else {
      p := Identity(|xs|);
    }
    forall i | 0 <= i < |xs| ensures Canon(xs[i]) == Canon(ys[p[i]]) {
      assert cx[i] == cy[p[i]];
    }
  }

  /** Canonicalization decides equivalence. */
  lemma CanonDecidesEquiv(a: Json, b: Json)
    requires Valid(a) && Valid(b)
    ensures Canon(a) == Canon(b) <==> Equiv(a, b)
  {
    if Canon(a) == Canon(b) {
      SameCanonEquiv(a, b);
    }
    if Equiv(a, b) {
      EquivSameCanon(a, b);
    }
  }

  lemma CanonIdempotent(v: Json)
    requires Valid(v)
    ensures Canon(Canon(v)) == Canon(v)
  {
    CanonValid(v);
    CanonEquiv(v);
    EquivSameCanon(v, Canon(v));
  }

  /** Hence equivalence is an equivalence relation. */
  lemma EquivIsEquivalence(a: Json, b: Json, c: Json)
    requires Valid(a) && Valid(b) && Valid(c)
    ensures Equiv(a, a)
    ensures Equiv(a, b) ==> Equiv(b, a)
    ensures Equiv(a, b) && Equiv(b, c) ==> Equiv(a, c)
  {
    CanonDecidesEquiv(a, a);
    CanonDecidesEquiv(a, b);
    CanonDecidesEquiv(b, a);
    CanonDecidesEquiv(b, c);
    CanonDecidesEquiv(a, c);
  }

  // ----- the order of the result -----

  /** Booleans, numbers, null, references, strings, titled objects: in this order. */
  function Rank(item: Json): nat {
    match item
    case Bool(_) => 0
    case Num(_) => 1
    case Null => 2
    case Obj(entries) => if TextUnder(entries, "$ref").Some? then 3 else 5
    case Str(_) => 4
    case Arr(_) => 6
  }

  /** Among elements of one rank: false before true, then by number text, reference, string or title. */
  function Label(item: Json): string {
    match item
    case Bool(b) => if b then "true" else "false"
    case Num(text) => text
    case Str(s) => s
    case Obj(entries) =>
      (match (TextUnder(entries, "$ref"), TextUnder(entries, "title"))
       case (Some(r), _) => r
       case (None, Some(t)) => t
       case (None, None) => "")
    case _ => ""
  }

  predicate Precedes(x: Json, y: Json) {
    if Rank(x) != Rank(y) then Rank(x) < Rank(y)
    else if Label(x) != Label(y) then LexLe(Label(x), Label(y))
    else LexLe(Print(x), Print(y))
  }

  lemma {:induction false} LexPrefix(p: string, a: string, b: string)
    ensures LexLe(p + a, p + b) <==> LexLe(a, b)
  {
    if p == [] {
      assert p + a == a && p + b == b;
    } else {
      assert (p + a)[1..] == p[1..] + a && (p + b)[1..] == p[1..] + b;
      LexPrefix(p[1..], a, b);
    }
  }

  const TAGS: seq<string> := ["b:", "n:", "null", "ref:", "s:", "title:"]

  lemma SortKeyShape(x: Json)
    requires Valid(x) && Reorderable(x)
    ensures Rank(x) < |TAGS| && SortKey(x) == Some(TAGS[Rank(x)] + Label(x))
  {
    match x {
      case Obj(entries) =>
        TextFound(entries, "$ref");
        TextFound(entries, "title");
      case Null => assert "null" + "" == "null";
      case Bool(b) => assert "b:" + "true" == "b:true" && "b:" + "false" == "b:false";
      case _ =>
    }
  }

  lemma TagOrder(i: nat, j: nat, a: string, b: string)
    requires i < |TAGS| && j < |TAGS| && i != j
    ensures TAGS[i] + a != TAGS[j] + b && (LexLe(TAGS[i] + a, TAGS[j] + b) <==> i < j)
  {
    var x, y := TAGS[i] + a, TAGS[j] + b;
    assert x[0] == TAGS[i][0] && y[0] == TAGS[j][0];
    if {i, j} == {1, 2} {
      assert x[1..][0] == TAGS[i][1] && y[1..][0] == TAGS[j][1];
    }
  }

  /** The comparison the sort uses is that order. */
  lemma ItemLeMeans(x: Json, y: Json)
    requires Valid(x) && Valid(y) && Reorderable(x) && Reorderable(y)
    ensures ItemLe(x, y) <==> Precedes(x, y)
  {
    SortKeyShape(x);
    SortKeyShape(y);
    var i, j, a, b := Rank(x), Rank(y), Label(x), Label(y);
    if i != j {
      TagOrder(i, j, a, b);
    } else {
      LexPrefix(TAGS[i], a, b);
      assert TAGS[i] + a == TAGS[i] + b ==> (TAGS[i] + a)[|TAGS[i]|..] == (TAGS[i] + b)[|TAGS[i]|..];
    }
  }

  ghost predicate InOrder(items: seq<Json>) {
    forall i, j :: 0 <= i < j < |items| ==> Precedes(items[i], items[j])
  }

  ghost predicate KeysInOrder(entries: seq<Entry>) {
    forall i, j :: 0 <= i < j < |entries| ==> LexLe(entries[i].key, entries[j].key)
  }

  /** At every depth object keys ascend, and so do the elements of every reorderable array. */
  ghost predicate Ascending(v: Json) {
    match v
    case Arr(items) =>
      (forall i :: 0 <= i < |items| ==> Ascending(items[i])) && (AllReorderable(items) ==> InOrder(items))
    case Obj(entries) =>
      (forall i :: 0 <= i < |entries| ==> Ascending(entries[i].value)) && KeysInOrder(entries)
    case _ => true
  }

  lemma SortedInOrder(items: seq<Json>)
    requires (forall i :: 0 <= i < |items| ==> Valid(items[i])) && AllReorderable(items)
    ensures Sorted(items, ItemLe) <==> InOrder(items)
  {
    forall i, j | 0 <= i < |items| && 0 <= j < |items| ensures ItemLe(items[i], items[j]) <==> Precedes(items[i], items[j]) {
      ItemLeMeans(items[i], items[j]);
    }
  }

  lemma {:induction false} CanonArrayAscending(items: seq<Json>)
    requires Valid(Arr(items)) && forall i :: 0 <= i < |items| ==> Ascending(Canon(items[i]))
    ensures Ascending(Canon(Arr(items)))
  {
    var cs := CanonItems(items);
    var out := Canon(Arr(items)).items;
    CanonValid(Arr(items));
    SameElements(cs, out);
    forall i | 0 <= i < |out| ensures Ascending(out[i]) {
      assert out[i] in cs;
    }
    forall i | 0 <= i < |items| ensures Valid(cs[i]) {
      CanonValid(items[i]);
    }
    SortableExactly(cs);
    SortableExactly(out);
    SameSortability(cs, out);
    if Sortable(cs) {
      var dom := CanonItemsOrdered(items);
      SortSorted(cs, ItemLe, dom);
      SortedInOrder(out);
    }
  }

  lemma CanonObjectAscending(entries: seq<Entry>)
    requires Valid(Obj(entries)) && forall i :: 0 <= i < |entries| ==> Ascending(Canon(entries[i].value))
    ensures Ascending(Canon(Obj(entries)))
  {
    var es := CanonEntries(entries);
    var out := Canon(Obj(entries)).entries;
    SameElements(es, out);
    forall i | 0 <= i < |out| ensures Ascending(out[i].value) {
      assert out[i] in es;
    }
    var dom := CanonEntriesOrdered(entries);
    SortSorted(es, KeyLe, dom);
    assert Sorted(out, KeyLe);
  }

  /** The canonical form ascends at every depth. */
  lemma {:induction false} CanonAscending(v: Json)
    requires Valid(v)
    ensures Ascending(Canon(v))
  {
    match v {
      case Arr(items) =>
        forall i | 0 <= i < |items| ensures Ascending(Canon(items[i])) {
          CanonAscending(items[i]);
        }
        CanonArrayAscending(items);
      case Obj(entries) =>
        forall i | 0 <= i < |entries| ensures Ascending(Canon(entries[i].value)) {
          CanonAscending(entries[i].value);
        }
        CanonObjectAscending(entries);
      case _ =>
    }
  }

  lemma AscendingArrayFixed(items: seq<Json>)
    requires Valid(Arr(items)) && Ascending(Arr(items)) && forall i :: 0 <= i < |items| ==> Canon(items[i]) == items[i]
    ensures Canon(Arr(items)) == Arr(items)
  {
    assert CanonItems(items) == items;
    SortableExactly(items);
    if Sortable(items) {
      var dom := CanonItemsOrdered(items);
      SortedInOrder(items);
      SortSorted(items, ItemLe, dom);
      SortedUnique(Sort(items, ItemLe), items, ItemLe, dom);
    }
  }

  lemma AscendingObjectFixed(entries: seq<Entry>)
    requires Valid(Obj(entries)) && Ascending(Obj(entries)) && forall i :: 0 <= i < |entries| ==> Canon(entries[i].value) == entries[i].value
    ensures Canon(Obj(entries)) == Obj(entries)
  {
    assert CanonEntries(entries) == entries;
    var dom := CanonEntriesOrdered(entries);
    assert Sorted(entries, KeyLe);
    SortSorted(entries, KeyLe, dom);
    SortedUnique(Sort(entries, KeyLe), entries, KeyLe, dom);
  }

  lemma {:induction false} AscendingFixed(v: Json)
    requires Valid(v) && Ascending(v)
    ensures Canon(v) == v
  {
    match v {
      case Arr(items) =>
        forall i | 0 <= i < |items| ensures Canon(items[i]) == items[i] {
          AscendingFixed(items[i]);
        }
        AscendingArrayFixed(items);
      case Obj(entries) =>
        forall i | 0 <= i < |entries| ensures Canon(entries[i].value) == entries[i].value {
          AscendingFixed(entries[i].value);
        }
        AscendingObjectFixed(entries);
      case _ =>
    }
  }

  /** The canonical form is the one equivalent value that ascends. */
  lemma CanonUnique(v: Json, w: Json)
    requires Valid(v) && Valid(w)
    ensures w == Canon(v) <==> Equiv(v, w) && Ascending(w)
  {
    CanonEquiv(v);
    CanonAscending(v);
    if Equiv(v, w) && Ascending(w) {
      EquivSameCanon(v, w);
      AscendingFixed(w);
    }
  }

  // ----- the code -----

  method CanonicalizeJson(value: Json) returns (r: Json)
    requires Valid(value)
    ensures r == Canon(value) && Equiv(value, r) && Ascending(r)
    decreases value, 1
  {
    match value {
      case Arr(items) => r := CanonicalizeArray(items);
      case Obj(entries) => r := CanonicalizeObject(entries);
      case _ => r := value;
    }
    CanonEquiv(value);
    CanonAscending(value);
  }

  method CanonicalizeItems(source: seq<Json>) returns (items: seq<Json>)
    requires forall i :: 0 <= i < |source| ==> Valid(source[i])
    ensures items == CanonItems(source)
    decreases source, 0
  {
    ghost var goal := CanonItems(source);
    items := [];
    var n := 0;
    while n < |source|
      invariant 0 <= n <= |source|
      invariant items == goal[..n]
    {
      var item := CanonicalizeJson(source[n]);
      items := items + [item];
      n := n + 1;
    }
  }

  /** The array arm: canonicalize each item, then sort unless some item has no key. */
  method CanonicalizeArray(source: seq<Json>) returns (r: Json)
    requires forall i :: 0 <= i < |source| ==> Valid(source[i])
    ensures r == Canon(Arr(source))
    decreases source, 1
  {
    var items := CanonicalizeItems(source);
    var keyed := AllKeyed(items);
    r := if keyed then Arr(Sort(items, ItemLe)) else Arr(items);
  }

  /** Whether every item has a sort key; one without ends the search. */
  method AllKeyed(items: seq<Json>) returns (keyed: bool)
    ensures keyed <==> Sortable(items)
  {
    var n := 0;
    while n < |items|
      invariant 0 <= n <= |items|
      invariant forall j :: 0 <= j < n ==> SortKey(items[j]).Some?
    {
      if SortKey(items[n]).None? {
        return false;
      }
      n := n + 1;
    }
    keyed := true;
  }

  /** Canonicalize the values of entries taken from `source`, keeping their order. */
  method CanonicalizeChildren(ghost source: seq<Entry>, entries: seq<Entry>) returns (sorted: seq<Entry>)
    requires forall i :: 0 <= i < |source| ==> Valid(source[i].value)
    requires forall e :: e in entries ==> e in source
    ensures sorted == CanonEntries(entries)
    decreases source, 0
  {
    ghost var goal := CanonEntries(entries);
    sorted := [];
    var n := 0;
    while n < |entries|
      invariant 0 <= n <= |entries|
      invariant sorted == goal[..n]
    {
      assert entries[n] in source;
      var child := CanonicalizeJson(entries[n].value);
      sorted := sorted + [Entry(entries[n].key, child)];
      n := n + 1;
    }
  }

  /** The object arm: sort the entries, then insert their canonical children one by one. */
  method CanonicalizeObject(source: seq<Entry>) returns (r: Json)
    requires UniqueKeys(source) && forall i :: 0 <= i < |source| ==> Valid(source[i].value)
    ensures r == Canon(Obj(source))
    decreases source, 1
  {
    var entries := Sort(source, KeyLe);
    SameElements(source, entries);
    var sorted := CanonicalizeChildren(source, entries);
    SortThenCanon(source);
    r := Obj(sorted);
  }

  /** Sorting by key commutes with canonicalizing the values. */
  lemma SortThenCanon(source: seq<Entry>)
    requires UniqueKeys(source)
    ensures CanonEntries(Sort(source, KeyLe)) == Sort(CanonEntries(source), KeyLe)
  {
    var sorted := Sort(source, KeyLe);
    var sdom := set e | e in source;
    EntriesOrdered(source, sdom);
    SortSorted(source, KeyLe, sdom);
    var p := MultisetRearranged(sorted, source);
    assert Rearranges(CanonEntries(sorted), CanonEntries(source), p);
    RearrangedMultiset(CanonEntries(sorted), CanonEntries(source), p);
    var dom := CanonEntriesOrdered(source);
    SortSorted(CanonEntries(source), KeyLe, dom);
    SameDomain(CanonEntries(source), CanonEntries(sorted), dom);
    SortedUnique(CanonEntries(sorted), Sort(CanonEntries(source), KeyLe), KeyLe, dom);
  }
}
