/** JSON trees as the schema code manipulates them. */
module Json {
  import opened Text

  /** `Obj` keeps its entries in order, and `Num` is a number by its printed text. */
  datatype Json =
    | Null
    | Bool(b: bool)
    | Num(text: string)
    | Str(s: string)
    | Arr(items: seq<Json>)
    | Obj(entries: seq<Entry>)

  datatype Entry = Entry(key: string, value: Json)

  predicate IsNumberChar(c: char) {
    '0' <= c <= '9' || c == '-' || c == '+' || c == '.' || c == 'e' || c == 'E'
  }

  predicate IsNumberText(s: string) {
    s != [] && forall i :: 0 <= i < |s| ==> IsNumberChar(s[i])
  }

  predicate UniqueKeys(entries: seq<Entry>) {
    forall i, j :: 0 <= i < j < |entries| ==> entries[i].key != entries[j].key
  }

  /** What every `serde_json::Value` satisfies: maps have distinct keys and numbers print as numbers. */
  predicate Valid(v: Json) {
    match v
    case Null => true
    case Bool(_) => true
    case Num(text) => IsNumberText(text)
    case Str(_) => true
    case Arr(items) => forall i :: 0 <= i < |items| ==> Valid(items[i])
    case Obj(entries) => UniqueKeys(entries) && forall i :: 0 <= i < |entries| ==> Valid(entries[i].value)
  }

  /** `Map::get`. */
  function Get(entries: seq<Entry>, key: string): (r: Option<Json>)
    ensures r.Some? ==> Entry(key, r.value) in entries
    ensures r.None? ==> forall e :: e in entries ==> e.key != key
  {
    if entries == [] then None
    else if entries[0].key == key then Some(entries[0].value)
    else
      var r := Get(entries[1..], key);
      assert entries == [entries[0]] + entries[1..];
      r
  }

  lemma UniqueKeysMembers(entries: seq<Entry>, a: Entry, b: Entry)
    requires UniqueKeys(entries) && a in entries && b in entries && a.key == b.key
    ensures a == b
  {
  }

  /** With distinct keys, `Get` finds exactly the entry that carries the key. */
  lemma GetMember(entries: seq<Entry>, e: Entry)
    requires UniqueKeys(entries) && e in entries
    ensures Get(entries, e.key) == Some(e.value)
  {
    var r := Get(entries, e.key);
    UniqueKeysMembers(entries, Entry(e.key, r.value), e);
  }
}
