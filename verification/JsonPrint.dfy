/** The compact serialization used to break ties between equal sort keys, and its injectivity. */
module JsonPrint {
  import opened Text
  import opened Json

  const HEX: string := "0123456789abcdef"

  /** `serde_json` string escapes. */
  function EscapeChar(c: char): (r: string)
    ensures r != [] && r[0] != '"'
  {
    if c == '"' then "\\\""
    else if c == '\\' then "\\\\"
    else if c == '\U{8}' then "\\b"
    else if c == '\U{C}' then "\\f"
    else if c == '\n' then "\\n"
    else if c == '\r' then "\\r"
    else if c == '\t' then "\\t"
    else if c < ' ' then "\\u00" + [HEX[c as int / 16], HEX[c as int % 16]]
    else [c]
  }

  function Escape(s: string): string {
    if s == [] then [] else EscapeChar(s[0]) + Escape(s[1..])
  }

  /** `serde_json::to_string`. */
  function Print(v: Json): (r: string)
    decreases v, 1
  {
    match v
    case Null => "null"
    case Bool(b) => if b then "true" else "false"
    case Num(text) => text
    case Str(s) => "\"" + Escape(s) + "\""
    case Arr(items) => "[" + PrintItems(items) + "]"
    case Obj(entries) => "{" + PrintEntries(entries) + "}"
  }

  function PrintItems(items: seq<Json>): string
    decreases items, 0
  {
    if items == [] then ""
    else if |items| == 1 then Print(items[0])
    else Print(items[0]) + "," + PrintItems(items[1..])
  }

  function PrintEntry(e: Entry): string
    decreases e, 0
  {
    "\"" + Escape(e.key) + "\":" + Print(e.value)
  }

  function PrintEntries(entries: seq<Entry>): string
    decreases entries, 0
  {
    if entries == [] then ""
    else if |entries| == 1 then PrintEntry(entries[0])
    else PrintEntry(entries[0]) + "," + PrintEntries(entries[1..])
  }

  /** Two decompositions of one text, cut at the same length, have the same parts. */
  lemma SameCut(a: string, b: string, ra: string, rb: string)
    requires a + ra == b + rb && |a| == |b|
    ensures a == b && ra == rb
  {
    assert (a + ra)[..|a|] == a && (b + rb)[..|b|] == b;
    assert (a + ra)[|a|..] == ra && (b + rb)[|b|..] == rb;
  }

  lemma EscapeCharSecond(c: char)
    ensures |EscapeChar(c)| == 1 ==> EscapeChar(c)[0] == c && c != '\\'
    ensures |EscapeChar(c)| > 1 ==> EscapeChar(c)[0] == '\\'
    ensures |EscapeChar(c)| == 2 ==> EscapeChar(c)[1] != 'u'
    ensures |EscapeChar(c)| == 6 || |EscapeChar(c)| <= 2
    ensures |EscapeChar(c)| == 6 ==> EscapeChar(c)[1] == 'u'
  {
  }

  lemma HexInjective(i: int, j: int)
    requires 0 <= i < 16 && 0 <= j < 16 && HEX[i] == HEX[j]
    ensures i == j
  {
  }

  lemma EscapeCharInjective(c: char, d: char)
    requires EscapeChar(c) == EscapeChar(d)
    ensures c == d
  {
    EscapeCharSecond(c);
    EscapeCharSecond(d);
    if |EscapeChar(c)| == 6 {
      assert EscapeChar(c)[4] == HEX[c as int / 16] && EscapeChar(c)[5] == HEX[c as int % 16];
      assert EscapeChar(d)[4] == HEX[d as int / 16] && EscapeChar(d)[5] == HEX[d as int % 16];
      HexInjective(c as int / 16, d as int / 16);
      HexInjective(c as int % 16, d as int % 16);
    } else if |EscapeChar(c)| == 2 {
      assert EscapeChar(c)[1] == EscapeChar(d)[1];
    }
  }

  lemma EscapeCharCut(c: char, d: char, ra: string, rb: string)
    requires EscapeChar(c) + ra == EscapeChar(d) + rb
    ensures c == d && ra == rb
  {
    EscapeCharSecond(c);
    EscapeCharSecond(d);
    var t := EscapeChar(c) + ra;
    assert t[0] == EscapeChar(c)[0] == EscapeChar(d)[0];
    if |EscapeChar(c)| > 1 && |EscapeChar(d)| > 1 {
      assert t[1] == EscapeChar(c)[1] == EscapeChar(d)[1];
    }
    SameCut(EscapeChar(c), EscapeChar(d), ra, rb);
    EscapeCharInjective(c, d);
  }

  lemma EscapeHead(s: string, rest: string)
    ensures s == [] ==> Escape(s) + "\"" + rest == "\"" + rest
    ensures s != [] <==> (Escape(s) + "\"" + rest)[0] != '"'
  {
  }

  lemma Associate(a: string, b: string, c: string, d: string)
    ensures a + b + c + d == a + (b + c + d)
  {
  }

  lemma EscapeUnfold(s: string, rest: string)
    requires s != []
    ensures Escape(s) + "\"" + rest == EscapeChar(s[0]) + (Escape(s[1..]) + "\"" + rest)
  {
    Associate(EscapeChar(s[0]), Escape(s[1..]), "\"", rest);
  }

  lemma {:induction false} EscapeCut(s: string, t: string, ra: string, rb: string)
    requires Escape(s) + "\"" + ra == Escape(t) + "\"" + rb
    ensures s == t && ra == rb
  {
    EscapeHead(s, ra);
    EscapeHead(t, rb);
    if s == [] {
      SameCut("\"", "\"", ra, rb);
    } else {
      var sa, ta := Escape(s[1..]) + "\"" + ra, Escape(t[1..]) + "\"" + rb;
      EscapeUnfold(s, ra);
      EscapeUnfold(t, rb);
      EscapeCharCut(s[0], t[0], sa, ta);
      EscapeCut(s[1..], t[1..], ra, rb);
      assert s == [s[0]] + s[1..] && t == [t[0]] + t[1..];
    }
  }

  /** What may follow a printed value: nothing that could extend a number. */
  predicate Ends(rest: string) {
    rest == [] || !IsNumberChar(rest[0])
  }

  /** The first character tells the kinds of value apart. */
  function Lead(v: Json): char {
    match v
    case Null => 'n'
    case Bool(b) => if b then 't' else 'f'
    case Num(_) => '0'
    case Str(_) => '"'
    case Arr(_) => '['
    case Obj(_) => '{'
  }

  lemma PrintLead(v: Json)
    requires Valid(v)
    ensures Print(v) != []
    ensures Print(v)[0] == Lead(v) || (v.Num? && IsNumberChar(Print(v)[0]))
    ensures Print(v)[0] != ']'
  {
  }

  lemma {:induction false} NumberCut(a: string, b: string, ra: string, rb: string)
    requires IsNumberText(a) && IsNumberText(b) && Ends(ra) && Ends(rb)
    requires a + ra == b + rb
    ensures a == b && ra == rb
  {
    var t := a + ra;
    assert t == b + rb;
    assert forall i :: 0 <= i < |a| ==> t[i] == a[i] && IsNumberChar(t[i]);
    assert forall i :: 0 <= i < |b| ==> t[i] == b[i] && IsNumberChar(t[i]);
    assert |a| < |t| ==> !IsNumberChar(t[|a|]);
    assert |b| < |t| ==> !IsNumberChar(t[|b|]);
    SameCut(a, b, ra, rb);
  }

  /** A value behind its opening delimiter. */
  function Body(v: Json, rest: string): string
    requires v.Str? || v.Arr? || v.Obj?
  {
    match v
    case Str(s) => Escape(s) + "\"" + rest
    case Arr(items) => PrintItems(items) + "]" + rest
    case Obj(entries) => PrintEntries(entries) + "}" + rest
  }

  lemma PrintBody(v: Json, rest: string)
    requires v.Str? || v.Arr? || v.Obj?
    ensures Print(v) + rest == [Lead(v)] + Body(v, rest)
  {
  }

  lemma BodyCut(a: Json, b: Json, ra: string, rb: string)
    requires a.Str? || a.Arr? || a.Obj?
    requires b.Str? || b.Arr? || b.Obj?
    requires Lead(a) == Lead(b) && Print(a) + ra == Print(b) + rb
    ensures Body(a, ra) == Body(b, rb)
  {
    PrintBody(a, ra);
    PrintBody(b, rb);
    SameCut([Lead(a)], [Lead(b)], Body(a, ra), Body(b, rb));
  }

  /** A printed value is recoverable from any text that starts with it. */
  lemma {:induction false} PrintCut(a: Json, b: Json, ra: string, rb: string)
    requires Valid(a) && Valid(b) && Ends(ra) && Ends(rb)
    requires Print(a) + ra == Print(b) + rb
    ensures a == b && ra == rb
    decreases a, 1
  {
    PrintLead(a);
    PrintLead(b);
    assert (Print(a) + ra)[0] == Print(a)[0] && (Print(b) + rb)[0] == Print(b)[0];
    assert Lead(a) == Lead(b) && (a.Num? <==> b.Num?);
    match a {
      case Null => SameCut(Print(a), Print(b), ra, rb);
      case Bool(x) => SameCut(Print(a), Print(b), ra, rb);
      case Num(x) => NumberCut(x, b.text, ra, rb);
      case Str(x) =>
        BodyCut(a, b, ra, rb);
        EscapeCut(x, b.s, ra, rb);
      case Arr(xs) =>
        BodyCut(a, b, ra, rb);
        PrintItemsCut(xs, b.items, ra, rb);
      case Obj(es) =>
        BodyCut(a, b, ra, rb);
        PrintEntriesCut(es, b.entries, ra, rb);
    }
  }

  /** What follows the first item of a list: a comma and the rest, or the closing bracket. */
  function AfterFirst(printedRest: string, more: bool, close: char, rest: string): (r: string)
    ensures r != [] && r[0] == if more then ',' else close
  {
    if more then "," + (printedRest + [close] + rest) else [close] + rest
  }

  lemma Regroup(first: string, printedRest: string, more: bool, close: char, rest: string)
    ensures (if more then first + "," + printedRest else first) + [close] + rest
         == first + AfterFirst(printedRest, more, close, rest)
  {
  }

  lemma PrintItemsUnfold(xs: seq<Json>, rest: string)
    requires xs != []
    ensures PrintItems(xs) + "]" + rest
         == Print(xs[0]) + AfterFirst(PrintItems(xs[1..]), |xs| > 1, ']', rest)
  {
    Regroup(Print(xs[0]), PrintItems(xs[1..]), |xs| > 1, ']', rest);
  }

  lemma PrintItemsHead(xs: seq<Json>, rest: string)
    requires xs != [] ==> Valid(xs[0])
    ensures xs == [] ==> PrintItems(xs) + "]" + rest == "]" + rest
    ensures xs != [] <==> (PrintItems(xs) + "]" + rest)[0] != ']'
  {
    if xs != [] {
      PrintLead(xs[0]);
      PrintItemsUnfold(xs, rest);
    }
  }

  lemma {:induction false} PrintItemsCut(xs: seq<Json>, ys: seq<Json>, ra: string, rb: string)
    requires forall i :: 0 <= i < |xs| ==> Valid(xs[i])
    requires forall i :: 0 <= i < |ys| ==> Valid(ys[i])
    requires PrintItems(xs) + "]" + ra == PrintItems(ys) + "]" + rb
    ensures xs == ys && ra == rb
    decreases xs, 0
  {
    PrintItemsHead(xs, ra);
    PrintItemsHead(ys, rb);
    if xs == [] {
      SameCut("]", "]", ra, rb);
    } else {
      PrintItemsUnfold(xs, ra);
      PrintItemsUnfold(ys, rb);
      var fa := AfterFirst(PrintItems(xs[1..]), |xs| > 1, ']', ra);
      var fb := AfterFirst(PrintItems(ys[1..]), |ys| > 1, ']', rb);
      PrintCut(xs[0], ys[0], fa, fb);
      assert |xs| > 1 <==> |ys| > 1;
      if |xs| > 1 {
        SameCut(",", ",", PrintItems(xs[1..]) + "]" + ra, PrintItems(ys[1..]) + "]" + rb);
        PrintItemsCut(xs[1..], ys[1..], ra, rb);
        assert xs == [xs[0]] + xs[1..] && ys == [ys[0]] + ys[1..];
      } else {
        SameCut("]", "]", ra, rb);
        assert xs == [xs[0]] && ys == [ys[0]];
      }
    }
  }

  lemma PrintEntriesUnfold(es: seq<Entry>, rest: string)
    requires es != []
    ensures PrintEntries(es) + "}" + rest
         == PrintEntry(es[0]) + AfterFirst(PrintEntries(es[1..]), |es| > 1, '}', rest)
  {
    Regroup(PrintEntry(es[0]), PrintEntries(es[1..]), |es| > 1, '}', rest);
  }

  lemma PrintEntryParts(e: Entry, rest: string)
    ensures PrintEntry(e) + rest == "\"" + (Escape(e.key) + "\"" + (":" + (Print(e.value) + rest)))
  {
    EntryShape('"', ':', Escape(e.key), Print(e.value), rest);
  }

  lemma EntryShape(quote: char, colon: char, key: string, value: string, rest: string)
    ensures ([quote] + key + [quote, colon] + value) + rest == [quote] + (key + [quote] + ([colon] + (value + rest)))
  {
  }

  lemma {:induction false} PrintEntryCut(e: Entry, f: Entry, ra: string, rb: string)
    requires Valid(e.value) && Valid(f.value) && Ends(ra) && Ends(rb)
    requires PrintEntry(e) + ra == PrintEntry(f) + rb
    ensures e == f && ra == rb
    decreases e, 0
  {
    var ea, fa := ":" + (Print(e.value) + ra), ":" + (Print(f.value) + rb);
    PrintEntryParts(e, ra);
    PrintEntryParts(f, rb);
    SameCut("\"", "\"", Escape(e.key) + "\"" + ea, Escape(f.key) + "\"" + fa);
    EscapeCut(e.key, f.key, ea, fa);
    SameCut(":", ":", Print(e.value) + ra, Print(f.value) + rb);
    PrintCut(e.value, f.value, ra, rb);
  }

  lemma PrintEntriesHead(es: seq<Entry>, rest: string)
    ensures es == [] ==> PrintEntries(es) + "}" + rest == "}" + rest
    ensures es != [] <==> (PrintEntries(es) + "}" + rest)[0] != '}'
  {
    if es != [] {
      PrintEntriesUnfold(es, rest);
      PrintEntryParts(es[0], AfterFirst(PrintEntries(es[1..]), |es| > 1, '}', rest));
    }
  }

  lemma {:induction false} PrintEntriesCut(es: seq<Entry>, fs: seq<Entry>, ra: string, rb: string)
    requires forall i :: 0 <= i < |es| ==> Valid(es[i].value)
    requires forall i :: 0 <= i < |fs| ==> Valid(fs[i].value)
    requires PrintEntries(es) + "}" + ra == PrintEntries(fs) + "}" + rb
    ensures es == fs && ra == rb
    decreases es, 0
  {
    PrintEntriesHead(es, ra);
    PrintEntriesHead(fs, rb);
    if es == [] {
      SameCut("}", "}", ra, rb);
    } else {
      PrintEntriesUnfold(es, ra);
      PrintEntriesUnfold(fs, rb);
      var ga := AfterFirst(PrintEntries(es[1..]), |es| > 1, '}', ra);
      var gb := AfterFirst(PrintEntries(fs[1..]), |fs| > 1, '}', rb);
      PrintEntryCut(es[0], fs[0], ga, gb);
      assert |es| > 1 <==> |fs| > 1;
      if |es| > 1 {
        SameCut(",", ",", PrintEntries(es[1..]) + "}" + ra, PrintEntries(fs[1..]) + "}" + rb);
        PrintEntriesCut(es[1..], fs[1..], ra, rb);
        assert es == [es[0]] + es[1..] && fs == [fs[0]] + fs[1..];
      } else {
        SameCut("}", "}", ra, rb);
        assert es == [es[0]] && fs == [fs[0]];
      }
    }
  }

  /** Distinct values print differently. */
  lemma PrintInjective(a: Json, b: Json)
    requires Valid(a) && Valid(b)
    requires Print(a) == Print(b)
    ensures a == b
  {
    assert Print(a) + "" == Print(b) + "";
    PrintCut(a, b, "", "");
  }
}
