/** What JSON text stands for, after RFC 8259, and that the serialization stands for its value. */
module JsonText {
  import opened Text
  import opened Json
  import opened JsonPrint

  // ----- the grammar of RFC 8259, without insignificant whitespace -----

  function HexDigit(c: char): int {
    if '0' <= c <= '9' then c as int - '0' as int
    else if 'a' <= c <= 'f' then c as int - 'a' as int + 10
    else if 'A' <= c <= 'F' then c as int - 'A' as int + 10
    else -1
  }

  /** The code point a letter stands for after a backslash. */
  function ShortEscape(c: char): Option<int> {
    match c
    case '"' => Some(0x22)
    case '\\' => Some(0x5C)
    case '/' => Some(0x2F)
    case 'b' => Some(0x08)
    case 'f' => Some(0x0C)
    case 'n' => Some(0x0A)
    case 'r' => Some(0x0D)
    case 't' => Some(0x09)
    case _ => None
  }

  /** Section 7: a character stands for itself unless it must be escaped, or is escaped by a letter or by its code point. */
  predicate Spells(text: string, c: char) {
    || (text == [c] && c as int >= 0x20 && c as int != 0x22 && c as int != 0x5C)
    || (|text| == 2 && text[0] == '\\' && ShortEscape(text[1]) == Some(c as int))
    || (|text| == 6 && text[0] == '\\' && text[1] == 'u' && (forall i :: 2 <= i < 6 ==> HexDigit(text[i]) >= 0)
        && c as int == 4096 * HexDigit(text[2]) + 256 * HexDigit(text[3]) + 16 * HexDigit(text[4]) + HexDigit(text[5]))
  }

  ghost predicate SpellsAll(text: string, s: string)
    decreases |s|
  {
    if s == [] then text == []
    else exists k :: 0 <= k <= |text| && Spells(text[..k], s[0]) && SpellsAll(text[k..], s[1..])
  }

  /** A quoted string. */
  ghost predicate Quotes(text: string, s: string) {
    |text| >= 2 && text[0] == '"' && text[|text| - 1] == '"' && SpellsAll(text[1..|text| - 1], s)
  }

  function Commas(parts: seq<string>): string {
    if parts == [] then [] else if |parts| == 1 then parts[0] else parts[0] + "," + Commas(parts[1..])
  }

  /** Section 4: a member is a quoted name, a colon and a value. */
  ghost predicate DenotesMember(text: string, e: Entry)
    decreases e, 0
  {
    exists k :: 0 <= k < |text| && Quotes(text[..k], e.key) && text[k] == ':' && Denotes(text[k + 1..], e.value)
  }

  /** Sections 3 to 6; a number is taken by its own text. */
  ghost predicate Denotes(text: string, v: Json)
    decreases v, 1
  {
    match v
    case Null => text == "null"
    case Bool(b) => text == if b then "true" else "false"
    case Num(number) => text == number
    case Str(s) => Quotes(text, s)
    case Arr(items) =>
      exists parts: seq<string> ::
        |parts| == |items| && text == "[" + Commas(parts) + "]" && forall i :: 0 <= i < |items| ==> Denotes(parts[i], items[i])
    case Obj(entries) =>
      exists parts: seq<string> ::
        |parts| == |entries| && text == "{" + Commas(parts) + "}" && forall i :: 0 <= i < |entries| ==> DenotesMember(parts[i], entries[i])
  }

  // ----- the serialization -----

  /** Each character is spelled, and is escaped only if it must be, by a letter if there is one, else in lower case. */
  lemma EscapeCharSpells(c: char)
    ensures Spells(EscapeChar(c), c)
    ensures |EscapeChar(c)| == 1 <==> c as int >= 0x20 && c != '"' && c != '\\'
    ensures |EscapeChar(c)| == 2 <==> c in "\"\\\U{8}\U{C}\n\r\t"
    ensures |EscapeChar(c)| == 6 ==> forall i :: 2 <= i < 6 ==> !('A' <= EscapeChar(c)[i] <= 'F')
  {
    if |EscapeChar(c)| == 6 {
      var high, low := c as int / 16, c as int % 16;
      HexMeans(high);
      HexMeans(low);
      assert EscapeChar(c) == ['\\', 'u', '0', '0', HEX[high], HEX[low]];
    }
  }

  lemma HexMeans(i: int)
    requires 0 <= i < 16
    ensures HexDigit(HEX[i]) == i && !('A' <= HEX[i] <= 'F')
  {
  }

  lemma {:induction false} EscapeSpells(s: string)
    ensures SpellsAll(Escape(s), s)
  {
    if s != [] {
      EscapeCharSpells(s[0]);
      EscapeSpells(s[1..]);
      var text, k := Escape(s), |EscapeChar(s[0])|;
      assert text[..k] == EscapeChar(s[0]) && text[k..] == Escape(s[1..]);
    }
  }

  lemma QuotedEscape(s: string)
    ensures Quotes("\"" + Escape(s) + "\"", s)
  {
    var text := "\"" + Escape(s) + "\"";
    assert text[1..|text| - 1] == Escape(s);
    EscapeSpells(s);
  }

  lemma {:induction false} PrintItemsCommas(items: seq<Json>)
    ensures PrintItems(items) == Commas(seq(|items|, i requires 0 <= i < |items| => Print(items[i])))
  {
    if |items| > 1 {
      PrintItemsCommas(items[1..]);
      var parts := seq(|items|, i requires 0 <= i < |items| => Print(items[i]));
      assert parts[1..] == seq(|items[1..]|, i requires 0 <= i < |items[1..]| => Print(items[1..][i]));
    }
  }

  lemma {:induction false} PrintEntriesCommas(entries: seq<Entry>)
    ensures PrintEntries(entries) == Commas(seq(|entries|, i requires 0 <= i < |entries| => PrintEntry(entries[i])))
  {
    if |entries| > 1 {
      PrintEntriesCommas(entries[1..]);
      var parts := seq(|entries|, i requires 0 <= i < |entries| => PrintEntry(entries[i]));
      assert parts[1..] == seq(|entries[1..]|, i requires 0 <= i < |entries[1..]| => PrintEntry(entries[1..][i]));
    }
  }

  lemma PrintEntryDenotes(e: Entry)
    ensures DenotesMember(PrintEntry(e), e)
    decreases e, 0
  {
    var name := "\"" + Escape(e.key) + "\"";
    var text, k := PrintEntry(e), |name|;
    assert text == name + ":" + Print(e.value);
    assert text[..k] == name && text[k] == ':' && text[k + 1..] == Print(e.value);
    QuotedEscape(e.key);
    PrintDenotes(e.value);
  }

  /** The text printed for a value stands for that value. */
  lemma {:induction false} PrintDenotes(v: Json)
    ensures Denotes(Print(v), v)
    decreases v, 1
  {
    match v {
      case Str(s) => QuotedEscape(s);
      case Arr(items) =>
        PrintItemsCommas(items);
        var parts := seq(|items|, i requires 0 <= i < |items| => Print(items[i]));
        forall i | 0 <= i < |items| ensures Denotes(parts[i], items[i]) {
          PrintDenotes(items[i]);
        }
        assert Print(v) == "[" + Commas(parts) + "]";
      case Obj(entries) =>
        PrintEntriesCommas(entries);
        var parts := seq(|entries|, i requires 0 <= i < |entries| => PrintEntry(entries[i]));
        forall i | 0 <= i < |entries| ensures DenotesMember(parts[i], entries[i]) {
          PrintEntryDenotes(entries[i]);
        }
        assert Print(v) == "{" + Commas(parts) + "}";
      case _ =>
    }
  }
}
