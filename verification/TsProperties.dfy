/** Which union arms and fields of the generated TypeScript are experimental. */
module TsProperties {
  import opened Text
  import opened Sequences
  import opened Scanner
  import opened TsFilters
  import opened FieldFilter
  import opened Layouts

  // ----- string literals -----

  predicate IsQuote(ch: char) {
    ch == '"' || ch == '\''
  }

  /** The text of a literal, and how many characters it takes with its quotes. */
  datatype Literal = Literal(text: string, consumed: nat)

  /** Where the literal that is open in front of `s` ends. */
  function LiteralEnd(quote: char, s: string, escape: bool): (r: Option<nat>)
    ensures r.Some? ==> r.value < |s|
  {
    if s == [] then None
    else if !escape && s[0] == quote && s[0] != '\\' then Some(0)
    else match LiteralEnd(quote, s[1..], !escape && s[0] == '\\') case Some(k) => Some(k + 1) case None => None
  }

  /** `parse_string_literal`. */
  function ParseStringLiteral(s: string): (r: Option<Literal>)
    ensures r.Some? ==> r.value.consumed <= |s|
  {
    if s == [] || !IsQuote(s[0]) then None
    else match LiteralEnd(s[0], s[1..], false) case Some(k) => Some(Literal(s[1..k + 1], k + 2)) case None => None
  }

  /** Every quote inside is escaped, and no escape is left over. */
  predicate Quotable(quote: char, text: string, escape: bool) {
    if text == [] then !escape
    else (escape || text[0] != quote) && Quotable(quote, text[1..], !escape && text[0] == '\\')
  }

  function PrintLiteral(quote: char, text: string): string {
    [quote] + text + [quote]
  }

  lemma {:induction false} LiteralEnds(quote: char, text: string, rest: string, escape: bool)
    requires IsQuote(quote) && Quotable(quote, text, escape)
    ensures LiteralEnd(quote, text + ([quote] + rest), escape) == Some(|text|)
  {
    var s := text + ([quote] + rest);
    if text == [] {
      assert s == [quote] + rest;
    } else {
      assert s[1..] == text[1..] + ([quote] + rest);
      LiteralEnds(quote, text[1..], rest, !escape && text[0] == '\\');
    }
  }

  lemma {:induction false} LiteralQuotable(quote: char, s: string, escape: bool)
    requires IsQuote(quote) && LiteralEnd(quote, s, escape).Some?
    ensures var k := LiteralEnd(quote, s, escape).value; Quotable(quote, s[..k], escape) && s[k] == quote
  {
    if !(!escape && s[0] == quote) {
      LiteralQuotable(quote, s[1..], !escape && s[0] == '\\');
      var k := LiteralEnd(quote, s, escape).value;
      assert s[..k][1..] == s[1..][..k - 1];
    }
  }

  lemma LiteralAt(s: string, text: string)
    requires s != [] && IsQuote(s[0]) && LiteralEnd(s[0], s[1..], false) == Some(|text|) && s[1..|text| + 1] == text
    ensures ParseStringLiteral(s) == Some(Literal(text, |text| + 2))
  {
  }

  lemma LiteralShape(quote: char, text: string, rest: string)
    ensures var s := PrintLiteral(quote, text) + rest;
            s[0] == quote && s[1..] == text + ([quote] + rest) && s[1..|text| + 1] == text
  {
  }

  lemma PrintedLiteralRead(quote: char, text: string, rest: string)
    requires IsQuote(quote) && Quotable(quote, text, false)
    ensures ParseStringLiteral(PrintLiteral(quote, text) + rest) == Some(Literal(text, |text| + 2))
  {
    LiteralShape(quote, text, rest);
    LiteralEnds(quote, text, rest, false);
    LiteralAt(PrintLiteral(quote, text) + rest, text);
  }

  lemma LiteralParsed(s: string, text: string)
    requires s != [] && IsQuote(s[0]) && ParseStringLiteral(s) == Some(Literal(text, |text| + 2))
    ensures LiteralEnd(s[0], s[1..], false) == Some(|text|) && s[1..|text| + 1] == text
  {
  }

  lemma Wrapped(s: string, k: nat)
    requires k + 1 < |s|
    ensures s[..k + 2] == [s[0]] + s[1..k + 1] + [s[k + 1]] && s[1..][..k] == s[1..k + 1] && s[1..][k] == s[k + 1]
  {
  }

  lemma ReadLiteralPrinted(s: string, text: string)
    requires s != [] && IsQuote(s[0]) && ParseStringLiteral(s) == Some(Literal(text, |text| + 2))
    ensures Quotable(s[0], text, false) && StartsWith(s, PrintLiteral(s[0], text))
  {
    LiteralParsed(s, text);
    LiteralQuotable(s[0], s[1..], false);
    Wrapped(s, |text|);
  }

  /** A literal is read exactly where a printed one stands. */
  lemma LiteralReadExactly(s: string, quote: char, text: string)
    requires IsQuote(quote)
    ensures s != [] && s[0] == quote && ParseStringLiteral(s) == Some(Literal(text, |text| + 2))
       <==> Quotable(quote, text, false) && StartsWith(s, PrintLiteral(quote, text))
  {
    if Quotable(quote, text, false) && StartsWith(s, PrintLiteral(quote, text)) {
      assert s == PrintLiteral(quote, text) + s[|text| + 2..];
      PrintedLiteralRead(quote, text, s[|text| + 2..]);
    }
    if s != [] && s[0] == quote && ParseStringLiteral(s) == Some(Literal(text, |text| + 2)) {
      ReadLiteralPrinted(s, text);
    }
  }

  // ----- property names -----

  predicate IsIdentChar(ch: char) {
    'a' <= ch <= 'z' || 'A' <= ch <= 'Z' || '0' <= ch <= '9' || ch == '_'
  }

  /** ASCII digits, capitals, the underscore and small letters, by code point. */
  lemma IdentCharMeans(ch: char)
    ensures var code := ch as int; IsIdentChar(ch) <==> 48 <= code <= 57 || 65 <= code <= 90 || code == 95 || 97 <= code <= 122
  {
  }

  function IdentEnd(s: string): (r: nat)
    ensures r <= |s|
  {
    if s == [] || !IsIdentChar(s[0]) then 0 else 1 + IdentEnd(s[1..])
  }

  function SkipOptional(rest: string): string {
    if rest != [] && rest[0] == '?' then TrimStart(rest[1..]) else rest
  }

  predicate AtColon(s: string) {
    s != [] && s[0] == ':'
  }

  /** `parse_property_name`. */
  function ParsePropertyName(input: string): Option<string> {
    var s := TrimStart(input);
    match ParseStringLiteral(s)
    case Some(literal) => if AtColon(TrimStart(s[literal.consumed..])) then Some(literal.text) else None
    case None =>
      var end := IdentEnd(s);
      if end > 0 && AtColon(SkipOptional(TrimStart(s[end..]))) then Some(s[..end]) else None
  }

  datatype Property = Property(name: string, value: string)

  function PropertyFor(name: Option<string>, input: string): Option<Property> {
    var colon := |Before(input, ':')|;
    if name.Some? && colon < |input| then Some(Property(name.value, TrimStart(input[colon + 1..]))) else None
  }

  /** `parse_property`. */
  function ParseProperty(input: string): Option<Property> {
    PropertyFor(ParsePropertyName(input), input)
  }

  function ParseProperties(fields: seq<string>): seq<Option<Property>> {
    Map(ParseProperty, fields)
  }

  function LiteralText(value: string): Option<string> {
    match ParseStringLiteral(TrimStart(value)) case Some(literal) => Some(literal.text) case None => None
  }

  predicate IsMethod(p: Option<Property>) {
    p.Some? && p.value.name == "method"
  }

  /** The literal of the first property called `method`. */
  function FirstMethod(properties: seq<Option<Property>>): Option<string> {
    if properties == [] then None
    else if IsMethod(properties[0]) then LiteralText(properties[0].value.value)
    else FirstMethod(properties[1..])
  }

  /** `extract_method_from_arm`. */
  function ExtractMethod(arm: string): Option<string> {
    match FindSpan(arm)
    case None => None
    case Some(Span(o, c)) => FirstMethod(ParseProperties(Split(arm[o + 1..c], {','})))
  }

  /** Which arms `filter_client_request_ts_contents` keeps. */
  predicate KeepsArm(experimental: set<string>, arm: string) {
    match ExtractMethod(arm) case Some(name) => name == "" || name !in experimental case None => true
  }

  function StripTrimmed(s: string): string
    decreases |s|
  {
    if !StartsWith(s, "/*") then s
    else match IndexOf(s[2..], "*/") case Some(k) => StripTrimmed(TrimStart(s[k + 4..])) case None => s
  }

  /** `strip_leading_block_comments`. */
  function StripComments(input: string): string {
    StripTrimmed(TrimStart(input))
  }

  /** Which fields `filter_experimental_type_fields_ts_contents` keeps. */
  predicate KeepsField(experimental: set<string>, field: string) {
    match ParsePropertyName(StripComments(field)) case Some(name) => name !in experimental case None => true
  }

  // ----- object types as they are generated -----

  datatype Name = Bare(s: string) | Quoted(quote: char, s: string)

  /** A value that begins with a string literal, or another one. */
  datatype Value = Text(quote: char, s: string, rest: string) | Other(s: string)

  /** A block comment and the white space after it. */
  datatype Comment = Comment(text: string, after: string)

  /** A name, its optional mark and its value with any white space between them, or something without a name. */
  datatype Content =
    | Named(name: Name, gap: string, mark: Option<string>, space: string, value: Value)
    | Unnamed(s: string)

  /** A field with the block comments in front of it. */
  datatype Field = Field(comments: seq<Comment>, content: Content)

  function PrintName(name: Name): string {
    match name case Bare(s) => s case Quoted(quote, s) => PrintLiteral(quote, s)
  }

  function PrintValue(value: Value): string {
    match value case Text(quote, s, rest) => PrintLiteral(quote, s) + rest case Other(s) => s
  }

  function PrintMark(mark: Option<string>): string {
    match mark case Some(ws) => "?" + ws case None => ""
  }

  /** What stands between the name and the value. */
  function PrintColon(gap: string, mark: Option<string>, tail: string): string {
    gap + (PrintMark(mark) + (":" + tail))
  }

  function PrintContent(c: Content): string {
    match c
    case Named(name, gap, mark, space, value) => PrintName(name) + PrintColon(gap, mark, space + PrintValue(value))
    case Unnamed(s) => s
  }

  function PrintComments(comments: seq<Comment>): string {
    if comments == [] then []
    else "/*" + (comments[0].text + ("*/" + (comments[0].after + PrintComments(comments[1..]))))
  }

  function PrintField(f: Field): string {
    PrintComments(f.comments) + PrintContent(f.content)
  }

  function PrintFields(fields: seq<Field>): seq<string> {
    Map(PrintField, fields)
  }

  predicate GoodName(name: Name) {
    match name
    case Bare(s) => s != [] && forall i :: 0 <= i < |s| ==> IsIdentChar(s[i])
    case Quoted(quote, s) => IsQuote(quote) && Quotable(quote, s, false)
  }

  /** Text that stands as one field between braces. */
  predicate OneField(p: string) {
    Whole(p, FIELD_DELIMITERS) && BracesMatch(INITIAL, p)
  }

  predicate GoodValue(value: Value) {
    && OneField(PrintValue(value))
    && match value
       case Text(quote, s, _) => IsQuote(quote) && Quotable(quote, s, false)
       case Other(s) => !IsQuote(s[0])
  }

  predicate GoodContent(c: Content) {
    match c
    case Named(name, gap, mark, space, value) =>
      && GoodName(name) && GoodValue(value) && AllWhitespace(gap) && AllWhitespace(space)
      && (mark.Some? ==> AllWhitespace(mark.value))
    case Unnamed(s) => OneField(s) && !IsQuote(s[0]) && !IsIdentChar(s[0]) && s[0] != '/'
  }

  /** The comment ends where it is printed to end, for the parser and for the scanner. */
  predicate GoodComment(c: Comment) {
    IndexOf(c.text + "*/", "*/") == Some(|c.text|) && !StartsWith(c.text, "/") && AllWhitespace(c.after)
  }

  predicate GoodComments(comments: seq<Comment>) {
    forall i :: 0 <= i < |comments| ==> GoodComment(comments[i])
  }

  predicate GoodField(f: Field) {
    GoodContent(f.content) && GoodComments(f.comments)
  }

  predicate GoodFields(fields: seq<Field>) {
    forall i :: 0 <= i < |fields| ==> GoodField(fields[i])
  }

  /** The name the parser reads behind the comments: a quoted optional name is not read. */
  function ReadName(f: Field): Option<string> {
    match f.content
    case Named(Bare(s), _, _, _, _) => Some(s)
    case Named(Quoted(_, s), _, mark, _, _) => if mark.Some? then None else Some(s)
    case Unnamed(_) => None
  }

  // ----- reading a name -----

  lemma {:induction false} IdentRead(s: string, rest: string)
    requires (forall i :: 0 <= i < |s| ==> IsIdentChar(s[i])) && rest != [] && !IsIdentChar(rest[0])
    ensures IdentEnd(s + rest) == |s|
  {
    if s == [] {
      assert s + rest == rest;
    } else {
      assert (s + rest)[1..] == s[1..] + rest;
      IdentRead(s[1..], rest);
    }
  }

  lemma TrimmedAlready(s: string)
    requires s != [] && !IsWhitespace(s[0])
    ensures TrimStart(s) == s
  {
  }

  lemma IdentName(s: string, rest: string)
    requires s != [] && (forall i :: 0 <= i < |s| ==> IsIdentChar(s[i])) && rest != [] && !IsIdentChar(rest[0])
    ensures ParsePropertyName(s + rest) == if AtColon(SkipOptional(TrimStart(rest))) then Some(s) else None
  {
    var input := s + rest;
    assert input[0] == s[0] && IsIdentChar(s[0]);
    TrimmedAlready(input);
    IdentRead(s, rest);
    assert input[|s|..] == rest && input[..|s|] == s;
  }

  lemma {:induction false} TrimStartAfter(ws: string, s: string)
    requires AllWhitespace(ws)
    ensures TrimStart(ws + s) == TrimStart(s)
  {
    if ws == [] {
      assert ws + s == s;
    } else {
      assert (ws + s)[1..] == ws[1..] + s;
      TrimStartAfter(ws[1..], s);
    }
  }

  /** White space in front of text that does not begin with any is trimmed away. */
  lemma TrimmedAfter(ws: string, s: string)
    requires AllWhitespace(ws) && s != [] && !IsWhitespace(s[0])
    ensures TrimStart(ws + s) == s
  {
    TrimStartAfter(ws, s);
    TrimmedAlready(s);
  }

  /** What is left of it once the white space is trimmed. */
  function ColonCore(mark: Option<string>, tail: string): string {
    PrintMark(mark) + (":" + tail)
  }

  lemma ColonTrimmed(gap: string, mark: Option<string>, tail: string)
    requires AllWhitespace(gap)
    ensures TrimStart(PrintColon(gap, mark, tail)) == ColonCore(mark, tail)
  {
    TrimmedAfter(gap, ColonCore(mark, tail));
  }

  lemma MarkSkipped(ws: string, tail: string)
    requires AllWhitespace(ws)
    ensures SkipOptional("?" + (ws + (":" + tail))) == ":" + tail
  {
    assert ("?" + (ws + (":" + tail)))[1..] == ws + (":" + tail);
    TrimmedAfter(ws, ":" + tail);
  }

  lemma CoreColon(mark: Option<string>, tail: string)
    requires mark.Some? ==> AllWhitespace(mark.value)
    ensures AtColon(SkipOptional(ColonCore(mark, tail))) && (AtColon(ColonCore(mark, tail)) <==> mark.None?)
  {
    match mark {
      case Some(ws) =>
        MarkSkipped(ws, tail);
        assert ColonCore(mark, tail) == "?" + (ws + (":" + tail));
      case None =>
        assert ColonCore(mark, tail) == ":" + tail;
    }
  }

  lemma ColonFollows(gap: string, mark: Option<string>, tail: string)
    requires AllWhitespace(gap) && (mark.Some? ==> AllWhitespace(mark.value))
    ensures var core := TrimStart(PrintColon(gap, mark, tail)); AtColon(SkipOptional(core)) && (AtColon(core) <==> mark.None?)
  {
    ColonTrimmed(gap, mark, tail);
    CoreColon(mark, tail);
  }

  lemma ColonBegins(gap: string, mark: Option<string>, tail: string)
    requires AllWhitespace(gap)
    ensures var s := PrintColon(gap, mark, tail); s != [] && !IsIdentChar(s[0])
  {
  }

  lemma BareRead(s: string, gap: string, mark: Option<string>, tail: string)
    requires s != [] && forall i :: 0 <= i < |s| ==> IsIdentChar(s[i])
    requires AllWhitespace(gap) && (mark.Some? ==> AllWhitespace(mark.value))
    ensures ParsePropertyName(s + PrintColon(gap, mark, tail)) == Some(s)
  {
    ColonBegins(gap, mark, tail);
    IdentName(s, PrintColon(gap, mark, tail));
    ColonFollows(gap, mark, tail);
  }

  lemma LiteralName(quote: char, s: string, rest: string)
    requires IsQuote(quote) && Quotable(quote, s, false)
    ensures ParsePropertyName(PrintLiteral(quote, s) + rest) == if AtColon(TrimStart(rest)) then Some(s) else None
  {
    var input := PrintLiteral(quote, s) + rest;
    assert input[..|s| + 2] == PrintLiteral(quote, s) && input[|s| + 2..] == rest;
    TrimmedAlready(input);
    LiteralReadExactly(input, quote, s);
  }

  lemma QuotedRead(quote: char, s: string, gap: string, mark: Option<string>, tail: string)
    requires IsQuote(quote) && Quotable(quote, s, false) && AllWhitespace(gap) && (mark.Some? ==> AllWhitespace(mark.value))
    ensures ParsePropertyName(PrintLiteral(quote, s) + PrintColon(gap, mark, tail)) == if mark.Some? then None else Some(s)
  {
    LiteralName(quote, s, PrintColon(gap, mark, tail));
    ColonFollows(gap, mark, tail);
  }

  lemma NamelessRead(s: string)
    requires s != [] && !IsWhitespace(s[0]) && !IsQuote(s[0]) && !IsIdentChar(s[0])
    ensures ParsePropertyName(s) == None && ParseProperty(s) == None
  {
    TrimmedAlready(s);
  }

  lemma ContentRead(f: Field)
    requires GoodField(f)
    ensures ParsePropertyName(PrintContent(f.content)) == ReadName(f)
  {
    match f.content {
      case Named(Bare(s), gap, mark, space, value) => BareRead(s, gap, mark, space + PrintValue(value));
      case Named(Quoted(quote, s), gap, mark, space, value) => QuotedRead(quote, s, gap, mark, space + PrintValue(value));
      case Unnamed(s) => NamelessRead(s);
    }
  }

  // ----- reading a method -----

  predicate CallsItMethod(f: Field) {
    ReadName(f) == Some("method")
  }

  /** What the arm filter takes for the method: the literal of the first uncommented property of that name. */
  function MethodOf(fields: seq<Field>): Option<string> {
    if fields == [] then None
    else if fields[0].comments == [] && CallsItMethod(fields[0]) then
      match fields[0].content.value case Text(_, s, _) => Some(s) case Other(_) => None
    else MethodOf(fields[1..])
  }

  lemma WhitespaceFree(ws: string)
    requires AllWhitespace(ws)
    ensures ':' !in ws
  {
  }

  lemma ColonAfterName(name: string, gap: string, mark: Option<string>, tail: string)
    requires ':' !in name && AllWhitespace(gap) && (mark.Some? ==> AllWhitespace(mark.value))
    ensures var input := name + PrintColon(gap, mark, tail);
            var colon := |Before(input, ':')|;
            colon < |input| && input[colon + 1..] == tail
  {
    WhitespaceFree(gap);
    if mark.Some? {
      WhitespaceFree(mark.value);
    }
    var before := name + (gap + PrintMark(mark));
    assert name + PrintColon(gap, mark, tail) == before + [':'] + tail;
    BeforeCut(before, ':', tail);
    assert (before + [':'] + tail)[|before| + 1..] == tail;
  }

  lemma MethodNamed(name: Name)
    requires name.s == "method" && GoodName(name)
    ensures ':' !in PrintName(name)
  {
  }

  lemma PropertyAt(name: string, input: string, tail: string)
    requires |Before(input, ':')| < |input| && input[|Before(input, ':')| + 1..] == tail
    ensures PropertyFor(Some(name), input) == Some(Property(name, TrimStart(tail)))
  {
  }

  lemma MethodValue(name: Name, gap: string, mark: Option<string>, space: string, v: string)
    requires name.s == "method" && GoodName(name) && v != [] && !IsWhitespace(v[0])
    requires AllWhitespace(gap) && (mark.Some? ==> AllWhitespace(mark.value)) && AllWhitespace(space)
    ensures PropertyFor(Some("method"), PrintName(name) + PrintColon(gap, mark, space + v)) == Some(Property("method", v))
  {
    var input, tail := PrintName(name) + PrintColon(gap, mark, space + v), space + v;
    assert |Before(input, ':')| < |input| && input[|Before(input, ':')| + 1..] == tail by {
      MethodNamed(name);
      ColonAfterName(PrintName(name), gap, mark, tail);
    }
    PropertyAt("method", input, tail);
    TrimmedAfter(space, v);
  }

  lemma MethodProperty(f: Field)
    requires GoodField(f) && CallsItMethod(f)
    ensures ParseProperty(PrintContent(f.content)) == Some(Property("method", PrintValue(f.content.value)))
  {
    ContentRead(f);
    var c := f.content;
    MethodValue(c.name, c.gap, c.mark, c.space, PrintValue(c.value));
  }

  /** A comment in front hides the property from the arm filter. */
  lemma CommentHides(input: string)
    requires StartsWith(input, "/*")
    ensures ParseProperty(input) == None
  {
    assert input[0] == input[..2][0] == '/';
    NamelessRead(input);
  }

  /** What the arm filter reads in a field is its method property, or no method at all. */
  lemma FieldProperty(f: Field)
    requires GoodField(f)
    ensures f.comments == [] && CallsItMethod(f) ==> ParseProperty(PrintField(f)) == Some(Property("method", PrintValue(f.content.value)))
    ensures f.comments != [] || !CallsItMethod(f) ==> !IsMethod(ParseProperty(PrintField(f)))
  {
    if f.comments != [] {
      assert PrintField(f)[..2] == "/*";
      CommentHides(PrintField(f));
    } else {
      assert PrintField(f) == PrintContent(f.content);
      ContentRead(f);
      if CallsItMethod(f) {
        MethodProperty(f);
      }
    }
  }

  lemma ValueLiteral(value: Value)
    requires GoodValue(value)
    ensures LiteralText(PrintValue(value)) == match value case Text(_, s, _) => Some(s) case Other(_) => None
  {
    TrimmedAlready(PrintValue(value));
    match value {
      case Text(quote, s, rest) =>
        assert PrintValue(value)[..|s| + 2] == PrintLiteral(quote, s);
        LiteralReadExactly(PrintValue(value), quote, s);
      case Other(s) =>
    }
  }

  lemma FirstMethodCons(p: Option<Property>, rest: seq<Option<Property>>)
    ensures FirstMethod([p] + rest) == if IsMethod(p) then LiteralText(p.value.value) else FirstMethod(rest)
  {
    assert ([p] + rest)[1..] == rest;
  }

  lemma {:induction false} MethodRead(fields: seq<Field>)
    requires GoodFields(fields)
    ensures FirstMethod(ParseProperties(PrintFields(fields))) == MethodOf(fields)
  {
    if fields != [] {
      var f := fields[0];
      MethodRead(fields[1..]);
      FieldProperty(f);
      if CallsItMethod(f) {
        ValueLiteral(f.content.value);
      }
      PropertiesCons(fields);
      FirstMethodCons(ParseProperty(PrintField(f)), ParseProperties(PrintFields(fields[1..])));
    }
  }

  lemma PropertiesCons(fields: seq<Field>)
    requires fields != []
    ensures ParseProperties(PrintFields(fields)) == [ParseProperty(PrintField(fields[0]))] + ParseProperties(PrintFields(fields[1..]))
  {
    assert fields == [fields[0]] + fields[1..];
    MapCons(PrintField, fields[0], fields[1..]);
    MapCons(ParseProperty, PrintField(fields[0]), PrintFields(fields[1..]));
  }

  // ----- printed comments -----

  lemma StripOne(s: string, k: nat)
    requires StartsWith(s, "/*") && IndexOf(s[2..], "*/") == Some(k)
    ensures StripTrimmed(s) == StripTrimmed(TrimStart(s[k + 4..]))
  {
  }

  lemma CommentFound(comment: string, end: string, rest: string)
    requires IndexOf(comment + end, end) == Some(|comment|)
    ensures IndexOf(comment + (end + rest), end) == Some(|comment|)
  {
    IndexOfExtended(comment + end, rest, end);
    assert comment + end + rest == comment + (end + rest);
  }

  lemma CommentShape(comment: string, rest: string)
    ensures var s := "/*" + (comment + ("*/" + rest));
            && StartsWith(s, "/*") && TrimStart(s) == s
            && s[2..] == comment + ("*/" + rest) && s[|comment| + 4..] == rest
  {
    var s := "/*" + (comment + ("*/" + rest));
    assert s[..2] == "/*";
    TrimmedAlready(s);
  }

  lemma CommentStripped(comment: string, rest: string)
    requires IndexOf(comment + "*/", "*/") == Some(|comment|)
    ensures StripComments("/*" + (comment + ("*/" + rest))) == StripComments(rest)
  {
    CommentFound(comment, "*/", rest);
    CommentShape(comment, rest);
    StripOne("/*" + (comment + ("*/" + rest)), |comment|);
  }

  lemma BlankStripped(ws: string, rest: string)
    requires AllWhitespace(ws)
    ensures StripComments(ws + rest) == StripComments(rest)
  {
    TrimStartAfter(ws, rest);
  }

  lemma CommentsShape(comments: seq<Comment>, rest: string)
    requires comments != []
    ensures PrintComments(comments) + rest
         == "/*" + (comments[0].text + ("*/" + (comments[0].after + (PrintComments(comments[1..]) + rest))))
  {
  }

  lemma {:induction false} CommentsStripped(comments: seq<Comment>, rest: string)
    requires GoodComments(comments) && rest != [] && !IsWhitespace(rest[0]) && rest[0] != '/'
    ensures StripComments(PrintComments(comments) + rest) == rest
  {
    if comments == [] {
      assert PrintComments(comments) + rest == rest;
      TrimmedAlready(rest);
    } else {
      var c, more := comments[0], PrintComments(comments[1..]) + rest;
      CommentsShape(comments, rest);
      CommentStripped(c.text, c.after + more);
      BlankStripped(c.after, more);
      CommentsStripped(comments[1..], rest);
    }
  }

  lemma ContentBegins(c: Content)
    requires GoodContent(c)
    ensures var s := PrintContent(c); s != [] && !IsWhitespace(s[0]) && s[0] != '/'
  {
    if c.Named? {
      assert PrintContent(c)[0] == PrintName(c.name)[0];
    }
  }

  /** The field filter reads the name behind any comments. */
  lemma FieldNameRead(f: Field)
    requires GoodField(f)
    ensures ParsePropertyName(StripComments(PrintField(f))) == ReadName(f)
  {
    ContentBegins(f.content);
    CommentsStripped(f.comments, PrintContent(f.content));
    ContentRead(f);
  }

  // ----- printed fields as the scanner sees them -----

  /** A stretch of text the scanner passes without cutting it, ending where it could begin. */
  ghost predicate Passed(st: Scan, s: string) {
    Run(st, s).Neutral() && Uncut(st, s, FIELD_DELIMITERS) && BracesMatch(st, s)
  }

  lemma PassedConcat(st: Scan, a: string, b: string)
    requires Passed(st, a) && Passed(Run(st, a), b)
    ensures Passed(st, a + b)
  {
    RunConcat(st, a, b);
    UncutConcat(st, a, b, FIELD_DELIMITERS);
    BracesMatchConcat(st, a, b);
  }

  predicate IsPlain(ch: char) {
    IsIdentChar(ch) || ch == '?' || ch == ':' || ch == ' '
  }

  lemma {:induction false} PlainPassed(st: Scan, s: string)
    requires st.Neutral() && forall i :: 0 <= i < |s| ==> IsPlain(s[i])
    ensures Passed(st, s)
    decreases s
  {
    if s != [] {
      assert IsPlain(s[0]);
      PlainStep(st, s[0]);
      PlainPassed(Step(st, s[0]), s[1..]);
    }
  }

  lemma PlainStep(st: Scan, ch: char)
    requires st.Neutral() && IsPlain(ch)
    ensures Step(st, ch).Neutral() && !Cuts(st, ch, FIELD_DELIMITERS) && !Unmatched(st, ch)
  {
  }

  /** Inside a string at top level. */
  predicate InString(st: Scan, quote: char, escape: bool) {
    st.TopLevel() && st.stringDelim == Some(quote) && st.escape == escape && !st.blockComment && !st.lineComment
  }

  lemma {:induction false} TextPassed(st: Scan, quote: char, text: string, escape: bool)
    requires IsQuote(quote) && InString(st, quote, escape) && Quotable(quote, text, escape)
    ensures InString(Run(st, text), quote, false) && Uncut(st, text, FIELD_DELIMITERS) && BracesMatch(st, text)
    decreases text
  {
    if text != [] {
      TextPassed(Step(st, text[0]), quote, text[1..], !escape && text[0] == '\\');
    }
  }

  lemma QuoteSteps(st: Scan, quote: char)
    requires IsQuote(quote)
    ensures st.Neutral() ==> InString(Step(st, quote), quote, false)
    ensures InString(st, quote, false) ==> Step(st, quote).Neutral()
    ensures !Cuts(st, quote, FIELD_DELIMITERS) && !Unmatched(st, quote)
  {
  }

  lemma LiteralPassed(st: Scan, quote: char, text: string)
    requires st.Neutral() && IsQuote(quote) && Quotable(quote, text, false)
    ensures Passed(st, PrintLiteral(quote, text))
  {
    var first := Step(st, quote);
    QuoteSteps(st, quote);
    TextPassed(first, quote, text, false);
    QuoteSteps(Run(first, text), quote);
    RunConcat(first, text, [quote]);
    UncutConcat(first, text, [quote], FIELD_DELIMITERS);
    BracesMatchConcat(first, text, [quote]);
    assert [quote][1..] == [];
    assert PrintLiteral(quote, text)[1..] == text + [quote];
  }

  predicate InBlock(st: Scan) {
    st.blockComment && !st.lineComment && st.stringDelim.None? && !st.escape && st.TopLevel()
  }

  lemma {:induction false} BlockPassed(st: Scan, comment: string)
    requires InBlock(st)
    requires IndexOf(comment + "*/", "*/") == Some(|comment|) && !(st.previous == Some('*') && StartsWith(comment, "/"))
    ensures Passed(st, comment + "*/")
    decreases comment
  {
    var s := comment + "*/";
    if comment == [] {
      assert s == "*/" && s[1..] == "/" && "/"[1..] == [];
    } else {
      assert s[1..] == comment[1..] + "*/";
      assert !StartsWith(s, "*/");
      assert s[..2] != "*/";
      BlockStep(st, comment);
      BlockPassed(Step(st, comment[0]), comment[1..]);
    }
  }

  /** A comment goes on as long as its end has not been read. */
  lemma BlockStep(st: Scan, comment: string)
    requires st.blockComment && !st.lineComment && comment != [] && (comment + "*/")[..2] != "*/"
    requires !(st.previous == Some('*') && StartsWith(comment, "/"))
    ensures Step(st, comment[0]) == st.(previous := Some(comment[0]))
    ensures !(comment[0] == '*' && StartsWith(comment[1..], "/"))
  {
    if StartsWith(comment[1..], "/") {
      assert comment[1..][..1] == "/";
      assert (comment + "*/")[..2] == [comment[0], '/'];
    }
    if comment[0] == '/' {
      assert comment[..1] == "/";
    }
  }

  lemma PassedCons(st: Scan, ch: char, rest: string)
    requires !Cuts(st, ch, FIELD_DELIMITERS) && !Unmatched(st, ch) && Passed(Step(st, ch), rest)
    ensures Passed(st, [ch] + rest)
  {
    assert ([ch] + rest)[1..] == rest;
  }

  lemma BlockOpens(st: Scan)
    requires st.Neutral()
    ensures var first := Step(st, '/');
            && !Cuts(st, '/', FIELD_DELIMITERS) && !Unmatched(st, '/')
            && !Cuts(first, '*', FIELD_DELIMITERS) && !Unmatched(first, '*')
            && InBlock(Step(first, '*')) && Step(first, '*').previous == Some('*')
  {
  }

  lemma PassedTwice(st: Scan, first: Scan, block: Scan, inner: string)
    requires first == Step(st, '/') && block == Step(first, '*') && Passed(block, inner)
    requires !Cuts(st, '/', FIELD_DELIMITERS) && !Unmatched(st, '/') && !Cuts(first, '*', FIELD_DELIMITERS) && !Unmatched(first, '*')
    ensures Passed(st, "/*" + inner)
  {
    PassedCons(first, '*', inner);
    PassedCons(st, '/', ['*'] + inner);
    assert "/*" + inner == ['/'] + (['*'] + inner);
  }

  lemma CommentPassed(st: Scan, comment: string)
    requires st.Neutral() && IndexOf(comment + "*/", "*/") == Some(|comment|) && !StartsWith(comment, "/")
    ensures Passed(st, "/*" + (comment + "*/"))
  {
    BlockOpens(st);
    BlockPassed(Step(Step(st, '/'), '*'), comment);
    PassedTwice(st, Step(st, '/'), Step(Step(st, '/'), '*'), comment + "*/");
  }

  lemma BlankPassed(st: Scan, ws: string)
    requires st.Neutral() && AllWhitespace(ws)
    ensures Passed(st, ws)
  {
    RunWhitespace(st, ws);
    DelimitersPlain();
    WhitespaceUncut(st, ws, FIELD_DELIMITERS);
    WhitespaceBraceless(ws);
    BracelessQuiet(st, ws);
  }

  lemma CommentsCons(comments: seq<Comment>)
    requires comments != []
    ensures PrintComments(comments) == "/*" + (comments[0].text + "*/") + (comments[0].after + PrintComments(comments[1..]))
  {
  }

  lemma PassedThree(st: Scan, a: string, b: string, c: string)
    requires Passed(st, a) && Passed(Run(st, a), b) && Passed(Run(Run(st, a), b), c)
    ensures Passed(st, a + (b + c))
  {
    PassedConcat(Run(st, a), b, c);
    PassedConcat(st, a, b + c);
  }

  lemma {:induction false} CommentsPassed(st: Scan, comments: seq<Comment>)
    requires st.Neutral() && GoodComments(comments)
    ensures Passed(st, PrintComments(comments))
    decreases comments
  {
    if comments != [] {
      var one, ws := "/*" + (comments[0].text + "*/"), comments[0].after;
      CommentPassed(st, comments[0].text);
      BlankPassed(Run(st, one), ws);
      CommentsPassed(Run(Run(st, one), ws), comments[1..]);
      PassedThree(st, one, ws, PrintComments(comments[1..]));
      CommentsCons(comments);
    }
  }

  lemma NamePassed(st: Scan, name: Name)
    requires st.Neutral() && GoodName(name)
    ensures Passed(st, PrintName(name))
  {
    match name {
      case Bare(s) => PlainPassed(st, s);
      case Quoted(quote, s) => LiteralPassed(st, quote, s);
    }
  }

  lemma MarkPassed(st: Scan, mark: Option<string>)
    requires st.Neutral() && (mark.Some? ==> AllWhitespace(mark.value))
    ensures Passed(st, PrintMark(mark))
  {
    if mark.Some? {
      PlainPassed(st, "?");
      BlankPassed(Run(st, "?"), mark.value);
      PassedConcat(st, "?", mark.value);
    }
  }

  lemma ColonPassed(st: Scan, gap: string, mark: Option<string>, space: string)
    requires st.Neutral() && AllWhitespace(gap) && AllWhitespace(space) && (mark.Some? ==> AllWhitespace(mark.value))
    ensures Passed(st, PrintColon(gap, mark, space))
  {
    var mid := Run(st, gap);
    BlankPassed(st, gap);
    MarkPassed(mid, mark);
    var end := Run(mid, PrintMark(mark));
    PlainPassed(end, ":");
    BlankPassed(Run(end, ":"), space);
    PassedConcat(end, ":", space);
    PassedThree(st, gap, PrintMark(mark), ":" + space);
  }

  /** Text in front of a field that the scanner passes makes one field with it. */
  lemma OneFieldAfter(a: string, p: string)
    requires Passed(INITIAL, a) && OneField(p) && (a == [] || !IsWhitespace(a[0]))
    ensures OneField(a + p)
  {
    var st := Run(INITIAL, a);
    NeutralUncut(st, p, FIELD_DELIMITERS);
    NeutralBracesMatch(st, p);
    NeutralRun(st, p);
    RunConcat(INITIAL, a, p);
    UncutConcat(INITIAL, a, p, FIELD_DELIMITERS);
    BracesMatchConcat(INITIAL, a, p);
  }

  lemma NamedHead(name: Name, gap: string, mark: Option<string>, space: string)
    requires GoodName(name) && AllWhitespace(gap) && AllWhitespace(space) && (mark.Some? ==> AllWhitespace(mark.value))
    ensures var head := PrintName(name) + PrintColon(gap, mark, space); Passed(INITIAL, head) && head != [] && !IsWhitespace(head[0])
  {
    NamePassed(INITIAL, name);
    ColonPassed(Run(INITIAL, PrintName(name)), gap, mark, space);
    PassedConcat(INITIAL, PrintName(name), PrintColon(gap, mark, space));
    NameBegins(name);
  }

  lemma NameBegins(name: Name)
    requires GoodName(name)
    ensures PrintName(name) != [] && !IsWhitespace(PrintName(name)[0])
  {
  }

  lemma ContentShape(name: string, gap: string, mark: Option<string>, space: string, v: string)
    ensures name + PrintColon(gap, mark, space) + v == name + PrintColon(gap, mark, space + v)
  {
  }

  lemma ContentStands(c: Content)
    requires GoodContent(c)
    ensures OneField(PrintContent(c))
  {
    if c.Named? {
      NamedHead(c.name, c.gap, c.mark, c.space);
      OneFieldAfter(PrintName(c.name) + PrintColon(c.gap, c.mark, c.space), PrintValue(c.value));
      ContentShape(PrintName(c.name), c.gap, c.mark, c.space, PrintValue(c.value));
    }
  }

  /** A printed field is one field to the scanner. */
  lemma FieldStands(f: Field)
    requires GoodField(f)
    ensures OneField(PrintField(f))
  {
    CommentsPassed(INITIAL, f.comments);
    ContentStands(f.content);
    OneFieldAfter(PrintComments(f.comments), PrintContent(f.content));
  }

  lemma {:induction false} FewerCuts(st: Scan, p: string, few: set<char>, many: set<char>)
    requires few <= many && Uncut(st, p, many)
    ensures Uncut(st, p, few)
    decreases p
  {
    if p != [] {
      FewerCuts(Step(st, p[0]), p[1..], few, many);
    }
  }

  lemma FieldsStand(fields: seq<Field>, delims: set<char>)
    requires GoodFields(fields) && delims <= FIELD_DELIMITERS
    ensures AllWhole(PrintField, fields, delims) && AllMatched(PrintField, fields)
  {
    forall i | 0 <= i < |fields| ensures Whole(PrintField(fields[i]), delims) && BracesMatch(INITIAL, PrintField(fields[i])) {
      FieldStands(fields[i]);
      FewerCuts(INITIAL, PrintField(fields[i]), delims, FIELD_DELIMITERS);
    }
  }

  // ----- printed object types -----

  /** The fields between braces, with any white space around them and any delimiters between them. */
  type Body = Layout<Field>

  function PrintBody(body: Body): string {
    PrintLayout(PrintField, body)
  }

  predicate GoodBody(body: Body, delims: set<char>) {
    Spaced(body, delims) && GoodFields(Items(body))
  }

  lemma PlainCommas()
    ensures PlainDelimiters({','}) && {','} <= FIELD_DELIMITERS
  {
    DelimitersPlain();
    forall d | d in {','} ensures d in FIELD_DELIMITERS {
    }
  }

  /** Whatever the layout, the text between the braces scans as closed and splits into its fields. */
  lemma BodySplits(body: Body, delims: set<char>)
    requires PlainDelimiters(delims) && delims <= FIELD_DELIMITERS && GoodBody(body, delims)
    ensures BracesMatch(INITIAL, PrintBody(body)) && Run(INITIAL, PrintBody(body)).Closed()
    ensures Split(PrintBody(body), delims) == PrintFields(Items(body))
  {
    FieldsStand(Items(body), delims);
    LayoutScan(INITIAL, PrintField, body, delims);
    LayoutSplits(INITIAL, PrintField, body, delims);
  }

  lemma {:induction false} MatchedQuiet(st: Scan, s: string, delims: set<char>)
    requires BracesMatch(st, s)
    ensures Quiet(Deeper(st), s) && Uncut(Deeper(st), s, delims)
    decreases s
  {
    if s != [] {
      OuterStep(true, st, s[0]);
      MatchedQuiet(Step(st, s[0]), s[1..], delims);
    }
  }

  // ----- finding it -----

  lemma {:induction false} BlankQuiet(st: Scan, ws: string)
    requires st.Neutral() && AllWhitespace(ws)
    ensures Unended(st, ws, None) && LastOpen(st, ws, 0, None) == None && Run(st, ws).Neutral()
  {
    WhitespaceBraceless(ws);
    BracelessQuiet(st, ws);
    QuietUnended(st, ws, 0, None);
    RunWhitespace(st, ws);
  }

  /** White space and an opening brace are where the search begins. */
  lemma BraceFramed(ws: string, post: string)
    requires AllWhitespace(ws) && post != [] && post[0] == '}'
    ensures Framed(INITIAL, ws + "{", post, |ws|)
  {
    BlankQuiet(INITIAL, ws);
    var st := Run(INITIAL, ws);
    UnendedConcat(INITIAL, ws, "{", None);
    LastOpenSnoc(INITIAL, ws, '{', 0, None);
    RunConcat(INITIAL, ws, "{");
    RunWellFormed(INITIAL, ws);
    OpensInside(st);
    assert "{"[1..] == [];
  }

  lemma InsideBraces(outer: Scan, inner: string)
    requires outer.Neutral() && BracesMatch(INITIAL, inner) && Run(INITIAL, inner).Closed()
    ensures Quiet(Deeper(outer), inner) && Ends(Run(Deeper(outer), inner), '}')
    ensures Run(Deeper(outer), inner) == Deeper(Run(outer, inner)) && Run(outer, inner).Closed()
  {
    NeutralBracesMatch(outer, inner);
    MatchedQuiet(outer, inner, {});
    OuterRun(true, outer, inner);
    if inner != [] {
      NeutralRun(outer, inner);
    }
    RunWellFormed(outer, inner);
    EndsMeans(true, Run(outer, inner));
  }

  /** Text that matches its braces and is closed is what the search finds between them. */
  lemma FoundBetween(pre: string, inner: string, post: string, o: nat)
    requires Framed(INITIAL, pre, post, o) && BracesMatch(INITIAL, inner) && Run(INITIAL, inner).Closed()
    ensures FindSpan(pre + (inner + post)) == Some(Span(o, o + 1 + |inner|))
  {
    InsideBraces(Run(INITIAL, pre).(brace := 0), inner);
    FindAround(INITIAL, pre, inner, post, o);
  }

  // ----- filtering a printed union -----

  function PrintArm(body: Body): string {
    "{" + (PrintBody(body) + "}")
  }

  /** An arm's fields are separated by commas. */
  predicate GoodArm(body: Body) {
    GoodBody(body, {','})
  }

  lemma ArmBody(body: Body)
    requires GoodArm(body)
    ensures BracesMatch(INITIAL, PrintBody(body)) && Run(INITIAL, PrintBody(body)).Closed()
    ensures Split(PrintBody(body), {','}) == PrintFields(Items(body))
  {
    PlainCommas();
    BodySplits(body, {','});
  }

  lemma ArmFound(body: Body)
    requires GoodArm(body)
    ensures FindSpan(PrintArm(body)) == Some(Span(0, |PrintArm(body)| - 1))
  {
    ArmBody(body);
    assert Framed(INITIAL, "{", "}", 0) by {
      assert [] + "{" == "{";
      BraceFramed([], "}");
    }
    FoundBetween("{", PrintBody(body), "}", 0);
  }

  lemma Unwrapped(inner: string)
    ensures ("{" + (inner + "}"))[1..|inner| + 1] == inner
  {
  }

  /** For every printed arm the extracted method is the literal of its first uncommented `method` property. */
  lemma ArmMethodExact(body: Body)
    requires GoodArm(body)
    ensures ExtractMethod(PrintArm(body)) == MethodOf(Items(body))
  {
    ArmFound(body);
    ArmBody(body);
    Unwrapped(PrintBody(body));
    MethodRead(Items(body));
  }

  function PrintArms(arms: seq<Body>): seq<string> {
    Map(PrintArm, arms)
  }

  predicate StableArm(arm: Body, experimental: set<string>) {
    match MethodOf(Items(arm)) case Some(name) => name == "" || name !in experimental case None => true
  }

  /** The arms whose method is not experimental. */
  function StableArms(arms: seq<Body>, experimental: set<string>): seq<Body> {
    if arms == [] then []
    else
      var n := |arms| - 1;
      StableArms(arms[..n], experimental) + if StableArm(arms[n], experimental) then [arms[n]] else []
  }

  lemma BracedScan(inner: string, delims: set<char>)
    requires PlainDelimiters(delims) && BracesMatch(INITIAL, inner) && Run(INITIAL, inner).Closed()
    ensures Intact("{" + (inner + "}"), delims) && Run(INITIAL, "{" + (inner + "}")).Closed()
  {
    var outer, s := INITIAL.(previous := Some('{')), "{" + (inner + "}");
    NotBraces(delims);
    InsideBraces(outer, inner);
    assert Step(INITIAL, '{') == Deeper(outer) && s[1..] == inner + "}";
    NeutralBracesMatch(outer, inner);
    MatchedQuiet(outer, inner, delims);
    UncutConcat(Deeper(outer), inner, "}", delims);
    RunConcat(Deeper(outer), inner, "}");
    assert "}"[1..] == [];
  }

  lemma NotBraces(delims: set<char>)
    requires PlainDelimiters(delims)
    ensures '{' !in delims && '}' !in delims
  {
    var special := "\"'{}[]()<>/*";
    assert special[2] == '{' && special[3] == '}';
    assert '{' in special && '}' in special;
  }

  lemma ArmWhole(arm: Body)
    requires GoodArm(arm)
    ensures Whole(PrintArm(arm), {'|'})
  {
    BarIsPlain();
    ArmBody(arm);
    BracedScan(PrintBody(arm), {'|'});
  }

  predicate GoodArms(arms: seq<Body>) {
    forall i :: 0 <= i < |arms| ==> GoodArm(arms[i])
  }

  /** A union of arms, with any white space around them and perhaps a bar in front. */
  type Union = Layout<Body>

  function PrintUnion(u: Union): string {
    PrintLayout(PrintArm, u)
  }

  predicate GoodUnion(u: Union) {
    Spaced(u, {'|'}) && GoodArms(Items(u))
  }

  lemma UnionSplits(u: Union)
    requires GoodUnion(u)
    ensures Split(PrintUnion(u), {'|'}) == PrintArms(Items(u))
  {
    var arms := Items(u);
    forall i | 0 <= i < |arms| ensures Whole(PrintArm(arms[i]), {'|'}) {
      ArmWhole(arms[i]);
    }
    BarIsPlain();
    LayoutSplits(INITIAL, PrintArm, u, {'|'});
  }

  lemma {:induction false} ArmsKeptBy(arms: seq<Body>, experimental: set<string>, keep: string -> bool)
    requires forall i :: 0 <= i < |arms| ==> (keep(PrintArm(arms[i])) <==> StableArm(arms[i], experimental))
    ensures Keep(PrintArms(arms), keep) == PrintArms(StableArms(arms, experimental))
  {
    if arms != [] {
      var n := |arms| - 1;
      assert arms == arms[..n] + [arms[n]];
      ArmsKeptBy(arms[..n], experimental, keep);
      MapSnoc(PrintArm, arms[..n], arms[n]);
      KeepSnoc(PrintArms(arms[..n]), PrintArm(arms[n]), keep);
      PrintArmsMore(StableArms(arms[..n], experimental), arms[n]);
    }
  }

  lemma PrintArmsMore(arms: seq<Body>, arm: Body)
    ensures PrintArms(arms + [arm]) == PrintArms(arms) + [PrintArm(arm)] && PrintArms(arms + []) == PrintArms(arms) + []
  {
    MapSnoc(PrintArm, arms, arm);
    assert arms + [] == arms;
  }

  lemma ArmKept(arm: Body, experimental: set<string>)
    requires GoodArm(arm)
    ensures KeepsArm(experimental, PrintArm(arm)) <==> StableArm(arm, experimental)
  {
    ArmMethodExact(arm);
  }

  lemma ArmsKept(arms: seq<Body>, experimental: set<string>)
    requires GoodArms(arms)
    ensures Keep(PrintArms(arms), (a: string) => KeepsArm(experimental, a)) == PrintArms(StableArms(arms, experimental))
  {
    var keep := (a: string) => KeepsArm(experimental, a);
    forall i | 0 <= i < |arms| ensures keep(PrintArm(arms[i])) <==> StableArm(arms[i], experimental) {
      ArmKept(arms[i], experimental);
    }
    ArmsKeptBy(arms, experimental, keep);
  }

  /**
   * Filtering a declaration, however it is spaced, leaves exactly the arms without an experimental
   * method, each as it was printed, joined by bars.
   */
  lemma UnionFiltered(prefix: string, u: Union, suffix: string, experimental: set<string>)
    requires GoodUnion(u)
    requires prefix != [] && prefix[|prefix| - 1] == '=' && '=' !in prefix[..|prefix| - 1]
    requires suffix != [] && suffix[0] == ';' && forall i :: 0 < i < |suffix| ==> suffix[i] != ';'
    ensures FilterAlias(prefix + PrintUnion(u) + suffix, (a: string) => KeepsArm(experimental, a))
         == prefix + Join(PrintArms(StableArms(Items(u), experimental)), " | ") + suffix
  {
    AliasRebuilt(prefix, PrintUnion(u), suffix);
    UnionSplits(u);
    ArmsKept(Items(u), experimental);
  }

  lemma {:induction false} CommentedMethodUnread(fields: seq<Field>)
    requires forall i :: 0 <= i < |fields| && CallsItMethod(fields[i]) ==> fields[i].comments != []
    ensures MethodOf(fields) == None
  {
    if fields != [] {
      CommentedMethodUnread(fields[1..]);
    }
  }

  /** An arm whose `method` properties all follow a comment has no method to the filter, and is never removed. */
  lemma CommentedMethodStays(arm: Body)
    requires GoodArm(arm) && forall i :: 0 <= i < |Items(arm)| && CallsItMethod(Items(arm)[i]) ==> Items(arm)[i].comments != []
    ensures ExtractMethod(PrintArm(arm)) == None && forall experimental :: KeepsArm(experimental, PrintArm(arm))
  {
    CommentedMethodUnread(Items(arm));
    ArmMethodExact(arm);
  }

  // ----- filtering a printed object type -----

  predicate StableField(f: Field, experimental: set<string>) {
    match ReadName(f) case Some(name) => name !in experimental case None => true
  }

  /** The fields whose name, commented or not, is not experimental. */
  function StableFields(fields: seq<Field>, experimental: set<string>): seq<Field> {
    if fields == [] then []
    else
      var n := |fields| - 1;
      StableFields(fields[..n], experimental) + if StableField(fields[n], experimental) then [fields[n]] else []
  }

  lemma {:induction false} FieldsKeptBy(fields: seq<Field>, experimental: set<string>, keep: string -> bool)
    requires forall i :: 0 <= i < |fields| ==> (keep(PrintField(fields[i])) <==> StableField(fields[i], experimental))
    ensures Keep(PrintFields(fields), keep) == PrintFields(StableFields(fields, experimental))
  {
    if fields != [] {
      var n := |fields| - 1;
      assert fields == fields[..n] + [fields[n]];
      FieldsKeptBy(fields[..n], experimental, keep);
      MapSnoc(PrintField, fields[..n], fields[n]);
      KeepSnoc(PrintFields(fields[..n]), PrintField(fields[n]), keep);
      PrintFieldsMore(StableFields(fields[..n], experimental), fields[n]);
    }
  }

  lemma PrintFieldsMore(fields: seq<Field>, f: Field)
    ensures PrintFields(fields + [f]) == PrintFields(fields) + [PrintField(f)] && PrintFields(fields + []) == PrintFields(fields) + []
  {
    MapSnoc(PrintField, fields, f);
    assert fields + [] == fields;
  }

  lemma FieldKept(f: Field, experimental: set<string>)
    requires GoodField(f)
    ensures KeepsField(experimental, PrintField(f)) <==> StableField(f, experimental)
  {
    FieldNameRead(f);
  }

  lemma FieldsKept(fields: seq<Field>, experimental: set<string>)
    requires GoodFields(fields)
    ensures Keep(PrintFields(fields), (f: string) => KeepsField(experimental, f)) == PrintFields(StableFields(fields, experimental))
  {
    var keep := (f: string) => KeepsField(experimental, f);
    forall i | 0 <= i < |fields| ensures keep(PrintField(fields[i])) <==> StableField(fields[i], experimental) {
      FieldKept(fields[i], experimental);
    }
    FieldsKeptBy(fields, experimental, keep);
  }

  lemma FilterAt(pre: string, inner: string, post: string, parts: seq<string>, keep: string -> bool)
    requires pre != [] && FindSpan(pre + (inner + post)) == Some(Span(|pre| - 1, |pre| + |inner|))
    requires Split(inner, FIELD_DELIMITERS) == parts
    ensures FilterFields(pre + (inner + post), keep) == pre + (Join(Keep(parts, keep), FIELD_SEPARATOR) + post)
  {
    Surrounded(pre, inner, post);
  }

  lemma FoundFiltered(pre: string, inner: string, post: string, o: nat, parts: seq<string>, keep: string -> bool)
    requires Framed(INITIAL, pre, post, o) && BracesMatch(INITIAL, inner) && Run(INITIAL, inner).Closed()
    requires Split(inner, FIELD_DELIMITERS) == parts
    ensures FilterFields(pre + (inner + post), keep) == pre + (Join(Keep(parts, keep), FIELD_SEPARATOR) + post)
  {
    FoundBetween(pre, inner, post, o);
    FilterAt(pre, inner, post, parts, keep);
  }

  lemma ObjectFiltered(pre: string, body: Body, post: string, o: nat, experimental: set<string>)
    requires Framed(INITIAL, pre, post, o) && GoodBody(body, FIELD_DELIMITERS)
    ensures FilterFields(pre + (PrintBody(body) + post), (f: string) => KeepsField(experimental, f))
         == pre + (Join(PrintFields(StableFields(Items(body), experimental)), FIELD_SEPARATOR) + post)
  {
    DelimitersPlain();
    BodySplits(body, FIELD_DELIMITERS);
    FieldsKept(Items(body), experimental);
    FoundFiltered(pre, PrintBody(body), post, o, PrintFields(Items(body)), (f: string) => KeepsField(experimental, f));
  }

  lemma Surrounded(pre: string, inner: string, post: string)
    ensures var s := pre + (inner + post);
            s[..|pre|] == pre && s[|pre|..|pre| + |inner|] == inner && s[|pre| + |inner|..] == post
  {
  }

  /**
   * Filtering a type, alias or interface, whose braces are the ones the search finds, leaves exactly
   * the fields without an experimental name, comments and all, however the type is laid out.
   */
  lemma TypeFiltered(content: string, k: nat, pre: string, body: Body, post: string, o: nat, experimental: set<string>)
    requires BodyStart(content) == Some(k) && content[k..] == pre + (PrintBody(body) + post)
    requires Framed(INITIAL, pre, post, o) && GoodBody(body, FIELD_DELIMITERS)
    ensures FilterTypeFields(content, (f: string) => KeepsField(experimental, f))
         == content[..k] + (pre + (Join(PrintFields(StableFields(Items(body), experimental)), FIELD_SEPARATOR) + post))
  {
    ObjectFiltered(pre, body, post, o, experimental);
  }

  // ----- a doc-commented type and a commented method -----

  lemma OneLetter(ch: char)
    requires IsIdentChar(ch)
    ensures OneField([ch])
  {
    PlainPassed(INITIAL, [ch]);
  }

  /** A field under a doc comment of its own, as the generator prints it. */
  function Documented(ch: char, mark: Option<string>, value: char): Field {
    Field([Comment("*\n ", "\n")], Named(Bare([ch]), "", mark, " ", Other([value])))
  }

  lemma NotPrefix(s: string, prefix: string, k: nat)
    requires k < |prefix| <= |s| && s[k] != prefix[k]
    ensures !StartsWith(s, prefix)
  {
    assert s[..|prefix|][k] == s[k];
  }

  lemma IndexOfNext(ch: char, rest: string, pattern: string, k: nat)
    requires IndexOf(rest, pattern) == Some(k) && !StartsWith([ch] + rest, pattern)
    ensures IndexOf([ch] + rest, pattern) == Some(k + 1)
  {
    assert ([ch] + rest)[1..] == rest;
  }

  lemma DocComment()
    ensures GoodComment(Comment("*\n ", "\n"))
  {
    var a, b, c := "*/", " " + "*/", "\n" + (" " + "*/");
    NotPrefix(b, "*/", 0);
    NotPrefix(c, "*/", 0);
    NotPrefix("*" + c, "*/", 1);
    assert StartsWith(a, "*/");
    IndexOfNext(' ', a, "*/", 0);
    IndexOfNext('\n', b, "*/", 1);
    IndexOfNext('*', c, "*/", 2);
    assert "*\n " + "*/" == "*" + c;
    NotPrefix("*\n ", "/", 0);
  }

  lemma DocumentedGood(ch: char, mark: Option<string>, value: char)
    requires IsIdentChar(ch) && IsIdentChar(value) && (mark.Some? ==> AllWhitespace(mark.value))
    ensures GoodField(Documented(ch, mark, value)) && ReadName(Documented(ch, mark, value)) == Some([ch])
  {
    DocComment();
    OneLetter(value);
  }

  function DocumentedBody(): Body {
    More(Slot("", Some(Documented('a', None, 'X')), ""), ',', Last(Slot(" ", Some(Documented('b', Some(""), 'Y')), "")))
  }

  lemma DocumentedBodyGood()
    ensures GoodBody(DocumentedBody(), FIELD_DELIMITERS)
    ensures Items(DocumentedBody()) == [Documented('a', None, 'X'), Documented('b', Some(""), 'Y')]
  {
    DocumentedGood('a', None, 'X');
    DocumentedGood('b', Some(""), 'Y');
    assert [Documented('a', None, 'X')] + [Documented('b', Some(""), 'Y')] == [Documented('a', None, 'X'), Documented('b', Some(""), 'Y')];
  }

  lemma DocumentedPrinted(ch: char, mark: Option<string>, value: char)
    ensures PrintField(Documented(ch, mark, value)) == "/**\n */\n" + ([ch] + (PrintMark(mark) + (": " + [value])))
  {
    var c := Comment("*\n ", "\n");
    assert PrintComments([c]) == "/**\n */\n" by {
      assert [c][1..] == [];
      assert PrintComments([c]) == "/*" + (c.text + ("*/" + (c.after + [])));
    }
    assert PrintColon("", mark, " " + [value]) == PrintMark(mark) + (": " + [value]);
  }

  const DOC_A := "/**\n */\na: X"
  const DOC_B := "/**\n */\nb?: Y"

  lemma DocumentedFirst()
    ensures PrintField(Documented('a', None, 'X')) == DOC_A
  {
    DocumentedPrinted('a', None, 'X');
  }

  lemma DocumentedSecond()
    ensures PrintField(Documented('b', Some(""), 'Y')) == DOC_B
  {
    DocumentedPrinted('b', Some(""), 'Y');
  }

  lemma TwoSlots(f: Field, g: Field, a: string, b: string)
    requires PrintField(f) == a && PrintField(g) == b
    ensures PrintBody(More(Slot("", Some(f), ""), ',', Last(Slot(" ", Some(g), "")))) == a + (", " + b)
  {
    var s, t := Slot("", Some(f), ""), Slot(" ", Some(g), "");
    assert PrintSlot(PrintField, s) == a && PrintSlot(PrintField, t) == " " + b;
    assert PrintLayout(PrintField, Last(t)) == " " + b;
    assert PrintLayout(PrintField, More(s, ',', Last(t))) == a + ([','] + (" " + b));
    assert [','] + (" " + b) == ", " + b;
  }

  lemma DocumentedText()
    ensures PrintBody(DocumentedBody()) == DOC_A + (", " + DOC_B)
  {
    DocumentedFirst();
    DocumentedSecond();
    TwoSlots(Documented('a', None, 'X'), Documented('b', Some(""), 'Y'), DOC_A, DOC_B);
  }

  lemma DocumentedStable()
    ensures StableFields(Items(DocumentedBody()), {"b"}) == [Documented('a', None, 'X')]
  {
    var f, g := Documented('a', None, 'X'), Documented('b', Some(""), 'Y');
    DocumentedBodyGood();
    DocumentedGood('a', None, 'X');
    DocumentedGood('b', Some(""), 'Y');
    assert "a" != "b" && [f, g][..1] == [f] && [f][..0] == [];
    assert StableFields([f], {"b"}) == [f];
  }

  lemma AliasFiltered(head: string, pre: string, body: Body, post: string, o: nat, experimental: set<string>)
    requires '=' !in head && Framed(INITIAL, pre, post, o) && GoodBody(body, FIELD_DELIMITERS)
    ensures FilterTypeFields(head + ['='] + (pre + (PrintBody(body) + post)), (f: string) => KeepsField(experimental, f))
         == head + ['='] + (pre + (Join(PrintFields(StableFields(Items(body), experimental)), FIELD_SEPARATOR) + post))
  {
    var rest := pre + (PrintBody(body) + post);
    AfterEquals(head, rest);
    assert (head + ['='] + rest)[|head| + 1..] == rest && (head + ['='] + rest)[..|head| + 1] == head + ['='];
    TypeFiltered(head + ['='] + rest, |head| + 1, pre, body, post, o, experimental);
  }

  /** Dropping one field of a doc-commented type: its comment and the comma in front of it go as well. */
  lemma DocCommentExample()
    ensures FilterTypeFields("type T " + ['='] + (" {" + ((DOC_A + (", " + DOC_B)) + "};")), (f: string) => KeepsField({"b"}, f))
         == "type T " + ['='] + (" {" + (DOC_A + "};"))
  {
    DocumentedText();
    DocumentedBodyGood();
    assert Join(PrintFields(StableFields(Items(DocumentedBody()), {"b"})), FIELD_SEPARATOR) == DOC_A by {
      DocumentedStable();
      DocumentedFirst();
    }
    assert Framed(INITIAL, " {", "};", 1) by {
      assert " " + "{" == " {";
      BraceFramed(" ", "};");
    }
    AliasFiltered("type T ", " {", DocumentedBody(), "};", 1, {"b"});
  }

  function CommentedArm(): Body {
    Last(Slot("", Some(CommentedMethod()), ""))
  }

  lemma ShortLiteral()
    ensures GoodValue(Text('"', "x", "")) && PrintValue(Text('"', "x", "")) == "\"x\""
  {
    assert PrintLiteral('"', "x") + "" == PrintLiteral('"', "x") == "\"x\"";
    assert Quotable('"', "x", false) by {
      assert "x"[1..] == "";
    }
    LiteralPassed(INITIAL, '"', "x");
  }

  lemma EmptyComment()
    ensures GoodComment(Comment("", "")) && PrintComments([Comment("", "")]) == "/**/"
  {
    assert "" + "*/" == "*/" && StartsWith("*/", "*/");
    assert [Comment("", "")][1..] == [];
    assert PrintComments([Comment("", "")]) == "/*" + ("" + ("*/" + ("" + [])));
  }

  function CommentedMethod(): Field {
    Field([Comment("", "")], Named(Bare("method"), "", None, "", Text('"', "x", "")))
  }

  lemma CommentedMethodText()
    ensures PrintField(CommentedMethod()) == "/**/method:\"x\""
  {
    ShortLiteral();
    EmptyComment();
    assert PrintContent(CommentedMethod().content) == "method" + ("" + ("" + (":" + ("" + "\"x\""))));
  }

  lemma CommentedMethodGood()
    ensures GoodField(CommentedMethod())
  {
    ShortLiteral();
    EmptyComment();
  }

  lemma CommentedArmGood()
    ensures GoodArm(CommentedArm())
  {
    CommentedMethodGood();
  }

  lemma CommentedArmText()
    ensures PrintArm(CommentedArm()) == "{" + ("/**/method:\"x\"" + "}")
  {
    CommentedMethodText();
    OneSlot(CommentedMethod(), "/**/method:\"x\"");
  }

  lemma OneSlot(f: Field, text: string)
    requires PrintField(f) == text
    ensures PrintBody(Last(Slot("", Some(f), ""))) == text
  {
    assert "" + (text + "") == text;
  }

  /** The same arm with the comment in front of its method is kept whatever is experimental. */
  lemma CommentedMethodExample()
    ensures ExtractMethod("{/**/method:\"x\"}") == None && forall experimental :: KeepsArm(experimental, "{/**/method:\"x\"}")
  {
    CommentedArmGood();
    CommentedArmText();
    CommentedMethodStays(CommentedArm());
    assert "{" + ("/**/method:\"x\"" + "}") == "{/**/method:\"x\"}";
  }

  // ----- the code -----

  lemma LiteralStep(quote: char, input: string, index: nat, escape: bool)
    requires 0 < index < |input| && IsQuote(quote)
    ensures LiteralEnd(quote, input[index..], escape)
         == if !escape && input[index] == quote then Some(0)
            else match LiteralEnd(quote, input[index + 1..], !escape && input[index] == '\\') case Some(k) => Some(k + 1) case None => None
  {
    assert input[index..][1..] == input[index + 1..];
  }

  /** Where the closing quote is, counted from the start of the input. */
  ghost function EndFrom(quote: char, input: string, index: nat, escape: bool): Option<nat>
    requires index <= |input|
  {
    match LiteralEnd(quote, input[index..], escape) case Some(k) => Some(index + k) case None => None
  }

  method StringLiteral(input: string) returns (r: Option<Literal>)
    ensures r == ParseStringLiteral(input)
  {
    if input == [] || !IsQuote(input[0]) {
      return None;
    }
    var quote, escape, index := input[0], false, 1;
    while index < |input|
      invariant 1 <= index <= |input|
      invariant EndFrom(quote, input, index, escape) == EndFrom(quote, input, 1, false)
    {
      LiteralStep(quote, input, index, escape);
      if escape {
        escape := false;
      } else if input[index] == '\\' {
        escape := true;
      } else if input[index] == quote {
        return Some(Literal(input[1..index], index + 1));
      }
      index := index + 1;
    }
    r := None;
  }

  lemma IdentStep(s: string, end: nat)
    requires end < |s|
    ensures IdentEnd(s[end..]) == if IsIdentChar(s[end]) then 1 + IdentEnd(s[end + 1..]) else 0
  {
    assert s[end..][1..] == s[end + 1..];
  }

  method PropertyName(input: string) returns (r: Option<string>)
    ensures r == ParsePropertyName(input)
  {
    var trimmed := TrimStart(input);
    var literal := StringLiteral(trimmed);
    if literal.Some? {
      var rest := TrimStart(trimmed[literal.value.consumed..]);
      return if AtColon(rest) then Some(literal.value.text) else None;
    }
    var end := 0;
    assert trimmed[0..] == trimmed;
    while end < |trimmed| && IsIdentChar(trimmed[end])
      invariant 0 <= end <= |trimmed| && end + IdentEnd(trimmed[end..]) == IdentEnd(trimmed)
    {
      IdentStep(trimmed, end);
      end := end + 1;
    }
    if end < |trimmed| {
      IdentStep(trimmed, end);
    }
    if end == 0 {
      return None;
    }
    var rest := SkipOptional(TrimStart(trimmed[end..]));
    r := if AtColon(rest) then Some(trimmed[..end]) else None;
  }

  lemma FirstMethodStep(fields: seq<string>, i: nat)
    requires i < |fields|
    ensures FirstMethod(ParseProperties(fields[i..]))
         == if IsMethod(ParseProperty(fields[i])) then LiteralText(ParseProperty(fields[i]).value.value)
            else FirstMethod(ParseProperties(fields[i + 1..]))
  {
    assert ParseProperties(fields[i..]) == [ParseProperty(fields[i])] + ParseProperties(fields[i + 1..]);
    FirstMethodCons(ParseProperty(fields[i]), ParseProperties(fields[i + 1..]));
  }

  method ParseOneProperty(input: string) returns (r: Option<Property>)
    ensures r == ParseProperty(input)
  {
    var name := PropertyName(input);
    var colon := |Before(input, ':')|;
    if name.None? || colon >= |input| {
      return None;
    }
    r := Some(Property(name.value, TrimStart(input[colon + 1..])));
  }

  method MethodText(value: string) returns (r: Option<string>)
    ensures r == LiteralText(value)
  {
    var literal := StringLiteral(TrimStart(value));
    r := if literal.Some? then Some(literal.value.text) else None;
  }

  /** The first property called `method` decides, even if its value is no literal. */
  method ExtractMethodFromArm(arm: string) returns (r: Option<string>)
    ensures r == ExtractMethod(arm)
  {
    var span := FindTopLevelBraceSpan(arm);
    if span.None? {
      return None;
    }
    var fields := SplitTopLevelMulti(arm[span.value.open + 1..span.value.close], {','});
    r := FirstMethodIn(fields);
  }

  method FirstMethodIn(fields: seq<string>) returns (r: Option<string>)
    ensures r == FirstMethod(ParseProperties(fields))
  {
    var i := 0;
    assert fields[0..] == fields;
    while i < |fields|
      invariant 0 <= i <= |fields|
      invariant FirstMethod(ParseProperties(fields[i..])) == FirstMethod(ParseProperties(fields))
    {
      FirstMethodStep(fields, i);
      var p := ParseOneProperty(fields[i]);
      if p.Some? && p.value.name == "method" {
        r := MethodText(p.value.value);
        return;
      }
      i := i + 1;
    }
    r := None;
  }

  /** Comment after comment, until something else comes first. */
  method StripLeadingBlockComments(input: string) returns (rest: string)
    ensures rest == StripComments(input)
  {
    rest := TrimStart(input);
    while StartsWith(rest, "/*")
      invariant StripTrimmed(rest) == StripComments(input)
      decreases |rest|
    {
      var end := IndexOf(rest[2..], "*/");
      if end.None? {
        return;
      }
      rest := TrimStart(rest[end.value + 4..]);
    }
  }
}
