/** The pieces of the Rust string library the modelled code relies on. */
module Text {

  datatype Option<+T> = None | Some(value: T)

  predicate StartsWith(s: string, prefix: string) {
    |prefix| <= |s| && s[..|prefix|] == prefix
  }

  /** `str::strip_prefix`. */
  function StripPrefix(s: string, prefix: string): (r: Option<string>)
    ensures r.Some? ==> s == prefix + r.value
    ensures r.None? <==> !StartsWith(s, prefix)
  {
    if StartsWith(s, prefix) then Some(s[|prefix|..]) else None
  }

  lemma StripPrefixed(prefix: string, rest: string)
    ensures StripPrefix(prefix + rest, prefix) == Some(rest)
  {
    assert (prefix + rest)[..|prefix|] == prefix;
  }

  /** `s.split(c).next()`: everything before the first `c`. */
  function Before(s: string, c: char): (r: string)
    ensures c !in r
    ensures c !in s ==> r == s
  {
    if s == [] || s[0] == c then [] else [s[0]] + Before(s[1..], c)
  }

  lemma {:induction false} BeforeCut(name: string, c: char, tail: string)
    requires c !in name
    ensures Before(name + [c] + tail, c) == name
  {
    if name != [] {
      BeforeCut(name[1..], c, tail);
      assert (name + [c] + tail)[1..] == name[1..] + [c] + tail;
    }
  }

  lemma {:induction false} BeforeIsPrefix(s: string, c: char)
    ensures |Before(s, c)| <= |s| && Before(s, c) == s[..|Before(s, c)|]
    ensures c in s ==> |Before(s, c)| < |s| && s[|Before(s, c)|] == c
  {
    if s != [] && s[0] != c {
      BeforeIsPrefix(s[1..], c);
    }
  }

  /** Code-point order, which is also the byte order of the UTF-8 encodings. */
  predicate LexLe(a: string, b: string) {
    a == [] || (b != [] && (a[0] < b[0] || (a[0] == b[0] && LexLe(a[1..], b[1..]))))
  }

  lemma {:induction false} LexTotal(a: string, b: string)
    ensures LexLe(a, b) || LexLe(b, a)
    ensures LexLe(a, b) && LexLe(b, a) ==> a == b
  {
    if a != [] && b != [] && a[0] == b[0] {
      LexTotal(a[1..], b[1..]);
      assert a == [a[0]] + a[1..] && b == [b[0]] + b[1..];
    }
  }

  lemma {:induction false} LexTransitive(a: string, b: string, c: string)
    requires LexLe(a, b) && LexLe(b, c)
    ensures LexLe(a, c)
  {
    if a != [] && a[0] == b[0] && b[0] == c[0] {
      LexTransitive(a[1..], b[1..], c[1..]);
    }
  }

  /** `char::is_whitespace`: the Unicode White_Space property. */
  predicate IsWhitespace(c: char) {
    || '\U{9}' <= c <= '\U{D}'
    || c == ' ' || c == '\U{85}' || c == '\U{A0}' || c == '\U{1680}'
    || '\U{2000}' <= c <= '\U{200A}'
    || c == '\U{2028}' || c == '\U{2029}' || c == '\U{202F}' || c == '\U{205F}' || c == '\U{3000}'
  }

  predicate AllWhitespace(s: string) {
    forall i :: 0 <= i < |s| ==> IsWhitespace(s[i])
  }

  function TrimStart(s: string): (r: string)
    ensures |r| <= |s|
  {
    if s != [] && IsWhitespace(s[0]) then TrimStart(s[1..]) else s
  }

  lemma {:induction false} TrimStartMeans(s: string)
    ensures var r := TrimStart(s);
            && (r != [] ==> !IsWhitespace(r[0]))
            && r == s[|s| - |r|..] && AllWhitespace(s[..|s| - |r|])
  {
    if s != [] && IsWhitespace(s[0]) {
      TrimStartMeans(s[1..]);
      var r := TrimStart(s);
      assert s[..|s| - |r|] == [s[0]] + s[1..][..|s| - 1 - |r|];
    }
  }

  function TrimEnd(s: string): (r: string)
    ensures |r| <= |s|
  {
    if s != [] && IsWhitespace(s[|s| - 1]) then TrimEnd(s[..|s| - 1]) else s
  }

  lemma {:induction false} TrimEndMeans(s: string)
    ensures var r := TrimEnd(s);
            && (r != [] ==> !IsWhitespace(r[|r| - 1]))
            && r == s[..|r|] && AllWhitespace(s[|r|..])
  {
    if s != [] && IsWhitespace(s[|s| - 1]) {
      TrimEndMeans(s[..|s| - 1]);
      var r := TrimEnd(s);
      assert s[|r|..] == s[..|s| - 1][|r|..] + [s[|s| - 1]];
    }
  }

  /** `str::trim`. */
  function Trim(s: string): string {
    TrimEnd(TrimStart(s))
  }

  /** The one way to take blanks off both ends of a text and leave none there. */
  ghost predicate Trims(s: string, inner: string) {
    && (exists i, j :: 0 <= i <= j <= |s| && inner == s[i..j] && AllWhitespace(s[..i]) && AllWhitespace(s[j..]))
    && (inner != [] ==> !IsWhitespace(inner[0]) && !IsWhitespace(inner[|inner| - 1]))
  }

  lemma TrimMeans(s: string)
    ensures Trims(s, Trim(s))
  {
    var mid, inner := TrimStart(s), Trim(s);
    TrimStartMeans(s);
    TrimEndMeans(mid);
    var i := |s| - |mid|;
    var j := i + |inner|;
    assert inner == s[i..j];
    assert s[j..] == mid[|inner|..];
    assert inner != [] ==> inner[0] == mid[0];
  }
}
