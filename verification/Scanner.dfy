/** The TypeScript scanner: strings, comments, nesting, and splitting at top-level delimiters. */
module Scanner {
  import opened Text

  datatype Scan = Scan(brace: nat, bracket: nat, paren: nat, angle: nat,
                       stringDelim: Option<char>, escape: bool,
                       blockComment: bool, lineComment: bool, previous: Option<char>)
  {
    predicate TopLevel() {
      brace == 0 && bracket == 0 && paren == 0 && angle == 0
    }

    predicate Ignored() {
      stringDelim.Some? || blockComment || lineComment
    }

    predicate WellFormed() {
      && (escape ==> stringDelim.Some?)
      && (stringDelim.Some? ==> stringDelim.value == '"' || stringDelim.value == '\'')
    }

    /** Outside every string, comment and bracket. */
    predicate Closed() {
      TopLevel() && !Ignored()
    }

    /** Outside every string, block comment and bracket, but possibly in a line comment. */
    predicate HalfClosed() {
      TopLevel() && stringDelim.None? && !blockComment
    }

    /** Indistinguishable, for what follows, from the initial state. */
    predicate Neutral() {
      Closed() && !escape && previous != Some('/')
    }
  }

  const INITIAL := Scan(0, 0, 0, 0, None, false, false, false, None)

  function Down(depth: nat): nat {
    if depth == 0 then 0 else depth - 1
  }

  function Step(st: Scan, ch: char): Scan {
    if st.lineComment then
      st.(lineComment := ch != '\n', previous := Some(ch))
    else if st.blockComment then
      if st.previous == Some('*') && ch == '/' then st.(blockComment := false, previous := None)
      else st.(previous := Some(ch))
    else if st.stringDelim.Some? then
      if st.escape then st.(escape := false, previous := Some(ch))
      else if ch == '\\' then st.(escape := true, previous := Some(ch))
      else if ch == st.stringDelim.value then st.(stringDelim := None, previous := Some(ch))
      else st.(previous := Some(ch))
    else if st.previous == Some('/') && ch == '/' then
      st.(lineComment := true, previous := Some(ch))
    else if st.previous == Some('/') && ch == '*' then
      st.(blockComment := true, previous := Some(ch))
    else Bracket(st, ch).(previous := Some(ch))
  }

  function Bracket(st: Scan, ch: char): Scan {
    if ch == '"' || ch == '\'' then st.(stringDelim := Some(ch))
    else if ch == '{' then st.(brace := st.brace + 1)
    else if ch == '}' then st.(brace := Down(st.brace))
    else if ch == '[' then st.(bracket := st.bracket + 1)
    else if ch == ']' then st.(bracket := Down(st.bracket))
    else if ch == '(' then st.(paren := st.paren + 1)
    else if ch == ')' then st.(paren := Down(st.paren))
    else if ch == '<' then st.(angle := st.angle + 1)
    else if ch == '>' then st.(angle := Down(st.angle))
    else st
  }

  /**
   * Outside strings and comments, each of the four openers hides delimiters until its own closer, a
   * closer too many is ignored, the two quotes start a string, and nothing else matters.
   */
  lemma BracketMeans(st: Scan, open: char, close: char, other: char)
    requires !st.Ignored() && (open, close) in {('{', '}'), ('[', ']'), ('(', ')'), ('<', '>')}
    ensures !Bracket(st, open).TopLevel() && !Bracket(st, open).Ignored()
    ensures Bracket(Bracket(st, open), close) == st
    ensures st.TopLevel() ==> Bracket(st, close) == st
    ensures Bracket(st, other).stringDelim == (if other in "\"'" then Some(other) else None)
    ensures other !in "\"'{}[]()<>" ==> Bracket(st, other) == st
  {
  }

  function Run(st: Scan, s: string): Scan
    decreases s
  {
    if s == [] then st else Run(Step(st, s[0]), s[1..])
  }

  predicate Cuts(st: Scan, ch: char, delims: set<char>) {
    !st.Ignored() && st.TopLevel() && ch in delims
  }

  /** The delimiters the filters use are punctuation the scanner gives no other meaning. */
  predicate PlainDelimiters(delims: set<char>) {
    forall d :: d in delims ==> !IsWhitespace(d) && d !in "\"'{}[]()<>/*"
  }

  function Piece(cur: string): seq<string> {
    if Trim(cur) == [] then [] else [Trim(cur)]
  }

  /** Split `s`, with `cur` already collected since the last delimiter. */
  function SplitFrom(st: Scan, cur: string, s: string, delims: set<char>): seq<string>
    decreases s
  {
    if s == [] then Piece(cur)
    else if Cuts(st, s[0], delims) then Piece(cur) + SplitFrom(Step(st, s[0]), [], s[1..], delims)
    else SplitFrom(Step(st, s[0]), cur + [s[0]], s[1..], delims)
  }

  function Split(s: string, delims: set<char>): seq<string> {
    SplitFrom(INITIAL, [], s, delims)
  }

  function Join(parts: seq<string>, sep: string): string {
    if parts == [] then []
    else if |parts| == 1 then parts[0]
    else parts[0] + (sep + Join(parts[1..], sep))
  }

  // ----- basic facts about scanning -----

  lemma {:induction false} RunConcat(st: Scan, s: string, t: string)
    ensures Run(st, s + t) == Run(Run(st, s), t)
    decreases s
  {
    if s == [] {
      assert s + t == t;
    } else {
      assert (s + t)[1..] == s[1..] + t;
      RunConcat(Step(st, s[0]), s[1..], t);
    }
  }

  lemma NeutralObserve(st: Scan, ch: char)
    requires st.Neutral()
    ensures Step(st, ch) == Step(INITIAL, ch)
  {
  }

  lemma NeutralRun(st: Scan, s: string)
    requires st.Neutral() && s != []
    ensures Run(st, s) == Run(INITIAL, s)
  {
    NeutralObserve(st, s[0]);
  }

  lemma ClosedWhitespace(st: Scan, ch: char)
    requires st.Closed() && st.WellFormed() && IsWhitespace(ch)
    ensures Step(st, ch).Neutral()
  {
  }

  lemma ClosedDelimiter(st: Scan, ch: char, delims: set<char>)
    requires st.Closed() && st.WellFormed() && PlainDelimiters(delims) && ch in delims
    ensures Step(st, ch).Neutral()
  {
    assert ch !in "\"'{}[]()<>/*";
    assert forall k :: 0 <= k < |"\"'{}[]()<>/*"| ==> "\"'{}[]()<>/*"[k] != ch;
  }

  lemma {:induction false} RunWhitespace(st: Scan, ws: string)
    requires st.Neutral() && AllWhitespace(ws)
    ensures Run(st, ws).Neutral()
    decreases ws
  {
    if ws != [] {
      ClosedWhitespace(st, ws[0]);
      RunWhitespace(Step(st, ws[0]), ws[1..]);
    }
  }

  lemma {:induction false} RunWellFormed(st: Scan, s: string)
    requires st.WellFormed()
    ensures Run(st, s).WellFormed()
    decreases s
  {
    if s != [] {
      RunWellFormed(Step(st, s[0]), s[1..]);
    }
  }

  /** Trailing white space cannot close a string, a block comment or a bracket. */
  lemma {:induction false} HalfClosedBefore(st: Scan, ws: string)
    requires st.WellFormed() && AllWhitespace(ws) && Run(st, ws).HalfClosed()
    ensures st.HalfClosed()
    decreases ws
  {
    if ws != [] {
      HalfClosedBefore(Step(st, ws[0]), ws[1..]);
    }
  }

  // ----- trimming -----

  predicate Trimmed(p: string) {
    p != [] && !IsWhitespace(p[0]) && !IsWhitespace(p[|p| - 1])
  }

  lemma TrimParts(s: string) returns (a: string, b: string)
    ensures s == a + Trim(s) + b && AllWhitespace(a) && AllWhitespace(b)
    ensures Trim(s) != [] ==> Trimmed(Trim(s))
  {
    var t := TrimStart(s);
    TrimStartMeans(s);
    TrimEndMeans(t);
    var k, n := |s| - |t|, |TrimEnd(t)|;
    a, b := s[..k], t[n..];
    ThreeParts(s, k, n);
    assert n > 0 ==> TrimEnd(t)[0] == t[0];
  }

  lemma ThreeParts(s: string, k: nat, n: nat)
    requires k + n <= |s|
    ensures s == s[..k] + s[k..][..n] + s[k..][n..]
  {
  }

  lemma {:induction false} TrimStartPadded(a: string, p: string)
    requires AllWhitespace(a) && (p == [] || !IsWhitespace(p[0]))
    ensures TrimStart(a + p) == p
  {
    if a == [] {
      assert a + p == p;
    } else {
      assert (a + p)[1..] == a[1..] + p;
      TrimStartPadded(a[1..], p);
    }
  }

  lemma {:induction false} TrimEndPadded(p: string, b: string)
    requires AllWhitespace(b) && (p == [] || !IsWhitespace(p[|p| - 1]))
    ensures TrimEnd(p + b) == p
  {
    if b == [] {
      assert p + b == p;
    } else {
      var n := |b| - 1;
      assert (p + b)[..|p + b| - 1] == p + b[..n];
      TrimEndPadded(p, b[..n]);
    }
  }

  lemma TrimPadded(a: string, p: string, b: string)
    requires AllWhitespace(a) && AllWhitespace(b) && Trimmed(p)
    ensures Trim(a + p + b) == p
  {
    assert a + p + b == a + (p + b);
    TrimStartPadded(a, p + b);
    TrimEndPadded(p, b);
  }

  lemma PiecePadded(a: string, p: string, b: string)
    requires AllWhitespace(a) && AllWhitespace(b) && Trimmed(p)
    ensures Piece(a + p + b) == [p]
  {
    TrimPadded(a, p, b);
  }

  lemma PieceBlank(ws: string)
    requires AllWhitespace(ws)
    ensures Piece(ws) == []
  {
    assert ws + [] == ws;
    TrimStartPadded(ws, []);
  }

  // ----- what a part looks like -----

  /** No delimiter of `s` is at top level. */
  predicate Uncut(st: Scan, s: string, delims: set<char>)
    decreases s
  {
    s == [] || (!Cuts(st, s[0], delims) && Uncut(Step(st, s[0]), s[1..], delims))
  }

  lemma {:induction false} UncutConcat(st: Scan, s: string, t: string, delims: set<char>)
    ensures Uncut(st, s + t, delims) <==> Uncut(st, s, delims) && Uncut(Run(st, s), t, delims)
    decreases s
  {
    if s == [] {
      assert s + t == t;
    } else {
      assert (s + t)[1..] == s[1..] + t;
      UncutConcat(Step(st, s[0]), s[1..], t, delims);
    }
  }

  lemma NeutralUncut(st: Scan, s: string, delims: set<char>)
    requires st.Neutral()
    ensures Uncut(st, s, delims) <==> Uncut(INITIAL, s, delims)
  {
    if s != [] {
      NeutralObserve(st, s[0]);
    }
  }

  predicate Intact(p: string, delims: set<char>) {
    Trimmed(p) && Uncut(INITIAL, p, delims)
  }

  /** The piece cut out of `cur` scans on its own as it did in place. */
  lemma PieceIntact(st: Scan, cur: string, delims: set<char>)
    requires st.Neutral() && Uncut(st, cur, delims)
    ensures forall p :: p in Piece(cur) ==> Intact(p, delims)
    ensures Run(st, cur).HalfClosed() ==> forall p :: p in Piece(cur) ==> Run(INITIAL, p).HalfClosed()
  {
    forall p | p in Piece(cur)
      ensures Intact(p, delims) && (Run(st, cur).HalfClosed() ==> Run(INITIAL, p).HalfClosed())
    {
      var a, b := TrimParts(cur);
      CoreIntact(st, a, p, b, delims);
    }
  }

  lemma CoreIntact(st: Scan, a: string, p: string, b: string, delims: set<char>)
    requires st.Neutral() && Uncut(st, a + p + b, delims)
    requires AllWhitespace(a) && AllWhitespace(b) && p != []
    ensures Uncut(INITIAL, p, delims)
    ensures Run(st, a + p + b).HalfClosed() ==> Run(INITIAL, p).HalfClosed()
  {
    UncutConcat(st, a + p, b, delims);
    UncutConcat(st, a, p, delims);
    RunConcat(st, a + p, b);
    RunConcat(st, a, p);
    RunWhitespace(st, a);
    NeutralUncut(Run(st, a), p, delims);
    NeutralRun(Run(st, a), p);
    RunWellFormed(INITIAL, p);
    if Run(st, a + p + b).HalfClosed() {
      HalfClosedBefore(Run(INITIAL, p), b);
    }
  }

  lemma UncutSnoc(st: Scan, cur: string, ch: char, delims: set<char>)
    requires Uncut(st, cur, delims) && !Cuts(Run(st, cur), ch, delims)
    ensures Uncut(st, cur + [ch], delims)
    ensures Run(st, cur + [ch]) == Step(Run(st, cur), ch)
  {
    UncutConcat(st, cur, [ch], delims);
    RunConcat(st, cur, [ch]);
    assert [ch][1..] == [];
  }

  ghost predicate GoodParts(parts: seq<string>, delims: set<char>) {
    && (forall i :: 0 <= i < |parts| ==> Intact(parts[i], delims))
    && (forall i :: 0 <= i < |parts| - 1 ==> Run(INITIAL, parts[i]).HalfClosed())
  }

  lemma GoodPrepend(cur: string, rest: seq<string>, delims: set<char>)
    requires GoodParts(rest, delims)
    requires forall p :: p in Piece(cur) ==> Intact(p, delims) && Run(INITIAL, p).HalfClosed()
    ensures GoodParts(Piece(cur) + rest, delims)
  {
    assert Piece(cur) != [] ==> Piece(cur)[0] in Piece(cur);
  }

  lemma {:induction false} SplitFromGood(start: Scan, cur: string, s: string, delims: set<char>)
    requires PlainDelimiters(delims)
    requires start.Neutral() && Uncut(start, cur, delims)
    ensures GoodParts(SplitFrom(Run(start, cur), cur, s, delims), delims)
    decreases s
  {
    var st := Run(start, cur);
    PieceIntact(start, cur, delims);
    if s != [] {
      if Cuts(st, s[0], delims) {
        RunWellFormed(start, cur);
        ClosedDelimiter(st, s[0], delims);
        var next := Step(st, s[0]);
        assert Run(next, []) == next;
        SplitFromGood(next, [], s[1..], delims);
        GoodPrepend(cur, SplitFrom(next, [], s[1..], delims), delims);
      } else {
        UncutSnoc(start, cur, s[0], delims);
        SplitFromGood(start, cur + [s[0]], s[1..], delims);
      }
    }
  }

  // ----- splitting a joined sequence -----

  lemma {:induction false} SplitFromUncut(st: Scan, cur: string, p: string, rest: string, delims: set<char>)
    requires Uncut(st, p, delims)
    ensures SplitFrom(st, cur, p + rest, delims) == SplitFrom(Run(st, p), cur + p, rest, delims)
    decreases p
  {
    if p == [] {
      assert p + rest == rest && cur + p == cur;
    } else {
      assert (p + rest)[1..] == p[1..] + rest;
      assert (cur + [p[0]]) + p[1..] == cur + p;
      SplitFromUncut(Step(st, p[0]), cur + [p[0]], p[1..], rest, delims);
    }
  }

  /** A delimiter with white space but no line break around it. */
  ghost predicate IsSeparator(sep: string, delims: set<char>) {
    && |sep| >= 1
    && exists k :: 0 <= k < |sep| && SeparatorAt(sep, k, delims)
  }

  predicate SeparatorAt(sep: string, k: nat, delims: set<char>)
    requires k < |sep|
  {
    && sep[k] in delims
    && AllWhitespace(sep[..k]) && AllWhitespace(sep[k + 1..])
    && '\n' !in sep
  }

  lemma {:induction false} WhitespaceUncut(st: Scan, ws: string, delims: set<char>)
    requires AllWhitespace(ws) && PlainDelimiters(delims)
    ensures Uncut(st, ws, delims)
    decreases ws
  {
    if ws != [] {
      WhitespaceUncut(Step(st, ws[0]), ws[1..], delims);
    }
  }

  lemma {:induction false} ClosedRunWhitespace(st: Scan, ws: string)
    requires st.Closed() && st.WellFormed() && AllWhitespace(ws)
    ensures Run(st, ws).Closed()
    decreases ws
  {
    if ws != [] {
      ClosedWhitespace(st, ws[0]);
      ClosedRunWhitespace(Step(st, ws[0]), ws[1..]);
    }
  }

  /** From a closed state a separator ends the current part. */
  lemma SplitAtSeparator(st: Scan, cur: string, sep: string, k: nat, rest: string, delims: set<char>)
    returns (next: Scan)
    requires PlainDelimiters(delims) && k < |sep| && SeparatorAt(sep, k, delims)
    requires st.Closed() && st.WellFormed()
    ensures next.Neutral()
    ensures SplitFrom(st, cur, sep + rest, delims)
         == Piece(cur + sep[..k]) + SplitFrom(next, sep[k + 1..], rest, delims)
  {
    var w1, d, w2 := sep[..k], sep[k], sep[k + 1..];
    assert sep + rest == w1 + ([d] + (w2 + rest));
    WhitespaceUncut(st, w1, delims);
    SplitFromUncut(st, cur, w1, [d] + (w2 + rest), delims);
    ClosedRunWhitespace(st, w1);
    RunWellFormed(st, w1);
    var mid := Run(st, w1);
    ClosedDelimiter(mid, d, delims);
    var after := Step(mid, d);
    assert ([d] + (w2 + rest))[1..] == w2 + rest;
    WhitespaceUncut(after, w2, delims);
    SplitFromUncut(after, [], w2, rest, delims);
    assert [] + w2 == w2;
    RunWhitespace(after, w2);
    next := Run(after, w2);
  }

  ghost predicate AllIntact(parts: seq<string>, delims: set<char>) {
    forall i :: 0 <= i < |parts| ==> Intact(parts[i], delims)
  }

  /** Every part but the last leaves the scanner outside strings, comments and brackets. */
  ghost predicate Separable(parts: seq<string>) {
    forall i :: 0 <= i < |parts| - 1 ==> Run(INITIAL, parts[i]).Closed()
  }

  /** A closed part in front of a separator is cut off whole. */
  lemma FirstPartSplits(st: Scan, ws: string, p: string, sep: string, k: nat, rest: string, delims: set<char>) returns (next: Scan)
    requires PlainDelimiters(delims) && k < |sep| && SeparatorAt(sep, k, delims)
    requires st.Neutral() && AllWhitespace(ws) && Intact(p, delims) && Run(INITIAL, p).Closed()
    ensures next.Neutral()
    ensures SplitFrom(st, ws, p + (sep + rest), delims) == [p] + SplitFrom(next, sep[k + 1..], rest, delims)
  {
    NeutralUncut(st, p, delims);
    NeutralRun(st, p);
    SplitFromUncut(st, ws, p, sep + rest, delims);
    RunWellFormed(INITIAL, p);
    next := SplitAtSeparator(Run(st, p), ws + p, sep, k, rest, delims);
    PiecePadded(ws, p, sep[..k]);
  }

  lemma LastPartSplits(st: Scan, ws: string, p: string, delims: set<char>)
    requires st.Neutral() && AllWhitespace(ws) && Intact(p, delims)
    ensures SplitFrom(st, ws, p, delims) == [p]
  {
    NeutralUncut(st, p, delims);
    assert p + [] == p && ws + p + [] == ws + p;
    SplitFromUncut(st, ws, p, [], delims);
    PiecePadded(ws, p, []);
  }

  lemma {:induction false} ResplitFrom(st: Scan, ws: string, parts: seq<string>, sep: string, k: nat, delims: set<char>)
    requires PlainDelimiters(delims) && k < |sep| && SeparatorAt(sep, k, delims)
    requires st.Neutral() && AllWhitespace(ws)
    requires AllIntact(parts, delims) && Separable(parts)
    ensures SplitFrom(st, ws, Join(parts, sep), delims) == parts
    decreases parts
  {
    if parts == [] {
      PieceBlank(ws);
    } else if |parts| == 1 {
      LastPartSplits(st, ws, parts[0], delims);
    } else {
      var rest := Join(parts[1..], sep);
      var next := FirstPartSplits(st, ws, parts[0], sep, k, rest, delims);
      ResplitFrom(next, sep[k + 1..], parts[1..], sep, k, delims);
      assert parts == [parts[0]] + parts[1..];
    }
  }

  // ----- and when it fails -----

  lemma NotClosedWhitespace(st: Scan, ch: char)
    requires st.WellFormed() && !st.Closed() && IsWhitespace(ch) && ch != '\n'
    ensures !Step(st, ch).Closed()
  {
  }

  lemma {:induction false} NotClosedRunWhitespace(st: Scan, ws: string)
    requires st.WellFormed() && !st.Closed() && AllWhitespace(ws) && '\n' !in ws
    ensures !Run(st, ws).Closed()
    decreases ws
  {
    if ws != [] {
      NotClosedWhitespace(st, ws[0]);
      NotClosedRunWhitespace(Step(st, ws[0]), ws[1..]);
    }
  }

  /** Once text is collected, the first part is at least as long. */
  lemma {:induction false} FirstPartLength(st: Scan, ws: string, core: string, more: string, s: string, delims: set<char>)
    requires AllWhitespace(ws) && Trimmed(core)
    ensures var r := SplitFrom(st, ws + core + more, s, delims); r != [] && |r[0]| >= |core|
    decreases s
  {
    var cur := ws + core + more;
    TrimAtLeast(ws, core, more);
    if s != [] && !Cuts(st, s[0], delims) {
      assert cur + [s[0]] == ws + core + (more + [s[0]]);
      FirstPartLength(Step(st, s[0]), ws, core, more + [s[0]], s[1..], delims);
    }
  }

  lemma {:induction false} TrimEndAtLeast(core: string, more: string)
    requires core != [] && !IsWhitespace(core[|core| - 1])
    ensures |TrimEnd(core + more)| >= |core|
  {
    if more == [] {
      assert core + more == core;
    } else {
      assert (core + more)[..|core + more| - 1] == core + more[..|more| - 1];
      TrimEndAtLeast(core, more[..|more| - 1]);
    }
  }

  lemma TrimAtLeast(ws: string, core: string, more: string)
    requires AllWhitespace(ws) && Trimmed(core)
    ensures |Trim(ws + core + more)| >= |core|
  {
    assert ws + core + more == ws + (core + more);
    TrimStartPadded(ws, core + more);
    TrimEndAtLeast(core, more);
  }

  /** An open part swallows the separator after it. */
  lemma OpenSwallows(st: Scan, ws: string, parts: seq<string>, sep: string, k: nat, delims: set<char>)
    requires PlainDelimiters(delims) && k < |sep| && SeparatorAt(sep, k, delims)
    requires st.Neutral() && AllWhitespace(ws)
    requires |parts| >= 2 && Intact(parts[0], delims) && !Run(INITIAL, parts[0]).Closed()
    ensures SplitFrom(st, ws, Join(parts, sep), delims) != parts
  {
    var p, rest := parts[0], Join(parts[1..], sep);
    NeutralUncut(st, p, delims);
    NeutralRun(st, p);
    SplitFromUncut(st, ws, p, sep + rest, delims);
    RunWellFormed(INITIAL, p);
    OpenAtSeparator(Run(st, p), ws, p, sep, k, rest, delims);
  }

  lemma OpenAtSeparator(st: Scan, ws: string, p: string, sep: string, k: nat, rest: string, delims: set<char>)
    requires PlainDelimiters(delims) && k < |sep| && SeparatorAt(sep, k, delims)
    requires st.WellFormed() && !st.Closed() && AllWhitespace(ws) && Trimmed(p)
    ensures var r := SplitFrom(st, ws + p, sep + rest, delims); r != [] && |r[0]| > |p|
  {
    var w1, d, tail := sep[..k], sep[k], sep[k + 1..] + rest;
    CutSeparator(sep, k, rest);
    assert '\n' !in w1;
    OpenBeforeDelimiter(st, ws + p, w1, d, tail, delims);
    OpenDelimiter(Run(st, w1), ws, p, w1, d, tail, delims);
  }

  lemma CutSeparator(sep: string, k: nat, rest: string)
    requires k < |sep|
    ensures sep + rest == sep[..k] + ([sep[k]] + (sep[k + 1..] + rest))
  {
  }

  lemma OpenBeforeDelimiter(st: Scan, cur: string, w1: string, d: char, tail: string, delims: set<char>)
    requires PlainDelimiters(delims) && st.WellFormed() && !st.Closed() && AllWhitespace(w1) && '\n' !in w1
    ensures SplitFrom(st, cur, w1 + ([d] + tail), delims) == SplitFrom(Run(st, w1), cur + w1, [d] + tail, delims)
    ensures !Cuts(Run(st, w1), d, delims)
  {
    WhitespaceUncut(st, w1, delims);
    SplitFromUncut(st, cur, w1, [d] + tail, delims);
    NotClosedRunWhitespace(st, w1);
  }

  /** A delimiter seen while the text is open is swallowed into the part. */
  lemma OpenDelimiter(st: Scan, ws: string, p: string, w1: string, d: char, tail: string, delims: set<char>)
    requires PlainDelimiters(delims) && d in delims && !Cuts(st, d, delims) && AllWhitespace(ws) && Trimmed(p)
    ensures var r := SplitFrom(st, ws + p + w1, [d] + tail, delims); r != [] && |r[0]| > |p|
  {
    assert ([d] + tail)[1..] == tail;
    var core := p + w1 + [d];
    assert (ws + p + w1) + [d] == ws + core + [];
    assert core[0] == p[0] && core[|core| - 1] == d;
    FirstPartLength(Step(st, d), ws, core, [], tail, delims);
  }

  lemma {:induction false} ResplitOnlyIf(st: Scan, ws: string, parts: seq<string>, sep: string, k: nat, delims: set<char>)
    requires PlainDelimiters(delims) && k < |sep| && SeparatorAt(sep, k, delims)
    requires st.Neutral() && AllWhitespace(ws)
    requires AllIntact(parts, delims)
    requires SplitFrom(st, ws, Join(parts, sep), delims) == parts
    ensures Separable(parts)
    decreases parts
  {
    if |parts| >= 2 {
      var p := parts[0];
      if !Run(INITIAL, p).Closed() {
        OpenSwallows(st, ws, parts, sep, k, delims);
        assert false;
      }
      var rest := Join(parts[1..], sep);
      var next := FirstPartSplits(st, ws, p, sep, k, rest, delims);
      assert parts == [p] + parts[1..];
      assert SplitFrom(next, sep[k + 1..], rest, delims) == parts[1..];
      ResplitOnlyIf(next, sep[k + 1..], parts[1..], sep, k, delims);
      assert forall i :: 1 <= i < |parts| - 1 ==> parts[i] == parts[1..][i - 1];
    }
  }

  // ----- the main results -----

  /** `chosen` is a subsequence of `parts`. */
  ghost predicate Subsequence(chosen: seq<string>, parts: seq<string>, at: seq<nat>) {
    && |at| == |chosen|
    && (forall i :: 0 <= i < |at| ==> at[i] < |parts| && chosen[i] == parts[at[i]])
    && (forall i, j :: 0 <= i < j < |at| ==> at[i] < at[j])
  }

  predicate EndsInLineComment(p: string) {
    Run(INITIAL, p).lineComment
  }

  /**
   * Any selection of the parts, joined by a spaced delimiter, splits back into exactly that
   * selection if and only if no kept part but the last ends in a `//` comment.
   */
  lemma ResplitSelection(input: string, chosen: seq<string>, at: seq<nat>, sep: string, delims: set<char>)
    requires PlainDelimiters(delims) && IsSeparator(sep, delims)
    requires Subsequence(chosen, Split(input, delims), at)
    ensures Split(Join(chosen, sep), delims) == chosen
       <==> forall i :: 0 <= i < |chosen| - 1 ==> !EndsInLineComment(chosen[i])
  {
    var parts := Split(input, delims);
    var k: nat :| k < |sep| && SeparatorAt(sep, k, delims);
    assert Run(INITIAL, []) == INITIAL;
    SplitFromGood(INITIAL, [], input, delims);
    forall i | 0 <= i < |chosen| ensures Intact(chosen[i], delims) {
      assert chosen[i] == parts[at[i]];
    }
    forall i | 0 <= i < |chosen| - 1 ensures Run(INITIAL, chosen[i]).HalfClosed() {
      assert at[i] < at[|chosen| - 1] < |parts|;
      assert chosen[i] == parts[at[i]];
    }
    assert Separable(chosen) <==> forall i :: 0 <= i < |chosen| - 1 ==> !EndsInLineComment(chosen[i]);
    if Separable(chosen) {
      ResplitFrom(INITIAL, [], chosen, sep, k, delims);
    }
    if Split(Join(chosen, sep), delims) == chosen {
      ResplitOnlyIf(INITIAL, [], chosen, sep, k, delims);
    }
  }

  // ----- text without line comments -----

  /** The scanner never enters a `//` comment; slashes in strings and block comments do not count. */
  predicate Uncommented(st: Scan, s: string)
    decreases s
  {
    !st.lineComment && (s == [] || Uncommented(Step(st, s[0]), s[1..]))
  }

  lemma {:induction false} UncommentedConcat(st: Scan, s: string, t: string)
    ensures Uncommented(st, s + t) <==> Uncommented(st, s) && Uncommented(Run(st, s), t)
    decreases s
  {
    if s == [] {
      assert s + t == t;
    } else {
      assert (s + t)[1..] == s[1..] + t;
      UncommentedConcat(Step(st, s[0]), s[1..], t);
    }
  }

  lemma PieceUncommented(st: Scan, cur: string)
    requires st.Neutral() && Uncommented(st, cur)
    ensures forall p :: p in Piece(cur) ==> !EndsInLineComment(p)
  {
    forall p | p in Piece(cur) ensures !EndsInLineComment(p) {
      var a, b := TrimParts(cur);
      UncommentedConcat(st, a + p, b);
      RunConcat(st, a, p);
      RunWhitespace(st, a);
      NeutralRun(Run(st, a), p);
    }
  }

  lemma {:induction false} PartsUncommented(start: Scan, cur: string, s: string, delims: set<char>)
    requires PlainDelimiters(delims) && start.Neutral() && Uncommented(start, cur) && Uncommented(Run(start, cur), s)
    ensures forall p :: p in SplitFrom(Run(start, cur), cur, s, delims) ==> !EndsInLineComment(p)
    decreases s
  {
    var st := Run(start, cur);
    PieceUncommented(start, cur);
    if s != [] {
      if Cuts(st, s[0], delims) {
        RunWellFormed(start, cur);
        ClosedDelimiter(st, s[0], delims);
        PartsUncommented(Step(st, s[0]), [], s[1..], delims);
      } else {
        UncommentedConcat(start, cur, [s[0]]);
        RunConcat(start, cur, [s[0]]);
        assert [s[0]][1..] == [];
        PartsUncommented(start, cur + [s[0]], s[1..], delims);
      }
    }
  }

  /** Text without `//` comments always splits back, whatever slashes its strings and block comments hold. */
  lemma ResplitUncommented(input: string, chosen: seq<string>, at: seq<nat>, sep: string, delims: set<char>)
    requires PlainDelimiters(delims) && IsSeparator(sep, delims)
    requires Subsequence(chosen, Split(input, delims), at)
    requires Uncommented(INITIAL, input)
    ensures Split(Join(chosen, sep), delims) == chosen
  {
    SplitUncommented(INITIAL, input, delims);
    forall i | 0 <= i < |chosen| ensures !EndsInLineComment(chosen[i]) {
      assert chosen[i] == Split(input, delims)[at[i]];
    }
    ResplitSelection(input, chosen, at, sep, delims);
  }

  lemma SplitUncommented(start: Scan, input: string, delims: set<char>)
    requires PlainDelimiters(delims) && start.Neutral() && Uncommented(start, input)
    ensures forall p :: p in SplitFrom(start, [], input, delims) ==> !EndsInLineComment(p)
  {
    assert Run(start, []) == start;
    PartsUncommented(start, [], input, delims);
  }

  /** Inside a double-quoted string nothing starts a comment. */
  lemma {:induction false} QuotedUncommented(st: Scan, text: string)
    requires st.stringDelim == Some('"') && !st.escape && !st.lineComment && !st.blockComment
    requires '"' !in text && '\\' !in text
    ensures Uncommented(st, text)
    decreases text
  {
    if text != [] {
      QuotedUncommented(Step(st, text[0]), text[1..]);
    }
  }

  /** Nor inside a block comment, from right behind its opening on, until its end is read. */
  lemma {:induction false} BlockUncommented(st: Scan, text: string)
    requires st.blockComment && !st.lineComment && !(st.previous == Some('*') && text != [] && text[0] == '/')
    requires forall i :: 0 <= i < |text| - 1 ==> !(text[i] == '*' && text[i + 1] == '/')
    ensures Uncommented(st, text)
    decreases text
  {
    if text != [] {
      BlockUncommented(Step(st, text[0]), text[1..]);
    }
  }

  lemma SingleSeparator(ch: char)
    requires !IsWhitespace(ch)
    ensures IsSeparator([' ', ch, ' '], {ch}) && SeparatorAt([' ', ch, ' '], 1, {ch})
    ensures IsSeparator([ch, ' '], {ch}) && SeparatorAt([ch, ' '], 0, {ch})
  {
    var sep := [' ', ch, ' '];
    assert sep[..1] == " " && sep[2..] == " ";
    assert SeparatorAt(sep, 1, {ch});
    var short := [ch, ' '];
    assert short[..0] == "" && short[1..] == " ";
    assert SeparatorAt(short, 0, {ch});
  }

  lemma BarIsPlain()
    ensures PlainDelimiters({'|'})
  {
    forall c | c in {'|'} ensures !IsWhitespace(c) && c !in "\"'{}[]()<>/*" {
      assert forall k :: 0 <= k < |"\"'{}[]()<>/*"| ==> "\"'{}[]()<>/*"[k] != '|';
    }
  }

  lemma SplitIntact(st: Scan, q: string, delims: set<char>)
    requires st.Neutral() && Intact(q, delims)
    ensures SplitFrom(st, [], q, delims) == [q]
  {
    NeutralUncut(st, q, delims);
    assert q + [] == q && [] + q == q && [] + q + [] == q;
    SplitFromUncut(st, [], q, [], delims);
    PiecePadded([], q, []);
  }

  lemma SplitFromCons(st: Scan, cur: string, ch: char, s: string, delims: set<char>)
    ensures Cuts(st, ch, delims)
        ==> SplitFrom(st, cur, [ch] + s, delims) == Piece(cur) + SplitFrom(Step(st, ch), [], s, delims)
    ensures !Cuts(st, ch, delims)
        ==> SplitFrom(st, cur, [ch] + s, delims) == SplitFrom(Step(st, ch), cur + [ch], s, delims)
  {
    assert ([ch] + s)[1..] == s;
  }

  lemma CutBeforeIntact(st: Scan, cur: string, p: string, d: char, q: string, delims: set<char>)
    requires PlainDelimiters(delims) && d in delims
    requires st.Closed() && st.WellFormed() && Piece(cur) == [p] && Intact(q, delims)
    ensures SplitFrom(st, cur, [d] + q, delims) == [p, q]
  {
    ClosedDelimiter(st, d, delims);
    SplitIntact(Step(st, d), q, delims);
    SplitFromCons(st, cur, d, q, delims);
    assert [p] + [q] == [p, q];
  }

  lemma LineCommentSplits(st: Scan, p: string, d: char, q: string, delims: set<char>)
    requires PlainDelimiters(delims) && d in delims
    requires Trimmed(p) && Intact(q, delims)
    requires st.HalfClosed() && st.WellFormed() && st.lineComment
    ensures SplitFrom(st, p, ['\n'] + ([d] + q), delims) == [p, q]
  {
    PiecePadded([], p, ['\n']);
    assert [] + p + ['\n'] == p + ['\n'];
    CutBeforeIntact(Step(st, '\n'), p + ['\n'], p, d, q, delims);
    SplitFromCons(st, p, '\n', [d] + q, delims);
  }

  /** Whenever a part ends in a `//` comment, joining it with its successor loses the boundary. */
  lemma LineCommentMerges(p: string, q: string)
    requires Intact(p, {'|'}) && Intact(q, {'|'})
    requires Run(INITIAL, p).HalfClosed() && EndsInLineComment(p)
    ensures Split(p + (['\n'] + (['|'] + q)), {'|'}) == [p, q]
    ensures Split(Join([p, q], " | "), {'|'}) != [p, q]
  {
    BarIsPlain();
    SplitFromUncut(INITIAL, [], p, ['\n'] + (['|'] + q), {'|'});
    assert [] + p == p;
    RunWellFormed(INITIAL, p);
    LineCommentSplits(Run(INITIAL, p), p, '|', q, {'|'});
    SingleSeparator('|');
    assert " | " == [' ', '|', ' '];
    OpenSwallows(INITIAL, [], [p, q], " | ", 1, {'|'});
  }

  /** The family is not empty. */
  lemma LineCommentMergesExample()
    ensures Split("//\n|b", {'|'}) == ["//", "b"]
    ensures Split("// | b", {'|'}) != ["//", "b"]
  {
    var p, q := "//", "b";
    assert p[1..] == "/" && "/"[1..] == [] && q[1..] == [];
    assert Run(INITIAL, p) == Step(Step(INITIAL, '/'), '/');
    LineCommentMerges(p, q);
    assert p + (['\n'] + (['|'] + q)) == "//\n|b";
    assert [p, q][1..] == [q];
    assert Join([p, q], " | ") == "// | b";
  }
}
