/** Splitting text into lines and words, as the Rust string library does. */
module Words {
  import opened Text

  // ----- lines -----

  const NEWLINE := '\n'
  const RETURN := '\r'

  function StripReturn(line: string): string {
    if line != [] && line[|line| - 1] == RETURN then line[..|line| - 1] else line
  }

  /** One carriage return goes from the end of a line, and nothing else. */
  lemma StripReturnMeans(line: string)
    ensures StripReturn(line + "\r") == line
    ensures line == [] || line[|line| - 1] != '\r' ==> StripReturn(line) == line
  {
    assert (line + "\r")[..|line|] == line;
  }

  /** `str::lines`: a carriage return is dropped only in front of a newline. */
  function Lines(s: string): seq<string> {
    if s == [] then []
    else
      var line := Before(s, NEWLINE);
      if |line| < |s| then [StripReturn(line)] + Lines(s[|line| + 1..]) else [line]
  }

  function Unlines(lines: seq<string>): string {
    if lines == [] then [] else lines[0] + [NEWLINE] + Unlines(lines[1..])
  }

  ghost predicate OneLiners(lines: seq<string>) {
    forall i :: 0 <= i < |lines| ==> NEWLINE !in lines[i]
  }

  function StripReturns(lines: seq<string>): seq<string> {
    seq(|lines|, i requires 0 <= i < |lines| => StripReturn(lines[i]))
  }

  lemma LinesCons(line: string, rest: string)
    requires NEWLINE !in line
    ensures Lines(line + [NEWLINE] + rest) == [StripReturn(line)] + Lines(rest)
  {
    BeforeCut(line, NEWLINE, rest);
    assert (line + [NEWLINE] + rest)[|line| + 1..] == rest;
  }

  lemma {:induction false} LinesUnlines(lines: seq<string>)
    requires OneLiners(lines)
    ensures Lines(Unlines(lines)) == StripReturns(lines)
  {
    if lines != [] {
      LinesUnlines(lines[1..]);
      StripReturnsCons(lines);
      LinesCons(lines[0], Unlines(lines[1..]));
    }
  }

  lemma StripReturnsCons(lines: seq<string>)
    requires lines != []
    ensures StripReturns(lines) == [StripReturn(lines[0])] + StripReturns(lines[1..])
  {
  }

  /** Text that ends a line can be cut there. */
  lemma {:induction false} LinesConcat(a: string, b: string)
    requires a == [] || a[|a| - 1] == NEWLINE
    ensures Lines(a + b) == Lines(a) + Lines(b)
    decreases |a|
  {
    if a == [] {
      assert a + b == b;
    } else {
      var line := Before(a, NEWLINE);
      BeforeIsPrefix(a, NEWLINE);
      var rest := a[|line| + 1..];
      assert a == line + [NEWLINE] + rest;
      LinesConcat(rest, b);
      LinesPeel(line, rest, b);
    }
  }

  lemma LinesPeel(line: string, rest: string, b: string)
    requires NEWLINE !in line && Lines(rest + b) == Lines(rest) + Lines(b)
    ensures Lines((line + [NEWLINE] + rest) + b) == Lines(line + [NEWLINE] + rest) + Lines(b)
  {
    var first := [StripReturn(line)];
    calc {
      Lines((line + [NEWLINE] + rest) + b);
      { assert (line + [NEWLINE] + rest) + b == line + [NEWLINE] + (rest + b); }
      Lines(line + [NEWLINE] + (rest + b));
      { LinesCons(line, rest + b); }
      first + Lines(rest + b);
      first + (Lines(rest) + Lines(b));
      (first + Lines(rest)) + Lines(b);
      { LinesCons(line, rest); }
      Lines(line + [NEWLINE] + rest) + Lines(b);
    }
  }

  // ----- words -----

  /** The length of the word `s` begins with. */
  function WordLength(s: string): (n: nat)
    ensures n <= |s| && (n < |s| ==> IsWhitespace(s[n]))
    ensures forall i :: 0 <= i < n ==> !IsWhitespace(s[i])
  {
    if s == [] || IsWhitespace(s[0]) then 0 else 1 + WordLength(s[1..])
  }

  /** `str::split_whitespace`. */
  function SplitWhitespace(s: string): seq<string> {
    if s == [] then []
    else if IsWhitespace(s[0]) then SplitWhitespace(s[1..])
    else [s[..WordLength(s)]] + SplitWhitespace(s[WordLength(s)..])
  }

  predicate IsWord(w: string) {
    w != [] && forall i :: 0 <= i < |w| ==> !IsWhitespace(w[i])
  }

  function JoinWords(words: seq<string>): string {
    if words == [] then [] else if |words| == 1 then words[0] else words[0] + " " + JoinWords(words[1..])
  }

  lemma {:induction false} SplitGivesWords(s: string)
    ensures forall i :: 0 <= i < |SplitWhitespace(s)| ==> IsWord(SplitWhitespace(s)[i])
    decreases |s|
  {
    if s != [] {
      if IsWhitespace(s[0]) {
        SplitGivesWords(s[1..]);
      } else {
        SplitGivesWords(s[WordLength(s)..]);
      }
    }
  }

  lemma {:induction false} WordLengthAt(w: string, rest: string)
    requires IsWord(w) && (rest == [] || IsWhitespace(rest[0]))
    ensures WordLength(w + rest) == |w|
  {
    if |w| > 1 {
      assert (w + rest)[1..] == w[1..] + rest;
      WordLengthAt(w[1..], rest);
    } else {
      assert (w + rest)[1..] == rest;
    }
  }

  lemma SplitCons(w: string, rest: string)
    requires IsWord(w) && (rest == [] || IsWhitespace(rest[0]))
    ensures SplitWhitespace(w + rest) == [w] + SplitWhitespace(rest)
  {
    WordLengthAt(w, rest);
    assert (w + rest)[|w|..] == rest;
    assert (w + rest)[..|w|] == w;
  }

  /** Joining words with single spaces loses nothing: splitting gives the same words back. */
  lemma {:induction false} SplitJoin(words: seq<string>)
    requires forall i :: 0 <= i < |words| ==> IsWord(words[i])
    ensures SplitWhitespace(JoinWords(words)) == words
  {
    if |words| == 1 {
      assert words[0] + [] == words[0];
      SplitCons(words[0], []);
    } else if words != [] {
      var rest := " " + JoinWords(words[1..]);
      assert JoinWords(words) == words[0] + rest;
      assert rest[1..] == JoinWords(words[1..]);
      SplitCons(words[0], rest);
      SplitJoin(words[1..]);
    }
  }

  lemma {:induction false} SplitIgnoresTrailing(s: string, c: char)
    requires IsWhitespace(c)
    ensures SplitWhitespace(s + [c]) == SplitWhitespace(s)
    decreases |s|
  {
    if s == [] {
      assert ([c])[1..] == [];
      assert s + [c] == [c];
    } else if IsWhitespace(s[0]) {
      assert (s + [c])[1..] == s[1..] + [c];
      SplitIgnoresTrailing(s[1..], c);
    } else {
      var n := WordLength(s);
      var w, rest := s[..n], s[n..];
      assert s == w + rest && s + [c] == w + (rest + [c]);
      SplitCons(w, rest + [c]);
      SplitIgnoresTrailing(rest, c);
    }
  }

  // ----- trimming -----

  lemma TrimStartBlank(s: string)
    requires AllWhitespace(s)
    ensures TrimStart(s) == []
  {
  }

  lemma {:induction false} TrimStartTrailing(s: string, c: char)
    requires !AllWhitespace(s)
    ensures TrimStart(s + [c]) == TrimStart(s) + [c]
  {
    assert s + [c] != [] && (s + [c])[0] == s[0];
    if IsWhitespace(s[0]) {
      assert (s + [c])[1..] == s[1..] + [c];
      if AllWhitespace(s[1..]) {
        BlankTail(s);
      }
      TrimStartTrailing(s[1..], c);
    }
  }

  lemma BlankTail(s: string)
    requires s != [] && IsWhitespace(s[0]) && AllWhitespace(s[1..])
    ensures AllWhitespace(s)
  {
    assert s == [s[0]] + s[1..];
  }

  lemma TrimIgnoresTrailing(s: string, c: char)
    requires IsWhitespace(c)
    ensures Trim(s + [c]) == Trim(s)
  {
    if AllWhitespace(s) {
      TrimStartBlank(s);
      TrimStartBlank(s + [c]);
    } else {
      TrimStartTrailing(s, c);
      var t := TrimStart(s);
      assert (t + [c])[..|t|] == t;
    }
  }
}
