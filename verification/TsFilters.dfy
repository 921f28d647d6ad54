/** Filtering union arms and fields out of generated TypeScript, on top of the scanner. */
module TsFilters {
  import opened Text
  import opened Scanner

  function Keep(parts: seq<string>, keep: string -> bool): seq<string> {
    if parts == [] then []
    else
      var n := |parts| - 1;
      Keep(parts[..n], keep) + if keep(parts[n]) then [parts[n]] else []
  }

  lemma SubsequenceSnoc(chosen: seq<string>, parts: seq<string>, at: seq<nat>)
    requires parts != [] && Subsequence(chosen, parts[..|parts| - 1], at)
    ensures Subsequence(chosen, parts, at)
    ensures Subsequence(chosen + [parts[|parts| - 1]], parts, at + [|parts| - 1])
  {
  }

  lemma {:induction false} KeepSubsequence(parts: seq<string>, keep: string -> bool) returns (at: seq<nat>)
    ensures Subsequence(Keep(parts, keep), parts, at)
  {
    at := [];
    if parts != [] {
      var n := |parts| - 1;
      at := KeepSubsequence(parts[..n], keep);
      SubsequenceSnoc(Keep(parts[..n], keep), parts, at);
      if keep(parts[n]) {
        at := at + [n];
      } else {
        assert Keep(parts, keep) == Keep(parts[..n], keep);
      }
    }
  }

  /** `keep` applied to the parts of `text`, joined again. */
  function FilterParts(text: string, delims: set<char>, sep: string, keep: string -> bool): string {
    Join(Keep(Split(text, delims), keep), sep)
  }

  lemma KeepSnoc(parts: seq<string>, part: string, keep: string -> bool)
    ensures Keep(parts + [part], keep) == Keep(parts, keep) + if keep(part) then [part] else []
  {
    assert (parts + [part])[..|parts|] == parts;
  }

  lemma {:induction false} KeepTwice(parts: seq<string>, keep: string -> bool)
    ensures Keep(Keep(parts, keep), keep) == Keep(parts, keep)
  {
    if parts != [] {
      var n := |parts| - 1;
      KeepTwice(parts[..n], keep);
      if keep(parts[n]) {
        KeepSnoc(Keep(parts[..n], keep), parts[n], keep);
      } else {
        assert Keep(parts, keep) == Keep(parts[..n], keep);
      }
    }
  }

  /** No part in front of another ends in a `//` comment, which joining would extend over its successor. */
  predicate Joinable(parts: seq<string>) {
    forall i :: 0 <= i < |parts| - 1 ==> !EndsInLineComment(parts[i])
  }

  /**
   * Filtering keeps the survivors intact and in order if and only if no survivor but the last ends
   * in a `//` comment; filtering again then changes nothing.
   */
  lemma FilterPartsExact(text: string, delims: set<char>, sep: string, keep: string -> bool)
    requires PlainDelimiters(delims) && IsSeparator(sep, delims)
    ensures Split(FilterParts(text, delims, sep, keep), delims) == Keep(Split(text, delims), keep)
       <==> Joinable(Keep(Split(text, delims), keep))
    ensures Joinable(Keep(Split(text, delims), keep))
        ==> FilterParts(FilterParts(text, delims, sep, keep), delims, sep, keep) == FilterParts(text, delims, sep, keep)
  {
    var at := KeepSubsequence(Split(text, delims), keep);
    ResplitSelection(text, Keep(Split(text, delims), keep), at, sep, delims);
    KeepTwice(Split(text, delims), keep);
  }

  /** In particular for every text without `//` comments. */
  lemma FilterPartsUncommented(text: string, delims: set<char>, sep: string, keep: string -> bool)
    requires PlainDelimiters(delims) && IsSeparator(sep, delims) && Uncommented(INITIAL, text)
    ensures Joinable(Keep(Split(text, delims), keep))
    ensures Split(FilterParts(text, delims, sep, keep), delims) == Keep(Split(text, delims), keep)
  {
    var at := KeepSubsequence(Split(text, delims), keep);
    ResplitUncommented(text, Keep(Split(text, delims), keep), at, sep, delims);
    FilterPartsExact(text, delims, sep, keep);
  }

  datatype Alias = Alias(prefix: string, body: string, suffix: string)

  /** Prefix up to the first `=`, suffix from the last `;`. */
  function SplitTypeAlias(content: string): (r: Option<Alias>)
    ensures r.Some? ==> content == r.value.prefix + r.value.body + r.value.suffix
  {
    var eq := |Before(content, '=')|;
    var semi := LastIndex(content, ';');
    if '=' !in content || semi < 0 || semi <= eq then None
    else
      BeforeIsPrefix(content, '=');
      assert content == content[..eq + 1] + content[eq + 1..semi] + content[semi..];
      Some(Alias(content[..eq + 1], content[eq + 1..semi], content[semi..]))
  }

  function LastIndex(s: string, c: char): (r: int)
    ensures -1 <= r < |s|
    ensures r >= 0 ==> s[r] == c
    ensures forall i :: r < i < |s| ==> s[i] != c
  {
    if s == [] then -1
    else if s[|s| - 1] == c then |s| - 1
    else LastIndex(s[..|s| - 1], c)
  }

  lemma LastIndexUnique(s: string, c: char, k: nat)
    requires k < |s| && s[k] == c && forall i :: k < i < |s| ==> s[i] != c
    ensures LastIndex(s, c) == k
  {
  }

  lemma SplitTypeAliasAt(content: string, eq: nat, semi: nat)
    requires eq < semi < |content| && content[eq] == '=' && content[semi] == ';'
    requires '=' !in content[..eq]
    requires forall i :: semi < i < |content| ==> content[i] != ';'
    ensures SplitTypeAlias(content)
         == Some(Alias(content[..eq + 1], content[eq + 1..semi], content[semi..]))
  {
    assert content == content[..eq] + ['='] + content[eq + 1..];
    BeforeCut(content[..eq], '=', content[eq + 1..]);
    LastIndexUnique(content, ';', semi);
  }

  /** Replacing the body leaves the declaration splitting at the same two places. */
  lemma SplitTypeAliasReplaced(content: string, body: string)
    requires SplitTypeAlias(content).Some?
    ensures var a := SplitTypeAlias(content).value;
            SplitTypeAlias(a.prefix + body + a.suffix) == Some(Alias(a.prefix, body, a.suffix))
  {
    var a := SplitTypeAlias(content).value;
    BeforeIsPrefix(content, '=');
    var eq, semi := |Before(content, '=')|, LastIndex(content, ';');
    assert a.prefix[..eq] == Before(content, '=');
    forall i | 0 < i < |a.suffix| ensures a.suffix[i] != ';' {
      assert a.suffix[i] == content[semi + i];
    }
    AliasRebuilt(a.prefix, body, a.suffix);
  }

  lemma AliasRebuilt(prefix: string, body: string, suffix: string)
    requires prefix != [] && prefix[|prefix| - 1] == '=' && '=' !in prefix[..|prefix| - 1]
    requires suffix != [] && suffix[0] == ';' && forall i :: 0 < i < |suffix| ==> suffix[i] != ';'
    ensures SplitTypeAlias(prefix + body + suffix) == Some(Alias(prefix, body, suffix))
  {
    var out, eq, k := prefix + body + suffix, |prefix| - 1, |prefix| + |body|;
    assert out[..eq] == prefix[..eq];
    assert forall i :: k < i < |out| ==> out[i] == suffix[i - k];
    SplitTypeAliasAt(out, eq, k);
    assert out[..eq + 1] == prefix && out[eq + 1..k] == body && out[k..] == suffix;
  }

  /** The declaration with its union arms filtered, before unused imports are dropped. */
  function FilterAlias(content: string, keep: string -> bool): string {
    match SplitTypeAlias(content)
    case None => content
    case Some(a) => a.prefix + FilterParts(a.body, {'|'}, " | ", keep) + a.suffix
  }

  /**
   * Filtering leaves prefix and suffix alone, and the declaration's arms are then exactly the kept
   * arms of the original if and only if no kept arm but the last ends in a `//` comment.
   */
  lemma FilterAliasExact(content: string, keep: string -> bool)
    requires SplitTypeAlias(content).Some?
    ensures SplitTypeAlias(FilterAlias(content, keep)).Some?
    ensures var a, b := SplitTypeAlias(content).value, SplitTypeAlias(FilterAlias(content, keep)).value;
            var kept := Keep(Split(a.body, {'|'}), keep);
            && b.prefix == a.prefix && b.suffix == a.suffix
            && (Split(b.body, {'|'}) == kept <==> Joinable(kept))
            && (Joinable(kept) ==> FilterAlias(FilterAlias(content, keep), keep) == FilterAlias(content, keep))
  {
    var a := SplitTypeAlias(content).value;
    BarIsPlain();
    SingleSeparator('|');
    assert " | " == [' ', '|', ' '];
    FilterPartsExact(a.body, {'|'}, " | ", keep);
    SplitTypeAliasReplaced(content, FilterParts(a.body, {'|'}, " | ", keep));
  }

  // ----- the code -----

  /** The scanner object: one `Observe` call per character. */
  class ScanState {
    var brace: nat
    var bracket: nat
    var paren: nat
    var angle: nat
    var stringDelim: Option<char>
    var escape: bool
    var blockComment: bool
    var lineComment: bool
    var previousChar: Option<char>

    ghost function View(): Scan
      reads this
    {
      Scan(brace, bracket, paren, angle, stringDelim, escape, blockComment, lineComment, previousChar)
    }

    constructor ()
      ensures View() == INITIAL
    {
      brace, bracket, paren, angle := 0, 0, 0, 0;
      stringDelim, escape, blockComment, lineComment, previousChar := None, false, false, false, None;
    }

    method Observe(ch: char)
      modifies this
      ensures View() == Step(old(View()), ch)
    {
      if lineComment {
        if ch == '\n' {
          lineComment := false;
        }
        previousChar := Some(ch);
        return;
      }
      if blockComment {
        if previousChar == Some('*') && ch == '/' {
          blockComment := false;
          previousChar := None;
        } else {
          previousChar := Some(ch);
        }
        return;
      }
      if stringDelim.Some? {
        if escape {
          escape := false;
          previousChar := Some(ch);
          return;
        }
        if ch == '\\' {
          escape := true;
          previousChar := Some(ch);
          return;
        }
        if ch == stringDelim.value {
          stringDelim := None;
        }
        previousChar := Some(ch);
        return;
      }
      if previousChar == Some('/') && ch == '/' {
        lineComment := true;
        previousChar := Some(ch);
        return;
      }
      if previousChar == Some('/') && ch == '*' {
        blockComment := true;
        previousChar := Some(ch);
        return;
      }
      match ch {
        case '"' => stringDelim := Some(ch);
        case '\'' => stringDelim := Some(ch);
        case '{' => brace := brace + 1;
        case '}' => brace := Down(brace);
        case '[' => bracket := bracket + 1;
        case ']' => bracket := Down(bracket);
        case '(' => paren := paren + 1;
        case ')' => paren := Down(paren);
        case '<' => angle := angle + 1;
        case '>' => if angle > 0 { angle := angle - 1; }
        case _ =>
      }
      previousChar := Some(ch);
    }

    method InIgnoredSyntax() returns (r: bool)
      ensures r <==> View().Ignored()
    {
      r := stringDelim.Some? || blockComment || lineComment;
    }

    method IsTopLevel() returns (r: bool)
      ensures r <==> View().TopLevel()
    {
      r := brace == 0 && bracket == 0 && paren == 0 && angle == 0;
    }
  }

  /** What has been emitted so far, followed by a split of the rest, is the whole split. */
  ghost predicate Progress(st: Scan, parts: seq<string>, cur: string, rest: string, delims: set<char>, goal: seq<string>) {
    parts + SplitFrom(st, cur, rest, delims) == goal
  }

  lemma ProgressCut(st: Scan, parts: seq<string>, cur: string, rest: string, delims: set<char>, goal: seq<string>)
    requires rest != [] && Cuts(st, rest[0], delims) && Progress(st, parts, cur, rest, delims, goal)
    ensures Progress(Step(st, rest[0]), parts + Piece(cur), [], rest[1..], delims, goal)
  {
    Regroup(parts, Piece(cur), SplitFrom(Step(st, rest[0]), [], rest[1..], delims));
  }

  lemma Regroup(a: seq<string>, b: seq<string>, c: seq<string>)
    ensures (a + b) + c == a + (b + c)
  {
  }

  lemma ProgressKeep(st: Scan, parts: seq<string>, cur: string, rest: string, delims: set<char>, goal: seq<string>)
    requires rest != [] && !Cuts(st, rest[0], delims) && Progress(st, parts, cur, rest, delims, goal)
    ensures Progress(Step(st, rest[0]), parts, cur + [rest[0]], rest[1..], delims, goal)
  {
  }

  /** The same, for the text up to `index` with the current part beginning at `start`. */
  ghost predicate ProgressAt(st: Scan, parts: seq<string>, input: string, start: nat, index: nat, delims: set<char>)
    requires start <= index <= |input|
  {
    Progress(st, parts, input[start..index], input[index..], delims, Split(input, delims))
  }

  lemma ProgressStart(input: string, delims: set<char>)
    ensures ProgressAt(INITIAL, [], input, 0, 0, delims)
  {
    assert input[0..0] == [] && input[0..] == input;
  }

  lemma ProgressStep(st: Scan, parts: seq<string>, input: string, start: nat, index: nat, delims: set<char>)
    requires start <= index < |input| && ProgressAt(st, parts, input, start, index, delims)
    ensures Cuts(st, input[index], delims) ==>
              ProgressAt(Step(st, input[index]), parts + Piece(input[start..index]), input, index + 1, index + 1, delims)
    ensures !Cuts(st, input[index], delims) ==>
              ProgressAt(Step(st, input[index]), parts, input, start, index + 1, delims)
  {
    var cur, rest, goal := input[start..index], input[index..], Split(input, delims);
    assert rest[0] == input[index] && rest[1..] == input[index + 1..];
    if Cuts(st, input[index], delims) {
      ProgressCut(st, parts, cur, rest, delims, goal);
      assert input[index + 1..index + 1] == [];
    } else {
      ProgressKeep(st, parts, cur, rest, delims, goal);
      assert cur + [rest[0]] == input[start..index + 1];
    }
  }

  lemma ProgressEnd(st: Scan, parts: seq<string>, input: string, start: nat, delims: set<char>)
    requires start <= |input| && ProgressAt(st, parts, input, start, |input|, delims)
    ensures parts + Piece(input[start..]) == Split(input, delims)
  {
    assert input[start..|input|] == input[start..] && input[|input|..] == [];
  }

  /** Keep a part unless it is blank. */
  method PushTrimmed(parts: seq<string>, text: string) returns (more: seq<string>)
    ensures more == parts + Piece(text)
  {
    var part := Trim(text);
    more := if part != [] then parts + [part] else parts;
  }

  /** One pass over the text, cutting it at top-level delimiters. */
  method SplitTopLevelMulti(input: string, delimiters: set<char>) returns (parts: seq<string>)
    ensures parts == Split(input, delimiters)
  {
    var state := new ScanState();
    var start := 0;
    parts := [];
    var index := 0;
    ProgressStart(input, delimiters);
    while index < |input|
      invariant 0 <= start <= index <= |input|
      invariant fresh(state)
      invariant ProgressAt(state.View(), parts, input, start, index, delimiters)
    {
      var ch := input[index];
      var ignored := state.InIgnoredSyntax();
      var top := state.IsTopLevel();
      ProgressStep(state.View(), parts, input, start, index, delimiters);
      if !ignored && top && ch in delimiters {
        parts := PushTrimmed(parts, input[start..index]);
        start := index + 1;
      }
      state.Observe(ch);
      index := index + 1;
    }
    ProgressEnd(state.View(), parts, input, start, delimiters);
    parts := PushTrimmed(parts, input[start..]);
  }
}
