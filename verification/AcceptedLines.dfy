/** Counting accepted lines in a unified diff: what is parsed is what the patches say. */
module AcceptedLines {
  import opened Text
  import opened Words

  /** What will be fingerprinted: a path and a normalized line. */
  datatype Mark = Mark(path: string, line: string)

  datatype Summary = Summary(added: nat, deleted: nat, marks: seq<Mark>)

  const NOTHING := Summary(0, 0, [])

  function Plus(a: Summary, b: Summary): Summary {
    Summary(a.added + b.added, a.deleted + b.deleted, a.marks + b.marks)
  }

  // ----- normalization -----

  const DEV_NULL := "/dev/null"

  /** `normalize_diff_path`. */
  function NormalizeDiffPath(path: string): Option<string> {
    var p := Trim(path);
    if p == DEV_NULL then None
    else if StripPrefix(p, "b/").Some? then StripPrefix(p, "b/")
    else if StripPrefix(p, "a/").Some? then StripPrefix(p, "a/")
    else Some(p)
  }

  /** The trimmed name: none for the null device, else without one leading `b/` or `a/`. */
  lemma DiffPathMeans(path: string, name: string, rest: string)
    requires name == Trim(path)
    ensures Trims(path, name)
    ensures name == "/dev/null" ==> NormalizeDiffPath(path) == None
    ensures name == "b/" + rest || name == "a/" + rest ==> NormalizeDiffPath(path) == Some(rest)
    ensures name != "/dev/null" && (forall r :: name != "b/" + r && name != "a/" + r) ==> NormalizeDiffPath(path) == Some(name)
  {
    TrimMeans(path);
    StripPrefixed("b/", rest);
    StripPrefixed("a/", rest);
  }

  function Utf8Length(s: string): nat {
    if s == [] then 0
    else
      (if s[0] < '\U{80}' then 1 else if s[0] < '\U{800}' then 2 else if s[0] < '\U{10000}' then 3 else 4) + Utf8Length(s[1..])
  }

  /** Bytes add up, and each code point takes as many as its size asks for. */
  lemma {:induction false} Utf8LengthMeans(s: string, c: char)
    ensures Utf8Length(s + [c])
         == Utf8Length(s) + var code := c as int; if code <= 0x7F then 1 else if code <= 0x7FF then 2 else if code <= 0xFFFF then 3 else 4
  {
    if s != [] {
      Utf8LengthMeans(s[1..], c);
      assert (s + [c])[1..] == s[1..] + [c];
    }
  }

  /** `normalize_effective_line`, with the Unicode alphanumeric class as a parameter. */
  function NormalizeEffectiveLine(alnum: char -> bool, line: string): Option<string> {
    var normalized := JoinWords(SplitWhitespace(line));
    if Utf8Length(normalized) <= 3 then None
    else if exists i :: 0 <= i < |normalized| && (alnum(normalized[i]) || normalized[i] == '_') then Some(normalized)
    else None
  }

  /** A line is dropped if its words, singly spaced, take at most three bytes or hold nothing but signs. */
  lemma EffectiveMeans(alnum: char -> bool, line: string)
    ensures var words := JoinWords(SplitWhitespace(line));
            && (Utf8Length(words) < 4 ==> NormalizeEffectiveLine(alnum, line) == None)
            && ((forall c :: c in words ==> !alnum(c) && c != '_') ==> NormalizeEffectiveLine(alnum, line) == None)
            && (Utf8Length(words) >= 4 && (exists c :: c in words && (alnum(c) || c == '_')) ==> NormalizeEffectiveLine(alnum, line) == Some(words))
  {
    var words := JoinWords(SplitWhitespace(line));
    assert forall i :: 0 <= i < |words| ==> words[i] in words;
  }

  /** A normalized line normalizes to itself, and two lines get the same one exactly when their words agree. */
  lemma NormalizedLineStable(alnum: char -> bool, line: string, other: string)
    ensures var n := NormalizeEffectiveLine(alnum, line); n.Some? ==> NormalizeEffectiveLine(alnum, n.value) == n
    ensures SplitWhitespace(line) == SplitWhitespace(other) ==>
      NormalizeEffectiveLine(alnum, line) == NormalizeEffectiveLine(alnum, other)
    ensures NormalizeEffectiveLine(alnum, line) == NormalizeEffectiveLine(alnum, other) && NormalizeEffectiveLine(alnum, line).Some? ==>
      SplitWhitespace(line) == SplitWhitespace(other)
  {
    SplitGivesWords(line);
    SplitGivesWords(other);
    SplitJoin(SplitWhitespace(line));
    SplitJoin(SplitWhitespace(other));
  }

  // ----- the parser -----

  const DIFF := "diff --git "
  const HUNK := "@@ "
  const NEW_FILE := "+++ "
  const OLD_FILE := "--- "

  datatype Mode = Mode(path: Option<string>, inHunk: bool)

  const OUTSIDE := Mode(None, false)

  predicate IsAdded(line: string) {
    line != [] && line[0] == '+'
  }

  predicate IsDeleted(line: string) {
    line != [] && line[0] == '-'
  }

  datatype LineKind = FileHeader | HunkHeader | NewName | OldName | Addition | Deletion | Ignored

  /** The branch the parser takes for a line. */
  function KindOf(inHunk: bool, line: string): LineKind {
    if StartsWith(line, DIFF) then FileHeader
    else if StartsWith(line, HUNK) then HunkHeader
    else if !inHunk && StartsWith(line, NEW_FILE) then NewName
    else if !inHunk && StartsWith(line, OLD_FILE) then OldName
    else if IsAdded(line) then Addition
    else if IsDeleted(line) then Deletion
    else Ignored
  }

  function NextMode(m: Mode, line: string): Mode {
    match KindOf(m.inHunk, line)
    case FileHeader => OUTSIDE
    case HunkHeader => m.(inHunk := true)
    case NewName => if StartsWith(line, NEW_FILE) then m.(path := NormalizeDiffPath(line[|NEW_FILE|..])) else m
    case _ => m
  }

  function MarksOf(alnum: char -> bool, path: Option<string>, text: string): seq<Mark> {
    var n := NormalizeEffectiveLine(alnum, text);
    if path.Some? && n.Some? then [Mark(path.value, n.value)] else []
  }

  function Delta(alnum: char -> bool, m: Mode, line: string): Summary {
    match KindOf(m.inHunk, line)
    case Addition => if line != [] then Summary(1, 0, MarksOf(alnum, m.path, line[1..])) else NOTHING
    case Deletion => Summary(0, 1, [])
    case _ => NOTHING
  }

  function DeltaWith(alnum: char -> bool): (Mode, string) -> Summary {
    (m: Mode, line: string) => Delta(alnum, m, line)
  }

  /** What a line-by-line machine collects from a mode on, and where it ends. */
  function Collect(next: (Mode, string) -> Mode, delta: (Mode, string) -> Summary, m: Mode, lines: seq<string>): Summary
    decreases lines
  {
    if lines == [] then NOTHING
    else Plus(delta(m, lines[0]), Collect(next, delta, next(m, lines[0]), lines[1..]))
  }

  function Reach(next: (Mode, string) -> Mode, m: Mode, lines: seq<string>): Mode
    decreases lines
  {
    if lines == [] then m else Reach(next, next(m, lines[0]), lines[1..])
  }

  function ParseFrom(alnum: char -> bool, m: Mode, lines: seq<string>): Summary {
    Collect(NextMode, DeltaWith(alnum), m, lines)
  }

  function ModeAfter(m: Mode, lines: seq<string>): Mode {
    Reach(NextMode, m, lines)
  }

  /** The specification of `accepted_line_fingerprints_from_unified_diff`. */
  function Parse(alnum: char -> bool, diff: string): Summary {
    ParseFrom(alnum, OUTSIDE, Lines(diff))
  }

  lemma PlusAssociative(a: Summary, b: Summary, c: Summary)
    ensures Plus(Plus(a, b), c) == Plus(a, Plus(b, c))
  {
  }

  lemma PlusNothing(a: Summary)
    ensures Plus(a, NOTHING) == a && Plus(NOTHING, a) == a
  {
  }

  /** One turn of the machine keeps what has been collected plus what is still to come. */
  lemma CollectStep(next: (Mode, string) -> Mode, delta: (Mode, string) -> Summary, m: Mode, before: Summary, lines: seq<string>, i: nat)
    requires i < |lines|
    ensures Plus(before, Collect(next, delta, m, lines[i..]))
         == Plus(Plus(before, delta(m, lines[i])), Collect(next, delta, next(m, lines[i]), lines[i + 1..]))
  {
    assert lines[i..][1..] == lines[i + 1..];
    PlusAssociative(before, delta(m, lines[i]), Collect(next, delta, next(m, lines[i]), lines[i + 1..]));
  }

  lemma ParseStep(alnum: char -> bool, m: Mode, before: Summary, lines: seq<string>, i: nat, m': Mode, after: Summary)
    requires i < |lines| && m' == NextMode(m, lines[i]) && after == Plus(before, Delta(alnum, m, lines[i]))
    ensures Plus(before, ParseFrom(alnum, m, lines[i..])) == Plus(after, ParseFrom(alnum, m', lines[i + 1..]))
  {
    CollectStep(NextMode, DeltaWith(alnum), m, before, lines, i);
  }

  lemma {:induction false} CollectConcat(next: (Mode, string) -> Mode, delta: (Mode, string) -> Summary, m: Mode, a: seq<string>, b: seq<string>)
    ensures Collect(next, delta, m, a + b) == Plus(Collect(next, delta, m, a), Collect(next, delta, Reach(next, m, a), b))
    decreases a
  {
    if a == [] {
      assert a + b == b;
      PlusNothing(Collect(next, delta, m, b));
    } else {
      var d, m' := delta(m, a[0]), next(m, a[0]);
      var x, y := Collect(next, delta, m', a[1..]), Collect(next, delta, Reach(next, m', a[1..]), b);
      calc {
        Collect(next, delta, m, a + b);
        { assert (a + b)[1..] == a[1..] + b; }
        Plus(d, Collect(next, delta, m', a[1..] + b));
        { CollectConcat(next, delta, m', a[1..], b); }
        Plus(d, Plus(x, y));
        { PlusAssociative(d, x, y); }
        Plus(Plus(d, x), y);
        Plus(Collect(next, delta, m, a), y);
      }
    }
  }

  method AcceptedLineFingerprints(alnum: char -> bool, diff: string) returns (summary: Summary)
    ensures summary == Parse(alnum, diff)
  {
    var currentPath: Option<string>, inHunk := None, false;
    var added, deleted := 0, 0;
    var marks: seq<Mark> := [];
    var lines := Lines(diff);
    var i := 0;
    assert lines[0..] == lines;
    PlusNothing(Parse(alnum, diff));
    while i < |lines|
      invariant 0 <= i <= |lines|
      invariant Plus(Summary(added, deleted, marks), ParseFrom(alnum, Mode(currentPath, inHunk), lines[i..])) == Parse(alnum, diff)
    {
      var line := lines[i];
      ghost var m, before := Mode(currentPath, inHunk), Summary(added, deleted, marks);
      if StartsWith(line, DIFF) {
        currentPath, inHunk := None, false;
      } else if StartsWith(line, HUNK) {
        inHunk := true;
      } else if !inHunk && StartsWith(line, NEW_FILE) {
        currentPath := NormalizeDiffPath(line[|NEW_FILE|..]);
      } else if !inHunk && StartsWith(line, OLD_FILE) {
      } else if IsAdded(line) {
        added := added + 1;
        marks := marks + MarksOf(alnum, currentPath, line[1..]);
      } else if IsDeleted(line) {
        deleted := deleted + 1;
      }
      LineDone(alnum, m, before, lines, i, Mode(currentPath, inHunk), Summary(added, deleted, marks));
      i := i + 1;
    }
    summary := Summary(added, deleted, marks);
    PlusNothing(summary);
  }

  /** What the loop body does to its variables, branch by branch. */
  predicate Handles(alnum: char -> bool, m: Mode, line: string, before: Summary, m': Mode, after: Summary) {
    match KindOf(m.inHunk, line)
    case FileHeader => m' == OUTSIDE && after == before
    case HunkHeader => m' == m.(inHunk := true) && after == before
    case NewName => StartsWith(line, NEW_FILE) && m' == m.(path := NormalizeDiffPath(line[|NEW_FILE|..])) && after == before
    case Addition =>
      line != [] && m' == m && after == before.(added := before.added + 1, marks := before.marks + MarksOf(alnum, m.path, line[1..]))
    case Deletion => m' == m && after == before.(deleted := before.deleted + 1)
    case _ => m' == m && after == before
  }

  /** The loop body's effect is one step of the parser. */
  lemma StepDone(alnum: char -> bool, m: Mode, line: string, before: Summary, m': Mode, after: Summary)
    requires Handles(alnum, m, line, before, m', after)
    ensures m' == NextMode(m, line) && after == Plus(before, Delta(alnum, m, line))
  {
    assert before.marks + [] == before.marks;
  }

  lemma LineDone(alnum: char -> bool, m: Mode, before: Summary, lines: seq<string>, i: nat, m': Mode, after: Summary)
    requires i < |lines| && Handles(alnum, m, lines[i], before, m', after)
    ensures Plus(before, ParseFrom(alnum, m, lines[i..])) == Plus(after, ParseFrom(alnum, m', lines[i + 1..]))
  {
    StepDone(alnum, m, lines[i], before, m', after);
    ParseStep(alnum, m, before, lines, i, m', after);
  }

  // ----- parsing distributes at file headers -----

  /** A file header makes the parser forget where it was. */
  lemma HeaderResets(alnum: char -> bool, m: Mode, lines: seq<string>)
    requires lines == [] || StartsWith(lines[0], DIFF)
    ensures ParseFrom(alnum, m, lines) == ParseFrom(alnum, OUTSIDE, lines)
  {
  }

  lemma LinesStartsWith(s: string)
    requires StartsWith(s, DIFF)
    ensures Lines(s) != [] && StartsWith(Lines(s)[0], DIFF)
  {
    var rest := s[|DIFF|..];
    assert s == DIFF + rest;
    BeforeSkips(DIFF, rest, NEWLINE);
    var tail := Before(rest, NEWLINE);
    HeaderKept(tail);
  }

  lemma HeaderKept(tail: string)
    ensures StartsWith(DIFF + tail, DIFF) && StartsWith(StripReturn(DIFF + tail), DIFF)
  {
    var line := DIFF + tail;
    assert line[..|DIFF|] == DIFF;
    if tail != [] {
      assert line[..|line| - 1] == DIFF + tail[..|tail| - 1];
      assert (DIFF + tail[..|tail| - 1])[..|DIFF|] == DIFF;
    } else {
      assert line == DIFF;
      assert DIFF[|DIFF| - 1] == ' ';
    }
  }

  lemma {:induction false} BeforeSkips(prefix: string, rest: string, c: char)
    requires c !in prefix
    ensures Before(prefix + rest, c) == prefix + Before(rest, c)
  {
    if prefix == [] {
      assert prefix + rest == rest;
    } else {
      assert (prefix + rest)[1..] == prefix[1..] + rest;
      BeforeSkips(prefix[1..], rest, c);
    }
  }

  /** Any text ending a line, followed by text starting with a file header, parses as the sum of the two. */
  lemma ParseDistributes(alnum: char -> bool, a: string, b: string)
    requires a == [] || a[|a| - 1] == NEWLINE
    requires b == [] || StartsWith(b, DIFF)
    ensures Parse(alnum, a + b) == Plus(Parse(alnum, a), Parse(alnum, b))
  {
    LinesConcat(a, b);
    CollectConcat(NextMode, DeltaWith(alnum), OUTSIDE, Lines(a), Lines(b));
    if b != [] {
      LinesStartsWith(b);
    }
    HeaderResets(alnum, ModeAfter(OUTSIDE, Lines(a)), Lines(b));
  }
}
