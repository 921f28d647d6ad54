/** Printing file patches as a unified diff, and reading the accepted lines back. */
module DiffPrint {
  import opened Text
  import opened Words
  import opened AcceptedLines

  datatype HunkLine = Context(text: string) | Added(text: string) | Removed(text: string) | NoNewline

  datatype Hunk = Hunk(ranges: string, lines: seq<HunkLine>)

  datatype Names = Names(before: string, after: string)

  /** `extended` are the lines git puts between the file header and the names. */
  datatype FilePatch = FilePatch(header: string, extended: seq<string>, names: Option<Names>, hunks: seq<Hunk>)

  // ----- printing -----

  function PrintLine(l: HunkLine): string {
    match l
    case Context(text) => " " + text
    case Added(text) => "+" + text
    case Removed(text) => "-" + text
    case NoNewline => "\\ No newline at end of file"
  }

  function PrintLines(lines: seq<HunkLine>): seq<string> {
    if lines == [] then [] else [PrintLine(lines[0])] + PrintLines(lines[1..])
  }

  function PrintHunks(hunks: seq<Hunk>): seq<string> {
    if hunks == [] then [] else [HUNK + hunks[0].ranges] + PrintLines(hunks[0].lines) + PrintHunks(hunks[1..])
  }

  function PrintNames(names: Option<Names>): seq<string> {
    match names case Some(n) => [OLD_FILE + n.before, NEW_FILE + n.after] case None => []
  }

  function PrintPatch(p: FilePatch): seq<string> {
    [DIFF + p.header] + (p.extended + (PrintNames(p.names) + PrintHunks(p.hunks)))
  }

  function PrintAll(patches: seq<FilePatch>): seq<string> {
    if patches == [] then [] else PrintPatch(patches[0]) + PrintAll(patches[1..])
  }

  /** Extended header lines are words such as `index` or `new file mode`. */
  ghost predicate Wellformed(p: FilePatch) {
    forall i :: 0 <= i < |p.extended| ==> KindOf(false, p.extended[i]) == Ignored
  }

  // ----- what the structure says -----

  /** An added line is marked if it is in a file and says something. */
  function Marked(path: Option<string>, line: Option<string>): seq<Mark> {
    match (path, line)
    case (Some(p), Some(l)) => [Mark(p, l)]
    case _ => []
  }

  function LineSummary(alnum: char -> bool, path: Option<string>, l: HunkLine): Summary {
    match l
    case Added(text) => Summary(1, 0, Marked(path, NormalizeEffectiveLine(alnum, text)))
    case Removed(_) => Summary(0, 1, [])
    case _ => NOTHING
  }

  function LinesSummary(alnum: char -> bool, path: Option<string>, lines: seq<HunkLine>): Summary {
    if lines == [] then NOTHING else Plus(LineSummary(alnum, path, lines[0]), LinesSummary(alnum, path, lines[1..]))
  }

  function HunksSummary(alnum: char -> bool, path: Option<string>, hunks: seq<Hunk>): Summary {
    if hunks == [] then NOTHING else Plus(LinesSummary(alnum, path, hunks[0].lines), HunksSummary(alnum, path, hunks[1..]))
  }

  function PathOf(names: Option<Names>): Option<string> {
    match names case Some(n) => NormalizeDiffPath(n.after) case None => None
  }

  function PatchSummary(alnum: char -> bool, p: FilePatch): Summary {
    HunksSummary(alnum, PathOf(p.names), p.hunks)
  }

  function PatchesSummary(alnum: char -> bool, patches: seq<FilePatch>): Summary {
    if patches == [] then NOTHING else Plus(PatchSummary(alnum, patches[0]), PatchesSummary(alnum, patches[1..]))
  }

  // ----- one printed line -----

  lemma PrefixFirst(line: string, prefix: string)
    requires prefix != [] && StartsWith(line, prefix)
    ensures line != [] && line[0] == prefix[0]
  {
    assert line[..|prefix|][0] == line[0];
  }

  lemma StartsWithConcat(prefix: string, rest: string)
    ensures StartsWith(prefix + rest, prefix) && (prefix + rest)[|prefix|..] == rest
  {
    assert (prefix + rest)[..|prefix|] == prefix;
  }

  /** A line is told apart from the headers by its first character. */
  lemma KindByFirst(inHunk: bool, line: string)
    requires line != [] && line[0] != 'd' && line[0] != '@'
    ensures line[0] == '+' && inHunk ==> KindOf(inHunk, line) == Addition
    ensures line[0] == '-' && inHunk ==> KindOf(inHunk, line) == Deletion
    ensures line[0] == '+' && StartsWith(line, NEW_FILE) && !inHunk ==> KindOf(inHunk, line) == NewName
    ensures line[0] == '-' && StartsWith(line, OLD_FILE) && !inHunk ==> KindOf(inHunk, line) == OldName
    ensures line[0] != '+' && line[0] != '-' ==> KindOf(inHunk, line) == Ignored
  {
    if StartsWith(line, DIFF) { PrefixFirst(line, DIFF); }
    if StartsWith(line, HUNK) { PrefixFirst(line, HUNK); }
    if StartsWith(line, NEW_FILE) { PrefixFirst(line, NEW_FILE); }
    if StartsWith(line, OLD_FILE) { PrefixFirst(line, OLD_FILE); }
  }

  /** Inside a hunk every printed line is read for what it is, even one that looks like a file name header. */
  lemma HunkLineRead(alnum: char -> bool, path: Option<string>, l: HunkLine)
    ensures Delta(alnum, Mode(path, true), PrintLine(l)) == LineSummary(alnum, path, l)
    ensures NextMode(Mode(path, true), PrintLine(l)) == Mode(path, true)
  {
    var line := PrintLine(l);
    KindByFirst(true, line);
    if l.Added? {
      assert line[1..] == l.text;
    }
  }

  lemma HunkHeaderRead(alnum: char -> bool, m: Mode, ranges: string)
    ensures Delta(alnum, m, HUNK + ranges) == NOTHING && NextMode(m, HUNK + ranges) == Mode(m.path, true)
  {
    StartsWithConcat(HUNK, ranges);
    if StartsWith(HUNK + ranges, DIFF) { PrefixFirst(HUNK + ranges, DIFF); }
  }

  lemma FileHeaderRead(alnum: char -> bool, m: Mode, header: string)
    ensures Delta(alnum, m, DIFF + header) == NOTHING && NextMode(m, DIFF + header) == OUTSIDE
  {
    StartsWithConcat(DIFF, header);
  }

  lemma NamesRead(alnum: char -> bool, path: Option<string>, n: Names)
    ensures Delta(alnum, Mode(path, false), OLD_FILE + n.before) == NOTHING
    ensures NextMode(Mode(path, false), OLD_FILE + n.before) == Mode(path, false)
    ensures Delta(alnum, Mode(path, false), NEW_FILE + n.after) == NOTHING
    ensures NextMode(Mode(path, false), NEW_FILE + n.after) == Mode(NormalizeDiffPath(n.after), false)
  {
    StartsWithConcat(OLD_FILE, n.before);
    StartsWithConcat(NEW_FILE, n.after);
    KindByFirst(false, OLD_FILE + n.before);
    KindByFirst(false, NEW_FILE + n.after);
  }

  // ----- runs of lines -----

  lemma ParseCons(alnum: char -> bool, m: Mode, line: string, rest: seq<string>)
    ensures ParseFrom(alnum, m, [line] + rest) == Plus(Delta(alnum, m, line), ParseFrom(alnum, NextMode(m, line), rest))
    ensures ModeAfter(m, [line] + rest) == ModeAfter(NextMode(m, line), rest)
  {
    assert ([line] + rest)[1..] == rest;
  }

  lemma ParseSilent(alnum: char -> bool, m: Mode, line: string, rest: seq<string>)
    requires Delta(alnum, m, line) == NOTHING
    ensures ParseFrom(alnum, m, [line] + rest) == ParseFrom(alnum, NextMode(m, line), rest)
  {
    ParseCons(alnum, m, line, rest);
    PlusNothing(ParseFrom(alnum, NextMode(m, line), rest));
  }

  lemma {:induction false} HunkLinesRead(alnum: char -> bool, path: Option<string>, lines: seq<HunkLine>)
    ensures ParseFrom(alnum, Mode(path, true), PrintLines(lines)) == LinesSummary(alnum, path, lines)
    ensures ModeAfter(Mode(path, true), PrintLines(lines)) == Mode(path, true)
  {
    if lines != [] {
      HunkLineRead(alnum, path, lines[0]);
      HunkLinesRead(alnum, path, lines[1..]);
      ParseCons(alnum, Mode(path, true), PrintLine(lines[0]), PrintLines(lines[1..]));
    }
  }

  lemma {:induction false} HunksRead(alnum: char -> bool, m: Mode, hunks: seq<Hunk>)
    ensures ParseFrom(alnum, m, PrintHunks(hunks)) == HunksSummary(alnum, m.path, hunks)
    decreases hunks
  {
    if hunks != [] {
      var inside := Mode(m.path, true);
      var body, rest := PrintLines(hunks[0].lines), PrintHunks(hunks[1..]);
      assert PrintHunks(hunks) == [HUNK + hunks[0].ranges] + (body + rest);
      HunkHeaderRead(alnum, m, hunks[0].ranges);
      ParseSilent(alnum, m, HUNK + hunks[0].ranges, body + rest);
      CollectConcat(NextMode, DeltaWith(alnum), inside, body, rest);
      HunkLinesRead(alnum, m.path, hunks[0].lines);
      HunksRead(alnum, inside, hunks[1..]);
    }
  }

  lemma NamesThenHunksRead(alnum: char -> bool, names: Option<Names>, hunks: seq<Hunk>)
    ensures ParseFrom(alnum, OUTSIDE, PrintNames(names) + PrintHunks(hunks)) == HunksSummary(alnum, PathOf(names), hunks)
  {
    var rest := PrintHunks(hunks);
    match names {
      case None =>
        assert PrintNames(names) + rest == rest;
        HunksRead(alnum, OUTSIDE, hunks);
      case Some(n) =>
        assert PrintNames(names) + rest == [OLD_FILE + n.before] + ([NEW_FILE + n.after] + rest);
        NamesRead(alnum, None, n);
        ParseSilent(alnum, OUTSIDE, OLD_FILE + n.before, [NEW_FILE + n.after] + rest);
        ParseSilent(alnum, OUTSIDE, NEW_FILE + n.after, rest);
        HunksRead(alnum, Mode(NormalizeDiffPath(n.after), false), hunks);
    }
  }

  lemma {:induction false} ExtendedRead(alnum: char -> bool, extended: seq<string>, rest: seq<string>)
    requires forall i :: 0 <= i < |extended| ==> KindOf(false, extended[i]) == Ignored
    ensures ParseFrom(alnum, OUTSIDE, extended + rest) == ParseFrom(alnum, OUTSIDE, rest)
    decreases extended
  {
    if extended == [] {
      assert extended + rest == rest;
    } else {
      assert extended + rest == [extended[0]] + (extended[1..] + rest);
      ParseSilent(alnum, OUTSIDE, extended[0], extended[1..] + rest);
      ExtendedRead(alnum, extended[1..], rest);
    }
  }

  lemma PatchRead(alnum: char -> bool, m: Mode, p: FilePatch)
    requires Wellformed(p)
    ensures ParseFrom(alnum, m, PrintPatch(p)) == PatchSummary(alnum, p)
  {
    var tail := PrintNames(p.names) + PrintHunks(p.hunks);
    FileHeaderRead(alnum, m, p.header);
    ParseSilent(alnum, m, DIFF + p.header, p.extended + tail);
    ExtendedRead(alnum, p.extended, tail);
    NamesThenHunksRead(alnum, p.names, p.hunks);
  }

  lemma {:induction false} PatchesRead(alnum: char -> bool, m: Mode, patches: seq<FilePatch>)
    requires forall i :: 0 <= i < |patches| ==> Wellformed(patches[i])
    ensures ParseFrom(alnum, m, PrintAll(patches)) == PatchesSummary(alnum, patches)
    decreases patches
  {
    if patches != [] {
      var head, rest := PrintPatch(patches[0]), PrintAll(patches[1..]);
      PatchRead(alnum, m, patches[0]);
      CollectConcat(NextMode, DeltaWith(alnum), m, head, rest);
      PatchesRead(alnum, ModeAfter(m, head), patches[1..]);
    }
  }

  // ----- from lines to text -----

  lemma WholeLineIsPrefix(line: string, prefix: string)
    requires StartsWith(line + [RETURN], prefix) && |prefix| > |line|
    ensures RETURN in prefix
  {
    assert prefix[|line|] == (line + [RETURN])[|line|];
  }

  lemma StartsWithReturn(line: string, prefix: string)
    requires RETURN !in prefix
    ensures StartsWith(line + [RETURN], prefix) <==> StartsWith(line, prefix)
  {
    if StartsWith(line + [RETURN], prefix) && |prefix| > |line| {
      WholeLineIsPrefix(line, prefix);
    }
    assert |prefix| <= |line| ==> (line + [RETURN])[..|prefix|] == line[..|prefix|];
  }

  lemma KindReturn(inHunk: bool, line: string)
    ensures KindOf(inHunk, line + [RETURN]) == KindOf(inHunk, line)
  {
    StartsWithReturn(line, DIFF);
    StartsWithReturn(line, HUNK);
    StartsWithReturn(line, NEW_FILE);
    StartsWithReturn(line, OLD_FILE);
    if line != [] {
      assert (line + [RETURN])[0] == line[0];
    }
  }

  lemma PathReturn(path: string)
    ensures NormalizeDiffPath(path + [RETURN]) == NormalizeDiffPath(path)
  {
    TrimIgnoresTrailing(path, RETURN);
  }

  lemma MarksReturn(alnum: char -> bool, path: Option<string>, text: string)
    ensures MarksOf(alnum, path, text + [RETURN]) == MarksOf(alnum, path, text)
  {
    SplitIgnoresTrailing(text, RETURN);
  }

  lemma ModeReturn(m: Mode, line: string)
    ensures NextMode(m, line + [RETURN]) == NextMode(m, line)
  {
    KindReturn(m.inHunk, line);
    if StartsWith(line, NEW_FILE) {
      StartsWithReturn(line, NEW_FILE);
      assert (line + [RETURN])[|NEW_FILE|..] == line[|NEW_FILE|..] + [RETURN];
      PathReturn(line[|NEW_FILE|..]);
    }
  }

  lemma DeltaReturn(alnum: char -> bool, m: Mode, line: string)
    ensures Delta(alnum, m, line + [RETURN]) == Delta(alnum, m, line)
  {
    KindReturn(m.inHunk, line);
    if line != [] {
      assert (line + [RETURN])[1..] == line[1..] + [RETURN];
      MarksReturn(alnum, m.path, line[1..]);
    }
  }

  /** A carriage return at the end of a line makes no difference to the parser. */
  lemma ReturnIgnored(alnum: char -> bool, m: Mode, line: string)
    ensures NextMode(m, line + [RETURN]) == NextMode(m, line)
    ensures Delta(alnum, m, line + [RETURN]) == Delta(alnum, m, line)
  {
    ModeReturn(m, line);
    DeltaReturn(alnum, m, line);
  }

  lemma {:induction false} ReturnsIgnored(alnum: char -> bool, m: Mode, lines: seq<string>)
    ensures ParseFrom(alnum, m, StripReturns(lines)) == ParseFrom(alnum, m, lines)
    decreases lines
  {
    if lines != [] {
      var line, rest := lines[0], StripReturns(lines[1..]);
      assert StripReturns(lines) == [StripReturn(line)] + rest;
      assert lines == [line] + lines[1..];
      ParseCons(alnum, m, StripReturn(line), rest);
      ParseCons(alnum, m, line, lines[1..]);
      ReturnsIgnored(alnum, NextMode(m, line), lines[1..]);
      if StripReturn(line) != line {
        assert line == StripReturn(line) + [RETURN];
        ReturnIgnored(alnum, m, StripReturn(line));
      }
    }
  }

  /** Print, then parse: counts and fingerprinted pairs are those of the patches. */
  lemma PrintThenParse(alnum: char -> bool, patches: seq<FilePatch>)
    requires forall i :: 0 <= i < |patches| ==> Wellformed(patches[i])
    requires OneLiners(PrintAll(patches))
    ensures Parse(alnum, Unlines(PrintAll(patches))) == PatchesSummary(alnum, patches)
  {
    LinesUnlines(PrintAll(patches));
    ReturnsIgnored(alnum, OUTSIDE, PrintAll(patches));
    PatchesRead(alnum, OUTSIDE, patches);
  }
}
