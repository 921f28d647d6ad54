/** Filtering the fields of a generated TypeScript object type inside its braces. */
module FieldFilter {
  import opened Text
  import opened Scanner
  import opened TsFilters

  const FIELD_DELIMITERS: set<char> := {',', ';'}
  const FIELD_SEPARATOR := ", "

  datatype Span = Span(open: nat, close: nat)

  // ----- the first top-level pair of braces -----

  predicate Opens(st: Scan, ch: char) {
    !st.Ignored() && st.TopLevel() && ch == '{'
  }

  /** The brace just read leaves the scanner at top level. */
  predicate Ends(st: Scan, ch: char) {
    var next := Step(st, ch);
    !next.Ignored() && next.TopLevel() && ch == '}'
  }

  /** `open` is the last top-level opening brace so far, `index` the position of `s[0]`. */
  function FindFrom(st: Scan, s: string, index: nat, open: Option<nat>): (r: Option<Span>)
    ensures r.Some? ==> index <= r.value.close < index + |s|
    ensures r.Some? && (open.Some? ==> open.value < index) ==> r.value.open < r.value.close
    decreases s
  {
    if s == [] then None
    else
      var opened' := if Opens(st, s[0]) then Some(index) else open;
      if Ends(st, s[0]) && opened'.Some? then Some(Span(opened'.value, index))
      else FindFrom(Step(st, s[0]), s[1..], index + 1, opened')
  }

  /** `find_top_level_brace_span`. */
  function FindSpan(s: string): (r: Option<Span>)
    ensures r.Some? ==> r.value.open < r.value.close < |s|
  {
    FindFrom(INITIAL, s, 0, None)
  }

  /** The last top-level opening brace of `s`, or `open` if there is none. */
  function LastOpen(st: Scan, s: string, index: nat, open: Option<nat>): Option<nat>
    decreases s
  {
    if s == [] then open
    else LastOpen(Step(st, s[0]), s[1..], index + 1, if Opens(st, s[0]) then Some(index) else open)
  }

  /** Nothing in `s` ends the search. */
  predicate Unended(st: Scan, s: string, open: Option<nat>)
    decreases s
  {
    s == [] ||
    var opened' := if Opens(st, s[0]) then Some(0) else open;
    !(Ends(st, s[0]) && opened'.Some?) && Unended(Step(st, s[0]), s[1..], opened')
  }

  lemma {:induction false} UnendedAnyOpen(st: Scan, s: string, a: Option<nat>, b: Option<nat>)
    requires a.Some? <==> b.Some?
    ensures Unended(st, s, a) <==> Unended(st, s, b)
    decreases s
  {
    if s != [] {
      UnendedAnyOpen(Step(st, s[0]), s[1..], if Opens(st, s[0]) then Some(0) else a, if Opens(st, s[0]) then Some(0) else b);
    }
  }

  lemma {:induction false} FindSkips(st: Scan, s: string, t: string, index: nat, open: Option<nat>)
    requires Unended(st, s, open)
    ensures FindFrom(st, s + t, index, open) == FindFrom(Run(st, s), t, index + |s|, LastOpen(st, s, index, open))
    decreases s
  {
    if s == [] {
      assert s + t == t;
    } else {
      assert (s + t)[1..] == s[1..] + t;
      var now := if Opens(st, s[0]) then Some(index) else open;
      UnendedAnyOpen(Step(st, s[0]), s[1..], if Opens(st, s[0]) then Some(0) else open, now);
      FindSkips(Step(st, s[0]), s[1..], t, index + 1, now);
    }
  }

  /** What a found span means: an unended search up to the brace that closes what `open` last opened. */
  lemma {:induction false} FoundMeans(st: Scan, s: string, index: nat, open: Option<nat>)
    requires FindFrom(st, s, index, open).Some?
    ensures var c := FindFrom(st, s, index, open).value.close - index;
            && Unended(st, s[..c], open) && Ends(Run(st, s[..c]), s[c])
            && LastOpen(st, s[..c], index, open) == Some(FindFrom(st, s, index, open).value.open)
    decreases s
  {
    var now := if Opens(st, s[0]) then Some(index) else open;
    var c := FindFrom(st, s, index, open).value.close - index;
    if !(Ends(st, s[0]) && now.Some?) {
      FoundMeans(Step(st, s[0]), s[1..], index + 1, now);
      assert s[..c][1..] == s[1..][..c - 1];
      UnendedAnyOpen(Step(st, s[0]), s[..c][1..], if Opens(st, s[0]) then Some(0) else open, now);
    }
  }

  lemma {:induction false} UnendedConcat(st: Scan, s: string, t: string, open: Option<nat>)
    ensures Unended(st, s + t, open) <==> Unended(st, s, open) && Unended(Run(st, s), t, LastOpen(st, s, 0, open))
    decreases s
  {
    if s == [] {
      assert s + t == t;
    } else {
      assert (s + t)[1..] == s[1..] + t;
      var now := if Opens(st, s[0]) then Some(0) else open;
      UnendedConcat(Step(st, s[0]), s[1..], t, now);
      LastOpenIndex(Step(st, s[0]), s[1..], 0, 1, now, now);
      UnendedAnyOpen(Run(st, s), t, LastOpen(Step(st, s[0]), s[1..], 0, now), LastOpen(st, s, 0, open));
    }
  }

  lemma {:induction false} LastOpenIndex(st: Scan, s: string, i: nat, j: nat, a: Option<nat>, b: Option<nat>)
    requires a.Some? <==> b.Some?
    ensures LastOpen(st, s, i, a).Some? <==> LastOpen(st, s, j, b).Some?
    decreases s
  {
    if s != [] {
      LastOpenIndex(Step(st, s[0]), s[1..], i + 1, j + 1, if Opens(st, s[0]) then Some(i) else a, if Opens(st, s[0]) then Some(j) else b);
    }
  }

  /** The last opening brace sits where it was found, with the scanner at top level in front of it. */
  lemma {:induction false} LastOpenMeans(st: Scan, s: string, index: nat, open: Option<nat>)
    requires LastOpen(st, s, index, open) != open
    ensures var o := LastOpen(st, s, index, open);
            && o.Some? && index <= o.value < index + |s|
            && Opens(Run(st, s[..o.value - index]), s[o.value - index])
    decreases s
  {
    var now := if Opens(st, s[0]) then Some(index) else open;
    if LastOpen(Step(st, s[0]), s[1..], index + 1, now) != now {
      LastOpenMeans(Step(st, s[0]), s[1..], index + 1, now);
      var o := LastOpen(st, s, index, open).value - index;
      assert s[..o][1..] == s[1..][..o - 1];
    }
  }

  // ----- scanning one brace deeper -----

  /** A closing brace outside strings and comments without its opening one. */
  predicate Unmatched(st: Scan, ch: char) {
    ch == '}' && !st.Ignored() && st.brace == 0
  }

  predicate BracesMatch(st: Scan, s: string)
    decreases s
  {
    s == [] || (!Unmatched(st, s[0]) && BracesMatch(Step(st, s[0]), s[1..]))
  }

  function Deeper(st: Scan): Scan {
    st.(brace := st.brace + 1)
  }

  /** The scan of a text inside outer braces, as long as no unmatched brace has closed them. */
  function Outer(deep: bool, st: Scan): Scan {
    if deep then Deeper(st) else st
  }

  lemma DeeperBracket(st: Scan, ch: char)
    ensures Bracket(Deeper(st), ch) == Outer(!(ch == '}' && st.brace == 0), Bracket(st, ch))
  {
    if ch == '{' || ch == '}' {
      assert Bracket(st, ch) == st.(brace := Bracket(st, ch).brace);
    } else {
      assert Bracket(st, ch).brace == st.brace;
    }
  }

  lemma OuterStep(deep: bool, st: Scan, ch: char)
    ensures Step(Outer(deep, st), ch) == Outer(deep && !Unmatched(st, ch), Step(st, ch))
  {
    if deep && !st.Ignored() {
      DeeperBracket(st, ch);
    }
  }

  lemma {:induction false} OuterRun(deep: bool, st: Scan, s: string)
    ensures Run(Outer(deep, st), s) == Outer(deep && BracesMatch(st, s), Run(st, s))
    decreases s
  {
    if s != [] {
      OuterStep(deep, st, s[0]);
      OuterRun(deep && !Unmatched(st, s[0]), Step(st, s[0]), s[1..]);
    }
  }

  lemma {:induction false} BracesMatchConcat(st: Scan, s: string, t: string)
    ensures BracesMatch(st, s + t) <==> BracesMatch(st, s) && BracesMatch(Run(st, s), t)
    decreases s
  {
    if s == [] {
      assert s + t == t;
    } else {
      assert (s + t)[1..] == s[1..] + t;
      BracesMatchConcat(Step(st, s[0]), s[1..], t);
    }
  }

  lemma NeutralBracesMatch(st: Scan, s: string)
    requires st.Neutral()
    ensures BracesMatch(st, s) <==> BracesMatch(INITIAL, s)
  {
    if s != [] {
      NeutralObserve(st, s[0]);
    }
  }

  // ----- text the search passes over -----

  /** Nothing in `s` is a top-level brace. */
  predicate Quiet(st: Scan, s: string)
    decreases s
  {
    s == [] || (!Opens(st, s[0]) && !Ends(st, s[0]) && Quiet(Step(st, s[0]), s[1..]))
  }

  lemma {:induction false} QuietConcat(st: Scan, s: string, t: string)
    ensures Quiet(st, s + t) <==> Quiet(st, s) && Quiet(Run(st, s), t)
    decreases s
  {
    if s == [] {
      assert s + t == t;
    } else {
      assert (s + t)[1..] == s[1..] + t;
      QuietConcat(Step(st, s[0]), s[1..], t);
    }
  }

  lemma {:induction false} QuietUnended(st: Scan, s: string, index: nat, open: Option<nat>)
    requires Quiet(st, s)
    ensures Unended(st, s, open) && LastOpen(st, s, index, open) == open
    decreases s
  {
    if s != [] {
      QuietUnended(Step(st, s[0]), s[1..], index + 1, open);
    }
  }

  lemma {:induction false} UnendedQuiet(st: Scan, s: string, index: nat, o: nat)
    requires Unended(st, s, Some(0)) && o < index && LastOpen(st, s, index, Some(o)) == Some(o)
    ensures Quiet(st, s)
    decreases s
  {
    if s != [] {
      if Opens(st, s[0]) {
        LastOpenAfter(Step(st, s[0]), s[1..], index + 1, index);
        assert false;
      }
      UnendedQuiet(Step(st, s[0]), s[1..], index + 1, o);
    }
  }

  lemma {:induction false} LastOpenAfter(st: Scan, s: string, index: nat, o: nat)
    requires o < index
    ensures LastOpen(st, s, index, Some(o)).Some? && LastOpen(st, s, index, Some(o)).value >= o
    decreases s
  {
    if s != [] {
      LastOpenAfter(Step(st, s[0]), s[1..], index + 1, if Opens(st, s[0]) then index else o);
    }
  }

  /** One brace deeper there are fewer braces at top level. */
  lemma {:induction false} QuietDeeper(st: Scan, s: string)
    requires Quiet(st, s)
    ensures Quiet(Deeper(st), s)
    decreases s
  {
    if s != [] {
      OuterStep(true, st, s[0]);
      if !Unmatched(st, s[0]) {
        QuietDeeper(Step(st, s[0]), s[1..]);
      }
    }
  }

  lemma NeutralOuter(deep: bool, st: Scan, s: string)
    requires st.Neutral()
    ensures Quiet(Outer(deep, st), s) <==> Quiet(Outer(deep, INITIAL), s)
  {
    if s != [] {
      NeutralObserve(st, s[0]);
      OuterStep(deep, st, s[0]);
      OuterStep(deep, INITIAL, s[0]);
    }
  }

  lemma {:induction false} BracelessQuiet(st: Scan, s: string)
    requires '{' !in s && '}' !in s
    ensures Quiet(st, s) && BracesMatch(st, s)
    decreases s
  {
    if s != [] {
      assert s[0] in s;
      BracelessQuiet(Step(st, s[0]), s[1..]);
    }
  }

  // ----- between the outer braces -----

  /** A scan that has just entered the outer braces. */
  predicate JustInside(st: Scan) {
    st.brace == 1 && st.(brace := 0).Neutral()
  }

  lemma OpensInside(st: Scan)
    requires Opens(st, '{') && st.WellFormed()
    ensures JustInside(Run(st, ['{']))
  {
    assert ['{'][1..] == [];
    assert Run(st, ['{']) == Step(st, '{');
  }

  lemma {:induction false} LastOpenSnoc(st: Scan, s: string, ch: char, index: nat, open: Option<nat>)
    requires Opens(Run(st, s), ch)
    ensures LastOpen(st, s + [ch], index, open) == Some(index + |s|)
    decreases s
  {
    if s == [] {
      assert s + [ch] == [ch] && [ch][1..] == [];
    } else {
      assert (s + [ch])[1..] == s[1..] + [ch];
      LastOpenSnoc(Step(st, s[0]), s[1..], ch, index + 1, if Opens(st, s[0]) then Some(index) else open);
    }
  }

  lemma {:induction false} LastOpenConcat(st: Scan, s: string, t: string, index: nat, open: Option<nat>)
    ensures LastOpen(st, s + t, index, open) == LastOpen(Run(st, s), t, index + |s|, LastOpen(st, s, index, open))
    decreases s
  {
    if s == [] {
      assert s + t == t;
    } else {
      assert (s + t)[1..] == s[1..] + t;
      LastOpenConcat(Step(st, s[0]), s[1..], t, index + 1, if Opens(st, s[0]) then Some(index) else open);
    }
  }

  /** `pre` ends with the opening brace of the search, at `o`, and `post` starts with a closing one. */
  predicate Framed(start: Scan, pre: string, post: string, o: nat) {
    && Unended(start, pre, None) && LastOpen(start, pre, 0, None) == Some(o) && |pre| == o + 1
    && JustInside(Run(start, pre)) && post != [] && post[0] == '}'
  }

  /** What a found span says about the text in front of, between and after its braces. */
  lemma FoundFramed(s: string, o: nat, c: nat)
    requires FindSpan(s) == Some(Span(o, c))
    ensures Framed(INITIAL, s[..o + 1], s[c..], o)
    ensures Quiet(Run(INITIAL, s[..o + 1]), s[o + 1..c])
    ensures Ends(Run(Run(INITIAL, s[..o + 1]), s[o + 1..c]), '}')
  {
    var pre, inner := s[..o + 1], s[o + 1..c];
    FoundMeans(INITIAL, s, 0, None);
    LastOpenMeans(INITIAL, s[..c], 0, None);
    assert s[..c][..o] == s[..o] && s[..c][o] == s[o];
    assert s[..c] == pre + inner && pre == s[..o] + [s[o]];
    UnendedConcat(INITIAL, pre, inner, None);
    RunConcat(INITIAL, s[..o], [s[o]]);
    RunConcat(INITIAL, pre, inner);
    RunWellFormed(INITIAL, s[..o]);
    OpensInside(Run(INITIAL, s[..o]));
    LastOpenSnoc(INITIAL, s[..o], s[o], 0, None);
    LastOpenConcat(INITIAL, pre, inner, 0, None);
    UnendedAnyOpen(Run(INITIAL, pre), inner, LastOpen(INITIAL, pre, 0, None), Some(0));
    UnendedQuiet(Run(INITIAL, pre), inner, o + 1, o);
  }

  /** Quiet text can stand between the braces exactly when the closing one then ends the search. */
  lemma FindAround(start: Scan, pre: string, x: string, post: string, o: nat)
    requires Framed(start, pre, post, o) && Quiet(Run(start, pre), x)
    ensures FindFrom(start, pre + (x + post), 0, None) == Some(Span(o, o + 1 + |x|)) <==> Ends(Run(Run(start, pre), x), '}')
  {
    FindSkips(start, pre, x + post, 0, None);
    QuietUnended(Run(start, pre), x, o + 1, Some(o));
    FindSkips(Run(start, pre), x, post, o + 1, Some(o));
  }

  /** Out of strings, block comments and brackets, but for at most `b` braces. */
  predicate Nearly(st: Scan, b: nat) {
    st.brace <= b && st.bracket == 0 && st.paren == 0 && st.angle == 0 && st.stringDelim.None? && !st.blockComment
  }

  lemma EndsMeans(deep: bool, st: Scan)
    requires st.WellFormed()
    ensures Ends(Outer(deep, st), '}') ==> Nearly(st, if deep then 0 else 1) && !st.lineComment
    ensures Nearly(st, 1) ==> (Ends(Outer(deep, st), '}') <==> !st.lineComment && (st.brace == 0 || !deep))
  {
  }

  // ----- the parts of the inner text -----

  lemma {:induction false} NearlyBefore(st: Scan, ws: string, b: nat)
    requires st.WellFormed() && AllWhitespace(ws) && Nearly(Run(st, ws), b)
    ensures Nearly(st, b)
    decreases ws
  {
    if ws != [] {
      NearlyBefore(Step(st, ws[0]), ws[1..], b);
    }
  }

  lemma PieceNearly(start: Scan, cur: string, b: nat)
    requires start.Neutral() && Nearly(Run(start, cur), b)
    ensures forall p :: p in Piece(cur) ==> Nearly(Run(INITIAL, p), b)
  {
    forall p | p in Piece(cur) ensures Nearly(Run(INITIAL, p), b) {
      var a, w := TrimParts(cur);
      RunConcat(start, a + p, w);
      RunConcat(start, a, p);
      RunWhitespace(start, a);
      NeutralRun(Run(start, a), p);
      RunWellFormed(INITIAL, p);
      NearlyBefore(Run(INITIAL, p), w, b);
    }
  }

  lemma {:induction false} PartsNearly(start: Scan, cur: string, s: string, delims: set<char>, b: nat)
    requires PlainDelimiters(delims) && start.Neutral() && Nearly(Run(Run(start, cur), s), b)
    ensures forall p :: p in SplitFrom(Run(start, cur), cur, s, delims) ==> Nearly(Run(INITIAL, p), b)
    decreases s
  {
    var st := Run(start, cur);
    if s == [] {
      PieceNearly(start, cur, b);
    } else if Cuts(st, s[0], delims) {
      PieceNearly(start, cur, b);
      RunWellFormed(start, cur);
      ClosedDelimiter(st, s[0], delims);
      PartsNearly(Step(st, s[0]), [], s[1..], delims, b);
    } else {
      RunConcat(start, cur, [s[0]]);
      assert [s[0]][1..] == [];
      PartsNearly(start, cur + [s[0]], s[1..], delims, b);
    }
  }

  /** Part by part the search passes over the text, `deep` as long as the parts match their braces. */
  predicate AllQuiet(deep: bool, parts: seq<string>)
    decreases parts
  {
    parts == [] || (Quiet(Outer(deep, INITIAL), parts[0]) && AllQuiet(deep && BracesMatch(INITIAL, parts[0]), parts[1..]))
  }

  lemma {:induction false} AllQuietDeeper(parts: seq<string>)
    requires AllQuiet(false, parts)
    ensures AllQuiet(true, parts)
    decreases parts
  {
    if parts != [] {
      QuietDeeper(INITIAL, parts[0]);
      AllQuietDeeper(parts[1..]);
    }
  }

  lemma WhitespaceBraceless(ws: string)
    requires AllWhitespace(ws)
    ensures '{' !in ws && '}' !in ws
  {
  }

  lemma CoreQuiet(deep: bool, start: Scan, a: string, p: string, b: string)
    requires start.Neutral() && AllWhitespace(a) && AllWhitespace(b) && Quiet(Outer(deep, start), a + p + b)
    ensures Quiet(Outer(deep, INITIAL), p)
    ensures BracesMatch(start, a + p + b) <==> BracesMatch(INITIAL, p)
  {
    WhitespaceBraceless(a);
    WhitespaceBraceless(b);
    BracelessQuiet(start, a);
    BracelessQuiet(Run(start, a + p), b);
    QuietConcat(Outer(deep, start), a + p, b);
    QuietConcat(Outer(deep, start), a, p);
    OuterRun(deep, start, a);
    RunWhitespace(start, a);
    NeutralOuter(deep, Run(start, a), p);
    BracesMatchConcat(start, a + p, b);
    BracesMatchConcat(start, a, p);
    NeutralBracesMatch(Run(start, a), p);
  }

  /** A piece cut off in front of quiet parts. */
  lemma PieceQuiet(deep: bool, start: Scan, cur: string, rest: seq<string>)
    requires start.Neutral() && Quiet(Outer(deep, start), cur)
    requires AllQuiet(deep && BracesMatch(start, cur), rest)
    ensures AllQuiet(deep, Piece(cur) + rest)
  {
    var a, b := TrimParts(cur);
    var p := Trim(cur);
    CoreQuiet(deep, start, a, p, b);
    if p == [] {
      assert Piece(cur) + rest == rest;
    } else {
      assert (Piece(cur) + rest)[1..] == rest;
    }
  }

  lemma {:induction false} PartsQuiet(deep: bool, start: Scan, cur: string, s: string, delims: set<char>)
    requires PlainDelimiters(delims) && start.Neutral() && Quiet(Outer(deep, start), cur + s)
    ensures AllQuiet(deep, SplitFrom(Run(start, cur), cur, s, delims))
    decreases s
  {
    var st := Run(start, cur);
    if s == [] {
      assert cur + s == cur && Piece(cur) + [] == Piece(cur);
      PieceQuiet(deep, start, cur, []);
    } else if Cuts(st, s[0], delims) {
      RunWellFormed(start, cur);
      ClosedDelimiter(st, s[0], delims);
      QuietConcat(Outer(deep, start), cur, s);
      OuterRun(deep, start, cur);
      var now := deep && BracesMatch(start, cur);
      OuterStep(now, st, s[0]);
      assert [] + s[1..] == s[1..] && s[0] != '}';
      PartsQuiet(now, Step(st, s[0]), [], s[1..], delims);
      PieceQuiet(deep, start, cur, SplitFrom(Step(st, s[0]), [], s[1..], delims));
    } else {
      RunConcat(start, cur, [s[0]]);
      assert [s[0]][1..] == [] && cur + [s[0]] + s[1..] == cur + s;
      PartsQuiet(deep, start, cur + [s[0]], s[1..], delims);
    }
  }

  // ----- the kept parts -----

  lemma {:induction false} KeepCons(p: string, rest: seq<string>, keep: string -> bool)
    ensures Keep([p] + rest, keep) == (if keep(p) then [p] else []) + Keep(rest, keep)
    decreases rest
  {
    if rest == [] {
      assert [p] + rest == [] + [p];
      KeepSnoc([], p, keep);
    } else {
      var n := |rest| - 1;
      assert [p] + rest == ([p] + rest[..n]) + [rest[n]];
      KeepSnoc([p] + rest[..n], rest[n], keep);
      KeepCons(p, rest[..n], keep);
    }
  }

  /** Leaving parts out makes the search no less quiet. */
  lemma {:induction false} KeptQuiet(deep: bool, parts: seq<string>, keep: string -> bool)
    requires AllQuiet(deep, parts)
    ensures AllQuiet(deep, Keep(parts, keep))
    decreases parts
  {
    if parts != [] {
      var now, rest := deep && BracesMatch(INITIAL, parts[0]), Keep(parts[1..], keep);
      KeptQuiet(now, parts[1..], keep);
      assert parts == [parts[0]] + parts[1..];
      KeepCons(parts[0], parts[1..], keep);
      if keep(parts[0]) {
        assert ([parts[0]] + rest)[1..] == rest;
      } else {
        assert [] + rest == rest;
        if deep && !now {
          AllQuietDeeper(rest);
        }
      }
    }
  }

  ghost predicate Fields(parts: seq<string>) {
    && (forall i :: 0 <= i < |parts| ==> parts[i] != [] && Nearly(Run(INITIAL, parts[i]), 1))
    && (forall i :: 0 <= i < |parts| - 1 ==> Run(INITIAL, parts[i]).HalfClosed())
  }

  lemma KeptFields(parts: seq<string>, keep: string -> bool)
    requires Fields(parts)
    ensures Fields(Keep(parts, keep))
  {
    var at := KeepSubsequence(parts, keep);
    var kept := Keep(parts, keep);
    forall i | 0 <= i < |kept| - 1 ensures Run(INITIAL, kept[i]).HalfClosed() {
      assert at[i] < at[|kept| - 1] < |parts|;
      assert kept[i] == parts[at[i]];
    }
    forall i | 0 <= i < |kept| ensures kept[i] != [] && Nearly(Run(INITIAL, kept[i]), 1) {
      assert kept[i] == parts[at[i]];
    }
  }

  /** A separator leaves a closed scan neutral and has no braces. */
  lemma SeparatorNeutral(deep: bool, st: Scan)
    requires st.Closed() && st.WellFormed()
    ensures Run(st, FIELD_SEPARATOR).Neutral() && BracesMatch(st, FIELD_SEPARATOR) && Quiet(Outer(deep, st), FIELD_SEPARATOR)
  {
    assert FIELD_SEPARATOR[1..] == " " && " "[1..] == [];
    assert Run(st, FIELD_SEPARATOR) == Step(Step(st, ','), ' ');
    BracelessQuiet(st, FIELD_SEPARATOR);
    BracelessQuiet(Outer(deep, st), FIELD_SEPARATOR);
  }

  predicate AllMatch(parts: seq<string>) {
    forall i :: 0 <= i < |parts| ==> BracesMatch(INITIAL, parts[i])
  }

  /** Joined fields, none but the last commented, are passed over and end as the last one does. */
  lemma {:induction false} JoinedScan(deep: bool, st: Scan, parts: seq<string>)
    requires st.Neutral() && Fields(parts) && Joinable(parts) && parts != [] && AllQuiet(deep, parts)
    ensures Quiet(Outer(deep, st), Join(parts, FIELD_SEPARATOR))
    ensures BracesMatch(st, Join(parts, FIELD_SEPARATOR)) <==> AllMatch(parts)
    ensures Run(st, Join(parts, FIELD_SEPARATOR)) == Run(INITIAL, parts[|parts| - 1])
    decreases parts
  {
    var p := parts[0];
    NeutralRun(st, p);
    NeutralBracesMatch(st, p);
    NeutralOuter(deep, st, p);
    if |parts| > 1 {
      var rest, now := Join(parts[1..], FIELD_SEPARATOR), deep && BracesMatch(INITIAL, p);
      var mid := Run(st, p);
      RunWellFormed(INITIAL, p);
      SeparatorNeutral(now, mid);
      var next := Run(mid, FIELD_SEPARATOR);
      JoinedScan(now, next, parts[1..]);
      JoinBraces(st, p, rest);
      OuterRun(deep, st, p);
      OuterRun(now, mid, FIELD_SEPARATOR);
      QuietConcat(Outer(deep, st), p, FIELD_SEPARATOR + rest);
      QuietConcat(Outer(now, mid), FIELD_SEPARATOR, rest);
      AllMatchCons(parts);
    }
  }

  lemma JoinBraces(st: Scan, p: string, rest: string)
    ensures var next := Run(Run(st, p), FIELD_SEPARATOR);
            && Run(st, p + (FIELD_SEPARATOR + rest)) == Run(next, rest)
            && (BracesMatch(st, p + (FIELD_SEPARATOR + rest)) <==>
                BracesMatch(st, p) && BracesMatch(Run(st, p), FIELD_SEPARATOR) && BracesMatch(next, rest))
  {
    BracesMatchConcat(st, p, FIELD_SEPARATOR + rest);
    BracesMatchConcat(Run(st, p), FIELD_SEPARATOR, rest);
    RunConcat(st, p, FIELD_SEPARATOR + rest);
    RunConcat(Run(st, p), FIELD_SEPARATOR, rest);
  }

  lemma AllMatchCons(parts: seq<string>)
    requires parts != []
    ensures AllMatch(parts) <==> BracesMatch(INITIAL, parts[0]) && AllMatch(parts[1..])
  {
    assert forall i :: 0 < i < |parts| ==> parts[i] == parts[1..][i - 1];
  }

  lemma DelimitersPlain()
    ensures PlainDelimiters(FIELD_DELIMITERS) && IsSeparator(FIELD_SEPARATOR, FIELD_DELIMITERS)
  {
    forall d | d in FIELD_DELIMITERS ensures !IsWhitespace(d) && d !in "\"'{}[]()<>/*" {
      assert forall k :: 0 <= k < |"\"'{}[]()<>/*"| ==> "\"'{}[]()<>/*"[k] != d;
    }
    assert FIELD_SEPARATOR[..0] == "" && FIELD_SEPARATOR[1..] == " ";
    assert SeparatorAt(FIELD_SEPARATOR, 0, FIELD_DELIMITERS);
  }

  // ----- the main result -----

  /** The text with the kept fields between the braces. */
  function FilterFields(s: string, keep: string -> bool): string {
    match FindSpan(s)
    case None => s
    case Some(Span(o, c)) => s[..o + 1] + (KeptText(s[o + 1..c], keep) + s[c..])
  }

  function KeptIn(inner: string, keep: string -> bool): seq<string> {
    Keep(Split(inner, FIELD_DELIMITERS), keep)
  }

  function KeptText(inner: string, keep: string -> bool): string {
    Join(KeptIn(inner, keep), FIELD_SEPARATOR)
  }

  /** The span found reaches from the same brace to the end of the joined fields, which split back to themselves. */
  ghost predicate ReadBack(found: Option<Span>, o: nat, fields: seq<string>) {
    var text := Join(fields, FIELD_SEPARATOR);
    found == Some(Span(o, o + 1 + |text|)) && Split(text, FIELD_DELIMITERS) == fields
  }

  predicate NoneCommented(fields: seq<string>) {
    forall i :: 0 <= i < |fields| ==> !EndsInLineComment(fields[i])
  }

  /** The last field leaves a brace open that no field's unmatched one makes up for. */
  predicate LeavesOpen(fields: seq<string>) {
    fields != [] && Run(INITIAL, fields[|fields| - 1]).brace > 0 && AllMatch(fields)
  }

  lemma {:induction false} KeepMembers(parts: seq<string>, keep: string -> bool)
    ensures forall p :: p in Keep(parts, keep) ==> p in parts
  {
    if parts != [] {
      KeepMembers(parts[..|parts| - 1], keep);
    }
  }

  lemma PartsAreFields(inner: string, delims: set<char>)
    requires PlainDelimiters(delims) && Nearly(Run(INITIAL, inner), 1)
    ensures Fields(Split(inner, delims))
  {
    assert Run(INITIAL, []) == INITIAL;
    SplitFromGood(INITIAL, [], inner, delims);
    PartsNearly(INITIAL, [], inner, delims, 1);
    var parts := Split(inner, delims);
    forall i | 0 <= i < |parts| ensures parts[i] != [] && Nearly(Run(INITIAL, parts[i]), 1) {
      assert Intact(parts[i], delims) && parts[i] in parts;
    }
  }

  lemma FieldsAround(pre: string, fields: seq<string>, post: string, o: nat)
    requires Framed(INITIAL, pre, post, o) && Fields(fields) && Joinable(fields) && AllQuiet(true, fields)
    ensures var text := Join(fields, FIELD_SEPARATOR);
            FindSpan(pre + (text + post)) == Some(Span(o, o + 1 + |text|)) <==> NoneCommented(fields) && !LeavesOpen(fields)
  {
    var text, outer := Join(fields, FIELD_SEPARATOR), Run(INITIAL, pre).(brace := 0);
    assert Run(INITIAL, pre) == Outer(true, outer);
    if fields == [] {
      assert text == [];
    } else {
      JoinedScan(true, outer, fields);
      RunWellFormed(INITIAL, fields[|fields| - 1]);
    }
    OuterRun(true, outer, text);
    EndsMeans(BracesMatch(outer, text), Run(outer, text));
    FindAround(INITIAL, pre, text, post, o);
  }

  lemma ReadBackExact(found: Option<Span>, fields: seq<string>, o: nat, good: bool)
    requires Split(Join(fields, FIELD_SEPARATOR), FIELD_DELIMITERS) == fields <==> Joinable(fields)
    requires Joinable(fields) ==> (found == Some(Span(o, o + 1 + |Join(fields, FIELD_SEPARATOR)|)) <==> good)
    requires good ==> Joinable(fields)
    ensures ReadBack(found, o, fields) <==> good
  {
  }

  lemma KeptReadBack(pre: string, inner: string, post: string, o: nat, keep: string -> bool)
    requires Framed(INITIAL, pre, post, o) && Quiet(Run(INITIAL, pre), inner) && Nearly(Run(INITIAL, inner), 1)
    ensures ReadBack(FindSpan(pre + (KeptText(inner, keep) + post)), o, KeptIn(inner, keep))
       <==> NoneCommented(KeptIn(inner, keep)) && !LeavesOpen(KeptIn(inner, keep))
  {
    DelimitersPlain();
    var parts, outer := Split(inner, FIELD_DELIMITERS), Run(INITIAL, pre).(brace := 0);
    PartsAreFields(inner, FIELD_DELIMITERS);
    KeptFields(parts, keep);
    assert [] + inner == inner && Run(INITIAL, []) == INITIAL && Run(INITIAL, pre) == Outer(true, outer);
    NeutralOuter(true, outer, inner);
    PartsQuiet(true, INITIAL, [], inner, FIELD_DELIMITERS);
    KeptQuiet(true, parts, keep);
    FilterPartsExact(inner, FIELD_DELIMITERS, FIELD_SEPARATOR, keep);
    var kept := KeptIn(inner, keep);
    if Joinable(kept) {
      FieldsAround(pre, kept, post, o);
    }
    ReadBackExact(FindSpan(pre + (KeptText(inner, keep) + post)), kept, o, NoneCommented(kept) && !LeavesOpen(kept));
  }

  /** How the text between the braces ends: closed, if it matches its braces. */
  lemma InnerEnds(s: string, o: nat, c: nat)
    requires FindSpan(s) == Some(Span(o, c))
    ensures Nearly(Run(INITIAL, s[o + 1..c]), if BracesMatch(INITIAL, s[o + 1..c]) then 0 else 1)
  {
    FoundFramed(s, o, c);
    var inner, outer := s[o + 1..c], Run(INITIAL, s[..o + 1]).(brace := 0);
    assert Run(INITIAL, s[..o + 1]) == Outer(true, outer);
    OuterRun(true, outer, inner);
    NeutralBracesMatch(outer, inner);
    RunWellFormed(outer, inner);
    EndsMeans(BracesMatch(outer, inner), Run(outer, inner));
    if inner != [] {
      NeutralRun(outer, inner);
    }
  }

  /** No field of an inner text that matches its braces leaves one open. */
  lemma MatchedLeavesNone(inner: string, keep: string -> bool)
    requires Nearly(Run(INITIAL, inner), 0)
    ensures !LeavesOpen(KeptIn(inner, keep))
  {
    DelimitersPlain();
    assert Run(INITIAL, []) == INITIAL;
    PartsNearly(INITIAL, [], inner, FIELD_DELIMITERS, 0);
    KeepMembers(Split(inner, FIELD_DELIMITERS), keep);
    var kept := KeptIn(inner, keep);
    if kept != [] {
      assert kept[|kept| - 1] in kept;
    }
  }

  /**
   * After the fields are filtered the braces found are the same opening one and the one right after
   * the new inner text, with exactly the kept fields between them, if and only if no kept field ends
   * in a `//` comment and the last one leaves no brace open. Text that matches its braces never does.
   */
  lemma FieldFilterExact(s: string, o: nat, c: nat, keep: string -> bool)
    requires FindSpan(s) == Some(Span(o, c))
    ensures var kept := KeptIn(s[o + 1..c], keep);
            && (ReadBack(FindSpan(FilterFields(s, keep)), o, kept) <==> NoneCommented(kept) && !LeavesOpen(kept))
            && (BracesMatch(INITIAL, s[o + 1..c]) ==> !LeavesOpen(kept))
  {
    FoundFramed(s, o, c);
    InnerEnds(s, o, c);
    KeptReadBack(s[..o + 1], s[o + 1..c], s[c..], o, keep);
    if BracesMatch(INITIAL, s[o + 1..c]) {
      MatchedLeavesNone(s[o + 1..c], keep);
    }
  }

  // ----- where the type body begins -----

  const INTERFACE := "export interface"

  /** `str::find`. */
  function IndexOf(s: string, pattern: string): (r: Option<nat>)
    ensures r.Some? ==> r.value + |pattern| <= |s|
    decreases s
  {
    if StartsWith(s, pattern) then Some(0)
    else if s == [] then None
    else match IndexOf(s[1..], pattern) case Some(k) => Some(k + 1) case None => None
  }

  lemma {:induction false} IndexOfStable(a: string, b: string, c: string, pattern: string)
    requires IndexOf(a + b, pattern).Some? && IndexOf(a + b, pattern).value + |pattern| <= |a|
    ensures IndexOf(a + c, pattern) == IndexOf(a + b, pattern)
    decreases a
  {
    var k := |pattern|;
    assert |a| >= k && (a + b)[..k] == a[..k] && (a + c)[..k] == a[..k];
    if !StartsWith(a, pattern) {
      assert (a + b)[1..] == a[1..] + b && (a + c)[1..] == a[1..] + c;
      IndexOfStable(a[1..], b, c, pattern);
    }
  }

  lemma IndexOfExtended(a: string, rest: string, pattern: string)
    requires IndexOf(a, pattern).Some?
    ensures IndexOf(a + rest, pattern) == IndexOf(a, pattern)
  {
    assert a + [] == a;
    IndexOfStable(a, [], rest, pattern);
  }

  /** After the first `=`, or else after the interface keyword. */
  function BodyStart(content: string): (r: Option<nat>)
    ensures r.Some? ==> r.value <= |content|
  {
    if '=' in content then
      BeforeIsPrefix(content, '=');
      Some(|Before(content, '=')| + 1)
    else
      match IndexOf(content, INTERFACE) case Some(k) => Some(k + |INTERFACE|) case None => None
  }

  /** `type_body_brace_span`. */
  function TypeBodySpan(content: string): (r: Option<Span>)
    ensures r.Some? ==> r.value.open < r.value.close < |content|
  {
    match BodyStart(content)
    case None => None
    case Some(k) => Shifted(FindSpan(content[k..]), k)
  }

  function Shifted(found: Option<Span>, k: nat): Option<Span> {
    match found case Some(Span(o, c)) => Some(Span(k + o, k + c)) case None => None
  }

  /** The file with its fields filtered, before unused imports are dropped. */
  function FilterTypeFields(content: string, keep: string -> bool): string {
    match BodyStart(content)
    case None => content
    case Some(k) => content[..k] + FilterFields(content[k..], keep)
  }

  lemma {:induction false} PartsUse(st: Scan, cur: string, s: string, delims: set<char>, c: char)
    requires c !in cur && c !in s
    ensures forall p :: p in SplitFrom(st, cur, s, delims) ==> c !in p
    decreases s
  {
    PieceUses(cur, c);
    if s != [] {
      assert c !in s[1..] && c !in cur + [s[0]];
      if Cuts(st, s[0], delims) {
        PartsUse(Step(st, s[0]), [], s[1..], delims, c);
      } else {
        PartsUse(Step(st, s[0]), cur + [s[0]], s[1..], delims, c);
      }
    }
  }

  lemma PieceUses(cur: string, c: char)
    requires c !in cur
    ensures forall p :: p in Piece(cur) ==> c !in p
  {
    forall p | p in Piece(cur) ensures c !in p {
      var a, b := TrimParts(cur);
      assert forall i :: 0 <= i < |p| ==> (a + p + b)[|a| + i] == p[i];
    }
  }

  lemma {:induction false} JoinUses(parts: seq<string>, sep: string, c: char)
    requires c !in sep && forall p :: p in parts ==> c !in p
    ensures c !in Join(parts, sep)
  {
    if |parts| > 1 {
      JoinUses(parts[1..], sep, c);
    }
  }

  /** Filtering brings in no characters but the separator's. */
  lemma FilterUses(s: string, keep: string -> bool, c: char)
    requires c !in s && c !in FIELD_SEPARATOR
    ensures c !in FilterFields(s, keep)
  {
    var span := FindSpan(s);
    if span.Some? {
      var inner := s[span.value.open + 1..span.value.close];
      PartsUse(INITIAL, [], inner, FIELD_DELIMITERS, c);
      KeepMembers(Split(inner, FIELD_DELIMITERS), keep);
      JoinUses(KeptIn(inner, keep), FIELD_SEPARATOR, c);
    }
  }

  lemma AfterEquals(before: string, rest: string)
    requires '=' !in before
    ensures BodyStart(before + ['='] + rest) == Some(|before| + 1)
  {
    BeforeCut(before, '=', rest);
    assert (before + ['='] + rest)[|before|] == '=';
  }

  lemma AfterInterface(a: string, b: string, c: string)
    requires '=' !in a + b && '=' !in c && BodyStart(a + b) == Some(|a|)
    ensures BodyStart(a + c) == Some(|a|)
  {
    IndexOfStable(a, b, c, INTERFACE);
  }

  /** Replacing what follows does not move the place the body is looked for. */
  lemma BodyReplaced(content: string, k: nat, rest: string)
    requires BodyStart(content) == Some(k) && ('=' in content || '=' !in rest)
    ensures BodyStart(content[..k] + rest) == Some(k)
    ensures TypeBodySpan(content[..k] + rest) == Shifted(FindSpan(rest), k)
  {
    var a := content[..k];
    assert (a + rest)[k..] == rest;
    if '=' in content {
      BeforeIsPrefix(content, '=');
      assert a == Before(content, '=') + ['='];
      AfterEquals(Before(content, '='), rest);
    } else {
      assert content == a + content[k..];
      AfterInterface(a, content[k..], rest);
    }
  }

  /**
   * The whole file: after filtering, the type body's braces are the same opening one and the one
   * right after the kept fields, which split back to exactly themselves, if and only if no kept
   * field ends in a `//` comment and the last one leaves no brace open.
   */
  lemma TypeFieldsFiltered(content: string, o: nat, c: nat, keep: string -> bool)
    requires TypeBodySpan(content) == Some(Span(o, c))
    ensures var kept := KeptIn(content[o + 1..c], keep);
            && (ReadBack(TypeBodySpan(FilterTypeFields(content, keep)), o, kept) <==> NoneCommented(kept) && !LeavesOpen(kept))
            && (BracesMatch(INITIAL, content[o + 1..c]) ==> !LeavesOpen(kept))
  {
    var k, inner := BodyStart(content).value, content[o + 1..c];
    var kept := KeptIn(inner, keep);
    BodyFilterExact(content, k, o, c, inner, keep);
    assert TypeBodySpan(FilterTypeFields(content, keep)) == Shifted(FindSpan(FilterFields(content[k..], keep)), k) by {
      SpanFiltered(content, k, keep);
    }
    ReadBackShifted(FindSpan(FilterFields(content[k..], keep)), k, o, kept);
  }

  lemma BodyFilterExact(content: string, k: nat, o: nat, c: nat, inner: string, keep: string -> bool)
    requires k <= o < c < |content| && FindSpan(content[k..]) == Some(Span(o - k, c - k)) && content[o + 1..c] == inner
    ensures var kept := KeptIn(inner, keep);
            && (ReadBack(FindSpan(FilterFields(content[k..], keep)), o - k, kept) <==> NoneCommented(kept) && !LeavesOpen(kept))
            && (BracesMatch(INITIAL, inner) ==> !LeavesOpen(kept))
  {
    assert content[k..][o - k + 1..c - k] == inner by {
      InnerShifted(content, k, o, c);
    }
    FieldFilterExact(content[k..], o - k, c - k, keep);
  }

  /** Filtering does not move the place the body is looked for. */
  lemma SpanFiltered(content: string, k: nat, keep: string -> bool)
    requires BodyStart(content) == Some(k)
    ensures TypeBodySpan(FilterTypeFields(content, keep)) == Shifted(FindSpan(FilterFields(content[k..], keep)), k)
  {
    if '=' !in content {
      assert '=' !in content[k..];
      FilterUses(content[k..], keep, '=');
    }
    BodyReplaced(content, k, FilterFields(content[k..], keep));
  }

  lemma InnerShifted(content: string, k: nat, o: nat, c: nat)
    requires k <= o < c < |content|
    ensures content[k..][o - k + 1..c - k] == content[o + 1..c]
  {
  }

  lemma ReadBackShifted(found: Option<Span>, k: nat, o: nat, fields: seq<string>)
    requires k <= o
    ensures ReadBack(Shifted(found, k), o, fields) <==> ReadBack(found, o - k, fields)
  {
  }

  // ----- a field that leaves a brace open -----

  lemma FindStep(st: Scan, input: string, index: nat, open: Option<nat>)
    requires index < |input|
    ensures var now := if Opens(st, input[index]) then Some(index) else open;
            FindFrom(st, input[index..], index, open)
            == if Ends(st, input[index]) && now.Some? then Some(Span(now.value, index))
               else FindFrom(Step(st, input[index]), input[index + 1..], index + 1, now)
  {
    assert input[index..][1..] == input[index + 1..];
  }

  function At(brace: nat, paren: nat, ch: char): Scan {
    INITIAL.(brace := brace, paren := paren, previous := Some(ch))
  }

  lemma ScanCons(st: Scan, ch: char, rest: string)
    ensures Run(st, [ch] + rest) == Run(Step(st, ch), rest)
    ensures BracesMatch(st, [ch] + rest) <==> !Unmatched(st, ch) && BracesMatch(Step(st, ch), rest)
    ensures Uncut(st, [ch] + rest, FIELD_DELIMITERS) <==> !Cuts(st, ch, FIELD_DELIMITERS) && Uncut(Step(st, ch), rest, FIELD_DELIMITERS)
  {
    assert ([ch] + rest)[1..] == rest;
  }

  /** Three characters, with the scans between them. */
  lemma ScanThree(a: char, s1: Scan, b: char, s2: Scan, c: char, s3: Scan)
    requires s1 == Step(INITIAL, a) && s2 == Step(s1, b) && s3 == Step(s2, c)
    ensures Run(INITIAL, [a, b, c]) == s3
    ensures BracesMatch(INITIAL, [a, b, c]) <==> !Unmatched(INITIAL, a) && !Unmatched(s1, b) && !Unmatched(s2, c)
    ensures Uncut(INITIAL, [a, b, c], FIELD_DELIMITERS)
       <==> !Cuts(INITIAL, a, FIELD_DELIMITERS) && !Cuts(s1, b, FIELD_DELIMITERS) && !Cuts(s2, c, FIELD_DELIMITERS)
  {
    assert [a, b, c] == [a] + ([b] + ([c] + []));
    ScanCons(INITIAL, a, [b] + ([c] + []));
    ScanCons(s1, b, [c] + []);
    ScanCons(s2, c, []);
  }

  lemma FirstField()
    ensures Run(INITIAL, "(})") == At(0, 0, ')') && Intact("(})", FIELD_DELIMITERS)
  {
    ScanThree('(', At(0, 1, '('), '}', At(0, 1, '}'), ')', At(0, 0, ')'));
  }

  lemma SecondField()
    ensures Run(INITIAL, "({)") == At(1, 0, ')') && BracesMatch(INITIAL, "({)") && Intact("({)", FIELD_DELIMITERS)
  {
    ScanThree('(', At(0, 1, '('), '{', At(1, 1, '{'), ')', At(1, 0, ')'));
  }

  lemma TwoFieldsSplit()
    ensures Split("(}),({)", FIELD_DELIMITERS) == ["(})", "({)"]
  {
    var p, q := "(})", "({)";
    FirstField();
    SecondField();
    DelimitersPlain();
    assert "(}),({)" == p + ([','] + q) && [] + p == p && [] + p + [] == p;
    SplitFromUncut(INITIAL, [], p, [','] + q, FIELD_DELIMITERS);
    PiecePadded([], p, []);
    CutBeforeIntact(At(0, 0, ')'), p, p, ',', q, FIELD_DELIMITERS);
  }

  lemma Passes(st: Scan, input: string, index: nat, next: Scan)
    requires index < |input| && next == Step(st, input[index]) && !Opens(st, input[index]) && !Ends(st, input[index])
    ensures FindFrom(st, input[index..], index, Some(0)) == FindFrom(next, input[index + 1..], index + 1, Some(0))
  {
    FindStep(st, input, index, Some(0));
  }

  const CLASHING := "{(}),({)}"

  lemma ClashingFoundLate()
    ensures FindFrom(At(0, 0, ')'), CLASHING[4..], 4, Some(0)) == Some(Span(0, 8))
  {
    Passes(At(0, 0, ')'), CLASHING, 4, At(0, 0, ','));
    Passes(At(0, 0, ','), CLASHING, 5, At(0, 1, '('));
    Passes(At(0, 1, '('), CLASHING, 6, At(1, 1, '{'));
    Passes(At(1, 1, '{'), CLASHING, 7, At(1, 0, ')'));
    FindStep(At(1, 0, ')'), CLASHING, 8, Some(0));
  }

  lemma ClashingFoundEarly()
    ensures FindFrom(At(1, 0, '{'), CLASHING[1..], 1, Some(0)) == FindFrom(At(0, 0, ')'), CLASHING[4..], 4, Some(0))
  {
    Passes(At(1, 0, '{'), CLASHING, 1, At(1, 1, '('));
    Passes(At(1, 1, '('), CLASHING, 2, At(0, 1, '}'));
    Passes(At(0, 1, '}'), CLASHING, 3, At(0, 0, ')'));
  }

  lemma FoundFromStart(s: string, span: Span)
    requires s != [] && s[0] == '{' && FindFrom(At(1, 0, '{'), s[1..], 1, Some(0)) == Some(span) && span.open < span.close < |s|
    ensures FindSpan(s) == Some(span)
  {
    assert s[0..] == s;
    FindStep(INITIAL, s, 0, None);
  }

  lemma ClashingFound()
    ensures FindSpan(CLASHING) == Some(Span(0, 8))
  {
    ClashingFoundEarly();
    ClashingFoundLate();
    FoundFromStart(CLASHING, Span(0, 8));
  }

  lemma KeepSecond(p: string, q: string, keep: string -> bool)
    requires !keep(p) && keep(q)
    ensures Keep([p, q], keep) == [q]
  {
    assert [p, q] == [p] + [q] && [q] == [q] + [];
    KeepCons(p, [q], keep);
    KeepCons(q, [], keep);
  }

  lemma OpenNotReadBack(s: string, o: nat, c: nat, inner: string, parts: seq<string>, kept: seq<string>, keep: string -> bool)
    requires FindSpan(s) == Some(Span(o, c)) && s[o + 1..c] == inner && Split(inner, FIELD_DELIMITERS) == parts
    requires Keep(parts, keep) == kept && LeavesOpen(kept)
    ensures KeptIn(s[o + 1..c], keep) == kept && !ReadBack(FindSpan(FilterFields(s, keep)), o, kept)
  {
    FieldFilterExact(s, o, c, keep);
  }

  lemma SecondLeavesOpen()
    ensures LeavesOpen(["({)"])
  {
    SecondField();
  }

  /** Dropping the field whose unmatched brace closed the outer one early leaves the next field's brace open. */
  lemma LeavesOpenExample(keep: string -> bool)
    requires !keep("(})") && keep("({)")
    ensures FindSpan(CLASHING) == Some(Span(0, 8)) && KeptIn(CLASHING[1..8], keep) == ["({)"]
    ensures !ReadBack(FindSpan(FilterFields(CLASHING, keep)), 0, ["({)"])
  {
    ClashingFound();
    TwoFieldsSplit();
    KeepSecond("(})", "({)", keep);
    SecondLeavesOpen();
    ClashingInner();
    OpenNotReadBack(CLASHING, 0, 8, "(}),({)", ["(})", "({)"], ["({)"], keep);
  }

  lemma ClashingInner()
    ensures CLASHING[1..8] == "(}),({)"
  {
  }

  // ----- the code -----


  /** One pass over the text, remembering the last top-level opening brace. */
  method FindTopLevelBraceSpan(input: string) returns (r: Option<Span>)
    ensures r == FindSpan(input)
  {
    var state := new ScanState();
    var open: Option<nat> := None;
    var index := 0;
    assert input[0..] == input;
    while index < |input|
      invariant 0 <= index <= |input| && fresh(state)
      invariant FindFrom(state.View(), input[index..], index, open) == FindSpan(input)
    {
      var ch := input[index];
      FindStep(state.View(), input, index, open);
      var ignored := state.InIgnoredSyntax();
      var top := state.IsTopLevel();
      if !ignored && ch == '{' && top {
        open := Some(index);
      }
      state.Observe(ch);
      ignored := state.InIgnoredSyntax();
      top := state.IsTopLevel();
      if !ignored && ch == '}' && top && open.Some? {
        return Some(Span(open.value, index));
      }
      index := index + 1;
    }
    r := None;
  }
}
