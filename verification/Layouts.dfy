/** Items with white space around them and delimiters between them, as a printer may lay them out. */
module Layouts {
  import opened Text
  import opened Sequences
  import opened Scanner
  import opened FieldFilter

  /** An item with the white space around it; an empty slot stands before, between or after delimiters. */
  datatype Slot<T> = Slot(before: string, item: Option<T>, after: string)

  datatype Layout<T> = Last(slot: Slot<T>) | More(slot: Slot<T>, delim: char, rest: Layout<T>)

  function ItemsIn<T>(slot: Slot<T>): seq<T> {
    match slot.item case Some(x) => [x] case None => []
  }

  function Items<T>(l: Layout<T>): seq<T> {
    match l
    case Last(slot) => ItemsIn(slot)
    case More(slot, _, rest) => ItemsIn(slot) + Items(rest)
  }

  function PrintItem<T>(show: T -> string, slot: Slot<T>): string {
    match slot.item case Some(x) => show(x) case None => []
  }

  function PrintSlot<T>(show: T -> string, slot: Slot<T>): string {
    slot.before + (PrintItem(show, slot) + slot.after)
  }

  function PrintLayout<T>(show: T -> string, l: Layout<T>): string {
    match l
    case Last(slot) => PrintSlot(show, slot)
    case More(slot, delim, rest) => PrintSlot(show, slot) + ([delim] + PrintLayout(show, rest))
  }

  predicate Blank<T>(slot: Slot<T>) {
    AllWhitespace(slot.before) && AllWhitespace(slot.after)
  }

  /** Only white space around the items and only `delims` between them. */
  predicate Spaced<T>(l: Layout<T>, delims: set<char>) {
    match l
    case Last(slot) => Blank(slot)
    case More(slot, delim, rest) => Blank(slot) && delim in delims && Spaced(rest, delims)
  }

  /** Text that is one part wherever it stands between delimiters. */
  predicate Whole(p: string, delims: set<char>) {
    Intact(p, delims) && Run(INITIAL, p).Closed()
  }

  ghost predicate AllWhole<T>(show: T -> string, items: seq<T>, delims: set<char>) {
    forall i :: 0 <= i < |items| ==> Whole(show(items[i]), delims)
  }

  ghost predicate AllMatched<T>(show: T -> string, items: seq<T>) {
    forall i :: 0 <= i < |items| ==> BracesMatch(INITIAL, show(items[i]))
  }

  // ----- scanning a slot -----

  lemma BlankScan(st: Scan, ws: string, delims: set<char>)
    requires st.Closed() && st.WellFormed() && AllWhitespace(ws) && PlainDelimiters(delims)
    ensures Run(st, ws).Closed() && Run(st, ws).WellFormed() && Uncut(st, ws, delims) && BracesMatch(st, ws)
  {
    ClosedRunWhitespace(st, ws);
    RunWellFormed(st, ws);
    WhitespaceUncut(st, ws, delims);
    WhitespaceBraceless(ws);
    BracelessQuiet(st, ws);
  }

  /** Closed, uncut text, with matching braces or not. */
  ghost predicate Scanned(st: Scan, s: string, delims: set<char>, matched: bool) {
    Run(st, s).Closed() && Run(st, s).WellFormed() && Uncut(st, s, delims) && (BracesMatch(st, s) <==> matched)
  }

  lemma ScannedConcat(st: Scan, a: string, b: string, delims: set<char>, m: bool, n: bool)
    requires Scanned(st, a, delims, m) && Scanned(Run(st, a), b, delims, n)
    ensures Scanned(st, a + b, delims, m && n)
  {
    RunConcat(st, a, b);
    UncutConcat(st, a, b, delims);
    BracesMatchConcat(st, a, b);
  }

  lemma WholeScan(st: Scan, p: string, delims: set<char>)
    requires st.Neutral() && (p == [] || Whole(p, delims))
    ensures Scanned(st, p, delims, BracesMatch(INITIAL, p))
  {
    if p != [] {
      NeutralRun(st, p);
      NeutralUncut(st, p, delims);
      RunWellFormed(INITIAL, p);
    }
    NeutralBracesMatch(st, p);
  }

  lemma PaddedScan(st: Scan, a: string, p: string, b: string, delims: set<char>)
    requires PlainDelimiters(delims) && st.Neutral() && AllWhitespace(a) && AllWhitespace(b) && (p == [] || Whole(p, delims))
    ensures Scanned(st, a + (p + b), delims, BracesMatch(INITIAL, p))
  {
    var mid, matched := Run(st, a), BracesMatch(INITIAL, p);
    assert Scanned(st, a, delims, true) && mid.Neutral() by {
      BlankScan(st, a, delims);
      RunWhitespace(st, a);
    }
    assert Scanned(mid, p, delims, matched) by {
      WholeScan(mid, p, delims);
    }
    assert Scanned(Run(mid, p), b, delims, true) by {
      BlankScan(Run(mid, p), b, delims);
    }
    ScannedConcat(mid, p, b, delims, matched, true);
    ScannedConcat(st, a, p + b, delims, true, matched);
  }

  lemma PaddedPiece(a: string, p: string, b: string)
    requires AllWhitespace(a) && AllWhitespace(b) && (p == [] || Trimmed(p))
    ensures Piece(a + (p + b)) == if p == [] then [] else [p]
  {
    if p == [] {
      assert a + (p + b) == a + b;
      PieceBlank(a + b);
    } else {
      assert a + (p + b) == a + p + b;
      PiecePadded(a, p, b);
    }
  }

  lemma SlotScan<T>(st: Scan, show: T -> string, slot: Slot<T>, delims: set<char>)
    requires PlainDelimiters(delims) && st.Neutral() && Blank(slot) && AllWhole(show, ItemsIn(slot), delims)
    ensures Scanned(st, PrintSlot(show, slot), delims, AllMatched(show, ItemsIn(slot)))
    ensures Piece(PrintSlot(show, slot)) == Map(show, ItemsIn(slot))
  {
    var p := PrintItem(show, slot);
    if slot.item.Some? {
      assert ItemsIn(slot)[0] == slot.item.value;
      assert Whole(p, delims) && p != [];
    }
    PaddedScan(st, slot.before, p, slot.after, delims);
    PaddedPiece(slot.before, p, slot.after);
  }

  // ----- scanning and splitting a layout -----

  lemma WholeParts<T>(show: T -> string, a: seq<T>, b: seq<T>, delims: set<char>)
    requires AllWhole(show, a + b, delims)
    ensures AllWhole(show, a, delims) && AllWhole(show, b, delims)
  {
    forall i | 0 <= i < |a| ensures Whole(show(a[i]), delims) {
      assert (a + b)[i] == a[i];
    }
    forall i | 0 <= i < |b| ensures Whole(show(b[i]), delims) {
      assert (a + b)[|a| + i] == b[i];
    }
  }

  lemma MatchedParts<T>(show: T -> string, a: seq<T>, b: seq<T>)
    requires AllMatched(show, a + b)
    ensures AllMatched(show, a) && AllMatched(show, b)
  {
    forall i | 0 <= i < |a| ensures BracesMatch(INITIAL, show(a[i])) {
      assert (a + b)[i] == a[i];
    }
    forall i | 0 <= i < |b| ensures BracesMatch(INITIAL, show(b[i])) {
      assert (a + b)[|a| + i] == b[i];
    }
  }

  /** The items come back when the printed text is split, however it is spaced. */
  lemma {:induction false} LayoutSplits<T>(st: Scan, show: T -> string, l: Layout<T>, delims: set<char>)
    requires PlainDelimiters(delims) && st.Neutral() && Spaced(l, delims) && AllWhole(show, Items(l), delims)
    ensures SplitFrom(st, [], PrintLayout(show, l), delims) == Map(show, Items(l))
    decreases l
  {
    var text := PrintSlot(show, l.slot);
    match l {
      case Last(slot) =>
        SlotScan(st, show, slot, delims);
        CutOff(st, text, [], delims);
        assert text + [] == text;
      case More(slot, delim, rest) =>
        WholeParts(show, ItemsIn(slot), Items(rest), delims);
        SlotScan(st, show, slot, delims);
        CutOff(st, text, [delim] + PrintLayout(show, rest), delims);
        var mid := Run(st, text);
        ClosedDelimiter(mid, delim, delims);
        SplitFromCons(mid, text, delim, PrintLayout(show, rest), delims);
        LayoutSplits(Step(mid, delim), show, rest, delims);
        MapConcat(show, ItemsIn(slot), Items(rest));
    }
  }

  lemma CutOff(st: Scan, text: string, rest: string, delims: set<char>)
    requires Uncut(st, text, delims)
    ensures SplitFrom(st, [], text + rest, delims) == SplitFrom(Run(st, text), text, rest, delims)
  {
    assert [] + text == text;
    SplitFromUncut(st, [], text, rest, delims);
  }

  lemma DelimiterScan(st: Scan, delim: char, rest: string, delims: set<char>)
    requires PlainDelimiters(delims) && delim in delims && st.Closed() && st.WellFormed()
    ensures Step(st, delim).Neutral() && Run(st, [delim] + rest) == Run(Step(st, delim), rest)
    ensures BracesMatch(st, [delim] + rest) <==> BracesMatch(Step(st, delim), rest)
  {
    ClosedDelimiter(st, delim, delims);
    assert ([delim] + rest)[1..] == rest;
    assert '}' in "\"'{}[]()<>/*" by {
      assert "\"'{}[]()<>/*"[3] == '}';
    }
  }

  /** Items that match their braces make a text that does. */
  lemma {:induction false} LayoutScan<T>(st: Scan, show: T -> string, l: Layout<T>, delims: set<char>)
    requires PlainDelimiters(delims) && st.Neutral() && Spaced(l, delims) && AllWhole(show, Items(l), delims) && AllMatched(show, Items(l))
    ensures Run(st, PrintLayout(show, l)).Closed() && BracesMatch(st, PrintLayout(show, l))
    decreases l
  {
    match l {
      case Last(slot) => SlotScan(st, show, slot, delims);
      case More(slot, delim, rest) =>
        WholeParts(show, ItemsIn(slot), Items(rest), delims);
        MatchedParts(show, ItemsIn(slot), Items(rest));
        SlotScan(st, show, slot, delims);
        var text, more := PrintSlot(show, slot), PrintLayout(show, rest);
        DelimiterScan(Run(st, text), delim, more, delims);
        LayoutScan(Step(Run(st, text), delim), show, rest, delims);
        RunConcat(st, text, [delim] + more);
        BracesMatchConcat(st, text, [delim] + more);
    }
  }
}
