/** Removal of the leading docstring block and of header metadata lines. */
module HeaderStrip {
  import opened Text

  const DOUBLE := "\"\"\""
  const SINGLE := "'''"

  /** The lines, counted from 0, that the leading docstring covers. */
  datatype Header = NoHeader | Header(first: nat, last: nat)

  predicate Opens(line: string) {
    StartsWith(Strip(line), DOUBLE) || StartsWith(Strip(line), SINGLE)
  }

  /** The quote a line opens with. */
  function Quote(line: string): (q: string)
    ensures |q| == 3
  {
    if StartsWith(Strip(line), DOUBLE) then DOUBLE else SINGLE
  }

  /** A docstring that is complete on its own line. Six quotes alone do not count: they open a block. */
  predicate OneLine(line: string)
    requires Opens(line)
  {
    var s := Strip(line);
    EndsWith(s[3..], Quote(line)) && |s| > 6
  }

  predicate Closes(line: string, quote: string) { Contains(Strip(line), quote) }

  predicate InHeader(h: Header, i: nat) { h.Header? && h.first <= i <= h.last }

  /**
   * `h` is the header of `lines`: it starts at the first of the first five lines that opens with a triple
   * quote, and ends there when that docstring is complete, or else at the next line that contains the quote,
   * or else at the end of the file.
   */
  ghost predicate IsHeader(lines: seq<string>, h: Header) {
    match h
    case NoHeader => forall i :: 0 <= i < |lines| && i < 5 ==> !Opens(lines[i])
    case Header(first, last) =>
      && first <= last < |lines| && first < 5
      && Opens(lines[first])
      && (forall i :: 0 <= i < first ==> !Opens(lines[i]))
      && if OneLine(lines[first]) then last == first else
          && (forall i :: first < i < last ==> !Closes(lines[i], Quote(lines[first])))
          && (last + 1 == |lines| || (first < last && Closes(lines[last], Quote(lines[first]))))
  }

  lemma HeaderUnique(lines: seq<string>, g: Header, h: Header)
    requires IsHeader(lines, g) && IsHeader(lines, h)
    ensures g == h
  {
    if g.Header? && h.Header? {
      assert g.first == h.first;
      if !OneLine(lines[g.first]) {
        assert g.last == h.last;
      }
    }
  }

  function KeptUpTo(lines: seq<string>, n: nat, h: Header, isMeta: string -> bool): seq<(nat, string)>
    requires n <= |lines|
  {
    if n == 0 then [] else
      KeptUpTo(lines, n - 1, h, isMeta) + if InHeader(h, n - 1) || isMeta(lines[n - 1]) then [] else [(n, lines[n - 1])]
  }

  lemma KeptStep(lines: seq<string>, n: nat, h: Header, isMeta: string -> bool)
    requires n < |lines|
    ensures KeptUpTo(lines, n + 1, h, isMeta) == KeptUpTo(lines, n, h, isMeta)
              + if InHeader(h, n) || isMeta(lines[n]) then [] else [(n + 1, lines[n])]
  {}

  function FirstOpening(lines: seq<string>, i: nat): nat
    requires i <= |lines|
    decreases |lines| - i
  {
    if i == |lines| || Opens(lines[i]) then i else FirstOpening(lines, i + 1)
  }

  function FirstClosing(lines: seq<string>, i: nat, quote: string): nat
    requires i <= |lines|
    decreases |lines| - i
  {
    if i == |lines| || Closes(lines[i], quote) then i else FirstClosing(lines, i + 1, quote)
  }

  function HeaderOf(lines: seq<string>): Header {
    var first := FirstOpening(lines, 0);
    if first >= |lines| || first >= 5 then NoHeader
    else if OneLineAt(lines, first) then Header(first, first)
    else
      var last := FirstClosing(lines, first + 1, Quote(lines[first]));
      Header(first, if last < |lines| then last else |lines| - 1)
  }

  predicate OneLineAt(lines: seq<string>, i: nat) {
    i < |lines| && Opens(lines[i]) && OneLine(lines[i])
  }

  lemma {:induction false} FirstOpeningFirst(lines: seq<string>, i: nat)
    requires i <= |lines|
    ensures var r := FirstOpening(lines, i);
      i <= r <= |lines| && (r < |lines| ==> Opens(lines[r])) && forall k :: i <= k < r ==> !Opens(lines[k])
    decreases |lines| - i
  {
    if i < |lines| && !Opens(lines[i]) {
      FirstOpeningFirst(lines, i + 1);
    }
  }

  lemma {:induction false} FirstClosingFirst(lines: seq<string>, i: nat, quote: string)
    requires i <= |lines|
    ensures var r := FirstClosing(lines, i, quote);
      i <= r <= |lines| && (r < |lines| ==> Closes(lines[r], quote)) && forall k :: i <= k < r ==>
          !Closes(lines[k], quote)
    decreases |lines| - i
  {
    if i < |lines| && !Closes(lines[i], quote) {
      FirstClosingFirst(lines, i + 1, quote);
    }
  }

  /** Every file has a header in this sense, and only one. */
  lemma HeaderOfIsHeader(lines: seq<string>)
    ensures forall h :: IsHeader(lines, h) <==> h == HeaderOf(lines)
  {
    var first := FirstOpening(lines, 0);
    FirstOpeningFirst(lines, 0);
    if first < |lines| {
      FirstClosingFirst(lines, first + 1, Quote(lines[first]));
    }
    assert IsHeader(lines, HeaderOf(lines));
    forall h | IsHeader(lines, h)
      ensures h == HeaderOf(lines)
    {
      HeaderUnique(lines, h, HeaderOf(lines));
    }
  }

  // ---------- the block in terms of strings ----------

  ghost predicate OpensWith(line: string, quote: string) {
    quote in {"\"\"\"", "'''"} && exists rest :: Strip(line) == quote + rest
  }

  /** The docstring is complete: it has something between its quotes, and nothing follows them. */
  ghost predicate CompleteWith(line: string, quote: string) {
    exists body :: body != "" && Strip(line) == quote + body + quote
  }

  ghost predicate HasQuote(line: string, quote: string) {
    exists x, y :: Strip(line) == x + quote + y
  }

  lemma OpensIff(line: string)
    ensures Opens(line) <==> exists quote :: OpensWith(line, quote)
    ensures Opens(line) ==> forall quote :: OpensWith(line, quote) <==> quote == Quote(line)
  {
    StartsWithIff(Strip(line), "\"\"\"");
    StartsWithIff(Strip(line), "'''");
    if Opens(line) {
      assert OpensWith(line, Quote(line));
      if OpensWith(line, "\"\"\"") {
        assert Strip(line)[0] == '\"';
      }
      if OpensWith(line, "'''") {
        assert Strip(line)[0] == '\'';
      }
    }
    if quote :| OpensWith(line, quote) {
      assert Opens(line);
    }
  }

  lemma OneLineIff(line: string)
    requires Opens(line)
    ensures OneLine(line) <==> CompleteWith(line, Quote(line))
  {
    var s, q := Strip(line), Quote(line);
    assert s[..3] == q;
    EndsWithIff(s[3..], q);
    if OneLine(line) {
      var body :| s[3..] == body + q;
      CompleteBody(s, q, body);
    }
    if body :| body != "" && s == q + body + q {
      CompleteEnd(s, q, body);
    }
  }

  lemma CompleteBody(s: string, q: string, body: string)
    requires |q| == 3 && |s| > 6 && s[..3] == q && s[3..] == body + q
    ensures s == q + body + q && body != ""
  {
    assert s == s[..3] + s[3..];
  }

  lemma CompleteEnd(s: string, q: string, body: string)
    requires |q| == 3 && body != "" && s == q + body + q
    ensures s[3..] == body + q && |s| > 6
  {
    assert s == q + (body + q);
  }

  lemma ClosesIff(line: string, quote: string)
    ensures Closes(line, quote) <==> HasQuote(line, quote)
  {
    ContainsIff(Strip(line), quote);
  }

  /** The first of the first five lines that opens a docstring, and its quote. */
  ghost predicate StartsBlock(lines: seq<string>, first: nat, quote: string) {
    && first < |lines| && first < 5 && OpensWith(lines[first], quote)
    && forall i, q :: 0 <= i < first ==> !OpensWith(lines[i], q)
  }

  /** `last` is the least line after `first` that has the quote, or the last of the file when there is none. */
  ghost predicate EndsBlock(lines: seq<string>, first: nat, quote: string, last: nat) {
    || (&& first < last < |lines| && HasQuote(lines[last], quote)
        && forall i :: first < i < last ==> !HasQuote(lines[i], quote))
    || (last + 1 == |lines| && forall i :: first < i < |lines| ==> !HasQuote(lines[i], quote))
  }

  /**
   * The block of a file in terms of its strings: there is none when none of the first five lines opens a docstring;
   * otherwise it starts at the first that does, and ends there when the docstring is complete, and else at the next
   * line that has the quote anywhere, or at the end of the file.
   */
  lemma HeaderInStrings(lines: seq<string>, first: nat, quote: string, last: nat)
    requires StartsBlock(lines, first, quote)
    ensures HeaderOf(lines) == Header(first, last) <==>
            if CompleteWith(lines[first], quote) then last == first else EndsBlock(lines, first, quote, last)
  {
    HeaderOfIsHeader(lines);
    FirstInStrings(lines, first, quote);
    OneLineIff(lines[first]);
    forall i | 0 <= i < |lines|
      ensures Closes(lines[i], quote) <==> HasQuote(lines[i], quote)
    {
      ClosesIff(lines[i], quote);
    }
    if CompleteWith(lines[first], quote) {
      assert IsHeader(lines, Header(first, first));
    } else {
      EndInStrings(lines, first, quote, last);
    }
  }

  lemma FirstInStrings(lines: seq<string>, first: nat, quote: string)
    requires StartsBlock(lines, first, quote)
    ensures Opens(lines[first]) && Quote(lines[first]) == quote && forall i :: 0 <= i < first ==> !Opens(lines[i])
  {
    OpensIff(lines[first]);
    forall i | 0 <= i < first
      ensures !Opens(lines[i])
    {
      OpensIff(lines[i]);
    }
  }

  lemma EndInStrings(lines: seq<string>, first: nat, quote: string, last: nat)
    requires first < |lines| && first < 5 && Opens(lines[first]) && Quote(lines[first]) == quote
    requires !OneLine(lines[first]) && forall i :: 0 <= i < first ==> !Opens(lines[i])
    requires forall i :: 0 <= i < |lines| ==> (Closes(lines[i], quote) <==> HasQuote(lines[i], quote))
    ensures HeaderOf(lines) == Header(first, last) <==> EndsBlock(lines, first, quote, last)
  {
    HeaderOfIsHeader(lines);
    assert HeaderOf(lines) == Header(first, last) <==> IsHeader(lines, Header(first, last));
  }

  lemma NoHeaderInStrings(lines: seq<string>)
    ensures HeaderOf(lines) == NoHeader <==> forall i, q :: 0 <= i < |lines| && i < 5 ==> !OpensWith(lines[i], q)
  {
    HeaderOfIsHeader(lines);
    forall i | 0 <= i < |lines|
      ensures Opens(lines[i]) <==> exists q :: OpensWith(lines[i], q)
    {
      OpensIff(lines[i]);
    }
    assert HeaderOf(lines) == NoHeader <==> IsHeader(lines, NoHeader);
  }

  /** A quote behind a line of prose ends the block. */
  lemma ProseEndsBlock(lines: seq<string>, quote: string, prose: string)
    requires |lines| > 1 && OpensWith(lines[0], quote) && !CompleteWith(lines[0], quote)
    requires Strip(lines[1]) == prose + quote
    ensures HeaderOf(lines) == Header(0, 1)
  {
    assert StartsBlock(lines, 0, quote);
    assert prose + quote == prose + quote + "";
    assert HasQuote(lines[1], quote);
    HeaderInStrings(lines, 0, quote, 1);
  }

  /** The line after such a block is searched. */
  lemma ProseExample()
    ensures HeaderOf(["\"\"\"Doc", "more text.\"\"\"", "import foo"]) == Header(0, 1)
  {
    var a, b, q := "\"\"\"Doc", "more text.\"\"\"", "\"\"\"";
    StripUnchanged(a, IsSpace);
    StripUnchanged(b, IsSpace);
    assert a == q + "Doc" && b == "more text." + q;
    assert OpensWith(a, q);
    NotComplete(a, q);
    ProseEndsBlock([a, b, "import foo"], q, "more text.");
  }

  lemma NotComplete(line: string, quote: string)
    requires OpensWith(line, quote) && Strip(line) == line && line[|line| - 1] == 'c'
    ensures !CompleteWith(line, quote)
  {
    if body :| body != "" && Strip(line) == quote + body + quote {
      EndsWithIff(line, quote);
      EndsWithLast(line, quote);
    }
  }

  /** The line at `first` is where the block starts. */
  ghost predicate IsFirstOpening(lines: seq<string>, first: nat) {
    first < |lines| && first < 5 && Opens(lines[first]) && forall i :: 0 <= i < first ==> !Opens(lines[i])
  }

  /** The docstring that the line opens is closed on the same line. */
  predicate ClosesAgain(line: string) {
    Opens(line) && Contains(Strip(line)[3..], Quote(line))
  }

  /**
   * A docstring closed on its own line makes a block of that line alone exactly when nothing but white space follows
   * its quotes and there is something between them, or the file ends there.
   */
  lemma ClosedDocstringIff(lines: seq<string>, first: nat)
    requires IsFirstOpening(lines, first) && ClosesAgain(lines[first])
    ensures HeaderOf(lines) == Header(first, first) <==> OneLine(lines[first]) || first + 1 == |lines|
  {
    HeaderOfIsHeader(lines);
    var h := HeaderOf(lines);
    assert IsHeader(lines, h);
  }

  const EMPTY_DOCSTRING := "\"\"\"\"\"\""
  const DOCSTRING_WITH_NOTE := "\"\"\"doc\"\"\"  # note"

  lemma RunsOn(line: string, next: string)
    requires ClosesAgain(line) && !OneLine(line)
    ensures HeaderOf([line, next]) == Header(0, 1)
  {
    HeaderOfIsHeader([line, next]);
    assert IsHeader([line, next], Header(0, 1));
  }

  /** Six quotes: the next line is swallowed as well. */
  lemma EmptyDocstringRunsOn(next: string)
    ensures ClosesAgain(EMPTY_DOCSTRING) && HeaderOf([EMPTY_DOCSTRING, next]) == Header(0, 1)
  {
    var line := EMPTY_DOCSTRING;
    StripUnchanged(line, IsSpace);
    assert line[..3] == DOUBLE;
    assert OccursAt(line[3..], DOUBLE, 0);
    RunsOn(line, next);
  }

  /** A docstring with a comment behind it: the next line is swallowed as well. */
  lemma NotedDocstringRunsOn(next: string)
    ensures ClosesAgain(DOCSTRING_WITH_NOTE) && HeaderOf([DOCSTRING_WITH_NOTE, next]) == Header(0, 1)
  {
    var line := DOCSTRING_WITH_NOTE;
    StripUnchanged(line, IsSpace);
    assert line[..3] == DOUBLE;
    assert OccursAt(line[3..], DOUBLE, 3);
    NotClosedByE(line);
    RunsOn(line, next);
  }

  lemma NotClosedByE(line: string)
    requires Opens(line) && Strip(line) == line && |line| > 6 && line[|line| - 1] == 'e'
    ensures !OneLine(line)
  {
    if EndsWith(line[3..], Quote(line)) {
      EndsWithLast(line[3..], Quote(line));
    }
  }

  /** The kept lines with their numbers, counted from 1. */
  function KeptLines(lines: seq<string>, isMeta: string -> bool): seq<(nat, string)> {
    KeptUpTo(lines, |lines|, HeaderOf(lines), isMeta)
  }

  lemma {:induction false} KeptSameHeader(lines: seq<string>, n: nat, g: Header, h: Header, isMeta: string -> bool)
    requires n <= |lines| && forall i :: 0 <= i < n ==> (InHeader(g, i) <==> InHeader(h, i))
    ensures KeptUpTo(lines, n, g, isMeta) == KeptUpTo(lines, n, h, isMeta)
  {
    if n > 0 {
      KeptSameHeader(lines, n - 1, g, h, isMeta);
    }
  }

  lemma {:induction false} KeptUpToProperties(lines: seq<string>, n: nat, h: Header, isMeta: string -> bool)
    requires n <= |lines|
    ensures var kept := KeptUpTo(lines, n, h, isMeta);
      && (forall k :: 0 <= k < |kept| ==> 1 <= kept[k].0 <= n)
      && (forall j, k :: 0 <= j < k < |kept| ==> kept[j].0 < kept[k].0)
      && (forall i, line :: (i, line) in kept <==>
            1 <= i <= n && line == lines[i - 1] && !InHeader(h, i - 1) && !isMeta(line))
  {
    if n > 0 {
      KeptUpToProperties(lines, n - 1, h, isMeta);
    }
  }

  /** Kept lines are numbered in increasing order, and are exactly those outside the header and not metadata. */
  lemma KeptCharacterised(lines: seq<string>, isMeta: string -> bool)
    ensures var kept := KeptLines(lines, isMeta);
      && (forall j, k :: 0 <= j < k < |kept| ==> kept[j].0 < kept[k].0)
      && (forall i, line :: (i, line) in kept <==>
            1 <= i <= |lines| && line == lines[i - 1] && !InHeader(HeaderOf(lines), i - 1) && !isMeta(line))
  {
    KeptUpToProperties(lines, |lines|, HeaderOf(lines), isMeta);
  }

  /** The loop variables of `StripHeaderBlock`. */
  datatype Scan = Scan(inHeader: bool, headerDone: bool, quote: string, result: seq<(nat, string)>)

  /** What the loop variables mean after `n` lines: `h` is the header found so far, open to the end while inside it. */
  ghost predicate Progress(lines: seq<string>, n: nat, isMeta: string -> bool, s: Scan, h: Header)
    requires n <= |lines|
  {
    && s.result == KeptUpTo(lines, n, h, isMeta)
    && match h
       case NoHeader => !s.inHeader && !s.headerDone && forall i :: 0 <= i < n && i < 5 ==> !Opens(lines[i])
       case Header(first, last) =>
         && s.inHeader != s.headerDone
         && first < n && first < 5 && Opens(lines[first])
         && (forall i :: 0 <= i < first ==> !Opens(lines[i]))
         && if s.headerDone then last < n && IsHeader(lines, h) else
             && last + 1 == |lines| && !OneLine(lines[first]) && s.quote == Quote(lines[first])
             && forall i :: first < i < n ==> !Closes(lines[i], s.quote)
  }

  lemma ProgressOpen(lines: seq<string>, n: nat, isMeta: string -> bool, s: Scan)
    requires n < |lines| && n < 5 && Opens(lines[n])
    requires !s.inHeader && !s.headerDone && Progress(lines, n, isMeta, s, NoHeader)
    ensures OneLine(lines[n]) ==> Progress(lines, n + 1, isMeta, s.(headerDone := true), Header(n, n))
    ensures !OneLine(lines[n]) ==>
              Progress(lines, n + 1, isMeta, s.(inHeader := true, quote := Quote(lines[n])), Header(n, |lines| - 1))
  {
    KeptSameHeader(lines, n, NoHeader, Header(n, n), isMeta);
    KeptSameHeader(lines, n, NoHeader, Header(n, |lines| - 1), isMeta);
    KeptStep(lines, n, Header(n, n), isMeta);
    KeptStep(lines, n, Header(n, |lines| - 1), isMeta);
  }

  lemma ProgressInside(lines: seq<string>, n: nat, isMeta: string -> bool, s: Scan, h: Header)
    requires n < |lines| && s.inHeader && Progress(lines, n, isMeta, s, h)
    ensures !Closes(lines[n], s.quote) ==> Progress(lines, n + 1, isMeta, s, h)
    ensures Closes(lines[n], s.quote) ==>
              Progress(lines, n + 1, isMeta, s.(inHeader := false, headerDone := true), Header(h.first, n))
  {
    KeptSameHeader(lines, n, h, Header(h.first, n), isMeta);
    KeptStep(lines, n, h, isMeta);
    KeptStep(lines, n, Header(h.first, n), isMeta);
  }

  lemma ProgressOutside(lines: seq<string>, n: nat, isMeta: string -> bool, s: Scan, h: Header)
    requires n < |lines| && !s.inHeader && Progress(lines, n, isMeta, s, h)
    requires s.headerDone || n >= 5 || !Opens(lines[n])
    ensures isMeta(lines[n]) ==> Progress(lines, n + 1, isMeta, s, h)
    ensures !isMeta(lines[n]) ==> Progress(lines, n + 1, isMeta, s.(result := s.result + [(n + 1, lines[n])]), h)
  {
    KeptStep(lines, n, h, isMeta);
  }

  lemma ProgressDone(lines: seq<string>, isMeta: string -> bool, s: Scan, h: Header)
    requires Progress(lines, |lines|, isMeta, s, h)
    ensures s.result == KeptLines(lines, isMeta)
  {
    assert IsHeader(lines, h);
    HeaderOfIsHeader(lines);
  }

  method StripHeaderBlock(lines: seq<string>, isMeta: string -> bool) returns (result: seq<(nat, string)>)
    ensures result == KeptLines(lines, isMeta)
  {
    result := [];
    var inHeader, headerDone, quote := false, false, "";
    ghost var h := NoHeader;
    for index := 0 to |lines|
      invariant Progress(lines, index, isMeta, Scan(inHeader, headerDone, quote, result), h)
    {
      var number: nat, line := index + 1, lines[index];
      ghost var s := Scan(inHeader, headerDone, quote, result);
      if !headerDone && !inHeader && number <= 5 && Opens(line) {
        ProgressOpen(lines, index, isMeta, s);
        if OneLine(line) {
          headerDone, h := true, Header(index, index);
        } else {
          inHeader, quote, h := true, Quote(line), Header(index, |lines| - 1);
        }
        continue;
      }
      if inHeader {
        ProgressInside(lines, index, isMeta, s, h);
        if Closes(line, quote) {
          inHeader, headerDone, h := false, true, Header(h.first, index);
        }
        continue;
      }
      ProgressOutside(lines, index, isMeta, s, h);
      if isMeta(line) {
        continue;
      }
      result := result + [(number, line)];
    }
    ProgressDone(lines, isMeta, Scan(inHeader, headerDone, quote, result), h);
  }
}
