/** Finding a literal term in one line and telling exact from partial occurrences. */
module LineScan {
  import opened Model
  import opened Text

  /** Where a match starts and ends. */
  datatype Span = Span(start: nat, end: nat)

  /**
   * The classes of characters of the host language, case folding and `isalnum`, and its `finditer`
   * for a regular expression and a line.
   */
  datatype Alphabet = Alphabet(fold: char -> char, alnum: char -> bool, finditer: (string, string) -> seq<Span>)

  /** Regular-expression matches lie in the line; they may be empty. */
  ghost predicate ValidFinder(a: Alphabet) {
    forall pattern, line, span :: span in a.finditer(pattern, line) ==> span.start <= span.end <= |line|
  }

  /** What the proofs need to know of those classes. */
  ghost predicate ValidAlphabet(a: Alphabet) {
    && (forall c :: IsIdentifierChar(a, a.fold(c)) <==> IsIdentifierChar(a, c))
    && (forall c :: IsIdentifierChar(a, c) ==> !IsSpace(c))
    && a.alnum('0') && a.fold('0') != a.fold('_')
  }

  predicate IsIdentifierChar(a: Alphabet, c: char) { a.alnum(c) || c == '_' }

  predicate MatchesAt(a: Alphabet, line: string, term: string, p: nat) {
    p + |term| <= |line| && forall i | 0 <= i < |term| :: a.fold(line[p + i]) == a.fold(term[i])
  }

  predicate IsExactOccurrence(a: Alphabet, line: string, start: nat, end: nat)
    requires start <= end <= |line|
  {
    !(start > 0 && IsIdentifierChar(a, line[start - 1])) && !(end < |line| && IsIdentifierChar(a, line[end]))
  }

  /** The leftmost non-overlapping matches at or after `from`: the starts that `finditer` yields. */
  function Matches(a: Alphabet, line: string, term: string, from: nat): seq<nat>
    requires term != []
    decreases |line| - from
  {
    if from + |term| > |line| then []
    else if MatchesAt(a, line, term, from) then [from] + Matches(a, line, term, from + |term|)
    else Matches(a, line, term, from + 1)
  }

  method FindIter(a: Alphabet, line: string, term: string) returns (starts: seq<nat>)
    requires term != []
    ensures starts == Matches(a, line, term, 0)
  {
    starts := [];
    var from := 0;
    while from + |term| <= |line|
      invariant Matches(a, line, term, 0) == starts + Matches(a, line, term, from)
      decreases |line| - from
    {
      ScanStep(a, line, term, from, starts);
      if MatchesAt(a, line, term, from) {
        starts, from := starts + [from], from + |term|;
      } else {
        from := from + 1;
      }
    }
  }

  lemma {:induction false} MatchesSound(a: Alphabet, line: string, term: string, from: nat)
    requires term != []
    ensures forall m :: m in Matches(a, line, term, from) ==> from <= m && MatchesAt(a, line, term, m)
    decreases |line| - from
  {
    if from + |term| <= |line| {
      MatchesSound(a, line, term, if MatchesAt(a, line, term, from) then from + |term| else from + 1);
    }
  }

  lemma ScanStep(a: Alphabet, line: string, term: string, from: nat, starts: seq<nat>)
    requires term != [] && from + |term| <= |line|
    ensures starts + Matches(a, line, term, from) ==
            if MatchesAt(a, line, term, from) then starts + [from] + Matches(a, line, term, from + |term|)
            else starts + Matches(a, line, term, from + 1)
  {
    MatchesAfter(a, line, term, from);
  }

  lemma MatchesAfter(a: Alphabet, line: string, term: string, from: nat)
    requires term != [] && from + |term| <= |line|
    ensures Matches(a, line, term, from) ==
            if MatchesAt(a, line, term, from) then [from] + Matches(a, line, term, from + |term|)
            else Matches(a, line, term, from + 1)
  {}

  /** Every occurrence is reported or overlapped from the left by a reported one. */
  lemma {:induction false} MatchesCover(a: Alphabet, line: string, term: string, from: nat, p: nat) returns (m: nat)
    requires term != [] && from <= p && MatchesAt(a, line, term, p)
    ensures m in Matches(a, line, term, from) && m <= p < m + |term| && MatchesAt(a, line, term, m)
    decreases |line| - from
  {
    MatchesAfter(a, line, term, from);
    if MatchesAt(a, line, term, from) {
      if p < from + |term| {
        m := from;
        assert ([from] + Matches(a, line, term, from + |term|))[0] == m;
      } else {
        m := MatchesCover(a, line, term, from + |term|, p);
      }
    } else {
      assert p != from;
      m := MatchesCover(a, line, term, from + 1, p);
    }
  }

  /** Starts in order and without overlap, for a term of length `n`. */
  ghost predicate Spaced(starts: seq<nat>, n: nat) {
    forall j, k :: 0 <= j < k < |starts| ==> starts[j] + n <= starts[k]
  }

  ghost predicate Covered(n: nat, starts: seq<nat>, p: nat) {
    exists k :: 0 <= k < |starts| && starts[k] <= p < starts[k] + n
  }

  ghost predicate CoversAll(a: Alphabet, line: string, term: string, starts: seq<nat>) {
    forall p: nat :: MatchesAt(a, line, term, p) ==> Covered(|term|, starts, p)
  }

  /** Occurrences, in order and without overlap, that overlap every occurrence from the left. */
  ghost predicate IsScan(a: Alphabet, line: string, term: string, starts: seq<nat>) {
    && (forall k :: 0 <= k < |starts| ==> MatchesAt(a, line, term, starts[k]))
    && Spaced(starts, |term|) && CoversAll(a, line, term, starts)
  }

  lemma SpacedAfter(first: nat, starts: seq<nat>, n: nat)
    requires Spaced(starts, n) && forall m :: m in starts ==> first + n <= m
    ensures Spaced([first] + starts, n)
  {
    forall j, k | 0 <= j < k < |starts| + 1
      ensures ([first] + starts)[j] + n <= ([first] + starts)[k]
    {
      assert starts[k - 1] in starts;
    }
  }

  lemma {:induction false} MatchesSpaced(a: Alphabet, line: string, term: string, from: nat)
    requires term != []
    ensures Spaced(Matches(a, line, term, from), |term|)
    decreases |line| - from
  {
    if from + |term| <= |line| {
      var next := if MatchesAt(a, line, term, from) then from + |term| else from + 1;
      MatchesSpaced(a, line, term, next);
      MatchesSound(a, line, term, next);
      if MatchesAt(a, line, term, from) {
        SpacedAfter(from, Matches(a, line, term, next), |term|);
      }
    }
  }

  /** Every start of `s` is overlapped from the left by a start of `t`. */
  ghost predicate Overlapped(s: seq<nat>, t: seq<nat>, n: nat) {
    Spaced(s, n) && forall i {:trigger Covered(n, t, s[i])} :: 0 <= i < |s| ==> Covered(n, t, s[i])
  }

  /** A start that follows common ones is overlapped by the next of the other scan. */
  lemma NextStart(s: seq<nat>, t: seq<nat>, i: nat, n: nat)
    requires Spaced(s, n) && Spaced(t, n) && i < |s| && i <= |t| && Covered(n, t, s[i])
    requires forall k :: 0 <= k < i ==> s[k] == t[k]
    ensures i < |t| && t[i] <= s[i]
  {
    var k :| 0 <= k < |t| && t[k] <= s[i] < t[k] + n;
    if i < k {
      assert t[i] + n <= t[k];
    }
  }

  /** Two scans agree up to any position. */
  lemma {:induction false} ScansAgree(s: seq<nat>, t: seq<nat>, i: nat, n: nat)
    requires Overlapped(s, t, n) && Overlapped(t, s, n) && i <= |s|
    ensures i <= |t| && forall k :: 0 <= k < i ==> s[k] == t[k]
  {
    if i > 0 {
      ScansAgree(s, t, i - 1, n);
      assert Covered(n, t, s[i - 1]);
      NextStart(s, t, i - 1, n);
      assert Covered(n, s, t[i - 1]);
      NextStart(t, s, i - 1, n);
    }
  }

  lemma ScansOverlap(a: Alphabet, line: string, term: string, s: seq<nat>, t: seq<nat>)
    requires IsScan(a, line, term, s) && IsScan(a, line, term, t)
    ensures Overlapped(s, t, |term|)
  {
    forall i | 0 <= i < |s|
      ensures Covered(|term|, t, s[i])
    {
      assert MatchesAt(a, line, term, s[i]);
    }
  }

  lemma MatchesAreScan(a: Alphabet, line: string, term: string)
    requires term != []
    ensures IsScan(a, line, term, Matches(a, line, term, 0))
  {
    var found := Matches(a, line, term, 0);
    MatchesSound(a, line, term, 0);
    MatchesSpaced(a, line, term, 0);
    forall p: nat | MatchesAt(a, line, term, p)
      ensures Covered(|term|, found, p)
    {
      var m := MatchesCover(a, line, term, 0, p);
      var k :| 0 <= k < |found| && found[k] == m;
    }
    assert CoversAll(a, line, term, found);
  }

  /** The yielded starts are the only scan of the line. */
  lemma MatchesOnlyScan(a: Alphabet, line: string, term: string, starts: seq<nat>)
    requires term != []
    ensures IsScan(a, line, term, starts) <==> starts == Matches(a, line, term, 0)
  {
    var found := Matches(a, line, term, 0);
    MatchesAreScan(a, line, term);
    if IsScan(a, line, term, starts) {
      ScansOverlap(a, line, term, starts, found);
      ScansOverlap(a, line, term, found, starts);
      ScansAgree(starts, found, |starts|, |term|);
      ScansAgree(found, starts, |found|, |term|);
    }
  }

  // ---------- the token around a match ----------

  function RunStart(a: Alphabet, line: string, start: nat): (i: nat)
    requires start <= |line|
    ensures i <= start
  {
    if start > 0 && IsIdentifierChar(a, line[start - 1]) then RunStart(a, line, start - 1) else start
  }

  function RunEnd(a: Alphabet, line: string, end: nat): (j: nat)
    requires end <= |line|
    ensures end <= j <= |line|
    decreases |line| - end
  {
    if end < |line| && IsIdentifierChar(a, line[end]) then RunEnd(a, line, end + 1) else end
  }

  function Token(a: Alphabet, line: string, start: nat, end: nat): string
    requires start <= end <= |line|
  {
    Strip(line[RunStart(a, line, start)..RunEnd(a, line, end)])
  }

  method SurroundingToken(a: Alphabet, line: string, start: nat, end: nat) returns (token: string)
    requires start <= end <= |line|
    ensures token == Token(a, line, start, end)
  {
    var i: nat, j: nat := start, end;
    while i > 0 && IsIdentifierChar(a, line[i - 1])
      invariant i <= start && RunStart(a, line, i) == RunStart(a, line, start)
    {
      i := i - 1;
    }
    while j < |line| && IsIdentifierChar(a, line[j])
      invariant end <= j <= |line| && RunEnd(a, line, j) == RunEnd(a, line, end)
    {
      j := j + 1;
    }
    token := Strip(line[i..j]);
  }

  // ---------- what is reported for one line ----------

  predicate ExactAt(a: Alphabet, line: string, term: string, m: nat) {
    m + |term| <= |line| && IsExactOccurrence(a, line, m, m + |term|)
  }

  function TokenAt(a: Alphabet, line: string, term: string, m: nat): string {
    if m + |term| <= |line| then Token(a, line, m, m + |term|) else []
  }

  ghost predicate SomeExact(a: Alphabet, line: string, term: string, starts: seq<nat>) {
    exists m :: m in starts && ExactAt(a, line, term, m)
  }

  ghost predicate SomePartial(a: Alphabet, line: string, term: string, starts: seq<nat>) {
    exists m :: m in starts && !ExactAt(a, line, term, m)
  }

  ghost function PartialTokens(a: Alphabet, line: string, term: string, starts: seq<nat>): set<string> {
    set m | m in starts && !ExactAt(a, line, term, m) && TokenAt(a, line, term, m) != [] :: TokenAt(a, line, term, m)
  }

  ghost predicate ExactReported(a: Alphabet, line: string, term: string)
    requires term != []
  {
    SomeExact(a, line, term, Matches(a, line, term, 0))
  }

  ghost predicate PartialReported(a: Alphabet, line: string, term: string)
    requires term != []
  {
    SomePartial(a, line, term, Matches(a, line, term, 0))
  }

  ghost function TokensReported(a: Alphabet, line: string, term: string): set<string>
    requires term != []
  {
    PartialTokens(a, line, term, Matches(a, line, term, 0))
  }

  // ---------- terms of either mode ----------

  /** What the innermost loop reports for one line and one term. */
  datatype Hit = Hit(exact: bool, partial: bool, tokens: set<string>) {
    predicate Reported() { exact || partial }
  }

  predicate IsExactSpan(a: Alphabet, line: string, s: Span) {
    s.start < s.end <= |line| && IsExactOccurrence(a, line, s.start, s.end)
  }

  predicate IsPartialSpan(a: Alphabet, line: string, s: Span) {
    s.start < s.end <= |line| && !IsExactOccurrence(a, line, s.start, s.end)
  }

  function SpanToken(a: Alphabet, line: string, s: Span): string {
    if s.start <= s.end <= |line| then Token(a, line, s.start, s.end) else []
  }

  /** What a set of matches stands for; empty matches stand for nothing. */
  ghost function HitOf(a: Alphabet, line: string, spans: seq<Span>): Hit {
    Hit(exists s :: s in spans && IsExactSpan(a, line, s),
        exists s :: s in spans && IsPartialSpan(a, line, s),
        set s | s in spans && IsPartialSpan(a, line, s) && SpanToken(a, line, s) != [] :: SpanToken(a, line, s))
  }

  function LiteralSpans(starts: seq<nat>, n: nat): seq<Span> {
    seq(|starts|, k requires 0 <= k < |starts| => Span(starts[k], starts[k] + n))
  }

  /** The matches of a term in a line. An empty literal has only empty matches, which count for nothing. */
  function SpansOf(a: Alphabet, line: string, term: SearchTerm): seq<Span> {
    if term.mode == Regex then a.finditer(term.value, line)
    else if term.value == [] then []
    else LiteralSpans(Matches(a, line, term.value, 0), |term.value|)
  }

  ghost function LineHit(a: Alphabet, line: string, term: SearchTerm): Hit {
    HitOf(a, line, SpansOf(a, line, term))
  }

  method FindSpans(a: Alphabet, line: string, term: SearchTerm) returns (spans: seq<Span>)
    requires ValidFinder(a)
    ensures spans == SpansOf(a, line, term)
    ensures forall s :: s in spans ==> s.start <= s.end <= |line|
  {
    if term.mode == Regex {
      spans := a.finditer(term.value, line);
    } else if term.value == [] {
      spans := [];
    } else {
      var starts := FindIter(a, line, term.value);
      MatchesSound(a, line, term.value, 0);
      spans := LiteralSpans(starts, |term.value|);
      forall k | 0 <= k < |spans|
        ensures spans[k].end <= |line|
      {
        assert starts[k] in starts;
      }
    }
  }

  lemma OneMoreSpan(a: Alphabet, line: string, spans: seq<Span>, s: Span)
    ensures var before, after := HitOf(a, line, spans), HitOf(a, line, spans + [s]);
      && after.exact == (before.exact || IsExactSpan(a, line, s))
      && after.partial == (before.partial || IsPartialSpan(a, line, s))
      && after.tokens == before.tokens +
           if IsPartialSpan(a, line, s) && SpanToken(a, line, s) != [] then {SpanToken(a, line, s)} else {}
  {
    assert forall x :: x in spans + [s] <==> x in spans || x == s;
  }

  /** The body of the innermost loop: an empty match is passed over, any other is classified. */
  method ClassifyMatch(a: Alphabet, line: string, s: Span, before: Hit) returns (hit: Hit)
    requires s.start <= s.end <= |line|
    ensures hit.exact == (before.exact || IsExactSpan(a, line, s))
    ensures hit.partial == (before.partial || IsPartialSpan(a, line, s))
    ensures hit.tokens == before.tokens +
              if IsPartialSpan(a, line, s) && SpanToken(a, line, s) != [] then {SpanToken(a, line, s)} else {}
  {
    hit := before;
    if s.start == s.end {
      return;
    }
    if IsExactOccurrence(a, line, s.start, s.end) {
      hit := hit.(exact := true);
    } else {
      hit := hit.(partial := true);
      var token := SurroundingToken(a, line, s.start, s.end);
      if token != "" {
        hit := hit.(tokens := hit.tokens + {token});
      }
    }
  }

  /** The innermost loop of `search_text`. */
  method SearchLine(a: Alphabet, line: string, term: SearchTerm) returns (hit: Hit)
    requires ValidFinder(a)
    ensures hit == LineHit(a, line, term)
  {
    hit := Hit(false, false, {});
    var spans := FindSpans(a, line, term);
    for k := 0 to |spans|
      invariant hit == HitOf(a, line, spans[..k])
    {
      assert spans[k] in spans;
      assert spans[..k + 1] == spans[..k] + [spans[k]];
      OneMoreSpan(a, line, spans[..k], spans[k]);
      hit := ClassifyMatch(a, line, spans[k], hit);
    }
    assert spans[..|spans|] == spans;
  }

  /** A line is reported for a regular expression exactly when the expression has a nonempty match in it. */
  lemma RegexReportedIffMatches(a: Alphabet, line: string, pattern: string)
    requires ValidFinder(a)
    ensures LineHit(a, line, SearchTerm(pattern, Regex)).Reported() <==>
            exists s :: s in a.finditer(pattern, line) && s.start < s.end
  {
    forall s | s in a.finditer(pattern, line) && s.start < s.end
      ensures IsExactSpan(a, line, s) || IsPartialSpan(a, line, s)
    {}
  }

  lemma LiteralSpanIn(starts: seq<nat>, n: nat, s: Span)
    ensures s in LiteralSpans(starts, n) <==> s.start in starts && s.end == s.start + n
  {
    if s.start in starts && s.end == s.start + n {
      var k :| 0 <= k < |starts| && starts[k] == s.start;
      assert LiteralSpans(starts, n)[k] == s;
    }
  }

  /** One match of a literal, seen as a span and as a start. */
  lemma LiteralMatch(a: Alphabet, line: string, term: string, m: nat)
    requires term != [] && m + |term| <= |line|
    ensures var s := Span(m, m + |term|);
      && (ExactAt(a, line, term, m) <==> IsExactSpan(a, line, s))
      && (!ExactAt(a, line, term, m) <==> IsPartialSpan(a, line, s))
      && TokenAt(a, line, term, m) == SpanToken(a, line, s)
  {}

  /** For a literal, the report is decided by the occurrences that the scan yields. */
  lemma LiteralHit(a: Alphabet, line: string, term: string)
    requires term != []
    ensures LineHit(a, line, SearchTerm(term, Literal)) ==
            Hit(ExactReported(a, line, term), PartialReported(a, line, term), TokensReported(a, line, term))
  {
    LiteralFlags(a, line, term);
    LiteralTokens(a, line, term);
  }

  lemma LiteralFlags(a: Alphabet, line: string, term: string)
    requires term != []
    ensures var hit := HitOf(a, line, LiteralSpans(Matches(a, line, term, 0), |term|));
      (hit.exact <==> ExactReported(a, line, term)) && (hit.partial <==> PartialReported(a, line, term))
  {
    var starts, n := Matches(a, line, term, 0), |term|;
    var spans := LiteralSpans(starts, n);
    MatchesSound(a, line, term, 0);
    forall m | m in starts
      ensures Span(m, m + n) in spans
      ensures ExactAt(a, line, term, m) <==> IsExactSpan(a, line, Span(m, m + n))
      ensures !ExactAt(a, line, term, m) <==> IsPartialSpan(a, line, Span(m, m + n))
    {
      LiteralSpanIn(starts, n, Span(m, m + n));
      LiteralMatch(a, line, term, m);
    }
    forall s | s in spans
      ensures s.start in starts && s == Span(s.start, s.start + n)
    {
      LiteralSpanIn(starts, n, s);
    }
  }

  ghost predicate IsSpanToken(a: Alphabet, line: string, spans: seq<Span>, s: Span, token: string) {
    s in spans && IsPartialSpan(a, line, s) && SpanToken(a, line, s) == token && token != []
  }

  ghost predicate IsStartToken(a: Alphabet, line: string, term: string, starts: seq<nat>, m: nat, token: string) {
    m in starts && !ExactAt(a, line, term, m) && TokenAt(a, line, term, m) == token && token != []
  }

  lemma SameToken(a: Alphabet, line: string, term: string, m: nat, token: string)
    requires term != []
    ensures var starts := Matches(a, line, term, 0);
      IsSpanToken(a, line, LiteralSpans(starts, |term|), Span(m, m + |term|), token) <==>
      IsStartToken(a, line, term, starts, m, token)
  {
    MatchesSound(a, line, term, 0);
    LiteralSpanIn(Matches(a, line, term, 0), |term|, Span(m, m + |term|));
    if m in Matches(a, line, term, 0) {
      LiteralMatch(a, line, term, m);
    }
  }

  lemma SpanTokenReported(a: Alphabet, line: string, term: string, token: string)
    requires term != [] && token in HitOf(a, line, LiteralSpans(Matches(a, line, term, 0), |term|)).tokens
    ensures token in TokensReported(a, line, term)
  {
    var starts, n := Matches(a, line, term, 0), |term|;
    var s := SpanOfToken(a, line, LiteralSpans(starts, n), token);
    LiteralSpanIn(starts, n, s);
    SameToken(a, line, term, s.start, token);
    assert IsStartToken(a, line, term, starts, s.start, token);
  }

  lemma SpanOfToken(a: Alphabet, line: string, spans: seq<Span>, token: string) returns (s: Span)
    requires token in HitOf(a, line, spans).tokens
    ensures IsSpanToken(a, line, spans, s, token)
  {
    s :| s in spans && IsPartialSpan(a, line, s) && SpanToken(a, line, s) == token && token != [];
  }

  lemma StartTokenReported(a: Alphabet, line: string, term: string, token: string)
    requires term != [] && token in TokensReported(a, line, term)
    ensures token in HitOf(a, line, LiteralSpans(Matches(a, line, term, 0), |term|)).tokens
  {
    var starts, n := Matches(a, line, term, 0), |term|;
    var m := StartOfToken(a, line, term, token);
    SameToken(a, line, term, m, token);
    SpanTokenIn(a, line, LiteralSpans(starts, n), Span(m, m + n), token);
  }

  lemma StartOfToken(a: Alphabet, line: string, term: string, token: string) returns (m: nat)
    requires term != [] && token in TokensReported(a, line, term)
    ensures IsStartToken(a, line, term, Matches(a, line, term, 0), m, token)
  {
    m :| m in Matches(a, line, term, 0) && !ExactAt(a, line, term, m) && TokenAt(a, line, term, m) == token &&
        token != [];
  }

  lemma SpanTokenIn(a: Alphabet, line: string, spans: seq<Span>, s: Span, token: string)
    requires IsSpanToken(a, line, spans, s, token)
    ensures token in HitOf(a, line, spans).tokens
  {}

  lemma LiteralTokens(a: Alphabet, line: string, term: string)
    requires term != []
    ensures HitOf(a, line, LiteralSpans(Matches(a, line, term, 0), |term|)).tokens == TokensReported(a, line, term)
  {
    var found, reported := HitOf(a, line, LiteralSpans(Matches(a, line, term, 0), |term|)).tokens,
        TokensReported(a, line, term);
    forall token | token in found
      ensures token in reported
    {
      SpanTokenReported(a, line, term, token);
    }
    forall token | token in reported
      ensures token in found
    {
      StartTokenReported(a, line, term, token);
    }
  }

  ghost predicate Occurs(a: Alphabet, line: string, term: string) {
    exists p: nat :: MatchesAt(a, line, term, p)
  }

  /** For any nonempty literal, a line is reported at all exactly when the term occurs in it. */
  lemma ReportedIffOccurs(a: Alphabet, line: string, term: string)
    requires term != []
    ensures ExactReported(a, line, term) || PartialReported(a, line, term) <==> Occurs(a, line, term)
  {
    MatchesSound(a, line, term, 0);
    if p: nat :| MatchesAt(a, line, term, p) {
      var m := MatchesCover(a, line, term, 0, p);
    }
  }

  /** Ignoring case: the folded line contains the folded term. */
  lemma ReportedIffContained(a: Alphabet, line: string, term: string)
    requires term != []
    ensures ExactReported(a, line, term) || PartialReported(a, line, term) <==>
            Contains(Fold(line, a.fold), Fold(term, a.fold))
  {
    ReportedIffOccurs(a, line, term);
    var s, t := Fold(line, a.fold), Fold(term, a.fold);
    if p: nat :| MatchesAt(a, line, term, p) {
      assert s[p..p + |t|] == t;
      assert OccursAt(s, t, p);
    }
    if p :| 0 <= p <= |s| && OccursAt(s, t, p) {
      assert forall i | 0 <= i < |term| :: s[p + i] == s[p..p + |t|][i] == t[i];
      assert MatchesAt(a, line, term, p);
    }
  }

  // ---------- identifier terms: the tokeniser specification ----------

  predicate IdentifierOnly(a: Alphabet, s: string) { forall i :: 0 <= i < |s| ==> IsIdentifierChar(a, s[i]) }

  /** `line[i..j]` is a maximal run of identifier characters. */
  predicate IsRun(a: Alphabet, line: string, i: nat, j: nat) {
    && i < j <= |line|
    && (forall k :: i <= k < j ==> IsIdentifierChar(a, line[k]))
    && (i > 0 ==> !IsIdentifierChar(a, line[i - 1]))
    && (j < |line| ==> !IsIdentifierChar(a, line[j]))
  }

  predicate EqualIgnoringCase(a: Alphabet, s: string, t: string) { |s| == |t| && MatchesAt(a, s, t, 0) }

  predicate ContainsIgnoringCase(a: Alphabet, s: string, t: string) {
    exists p: nat | p <= |s| :: MatchesAt(a, s, t, p)
  }

  predicate ExactRun(a: Alphabet, line: string, term: string, i: nat, j: nat) {
    IsRun(a, line, i, j) && EqualIgnoringCase(a, line[i..j], term)
  }

  predicate LongerRun(a: Alphabet, line: string, term: string, i: nat, j: nat) {
    IsRun(a, line, i, j) && |term| < j - i && ContainsIgnoringCase(a, line[i..j], term)
  }

  lemma {:induction false} RunStartIdentifiers(a: Alphabet, line: string, start: nat)
    requires start <= |line|
    ensures var i := RunStart(a, line, start);
      && (forall k :: i <= k < start ==> IsIdentifierChar(a, line[k]))
      && (i > 0 ==> !IsIdentifierChar(a, line[i - 1]))
  {
    if start > 0 && IsIdentifierChar(a, line[start - 1]) {
      RunStartIdentifiers(a, line, start - 1);
    }
  }

  lemma {:induction false} RunEndIdentifiers(a: Alphabet, line: string, end: nat)
    requires end <= |line|
    ensures var j := RunEnd(a, line, end);
      && (forall k :: end <= k < j ==> IsIdentifierChar(a, line[k]))
      && (j < |line| ==> !IsIdentifierChar(a, line[j]))
    decreases |line| - end
  {
    if end < |line| && IsIdentifierChar(a, line[end]) {
      RunEndIdentifiers(a, line, end + 1);
    }
  }

  lemma MatchIsIdentifiers(a: Alphabet, line: string, term: string, m: nat)
    requires ValidAlphabet(a) && IdentifierOnly(a, term) && MatchesAt(a, line, term, m)
    ensures forall k :: m <= k < m + |term| ==> IsIdentifierChar(a, line[k])
  {
    forall k | m <= k < m + |term|
      ensures IsIdentifierChar(a, line[k])
    {
      assert a.fold(line[m + (k - m)]) == a.fold(term[k - m]);
    }
  }

  /** Around a match of an identifier term lies one run, and it decides how the match is classified. */
  lemma RunAround(a: Alphabet, line: string, term: string, m: nat) returns (i: nat, j: nat)
    requires ValidAlphabet(a) && term != [] && IdentifierOnly(a, term) && MatchesAt(a, line, term, m)
    ensures i == RunStart(a, line, m) && j == RunEnd(a, line, m + |term|)
    ensures i <= m && m + |term| <= j && IsRun(a, line, i, j)
    ensures ExactAt(a, line, term, m) <==> j - i == |term|
    ensures TokenAt(a, line, term, m) == line[i..j]
    ensures MatchesAt(a, line[i..j], term, m - i)
  {
    i, j := RunStart(a, line, m), RunEnd(a, line, m + |term|);
    RunStartIdentifiers(a, line, m);
    RunEndIdentifiers(a, line, m + |term|);
    MatchIsIdentifiers(a, line, term, m);
    assert IsRun(a, line, i, j);
    StripUnchanged(line[i..j], IsSpace);
    MatchInSlice(a, line, term, i, j, m - i);
  }

  /** Two runs that share a position are the same run. */
  lemma RunsDisjoint(a: Alphabet, line: string, i: nat, j: nat, i': nat, j': nat, k: nat)
    requires IsRun(a, line, i, j) && IsRun(a, line, i', j')
    requires i <= k < j && i' <= k < j'
    ensures i == i' && j == j'
  {}

  lemma MatchInSlice(a: Alphabet, line: string, term: string, i: nat, j: nat, p: nat)
    requires i <= j <= |line|
    ensures MatchesAt(a, line[i..j], term, p) <==> i + p + |term| <= j && MatchesAt(a, line, term, i + p)
  {
    assert forall x :: 0 <= x < j - i ==> line[i..j][x] == line[i + x];
  }

  /** A run that contains the term holds a reported match, and every reported match near it lies in that run. */
  lemma RunHoldsMatch(a: Alphabet, line: string, term: string, i: nat, j: nat) returns (m: nat)
    requires ValidAlphabet(a) && term != [] && IdentifierOnly(a, term)
    requires IsRun(a, line, i, j) && ContainsIgnoringCase(a, line[i..j], term)
    ensures m in Matches(a, line, term, 0)
    ensures MatchesAt(a, line, term, m) && RunStart(a, line, m) == i && RunEnd(a, line, m + |term|) == j
  {
    var p: nat :| p <= j - i && MatchesAt(a, line[i..j], term, p);
    MatchInSlice(a, line, term, i, j, p);
    m := MatchesCover(a, line, term, 0, i + p);
    var i', j' := RunAround(a, line, term, m);
    RunsDisjoint(a, line, i, j, i', j', i + p);
  }

  /** The scan computes the tokeniser specification, for terms made only of identifier characters. */
  lemma IdentifierTermExact(a: Alphabet, line: string, term: string)
    requires ValidAlphabet(a) && term != [] && IdentifierOnly(a, term)
    ensures ExactReported(a, line, term) <==> exists i: nat, j: nat :: ExactRun(a, line, term, i, j)
  {
    MatchesSound(a, line, term, 0);
    if m :| m in Matches(a, line, term, 0) && ExactAt(a, line, term, m) {
      var i, j := RunAround(a, line, term, m);
      assert ExactRun(a, line, term, i, j);
    }
    if i: nat, j: nat :| ExactRun(a, line, term, i, j) {
      var m := RunHoldsMatch(a, line, term, i, j);
      var _, _ := RunAround(a, line, term, m);
    }
  }

  /** With one character behind it, a term is exact when that is neither alphanumeric nor an underscore. */
  lemma NextCharacterDecides(a: Alphabet, term: string, c: char)
    requires ValidAlphabet(a) && term != [] && IdentifierOnly(a, term)
    ensures ExactReported(a, term + [c], term) <==> !a.alnum(c) && c != '_'
  {
    var line, n := term + [c], |term|;
    IdentifierTermExact(a, line, term);
    assert line[..n] == term && line[n] == c;
    if !a.alnum(c) && c != '_' {
      assert IsRun(a, line, 0, n);
      assert EqualIgnoringCase(a, line[0..n], term);
      assert ExactRun(a, line, term, 0, n);
    }
    assert IsIdentifierChar(a, line[0]);
    if i: nat, j: nat :| ExactRun(a, line, term, i, j) {
      assert i == 0 && j == n;
    }
  }

  /** A match not reported as exact stands for the longer run around it. */
  lemma LongerRunOf(a: Alphabet, line: string, term: string, m: nat) returns (i: nat, j: nat)
    requires ValidAlphabet(a) && term != [] && IdentifierOnly(a, term)
    requires m in Matches(a, line, term, 0) && !ExactAt(a, line, term, m)
    ensures LongerRun(a, line, term, i, j) && TokenAt(a, line, term, m) == line[i..j]
  {
    MatchesSound(a, line, term, 0);
    i, j := RunAround(a, line, term, m);
  }

  /** Every longer run around the term is reported by some match. */
  lemma LongerRunReported(a: Alphabet, line: string, term: string, i: nat, j: nat) returns (m: nat)
    requires ValidAlphabet(a) && term != [] && IdentifierOnly(a, term) && LongerRun(a, line, term, i, j)
    ensures m in Matches(a, line, term, 0) && !ExactAt(a, line, term, m) &&
              TokenAt(a, line, term, m) == line[i..j] != []
  {
    m := RunHoldsMatch(a, line, term, i, j);
    var _, _ := RunAround(a, line, term, m);
  }

  lemma IdentifierTermPartial(a: Alphabet, line: string, term: string)
    requires ValidAlphabet(a) && term != [] && IdentifierOnly(a, term)
    ensures PartialReported(a, line, term) <==> exists i: nat, j: nat :: LongerRun(a, line, term, i, j)
    ensures forall token :: token in TokensReported(a, line, term) <==>
              exists i: nat, j: nat :: LongerRun(a, line, term, i, j) && token == line[i..j]
  {
    forall m | m in Matches(a, line, term, 0) && !ExactAt(a, line, term, m)
      ensures exists i: nat, j: nat :: LongerRun(a, line, term, i, j) && TokenAt(a, line, term, m) == line[i..j]
    {
      var i, j := LongerRunOf(a, line, term, m);
    }
    forall i: nat, j: nat | LongerRun(a, line, term, i, j)
      ensures exists m :: m in Matches(a, line, term, 0) && !ExactAt(a, line, term, m) &&
                TokenAt(a, line, term, m) == line[i..j] != []
    {
      var m := LongerRunReported(a, line, term, i, j);
    }
  }

  // ---------- other terms: exactly when exact occurrences can be missed ----------

  /** Some occurrence of the term with no identifier character right before or after it stands in the line. */
  ghost predicate HasExactOccurrence(a: Alphabet, line: string, term: string) {
    exists p: nat :: MatchesAt(a, line, term, p) && ExactAt(a, line, term, p)
  }

  /** The term overlaps itself after `d` characters, the last of which is no identifier character. */
  predicate ShadowsAfter(a: Alphabet, term: string, d: nat) {
    && 0 < d < |term|
    && !IsIdentifierChar(a, term[d - 1])
    && forall i | 0 <= i < |term| - d :: a.fold(term[d + i]) == a.fold(term[i])
  }

  ghost predicate SelfShadowing(a: Alphabet, term: string) {
    exists d: nat :: ShadowsAfter(a, term, d)
  }

  lemma MissedMeansShadowed(a: Alphabet, line: string, term: string)
    requires ValidAlphabet(a) && term != []
    requires HasExactOccurrence(a, line, term) && !ExactReported(a, line, term)
    ensures SelfShadowing(a, term)
  {
    var p: nat :| MatchesAt(a, line, term, p) && ExactAt(a, line, term, p);
    var m := MatchesCover(a, line, term, 0, p);
    var d := p - m;
    assert d > 0;
    assert a.fold(line[m + (d - 1)]) == a.fold(term[d - 1]);
    forall i | 0 <= i < |term| - d
      ensures a.fold(term[d + i]) == a.fold(term[i])
    {
      assert a.fold(line[m + (d + i)]) == a.fold(term[d + i]);
      assert a.fold(line[p + i]) == a.fold(term[i]);
    }
    assert ShadowsAfter(a, term, d);
  }

  /** A line on which a self-shadowing term is missed: one identifier character, the term, and its overlapping copy. */
  function MissedLine(a: Alphabet, term: string, d: nat): string
    requires ShadowsAfter(a, term, d)
  {
    [if a.fold(term[0]) == a.fold('0') then '_' else '0'] + term + term[|term| - d..]
  }

  lemma MissedLineShape(a: Alphabet, term: string, d: nat)
    requires ShadowsAfter(a, term, d)
    ensures var line := MissedLine(a, term, d);
      && |line| == 1 + |term| + d && (a.alnum('0') ==> IsIdentifierChar(a, line[0]))
      && (forall i :: 1 <= i <= |term| ==> line[i] == term[i - 1])
      && (forall i :: |term| < i < 1 + |term| + d ==> line[i] == term[i - 1 - d])
  {}

  lemma MissedLineMatches(a: Alphabet, term: string, d: nat)
    requires ValidAlphabet(a) && ShadowsAfter(a, term, d)
    ensures var line := MissedLine(a, term, d);
      !MatchesAt(a, line, term, 0) && MatchesAt(a, line, term, 1) && MatchesAt(a, line, term, 1 + d)
  {
    var line := MissedLine(a, term, d);
    MissedLineShape(a, term, d);
    forall i | 0 <= i < |term|
      ensures a.fold(line[1 + d + i]) == a.fold(term[i])
    {
      if d + i < |term| {
        assert a.fold(term[d + i]) == a.fold(term[i]);
      }
    }
    assert a.fold(line[0 + 0]) != a.fold(term[0]);
  }

  lemma ShadowedMeansMissed(a: Alphabet, term: string, d: nat)
    requires ValidAlphabet(a) && ShadowsAfter(a, term, d)
    ensures HasExactOccurrence(a, MissedLine(a, term, d), term)
    ensures !ExactReported(a, MissedLine(a, term, d), term)
    ensures PartialReported(a, MissedLine(a, term, d), term)
  {
    var line, n := MissedLine(a, term, d), |term|;
    MissedLineShape(a, term, d);
    MissedLineMatches(a, term, d);
    OnlyMatch(a, line, term);
    assert ExactAt(a, line, term, 1 + d);
  }

  lemma OnlyMatch(a: Alphabet, line: string, term: string)
    requires term != [] && |line| < 1 + 2 * |term| && !MatchesAt(a, line, term, 0) && MatchesAt(a, line, term, 1)
    requires IsIdentifierChar(a, line[0])
    ensures !ExactReported(a, line, term) && PartialReported(a, line, term)
  {
    assert Matches(a, line, term, 1 + |term|) == [];
    assert Matches(a, line, term, 1) == [1];
    assert Matches(a, line, term, 0) == [1];
    assert 1 in Matches(a, line, term, 0);
  }

  /** A term is reported exact on every line that has an exact occurrence, iff it does not shadow itself. */
  lemma ExactIffNotShadowing(a: Alphabet, term: string)
    requires ValidAlphabet(a) && term != []
    ensures (forall line :: ExactReported(a, line, term) <==> HasExactOccurrence(a, line, term)) <==>
            !SelfShadowing(a, term)
  {
    forall line | ExactReported(a, line, term)
      ensures HasExactOccurrence(a, line, term)
    {
      MatchesSound(a, line, term, 0);
    }
    if d: nat :| ShadowsAfter(a, term, d) {
      ShadowedMeansMissed(a, term, d);
      var line := MissedLine(a, term, d);
      assert !(ExactReported(a, line, term) <==> HasExactOccurrence(a, line, term));
    } else {
      forall line | HasExactOccurrence(a, line, term)
        ensures ExactReported(a, line, term)
      {
        if !ExactReported(a, line, term) {
          MissedMeansShadowed(a, line, term);
        }
      }
    }
  }

  /** The documentation calls a stand-alone `x.x` exact; on the line `bx.x.x` it is reported partial only. */
  lemma MissedExample(a: Alphabet)
    requires ValidAlphabet(a) && a.alnum('b') && !a.alnum('.') && a.fold('b') != a.fold('x')
    ensures SelfShadowing(a, "x.x")
    ensures HasExactOccurrence(a, "bx.x.x", "x.x")
    ensures !ExactReported(a, "bx.x.x", "x.x") && PartialReported(a, "bx.x.x", "x.x")
  {
    var line, term := "bx.x.x", "x.x";
    assert ShadowsAfter(a, term, 2);
    assert MatchesAt(a, line, term, 3) && ExactAt(a, line, term, 3);
    assert a.fold(line[0]) != a.fold(term[0]);
    assert !MatchesAt(a, line, term, 0);
    assert MatchesAt(a, line, term, 1);
    assert Matches(a, line, term, 4) == [];
    assert Matches(a, line, term, 1) == [1];
    assert Matches(a, line, term, 0) == [1];
    assert !ExactAt(a, line, term, 1);
  }
}
