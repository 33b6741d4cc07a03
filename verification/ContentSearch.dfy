/** Searching the text of one file for all terms, and the result rows that come of it. */
module ContentSearch {
  import opened HeaderStrip
  import opened LineScan
  import opened Model
  import opened Ordering
  import opened Sequences
  import opened Wrappers

  /** The character classes and the header-metadata patterns. */
  datatype Language = Language(alphabet: Alphabet, isMeta: string -> bool)

  /** The per-term sets that `search_text` fills. */
  datatype Found = Found(exact: set<nat>, partial: set<nat>, tokens: set<string>)

  datatype TermMatch = TermMatch(exactLines: seq<nat>, partialLines: seq<nat>, partialTokens: set<string>)

  type Kept = seq<(nat, string)>

  /** Everything reported for one term on the kept lines. */
  ghost function FoundIn(a: Alphabet, kept: Kept, term: SearchTerm): Found {
    Found(
      set k | 0 <= k < |kept| && LineHit(a, kept[k].1, term).exact :: kept[k].0,
      set k | 0 <= k < |kept| && LineHit(a, kept[k].1, term).partial :: kept[k].0,
      set k, token | 0 <= k < |kept| && token in LineHit(a, kept[k].1, term).tokens :: token)
  }

  // ---------- sorted(set) for line numbers ----------

  predicate LineLe(a: nat, b: nat) { a <= b }

  lemma LineLeIsTotalOrder()
    ensures TotalOrder(LineLe)
  {}

  function SortedLines(s: set<nat>): seq<nat> {
    LineLeIsTotalOrder();
    SortedSet(s, LineLe)
  }

  lemma SortedLinesProperties(s: set<nat>)
    ensures var r := SortedLines(s);
      && (forall n :: n in r <==> n in s)
      && (forall i, j :: 0 <= i < j < |r| ==> r[i] < r[j])
  {
    LineLeIsTotalOrder();
    SortedSetProperties(s, LineLe);
  }

  // ---------- one file ----------

  /** The entry of one term in the result of `search_text`, absent when nothing was reported. */
  ghost function MatchText(lang: Language, lines: seq<string>, term: SearchTerm): Option<TermMatch> {
    Reported(FoundIn(lang.alphabet, KeptLines(lines, lang.isMeta), term))
  }

  function Reported(f: Found): Option<TermMatch> {
    if f.exact == {} && f.partial == {} then None
    else Some(TermMatch(SortedLines(f.exact), SortedLines(f.partial), f.tokens))
  }

  function AddLine(f: Found, number: nat, hit: Hit): Found {
    Found(f.exact + (if hit.exact then {number} else {}), f.partial + (if hit.partial then {number} else {}),
          f.tokens + hit.tokens)
  }

  lemma FoundInStep(a: Alphabet, kept: Kept, n: nat, term: SearchTerm)
    requires n < |kept|
    ensures FoundIn(a, kept[..n + 1], term) ==
            AddLine(FoundIn(a, kept[..n], term), kept[n].0, LineHit(a, kept[n].1, term))
  {
    var before, after, hit := kept[..n], kept[..n + 1], LineHit(a, kept[n].1, term);
    assert after[n] == kept[n];
    assert forall k :: 0 <= k < n ==> after[k] == before[k];
    var f, g := FoundIn(a, before, term), FoundIn(a, after, term);
    assert g.exact == f.exact + (if hit.exact then {kept[n].0} else {});
    assert g.partial == f.partial + (if hit.partial then {kept[n].0} else {});
    assert g.tokens == f.tokens + hit.tokens;
  }

  ghost predicate FoundAt(a: Alphabet, kept: Kept, term: SearchTerm, found: map<string, Found>) {
    term.value in found && found[term.value] == FoundIn(a, kept, term)
  }

  /** After line `i` has been searched for the first `j` terms, those terms are one line ahead of the others. */
  ghost predicate Ahead(a: Alphabet, kept: Kept, i: nat, terms: seq<SearchTerm>, j: nat, found: map<string, Found>)
    requires i < |kept|
  {
    && found.Keys == (set v | v in ValuesOf(terms))
    && forall k :: 0 <= k < |terms| ==> FoundAt(a, if k < j then kept[..i + 1] else kept[..i], terms[k], found)
  }

  lemma AheadStep(a: Alphabet, kept: Kept, i: nat, terms: seq<SearchTerm>, j: nat, found: map<string, Found>)
    requires i < |kept| && j < |terms| && NoDuplicates(ValuesOf(terms)) && Ahead(a, kept, i, terms, j, found)
    ensures var v := terms[j].value;
      && v in found
      && Ahead(a, kept, i, terms, j + 1, found[v := AddLine(found[v], kept[i].0, LineHit(a, kept[i].1, terms[j]))])
  {
    ValuesAt(terms);
    assert FoundAt(a, kept[..i], terms[j], found);
    FoundInStep(a, kept, i, terms[j]);
    var after := found[terms[j].value := FoundIn(a, kept[..i + 1], terms[j])];
    var next := j + 1;
    forall k | 0 <= k < |terms|
      ensures FoundAt(a, if k < next then kept[..i + 1] else kept[..i], terms[k], after)
    {
      assert FoundAt(a, if k < j then kept[..i + 1] else kept[..i], terms[k], found);
      if k != j {
        assert ValuesOf(terms)[k] != ValuesOf(terms)[j];
      }
    }
  }

  /** What has been found on the first `i` lines, for every term. */
  ghost predicate FoundUpTo(a: Alphabet, kept: Kept, i: nat, terms: seq<SearchTerm>, found: map<string, Found>)
    requires i <= |kept|
  {
    && found.Keys == (set v | v in ValuesOf(terms))
    && forall k :: 0 <= k < |terms| ==> FoundAt(a, kept[..i], terms[k], found)
  }

  /** The loop over the terms for one line. */
  method SearchKeptLine(a: Alphabet, ghost kept: Kept, ghost i: nat, number: nat, line: string, terms: seq<SearchTerm>,
                        before: map<string, Found>)
    returns (found: map<string, Found>)
    requires ValidFinder(a) && NoDuplicates(ValuesOf(terms)) && i < |kept| && kept[i] == (number, line)
    requires FoundUpTo(a, kept, i, terms, before)
    ensures FoundUpTo(a, kept, i + 1, terms, found)
  {
    found := before;
    for j := 0 to |terms|
      invariant Ahead(a, kept, i, terms, j, found)
    {
      AheadStep(a, kept, i, terms, j, found);
      var hit := SearchLine(a, line, terms[j]);
      found := found[terms[j].value := AddLine(found[terms[j].value], number, hit)];
    }
  }

  lemma ResultAt(lang: Language, lines: seq<string>, terms: seq<SearchTerm>, found: map<string, Found>, v: string)
    requires NoDuplicates(ValuesOf(terms)) && v in ValuesOf(terms)
    requires var kept := KeptLines(lines, lang.isMeta); FoundUpTo(lang.alphabet, kept, |kept|, terms, found)
    ensures v in found && Reported(found[v]) == MatchText(lang, lines, TermOf(terms, v))
  {
    var kept := KeptLines(lines, lang.isMeta);
    ValuesAt(terms);
    var k :| 0 <= k < |terms| && ValuesOf(terms)[k] == v;
    TermOfAt(terms, k);
    assert FoundAt(lang.alphabet, kept[..|kept|], terms[k], found);
    assert kept[..|kept|] == kept;
  }

  /** `search_text`, for terms of either mode with distinct values. */
  method SearchText(lang: Language, lines: seq<string>, terms: seq<SearchTerm>) returns (result: map<string, TermMatch>)
    requires ValidFinder(lang.alphabet) && NoDuplicates(ValuesOf(terms))
    ensures forall v :: v in result <==> v in ValuesOf(terms) && MatchText(lang, lines, TermOf(terms, v)).Some?
    ensures forall v :: v in result ==> Some(result[v]) == MatchText(lang, lines, TermOf(terms, v))
  {
    var a := lang.alphabet;
    var found: map<string, Found> := map v | v in ValuesOf(terms) :: Found({}, {}, {});
    var kept := StripHeaderBlock(lines, lang.isMeta);
    ValuesAt(terms);
    assert FoundUpTo(a, kept, 0, terms, found) by {
      forall k | 0 <= k < |terms|
        ensures FoundAt(a, kept[..0], terms[k], found)
      {
        assert ValuesOf(terms)[k] in ValuesOf(terms);
      }
    }
    for i := 0 to |kept|
      invariant FoundUpTo(a, kept, i, terms, found)
    {
      found := SearchKeptLine(a, kept, i, kept[i].0, kept[i].1, terms, found);
    }
    forall v | v in ValuesOf(terms) {
      ResultAt(lang, lines, terms, found, v);
    }
    result := map v | v in found && Reported(found[v]).Some? :: Reported(found[v]).value;
  }

  /** Line `n`, counted from 1, takes part in the search. */
  predicate IsSearched(lang: Language, lines: seq<string>, n: nat) {
    1 <= n <= |lines| && !InHeader(HeaderOf(lines), n - 1) && !lang.isMeta(lines[n - 1])
  }

  /** The three accumulated sets, read off the lines of the file. */
  lemma FoundInLines(lang: Language, lines: seq<string>, term: SearchTerm)
    ensures var f, a := FoundIn(lang.alphabet, KeptLines(lines, lang.isMeta), term), lang.alphabet;
      && (forall n :: n in f.exact <==> IsSearched(lang, lines, n) && LineHit(a, lines[n - 1], term).exact)
      && (forall n :: n in f.partial <==> IsSearched(lang, lines, n) && LineHit(a, lines[n - 1], term).partial)
      && (forall token :: token in f.tokens <==>
            exists n :: IsSearched(lang, lines, n) && token in LineHit(a, lines[n - 1], term).tokens)
  {
    var a, kept := lang.alphabet, KeptLines(lines, lang.isMeta);
    KeptCharacterised(lines, lang.isMeta);
    forall k | 0 <= k < |kept|
      ensures IsSearched(lang, lines, kept[k].0) && kept[k].1 == lines[kept[k].0 - 1]
    {
      assert (kept[k].0, kept[k].1) in kept;
    }
    forall n: nat | IsSearched(lang, lines, n)
      ensures exists k :: 0 <= k < |kept| && kept[k] == (n, lines[n - 1])
    {
      assert (n, lines[n - 1]) in kept;
    }
  }

  /** A file has a result for a term of either mode exactly when a searched line is reported for it. */
  lemma MatchTextIffReported(lang: Language, lines: seq<string>, term: SearchTerm)
    ensures MatchText(lang, lines, term).Some? <==>
            exists n :: IsSearched(lang, lines, n) && LineHit(lang.alphabet, lines[n - 1], term).Reported()
  {
    FoundInLines(lang, lines, term);
    var f := FoundIn(lang.alphabet, KeptLines(lines, lang.isMeta), term);
    if f.exact + f.partial != {} {
      var n :| n in f.exact + f.partial;
      assert IsSearched(lang, lines, n);
    }
    if n: nat :| IsSearched(lang, lines, n) && LineHit(lang.alphabet, lines[n - 1], term).Reported() {
      assert n in f.exact || n in f.partial;
    }
  }

  /** For any literal, a file has a result for the term exactly when a searched line contains it. */
  lemma MatchTextIffOccurs(lang: Language, lines: seq<string>, term: string)
    requires term != []
    ensures MatchText(lang, lines, SearchTerm(term, Literal)).Some? <==>
            exists n :: IsSearched(lang, lines, n) && Occurs(lang.alphabet, lines[n - 1], term)
  {
    MatchTextIffReported(lang, lines, SearchTerm(term, Literal));
    forall n: nat | IsSearched(lang, lines, n)
      ensures LineHit(lang.alphabet, lines[n - 1], SearchTerm(term, Literal)).Reported() <==>
              Occurs(lang.alphabet, lines[n - 1], term)
    {
      LiteralHit(lang.alphabet, lines[n - 1], term);
      ReportedIffOccurs(lang.alphabet, lines[n - 1], term);
    }
  }

  ghost predicate HasExactRun(a: Alphabet, line: string, term: string) {
    exists i: nat, j: nat :: ExactRun(a, line, term, i, j)
  }

  ghost predicate HasLongerRun(a: Alphabet, line: string, term: string) {
    exists i: nat, j: nat :: LongerRun(a, line, term, i, j)
  }

  ghost predicate IsLongerToken(a: Alphabet, line: string, term: string, token: string) {
    exists i: nat, j: nat :: LongerRun(a, line, term, i, j) && token == line[i..j]
  }

  /** The tokeniser specification of one line. */
  ghost predicate HitIsTokenised(a: Alphabet, line: string, term: string) {
    var hit := LineHit(a, line, SearchTerm(term, Literal));
    && (hit.exact <==> HasExactRun(a, line, term))
    && (hit.partial <==> HasLongerRun(a, line, term))
    && forall token :: token in hit.tokens <==> IsLongerToken(a, line, term, token)
  }

  lemma IdentifierTermLine(a: Alphabet, line: string, term: string)
    requires ValidAlphabet(a) && term != [] && IdentifierOnly(a, term)
    ensures HitIsTokenised(a, line, term)
  {
    LiteralHit(a, line, term);
    IdentifierTermExact(a, line, term);
    IdentifierTermPartial(a, line, term);
  }

  /** For identifier terms the result of a file is the tokeniser specification, in increasing line order. */
  lemma IdentifierTermText(lang: Language, lines: seq<string>, term: string)
    requires ValidAlphabet(lang.alphabet) && term != [] && IdentifierOnly(lang.alphabet, term)
    requires MatchText(lang, lines, SearchTerm(term, Literal)).Some?
    ensures var a, r := lang.alphabet, MatchText(lang, lines, SearchTerm(term, Literal)).value;
      && (forall n :: n in r.exactLines <==> IsSearched(lang, lines, n) && HasExactRun(a, lines[n - 1], term))
      && (forall n :: n in r.partialLines <==> IsSearched(lang, lines, n) && HasLongerRun(a, lines[n - 1], term))
      && (forall token :: token in r.partialTokens <==>
            exists n :: IsSearched(lang, lines, n) && IsLongerToken(a, lines[n - 1], term, token))
      && (forall i, j :: 0 <= i < j < |r.exactLines| ==> r.exactLines[i] < r.exactLines[j])
      && (forall i, j :: 0 <= i < j < |r.partialLines| ==> r.partialLines[i] < r.partialLines[j])
  {
    var literal := SearchTerm(term, Literal);
    var f := FoundIn(lang.alphabet, KeptLines(lines, lang.isMeta), literal);
    FoundInLines(lang, lines, literal);
    SortedLinesProperties(f.exact);
    SortedLinesProperties(f.partial);
    forall n: nat | IsSearched(lang, lines, n)
      ensures HitIsTokenised(lang.alphabet, lines[n - 1], term)
    {
      IdentifierTermLine(lang.alphabet, lines[n - 1], term);
    }
  }

  // ---------- reading objects ----------

  /** The decoded lines of every generation of every object, and of the objects as they are now. */
  type History = (ObjectKey, nat) -> seq<string>

  type Live = map<ObjectKey, seq<string>>

  /** A download is pinned to the listed generation, unless that is 0: then it reads whatever is there. */
  function ReadText(history: History, live: Live, e: Entry): seq<string> {
    if e.generation > 0 then history(e.Key(), e.generation)
    else if e.Key() in live then live[e.Key()] else []
  }

  function ContentRow(e: Entry, found: TermMatch): Row {
    Row(e.bucket, e.path, e.contentHash, e.generation, None, None, None, None, None,
        found.exactLines, found.partialLines, found.partialTokens)
  }

  /** What a content search contributes for one entry and one term. */
  ghost function ContentMatch(lang: Language, history: History, live: Live, e: Entry, term: SearchTerm): Option<Row> {
    match MatchText(lang, ReadText(history, live, e), term)
    case None => None
    case Some(found) => Some(ContentRow(e, found))
  }

  /** Some line can be reported for the term at all: it is no header metadata, and it matches. */
  ghost predicate CanMatch(lang: Language, term: SearchTerm) {
    exists line :: !lang.isMeta(line) && LineHit(lang.alphabet, line, term).Reported()
  }

  /**
   * The row of an entry is the same whatever happens to the bucket, exactly when its generation is pinned or the
   * term cannot match anything.
   */
  lemma PinnedIffGeneration(lang: Language, history: History, e: Entry, term: SearchTerm)
    ensures (forall now: Live, later: Live ::
               ContentMatch(lang, history, now, e, term) == ContentMatch(lang, history, later, e, term)) <==>
            e.generation > 0 || !CanMatch(lang, term)
  {
    if e.generation == 0 {
      if line :| !lang.isMeta(line) && LineHit(lang.alphabet, line, term).Reported() {
        Unpinned(lang, history, e, term, line);
      } else {
        forall live: Live
          ensures ContentMatch(lang, history, live, e, term) == None
        {
          MatchTextIffReported(lang, ReadText(history, live, e), term);
        }
      }
    }
  }

  lemma Unpinned(lang: Language, history: History, e: Entry, term: SearchTerm, line: string)
    requires e.generation == 0 && !lang.isMeta(line) && LineHit(lang.alphabet, line, term).Reported()
    ensures exists now: Live, later: Live ::
              ContentMatch(lang, history, now, e, term) != ContentMatch(lang, history, later, e, term)
  {
    var lines := ["", "", "", "", "", line];
    var now, later: Live := map[e.Key() := lines], map[];
    SixthLineIsKept(lines);
    assert IsSearched(lang, lines, 6);
    MatchTextIffReported(lang, lines, term);
    MatchTextIffReported(lang, [], term);
    assert ContentMatch(lang, history, now, e, term) != ContentMatch(lang, history, later, e, term);
  }

  lemma SixthLineIsKept(lines: seq<string>)
    requires |lines| == 6 && forall i :: 0 <= i < 5 ==> lines[i] == ""
    ensures HeaderOf(lines) == NoHeader
  {
    assert IsHeader(lines, NoHeader);
    HeaderOfIsHeader(lines);
  }
}
