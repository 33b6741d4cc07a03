/** Worksheet names: sanitised, cut to 31 characters, and numbered until they are free. */
module SheetNames {
  import opened Text

  const LIMIT: nat := 31

  predicate IsForbidden(c: char) {
    c == '\\' || c == '/' || c == '*' || c == '?' || c == ':' || c == '[' || c == ']'
  }

  function Sanitise(term: string): (r: string)
    ensures |r| == |term|
    ensures forall c :: c in r ==> !IsForbidden(c)
  {
    seq(|term|, i requires 0 <= i < |term| => if IsForbidden(term[i]) then '_' else term[i])
  }

  /** `s[:n]`, also for negative `n`. */
  function Cut(s: string, n: int): string {
    if n >= |s| then s else if n >= 0 then s[..n] else if |s| + n >= 0 then s[..|s| + n] else []
  }

  function Base(term: string): string {
    var base := Strip(Sanitise(term));
    Cut(if base == "" then "Term" else base, LIMIT)
  }

  function Suffix(k: nat): string { "_" + Decimal(k) }

  /** The names that are tried, in order: the base, then `_2`, `_3` and so on. */
  function Candidate(base: string, k: nat): string {
    if k <= 1 then base else Cut(base, LIMIT - |Suffix(k)|) + Suffix(k)
  }

  /** The lower-case mapping leaves digits and underscores alone. */
  predicate ValidLower(lower: char -> char) {
    lower('_') == '_' && forall d: nat | d < 10 :: lower(Digit(d)) == Digit(d)
  }

  // ---------- candidates differ ----------

  lemma {:induction false} DecimalLower(n: nat, lower: char -> char)
    requires ValidLower(lower)
    ensures Fold(Decimal(n), lower) == Decimal(n)
  {
    if n < 10 {
      assert Fold([Digit(n)], lower) == [Digit(n)];
    } else {
      DecimalLower(n / 10, lower);
      FoldConcat(Decimal(n / 10), [Digit(n % 10)], lower);
      assert Fold([Digit(n % 10)], lower) == [Digit(n % 10)];
    }
  }

  /** What follows the last underscore. */
  function LastPart(s: string): string {
    if s == [] || s[|s| - 1] == '_' then [] else LastPart(s[..|s| - 1]) + [s[|s| - 1]]
  }

  lemma {:induction false} LastPartAfter(s: string, tail: string)
    requires '_' !in tail
    ensures LastPart(s + "_" + tail) == tail
  {
    var whole := s + "_" + tail;
    if tail == [] {
      assert whole == s + "_";
    } else {
      var n := |tail| - 1;
      assert whole[..|whole| - 1] == s + "_" + tail[..n];
      assert whole[|whole| - 1] == tail[n];
      assert tail[n] in tail;
      LastPartAfter(s, tail[..n]);
      assert tail == tail[..n] + [tail[n]];
    }
  }

  /** Numbered candidates differ even ignoring case. */
  lemma CandidatesDiffer(base: string, j: nat, k: nat, lower: char -> char)
    requires ValidLower(lower) && 2 <= j && 2 <= k && j != k
    ensures Fold(Candidate(base, j), lower) != Fold(Candidate(base, k), lower)
  {
    CandidateLastPart(base, j, lower);
    CandidateLastPart(base, k, lower);
    if Decimal(j) == Decimal(k) {
      DecimalInjective(j, k);
    }
  }

  lemma CandidateLastPart(base: string, k: nat, lower: char -> char)
    requires ValidLower(lower) && 2 <= k
    ensures LastPart(Fold(Candidate(base, k), lower)) == Decimal(k)
  {
    var head := Cut(base, LIMIT - |Suffix(k)|);
    FoldConcat(head, Suffix(k), lower);
    FoldConcat("_", Decimal(k), lower);
    DecimalLower(k, lower);
    assert Fold("_", lower) == "_";
    assert Fold(Candidate(base, k), lower) == Fold(head, lower) + "_" + Decimal(k);
    LastPartAfter(Fold(head, lower), Decimal(k));
  }

  // ---------- length and characters ----------

  function Pow10(n: nat): nat { if n == 0 then 1 else 10 * Pow10(n - 1) }

  lemma {:induction false} DecimalLength(n: nat, digits: nat)
    requires digits > 0
    ensures |Decimal(n)| <= digits <==> n < Pow10(digits)
    decreases digits
  {
    if digits == 1 {
      assert Pow10(1) == 10 * Pow10(0);
      if n >= 10 {
        DecimalParts(n);
        assert |Decimal(n)| == |Decimal(n / 10)| + 1;
      }
    } else {
      PowAtLeast(digits);
      if n >= 10 {
        assert |Decimal(n)| == |Decimal(n / 10)| + 1;
        DecimalLength(n / 10, digits - 1);
      }
    }
  }

  lemma {:induction false} PowAtLeast(n: nat)
    requires n > 0
    ensures Pow10(n) >= 10
  {
    if n > 1 {
      PowAtLeast(n - 1);
    }
  }

  /** A candidate fits the sheet-name limit exactly as long as its number has at most 30 digits. */
  lemma CandidateLength(base: string, k: nat)
    requires |base| <= LIMIT
    ensures |Candidate(base, k)| <= LIMIT <==> k <= 1 || k < Pow10(30)
  {
    DecimalLength(k, 30);
  }

  lemma BaseProperties(term: string)
    ensures 0 < |Base(term)| <= LIMIT
    ensures forall c :: c in Base(term) ==> !IsForbidden(c)
  {
    StripProperties(Sanitise(term), IsSpace);
    var base := Strip(Sanitise(term));
    forall c | c in base
      ensures !IsForbidden(c)
    {
      assert c in Sanitise(term);
    }
  }

  /** A term that the workbook would accept as it is, without outer white space, is its own base. */
  lemma BaseUnchanged(term: string)
    requires 0 < |term| <= 31 && !IsSpace(term[0]) && !IsSpace(term[|term| - 1])
    requires forall c :: c in term ==> !IsForbidden(c)
    ensures Base(term) == term
  {
    assert Sanitise(term) == term;
    StripUnchanged(term, IsSpace);
  }

  /** Otherwise forbidden characters become underscores, outer white space goes, and 31 characters are kept. */
  lemma BaseIs(term: string, replaced: string, trimmed: string)
    requires |replaced| == |term|
    requires forall i :: 0 <= i < |term| ==> replaced[i] == if IsForbidden(term[i]) then '_' else term[i]
    requires StripsTo(replaced, trimmed, IsSpace)
    ensures Base(term) == if trimmed == "" then "Term" else if |trimmed| <= 31 then trimmed else trimmed[..31]
  {
    assert Sanitise(term) == replaced;
    StripIff(replaced, trimmed, IsSpace);
  }

  /** A numbered candidate is as much of the base as fits, an underscore, and the number. */
  lemma CandidateIs(base: string, k: nat, head: string)
    requires 2 <= k < Pow10(30) && head <= base
    requires |head| + 1 + |Decimal(k)| == if |base| + 1 + |Decimal(k)| <= 31 then |base| + 1 + |Decimal(k)| else 31
    ensures Candidate(base, k) == head + "_" + Decimal(k)
  {
    DecimalLength(k, 30);
    assert base[..|head|] == head;
  }

  lemma CandidateCharacters(base: string, k: nat)
    requires forall c :: c in base ==> !IsForbidden(c)
    ensures forall c :: c in Candidate(base, k) ==> !IsForbidden(c)
  {
    forall c | c in Cut(base, LIMIT - |Suffix(k)|)
      ensures c in base
    {}
    forall c | c in Suffix(k)
      ensures !IsForbidden(c)
    {
      assert c == '_' || '0' <= c <= '9';
    }
  }

  // ---------- the naming loop ----------

  /** The folded names of the numbered candidates below `k`. */
  function Tried(base: string, k: nat, lower: char -> char): set<string> {
    set i | 2 <= i < k :: Fold(Candidate(base, i), lower)
  }

  lemma {:induction false} TriedCount(base: string, k: nat, lower: char -> char)
    requires ValidLower(lower) && 2 <= k
    ensures |Tried(base, k, lower)| == k - 2
  {
    if k == 2 {
      assert Tried(base, k, lower) == {};
    } else {
      TriedCount(base, k - 1, lower);
      var last := Fold(Candidate(base, k - 1), lower);
      assert Tried(base, k, lower) == Tried(base, k - 1, lower) + {last};
      forall i | 2 <= i < k - 1
        ensures Fold(Candidate(base, i), lower) != last
      {
        CandidatesDiffer(base, i, k - 1, lower);
      }
    }
  }

  lemma {:induction false} SubsetCount<T>(a: set<T>, b: set<T>)
    requires a <= b
    ensures |a| <= |b|
  {
    if a != {} {
      var x :| x in a;
      SubsetCount(a - {x}, b - {x});
    }
  }

  /** The candidates before the `k`th are used. */
  ghost predicate UsedBelow(base: string, k: nat, lower: char -> char, used: set<string>) {
    forall i :: 1 <= i < k ==> Fold(Candidate(base, i), lower) in used
  }

  /** If all candidates below `k` are used, there are at least that many used names, not counting the base. */
  lemma Pigeonhole(base: string, k: nat, lower: char -> char, used: set<string>)
    requires ValidLower(lower) && 2 <= k && UsedBelow(base, k, lower, used)
    ensures k - 2 <= |used|
  {
    TriedCount(base, k, lower);
    SubsetCount(Tried(base, k, lower), used);
  }

  /** Some numbered candidate is the base itself, ignoring case. */
  ghost predicate BaseRepeats(base: string, lower: char -> char) {
    exists i: nat :: IsRepetition(base, i, lower)
  }

  predicate IsRepetition(base: string, i: nat, lower: char -> char) {
    2 <= i && Fold(Candidate(base, i), lower) == Fold(base, lower)
  }

  /** The candidate that is taken: those before it are used. */
  ghost predicate FirstFree(base: string, k: nat, lower: char -> char, used: set<string>) {
    1 <= k && UsedBelow(base, k, lower, used) && Fold(Candidate(base, k), lower) !in used
  }

  /** When the base is none of the numbered candidates, it counts as a used name of its own. */
  lemma NaturalBound(base: string, k: nat, lower: char -> char, used: set<string>)
    requires ValidLower(lower) && 1 <= k && UsedBelow(base, k, lower, used) && !BaseRepeats(base, lower)
    ensures k <= |used| + 1
  {
    if k >= 2 {
      var tried := Tried(base, k, lower);
      TriedCount(base, k, lower);
      forall i: nat | 2 <= i < k
        ensures Fold(Candidate(base, i), lower) != Fold(base, lower)
      {
        assert !IsRepetition(base, i, lower);
      }
      assert Fold(base, lower) == Fold(Candidate(base, 1), lower);
      SubsetCount(tried + {Fold(base, lower)}, used);
    }
  }

  /** When the base is the candidate with number `i`, one more than the used names can be tried in vain. */
  lemma RepeatedBound(base: string, i: nat, lower: char -> char) returns (used: set<string>)
    requires ValidLower(lower) && IsRepetition(base, i, lower)
    ensures FirstFree(base, i + 1, lower, used) && i + 1 == |used| + 2
  {
    used := Tried(base, i + 1, lower);
    TriedCount(base, i + 1, lower);
    assert Fold(Candidate(base, i), lower) in used;
    forall j: nat | 2 <= j <= i
      ensures Fold(Candidate(base, j), lower) != Fold(Candidate(base, i + 1), lower)
    {
      CandidatesDiffer(base, j, i + 1, lower);
    }
  }

  /** At most one more candidate than used names is tried, for all used names, exactly when the base does not repeat. */
  lemma NaturalBoundIff(base: string, lower: char -> char)
    requires ValidLower(lower)
    ensures (forall k: nat, used :: FirstFree(base, k, lower, used) ==> k <= |used| + 1) <==> !BaseRepeats(base, lower)
  {
    if i: nat :| IsRepetition(base, i, lower) {
      var used := RepeatedBound(base, i, lower);
      assert FirstFree(base, i + 1, lower, used);
    } else {
      forall k: nat, used | FirstFree(base, k, lower, used)
        ensures k <= |used| + 1
      {
        NaturalBound(base, k, lower, used);
      }
    }
  }

  /** A base of 31 characters that ends in `_2` is its own second candidate. */
  lemma RepeatingExample(head: string, lower: char -> char)
    requires |head| == LIMIT - 2
    ensures BaseRepeats(head + "_2", lower)
  {
    var base := head + "_2";
    assert Decimal(2) == "2" && Suffix(2) == "_2";
    assert base[..LIMIT - 2] == head;
    assert IsRepetition(base, 2, lower);
  }

  lemma OneMoreUsed(base: string, k: nat, lower: char -> char, used: set<string>)
    requires ValidLower(lower) && 1 <= k && UsedBelow(base, k, lower, used) && Fold(Candidate(base, k), lower) in used
    ensures UsedBelow(base, k + 1, lower, used) && k - 1 <= |used|
  {
    assert UsedBelow(base, k + 1, lower, used);
    Pigeonhole(base, k + 1, lower, used);
  }

  /**
   * `_sheet_name`: the first free candidate, which is among the base and the first `|used| + 1` numbered ones.
   * The used names gain exactly the new one.
   */
  method SheetName(term: string, used: set<string>, lower: char -> char)
    returns (name: string, nowUsed: set<string>, ghost k: nat)
    requires ValidLower(lower)
    ensures 1 <= k <= |used| + 2 && name == Candidate(Base(term), k)
    ensures UsedBelow(Base(term), k, lower, used)
    ensures Fold(name, lower) !in used && nowUsed == used + {Fold(name, lower)}
  {
    var base := Base(term);
    var candidate, counter: nat := base, 2;
    while Fold(candidate, lower) in used
      invariant 2 <= counter <= |used| + 3
      invariant candidate == Candidate(base, counter - 1)
      invariant UsedBelow(base, counter - 1, lower, used)
      decreases |used| + 3 - counter
    {
      OneMoreUsed(base, counter - 1, lower, used);
      var suffix := "_" + Decimal(counter);
      candidate := Cut(base, LIMIT - |suffix|) + suffix;
      counter := counter + 1;
    }
    name, nowUsed, k := candidate, used + {Fold(candidate, lower)}, counter - 1;
  }

  /** Names that differ from each other and from the reserved ones, ignoring case. */
  ghost predicate DistinctNames(names: seq<string>, reserved: set<string>, lower: char -> char) {
    && (forall i :: 0 <= i < |names| ==> Fold(names[i], lower) !in reserved)
    && (forall i, j :: 0 <= i < j < |names| ==> Fold(names[i], lower) != Fold(names[j], lower))
  }

  /** A name the workbook accepts. */
  predicate AcceptableName(name: string) {
    && 0 < |name| <= 31
    && forall c | c in name :: c != '\\' && c != '/' && c != '*' && c != '?' && c != ':' && c != '[' && c != ']'
  }

  lemma NameAcceptable(term: string, k: nat)
    requires k < Pow10(30)
    ensures AcceptableName(Candidate(Base(term), k))
  {
    BaseProperties(term);
    CandidateLength(Base(term), k);
    CandidateCharacters(Base(term), k);
  }

  /** One sheet per term: all names are acceptable and pairwise distinct ignoring case, also from the reserved ones. */
  method NameSheets(terms: seq<string>, reserved: set<string>, lower: char -> char) returns (names: seq<string>)
    requires ValidLower(lower)
    ensures |names| == |terms| && DistinctNames(names, reserved, lower)
    ensures |terms| + |reserved| + 2 < Pow10(30) ==> forall i :: 0 <= i < |names| ==> AcceptableName(names[i])
  {
    names := [];
    var used := reserved;
    for n := 0 to |terms|
      invariant |names| == n && DistinctNames(names, reserved, lower)
      invariant reserved <= used && |used| <= |reserved| + n
      invariant forall i :: 0 <= i < n ==> Fold(names[i], lower) in used
      invariant |terms| + |reserved| + 2 < Pow10(30) ==> forall i :: 0 <= i < n ==> AcceptableName(names[i])
    {
      var name;
      ghost var k;
      name, used, k := SheetName(terms[n], used, lower);
      if |terms| + |reserved| + 2 < Pow10(30) {
        NameAcceptable(terms[n], k);
      }
      names := names + [name];
    }
  }

  // ---------- whole workbooks ----------

  const REPORT_SHEETS := {"all_matches", "summary", "job_inventory", "copied_files", "no_matches"}

  const FILENAME_REPORT_SHEETS := {"all_files", "summary", "copied_files", "no_matches"}

  /** What lower-casing does to digits, underscores, and the names that the reports use themselves. */
  ghost predicate LowersFixedNames(lower: char -> char) {
    && ValidLower(lower)
    && Fold("Summary", lower) == "summary" && Fold("No_Matches", lower) == "no_matches"
    && Fold("All_Matches", lower) == "all_matches" && Fold("All_Files", lower) == "all_files"
    && Fold("Job_Inventory", lower) == "job_inventory" && Fold("Copied_Files", lower) == "copied_files"
  }

  /** No two sheets have the same name, ignoring case, and the workbook accepts all names. */
  ghost predicate SheetsDiffer(sheets: seq<string>, lower: char -> char) {
    forall i, j :: 0 <= i < j < |sheets| ==> Fold(sheets[i], lower) != Fold(sheets[j], lower)
  }

  /** Names of the report itself, which are reserved. */
  ghost predicate AreReserved(names: seq<string>, reserved: set<string>, lower: char -> char) {
    SheetsDiffer(names, lower) && forall i :: 0 <= i < |names| ==> Fold(names[i], lower) in reserved
  }

  lemma SheetsOfTerms(front: seq<string>, names: seq<string>, back: seq<string>, reserved: set<string>,
                      lower: char -> char)
    requires AreReserved(front + back, reserved, lower) && DistinctNames(names, reserved, lower)
    ensures SheetsDiffer(front + names + back, lower)
  {
    var sheets, fixed := front + names + back, front + back;
    forall i, j | 0 <= i < j < |sheets|
      ensures Fold(sheets[i], lower) != Fold(sheets[j], lower)
    {
      var f, n := |front|, |names|;
      assert i < f ==> sheets[i] == fixed[i];
      assert f + n <= i ==> sheets[i] == fixed[i - n];
      assert j < f ==> sheets[j] == fixed[j];
      assert f + n <= j ==> sheets[j] == fixed[j - n];
      assert f <= i < f + n ==> sheets[i] == names[i - f];
      assert f <= j < f + n ==> sheets[j] == names[j - f];
    }
  }

  predicate IsNameChar(c: char) { 'a' <= c <= 'z' || 'A' <= c <= 'Z' || c == '_' }

  lemma NameCharsAcceptable(name: string)
    requires 0 < |name| <= LIMIT && forall i :: 0 <= i < |name| ==> IsNameChar(name[i])
    ensures AcceptableName(name)
  {}

  lemma FixedAcceptable(name: string)
    requires name in ["Summary", "No_Matches", "All_Matches", "All_Files", "Job_Inventory", "Copied_Files"]
    ensures AcceptableName(name)
  {
    NameCharsAcceptable("Summary");
    NameCharsAcceptable("No_Matches");
    NameCharsAcceptable("All_Matches");
    NameCharsAcceptable("All_Files");
    NameCharsAcceptable("Job_Inventory");
    NameCharsAcceptable("Copied_Files");
  }

  /** The fixed names around those of the terms. */
  datatype Fixed = Fixed(front: seq<string>, back: seq<string>, reserved: set<string>)

  function ReportFixed(anyRows: bool, inventory: bool, copies: bool): Fixed {
    Fixed(["Summary", if anyRows then "All_Matches" else "No_Matches"],
          (if inventory then ["Job_Inventory"] else []) + (if copies then ["Copied_Files"] else []), REPORT_SHEETS)
  }

  function FilenameReportFixed(anyRows: bool, copies: bool): Fixed {
    Fixed(["Summary", if anyRows then "All_Files" else "No_Matches"], if copies then ["Copied_Files"] else [],
          FILENAME_REPORT_SHEETS)
  }

  ghost predicate FixedOk(f: Fixed, lower: char -> char) {
    && AreReserved(f.front + f.back, f.reserved, lower) && |f.reserved| <= 5
    && forall i :: 0 <= i < |f.front + f.back| ==> AcceptableName((f.front + f.back)[i])
  }

  lemma ReportFixedOk(anyRows: bool, inventory: bool, copies: bool, lower: char -> char)
    requires LowersFixedNames(lower)
    ensures FixedOk(ReportFixed(anyRows, inventory, copies), lower)
  {
    var f := ReportFixed(anyRows, inventory, copies);
    var names := f.front + f.back;
    forall i | 0 <= i < |names|
      ensures AcceptableName(names[i]) && Fold(names[i], lower) in f.reserved
    {
      FixedAcceptable(names[i]);
    }
  }

  lemma FilenameReportFixedOk(anyRows: bool, copies: bool, lower: char -> char)
    requires LowersFixedNames(lower)
    ensures FixedOk(FilenameReportFixed(anyRows, copies), lower)
  {
    var f := FilenameReportFixed(anyRows, copies);
    var names := f.front + f.back;
    forall i | 0 <= i < |names|
      ensures AcceptableName(names[i]) && Fold(names[i], lower) in f.reserved
    {
      FixedAcceptable(names[i]);
    }
  }

  lemma AllAcceptable(f: Fixed, names: seq<string>, lower: char -> char)
    requires FixedOk(f, lower) && forall i :: 0 <= i < |names| ==> AcceptableName(names[i])
    ensures var sheets := f.front + names + f.back; forall i :: 0 <= i < |sheets| ==> AcceptableName(sheets[i])
  {
    var sheets, fixed := f.front + names + f.back, f.front + f.back;
    forall i | 0 <= i < |sheets|
      ensures AcceptableName(sheets[i])
    {
      if |f.front| <= i < |f.front| + |names| {
        assert sheets[i] == names[i - |f.front|];
      } else {
        assert sheets[i] == fixed[if i < |f.front| then i else i - |names|];
      }
    }
  }

  /** The sheets of a workbook: the fixed ones, and one per term if there are any rows. */
  method WorkbookSheets(terms: seq<string>, anyRows: bool, f: Fixed, lower: char -> char) returns (sheets: seq<string>)
    requires ValidLower(lower) && FixedOk(f, lower)
    ensures SheetsDiffer(sheets, lower) && f.front <= sheets
    ensures |terms| + 7 < Pow10(30) ==> forall i :: 0 <= i < |sheets| ==> AcceptableName(sheets[i])
    ensures |sheets| == |f.front| + (if anyRows then |terms| else 0) + |f.back|
  {
    var names := [];
    if anyRows {
      names := NameSheets(terms, f.reserved, lower);
    }
    SheetsOfTerms(f.front, names, f.back, f.reserved, lower);
    if |terms| + 7 < Pow10(30) {
      AllAcceptable(f, names, lower);
    }
    sheets := f.front + names + f.back;
  }

  /** The sheets of `write_report`: all names differ ignoring case, and the workbook accepts them. */
  method ReportSheets(terms: seq<string>, anyRows: bool, inventory: bool, copies: bool, lower: char -> char)
    returns (sheets: seq<string>)
    requires LowersFixedNames(lower)
    ensures SheetsDiffer(sheets, lower)
    ensures |terms| + 7 < Pow10(30) ==> forall i :: 0 <= i < |sheets| ==> AcceptableName(sheets[i])
    ensures |sheets| == 2 + (if anyRows then |terms| else 0) + (if inventory then 1 else 0) + if copies then 1 else 0
  {
    ReportFixedOk(anyRows, inventory, copies, lower);
    sheets := WorkbookSheets(terms, anyRows, ReportFixed(anyRows, inventory, copies), lower);
  }

  /** The sheets of `write_filename_report`. */
  method FilenameReportSheets(terms: seq<string>, anyRows: bool, copies: bool, lower: char -> char)
    returns (sheets: seq<string>)
    requires LowersFixedNames(lower)
    ensures SheetsDiffer(sheets, lower)
    ensures |terms| + 7 < Pow10(30) ==> forall i :: 0 <= i < |sheets| ==> AcceptableName(sheets[i])
    ensures |sheets| == 2 + (if anyRows then |terms| else 0) + if copies then 1 else 0
  {
    FilenameReportFixedOk(anyRows, copies, lower);
    sheets := WorkbookSheets(terms, anyRows, FilenameReportFixed(anyRows, copies), lower);
  }
}
