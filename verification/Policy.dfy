/** The term checks that every request passes before it is queued and again before it runs. */
module Policy {
  import opened CacheTables
  import opened Model
  import opened Sequences
  import opened Text
  import opened Wrappers

  datatype TermError = TooManyTerms | DuplicateTerm | TermTooLong | LiteralsOnly | UnsafeRegex | NullCharacter

  /**
   * The configured limits; `compiles` stands for what the regular-expression engine takes, `lower` for
   * lower-casing.
   */
  datatype TermLimits = TermLimits(maxTerms: nat, maxLength: nat, compiles: string -> bool, lower: char -> char)

  /** A group, a counted repetition or a backreference. */
  predicate HasForbidden(pattern: string) {
    || '(' in pattern || ')' in pattern || '{' in pattern || '}' in pattern
    || exists i | 0 <= i < |pattern| - 1 :: pattern[i] == '\\' && '1' <= pattern[i + 1] <= '9'
  }

  /** `_validate_safe_regex`. */
  predicate SafeRegex(limits: TermLimits, pattern: string) {
    !HasForbidden(pattern) && limits.compiles(pattern)
  }

  /** What is wrong with one term, apart from the terms before it. */
  function TermFault(searchType: SearchType, limits: TermLimits, term: SearchTerm): Option<TermError> {
    if |term.value| > limits.maxLength then Some(TermTooLong)
    else if searchType == Filename && term.mode != Literal then Some(LiteralsOnly)
    else if term.mode == Regex then (if SafeRegex(limits, term.value) then None else Some(UnsafeRegex))
    else if '\0' in term.value then Some(NullCharacter)
    else None
  }

  ghost predicate RepeatsEarlier(terms: seq<SearchTerm>, i: int, lower: char -> char)
    requires 0 <= i < |terms|
  {
    exists j :: 0 <= j < i && Fold(terms[j].value, lower) == Fold(terms[i].value, lower)
  }

  ghost function FaultAt(searchType: SearchType, limits: TermLimits, terms: seq<SearchTerm>, i: int): Option<TermError>
    requires 0 <= i < |terms|
  {
    if RepeatsEarlier(terms, i, limits.lower) then Some(DuplicateTerm) else TermFault(searchType, limits, terms[i])
  }

  /** What `validate_request` demands of the terms. */
  ghost predicate TermsAccepted(searchType: SearchType, limits: TermLimits, terms: seq<SearchTerm>) {
    |terms| <= limits.maxTerms && forall i :: 0 <= i < |terms| ==> FaultAt(searchType, limits, terms, i).None?
  }

  /** No two terms are the same ignoring case. */
  ghost predicate DistinctIgnoringCase(values: seq<string>, lower: char -> char) {
    forall i, j :: 0 <= i < j < |values| ==> Fold(values[i], lower) != Fold(values[j], lower)
  }

  /** The term loop of `validate_request`: accepts exactly the requests without a fault, else names the first one. */
  method ValidateTerms(searchType: SearchType, limits: TermLimits, terms: seq<SearchTerm>)
    returns (error: Option<TermError>)
    ensures error == Some(TooManyTerms) <==> |terms| > limits.maxTerms
    ensures error.None? <==> TermsAccepted(searchType, limits, terms)
    ensures error.Some? && error.value != TooManyTerms ==>
              exists i :: 0 <= i < |terms| && error == FaultAt(searchType, limits, terms, i) &&
                          forall j :: 0 <= j < i ==> FaultAt(searchType, limits, terms, j).None?
  {
    if |terms| > limits.maxTerms {
      return Some(TooManyTerms);
    }
    var seen: set<string> := {};
    for i := 0 to |terms|
      invariant seen == set j | 0 <= j < i :: Fold(terms[j].value, limits.lower)
      invariant forall j :: 0 <= j < i ==> FaultAt(searchType, limits, terms, j).None?
    {
      var identity := Fold(terms[i].value, limits.lower);
      assert identity in seen <==> RepeatsEarlier(terms, i, limits.lower);
      if identity in seen {
        assert FaultAt(searchType, limits, terms, i) == Some(DuplicateTerm);
        return Some(DuplicateTerm);
      }
      assert FaultAt(searchType, limits, terms, i) == TermFault(searchType, limits, terms[i]);
      seen := seen + {identity};
      error := TermFault(searchType, limits, terms[i]);
      if error.Some? {
        return;
      }
    }
    error := None;
  }

  /** Terms differ ignoring case exactly when none of them repeats an earlier one. */
  lemma DistinctIffNoRepeat(terms: seq<SearchTerm>, lower: char -> char)
    ensures DistinctIgnoringCase(ValuesOf(terms), lower) <==>
            forall i :: 0 <= i < |terms| ==> !RepeatsEarlier(terms, i, lower)
  {
    ValuesAt(terms);
    if forall i :: 0 <= i < |terms| ==> !RepeatsEarlier(terms, i, lower) {
      forall i, j | 0 <= i < j < |terms|
        ensures Fold(ValuesOf(terms)[i], lower) != Fold(ValuesOf(terms)[j], lower)
      {
        assert !RepeatsEarlier(terms, j, lower);
      }
    }
  }

  /** Accepted terms give every term its own entry in the results, and its own place in the report. */
  lemma AcceptedTerms(searchType: SearchType, limits: TermLimits, terms: seq<SearchTerm>)
    requires TermsAccepted(searchType, limits, terms)
    ensures DistinctIgnoringCase(ValuesOf(terms), limits.lower) && NoDuplicates(ValuesOf(terms))
    ensures searchType == Filename ==> forall i :: 0 <= i < |terms| ==> terms[i].mode == Literal
  {
    forall i | 0 <= i < |terms|
      ensures !RepeatsEarlier(terms, i, limits.lower) && (searchType == Filename ==> terms[i].mode == Literal)
    {
      assert FaultAt(searchType, limits, terms, i).None?;
    }
    DistinctIffNoRepeat(terms, limits.lower);
    var values := ValuesOf(terms);
    forall i, j | 0 <= i < j < |values|
      ensures values[i] != values[j]
    {
      assert Fold(values[i], limits.lower) != Fold(values[j], limits.lower);
    }
  }

  /**
   * A regular expression is refused exactly for a bracket of these kinds, a backreference, or when it does not
   * compile.
   */
  lemma SafeRegexIff(limits: TermLimits, pattern: string)
    ensures SafeRegex(limits, pattern) <==>
            && (forall c :: c in pattern ==> c != '(' && c != ')' && c != '{' && c != '}')
            && (forall x, d: char, y :: pattern == x + ['\\', d] + y ==> !('1' <= d <= '9'))
            && limits.compiles(pattern)
  {
    if i :| 0 <= i < |pattern| - 1 && pattern[i] == '\\' && '1' <= pattern[i + 1] <= '9' {
      assert pattern == pattern[..i] + ['\\', pattern[i + 1]] + pattern[i + 2..];
    }
    if x, d: char, y :| pattern == x + ['\\', d] + y && '1' <= d <= '9' {
      assert pattern[|x|] == '\\' && pattern[|x| + 1] == d;
    }
  }

  /** What each refusal of a single term says. */
  lemma FaultMeans(searchType: SearchType, limits: TermLimits, term: SearchTerm)
    ensures var fault, long := TermFault(searchType, limits, term), |term.value| > limits.maxLength;
      && (fault == Some(TermTooLong) <==> long)
      && (fault == Some(LiteralsOnly) <==> !long && searchType == Filename && term.mode == Regex)
      && (fault == Some(UnsafeRegex) <==>
            !long && searchType == Content && term.mode == Regex && !SafeRegex(limits, term.value))
      && (fault == Some(NullCharacter) <==> !long && term.mode == Literal && '\0' in term.value)
  {}

  /**
   * Terms are accepted exactly when there are not too many, none is too long, they differ ignoring case, a filename
   * search has literals only, literals have no null character, and regular expressions are safe.
   */
  lemma AcceptedIff(searchType: SearchType, limits: TermLimits, terms: seq<SearchTerm>)
    ensures TermsAccepted(searchType, limits, terms) <==>
            && |terms| <= limits.maxTerms
            && DistinctIgnoringCase(ValuesOf(terms), limits.lower)
            && (forall i :: 0 <= i < |terms| ==> |terms[i].value| <= limits.maxLength)
            && (forall i :: 0 <= i < |terms| && terms[i].mode == Literal ==> '\0' !in terms[i].value)
            && (forall i :: 0 <= i < |terms| && terms[i].mode == Regex ==>
                  searchType == Content && SafeRegex(limits, terms[i].value))
  {
    DistinctIffNoRepeat(terms, limits.lower);
    if TermsAccepted(searchType, limits, terms) {
      forall i | 0 <= i < |terms|
        ensures !RepeatsEarlier(terms, i, limits.lower) && TermFault(searchType, limits, terms[i]) == None
      {
        assert FaultAt(searchType, limits, terms, i).None?;
      }
    }
  }
}
