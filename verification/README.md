# Verified model of GCS Search Macro v4

This project models the core of a hosted search service in Dafny and proves what its design relies on. A job
lists the objects below approved bucket paths, searches them for terms, caches the results in append-only tables,
writes an ordered report with DAG metadata, and optionally copies the matching objects. `dafny verify dfyconfig.toml`
checks everything.

The main results, in the order in which they build on each other:

1. **A search is what it says.** The header stripper, the leftmost non-overlapping scan and the exact/partial
   classification compute a tokeniser specification for identifier terms; for any literal, a line is reported exactly
   when it contains the term, and for a regular expression exactly when it has a nonempty match. The bounded parallel
   map and the search around it do not depend on the schedule.
2. **The incremental cache is safe.** The cache is a state machine of any number of runs that list, look up, load,
   search, merge and persist, each statement able to raise before or after it takes effect, with crashes and bucket
   changes at any point. In every reachable state every answer (full, incremental or reused) has the rows of a
   fresh search of the manifest just listed, every snapshot ever visible as COMPLETE is whole and never changes, and
   the row limit decides as it would for a fresh search. The imperative `Execute` and `PersistSnapshot` are proved to
   be runs of this machine while other workers move in any way between their statements.
3. **End to end.** The report, the copied objects with their generations, the counter of matches and the final contents
   of the copy target are those of a fresh search, and a content row exists exactly for the objects whose listed
   generation has a match on a searched line.
4. **The job protocol is safe, over either store.** Under duplicate deliveries, cancels, policy changes, enqueue errors,
   store errors and crashes: at most one execution, truthful records, terminal states absorbing, and the two stores
   interchangeable on every reachable call sequence although Firestore's guard is weaker. The worker's handler, written
   out over the Firestore store class, is proved to be one handler of this protocol while others go on.
5. **The DAG index answers as the linear specification**, the table it is built from may be reordered freely, and sheet
   names are acceptable and distinct. Where copies go, when they meet, and when they stay in their folder is decided
   exactly.

Some promises hold only under a condition. Each is stated as an equivalence:

- An occurrence that is not embedded in a larger identifier is reported exact on every line iff the term does not
  overlap itself after a non-identifier character (`LineScan.ExactIffNotShadowing`). The last `x.x` of `bx.x.x` is not
  embedded, but an earlier overlapping match uses up its characters, and the line is reported partial only
  (`LineScan.MissedExample`).
- A docstring closed on its own line is a header block of one line iff nothing but white space follows its quotes and
  there is something between them, or the file ends there (`HeaderStrip.ClosedDocstringIff`). Six quotes, and a
  docstring with a comment behind it, swallow the next line (`HeaderStrip.EmptyDocstringRunsOn`,
  `HeaderStrip.NotedDocstringRunsOn`).
- A read is independent of later bucket changes iff the entry has a generation or the term cannot match anything
  (`ContentSearch.PinnedIffGeneration`).
- COMPLETE is final iff no run is about to set the snapshot to FAILED (`CacheSafety.CompleteForeverIff`). An update
  that takes effect and then raises leads there (`CacheExamples.CompleteThenFailed`, for every definition).
- A snapshot above the row limit can be COMPLETE: whenever a listing fits the report and what the next one adds fits, but
  the next one as a whole does not (`CacheExamples.OversizedSnapshot`, `EndToEnd.OversizedExample`). The job that saved
  it is refused, as it would be without a cache (`CacheSafety.RowLimitAgrees`).
- The DAG lookup depends only on which table rows there are iff no row with a missing number is alone on its path
  (`DagTable.RepetitionHarmlessIff`, `DagTable.DoublingHarmlessIff`, `DagTable.MissingNumberExample`).
- A URI and a bare name mean the same object iff the name is blank, or starts neither with white space nor like a URI
  (`DagTable.UriAndNameAgreeIff`).
- Two copies of one job meet iff they are one object or share an absolute name (`Copying.DestinationEqualIff`). Copies of
  two jobs with the same requested prefix meet iff they share an absolute name (`Copying.SamePrefixMeetIff`,
  `Copying.CopiesCollide`). With different prefixes relative names can meet as well: iff one prefix leads into the
  folder of the other job, and on to where a bucket and a relative name can lead (`Copying.JobsMeetIff`,
  `Copying.JobsCanMeetIff`). Such a prefix is allowed whenever the other is (`Copying.NestedPrefixesCollide`,
  `Copying.NestedPrefixAllowed`), so the documentation's "runs never collide" holds for relative names unless
  the folders are nested in this way.
- A copy stays in its folder iff the name is relative (`Copying.DestinationBelowJobIff`,
  `Copying.DestinationBelowTargetIff`): `posixpath.join` discards the folder for a name that starts with a slash.
- A sheet name is found within one more candidate than used names, for all used names, iff no numbered candidate is the
  base itself (`SheetNames.NaturalBoundIff`). A base of 31 characters that ends in `_2` is its own second candidate
  (`SheetNames.RepeatingExample`); the general bound is one more.
- The message of a skipped copy, that its destination exists, is right iff the source has not moved on or the
  destination is occupied as well (`Copying.SkippedMeansOccupiedIff`, `Copying.SkippedThoughFree`).
- The stores make different transitions iff a success is reported on a queued job (`Jobs.StoresDifferIff`).
- A failed job was claimed iff it has a start time (`JobSafety.FailedWithoutStartNeverRan`). POLICY_REJECTED does not
  tell: a duplicate delivery can put it on a job that ran (`JobSafety.RejectedThoughExecuted`).

## Layout

| files | content |
|---|---|
| `Wrappers`, `Sequences`, `Ordering`, `Text` | comprehension laws, sorting, strings |
| `Model`, `SearchSpec`, `SearchRows` | entries, rows, and what a search means |
| `HeaderStrip`, `LineScan`, `ContentSearch`, `FilenameSearch`, `Listing`, `ParallelMap`, `SearchEngine` | the search engine |
| `Refresh`, `CacheTables`, `CacheProtocol`, `CacheTimes`, `CacheSafety`, `CacheExamples`, `SearchCache`, `Policy`, `Executor` | the cache and the executor |
| `DagIndex`, `DagTable`, `SheetNames`, `Report`, `Copying` | enrichment, report, copies |
| `Jobs`, `JobProtocol`, `JobSafety`, `JobRecords`, `Worker` | job stores and the job life cycle |
| `EndToEnd` | what a job delivers |

## Model

| member | source | states |
|---|---|---|
| HeaderStrip.HeaderOfIsHeader | src/gcs_search_macro_v4/search_engine.py:59-80 | every file has exactly one header block in the declarative sense: first opening among five lines, to the end of a one-line docstring, the next line with the quote, or the end of file |
| HeaderStrip.HeaderInStrings | src/gcs_search_macro_v4/search_engine.py:59-80 | the block in terms of the stripped strings: it ends on its first line when something stands between its quotes and nothing follows them, and else at the next line that has the quote anywhere, or at the end of file |
| HeaderStrip.NoHeaderInStrings | src/gcs_search_macro_v4/search_engine.py:64-75 | there is no block exactly when none of the first five lines opens a docstring |
| HeaderStrip.ProseEndsBlock | src/gcs_search_macro_v4/search_engine.py:76-80 | a closing quote behind a line of prose ends the block |
| HeaderStrip.ProseExample | src/gcs_search_macro_v4/search_engine.py:76-80 | a docstring closed at the end of its second line has a block of two lines |
| Text.StripIff | src/gcs_search_macro_v4/search_engine.py:63-63 | stripping drops all white space at both ends and nothing else |
| Text.ContainsIff | src/gcs_search_macro_v4/search_engine.py:77-77 | one string is in another exactly when the other can be split around it |
| HeaderStrip.KeptCharacterised | src/gcs_search_macro_v4/search_engine.py:81-84 | kept lines are numbered in increasing order and are exactly those outside the block that are no header metadata |
| HeaderStrip.StripHeaderBlock | src/gcs_search_macro_v4/search_engine.py:57-84 | the three-variable automaton computes the kept lines of the declarative header |
| HeaderStrip.ClosedDocstringIff | src/gcs_search_macro_v4/search_engine.py:66-75 | a docstring closed on its own line is a block of that line alone iff it ends the line and is not empty, or the file ends there |
| HeaderStrip.EmptyDocstringRunsOn | src/gcs_search_macro_v4/search_engine.py:66-75 | six quotes swallow the next line |
| HeaderStrip.NotedDocstringRunsOn | src/gcs_search_macro_v4/search_engine.py:66-75 | a docstring with a comment behind it swallows the next line |
| LineScan.FindIter | src/gcs_search_macro_v4/search_engine.py:114-117 | the scan loop yields the starts of the scan |
| LineScan.MatchesOnlyScan | src/gcs_search_macro_v4/search_engine.py:114-117 | those starts are the only sequence of occurrences, in order and without overlap, that overlaps every occurrence from the left |
| LineScan.MatchesSound | src/gcs_search_macro_v4/search_engine.py:114-117 | every yielded start is an occurrence |
| LineScan.MatchesCover | src/gcs_search_macro_v4/search_engine.py:114-117 | every occurrence is yielded or overlapped from the left by a yielded one |
| LineScan.SurroundingToken | src/gcs_search_macro_v4/search_engine.py:97-102 | the two index loops find the maximal identifier run around a match, stripped |
| LineScan.SearchLine | src/gcs_search_macro_v4/search_engine.py:114-125 | the innermost loop, for a term of either mode, reports exactly the flags and tokens that the set of nonempty matches defines |
| LineScan.RegexReportedIffMatches | src/gcs_search_macro_v4/search_engine.py:114-125 | a line is reported for a regular expression iff the expression has a nonempty match in it |
| LineScan.LiteralHit | src/gcs_search_macro_v4/search_engine.py:49-54 | for a literal the report is decided by the occurrences that the scan yields |
| LineScan.ReportedIffOccurs | src/gcs_search_macro_v4/search_engine.py:112-125 | for any nonempty literal a line is reported at all iff it contains the term |
| LineScan.ReportedIffContained | src/gcs_search_macro_v4/search_engine.py:51-54 | that is: iff the folded line contains the folded term |
| LineScan.NextCharacterDecides | src/gcs_search_macro_v4/search_engine.py:87-94 | an identifier term with one character behind it is exact iff that is neither alphanumeric nor an underscore |
| LineScan.IdentifierTermExact | src/gcs_search_macro_v4/search_engine.py:91-94 | an identifier term is reported exact iff a maximal identifier run equals it ignoring case |
| LineScan.IdentifierTermPartial | src/gcs_search_macro_v4/search_engine.py:97-125 | it is reported partial iff a strictly longer run contains it, and the tokens are exactly those runs |
| LineScan.ExactIffNotShadowing | src/gcs_search_macro_v4/search_engine.py:112-125 | a term is found exact on every line with an exact occurrence iff it does not overlap itself after a non-identifier character |
| LineScan.MissedExample | src/gcs_search_macro_v4/search_engine.py:112-125 | the concrete failure: `x.x` in `bx.x.x` is reported partial only |
| ContentSearch.SearchText | src/gcs_search_macro_v4/search_engine.py:105-134 | the nested loops fill, per term of either mode, exactly what the kept lines report, and drop terms without a line |
| ContentSearch.FoundInLines | src/gcs_search_macro_v4/search_engine.py:112-125 | the accumulated sets read off the original line numbers of the file |
| ContentSearch.MatchTextIffReported | src/gcs_search_macro_v4/search_engine.py:126-134 | a file has a result for a term of either mode iff a searched line is reported for it |
| ContentSearch.MatchTextIffOccurs | src/gcs_search_macro_v4/search_engine.py:105-134 | a file has a result for a literal iff a searched line contains it |
| ContentSearch.IdentifierTermText | src/gcs_search_macro_v4/search_engine.py:105-134 | for identifier terms the result of a file is the tokeniser specification, in increasing line order |
| ContentSearch.PinnedIffGeneration | src/gcs_search_macro_v4/search_engine.py:277-285 | the row of an entry is independent of later bucket changes iff its generation is nonzero or the term cannot match any line |
| Listing.ListManifest | src/gcs_search_macro_v4/search_engine.py:161-203 | for the Python files outside the exclusions: the error of the first object beyond a limit, or else the sorted distinct objects |
| Listing.ListFilenameManifest | src/gcs_search_macro_v4/search_engine.py:205-227 | the same for all names but folder markers, of any size |
| Listing.ContentAcceptsIff | src/gcs_search_macro_v4/search_engine.py:174-183 | a content search lists names that end in `.py` ignoring case and contain no excluded word and match no excluded pattern |
| Listing.FilenameAcceptsIff | src/gcs_search_macro_v4/search_engine.py:211-212 | a filename search lists every name but the empty one and folder markers |
| Listing.LimitErrorMeans | src/gcs_search_macro_v4/search_engine.py:187-193 | a listing succeeds iff there are not too many objects and none is above the byte limit; it fails for size iff one of the first objects is |
| Listing.ListedIn | src/gcs_search_macro_v4/search_engine.py:172-186 | what is listed are the accepted objects of the roots, field by field, and no others |
| Listing.ManifestProperties | src/gcs_search_macro_v4/search_engine.py:171-203 | a manifest is sorted with unique keys, keeps the limits, and holds each listed object once, in the form first listed, however roots overlap |
| FilenameSearch.SearchFilenames | src/gcs_search_macro_v4/search_engine.py:229-270 | fails iff the rows of a full search exceed the limit, otherwise returns that search |
| ParallelMap.BoundedParallelMap.Advance | src/gcs_search_macro_v4/search_engine.py:319-340 | each resumption yields a new entry, at most twice the workers are outstanding, and the end comes iff all were yielded |
| ParallelMap.PickAll | src/gcs_search_macro_v4/search_engine.py:333-336 | the yielded order is a permutation of the entries, for every choice of completed futures |
| SearchSpec.FullSearchCanonical | src/gcs_search_macro_v4/search_engine.py:314-316 | the sorted result does not depend on the order in which entries were processed |
| SearchSpec.RowsForDistinct | src/gcs_search_macro_v4/search_engine.py:298-308 | each term has at most one row per object |
| SearchRows.AppendRows | src/gcs_search_macro_v4/search_engine.py:298-313 | the row loop keeps the rows and the counter in step, and stops only when the rows exceed the limit |
| SearchRows.TooManyAlready | src/gcs_search_macro_v4/search_engine.py:309-313 | rows only accumulate: stopping early means the whole search exceeds the limit |
| SearchEngine.SearchOne | src/gcs_search_macro_v4/search_engine.py:272-289 | fails iff the object cannot be read, otherwise gives the rows of its pinned text |
| SearchEngine.Search | src/gcs_search_macro_v4/search_engine.py:291-316 | for every schedule, fails iff an object cannot be read or the rows exceed the limit, otherwise returns the sequential search |
| Refresh.ChangedCharacterised | src/gcs_search_macro_v4/cache.py:106-109 | the changed entries are exactly those of the current manifest not in the previous one, each once |
| Refresh.DeletedCharacterised | src/gcs_search_macro_v4/cache.py:110-110 | the deleted keys are exactly those only the previous manifest has |
| Refresh.KeptIffCommon | src/gcs_search_macro_v4/executor.py:154-159 | the rows of an object survive the merge iff it is listed unchanged |
| Refresh.PatchRoundTrip | src/gcs_search_macro_v4/cache.py:103-111 | patching the previous manifest with the difference gives the current one |
| Refresh.DiffEmpty | src/gcs_search_macro_v4/executor.py:73-74 | the difference is empty iff the manifests are permutations of each other |
| Refresh.StoreLoad | src/gcs_search_macro_v4/cache.py:261-304 | storing and loading a row only fills in the optional fields, and doing it again changes nothing |
| Refresh.RefreshedRows | src/gcs_search_macro_v4/executor.py:152-164 | kept cached rows plus refreshed rows are the rows of the current manifest |
| CacheTables.InsertManifestReads | src/gcs_search_macro_v4/cache.py:319-332 | inserted manifest rows are read back for their own snapshot and no other |
| CacheTables.InsertResultsReads | src/gcs_search_macro_v4/cache.py:288-337 | inserted result rows read back as normalised rows of their own snapshot and term, and of no other |
| CacheSafety.StepKeeps | src/gcs_search_macro_v4/executor.py:58-100 | every step of every run, with any failure or crash, keeps the cache invariant |
| CacheSafety.RunKeeps | src/gcs_search_macro_v4/executor.py:58-100 | the invariant holds in every reachable state, over chains of snapshots of any length |
| CacheSafety.AnswersAgree | src/gcs_search_macro_v4/executor.py:62-88 | full, reused and incremental answers all have the rows of a fresh search of the listed manifest |
| CacheSafety.RowLimitAgrees | src/gcs_search_macro_v4/executor.py:90-91 | an answer passes the row-limit check iff a full search of the same manifest would |
| CacheSafety.RescanLimitAgrees | src/gcs_search_macro_v4/executor.py:80-80 | a rescan stopped by the limit means that a full search would be stopped too |
| CacheSafety.CompleteSnapshotsFixed | src/gcs_search_macro_v4/cache.py:278-352 | a snapshot seen COMPLETE is whole, is the search of its own manifest, and has the same rows ever after |
| CacheSafety.BasesAreWhole | src/gcs_search_macro_v4/cache.py:202-218 | a base is always a whole snapshot of the same definition, never a pending or partly written one |
| CacheTimes.TimesFixed | src/gcs_search_macro_v4/cache.py:308-351 | no step of any run changes the time of a snapshot or removes it |
| CacheTimes.EverySnapshotBegun | src/gcs_search_macro_v4/cache.py:286-317 | every snapshot carries the time at which some step of the run began it |
| CacheTimes.BaseIsLastPersisted | src/gcs_search_macro_v4/cache.py:202-218 | the base chosen was begun after every other complete snapshot of its definition that was begun at another time, also in the order of events when the clock does not go back |
| CacheSafety.CompleteForeverIff | src/gcs_search_macro_v4/cache.py:338-351 | a complete snapshot stays COMPLETE in every continuation iff no run is about to set it to FAILED |
| CacheExamples.CompleteThenFailed | src/gcs_search_macro_v4/cache.py:338-351 | for every valid definition, a run from the empty tables in which a snapshot is COMPLETE and then FAILED |
| CacheExamples.OversizedSnapshot | src/gcs_search_macro_v4/executor.py:78-91 | whenever a listing and what the next adds fit the limit but the next does not, a run in which its oversized snapshot is COMPLETE and its job refused |
| CacheSafety.CompleteCanFail | src/gcs_search_macro_v4/cache.py:338-351 | from every state in which a run is about to complete, COMPLETE can become FAILED in two steps |
| SearchCache.BigQuerySearchCache.LatestCompletedRun | src/gcs_search_macro_v4/cache.py:202-218 | returns a complete run of the definition that no other was created after, or nothing when there is none |
| SearchCache.BigQuerySearchCache.LoadManifest | src/gcs_search_macro_v4/cache.py:220-242 | returns the manifest rows of the snapshot in some order |
| SearchCache.BigQuerySearchCache.LoadResults | src/gcs_search_macro_v4/cache.py:244-276 | returns per requested term the rows of the snapshot in some order, and no others |
| SearchCache.BigQuerySearchCache.PersistSnapshot | src/gcs_search_macro_v4/cache.py:278-352 | while others move between its statements, leaves a new snapshot that carries the time of the call and is complete, whole and not about to fail, or none that says COMPLETE once FAILED was written |
| SearchCache.BigQuerySearchCache.Others | src/gcs_search_macro_v4/cache.py:308-351 | whatever a schedule lets other workers and the bucket do between two statements is part of the run, and leaves this worker where it is |
| SearchCache.BigQuerySearchCache.RecordAccess | src/gcs_search_macro_v4/cache.py:354-374 | appends one access record and changes nothing else |
| Policy.ValidateTerms | src/gcs_search_macro_v4/policy.py:60-79 | accepts iff no term has a fault and none repeats an earlier one ignoring case, and otherwise names the first fault |
| Policy.AcceptedIff | src/gcs_search_macro_v4/policy.py:60-79 | the exact condition on count, length, repetition, mode, null characters and regular expressions under which terms are accepted |
| Policy.FaultMeans | src/gcs_search_macro_v4/policy.py:69-79 | which fault of a single term is named |
| Policy.SafeRegexIff | src/gcs_search_macro_v4/policy.py:105-120 | a regular expression is refused iff it has a bracket or brace, a backreference, or does not compile |
| Policy.DistinctIffNoRepeat | src/gcs_search_macro_v4/policy.py:63-68 | terms are pairwise distinct ignoring case iff none repeats an earlier one |
| Policy.AcceptedTerms | src/gcs_search_macro_v4/policy.py:63-75 | accepted terms have distinct values, also ignoring case, and are literals in a filename search |
| Executor.SameDefinitionIff | src/gcs_search_macro_v4/executor.py:136-150 | two jobs share snapshots iff type, project, roots, terms and, for a content search, the exclusions up to order are the same |
| Executor.DefinitionFields | src/gcs_search_macro_v4/executor.py:136-150 | a definition holds type, project, roots and terms as given, and the exclusions, as a multiset, for a content search only |
| Executor.EnvIsValid | src/gcs_search_macro_v4/executor.py:40-49 | both real searches, for terms of either mode, meet the assumptions of the cache protocol: rows under the key and generation of their entry, reads pinned |
| Executor.RunSearch | src/gcs_search_macro_v4/executor.py:40-49 | the search chosen by type is the search of the protocol, including when it fails |
| Executor.SearchChanged | src/gcs_search_macro_v4/executor.py:79-82 | searches exactly the new entries, and cannot exceed the limit when a full search would not |
| Executor.RefreshBase | src/gcs_search_macro_v4/executor.py:78-88 | the incremental branch: a new whole snapshot of the listing and the count of rescanned entries |
| Executor.UseBase | src/gcs_search_macro_v4/executor.py:71-88 | reuses the base iff the listing is a permutation of its manifest, and otherwise saves a new snapshot |
| Executor.SavedForever | src/gcs_search_macro_v4/executor.py:65-88 | a saved snapshot stays COMPLETE in every continuation |
| Executor.Execute | src/gcs_search_macro_v4/executor.py:58-100 | for validated terms of either mode, while others go on: undisturbed it succeeds iff a full search fits the limit; a success delivers the rows of that search, is backed by a whole snapshot listing the same objects, counts what it rescanned, and is a run of the protocol |
| DagIndex.PrefixContiguous | src/gcs_search_macro_v4/enrichment.py:75-88 | between a prefix and a string with that prefix, every string has it |
| DagIndex.BisectLeft | src/gcs_search_macro_v4/enrichment.py:78-78 | the insertion point: everything before is smaller, everything from it on is not |
| DagIndex.PrefixRange | src/gcs_search_macro_v4/enrichment.py:78-88 | the strings with a prefix form a gapless range from the insertion point on |
| DagIndex.DagLookup.constructor | src/gcs_search_macro_v4/enrichment.py:52-59 | the index lists the reversed paths in order with their metadata |
| DagIndex.DagLookup.UniqueSuffixMatch | src/gcs_search_macro_v4/enrichment.py:61-90 | the suffix loop, the bisection and one neighbour compute the metadata of the only segment-aligned suffix candidate, or nothing for none or several |
| DagTable.UriAndNameAgreeIff | src/gcs_search_macro_v4/enrichment.py:37-42 | the URI of an object and its bare name normalise to the same key iff the name is blank, or starts neither with white space nor like a URI |
| DagTable.BuildDagLookup | src/gcs_search_macro_v4/enrichment.py:93-121 | a normalised path is mapped iff some row has it and all rows with it agree |
| DagTable.FindDagMetadata | src/gcs_search_macro_v4/enrichment.py:124-129 | what the rows say: the metadata of the unanimous rows with the path, whatever else there is; else that of the only unanimous path which is a segment suffix of it or has it as one; else nothing |
| DagTable.AnswerIsRows | src/gcs_search_macro_v4/enrichment.py:104-129 | the answer of lookup and suffix match, on the table rows |
| DagTable.PlainKey | src/gcs_search_macro_v4/enrichment.py:37-42 | a name without white space or slashes at its ends is its own key, in lower case |
| DagTable.TablePermutation | src/gcs_search_macro_v4/enrichment.py:104-121 | lookup and answers do not depend on the order of the table |
| DagTable.TableSameRows | src/gcs_search_macro_v4/enrichment.py:104-121 | unless a row with a missing number is alone on its path, they depend only on which rows there are |
| DagTable.RepetitionHarmlessIff | src/gcs_search_macro_v4/enrichment.py:115-118 | the lookup is the same for every table with the same rows iff no row with a missing number is alone on its path |
| DagTable.DoublingHarmlessIff | src/gcs_search_macro_v4/enrichment.py:115-118 | repeating the table once changes nothing iff no path has a single row with a missing number |
| DagTable.MissingNumberExample | src/gcs_search_macro_v4/enrichment.py:115-118 | a row without a value in a column that has a number: listed twice, its path is lost |
| Report.BuildReport | src/gcs_search_macro_v4/reporting.py:47-72 | the row loops and the sort compute the ordered report rows |
| Report.ReportComplete | src/gcs_search_macro_v4/reporting.py:49-72 | the report has exactly one row per row of the results, in order |
| Report.MatchRowFields | src/gcs_search_macro_v4/reporting.py:53-71 | what each cell of a match row says, and when it says exact, partial or both |
| Report.FilenameRowSays | src/gcs_search_macro_v4/reporting.py:136-147 | what each cell of a filename row says |
| Report.NumberTextGrows | src/gcs_search_macro_v4/reporting.py:65-66 | line numbers are listed in order, separated by a comma and a space |
| Report.ExcelTextIs | src/gcs_search_macro_v4/reporting.py:42-44 | short texts are shown whole, long ones are cut, marked and fit |
| Report.RowOrderLeIff | src/gcs_search_macro_v4/reporting.py:72-72 | rows are ordered by folded term, then bucket, then path |
| Ordering.StringLeIff | src/gcs_search_macro_v4/reporting.py:72-72 | strings are ordered by the first place where they differ, or where one ends |
| Ordering.KeyLeIff | src/gcs_search_macro_v4/search_engine.py:203-203 | objects are ordered by bucket and within a bucket by path |
| Text.DecimalValue | src/gcs_search_macro_v4/reporting.py:65-66 | a number is shown in decimal notation without leading zeros |
| Report.MatchMakerValid | src/gcs_search_macro_v4/reporting.py:51-72 | a match row is the same before and after a trip of its source row through the cache, and is ordered by folded term, bucket and path |
| Report.FilenameMakerValid | src/gcs_search_macro_v4/reporting.py:135-151 | the same for rows of the filename report |
| Report.ReportCanonical | src/gcs_search_macro_v4/reporting.py:72-72 | the ordered rows are a function of the row multisets up to normalisation |
| SheetNames.CandidatesDiffer | src/gcs_search_macro_v4/reporting.py:80-83 | numbered candidates differ even ignoring case |
| SheetNames.CandidateLength | src/gcs_search_macro_v4/reporting.py:81-82 | a candidate fits 31 characters iff its number has at most 30 digits |
| SheetNames.BaseUnchanged | src/gcs_search_macro_v4/reporting.py:76-77 | a term that is an acceptable trimmed name is its own base |
| SheetNames.BaseIs | src/gcs_search_macro_v4/reporting.py:76-77 | the base of any term: forbidden characters replaced, trimmed, cut to 31 characters, or `Term` |
| SheetNames.CandidateIs | src/gcs_search_macro_v4/reporting.py:81-82 | a numbered candidate is as much of the base as fits, an underscore and the number |
| SheetNames.Pigeonhole | src/gcs_search_macro_v4/reporting.py:80-83 | trying k candidates in vain takes k used names |
| SheetNames.SheetName | src/gcs_search_macro_v4/reporting.py:75-85 | ends within two more candidates than used names, with the first free one, and marks exactly it as used |
| SheetNames.NaturalBoundIff | src/gcs_search_macro_v4/reporting.py:80-83 | at most one more candidate than used names is tried, for all used names, iff no numbered candidate is the base itself |
| SheetNames.RepeatingExample | src/gcs_search_macro_v4/reporting.py:80-83 | a base of 31 characters ending in `_2` is its own second candidate |
| SheetNames.NameSheets | src/gcs_search_macro_v4/reporting.py:108-115 | all sheet names are acceptable and pairwise distinct ignoring case, also from the reserved ones |
| SheetNames.ReportSheets | src/gcs_search_macro_v4/reporting.py:107-125 | all sheets of a match workbook have acceptable names that differ ignoring case |
| SheetNames.FilenameReportSheets | src/gcs_search_macro_v4/reporting.py:163-178 | the same for the filename workbook |
| Copying.ResolveCopyTarget | src/gcs_search_macro_v4/policy.py:89-98 | returns the first target that allows the request, and fails iff none does |
| Copying.AllowsIff | src/gcs_search_macro_v4/policy.py:92-97 | a target allows a request iff the buckets are the same and the segments of its root begin the requested prefix, ignoring case |
| Copying.DestinationShape | src/gcs_search_macro_v4/copying.py:53-53 | a copy goes below prefix, jobs folder, job id and source bucket, or to the object name itself when that is absolute |
| Copying.DestinationEqualIff | src/gcs_search_macro_v4/copying.py:53-53 | two copies of a job go to the same place iff they are one object or share an absolute name |
| Copying.JobsMeetIff | src/gcs_search_macro_v4/executor.py:172-173 | for any two requested prefixes, copies of two jobs meet iff they share an absolute name, or the job folders are nested and the relative name in the outer one spells the way to the copy in the inner one |
| Copying.JobsCanMeetIff | src/gcs_search_macro_v4/executor.py:172-173 | relative objects of two jobs can meet iff one job folder lies below the other along a way that a bucket and a relative name can take |
| Copying.SamePrefixMeetIff | src/gcs_search_macro_v4/executor.py:172-173 | copies of two jobs with the same requested prefix meet iff they share an absolute name |
| Copying.NestedPrefixesCollide | src/gcs_search_macro_v4/copying.py:53-53 | a prefix that leads into the bucket folder of another job makes relative names meet |
| Copying.NestedPrefixAllowed | src/gcs_search_macro_v4/policy.py:89-97 | such a prefix is allowed whenever the prefix of that job is |
| Copying.CopiesCollide | src/gcs_search_macro_v4/copying.py:53-53 | objects of two buckets, and of two jobs, that go to one place |
| Copying.DestinationBelowJobIff | src/gcs_search_macro_v4/copying.py:53-53 | a copy lands below its job's folder iff the object name is relative |
| Copying.DestinationBelowTargetIff | src/gcs_search_macro_v4/policy.py:91-97 | a copy stays under the approved root, ignoring case, iff that root is empty or the object name is relative |
| Copying.UniqueSources | src/gcs_search_macro_v4/copying.py:21-31 | the nested loops compute the sources by key, in key order |
| Copying.UniqueSourcesProperties | src/gcs_search_macro_v4/copying.py:21-31 | one source per object, sorted, with the generation of the last row of its object, as many as objects |
| Copying.SourcesCanonical | src/gcs_search_macro_v4/copying.py:22-31 | when rows carry the generation of their object the sources do not depend on the order of rows |
| Copying.SourcesSeparateIff | src/gcs_search_macro_v4/copying.py:30-53 | the sources of a job go to different places iff no two objects share an absolute name |
| Copying.SkippedMeansOccupiedIff | src/gcs_search_macro_v4/copying.py:62-70 | the message of a skipped copy is right iff the source has not moved on or the destination is occupied as well |
| Copying.SkippedThoughFree | src/gcs_search_macro_v4/copying.py:62-70 | a copy skipped as existing with overwriting enabled and an empty target bucket |
| Copying.CopyAllCharacterised | src/gcs_search_macro_v4/copying.py:52-82 | what each copy leaves is decided by the target bucket as it was before all of them |
| Copying.StatusIff | src/gcs_search_macro_v4/copying.py:57-73 | a readable source is copied iff its destination is free or may be overwritten and is skipped otherwise, one that has moved on is skipped, an unreadable one fails |
| Copying.CopiedToItsPlace | src/gcs_search_macro_v4/copying.py:52-66 | after all copies such a source stands at prefix, jobs, job id, bucket and name, under its own generation |
| Copying.PlaceLeftAlone | src/gcs_search_macro_v4/copying.py:68-73 | a place that no source is copied to holds what it held before |
| Copying.CopyOrderIrrelevant | src/gcs_search_macro_v4/copying.py:81-82 | the pool may copy in any order: the target bucket ends up the same |
| Copying.ExistingKept | src/gcs_search_macro_v4/copying.py:58-70 | without overwriting, no object of the target bucket changes |
| Jobs.StoresDifferIff | src/gcs_search_macro_v4/jobs.py:81-153 | the stores make different transitions iff a success is reported on a queued job |
| Jobs.StoresSimulate | src/gcs_search_macro_v4/jobs.py:26-179 | elsewhere they simulate each other, replies and raises included |
| JobRecords.RecordsExplained | src/gcs_search_macro_v4/jobs.py:26-179 | over either store, every field of every reachable record is the one that a create, claim, success, failure or cancel call brought; at most 1000 characters of a message are kept |
| JobRecords.SuccessIsProduced | src/gcs_search_macro_v4/worker.py:59-79 | artifact, snapshot, files scanned and matches found of a succeeded job are what the execution of its claimant produced |
| JobRecords.RequestFixed | src/gcs_search_macro_v4/jobs.py:108-179 | request, owner and time of creation never change |
| JobRecords.FailureCodes | src/gcs_search_macro_v4/worker.py:51-88 | a failure carries one of three codes, and the message of a failed execution names the job |
| JobRecords.CancelOutcome | src/gcs_search_macro_v4/api.py:103-115 | a cancel call that returns cancels a queued job and answers with it, and else changes nothing and refuses iff the job was seen running |
| JobRecords.QueueFailureOutcome | src/gcs_search_macro_v4/api.py:67-71 | after a failed enqueue the job is failed, unless it is finished already |
| JobRecords.DownloadableForever | src/gcs_search_macro_v4/api.py:117-130 | a report can be downloaded iff the job succeeded, and is the same ever after |
| JobSafety.StepKeeps | src/gcs_search_macro_v4/worker.py:44-89 | over either store, every API and worker step, with any error or crash, keeps the invariant of the job protocol |
| JobSafety.RunKeeps | src/gcs_search_macro_v4/worker.py:44-89 | the invariant holds in every reachable state |
| JobSafety.RecordsTruthful | src/gcs_search_macro_v4/jobs.py:108-179 | report iff succeeded, error code iff failed, finish time iff terminal, start time iff claimed; at most one execution and two writes |
| JobSafety.TerminalForever | src/gcs_search_macro_v4/jobs.py:153-154 | a terminal job never changes again in any field |
| JobSafety.ClaimantsRemain | src/gcs_search_macro_v4/jobs.py:108-123 | at most one delivery ever claims a job: the claimant in one state is the claimant in every later one |
| JobSafety.OneExecutor | src/gcs_search_macro_v4/worker.py:55-59 | two deliveries never execute the same job |
| JobSafety.SucceedsByClaimant | src/gcs_search_macro_v4/worker.py:73-79 | over either store a job succeeds only from RUNNING and only by the delivery that claimed it, although Firestore would accept QUEUED |
| JobSafety.ReturnedMeansHandled | src/gcs_search_macro_v4/worker.py:44-89 | a delivery that returned leaves the job not queued, and finished if it claimed it |
| JobSafety.CancelledForever | src/gcs_search_macro_v4/api.py:103-115 | a job answered as cancelled stays so and was never claimed, before or after |
| JobSafety.StoresAgree | src/gcs_search_macro_v4/jobs.py:26-179 | on every run, whichever store answers the calls, both stores hold the same records after them |
| JobSafety.RejectedThoughExecuted | src/gcs_search_macro_v4/worker.py:48-52 | a reachable run in which an executed job ends FAILED with POLICY_REJECTED |
| JobSafety.FailedWithoutStartNeverRan | src/gcs_search_macro_v4/worker.py:48-59 | a failed job was ever claimed iff it has a start time |
| Worker.JobWorker.RunJob | src/gcs_search_macro_v4/worker.py:44-89 | while others go on: when the handler answers, the job is not queued, and finished if this delivery claimed it; left alone, what it leaves in the store, field by field, for every combination of errors |
| EndToEnd.RowIffContributes | src/gcs_search_macro_v4/executor.py:62-88 | a listed object has a row for a term iff a fresh search would give it one |
| EndToEnd.ContentRowIffMatches | src/gcs_search_macro_v4/executor.py:58-88 | after any history, a content row exists for a term of either mode iff a searched line of the listed generation has a match |
| EndToEnd.ContentRowIffOccurs | src/gcs_search_macro_v4/executor.py:58-88 | for a literal: iff a searched line of the listed generation contains it |
| EndToEnd.ContentRowLines | src/gcs_search_macro_v4/cache.py:261-275 | after any history, a row's lines and tokens are those of the listed generation, for a term of either mode |
| EndToEnd.FilenameRowIffContains | src/gcs_search_macro_v4/search_engine.py:238-247 | after any history, a filename row exists iff the base name contains the term ignoring case |
| EndToEnd.FilenameRowFields | src/gcs_search_macro_v4/search_engine.py:242-262 | after any history, a filename row says exact iff the names are equal ignoring case, and repeats the listed metadata |
| EndToEnd.IdentifierRowLines | src/gcs_search_macro_v4/cache.py:261-275 | for an identifier literal they are the tokeniser specification |
| EndToEnd.ReportIsFresh | src/gcs_search_macro_v4/reporting.py:47-72 | the report rows of an answered run are those of a fresh search |
| EndToEnd.OversizedExample | src/gcs_search_macro_v4/executor.py:78-91 | a filename search with a limit of one row in which a snapshot of two rows is COMPLETE |
| EndToEnd.SourcesOfAgreeing | src/gcs_search_macro_v4/executor.py:124-133 | as many sources as reported matches: the listed objects that match some term |
| EndToEnd.SourcesAreFresh | src/gcs_search_macro_v4/copying.py:21-31 | the copied objects and generations are those of a fresh search, in whatever order terms and rows are visited |
| EndToEnd.CopiesAreFresh | src/gcs_search_macro_v4/executor.py:166-181 | the target bucket ends up as after copying the matches of a fresh search one by one |
| EndToEnd.MatchIsCopied | src/gcs_search_macro_v4/executor.py:166-181 | after any history, a listed match that can be read stands at its place in the target bucket under its listed generation, if that place was free or may be overwritten |

## Left out

- The regular-expression engine is foreign: what `finditer` yields for a pattern and a line is an arbitrary function to spans within the line.
- `PATH_EXCLUDE_PATTERNS`, the exclusion patterns of a scope and the header-metadata patterns are predicates on strings.
- Decoding bytes and splitting text into lines: a text is a sequence of lines.
- Unicode case rules: `lower()`, `casefold()` and IGNORECASE are functions on single characters.
- Timestamps are opaque strings that survive a trip through the tables; the empty string stands for a missing one.
- Integers of the tables are unbounded; no value of the program comes near their width.
- `query_key` and `manifest_fingerprint`: a key stands for its definition, and the fingerprint never decides anything.
- `ensure_tables`: the four tables exist.
- `resolve_bucket_paths`: a listing is given by its roots. The listing's string prefix, and not path segments, decides what lies below a root, so no segment-level claim is made.
- `execute` after the access record calls copy and report; they are modelled one by one and joined in the end-to-end lemmas.
- The choice of columns in `build_dag_lookup` and the reading of the two tables: a row is a path and its metadata.
- A missing number in the DAG table is a NaN of a column of numbers, unequal even to itself, as two separately read values are; Python compares one shared object as equal inside a tuple. A column without any number holds `None`, which is equal to itself, an ordinary value of the model.
- Sources that change while the pool copies: whether a source can be copied is fixed for a copy job. A copy is atomic.
- The summary sheet, column styling, pandas and openpyxl.
- Owner checks, headers, signed download URLs, uploads, e-mail, the HTML pages, settings loading and scope listing.
- Liveness after a worker crash: such a job deliberately stays RUNNING, and a new delivery ignores it.
- The HTTP answers of the API beyond those that depend on the job's state.
- LineScan.IdentifierTermExact: is about identifier terms only; for other terms `LineScan.ExactIffNotShadowing` gives the exact condition.
- EndToEnd.CopiesAreFresh: asks that no two listed objects share an absolute name and that bucket names have no slash; `Copying.SourcesSeparateIff` says what happens otherwise.
