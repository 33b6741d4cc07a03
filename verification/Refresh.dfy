/** Incremental refresh: the manifest difference, the stored form of rows, and the merge of old and new rows. */
module Refresh {
  import opened Model
  import opened Ordering
  import opened SearchSpec
  import opened Sequences
  import opened Text
  import opened Wrappers

  // ---------- manifest difference ----------

  datatype ManifestDiff = ManifestDiff(changed: seq<Entry>, deleted: seq<ObjectKey>) {
    predicate IsEmpty() { changed == [] && deleted == [] }

    /** The keys whose cached rows are dropped. */
    function Affected(): set<ObjectKey> {
      (set e | e in changed :: e.Key()) + (set k | k in deleted)
    }
  }

  /** `{entry.key: entry for entry in entries}`. */
  function ByKey(entries: seq<Entry>): map<ObjectKey, Entry> {
    if entries == [] then map[] else
      var last := entries[|entries| - 1];
      ByKey(entries[..|entries| - 1])[last.Key() := last]
  }

  function DiffManifests(previous: seq<Entry>, current: seq<Entry>): ManifestDiff {
    var p, c := ByKey(previous), ByKey(current);
    KeyLeIsTotalOrder();
    ManifestDiff(
      MapFilter(SortedSet(c.Keys, KeyLe), ChangedAt(p, c)),
      SortedSet(p.Keys - c.Keys, KeyLe))
  }

  ghost predicate Holds(m: map<ObjectKey, Entry>, e: Entry) { e.Key() in m && m[e.Key()] == e }

  /** Each value stands under its own key. */
  ghost predicate WellKeyed(m: map<ObjectKey, Entry>) { forall k :: k in m ==> m[k].Key() == k }

  lemma {:induction false} ByKeyProperties(entries: seq<Entry>)
    requires UniqueKeys(entries)
    ensures WellKeyed(ByKey(entries))
    ensures forall e :: e in entries <==> Holds(ByKey(entries), e)
  {
    if entries != [] {
      var n := |entries| - 1;
      ByKeyProperties(entries[..n]);
      assert entries == entries[..n] + [entries[n]];
      assert forall i :: 0 <= i < n ==> EntryKey(entries[i]) != EntryKey(entries[n]);
    }
  }

  lemma UniqueKeysNoDuplicates(entries: seq<Entry>)
    requires UniqueKeys(entries)
    ensures NoDuplicates(entries)
  {
    forall i, j | 0 <= i < j < |entries|
      ensures entries[i] != entries[j]
    {
      assert EntryKey(entries[i]) != EntryKey(entries[j]);
    }
  }

  lemma {:induction false} FilterNoDuplicates<T, U>(xs: seq<T>, g: T -> Option<U>)
    requires NoDuplicates(xs)
    requires forall x, y :: x in xs && y in xs && g(x).Some? && g(x) == g(y) ==> x == y
    ensures NoDuplicates(MapFilter(xs, g))
  {
    if xs != [] {
      NoDuplicatesTail(xs);
      FilterNoDuplicates(xs[1..], g);
      if g(xs[0]).Some? {
        MapFilterIn(xs[1..], g, g(xs[0]).value);
      }
    }
  }

  function ChangedAt(p: map<ObjectKey, Entry>, c: map<ObjectKey, Entry>): ObjectKey -> Option<Entry> {
    (k: ObjectKey) => if k in c && !(k in p && p[k] == c[k]) then Some(c[k]) else None
  }

  lemma ChangedValues(p: map<ObjectKey, Entry>, c: map<ObjectKey, Entry>, keys: seq<ObjectKey>)
    requires WellKeyed(p) && WellKeyed(c) && NoDuplicates(keys) && forall k :: k in keys <==> k in c
    ensures NoDuplicates(MapFilter(keys, ChangedAt(p, c)))
    ensures forall e :: e in MapFilter(keys, ChangedAt(p, c)) <==> Holds(c, e) && !Holds(p, e)
  {
    var g := ChangedAt(p, c);
    FilterNoDuplicates(keys, g);
    forall e
      ensures e in MapFilter(keys, g) <==> Holds(c, e) && !Holds(p, e)
    {
      MapFilterIn(keys, g, e);
      if Holds(c, e) && !Holds(p, e) {
        assert g(e.Key()) == Some(e);
      }
    }
  }

  /** The difference names the entries that are new or not as before, and the keys that are gone. */
  lemma ChangedCharacterised(previous: seq<Entry>, current: seq<Entry>)
    requires UniqueKeys(previous) && UniqueKeys(current)
    ensures forall e :: e in DiffManifests(previous, current).changed <==> e in current && e !in previous
    ensures NoDuplicates(DiffManifests(previous, current).changed)
  {
    var p, c := ByKey(previous), ByKey(current);
    ByKeyProperties(previous);
    ByKeyProperties(current);
    KeyLeIsTotalOrder();
    SortedSetProperties(c.Keys, KeyLe);
    ChangedValues(p, c, SortedSet(c.Keys, KeyLe));
  }

  lemma DeletedCharacterised(previous: seq<Entry>, current: seq<Entry>)
    ensures forall k :: k in DiffManifests(previous, current).deleted <==> k in ByKey(previous) && k !in ByKey(current)
  {
    KeyLeIsTotalOrder();
    SortedSetProperties(ByKey(previous).Keys - ByKey(current).Keys, KeyLe);
  }

  /** The entries of the previous manifest that the difference leaves alone. */
  function Unaffected(affected: set<ObjectKey>): Entry -> Option<Entry> {
    (e: Entry) => if e.Key() in affected then None else Some(e)
  }

  lemma AffectedIn(d: ManifestDiff, k: ObjectKey)
    ensures k in d.Affected() <==> k in d.deleted || exists e :: e in d.changed && e.Key() == k
  {}

  /** A key is affected when an entry under it changed or it was deleted. */
  lemma AffectedCharacterised(previous: seq<Entry>, current: seq<Entry>, k: ObjectKey)
    requires UniqueKeys(previous) && UniqueKeys(current) && k in ByKey(previous)
    ensures var p, c := ByKey(previous), ByKey(current);
      k in DiffManifests(previous, current).Affected() <==> !(k in c && c[k] == p[k])
  {
    var p, c, d := ByKey(previous), ByKey(current), DiffManifests(previous, current);
    AffectedIn(d, k);
    DeletedCharacterised(previous, current);
    if k in c {
      ChangedUnderKey(previous, current, k);
    }
  }

  lemma ChangedUnderKey(previous: seq<Entry>, current: seq<Entry>, k: ObjectKey)
    requires UniqueKeys(previous) && UniqueKeys(current) && k in ByKey(previous) && k in ByKey(current)
    ensures (exists e :: e in DiffManifests(previous, current).changed && e.Key() == k) <==>
            ByKey(current)[k] != ByKey(previous)[k]
  {
    var p, c, changed := ByKey(previous), ByKey(current), DiffManifests(previous, current).changed;
    ByKeyProperties(previous);
    ByKeyProperties(current);
    ChangedCharacterised(previous, current);
    if e :| e in changed && e.Key() == k {
      assert Holds(c, e) && !Holds(p, e);
    }
    if c[k] != p[k] {
      assert Holds(c, c[k]) && !Holds(p, c[k]);
    }
  }

  /** An object of the previous manifest is left alone exactly when the current one lists it unchanged. */
  lemma KeptIffCommon(previous: seq<Entry>, current: seq<Entry>, e: Entry)
    requires UniqueKeys(previous) && UniqueKeys(current) && e in previous
    ensures e.Key() !in DiffManifests(previous, current).Affected() <==> e in current
  {
    ByKeyProperties(previous);
    ByKeyProperties(current);
    AffectedCharacterised(previous, current, e.Key());
  }

  lemma NoDuplicatesConcat<T>(a: seq<T>, b: seq<T>)
    requires NoDuplicates(a) && NoDuplicates(b) && forall x :: x in a ==> x !in b
    ensures NoDuplicates(a + b)
  {
    forall i, j | 0 <= i < j < |a + b|
      ensures (a + b)[i] != (a + b)[j]
    {
      if i < |a| <= j {
        assert a[i] in a && b[j - |a|] in b;
      }
    }
  }

  lemma KeptIn(previous: seq<Entry>, current: seq<Entry>, e: Entry)
    requires UniqueKeys(previous) && UniqueKeys(current)
    ensures e in MapFilter(previous, Unaffected(DiffManifests(previous, current).Affected())) <==>
              e in previous && e in current
  {
    var affected := DiffManifests(previous, current).Affected();
    FilteredIn(previous, affected, e);
    if e in previous {
      KeptIffCommon(previous, current, e);
    }
  }

  lemma FilteredIn(entries: seq<Entry>, affected: set<ObjectKey>, e: Entry)
    ensures e in MapFilter(entries, Unaffected(affected)) <==> e in entries && e.Key() !in affected
  {
    MapFilterIn(entries, Unaffected(affected), e);
    assert Unaffected(affected)(e) == if e.Key() in affected then None else Some(e);
  }

  lemma KeptEntries(previous: seq<Entry>, current: seq<Entry>)
    requires UniqueKeys(previous) && UniqueKeys(current)
    ensures var kept := MapFilter(previous, Unaffected(DiffManifests(previous, current).Affected()));
      NoDuplicates(kept) && forall e :: e in kept <==> e in previous && e in current
  {
    UniqueKeysNoDuplicates(previous);
    FilterNoDuplicates(previous, Unaffected(DiffManifests(previous, current).Affected()));
    forall e {
      KeptIn(previous, current, e);
    }
  }

  /** Patching the previous manifest with the difference gives the current one. */
  lemma PatchRoundTrip(previous: seq<Entry>, current: seq<Entry>)
    requires UniqueKeys(previous) && UniqueKeys(current)
    ensures var d := DiffManifests(previous, current);
      multiset(MapFilter(previous, Unaffected(d.Affected())) + d.changed) == multiset(current)
  {
    var d := DiffManifests(previous, current);
    var kept := MapFilter(previous, Unaffected(d.Affected()));
    KeptEntries(previous, current);
    ChangedCharacterised(previous, current);
    UniqueKeysNoDuplicates(current);
    NoDuplicatesConcat(kept, d.changed);
    SameElements(kept + d.changed, current);
  }

  /** The difference is empty exactly when the manifests list the same objects in the same state. */
  lemma DiffEmpty(previous: seq<Entry>, current: seq<Entry>)
    requires UniqueKeys(previous) && UniqueKeys(current)
    ensures DiffManifests(previous, current).IsEmpty() <==> multiset(previous) == multiset(current)
  {
    var d := DiffManifests(previous, current);
    PatchRoundTrip(previous, current);
    ChangedCharacterised(previous, current);
    DeletedCharacterised(previous, current);
    ByKeyProperties(previous);
    ByKeyProperties(current);
    if d.IsEmpty() {
      assert d.Affected() == {};
      MapFilterCongruence(previous, Unaffected({}), (e: Entry) => Some(e));
      MapFilterIdentity(previous);
      assert MapFilter(previous, Unaffected({})) + [] == previous;
    }
    if multiset(previous) == multiset(current) {
      PermutationElements(previous, current);
      EmptySequence(d.changed);
      assert ByKey(previous).Keys <= ByKey(current).Keys by {
        forall k | k in ByKey(previous)
          ensures k in ByKey(current)
        {
          assert Holds(ByKey(previous), ByKey(previous)[k]);
        }
      }
      EmptySequence(d.deleted);
    }
  }

  lemma {:induction false} MapFilterIdentity<T>(xs: seq<T>)
    ensures MapFilter(xs, (x: T) => Some(x)) == xs
  {
    if xs != [] {
      MapFilterIdentity(xs[1..]);
    }
  }

  // ---------- rows in the cache tables ----------

  type CacheId = nat

  datatype StoredRow = StoredRow(
    cacheId: CacheId, term: string, bucket: string, path: string, contentHash: string, generation: nat,
    fileName: Option<string>, matchType: Option<string>, created: Option<string>, updated: Option<string>, size: nat,
    exactLines: seq<nat>, partialLines: seq<nat>, partialTokens: seq<string>)

  function OrNone(o: Option<string>): Option<string> { if o == Some("") then None else o }

  /** The table row that `persist_snapshot` writes. */
  function Store(id: CacheId, term: string, r: Row): StoredRow {
    StringLeIsTotalOrder();
    StoredRow(id, term, r.bucket, r.path, r.contentHash, r.generation,
              r.fileName, r.matchType, OrNone(r.created), OrNone(r.updated), Get(r.size, 0),
              r.exactLines, r.partialLines, SortedSet(r.partialTokens, StringLe))
  }

  /** The row that `load_results` builds from it. */
  function Load(s: StoredRow): Row {
    Row(s.bucket, s.path, s.contentHash, s.generation,
        Some(if s.fileName.Some? && s.fileName.value != "" then s.fileName.value else Basename(s.path)),
        Some(Get(s.matchType, "")), Some(Get(s.created, "")), Some(Get(s.updated, "")), Some(s.size),
        s.exactLines, s.partialLines, set t | t in s.partialTokens)
  }

  /** A row with the fields filled in that a trip through the cache fills in. */
  function Normal(r: Row): Row {
    r.(fileName := Some(if r.fileName.Some? && r.fileName.value != "" then r.fileName.value else Basename(r.path)),
       matchType := Some(Get(r.matchType, "")), created := Some(Get(r.created, "")),
       updated := Some(Get(r.updated, "")), size := Some(Get(r.size, 0)))
  }

  /** Storing and loading a row normalises it and does nothing else. */
  lemma StoreLoad(id: CacheId, term: string, r: Row)
    ensures Load(Store(id, term, r)) == Normal(r)
    ensures Normal(Normal(r)) == Normal(r) && Normal(r).Key() == r.Key()
  {
    StringLeIsTotalOrder();
    SortedSetProperties(r.partialTokens, StringLe);
    assert (set t | t in SortedSet(r.partialTokens, StringLe)) == r.partialTokens;
    if |Basename(r.path)| == 0 {
      assert Basename(r.path) == "";
    }
  }

  function NormalRow(r: Row): Option<Row> { Some(Normal(r)) }

  function NormalRows(rows: seq<Row>): seq<Row> { MapFilter(rows, NormalRow) }

  /** The same rows up to normalisation and order. */
  ghost predicate SameRows(a: seq<Row>, b: seq<Row>) {
    multiset(NormalRows(a)) == multiset(NormalRows(b))
  }

  // ---------- the merge ----------

  function KeepRow(affected: set<ObjectKey>): Row -> Option<Row> {
    (r: Row) => if r.Key() in affected then None else Some(r)
  }

  /** `_merge_refreshed_results`. */
  function MergeRefreshed(cached: Results, refreshed: Results, affected: set<ObjectKey>): Results {
    map t | t in cached ::
      SortOn(MapFilter(cached[t], KeepRow(affected)) + (if t in refreshed then refreshed[t] else []), RowKey, KeyLe)
  }

  lemma SameRowsConcat(a: seq<Row>, b: seq<Row>, c: seq<Row>, d: seq<Row>)
    requires SameRows(a, b) && SameRows(c, d)
    ensures SameRows(a + c, b + d)
  {
    MapFilterConcat(a, c, NormalRow);
    MapFilterConcat(b, d, NormalRow);
  }

  lemma SameRowsPermutation(a: seq<Row>, b: seq<Row>)
    requires multiset(a) == multiset(b)
    ensures SameRows(a, b)
  {
    MapFilterPermutation(a, b, NormalRow);
  }

  /** Normalising and dropping affected rows commute. */
  lemma NormalKeepCommute(rows: seq<Row>, affected: set<ObjectKey>)
    ensures NormalRows(MapFilter(rows, KeepRow(affected))) == MapFilter(NormalRows(rows), KeepRow(affected))
  {
    var both := (r: Row) => if r.Key() in affected then None else Some(Normal(r));
    MapFilterFusion(rows, KeepRow(affected), NormalRow, both);
    MapFilterFusion(rows, NormalRow, KeepRow(affected), both);
  }

  lemma SameRowsKeep(a: seq<Row>, b: seq<Row>, affected: set<ObjectKey>)
    requires SameRows(a, b)
    ensures SameRows(MapFilter(a, KeepRow(affected)), MapFilter(b, KeepRow(affected)))
  {
    NormalKeepCommute(a, affected);
    NormalKeepCommute(b, affected);
    MapFilterPermutation(NormalRows(a), NormalRows(b), KeepRow(affected));
  }

  /** Dropping the rows of affected objects is searching the unaffected entries. */
  lemma KeepSearches(entries: seq<Entry>, term: string, m: Matcher, affected: set<ObjectKey>)
    requires Keyed(m)
    ensures MapFilter(RowsFor(entries, term, m), KeepRow(affected)) ==
              RowsFor(MapFilter(entries, Unaffected(affected)), term, m)
  {
    var both := (e: Entry) => if e.Key() in affected then None else m(e, term);
    MapFilterFusion(entries, (e: Entry) => m(e, term), KeepRow(affected), both);
    MapFilterFusion(entries, Unaffected(affected), (e: Entry) => m(e, term), both);
  }

  /** Rows cached for the previous manifest, refreshed for what changed, are the rows of the current manifest. */
  lemma RefreshedRows(previous: seq<Entry>, current: seq<Entry>, cached: seq<Row>, refreshed: seq<Row>, term: string,
                      m: Matcher)
    requires UniqueKeys(previous) && UniqueKeys(current) && Keyed(m)
    requires SameRows(cached, RowsFor(previous, term, m))
    requires SameRows(refreshed, RowsFor(DiffManifests(previous, current).changed, term, m))
    ensures SameRows(MapFilter(cached, KeepRow(DiffManifests(previous, current).Affected())) + refreshed,
                     RowsFor(current, term, m))
  {
    var d := DiffManifests(previous, current);
    var kept := MapFilter(previous, Unaffected(d.Affected()));
    SameRowsKeep(cached, RowsFor(previous, term, m), d.Affected());
    KeepSearches(previous, term, m, d.Affected());
    SameRowsConcat(MapFilter(cached, KeepRow(d.Affected())), RowsFor(kept, term, m),
                   refreshed, RowsFor(d.changed, term, m));
    RowsForConcat(kept, d.changed, term, m);
    PatchRoundTrip(previous, current);
    RowsForPermutation(kept + d.changed, current, term, m);
    SameRowsPermutation(RowsFor(kept + d.changed, term, m), RowsFor(current, term, m));
  }
}
