/** Listing the objects of possibly overlapping roots into one manifest. */
module Listing {
  import opened Model
  import opened Ordering
  import opened Sequences
  import opened Text
  import opened Wrappers

  /** Object metadata as the storage service lists it; absent fields are already `""` or 0. */
  datatype Blob = Blob(name: string, contentHash: string, updated: string, size: nat, generation: nat, created: string)

  /** What one requested root listed: the raw string prefix decides what is in it. */
  datatype Root = Root(bucket: string, blobs: seq<Blob>)

  datatype ListError = TooManyFiles | FileTooLarge

  /** Which names a content search considers; `excluded` stands for all path exclusion patterns. */
  datatype Exclusions = Exclusions(lower: char -> char, keywords: seq<string>, excluded: string -> bool)

  predicate ContentAccepts(x: Exclusions, name: string) {
    var lowered := Fold(name, x.lower);
    EndsWith(lowered, ".py") && (forall k | k in x.keywords :: !Contains(lowered, Fold(k, x.lower))) &&
        !x.excluded(name)
  }

  predicate FilenameAccepts(name: string) { name != "" && !EndsWith(name, "/") }

  function EntryOf(bucket: string, b: Blob): Entry {
    Entry(bucket, b.name, b.contentHash, b.updated, b.size, b.generation, b.created)
  }

  // ---------- what a listing amounts to ----------

  /** The accepted objects of one root, in listing order. */
  function Accepted(bucket: string, blobs: seq<Blob>, accepts: string -> bool): seq<Entry> {
    MapFilter(blobs, (b: Blob) => if accepts(b.name) then Some(EntryOf(bucket, b)) else None)
  }

  /** All accepted objects, root after root; objects under several roots come several times. */
  function Listed(roots: seq<Root>, accepts: string -> bool): seq<Entry> {
    if roots == [] then [] else
      var last := roots[|roots| - 1];
      Listed(roots[..|roots| - 1], accepts) + Accepted(last.bucket, last.blobs, accepts)
  }

  function Keys(entries: seq<Entry>): set<ObjectKey> { set e | e in entries :: e.Key() }

  /** Each object once, as it was first listed. */
  function Firsts(entries: seq<Entry>): seq<Entry> {
    if entries == [] then [] else
      var before, e := entries[..|entries| - 1], entries[|entries| - 1];
      Firsts(before) + if e.Key() in Keys(Firsts(before)) then [] else [e]
  }

  /** No earlier object has the key of the one at `i`. */
  ghost predicate IsFirst(entries: seq<Entry>, i: int) {
    0 <= i < |entries| && forall j :: 0 <= j < i ==> entries[j].Key() != entries[i].Key()
  }

  ghost predicate ListedFirst(entries: seq<Entry>, e: Entry) {
    exists i :: IsFirst(entries, i) && entries[i] == e
  }

  lemma KeysConcat(a: seq<Entry>, b: seq<Entry>)
    ensures Keys(a + b) == Keys(a) + Keys(b)
  {}

  lemma LastIsFirst(before: seq<Entry>, last: Entry)
    ensures IsFirst(before + [last], |before|) <==> last.Key() !in Keys(before)
  {
    var entries, n := before + [last], |before|;
    assert forall j :: 0 <= j < n ==> entries[j] == before[j];
    if last.Key() in Keys(before) {
      var d :| d in before && d.Key() == last.Key();
      var j :| 0 <= j < n && before[j] == d;
      assert entries[j].Key() == entries[n].Key();
    } else {
      assert forall j :: 0 <= j < n ==> before[j].Key() in Keys(before);
    }
  }

  lemma ListedFirstStep(before: seq<Entry>, last: Entry, e: Entry)
    ensures ListedFirst(before + [last], e) <==> ListedFirst(before, e) || (e == last && last.Key() !in Keys(before))
  {
    var entries, n := before + [last], |before|;
    LastIsFirst(before, last);
    assert forall i :: 0 <= i < n ==> entries[i] == before[i];
    assert forall i :: 0 <= i < n ==> (IsFirst(entries, i) <==> IsFirst(before, i));
    if i :| IsFirst(before, i) && before[i] == e {
      assert IsFirst(entries, i);
    }
  }

  lemma UniqueKeysStep(entries: seq<Entry>, e: Entry)
    requires UniqueKeys(entries) && e.Key() !in Keys(entries)
    ensures UniqueKeys(entries + [e])
  {
    assert forall j :: 0 <= j < |entries| ==> entries[j].Key() in Keys(entries);
  }

  /** Overlapping roots are counted once: same objects, each once, and in the form in which it was first listed. */
  lemma {:induction false} FirstsProperties(entries: seq<Entry>)
    ensures UniqueKeys(Firsts(entries))
    ensures Keys(Firsts(entries)) == Keys(entries)
    ensures forall e :: e in Firsts(entries) <==> ListedFirst(entries, e)
  {
    if entries == [] {
      assert forall e :: !ListedFirst(entries, e);
    } else {
      var before, last := entries[..|entries| - 1], entries[|entries| - 1];
      assert entries == before + [last];
      FirstsProperties(before);
      KeysConcat(before, [last]);
      KeysConcat(Firsts(before), [last]);
      if last.Key() !in Keys(Firsts(before)) {
        UniqueKeysStep(Firsts(before), last);
      }
      forall e
        ensures e in Firsts(entries) <==> ListedFirst(entries, e)
      {
        ListedFirstStep(before, last, e);
      }
    }
  }

  lemma {:induction false} FirstsPrefix(a: seq<Entry>, b: seq<Entry>)
    ensures Firsts(a) <= Firsts(a + b)
    decreases |b|
  {
    if b == [] {
      assert a + b == a;
    } else {
      var shorter := b[..|b| - 1];
      assert (a + b)[..|a + b| - 1] == a + shorter;
      FirstsPrefix(a, shorter);
    }
  }

  // ---------- the listing loop ----------

  predicate Oversize(e: Entry, maxBytes: Option<nat>) { maxBytes.Some? && e.size > maxBytes.value }

  /**
   * The error for some distinct objects in listing order: the first object beyond the number of files or above the
   * byte limit decides, and one that is both counts as beyond the number.
   */
  function LimitError(entries: seq<Entry>, maxFiles: nat, maxBytes: Option<nat>): Option<ListError> {
    if exists i | 0 <= i < |entries| :: i < maxFiles && Oversize(entries[i], maxBytes) then Some(FileTooLarge)
    else if |entries| > maxFiles then Some(TooManyFiles)
    else None
  }

  /** After some objects were seen, the dict holds the first of each key in the order of insertion. */
  ghost predicate Seen(seen: seq<Entry>, byKey: map<ObjectKey, Entry>, inserted: seq<Entry>, maxFiles: nat,
                       maxBytes: Option<nat>) {
    && inserted == Firsts(seen) && LimitError(inserted, maxFiles, maxBytes) == None
    && byKey.Keys == Keys(inserted)
    && |byKey| == |inserted|
  }

  lemma SeenAgain(seen: seq<Entry>, e: Entry, byKey: map<ObjectKey, Entry>, inserted: seq<Entry>, maxFiles: nat,
                  maxBytes: Option<nat>)
    requires Seen(seen, byKey, inserted, maxFiles, maxBytes) && e.Key() in byKey
    ensures Seen(seen + [e], byKey, inserted, maxFiles, maxBytes)
  {
    assert (seen + [e])[..|seen|] == seen;
  }

  lemma KeysInsert(byKey: map<ObjectKey, Entry>, inserted: seq<Entry>, e: Entry)
    requires byKey.Keys == Keys(inserted) && e.Key() !in byKey
    ensures byKey[e.Key() := e].Keys == Keys(inserted + [e]) && |byKey[e.Key() := e]| == |byKey| + 1
  {
    KeysConcat(inserted, [e]);
    assert Keys([e]) == {e.Key()};
  }

  lemma LimitInsert(inserted: seq<Entry>, e: Entry, maxFiles: nat, maxBytes: Option<nat>)
    requires LimitError(inserted, maxFiles, maxBytes) == None
    ensures LimitError(inserted + [e], maxFiles, maxBytes) ==
            if |inserted| >= maxFiles then Some(TooManyFiles) else if Oversize(e, maxBytes) then Some(FileTooLarge)
                else None
  {
    var more := inserted + [e];
    assert forall i :: 0 <= i < |inserted| ==> more[i] == inserted[i];
    if |inserted| < maxFiles && Oversize(e, maxBytes) {
      assert more[|inserted|] == e;
    }
  }

  /** The first violation decides: whatever follows does not change the error. */
  lemma LimitPrefix(a: seq<Entry>, b: seq<Entry>, maxFiles: nat, maxBytes: Option<nat>)
    requires a <= b && LimitError(a, maxFiles, maxBytes).Some?
    ensures LimitError(b, maxFiles, maxBytes) == LimitError(a, maxFiles, maxBytes)
  {
    assert forall i :: 0 <= i < |a| ==> b[i] == a[i];
  }

  lemma SeenNew(seen: seq<Entry>, e: Entry, byKey: map<ObjectKey, Entry>, inserted: seq<Entry>, maxFiles: nat,
                maxBytes: Option<nat>)
    requires Seen(seen, byKey, inserted, maxFiles, maxBytes) && e.Key() !in byKey
    ensures Firsts(seen + [e]) == inserted + [e]
    ensures LimitError(inserted + [e], maxFiles, maxBytes) ==
            if |byKey| >= maxFiles then Some(TooManyFiles) else if Oversize(e, maxBytes) then Some(FileTooLarge)
                else None
    ensures LimitError(inserted + [e], maxFiles, maxBytes) == None ==>
              Seen(seen + [e], byKey[e.Key() := e], inserted + [e], maxFiles, maxBytes)
  {
    assert (seen + [e])[..|seen|] == seen;
    KeysInsert(byKey, inserted, e);
    LimitInsert(inserted, e, maxFiles, maxBytes);
  }

  lemma AcceptedStep(bucket: string, blobs: seq<Blob>, j: nat, accepts: string -> bool)
    requires j < |blobs|
    ensures Accepted(bucket, blobs[..j + 1], accepts) ==
            Accepted(bucket, blobs[..j], accepts) + if accepts(blobs[j].name) then [EntryOf(bucket, blobs[j])] else []
  {
    var g := (b: Blob) => if accepts(b.name) then Some(EntryOf(bucket, b)) else None;
    assert blobs[..j + 1] == blobs[..j] + [blobs[j]];
    MapFilterConcat(blobs[..j], [blobs[j]], g);
    assert MapFilter([blobs[j]], g) == AsSeq(g(blobs[j])) + MapFilter([], g);
  }

  /** Objects beyond the ones seen so far do not change the error. */
  lemma LimitExceeded(seen: seq<Entry>, rest: seq<Entry>, maxFiles: nat, maxBytes: Option<nat>)
    requires LimitError(Firsts(seen), maxFiles, maxBytes).Some?
    ensures LimitError(Firsts(seen + rest), maxFiles, maxBytes) == LimitError(Firsts(seen), maxFiles, maxBytes)
  {
    FirstsPrefix(seen, rest);
    LimitPrefix(Firsts(seen), Firsts(seen + rest), maxFiles, maxBytes);
  }

  lemma {:induction false} ListedSplit(roots: seq<Root>, i: nat, accepts: string -> bool) returns (rest: seq<Entry>)
    requires i <= |roots|
    ensures Listed(roots, accepts) == Listed(roots[..i], accepts) + rest
    decreases |roots| - i
  {
    if i == |roots| {
      assert roots[..i] == roots;
      rest := [];
    } else {
      assert roots[..|roots| - 1][..i] == roots[..i];
      var last := roots[|roots| - 1];
      rest := ListedSplit(roots[..|roots| - 1], i, accepts);
      rest := rest + Accepted(last.bucket, last.blobs, accepts);
    }
  }

  /** One object of the listing loop: kept, skipped as already listed, or over a limit. */
  method Add(ghost seen: seq<Entry>, e: Entry, byKey: map<ObjectKey, Entry>, inserted: seq<Entry>, maxFiles: nat,
             maxBytes: Option<nat>)
    returns (error: Option<ListError>, byKey': map<ObjectKey, Entry>, inserted': seq<Entry>)
    requires Seen(seen, byKey, inserted, maxFiles, maxBytes)
    ensures error.None? ==> Seen(seen + [e], byKey', inserted', maxFiles, maxBytes)
    ensures error.Some? ==> LimitError(Firsts(seen + [e]), maxFiles, maxBytes) == error
  {
    error, byKey', inserted' := None, byKey, inserted;
    if e.Key() in byKey {
      SeenAgain(seen, e, byKey, inserted, maxFiles, maxBytes);
      return;
    }
    SeenNew(seen, e, byKey, inserted, maxFiles, maxBytes);
    if |byKey| >= maxFiles {
      error := Some(TooManyFiles);
    } else if Oversize(e, maxBytes) {
      error := Some(FileTooLarge);
    } else {
      byKey', inserted' := byKey[e.Key() := e], inserted + [e];
    }
  }

  /** The inner loop: the objects of one root. */
  method AddRoot(ghost seen: seq<Entry>, root: Root, accepts: string -> bool, byKey: map<ObjectKey, Entry>,
                 inserted: seq<Entry>, maxFiles: nat, maxBytes: Option<nat>)
    returns (error: Option<ListError>, byKey': map<ObjectKey, Entry>, inserted': seq<Entry>)
    requires Seen(seen, byKey, inserted, maxFiles, maxBytes)
    ensures var all := seen + Accepted(root.bucket, root.blobs, accepts);
      && (error.None? ==> Seen(all, byKey', inserted', maxFiles, maxBytes))
      && (error.Some? ==> LimitError(Firsts(all), maxFiles, maxBytes) == error)
  {
    error, byKey', inserted' := None, byKey, inserted;
    assert seen + [] == seen;
    for j := 0 to |root.blobs|
      invariant error.None?
      invariant Seen(seen + Accepted(root.bucket, root.blobs[..j], accepts), byKey', inserted', maxFiles, maxBytes)
    {
      var blob := root.blobs[j];
      ghost var so := Accepted(root.bucket, root.blobs[..j], accepts);
      AcceptedStep(root.bucket, root.blobs, j, accepts);
      if accepts(blob.name) {
        var e := EntryOf(root.bucket, blob);
        assert seen + so + [e] == seen + (so + [e]);
        error, byKey', inserted' := Add(seen + so, e, byKey', inserted', maxFiles, maxBytes);
        if error.Some? {
          AcceptedRest(root, j + 1, accepts, seen, maxFiles, maxBytes);
          return;
        }
      } else {
        assert so + [] == so;
      }
    }
    assert root.blobs[..|root.blobs|] == root.blobs;
  }

  lemma AcceptedRest(root: Root, j: nat, accepts: string -> bool, seen: seq<Entry>, maxFiles: nat,
                     maxBytes: Option<nat>)
    requires j <= |root.blobs|
    requires LimitError(Firsts(seen + Accepted(root.bucket, root.blobs[..j], accepts)), maxFiles, maxBytes).Some?
    ensures LimitError(Firsts(seen + Accepted(root.bucket, root.blobs, accepts)), maxFiles, maxBytes) ==
            LimitError(Firsts(seen + Accepted(root.bucket, root.blobs[..j], accepts)), maxFiles, maxBytes)
  {
    var some := Accepted(root.bucket, root.blobs[..j], accepts);
    var more := Accepted(root.bucket, root.blobs[j..], accepts);
    assert root.blobs == root.blobs[..j] + root.blobs[j..];
    MapFilterConcat(root.blobs[..j], root.blobs[j..],
                    (b: Blob) => if accepts(b.name) then Some(EntryOf(root.bucket, b)) else None);
    assert seen + Accepted(root.bucket, root.blobs, accepts) == seen + some + more;
    LimitExceeded(seen + some, more, maxFiles, maxBytes);
  }

  /** The loop over the roots, which both listings share: the error of the distinct objects, or else their manifest. */
  method ListObjects(roots: seq<Root>, accepts: string -> bool, maxFiles: nat, maxBytes: Option<nat>)
    returns (r: Result<seq<Entry>, ListError>)
    ensures r == ListingOf(Listed(roots, accepts), maxFiles, maxBytes)
  {
    var byKey: map<ObjectKey, Entry>, inserted: seq<Entry> := map[], [];
    for i := 0 to |roots|
      invariant Seen(Listed(roots[..i], accepts), byKey, inserted, maxFiles, maxBytes)
    {
      var error;
      ghost var so := Listed(roots[..i], accepts);
      assert roots[..i + 1][..i] == roots[..i];
      error, byKey, inserted := AddRoot(so, roots[i], accepts, byKey, inserted, maxFiles, maxBytes);
      if error.Some? {
        RootsExceed(roots, i, accepts, maxFiles, maxBytes);
        return Err(error.value);
      }
    }
    assert roots[..|roots|] == roots;
    r := Ok(SortOn(inserted, EntryKey, KeyLe));
  }

  lemma RootsExceed(roots: seq<Root>, i: nat, accepts: string -> bool, maxFiles: nat, maxBytes: Option<nat>)
    requires i < |roots|
    requires var some := Listed(roots[..i], accepts) + Accepted(roots[i].bucket, roots[i].blobs, accepts);
      LimitError(Firsts(some), maxFiles, maxBytes).Some?
    ensures var some := Listed(roots[..i], accepts) + Accepted(roots[i].bucket, roots[i].blobs, accepts);
      LimitError(Firsts(Listed(roots, accepts)), maxFiles, maxBytes) == LimitError(Firsts(some), maxFiles, maxBytes)
  {
    assert roots[..i + 1][..i] == roots[..i];
    var rest := ListedSplit(roots, i + 1, accepts);
    LimitExceeded(Listed(roots[..i + 1], accepts), rest, maxFiles, maxBytes);
  }

  /** What a listing amounts to: the limit error of the distinct objects, or else the sorted distinct objects. */
  function ListingOf(listed: seq<Entry>, maxFiles: nat, maxBytes: Option<nat>): Result<seq<Entry>, ListError> {
    match LimitError(Firsts(listed), maxFiles, maxBytes)
    case Some(error) => Err(error)
    case None => Ok(SortOn(Firsts(listed), EntryKey, KeyLe))
  }

  /** `list_manifest`: Python files outside the exclusions, with both limits. */
  method ListManifest(roots: seq<Root>, x: Exclusions, maxFiles: nat, maxBytes: nat)
    returns (r: Result<seq<Entry>, ListError>)
    ensures r == ListingOf(Listed(roots, (name: string) => ContentAccepts(x, name)), maxFiles, Some(maxBytes))
  {
    r := ListObjects(roots, (name: string) => ContentAccepts(x, name), maxFiles, Some(maxBytes));
  }

  /** `list_filename_manifest`: all names but folder markers, of any size. */
  method ListFilenameManifest(roots: seq<Root>, maxFiles: nat) returns (r: Result<seq<Entry>, ListError>)
    ensures r == ListingOf(Listed(roots, FilenameAccepts), maxFiles, None)
    ensures r != Err(FileTooLarge)
  {
    r := ListObjects(roots, FilenameAccepts, maxFiles, None);
  }

  /** A manifest is sorted, has unique keys, and holds exactly the listed objects in their first form. */
  lemma ManifestProperties(listed: seq<Entry>, maxFiles: nat, maxBytes: Option<nat>)
    requires ListingOf(listed, maxFiles, maxBytes).Ok?
    ensures var manifest := ListingOf(listed, maxFiles, maxBytes).value;
      && SortedOn(manifest, EntryKey, KeyLe) && UniqueKeys(manifest)
      && Keys(manifest) == Keys(listed)
      && (forall e :: e in manifest <==> ListedFirst(listed, e))
      && |manifest| <= maxFiles && forall e :: e in manifest ==> !Oversize(e, maxBytes)
  {
    var firsts := Firsts(listed);
    var manifest := SortOn(firsts, EntryKey, KeyLe);
    KeyLeIsTotalOrder();
    FirstsProperties(listed);
    SortOnSorted(firsts, EntryKey, KeyLe);
    DistinctPermutation(firsts, manifest, EntryKey);
    NoneOversize(firsts, maxFiles, maxBytes);
  }

  lemma NoneOversize(entries: seq<Entry>, maxFiles: nat, maxBytes: Option<nat>)
    requires LimitError(entries, maxFiles, maxBytes) == None
    ensures |entries| <= maxFiles && forall e :: e in entries ==> !Oversize(e, maxBytes)
  {
    forall e | e in entries
      ensures !Oversize(e, maxBytes)
    {
      var i :| 0 <= i < |entries| && entries[i] == e;
    }
  }

  /** The entry is the object: the bucket of its root, and what the storage service says of it. */
  predicate Describes(e: Entry, root: Root, blob: Blob) {
    && e.bucket == root.bucket && e.path == blob.name && e.contentHash == blob.contentHash && e.updated == blob.updated
    && e.size == blob.size && e.generation == blob.generation && e.created == blob.created
  }

  /** An object of a root takes part in a listing. */
  ghost predicate IsListed(roots: seq<Root>, accepts: string -> bool, e: Entry) {
    exists root, blob :: root in roots && blob in root.blobs && accepts(blob.name) && Describes(e, root, blob)
  }

  /** What is listed are the accepted objects of the roots, and no others. */
  lemma {:induction false} ListedIn(roots: seq<Root>, accepts: string -> bool, e: Entry)
    ensures e in Listed(roots, accepts) <==> IsListed(roots, accepts, e)
  {
    if roots == [] {
      return;
    }
    var before, last := roots[..|roots| - 1], roots[|roots| - 1];
    assert roots == before + [last];
    ListedIn(before, accepts, e);
    var g := (b: Blob) => if accepts(b.name) then Some(EntryOf(last.bucket, b)) else None;
    MapFilterIn(last.blobs, g, e);
    if blob :| blob in last.blobs && g(blob) == Some(e) {
      assert last in roots && accepts(blob.name) && Describes(e, last, blob);
    }
    if root, blob :| root in roots && blob in root.blobs && accepts(blob.name) && Describes(e, root, blob) {
      if root !in before {
        assert root == last && g(blob) == Some(e);
      } else {
        assert IsListed(before, accepts, e);
      }
    }
    if IsListed(before, accepts, e) {
      var root, blob :| root in before && blob in root.blobs && accepts(blob.name) && Describes(e, root, blob);
      assert root in roots;
    }
  }

  /** Which names a content search lists: Python files, ignoring case, without an excluded word or pattern. */
  lemma ContentAcceptsIff(x: Exclusions, name: string)
    ensures ContentAccepts(x, name) <==>
            && (exists stem :: Fold(name, x.lower) == stem + ".py")
            && (forall k :: k in x.keywords ==> forall a, b :: Fold(name, x.lower) != a + Fold(k, x.lower) + b)
            && !x.excluded(name)
  {
    EndsWithIff(Fold(name, x.lower), ".py");
    forall k | k in x.keywords
      ensures Contains(Fold(name, x.lower), Fold(k, x.lower)) <==>
              exists a, b :: Fold(name, x.lower) == a + Fold(k, x.lower) + b
    {
      ContainsIff(Fold(name, x.lower), Fold(k, x.lower));
    }
  }

  /** A filename search lists every name but the empty one and folder markers. */
  lemma FilenameAcceptsIff(name: string)
    ensures FilenameAccepts(name) <==> name != "" && name[|name| - 1] != '/'
  {
    if name != "" {
      EndsWithSlash(name);
    }
  }

  /** When a listing fails, and why. */
  lemma LimitErrorMeans(entries: seq<Entry>, maxFiles: nat, maxBytes: Option<nat>)
    ensures LimitError(entries, maxFiles, maxBytes) == None <==>
            |entries| <= maxFiles && (maxBytes.Some? ==> forall e :: e in entries ==> e.size <= maxBytes.value)
    ensures LimitError(entries, maxFiles, maxBytes) == Some(FileTooLarge) <==>
            maxBytes.Some? && exists i :: 0 <= i < |entries| && i < maxFiles && entries[i].size > maxBytes.value
  {
    if LimitError(entries, maxFiles, maxBytes) == None {
      NoneOversize(entries, maxFiles, maxBytes);
    }
    if |entries| <= maxFiles && (maxBytes.Some? ==> forall e :: e in entries ==> e.size <= maxBytes.value) {
      forall i | 0 <= i < |entries|
        ensures !Oversize(entries[i], maxBytes)
      {
        assert entries[i] in entries;
      }
    }
  }
}
