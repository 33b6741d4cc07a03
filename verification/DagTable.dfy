/** Building the DAG lookup from table rows and answering for a script path. */
module DagTable {
  import opened DagIndex
  import opened Sequences
  import opened Text
  import opened Wrappers

  datatype DagRow = DagRow(path: string, metadata: DagMetadata)

  /** `text.partition("/")[2]`. */
  function AfterSlash(s: string): string {
    if s == [] then [] else if s[0] == '/' then s[1..] else AfterSlash(s[1..])
  }

  function NormalisePath(value: string, lower: char -> char): string {
    var text := Strip(value);
    var path := if StartsWith(text, "gs://") then AfterSlash(text[5..]) else text;
    Fold(StripSlashes(path), lower)
  }

  lemma {:induction false} AfterFirstSlash(bucket: string, path: string)
    requires '/' !in bucket
    ensures AfterSlash(bucket + "/" + path) == path
  {
    if bucket == [] {
      assert bucket + "/" + path == "/" + path;
    } else {
      assert bucket[0] in bucket;
      assert (bucket + "/" + path)[1..] == bucket[1..] + "/" + path;
      AfterFirstSlash(bucket[1..], path);
    }
  }

  /** Stripping slashes from less of a name leaves less, if the whole does not start with one. */
  lemma ShorterKey(q: string, z: string)
    requires q != [] && q[0] != '/'
    ensures |StripSlashes(z)| < |StripSlashes(q + z)|
  {
    var before := LeftStripSplit(z, IsSlash);
    RightStripAppend(before, LeftStrip(z, IsSlash), IsSlash);
    RightStripAppend(q, z, IsSlash);
    RightStripAppend([q[0]], q[1..], IsSlash);
    assert q == [q[0]] + q[1..] && (q + z)[0] == q[0];
  }

  /** A name without white space or slashes at its ends that is no URI is its own key, in lower case. */
  lemma PlainKey(path: string, lower: char -> char)
    requires path != "" && !StartsWith(path, "gs://")
    requires forall c :: c in [path[0], path[|path| - 1]] ==> !IsSpace(c) && c != '/'
    ensures NormalisePath(path, lower) == Fold(path, lower)
  {
    assert path[0] in [path[0], path[|path| - 1]] && path[|path| - 1] in [path[0], path[|path| - 1]];
    StripUnchanged(path, IsSpace);
    StripUnchanged(path, IsSlash);
  }

  /** White space at the end of a URI or of a name does not count. */
  lemma UriText(bucket: string, path: string)
    requires '/' !in bucket
    ensures Strip("gs://" + bucket + "/" + path) == "gs://" + bucket + "/" + RightStrip(path, IsSpace)
  {
    var start := "gs://" + bucket + "/";
    assert (start + path)[0] == 'g' && start[|start| - 1] == '/';
    RightStripAppend(start, path, IsSpace);
    assert start + [] == start;
  }

  lemma UriKey(bucket: string, path: string, lower: char -> char)
    requires '/' !in bucket
    ensures NormalisePath("gs://" + bucket + "/" + path, lower) == Fold(StripSlashes(RightStrip(path, IsSpace)), lower)
  {
    var rest := RightStrip(path, IsSpace);
    UriText(bucket, path);
    assert ("gs://" + bucket + "/" + rest)[5..] == bucket + "/" + rest;
    AfterFirstSlash(bucket, rest);
  }

  lemma {:induction false} AfterSlashSplit(s: string) returns (before: string)
    ensures s == before + AfterSlash(s)
  {
    if s == [] {
      before := [];
    } else if s[0] == '/' {
      before := [s[0]];
    } else {
      var more := AfterSlashSplit(s[1..]);
      before := [s[0]] + more;
      assert s == [s[0]] + s[1..];
    }
  }

  /** A name means the same as a bare name and as the rest of a URI. */
  predicate PlainName(path: string) {
    Strip(path) == "" || (!IsSpace(path[0]) && !StartsWith(path, "gs://"))
  }

  /** A name that starts like a URI loses its beginning. */
  lemma UriNameShorter(path: string)
    requires Strip(path) != "" && StartsWith(Strip(path), "gs://")
    ensures |StripSlashes(AfterSlash(Strip(path)[5..]))| < |StripSlashes(RightStrip(path, IsSpace))|
  {
    var text := Strip(path);
    var before := LeftStripSplit(path, IsSpace);
    RightStripAppend(before, LeftStrip(path, IsSpace), IsSpace);
    StartKept(before, path);
    UriRestShorter(before, text);
  }

  lemma UriRestShorter(before: string, text: string)
    requires StartsWith(text, "gs://") && (before != [] ==> before[0] != '/')
    ensures |StripSlashes(AfterSlash(text[5..]))| < |StripSlashes(before + text)|
  {
    var skipped := AfterSlashSplit(text[5..]);
    var q := before + ("gs://" + skipped);
    assert text == "gs://" + text[5..];
    assert before + text == q + AfterSlash(text[5..]);
    ShorterKey(q, AfterSlash(text[5..]));
  }

  /** A name that starts with white space loses it. */
  lemma SpacedNameShorter(path: string)
    requires Strip(path) != "" && IsSpace(path[0])
    ensures |StripSlashes(Strip(path))| < |StripSlashes(RightStrip(path, IsSpace))|
  {
    var before := LeftStripSplit(path, IsSpace);
    RightStripAppend(before, LeftStrip(path, IsSpace), IsSpace);
    StartKept(before, path);
    ShorterKey(before, Strip(path));
  }

  /** Neither form of a blank name leaves anything. */
  lemma BlankName(path: string)
    requires Strip(path) == ""
    ensures RightStrip(path, IsSpace) == ""
  {
    var before := LeftStripSplit(path, IsSpace);
    RightStripAppend(before, LeftStrip(path, IsSpace), IsSpace);
  }

  /**
   * An object's URI and its bare name are the same to the lookup, whatever the bucket, exactly for names that are
   * blank, or start neither with white space nor like a URI.
   */
  lemma UriAndNameAgreeIff(bucket: string, path: string, lower: char -> char)
    requires '/' !in bucket
    ensures NormalisePath("gs://" + bucket + "/" + path, lower) == NormalisePath(path, lower) <==> PlainName(path)
  {
    UriKey(bucket, path, lower);
    if Strip(path) == "" {
      BlankName(path);
    } else if StartsWith(Strip(path), "gs://") {
      UriNameShorter(path);
      UriPrefixKept(path);
    } else if IsSpace(path[0]) {
      SpacedNameShorter(path);
    } else if StartsWith(path, "gs://") {
      UriPrefixStays(path);
    }
  }

  lemma UriPrefixStays(path: string)
    requires StartsWith(path, "gs://")
    ensures StartsWith(RightStrip(path, IsSpace), "gs://")
  {
    assert path == "gs://" + path[5..];
    RightStripAppend("gs://", path[5..], IsSpace);
  }

  lemma StartKept(before: string, path: string)
    requires before <= path && (before != [] ==> IsSpace(path[0]))
    ensures before != [] ==> before[0] != '/'
  {}

  /** Stripping white space does not touch the start of a URI. */
  lemma UriPrefixKept(path: string)
    requires path != [] && StartsWith(Strip(path), "gs://")
    ensures IsSpace(path[0]) || StartsWith(path, "gs://")
  {
    RightStripPrefix(LeftStrip(path, IsSpace), IsSpace);
  }

  // ---------- equality of table values ----------

  predicate SameCell(a: Cell, b: Cell) { a.Cell? && b.Cell? && a == b }

  /** `==` on metadata records: a missing number is not equal even to itself. */
  predicate SameMetadata(a: DagMetadata, b: DagMetadata) {
    a.dagId == b.dagId && SameCell(a.isActive, b.isActive) && SameCell(a.lastExecuted, b.lastExecuted)
  }

  predicate Comparable(a: DagMetadata) { SameMetadata(a, a) }

  // ---------- what the lookup holds ----------

  function MetadataAt(lower: char -> char, key: string): DagRow -> Option<DagMetadata> {
    (row: DagRow) => if NormalisePath(row.path, lower) == key then Some(row.metadata) else None
  }

  /** The metadata of all rows with a normalised path, in table order. */
  function At(rows: seq<DagRow>, lower: char -> char, key: string): seq<DagMetadata> {
    MapFilter(rows, MetadataAt(lower, key))
  }

  /** All rows agree with the first. */
  predicate Agree(ms: seq<DagMetadata>) {
    ms != [] && forall k | 1 <= k < |ms| :: SameMetadata(ms[0], ms[k])
  }

  function NormalisedPaths(rows: seq<DagRow>, lower: char -> char): set<string> {
    set row | row in rows && NormalisePath(row.path, lower) != "" :: NormalisePath(row.path, lower)
  }

  /** A normalised path is mapped iff some row has it and all rows that have it agree. */
  function Table(rows: seq<DagRow>, lower: char -> char): Lookup {
    map key | key in NormalisedPaths(rows, lower) && Agree(At(rows, lower, key)) :: At(rows, lower, key)[0]
  }

  lemma AtStep(rows: seq<DagRow>, n: nat, lower: char -> char, key: string)
    requires n < |rows|
    ensures At(rows[..n + 1], lower, key) ==
            At(rows[..n], lower, key) + if NormalisePath(rows[n].path, lower) == key then [rows[n].metadata] else []
  {
    var g := MetadataAt(lower, key);
    assert rows[..n + 1] == rows[..n] + [rows[n]];
    MapFilterConcat(rows[..n], [rows[n]], g);
    assert MapFilter([rows[n]], g) == AsSeq(g(rows[n])) + MapFilter([], g);
  }

  lemma AtNonempty(rows: seq<DagRow>, lower: char -> char, key: string)
    requires key != ""
    ensures At(rows, lower, key) != [] <==> key in NormalisedPaths(rows, lower)
  {
    var g := MetadataAt(lower, key);
    if row :| row in rows && NormalisePath(row.path, lower) == key {
      MapFilterIn(rows, g, row.metadata);
      assert g(row) == Some(row.metadata);
    }
    if At(rows, lower, key) != [] {
      MapFilterIn(rows, g, At(rows, lower, key)[0]);
    }
  }

  /** One key of the loop's dict and set of ambiguous keys, given the metadata of the rows that have it. */
  ghost predicate KeyOk(key: string, ms: seq<DagMetadata>, lookup: Lookup, ambiguous: set<string>) {
    && (key in lookup <==> key != "" && ms != [])
    && (key in lookup ==> lookup[key] == ms[0])
    && (key in ambiguous <==> key in lookup && !Agree(ms))
  }

  /** What the dict and the set mean after some rows. */
  ghost predicate Building(rows: seq<DagRow>, lower: char -> char, lookup: Lookup, ambiguous: set<string>) {
    forall key :: KeyOk(key, At(rows, lower, key), lookup, ambiguous)
  }

  lemma AgreeStep(ms: seq<DagMetadata>, m: DagMetadata)
    requires ms != []
    ensures Agree(ms + [m]) <==> Agree(ms) && SameMetadata(ms[0], m)
  {
    assert forall k :: 0 <= k < |ms| ==> (ms + [m])[k] == ms[k];
    if Agree(ms + [m]) {
      assert (ms + [m])[|ms|] == m;
    }
  }

  /** One more row with the key: it is compared with the stored metadata, or stored. */
  lemma KeyStep(key: string, ms: seq<DagMetadata>, m: DagMetadata, lookup: Lookup, ambiguous: set<string>)
    requires KeyOk(key, ms, lookup, ambiguous) && key != ""
    ensures key in lookup && !SameMetadata(lookup[key], m) ==> KeyOk(key, ms + [m], lookup, ambiguous + {key})
    ensures !(key in lookup && !SameMetadata(lookup[key], m)) ==> KeyOk(key, ms + [m], lookup[key := m], ambiguous)
  {
    if key in lookup {
      AgreeStep(ms, m);
    } else {
      assert ms + [m] == [m];
    }
  }

  lemma SkipRow(rows: seq<DagRow>, n: nat, lower: char -> char, lookup: Lookup, ambiguous: set<string>)
    requires n < |rows| && Building(rows[..n], lower, lookup, ambiguous)
    requires NormalisePath(rows[n].path, lower) == ""
    ensures Building(rows[..n + 1], lower, lookup, ambiguous)
  {
    var more := rows[..n + 1];
    forall key
      ensures KeyOk(key, At(more, lower, key), lookup, ambiguous)
    {
      AtStep(rows, n, lower, key);
      var before := At(rows[..n], lower, key);
      assert KeyOk(key, before, lookup, ambiguous);
      assert before + [] == before;
    }
  }

  lemma OtherRow(rows: seq<DagRow>, n: nat, lower: char -> char, lookup: Lookup, ambiguous: set<string>)
    requires n < |rows| && Building(rows[..n], lower, lookup, ambiguous)
    requires NormalisePath(rows[n].path, lower) != ""
    ensures var path, m := NormalisePath(rows[n].path, lower), rows[n].metadata;
      if path in lookup && !SameMetadata(lookup[path], m)
          then Building(rows[..n + 1], lower, lookup, ambiguous + {path})
      else Building(rows[..n + 1], lower, lookup[path := m], ambiguous)
  {
    var path, m := NormalisePath(rows[n].path, lower), rows[n].metadata;
    var differs := path in lookup && !SameMetadata(lookup[path], m);
    var after := if differs then lookup else lookup[path := m];
    var marked := if differs then ambiguous + {path} else ambiguous;
    var more := rows[..n + 1];
    forall key
      ensures KeyOk(key, At(more, lower, key), after, marked)
    {
      AtStep(rows, n, lower, key);
      var before := At(rows[..n], lower, key);
      assert KeyOk(key, before, lookup, ambiguous);
      if key == path {
        KeyStep(key, before, m, lookup, ambiguous);
      } else {
        assert before + [] == before;
      }
    }
  }

  lemma BuiltTable(rows: seq<DagRow>, lower: char -> char, lookup: Lookup, ambiguous: set<string>)
    requires Building(rows, lower, lookup, ambiguous)
    ensures lookup - ambiguous == Table(rows, lower)
  {
    forall key
      ensures key in lookup - ambiguous <==> key in Table(rows, lower)
      ensures key in lookup - ambiguous ==> (lookup - ambiguous)[key] == Table(rows, lower)[key]
    {
      assert KeyOk(key, At(rows, lower, key), lookup, ambiguous);
      if key != "" {
        AtNonempty(rows, lower, key);
      }
    }
  }

  method BuildDagLookup(rows: seq<DagRow>, lower: char -> char) returns (lookup: DagLookup)
    ensures lookup.Valid() && lookup.values == Table(rows, lower)
  {
    var found: Lookup := map[];
    var ambiguous := {};
    for n := 0 to |rows|
      invariant Building(rows[..n], lower, found, ambiguous)
    {
      var key, metadata := NormalisePath(rows[n].path, lower), rows[n].metadata;
      if key == "" {
        SkipRow(rows, n, lower, found, ambiguous);
        continue;
      }
      OtherRow(rows, n, lower, found, ambiguous);
      if key in found && !SameMetadata(found[key], metadata) {
        ambiguous := ambiguous + {key};
      } else {
        found := found[key := metadata];
      }
    }
    assert rows[..|rows|] == rows;
    BuiltTable(rows, lower, found, ambiguous);
    found := found - ambiguous;
    lookup := new DagLookup(found);
  }

  /** The answer for a script path: its own entry, or else the unique suffix match. */
  ghost function Answer(rows: seq<DagRow>, lower: char -> char, path: string): DagMetadata {
    var values, key := Table(rows, lower), NormalisePath(path, lower);
    if key in values then values[key] else UniqueSuffix(values, key)
  }

  // ---------- what the lookup does not depend on ----------

  /** Agreement in terms of the values alone: one row, or equal values none of which is a missing number. */
  lemma AgreeCharacterised(ms: seq<DagMetadata>)
    ensures Agree(ms) <==> |ms| == 1 || (ms != [] && forall m :: m in ms ==> m == ms[0] && Comparable(m))
  {
    if Agree(ms) && |ms| > 1 {
      forall m | m in ms
        ensures m == ms[0] && Comparable(m)
      {
        var k :| 0 <= k < |ms| && ms[k] == m;
        assert SameMetadata(ms[0], ms[1]);
      }
    }
    if ms != [] && forall m :: m in ms ==> m == ms[0] && Comparable(m) {
      forall k | 1 <= k < |ms|
        ensures SameMetadata(ms[0], ms[k])
      {
        assert ms[k] in ms;
      }
    }
  }

  lemma AgreePermutation(a: seq<DagMetadata>, b: seq<DagMetadata>)
    requires multiset(a) == multiset(b)
    ensures Agree(a) <==> Agree(b)
    ensures Agree(a) ==> a[0] == b[0]
  {
    AgreeCharacterised(a);
    AgreeCharacterised(b);
    PermutationElements(a, b);
    if a != [] {
      assert a[0] in b && b[0] in a;
    }
  }

  /** The lookup, and so every answer, is the same for any order of the table rows. */
  lemma TablePermutation(a: seq<DagRow>, b: seq<DagRow>, lower: char -> char)
    requires multiset(a) == multiset(b)
    ensures Table(a, lower) == Table(b, lower)
    ensures forall path :: Answer(a, lower, path) == Answer(b, lower, path)
  {
    PermutationElements(a, b);
    assert NormalisedPaths(a, lower) == NormalisedPaths(b, lower);
    forall key
      ensures Agree(At(a, lower, key)) <==> Agree(At(b, lower, key))
      ensures Agree(At(a, lower, key)) ==> At(a, lower, key)[0] == At(b, lower, key)[0]
    {
      MapFilterPermutation(a, b, MetadataAt(lower, key));
      AgreePermutation(At(a, lower, key), At(b, lower, key));
    }
  }

  lemma AgreeSameElements(a: seq<DagMetadata>, b: seq<DagMetadata>)
    requires forall m :: m in a <==> m in b
    requires forall m :: m in a ==> Comparable(m)
    ensures Agree(a) <==> Agree(b)
    ensures Agree(a) ==> a[0] == b[0]
  {
    AgreeCharacterised(a);
    AgreeCharacterised(b);
    if a != [] { assert a[0] in a; }
    if b != [] { assert b[0] in b; }
  }

  ghost predicate SameRowSet(a: seq<DagRow>, b: seq<DagRow>) { forall row :: row in a <==> row in b }

  predicate SamePath(a: DagRow, b: DagRow, lower: char -> char) {
    NormalisePath(a.path, lower) == NormalisePath(b.path, lower)
  }

  /** The row holds a missing number, and no different row has its path. */
  ghost predicate AloneWithMissing(rows: seq<DagRow>, lower: char -> char, row: DagRow) {
    && row in rows && NormalisePath(row.path, lower) != "" && !Comparable(row.metadata)
    && forall other :: other in rows && SamePath(other, row, lower) ==> other == row
  }

  lemma MetadataIn(rows: seq<DagRow>, lower: char -> char, key: string, m: DagMetadata)
    ensures m in At(rows, lower, key) <==>
              exists row :: row in rows && NormalisePath(row.path, lower) == key && row.metadata == m
  {
    var g := MetadataAt(lower, key);
    MapFilterIn(rows, g, m);
    if row :| row in rows && NormalisePath(row.path, lower) == key && row.metadata == m {
      assert g(row) == Some(m);
    }
    if row :| row in rows && g(row) == Some(m) {
      assert NormalisePath(row.path, lower) == key && row.metadata == m;
    }
  }

  /** Two different rows of a path count twice. */
  lemma TwoRows(rows: seq<DagRow>, lower: char -> char, a: DagRow, b: DagRow)
    requires a in rows && b in rows && a != b && SamePath(a, b, lower) && NormalisePath(a.path, lower) != ""
    ensures |At(rows, lower, NormalisePath(a.path, lower))| >= 2
  {
    var key := NormalisePath(a.path, lower);
    var i :| 0 <= i < |rows| && rows[i] == a;
    var j :| 0 <= j < |rows| && rows[j] == b;
    var k := if i < j then j else i;
    assert rows == rows[..k] + rows[k..];
    MapFilterConcat(rows[..k], rows[k..], MetadataAt(lower, key));
    assert (if i < j then a else b) in rows[..k] && rows[k] in rows[k..];
    MetadataIn(rows[..k], lower, key, (if i < j then a else b).metadata);
    MetadataIn(rows[k..], lower, key, rows[k].metadata);
  }

  /** All rows of a path are one row. */
  ghost predicate OneRow(rows: seq<DagRow>, lower: char -> char, key: string, row: DagRow) {
    forall other :: other in rows && NormalisePath(other.path, lower) == key ==> other == row
  }

  lemma SameAtKey(a: seq<DagRow>, b: seq<DagRow>, lower: char -> char, key: string)
    requires SameRowSet(a, b) && key in NormalisedPaths(a, lower)
    requires forall row :: !AloneWithMissing(a, lower, row)
    ensures Agree(At(a, lower, key)) <==> Agree(At(b, lower, key))
    ensures Agree(At(a, lower, key)) ==> At(a, lower, key)[0] == At(b, lower, key)[0]
  {
    var x, y := At(a, lower, key), At(b, lower, key);
    forall m
      ensures m in x <==> m in y
    {
      MetadataIn(a, lower, key, m);
      MetadataIn(b, lower, key, m);
    }
    var row :| row in a && NormalisePath(row.path, lower) == key;
    if OneRow(a, lower, key, row) {
      assert Comparable(row.metadata) by {
        assert !AloneWithMissing(a, lower, row);
      }
      forall m | m in x
        ensures Comparable(m)
      {
        MetadataIn(a, lower, key, m);
      }
      AgreeSameElements(x, y);
    } else {
      var other :| other in a && NormalisePath(other.path, lower) == key && other != row;
      TwoRows(a, lower, row, other);
      TwoRows(b, lower, row, other);
      AgreeSeveral(x, y);
    }
  }

  lemma AgreeSeveral(a: seq<DagMetadata>, b: seq<DagMetadata>)
    requires |a| >= 2 && |b| >= 2 && forall m :: m in a <==> m in b
    ensures Agree(a) <==> Agree(b)
    ensures Agree(a) ==> a[0] == b[0]
  {
    AgreeCharacterised(a);
    AgreeCharacterised(b);
    assert a[0] in b && b[0] in a;
  }

  /** Unless a row with a missing number is alone on its path, the lookup depends only on which rows there are. */
  lemma TableSameRows(a: seq<DagRow>, b: seq<DagRow>, lower: char -> char)
    requires SameRowSet(a, b) && forall row :: !AloneWithMissing(a, lower, row)
    ensures Table(a, lower) == Table(b, lower)
    ensures forall path :: Answer(a, lower, path) == Answer(b, lower, path)
  {
    assert NormalisedPaths(a, lower) == NormalisedPaths(b, lower);
    forall key | key in NormalisedPaths(a, lower)
      ensures Agree(At(a, lower, key)) <==> Agree(At(b, lower, key))
      ensures Agree(At(a, lower, key)) ==> At(a, lower, key)[0] == At(b, lower, key)[0]
    {
      SameAtKey(a, b, lower, key);
    }
  }

  function Other(row: DagRow): DagRow -> Option<DagRow> { (x: DagRow) => if x == row then None else Some(x) }

  /** The same rows with `row` written once, at the front. */
  function Once(rows: seq<DagRow>, row: DagRow): seq<DagRow> { [row] + MapFilter(rows, Other(row)) }

  lemma OnceSameRows(rows: seq<DagRow>, row: DagRow)
    requires row in rows
    ensures SameRowSet(rows, Once(rows, row)) && SameRowSet(rows, [row] + Once(rows, row))
  {
    forall x
      ensures x in MapFilter(rows, Other(row)) <==> x in rows && x != row
    {
      MapFilterIn(rows, Other(row), x);
      assert Other(row)(x) == if x == row then None else Some(x);
    }
  }

  lemma NoOtherRow(rows: seq<DagRow>, lower: char -> char, row: DagRow)
    requires AloneWithMissing(rows, lower, row)
    ensures At(MapFilter(rows, Other(row)), lower, NormalisePath(row.path, lower)) == []
  {
    var key, rest := NormalisePath(row.path, lower), MapFilter(rows, Other(row));
    forall m
      ensures m !in At(rest, lower, key)
    {
      MetadataIn(rest, lower, key, m);
      forall x | x in rest
        ensures NormalisePath(x.path, lower) != key
      {
        MapFilterIn(rows, Other(row), x);
        assert x in rows && x != row;
      }
    }
    EmptySequence(At(rest, lower, key));
  }

  lemma AtFront(row: DagRow, rest: seq<DagRow>, lower: char -> char)
    ensures At([row] + rest, lower, NormalisePath(row.path, lower)) ==
            [row.metadata] + At(rest, lower, NormalisePath(row.path, lower))
  {
    assert ([row] + rest)[1..] == rest;
    assert MetadataAt(lower, NormalisePath(row.path, lower))(row) == Some(row.metadata);
  }

  /** Written once the row is mapped, written twice it is not. */
  lemma OnceAndTwice(rows: seq<DagRow>, lower: char -> char, row: DagRow)
    requires AloneWithMissing(rows, lower, row)
    ensures var key := NormalisePath(row.path, lower);
      key in Table(Once(rows, row), lower) && key !in Table([row] + Once(rows, row), lower)
  {
    var once := Once(rows, row);
    NoOtherRow(rows, lower, row);
    AtFront(row, MapFilter(rows, Other(row)), lower);
    AtFront(row, once, lower);
    MappedOnce(row, MapFilter(rows, Other(row)), lower);
    UnmappedTwice([row] + once, row, lower);
  }

  lemma MappedOnce(row: DagRow, rest: seq<DagRow>, lower: char -> char)
    requires At([row] + rest, lower, NormalisePath(row.path, lower)) == [row.metadata] &&
              NormalisePath(row.path, lower) != ""
    ensures NormalisePath(row.path, lower) in Table([row] + rest, lower)
  {
    assert ([row] + rest)[0] == row;
    AtNonempty([row] + rest, lower, NormalisePath(row.path, lower));
  }

  lemma UnmappedTwice(rows: seq<DagRow>, row: DagRow, lower: char -> char)
    requires At(rows, lower, NormalisePath(row.path, lower)) == [row.metadata] + [row.metadata]
    requires !Comparable(row.metadata)
    ensures NormalisePath(row.path, lower) !in Table(rows, lower)
  {
    AgreeCharacterised([row.metadata] + [row.metadata]);
  }

  /**
   * The lookup is the same for every table with the same rows, in any order and however often repeated, exactly
   * when no row with a missing number is alone on its path.
   */
  lemma RepetitionHarmlessIff(rows: seq<DagRow>, lower: char -> char)
    ensures (forall other :: SameRowSet(rows, other) ==> Table(other, lower) == Table(rows, lower)) <==>
            forall row :: !AloneWithMissing(rows, lower, row)
  {
    if forall row :: !AloneWithMissing(rows, lower, row) {
      forall other | SameRowSet(rows, other)
        ensures Table(other, lower) == Table(rows, lower)
      {
        TableSameRows(rows, other, lower);
      }
    } else {
      var row :| AloneWithMissing(rows, lower, row);
      var other := RepetitionHarms(rows, lower, row);
    }
  }

  lemma RepetitionHarms(rows: seq<DagRow>, lower: char -> char, row: DagRow) returns (other: seq<DagRow>)
    requires AloneWithMissing(rows, lower, row)
    ensures SameRowSet(rows, other) && Table(other, lower) != Table(rows, lower)
  {
    OnceSameRows(rows, row);
    OnceAndTwice(rows, lower, row);
    other := if NormalisePath(row.path, lower) in Table(rows, lower) then [row] + Once(rows, row) else Once(rows, row);
  }

  predicate OneIncomparable(ms: seq<DagMetadata>) { |ms| == 1 && !Comparable(ms[0]) }

  /** Repeating the whole table once changes nothing exactly when every path that only one row has can be compared. */
  lemma DoublingHarmlessIff(rows: seq<DagRow>, lower: char -> char)
    ensures Table(rows + rows, lower) == Table(rows, lower) <==>
            forall key :: key in NormalisedPaths(rows, lower) ==> !OneIncomparable(At(rows, lower, key))
  {
    assert NormalisedPaths(rows + rows, lower) == NormalisedPaths(rows, lower);
    forall key | key in NormalisedPaths(rows, lower)
      ensures At(rows, lower, key) != [] && At(rows + rows, lower, key) != []
      ensures At(rows + rows, lower, key)[0] == At(rows, lower, key)[0]
      ensures Agree(At(rows + rows, lower, key)) <==>
              Agree(At(rows, lower, key)) && !OneIncomparable(At(rows, lower, key))
    {
      AtNonempty(rows, lower, key);
      MapFilterConcat(rows, rows, MetadataAt(lower, key));
      AgreeTwice(At(rows, lower, key));
    }
    if key :| key in NormalisedPaths(rows, lower) && OneIncomparable(At(rows, lower, key)) {
      assert key in Table(rows, lower) && key !in Table(rows + rows, lower);
    }
  }

  lemma AgreeTwice(ms: seq<DagMetadata>)
    requires ms != []
    ensures Agree(ms + ms) <==> Agree(ms) && !OneIncomparable(ms)
  {
    AgreeCharacterised(ms);
    AgreeCharacterised(ms + ms);
    assert forall m :: m in ms + ms <==> m in ms;
    assert (ms + ms)[0] == ms[0];
  }

  /**
   * A column with a number in one row and no value in another holds a missing number there. Listed twice, that row
   * loses its path.
   */
  lemma MissingNumberExample(lower: char -> char)
    ensures var row := DagRow("a.py", DagMetadata("dag", Cell("yes"), NotANumber));
      var other := DagRow("", DagMetadata("dag", Cell("yes"), Cell("1700000000")));
      var key := NormalisePath(row.path, lower);
      key in Table([row, other], lower) && key !in Table([row, row, other], lower)
  {
    var row := DagRow("a.py", DagMetadata("dag", Cell("yes"), NotANumber));
    var other := DagRow("", DagMetadata("dag", Cell("yes"), Cell("1700000000")));
    KeyOfExample(lower);
    var key := NormalisePath(row.path, lower);
    assert At([other], lower, key) == AsSeq(MetadataAt(lower, key)(other)) + At([other][1..], lower, key);
    AtFront(row, [other], lower);
    AtFront(row, [row, other], lower);
    assert [row] + [other] == [row, other] && [row] + [row, other] == [row, row, other];
    MappedOnce(row, [other], lower);
    UnmappedTwice([row, row, other], row, lower);
  }

  lemma KeyOfExample(lower: char -> char)
    ensures NormalisePath("a.py", lower) != "" && NormalisePath("", lower) == ""
  {
    var path := "a.py";
    assert path[0] == 'a' && path[3] == 'y';
    StripUnchanged(path, IsSpace);
    StripUnchanged(path, IsSlash);
  }

  // ---------- the answer in terms of the rows ----------

  predicate HasPath(row: DagRow, lower: char -> char, key: string) { NormalisePath(row.path, lower) == key }

  /** Some row has the path, and all rows that have it agree pairwise. */
  ghost predicate Unanimous(rows: seq<DagRow>, lower: char -> char, key: string) {
    key != "" && (exists row :: row in rows && HasPath(row, lower, key)) && Pairwise(rows, lower, key)
  }

  /** All rows with the path carry the metadata. */
  ghost predicate AllCarry(rows: seq<DagRow>, lower: char -> char, key: string, m: DagMetadata) {
    forall row :: row in rows && HasPath(row, lower, key) ==> row.metadata == m
  }

  /** One path is what follows some slash of the other. */
  ghost predicate Segments(longer: string, shorter: string) { exists x :: longer == x + "/" + shorter }

  ghost predicate Related(key: string, path: string) { Segments(key, path) || Segments(path, key) }

  /** The only unanimous path that is related to the key. */
  ghost predicate OnlyRelated(rows: seq<DagRow>, lower: char -> char, key: string, path: string) {
    && Unanimous(rows, lower, path) && Related(key, path)
    && forall other :: Unanimous(rows, lower, other) && Related(key, other) ==> other == path
  }

  /**
   * What the rows say about a path: its own rows, if they are unanimous; else the rows of the only related path;
   * else nothing.
   */
  ghost predicate RowsAnswer(rows: seq<DagRow>, lower: char -> char, key: string, r: DagMetadata) {
    && (Unanimous(rows, lower, key) ==> AllCarry(rows, lower, key, r))
    && (!Unanimous(rows, lower, key) ==> forall path :: OnlyRelated(rows, lower, key, path) ==>
        AllCarry(rows, lower, path, r))
    && (!Unanimous(rows, lower, key) && (forall path :: !OnlyRelated(rows, lower, key, path)) ==>
          r == DagMetadata("", Cell(""), Cell("")))
  }

  /** The metadata of the rows with a path, in order, under their positions. */
  lemma AtPositions(rows: seq<DagRow>, lower: char -> char, key: string)
    ensures var ms := At(rows, lower, key);
      && (forall k :: 0 <= k < |ms| ==>
          exists i :: 0 <= i < |rows| && HasPath(rows[i], lower, key) && rows[i].metadata == ms[k])
      && (forall i :: 0 <= i < |rows| && HasPath(rows[i], lower, key) ==> rows[i].metadata in ms)
  {
    var ms := At(rows, lower, key);
    forall k | 0 <= k < |ms|
      ensures exists i :: 0 <= i < |rows| && HasPath(rows[i], lower, key) && rows[i].metadata == ms[k]
    {
      MetadataIn(rows, lower, key, ms[k]);
      var row :| row in rows && HasPath(row, lower, key) && row.metadata == ms[k];
      var i :| 0 <= i < |rows| && rows[i] == row;
    }
    forall i | 0 <= i < |rows| && HasPath(rows[i], lower, key)
      ensures rows[i].metadata in ms
    {
      assert rows[i] in rows;
      MetadataIn(rows, lower, key, rows[i].metadata);
    }
  }

  /** Rows agree pairwise. */
  ghost predicate Pairwise(rows: seq<DagRow>, lower: char -> char, key: string) {
    forall i, j :: 0 <= i < j < |rows| && HasPath(rows[i], lower, key) && HasPath(rows[j], lower, key) ==>
        SameMetadata(rows[i].metadata, rows[j].metadata)
  }

  /** The row at `n` agrees with all rows before it that have the path. */
  ghost predicate AgreesBefore(rows: seq<DagRow>, n: nat, lower: char -> char, key: string)
    requires n < |rows|
  {
    HasPath(rows[n], lower, key) ==>
      forall i :: 0 <= i < n && HasPath(rows[i], lower, key) ==> SameMetadata(rows[i].metadata, rows[n].metadata)
  }

  lemma PairwiseStep(rows: seq<DagRow>, n: nat, lower: char -> char, key: string)
    requires n < |rows|
    ensures Pairwise(rows[..n + 1], lower, key) <==>
              Pairwise(rows[..n], lower, key) && AgreesBefore(rows, n, lower, key)
  {
    if Pairwise(rows[..n + 1], lower, key) {
      PairwisePrefix(rows, n, lower, key);
    }
    if Pairwise(rows[..n], lower, key) && AgreesBefore(rows, n, lower, key) {
      PairwiseMore(rows, n, lower, key);
    }
  }

  lemma PairwisePrefix(rows: seq<DagRow>, n: nat, lower: char -> char, key: string)
    requires n < |rows| && Pairwise(rows[..n + 1], lower, key)
    ensures Pairwise(rows[..n], lower, key) && AgreesBefore(rows, n, lower, key)
  {
    var more, some := rows[..n + 1], rows[..n];
    forall i, j | 0 <= i < j < n && HasPath(some[i], lower, key) && HasPath(some[j], lower, key)
      ensures SameMetadata(some[i].metadata, some[j].metadata)
    {
      assert SameMetadata(more[i].metadata, more[j].metadata);
    }
    forall i | 0 <= i < n && HasPath(rows[i], lower, key) && HasPath(rows[n], lower, key)
      ensures SameMetadata(rows[i].metadata, rows[n].metadata)
    {
      assert SameMetadata(more[i].metadata, more[n].metadata);
    }
  }

  lemma PairwiseMore(rows: seq<DagRow>, n: nat, lower: char -> char, key: string)
    requires n < |rows| && Pairwise(rows[..n], lower, key) && AgreesBefore(rows, n, lower, key)
    ensures Pairwise(rows[..n + 1], lower, key)
  {
    var more, some := rows[..n + 1], rows[..n];
    forall i, j | 0 <= i < j < n + 1 && HasPath(more[i], lower, key) && HasPath(more[j], lower, key)
      ensures SameMetadata(more[i].metadata, more[j].metadata)
    {
      if j < n {
        assert more[i] == some[i] && more[j] == some[j];
      } else {
        assert more[i] == rows[i] && more[j] == rows[n];
      }
    }
  }

  predicate NoneOrAgree(ms: seq<DagMetadata>) { ms == [] || Agree(ms) }

  /** One more row agrees with all before it exactly when it agrees with the first, if those agree. */
  lemma AgreesWithAll(rows: seq<DagRow>, n: nat, lower: char -> char, key: string)
    requires n < |rows| && Agree(At(rows[..n], lower, key))
    ensures SameMetadata(At(rows[..n], lower, key)[0], rows[n].metadata) <==>
            forall i :: 0 <= i < n && HasPath(rows[i], lower, key) ==> SameMetadata(rows[i].metadata, rows[n].metadata)
  {
    var some, m := rows[..n], At(rows[..n], lower, key)[0];
    CarriedByAll(some, lower, key);
    forall i | 0 <= i < n && HasPath(rows[i], lower, key)
      ensures rows[i].metadata == m
    {
      assert some[i] == rows[i] && some[i] in some;
    }
    MetadataIn(some, lower, key, m);
    var row :| row in some && HasPath(row, lower, key) && row.metadata == m;
    var k :| 0 <= k < n && some[k] == row;
    assert rows[k] == row;
  }

  /** Rows agree pairwise exactly when all of them agree with the first. */
  lemma {:induction false} PairwiseIff(rows: seq<DagRow>, n: nat, lower: char -> char, key: string)
    requires n <= |rows|
    ensures Pairwise(rows[..n], lower, key) <==> NoneOrAgree(At(rows[..n], lower, key))
  {
    if n > 0 {
      PairwiseIff(rows, n - 1, lower, key);
      PairwiseIffStep(rows, n - 1, lower, key);
    }
  }

  lemma PairwiseIffStep(rows: seq<DagRow>, n: nat, lower: char -> char, key: string)
    requires n < |rows|
    requires Pairwise(rows[..n], lower, key) <==> NoneOrAgree(At(rows[..n], lower, key))
    ensures Pairwise(rows[..n + 1], lower, key) <==> NoneOrAgree(At(rows[..n + 1], lower, key))
  {
    PairwiseStep(rows, n, lower, key);
    AgreeIffBefore(rows, n, lower, key);
  }

  lemma AgreeIffBefore(rows: seq<DagRow>, n: nat, lower: char -> char, key: string)
    requires n < |rows|
    ensures NoneOrAgree(At(rows[..n + 1], lower, key)) <==>
              NoneOrAgree(At(rows[..n], lower, key)) && AgreesBefore(rows, n, lower, key)
  {
    AtStep(rows, n, lower, key);
    var ms := At(rows[..n], lower, key);
    if !HasPath(rows[n], lower, key) {
      assert ms + [] == ms;
    } else if ms == [] {
      NoneBefore(rows, n, lower, key);
    } else {
      AgreeStep(ms, rows[n].metadata);
      if Agree(ms) {
        AgreesWithAll(rows, n, lower, key);
      }
    }
  }

  lemma NoneBefore(rows: seq<DagRow>, n: nat, lower: char -> char, key: string)
    requires n <= |rows| && At(rows[..n], lower, key) == []
    ensures forall i :: 0 <= i < n ==> !HasPath(rows[i], lower, key)
  {
    AtPositions(rows[..n], lower, key);
    assert forall i :: 0 <= i < n ==> rows[..n][i] == rows[i];
  }

  /** The lookup maps the unanimous paths, to what their rows carry. */
  lemma MappedIff(rows: seq<DagRow>, lower: char -> char, key: string)
    ensures key in Table(rows, lower) <==> Unanimous(rows, lower, key)
    ensures key in Table(rows, lower) ==> AllCarry(rows, lower, key, Table(rows, lower)[key])
  {
    PairwiseIff(rows, |rows|, lower, key);
    assert rows[..|rows|] == rows;
    if key != "" {
      AtNonempty(rows, lower, key);
    }
    if key in Table(rows, lower) {
      CarriedByAll(rows, lower, key);
    }
  }

  lemma CarriedByAll(rows: seq<DagRow>, lower: char -> char, key: string)
    requires Agree(At(rows, lower, key))
    ensures AllCarry(rows, lower, key, At(rows, lower, key)[0])
  {
    var ms := At(rows, lower, key);
    AllTheFirst(ms);
    forall row | row in rows && HasPath(row, lower, key)
      ensures row.metadata == ms[0]
    {
      MetadataIn(rows, lower, key, row.metadata);
    }
  }

  lemma AllTheFirst(ms: seq<DagMetadata>)
    requires Agree(ms)
    ensures forall m :: m in ms ==> m == ms[0]
  {
    AgreeCharacterised(ms);
  }

  lemma SegmentsIff(longer: string, shorter: string)
    ensures Segments(longer, shorter) <==> IsSegmentSuffix(shorter, longer)
  {
    EndsWithIff(longer, "/" + shorter);
    if x :| longer == x + "/" + shorter {
      assert longer == x + ("/" + shorter);
    }
    if x :| longer == x + ("/" + shorter) {
      assert longer == x + "/" + shorter;
    }
  }

  lemma CandidateIff(rows: seq<DagRow>, lower: char -> char, key: string, path: string)
    ensures IsCandidate(Table(rows, lower), key, path) <==> Unanimous(rows, lower, path) && Related(key, path)
  {
    MappedIff(rows, lower, path);
    SegmentsIff(key, path);
    SegmentsIff(path, key);
  }

  lemma OnlyCandidateIff(rows: seq<DagRow>, lower: char -> char, key: string, path: string)
    ensures OnlyCandidate(Table(rows, lower), key, path) <==> OnlyRelated(rows, lower, key, path)
  {
    forall p
      ensures IsCandidate(Table(rows, lower), key, p) <==> Unanimous(rows, lower, p) && Related(key, p)
    {
      CandidateIff(rows, lower, key, p);
    }
  }

  /** The answer is what the rows say. */
  lemma AnswerIsRows(rows: seq<DagRow>, lower: char -> char, path: string)
    ensures RowsAnswer(rows, lower, NormalisePath(path, lower), Answer(rows, lower, path))
  {
    var values, key := Table(rows, lower), NormalisePath(path, lower);
    MappedIff(rows, lower, key);
    forall p
      ensures OnlyCandidate(values, key, p) <==> OnlyRelated(rows, lower, key, p)
    {
      OnlyCandidateIff(rows, lower, key, p);
    }
    forall p | OnlyRelated(rows, lower, key, p)
      ensures p in values && AllCarry(rows, lower, p, values[p])
    {
      MappedIff(rows, lower, p);
    }
  }

  method FindDagMetadata(ghost rows: seq<DagRow>, lookup: DagLookup, lower: char -> char, path: string)
    returns (r: DagMetadata)
    requires lookup.Valid() && lookup.values == Table(rows, lower)
    ensures r == Answer(rows, lower, path)
    ensures RowsAnswer(rows, lower, NormalisePath(path, lower), r)
  {
    AnswerIsRows(rows, lower, path);
    var key := NormalisePath(path, lower);
    if key in lookup.values {
      return lookup.values[key];
    }
    r := lookup.UniqueSuffixMatch(key);
  }
}
