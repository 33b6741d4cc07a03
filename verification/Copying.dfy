/** Copy targets, the sources of a copy, and where each copy goes. */
module Copying {
  import opened Model
  import opened Ordering
  import opened Sequences
  import opened Text
  import opened Wrappers

  datatype CopyTarget = CopyTarget(bucket: string, prefix: string)

  datatype CopyRequest = CopyRequest(bucket: string, prefix: string, overwrite: bool)

  // ---------- the approved target ----------

  /** `s` lies at or below `root`; everything lies below the empty root. */
  predicate AtOrBelow(s: string, root: string) { root == "" || s == root || StartsWith(s, root + "/") }

  function NormalPrefix(prefix: string, lower: char -> char): string { Fold(StripSlashes(prefix), lower) }

  predicate Allows(target: CopyTarget, request: CopyRequest, lower: char -> char) {
    Fold(request.bucket, lower) == Fold(target.bucket, lower) &&
    AtOrBelow(NormalPrefix(request.prefix, lower), NormalPrefix(target.prefix, lower))
  }

  ghost predicate FirstAllowing(request: CopyRequest, targets: seq<CopyTarget>, lower: char -> char, i: int) {
    0 <= i < |targets| && Allows(targets[i], request, lower) && forall k :: 0 <= k < i ==>
        !Allows(targets[k], request, lower)
  }

  /** `resolve_copy_target`: the first target that allows the request; `None` is the 403 answer. */
  method ResolveCopyTarget(request: CopyRequest, targets: seq<CopyTarget>, lower: char -> char)
    returns (r: Option<CopyTarget>)
    ensures r.Some? ==> exists i :: FirstAllowing(request, targets, lower, i) && r.value == targets[i]
    ensures r.None? <==> forall t :: t in targets ==> !Allows(t, request, lower)
  {
    for i := 0 to |targets|
      invariant forall k :: 0 <= k < i ==> !Allows(targets[k], request, lower)
    {
      var target := targets[i];
      if Fold(request.bucket, lower) != Fold(target.bucket, lower) {
        continue;
      }
      var root, path := NormalPrefix(target.prefix, lower), NormalPrefix(request.prefix, lower);
      if root == "" || path == root || StartsWith(path, root + "/") {
        assert FirstAllowing(request, targets, lower, i);
        return Some(target);
      }
    }
    r := None;
  }

  // ---------- the destination ----------

  /** `posixpath.join` of two parts: an absolute second part discards the first. */
  function PosixJoin(a: string, b: string): string {
    if StartsWith(b, "/") then b else if a == "" || EndsWith(a, "/") then a + b else a + "/" + b
  }

  function TargetPrefix(prefix: string, jobId: string): string {
    StripSlashes(StripSlashes(prefix) + "/jobs/" + jobId)
  }

  function Destination(prefix: string, jobId: string, source: ObjectKey): string {
    PosixJoin(PosixJoin(StripSlashes(TargetPrefix(prefix, jobId)), source.bucket), source.path)
  }

  /** A nonempty name without slashes, as job IDs and bucket names are. */
  predicate IsSegment(s: string) { s != "" && '/' !in s }

  predicate IsRelative(path: string) { !StartsWith(path, "/") }

  function JobRoot(prefix: string, jobId: string): string {
    var root := StripSlashes(prefix);
    if root == "" then "jobs/" + jobId else root + "/jobs/" + jobId
  }

  lemma TargetPrefixShape(prefix: string, jobId: string)
    requires IsSegment(jobId)
    ensures TargetPrefix(prefix, jobId) == JobRoot(prefix, jobId)
    ensures StripSlashes(JobRoot(prefix, jobId)) == JobRoot(prefix, jobId)
    ensures JobRoot(prefix, jobId)[0] != '/' && JobRoot(prefix, jobId)[|JobRoot(prefix, jobId)| - 1] != '/'
  {
    var root, shape := StripSlashes(prefix), JobRoot(prefix, jobId);
    StripProperties(prefix, IsSlash);
    assert jobId[|jobId| - 1] in jobId;
    assert shape[|shape| - 1] == jobId[|jobId| - 1];
    StripUnchanged(shape, IsSlash);
    if root == "" {
      var whole := root + "/jobs/" + jobId;
      assert whole == "/" + shape;
      assert whole[1..] == shape;
    }
  }

  /** Copies go below `<prefix>/jobs/<job id>/<bucket>/`, but an absolute object name is taken as it is. */
  lemma DestinationShape(prefix: string, jobId: string, source: ObjectKey)
    requires IsSegment(jobId) && IsSegment(source.bucket)
    ensures Destination(prefix, jobId, source) ==
            if IsRelative(source.path) then JobRoot(prefix, jobId) + "/" + source.bucket + "/" + source.path
                else source.path
  {
    TargetPrefixShape(prefix, jobId);
    if !IsRelative(source.path) {
      return;
    }
    var root := JobRoot(prefix, jobId);
    assert source.bucket[0] in source.bucket;
    assert PosixJoin(root, source.bucket) == root + "/" + source.bucket;
    var joined := root + "/" + source.bucket;
    assert source.bucket[|source.bucket| - 1] in source.bucket;
    assert joined[|joined| - 1] == source.bucket[|source.bucket| - 1];
  }

  function BeforeSlash(s: string): string {
    if s == [] || s[0] == '/' then [] else [s[0]] + BeforeSlash(s[1..])
  }

  lemma {:induction false} BeforeSlashProperties(s: string)
    ensures var f := BeforeSlash(s);
      '/' !in f && f <= s && (f != s ==> |f| < |s| && s[|f|] == '/')
  {
    if s != [] && s[0] != '/' {
      BeforeSlashProperties(s[1..]);
      assert s == [s[0]] + s[1..];
    }
  }

  lemma {:induction false} BeforeSlashOf(a: string, x: string)
    requires '/' !in a
    ensures BeforeSlash(a + "/" + x) == a
  {
    if a == [] {
      assert a + "/" + x == "/" + x;
    } else {
      assert a[0] in a;
      assert (a + "/" + x)[1..] == a[1..] + "/" + x;
      BeforeSlashOf(a[1..], x);
    }
  }

  /** Splitting at the first slash is unambiguous. */
  lemma FirstSlash(a: string, x: string, b: string, y: string)
    requires '/' !in a && '/' !in b && a + "/" + x == b + "/" + y
    ensures a == b && x == y
  {
    BeforeSlashOf(a, x);
    BeforeSlashOf(b, y);
    assert x == (a + "/" + x)[|a| + 1..] && y == (b + "/" + y)[|b| + 1..];
  }

  /** `s.split("/")`. */
  function Segments(s: string): seq<string>
    decreases |s|
  {
    var first := BeforeSlash(s);
    BeforeSlashProperties(s);
    if first == s then [s] else [first] + Segments(s[|first| + 1..])
  }

  predicate IsOrBelow(s: string, root: string) { s == root || StartsWith(s, root + "/") }

  lemma {:induction false} BeforeSlashWhole(s: string)
    requires '/' !in s
    ensures BeforeSlash(s) == s
  {
    if s != [] {
      assert s[0] in s;
      BeforeSlashWhole(s[1..]);
      assert s == [s[0]] + s[1..];
    }
  }

  /** The first segment of a path is all of it or what stands before its first slash. */
  lemma FirstSegmentIff(s: string, first: string)
    requires '/' !in first
    ensures IsOrBelow(s, first) <==> BeforeSlash(s) == first
  {
    BeforeSlashProperties(s);
    if StartsWith(s, first + "/") {
      assert s == first + "/" + s[|first| + 1..];
      BeforeSlashOf(first, s[|first| + 1..]);
    }
    BeforeSlashWhole(first);
    if BeforeSlash(s) == first && s != first {
      assert s[..|first| + 1] == first + "/";
    }
  }

  lemma SegmentsStart(s: string)
    ensures Segments(s) != [] && Segments(s)[0] == BeforeSlash(s)
    ensures |Segments(s)| == 1 <==> BeforeSlash(s) == s
  {
    BeforeSlashProperties(s);
    if BeforeSlash(s) != s {
      var rest := s[|BeforeSlash(s)| + 1..];
      assert Segments(s) == [BeforeSlash(s)] + Segments(rest);
      assert Segments(rest) != [];
    }
  }

  /** A path lies at or below a root exactly when its segments start with those of the root. */
  lemma {:induction false} BelowIffSegments(s: string, root: string)
    ensures IsOrBelow(s, root) <==> Segments(root) <= Segments(s)
    decreases |root|
  {
    var f := BeforeSlash(root);
    BeforeSlashProperties(root);
    BeforeSlashProperties(s);
    SegmentsStart(s);
    SegmentsStart(root);
    if f == root {
      FirstSegmentIff(s, f);
    } else if BeforeSlash(s) == f && s != f {
      var rest, more := root[|f| + 1..], s[|f| + 1..];
      assert root == f + "/" + rest && s == f + "/" + more;
      BelowIffSegments(more, rest);
      CommonStart(f + "/", more, rest);
      assert Segments(s) == [f] + Segments(more) && Segments(root) == [f] + Segments(rest);
      SamePrefix(f, Segments(more), Segments(rest));
    } else if IsOrBelow(s, root) {
      assert root == f + "/" + root[|f| + 1..];
      StartsDeeper(s, f, root[|f| + 1..]);
    }
  }

  lemma SamePrefix(first: string, a: seq<string>, b: seq<string>)
    ensures [first] + b <= [first] + a <==> b <= a
  {
    assert ([first] + a)[1..] == a && ([first] + b)[1..] == b;
    if [first] + b <= [first] + a {
      assert a[..|b|] == ([first] + a)[1..|b| + 1] == b;
    }
  }

  lemma CommonStart(p: string, more: string, rest: string)
    ensures IsOrBelow(p + more, p + rest) <==> IsOrBelow(more, rest)
  {
    assert (p + rest) + "/" == p + (rest + "/");
    assert (p + more)[|p|..] == more && (p + rest)[|p|..] == rest;
    if StartsWith(p + more, p + rest + "/") {
      assert more[..|rest + "/"|] == (p + more)[|p|..|p| + |rest + "/"|] == rest + "/";
    }
  }

  lemma StartsDeeper(s: string, f: string, rest: string)
    requires '/' !in f && IsOrBelow(s, f + "/" + rest)
    ensures BeforeSlash(s) == f && s != f
  {
    if s != f + "/" + rest {
      assert s == f + "/" + rest + "/" + s[|f + "/" + rest + "/"|..];
      assert s == f + "/" + (rest + "/" + s[|f + "/" + rest + "/"|..]);
      BeforeSlashOf(f, rest + "/" + s[|f + "/" + rest + "/"|..]);
    } else {
      BeforeSlashOf(f, rest);
    }
    assert s[|f|] == '/';
  }

  /**
   * A target allows a request exactly when the buckets are the same and the segments of its root are the first ones of
   * the requested prefix, ignoring case and slashes at the ends; an empty root allows every prefix.
   */
  lemma AllowsIff(target: CopyTarget, request: CopyRequest, lower: char -> char)
    ensures var root, path := Fold(StripSlashes(target.prefix), lower), Fold(StripSlashes(request.prefix), lower);
      Allows(target, request, lower) <==>
      Fold(request.bucket, lower) == Fold(target.bucket, lower) && (root == "" || Segments(root) <= Segments(path))
  {
    BelowIffSegments(Fold(StripSlashes(request.prefix), lower), Fold(StripSlashes(target.prefix), lower));
  }

  lemma Cancel(p: string, x: string, y: string)
    requires p + x == p + y
    ensures x == y
  {
    assert x == (p + x)[|p|..] && y == (p + y)[|p|..];
  }

  /** Both names are the same absolute one. */
  predicate SameAbsolute(a: ObjectKey, b: ObjectKey) { a.path == b.path && !IsRelative(a.path) }

  /** A copy of an object with a relative name does not start with a slash. */
  lemma DestinationStart(prefix: string, jobId: string, source: ObjectKey)
    requires IsSegment(jobId) && IsSegment(source.bucket)
    ensures StartsWith(Destination(prefix, jobId, source), "/") <==> !IsRelative(source.path)
  {
    DestinationShape(prefix, jobId, source);
    TargetPrefixShape(prefix, jobId);
    if IsRelative(source.path) {
      assert Destination(prefix, jobId, source)[0] == JobRoot(prefix, jobId)[0];
    }
  }

  /** Within a job two copies go to the same place exactly when they are one object or share an absolute name. */
  lemma DestinationEqualIff(prefix: string, jobId: string, a: ObjectKey, b: ObjectKey)
    requires IsSegment(jobId) && IsSegment(a.bucket) && IsSegment(b.bucket)
    ensures Destination(prefix, jobId, a) == Destination(prefix, jobId, b) <==> a == b || SameAbsolute(a, b)
  {
    DestinationShape(prefix, jobId, a);
    DestinationShape(prefix, jobId, b);
    DestinationStart(prefix, jobId, a);
    DestinationStart(prefix, jobId, b);
    if IsRelative(a.path) && IsRelative(b.path) && Destination(prefix, jobId, a) == Destination(prefix, jobId, b) {
      SplitAfter(JobRoot(prefix, jobId) + "/", a.bucket, a.path, b.bucket, b.path);
    }
  }

  /** After a common beginning, the first segment and the rest are determined. */
  lemma SplitAfter(p: string, a: string, x: string, b: string, y: string)
    requires '/' !in a && '/' !in b && p + a + "/" + x == p + b + "/" + y
    ensures a == b && x == y
  {
    assert p + a + "/" + x == p + (a + "/" + x);
    assert p + b + "/" + y == p + (b + "/" + y);
    Cancel(p, a + "/" + x, b + "/" + y);
    FirstSlash(a, x, b, y);
  }

  /** What comes before the job id does not depend on the job. */
  function JobsFolder(prefix: string): string {
    if StripSlashes(prefix) == "" then "jobs/" else StripSlashes(prefix) + "/jobs/"
  }

  lemma DestinationInFolder(prefix: string, jobId: string, source: ObjectKey)
    requires IsSegment(jobId) && IsSegment(source.bucket) && IsRelative(source.path)
    ensures Destination(prefix, jobId, source) == JobsFolder(prefix) + jobId + "/" + (source.bucket + "/" + source.path)
  {
    DestinationShape(prefix, jobId, source);
    FolderOfRoot(prefix, jobId);
    Regroup(JobRoot(prefix, jobId), source.bucket, source.path);
  }

  lemma Regroup(root: string, bucket: string, path: string)
    ensures root + "/" + bucket + "/" + path == root + "/" + (bucket + "/" + path)
  {}

  lemma FolderOfRoot(prefix: string, jobId: string)
    ensures JobRoot(prefix, jobId) == JobsFolder(prefix) + jobId
  {
    assert StripSlashes(prefix) + "/jobs/" + jobId == (StripSlashes(prefix) + "/jobs/") + jobId;
  }

  // ---------- two jobs ----------

  /** The folders of different jobs differ, whatever prefixes were requested: the last segment is the job. */
  lemma RootsDiffer(prefixA: string, jobA: string, prefixB: string, jobB: string)
    requires IsSegment(jobA) && IsSegment(jobB) && jobA != jobB
    ensures JobRoot(prefixA, jobA) != JobRoot(prefixB, jobB)
  {
    RootBasename(prefixA, jobA);
    RootBasename(prefixB, jobB);
  }

  lemma RootBasename(prefix: string, jobId: string)
    requires IsSegment(jobId)
    ensures Basename(JobRoot(prefix, jobId)) == jobId
  {
    FolderOfRoot(prefix, jobId);
    var root, folder := JobRoot(prefix, jobId), JobsFolder(prefix);
    assert folder[|folder| - 1] == '/';
    assert root[|root| - |"/" + jobId|..] == "/" + jobId;
    BasenameIff(root, jobId);
  }

  /** What lies below a folder, if the whole starts with it. */
  predicate Below(root: string, inner: string) { StartsWith(inner, root + "/") }

  /** Two folders with a path in common are nested. */
  lemma FoldersNest(p: string, x: string, q: string, y: string)
    requires p + "/" + x == q + "/" + y && p != q
    ensures Below(p, q) || Below(q, p)
  {
    var whole := p + "/" + x;
    assert whole[..|p|] == p && whole[|p|] == '/';
    assert whole == q + "/" + y;
    assert whole[..|q|] == q && whole[|q|] == '/';
    if |p| < |q| {
      assert q[..|p| + 1] == whole[..|p| + 1] == p + "/";
    } else if |q| < |p| {
      assert p[..|q| + 1] == whole[..|q| + 1] == q + "/";
    }
  }

  /** What an inner folder adds to an outer one. */
  function Inside(root: string, inner: string): string
    requires Below(root, inner)
  {
    inner[|root| + 1..]
  }

  /**
   * The copy of `b` into the inner folder is the copy of `a` into the outer one: `a` has the folders that the inner
   * one adds as its bucket and the beginning of its name.
   */
  predicate Reaches(outer: string, a: ObjectKey, inner: string, b: ObjectKey) {
    Below(outer, inner) && a.bucket + "/" + a.path == Inside(outer, inner) + "/" + b.bucket + "/" + b.path
  }

  lemma ReachesIff(outer: string, a: ObjectKey, inner: string, b: ObjectKey)
    requires Below(outer, inner)
    ensures Reaches(outer, a, inner, b) <==>
            outer + "/" + a.bucket + "/" + a.path == inner + "/" + b.bucket + "/" + b.path
  {
    var rest := Inside(outer, inner);
    assert inner == outer + "/" + rest;
    assert outer + "/" + a.bucket + "/" + a.path == (outer + "/") + (a.bucket + "/" + a.path);
    assert inner + "/" + b.bucket + "/" + b.path == (outer + "/") + (rest + "/" + b.bucket + "/" + b.path);
    if outer + "/" + a.bucket + "/" + a.path == inner + "/" + b.bucket + "/" + b.path {
      Cancel(outer + "/", a.bucket + "/" + a.path, rest + "/" + b.bucket + "/" + b.path);
    }
  }

  /**
   * Copies of two jobs, with any requested prefixes, meet exactly when the objects share an absolute name, or both
   * names are relative, one job's folder lies below the other's, and the object copied into the outer folder is
   * named like the way from there to the copy in the inner one.
   */
  lemma JobsMeetIff(prefixA: string, jobA: string, a: ObjectKey, prefixB: string, jobB: string, b: ObjectKey)
    requires IsSegment(jobA) && IsSegment(jobB) && jobA != jobB && IsSegment(a.bucket) && IsSegment(b.bucket)
    ensures Destination(prefixA, jobA, a) == Destination(prefixB, jobB, b) <==>
            || SameAbsolute(a, b)
            || (&& IsRelative(a.path) && IsRelative(b.path)
                && (|| Reaches(JobRoot(prefixA, jobA), a, JobRoot(prefixB, jobB), b)
                    || Reaches(JobRoot(prefixB, jobB), b, JobRoot(prefixA, jobA), a)))
  {
    DestinationShape(prefixA, jobA, a);
    DestinationShape(prefixB, jobB, b);
    DestinationStart(prefixA, jobA, a);
    DestinationStart(prefixB, jobB, b);
    if IsRelative(a.path) && IsRelative(b.path) {
      RootsDiffer(prefixA, jobA, prefixB, jobB);
      RelativeMeetIff(JobRoot(prefixA, jobA), a, JobRoot(prefixB, jobB), b);
    }
  }

  lemma RelativeMeetIff(p: string, a: ObjectKey, q: string, b: ObjectKey)
    requires p != q
    ensures p + "/" + a.bucket + "/" + a.path == q + "/" + b.bucket + "/" + b.path <==>
            Reaches(p, a, q, b) || Reaches(q, b, p, a)
  {
    if p + "/" + a.bucket + "/" + a.path == q + "/" + b.bucket + "/" + b.path {
      Regroup(p, a.bucket, a.path);
      Regroup(q, b.bucket, b.path);
      FoldersNest(p, a.bucket + "/" + a.path, q, b.bucket + "/" + b.path);
    }
    if Below(p, q) {
      ReachesIff(p, a, q, b);
    }
    if Below(q, p) {
      ReachesIff(q, b, p, a);
    }
  }

  /** A path whose first segment can be a bucket and whose rest can be a relative object name. */
  predicate Enterable(rest: string) {
    BeforeSlashProperties(rest);
    BeforeSlash(rest) != "" && !StartsWith((rest + "/")[|BeforeSlash(rest)|..], "//")
  }

  /** Objects of both jobs with relative names can meet below nested folders, if the way between them can be entered. */
  predicate Nested(outer: string, inner: string) {
    Below(outer, inner) && Enterable(Inside(outer, inner))
  }

  /** After the first segment of an enterable path comes a relative name. */
  lemma EnterableSplit(rest: string, more: string) returns (tail: string)
    requires Enterable(rest) && more != "" && IsRelative(more)
    ensures rest + "/" + more == BeforeSlash(rest) + "/" + tail && IsRelative(tail)
  {
    var f, whole := BeforeSlash(rest), rest + "/" + more;
    BeforeSlashProperties(rest);
    if f == rest {
      tail := more;
    } else {
      tail := whole[|f| + 1..];
      assert whole[..|f|] == f && whole[|f|] == '/';
      SecondSlash(rest + "/", more, |f|);
    }
  }

  /** Two objects that meet below nested folders: `b` is copied into the inner one. */
  lemma MeetingPair(outer: string, inner: string) returns (a: ObjectKey, b: ObjectKey)
    requires Nested(outer, inner)
    ensures IsSegment(a.bucket) && IsSegment(b.bucket) && IsRelative(a.path) && IsRelative(b.path)
    ensures Reaches(outer, a, inner, b)
  {
    var rest := Inside(outer, inner);
    b := ObjectKey("b", "x.py");
    var more := b.bucket + "/" + b.path;
    assert more[0] == 'b';
    var tail := EnterableSplit(rest, more);
    BeforeSlashProperties(rest);
    a := ObjectKey(BeforeSlash(rest), tail);
    Regroup(rest, b.bucket, b.path);
  }

  /** Objects that meet show that the folders are nested in this way. */
  lemma MeetingNests(outer: string, a: ObjectKey, inner: string, b: ObjectKey)
    requires Reaches(outer, a, inner, b) && IsSegment(a.bucket) && IsRelative(a.path)
    ensures Nested(outer, inner)
  {
    var rest, more := Inside(outer, inner), b.bucket + "/" + b.path;
    Regroup(rest, b.bucket, b.path);
    BeforeSlashOf(a.bucket, a.path);
    BeforeSlashProperties(rest);
    BeforeSlashFirst(rest, more);
    var f := BeforeSlash(rest);
    assert a.path == (rest + "/" + more)[|f| + 1..];
    if f != rest {
      SecondSlash(rest + "/", more, |f|);
    }
  }

  lemma SecondSlash(s: string, more: string, n: nat)
    requires n + 1 < |s| && s[n] == '/'
    ensures StartsWith(s[n..], "//") <==> StartsWith((s + more)[n + 1..], "/")
  {
    assert s[n..][0] == '/' && s[n..][1] == s[n + 1] == (s + more)[n + 1..][0];
    assert s[n..][..2] == [s[n], s[n + 1]];
  }

  lemma {:induction false} BeforeSlashFirst(s: string, more: string)
    ensures BeforeSlash(s + "/" + more) == BeforeSlash(s)
  {
    if s == [] {
      assert s + "/" + more == "/" + more;
    } else {
      assert (s + "/" + more)[1..] == s[1..] + "/" + more;
      BeforeSlashFirst(s[1..], more);
    }
  }

  /** Relative objects of the two jobs whose copies meet. */
  ghost predicate Meet(prefixA: string, jobA: string, a: ObjectKey, prefixB: string, jobB: string, b: ObjectKey) {
    && IsSegment(a.bucket) && IsSegment(b.bucket) && IsRelative(a.path) && IsRelative(b.path)
    && Destination(prefixA, jobA, a) == Destination(prefixB, jobB, b)
  }

  /**
   * Different jobs can meet at relative names exactly when one requested prefix leads into the folder of the other
   * job, and on to where a bucket and a relative name can lead as well.
   */
  lemma JobsCanMeetIff(prefixA: string, jobA: string, prefixB: string, jobB: string)
    requires IsSegment(jobA) && IsSegment(jobB) && jobA != jobB
    ensures (exists a, b :: Meet(prefixA, jobA, a, prefixB, jobB, b)) <==>
            || Nested(JobRoot(prefixA, jobA), JobRoot(prefixB, jobB))
            || Nested(JobRoot(prefixB, jobB), JobRoot(prefixA, jobA))
  {
    var p, q := JobRoot(prefixA, jobA), JobRoot(prefixB, jobB);
    if a, b :| Meet(prefixA, jobA, a, prefixB, jobB, b) {
      JobsMeetIff(prefixA, jobA, a, prefixB, jobB, b);
      NotBothAbsolute(a, b);
      if Reaches(p, a, q, b) {
        MeetingNests(p, a, q, b);
      } else {
        MeetingNests(q, b, p, a);
      }
    }
    if Nested(p, q) {
      var a, b := MeetingPair(p, q);
      JobsMeetIff(prefixA, jobA, a, prefixB, jobB, b);
      assert Meet(prefixA, jobA, a, prefixB, jobB, b);
    } else if Nested(q, p) {
      var b, a := MeetingPair(q, p);
      JobsMeetIff(prefixA, jobA, a, prefixB, jobB, b);
      assert Meet(prefixA, jobA, a, prefixB, jobB, b);
    }
  }

  lemma NotBothAbsolute(a: ObjectKey, b: ObjectKey)
    requires IsRelative(a.path)
    ensures !SameAbsolute(a, b)
  {}

  /** With the same requested prefix, copies of two jobs meet exactly at a common absolute name. */
  lemma SamePrefixMeetIff(prefix: string, jobA: string, jobB: string, a: ObjectKey, b: ObjectKey)
    requires IsSegment(jobA) && IsSegment(jobB) && jobA != jobB && IsSegment(a.bucket) && IsSegment(b.bucket)
    ensures Destination(prefix, jobA, a) == Destination(prefix, jobB, b) <==> SameAbsolute(a, b)
  {
    JobsMeetIff(prefix, jobA, a, prefix, jobB, b);
    NotBelowSibling(prefix, jobA, jobB);
    NotBelowSibling(prefix, jobB, jobA);
  }

  /** The folder of one job never lies below that of another with the same prefix. */
  lemma NotBelowSibling(prefix: string, jobA: string, jobB: string)
    requires IsSegment(jobB)
    ensures !Below(JobRoot(prefix, jobA), JobRoot(prefix, jobB))
  {
    FolderOfRoot(prefix, jobA);
    FolderOfRoot(prefix, jobB);
    var folder, p, q := JobsFolder(prefix), JobRoot(prefix, jobA), JobRoot(prefix, jobB);
    forall k | |folder| <= k < |q|
      ensures q[k] != '/'
    {
      assert q[k] == jobB[k - |folder|];
    }
    if Below(p, q) {
      SlashAfter(p, q);
    }
  }

  lemma SlashAfter(p: string, q: string)
    requires Below(p, q)
    ensures |p| < |q| && q[|p|] == '/'
  {
    assert q[|p|] == (p + "/")[|p|];
  }

  /** Objects of two buckets and two jobs that end up in one place. */
  lemma CopiesCollide(prefix: string)
    ensures Destination(prefix, "job1", ObjectKey("left", "/x.py")) ==
              Destination(prefix, "job1", ObjectKey("right", "/x.py"))
    ensures Destination(prefix, "job1", ObjectKey("left", "/x.py")) ==
              Destination(prefix, "job2", ObjectKey("left", "/x.py"))
  {
    DestinationShape(prefix, "job1", ObjectKey("left", "/x.py"));
    DestinationShape(prefix, "job1", ObjectKey("right", "/x.py"));
    DestinationShape(prefix, "job2", ObjectKey("left", "/x.py"));
  }

  /** The folder that a job copies the objects of a bucket to. */
  function BucketFolder(prefix: string, jobId: string, bucket: string): string { JobRoot(prefix, jobId) + "/" + bucket }

  /**
   * A prefix that leads into the folder of another job is allowed whenever the prefix of that job is, and then
   * relative names meet.
   */
  lemma NestedPrefixesCollide(prefix: string, jobA: string, bucket: string, jobB: string, b: ObjectKey)
    requires IsSegment(jobA) && IsSegment(bucket) && IsSegment(jobB) && IsSegment(b.bucket) && IsRelative(b.path)
    ensures var a := ObjectKey(bucket, "jobs/" + jobB + "/" + b.bucket + "/" + b.path);
      IsRelative(a.path) && Destination(prefix, jobA, a) == Destination(BucketFolder(prefix, jobA, bucket), jobB, b)
  {
    var folder, path := BucketFolder(prefix, jobA, bucket), "jobs/" + jobB + "/" + b.bucket + "/" + b.path;
    BucketFolderStripped(prefix, jobA, bucket);
    DestinationShape(folder, jobB, b);
    assert path[0] == 'j';
    DestinationShape(prefix, jobA, ObjectKey(bucket, path));
    RegroupJobs(folder, jobB, b.bucket + "/" + b.path);
    Regroup("jobs/" + jobB, b.bucket, b.path);
    Regroup(folder + "/jobs/" + jobB, b.bucket, b.path);
  }

  lemma RegroupJobs(folder: string, jobId: string, rest: string)
    ensures folder + "/" + ("jobs/" + jobId + "/" + rest) == folder + "/jobs/" + jobId + "/" + rest
  {
    assert folder + "/jobs/" == folder + "/" + "jobs/";
  }

  lemma BucketFolderStripped(prefix: string, jobId: string, bucket: string)
    requires IsSegment(jobId) && IsSegment(bucket)
    ensures StripSlashes(BucketFolder(prefix, jobId, bucket)) == BucketFolder(prefix, jobId, bucket) != ""
  {
    var folder := BucketFolder(prefix, jobId, bucket);
    TargetPrefixShape(prefix, jobId);
    assert folder[|folder| - 1] == bucket[|bucket| - 1] && bucket[|bucket| - 1] in bucket;
    StripUnchanged(folder, IsSlash);
  }

  /** Ignoring case, the folder lies below the requested prefix, if there is one. */
  lemma FoldedFolder(prefix: string, jobId: string, bucket: string, lower: char -> char) returns (rest: string)
    requires KeepsSlashes(lower) && IsSegment(jobId) && IsSegment(bucket)
    ensures NormalPrefix(prefix, lower) != "" ==>
              NormalPrefix(BucketFolder(prefix, jobId, bucket), lower) == NormalPrefix(prefix, lower) + "/" + rest
  {
    var start, more := StripSlashes(prefix), "jobs/" + jobId + "/" + bucket;
    BucketFolderStripped(prefix, jobId, bucket);
    rest := Fold(more, lower);
    if start != "" {
      assert start + "/jobs/" == start + "/" + "jobs/";
      assert BucketFolder(prefix, jobId, bucket) == (start + "/") + more;
      FoldThree(start, more, lower);
    }
  }

  lemma NestedPrefixAllowed(target: CopyTarget, request: CopyRequest, lower: char -> char, jobA: string, bucket: string)
    requires KeepsSlashes(lower) && IsSegment(jobA) && IsSegment(bucket) && Allows(target, request, lower)
    ensures Allows(target, request.(prefix := BucketFolder(request.prefix, jobA, bucket)), lower)
  {
    var rest := FoldedFolder(request.prefix, jobA, bucket, lower);
    if NormalPrefix(target.prefix, lower) != "" {
      BelowTransitive(NormalPrefix(request.prefix, lower), NormalPrefix(target.prefix, lower), rest);
    }
  }

  /**
   * A copy lands below its job's folder exactly when the object name is relative: an absolute one discards the
   * folder.
   */
  lemma DestinationBelowJobIff(prefix: string, jobId: string, source: ObjectKey)
    requires IsSegment(jobId) && IsSegment(source.bucket)
    ensures StartsWith(Destination(prefix, jobId, source), JobRoot(prefix, jobId) + "/") <==> IsRelative(source.path)
  {
    TargetPrefixShape(prefix, jobId);
    var root := JobRoot(prefix, jobId);
    if IsRelative(source.path) {
      DestinationShape(prefix, jobId, source);
      assert root + "/" + source.bucket + "/" + source.path == root + "/" + (source.bucket + "/" + source.path);
    } else {
      assert Destination(prefix, jobId, source) == source.path;
      assert source.path[0] == '/';
      assert (root + "/")[0] != '/';
    }
  }

  /** The lower-case mapping keeps slashes apart from other characters. */
  ghost predicate KeepsSlashes(lower: char -> char) { forall c :: lower(c) == '/' <==> c == '/' }

  /**
   * A copy stays, ignoring case, under the root of the target that was approved for the request, exactly when
   * that root is empty or the object name is relative.
   */
  lemma DestinationBelowTargetIff(target: CopyTarget, request: CopyRequest, lower: char -> char, jobId: string,
                                  source: ObjectKey)
    requires KeepsSlashes(lower) && Allows(target, request, lower)
    requires IsSegment(jobId) && IsSegment(source.bucket)
    ensures AtOrBelow(Fold(Destination(request.prefix, jobId, source), lower), NormalPrefix(target.prefix, lower)) <==>
            NormalPrefix(target.prefix, lower) == "" || IsRelative(source.path)
  {
    var root := NormalPrefix(target.prefix, lower);
    if root != "" {
      StripProperties(target.prefix, IsSlash);
      if IsRelative(source.path) {
        var rest := FoldedDestination(request.prefix, lower, jobId, source);
        BelowTransitive(NormalPrefix(request.prefix, lower), root, rest);
      } else {
        assert Destination(request.prefix, jobId, source) == source.path;
        assert source.path[0] == '/' && root[0] != '/';
        assert Fold(source.path, lower)[0] == '/';
      }
    }
  }

  lemma FoldedDestination(prefix: string, lower: char -> char, jobId: string, source: ObjectKey) returns (rest: string)
    requires KeepsSlashes(lower) && IsSegment(jobId) && IsSegment(source.bucket) && IsRelative(source.path)
    ensures NormalPrefix(prefix, lower) != "" ==>
              Fold(Destination(prefix, jobId, source), lower) == NormalPrefix(prefix, lower) + "/" + rest
  {
    DestinationInFolder(prefix, jobId, source);
    var name := source.bucket + "/" + source.path;
    rest := Fold("jobs/" + (jobId + "/" + name), lower);
    if NormalPrefix(prefix, lower) != "" {
      FolderSplit(StripSlashes(prefix), jobId, name);
      FoldThree(StripSlashes(prefix), "jobs/" + (jobId + "/" + name), lower);
    }
  }

  lemma FolderSplit(start: string, jobId: string, name: string)
    ensures start + "/jobs/" + jobId + "/" + name == (start + "/") + ("jobs/" + (jobId + "/" + name))
  {
    assert start + "/jobs/" == (start + "/") + "jobs/";
  }

  lemma FoldThree(a: string, b: string, lower: char -> char)
    requires KeepsSlashes(lower)
    ensures Fold((a + "/") + b, lower) == Fold(a, lower) + "/" + Fold(b, lower)
  {
    FoldConcat(a + "/", b, lower);
    FoldConcat(a, "/", lower);
    assert Fold("/", lower) == "/";
  }

  lemma BelowTransitive(path: string, root: string, rest: string)
    requires root != "" && AtOrBelow(path, root)
    ensures AtOrBelow(path + "/" + rest, root)
  {
    if path == root {
      assert path + "/" + rest == (root + "/") + rest;
    } else {
      var more := path[|root| + 1..];
      assert path == (root + "/") + more;
      assert path + "/" + rest == (root + "/") + (more + "/" + rest);
    }
  }

  // ---------- the sources ----------

  datatype CopySource = CopySource(key: ObjectKey, generation: nat)

  function SourceOf(r: Row): CopySource { CopySource(r.Key(), r.generation) }

  /** The rows of all terms, in the order in which they are visited. */
  function RowsOf(terms: seq<string>, results: Results): seq<Row> {
    if terms == [] then [] else
      var last := terms[|terms| - 1];
      RowsOf(terms[..|terms| - 1], results) + if last in results then results[last] else []
  }

  function ObjectsOf(rows: seq<Row>): set<ObjectKey> { set r | r in rows :: r.Key() }

  /** The dict filled by the loops: a later row of the same object overwrites an earlier one. */
  function SourcesByKey(rows: seq<Row>): map<ObjectKey, CopySource> {
    if rows == [] then map[] else
      var last := rows[|rows| - 1];
      SourcesByKey(rows[..|rows| - 1])[last.Key() := SourceOf(last)]
  }

  function InKeyOrder(byKey: map<ObjectKey, CopySource>): seq<CopySource> {
    KeyLeIsTotalOrder();
    MapFilter(SortedSet(byKey.Keys, KeyLe), (k: ObjectKey) => if k in byKey then Some(byKey[k]) else None)
  }

  lemma OneMoreRow(rows: seq<Row>, j: nat, before: seq<Row>)
    requires j < |rows|
    ensures SourcesByKey(before + rows[..j + 1]) == SourcesByKey(before + rows[..j])[rows[j].Key() := SourceOf(rows[j])]
  {
    assert (before + rows[..j + 1])[..|before| + j] == before + rows[..j];
    assert (before + rows[..j + 1])[|before| + j] == rows[j];
  }

  /** The inner loop: the rows of one term. */
  method AddSources(ghost before: seq<Row>, rows: seq<Row>, byKey: map<ObjectKey, CopySource>)
    returns (after: map<ObjectKey, CopySource>)
    requires byKey == SourcesByKey(before)
    ensures after == SourcesByKey(before + rows)
  {
    after := byKey;
    assert before + rows[..0] == before;
    for j := 0 to |rows|
      invariant after == SourcesByKey(before + rows[..j])
    {
      OneMoreRow(rows, j, before);
      after := after[rows[j].Key() := SourceOf(rows[j])];
    }
    assert rows[..|rows|] == rows;
  }

  /** `unique_sources`. */
  method UniqueSources(terms: seq<string>, results: Results) returns (sources: seq<CopySource>)
    requires forall t :: t in terms ==> t in results
    ensures sources == InKeyOrder(SourcesByKey(RowsOf(terms, results)))
  {
    var byKey: map<ObjectKey, CopySource> := map[];
    for i := 0 to |terms|
      invariant byKey == SourcesByKey(RowsOf(terms[..i], results))
    {
      assert terms[i] in terms && terms[..i + 1][..i] == terms[..i];
      byKey := AddSources(RowsOf(terms[..i], results), results[terms[i]], byKey);
    }
    assert terms[..|terms|] == terms;
    sources := InKeyOrder(byKey);
  }

  /** The row at `i` is the last one of the object. */
  ghost predicate IsLastRow(rows: seq<Row>, i: int, k: ObjectKey) {
    0 <= i < |rows| && rows[i].Key() == k && forall j :: i < j < |rows| ==> rows[j].Key() != k
  }

  /** The source stands for the last row of its object, with that row's generation. */
  ghost predicate IsSourceOf(rows: seq<Row>, source: CopySource) {
    exists i :: IsLastRow(rows, i, source.key) && source.generation == rows[i].generation
  }

  lemma SourceAfterRow(before: seq<Row>, row: Row, source: CopySource)
    requires IsSourceOf(before, source) && source.key != row.Key()
    ensures IsSourceOf(before + [row], source)
  {
    var rows := before + [row];
    var i :| IsLastRow(before, i, source.key) && source.generation == before[i].generation;
    assert forall j :: 0 <= j < |before| ==> rows[j] == before[j];
    assert IsLastRow(rows, i, source.key) && rows[i] == before[i];
  }

  lemma {:induction false} SourcesByKeyProperties(rows: seq<Row>)
    ensures var m := SourcesByKey(rows);
      && m.Keys == ObjectsOf(rows)
      && forall k :: k in m ==> m[k].key == k && IsSourceOf(rows, m[k])
  {
    if rows != [] {
      var n := |rows| - 1;
      var before, m := rows[..n], SourcesByKey(rows[..n]);
      SourcesByKeyProperties(before);
      assert rows == before + [rows[n]];
      assert IsLastRow(rows, n, rows[n].Key());
      forall k | k in m && k != rows[n].Key()
        ensures IsSourceOf(rows, m[k])
      {
        SourceAfterRow(before, rows[n], m[k]);
      }
    }
  }

  /** One source per object, in key order, each standing for the last row of its object: as many as matching objects. */
  lemma UniqueSourcesProperties(rows: seq<Row>)
    ensures var m := SourcesByKey(rows); var sources := InKeyOrder(m);
      && |sources| == |ObjectsOf(rows)|
      && (forall i, j :: 0 <= i < j < |sources| ==>
          sources[i].key != sources[j].key && KeyLe(sources[i].key, sources[j].key))
      && (forall i :: 0 <= i < |sources| ==> IsSourceOf(rows, sources[i]))
  {
    var m := SourcesByKey(rows);
    KeyLeIsTotalOrder();
    SourcesByKeyProperties(rows);
    SortedSetProperties(m.Keys, KeyLe);
    var keys := SortedSet(m.Keys, KeyLe);
    Looked(keys, m);
    forall i | 0 <= i < |keys|
      ensures keys[i] in m
    {
      assert keys[i] in keys;
    }
  }

  lemma {:induction false} Looked(keys: seq<ObjectKey>, m: map<ObjectKey, CopySource>)
    requires forall k :: k in keys ==> k in m && m[k].key == k
    ensures var found := MapFilter(keys, (k: ObjectKey) => if k in m then Some(m[k]) else None);
      |found| == |keys| && forall i :: 0 <= i < |keys| ==>
          keys[i] in m && found[i] == m[keys[i]] && found[i].key == keys[i]
  {
    if keys != [] {
      assert keys[0] in keys;
      assert forall k :: k in keys[1..] ==> k in keys;
      Looked(keys[1..], m);
    }
  }

  /** When every row carries the generation of its object, the sources do not depend on the order of rows. */
  lemma SourcesCanonical(a: seq<Row>, b: seq<Row>, generation: ObjectKey -> nat)
    requires ObjectsOf(a) == ObjectsOf(b)
    requires forall r :: r in a || r in b ==> r.generation == generation(r.Key())
    ensures InKeyOrder(SourcesByKey(a)) == InKeyOrder(SourcesByKey(b))
    ensures forall s :: s in InKeyOrder(SourcesByKey(a)) ==> s.generation == generation(s.key)
  {
    ByGeneration(a, generation);
    ByGeneration(b, generation);
    assert SourcesByKey(a) == SourcesByKey(b);
    SourcesHaveGeneration(a, generation);
  }

  lemma ByGeneration(rows: seq<Row>, generation: ObjectKey -> nat)
    requires forall r :: r in rows ==> r.generation == generation(r.Key())
    ensures var m := SourcesByKey(rows);
      m.Keys == ObjectsOf(rows) && forall k :: k in m ==> m[k] == CopySource(k, generation(k))
  {
    SourcesByKeyProperties(rows);
    SourceGenerations(rows, generation);
  }

  lemma SourcesHaveGeneration(rows: seq<Row>, generation: ObjectKey -> nat)
    requires forall r :: r in rows ==> r.generation == generation(r.Key())
    ensures forall s :: s in InKeyOrder(SourcesByKey(rows)) ==> s.generation == generation(s.key)
  {
    UniqueSourcesProperties(rows);
    SourceGenerations(rows, generation);
  }

  lemma SourceGenerations(rows: seq<Row>, generation: ObjectKey -> nat)
    requires forall r :: r in rows ==> r.generation == generation(r.Key())
    ensures forall s :: IsSourceOf(rows, s) ==> s.generation == generation(s.key)
  {
    forall s | IsSourceOf(rows, s)
      ensures s.generation == generation(s.key)
    {
      var i :| IsLastRow(rows, i, s.key) && s.generation == rows[i].generation;
      assert rows[i] in rows;
    }
  }

  // ---------- copying ----------

  /** How the storage service answers for the source of a copy. */
  datatype SourceState = Available | GenerationChanged | Unreadable

  datatype CopyStatus = Copied | SkippedExisting | CopyFailed

  /** What a copy request needs to know. */
  datatype CopyJob = CopyJob(prefix: string, jobId: string, overwrite: bool, state: CopySource -> SourceState)

  function DestinationOf(job: CopyJob, source: CopySource): string { Destination(job.prefix, job.jobId, source.key) }

  /** The copy may not replace what is there. */
  predicate Occupied(job: CopyJob, objects: map<string, CopySource>, source: CopySource) {
    !job.overwrite && DestinationOf(job, source) in objects
  }

  /** The copy is pinned to a generation that is no longer the current one. */
  predicate Moved(job: CopyJob, source: CopySource) { source.generation > 0 && job.state(source) == GenerationChanged }

  /** The status of one copy, given what the target bucket holds: either failed precondition counts as existing. */
  function StatusOf(job: CopyJob, objects: map<string, CopySource>, source: CopySource): CopyStatus {
    if job.state(source) == Unreadable then CopyFailed
    else if Moved(job, source) || Occupied(job, objects, source) then SkippedExisting
    else Copied
  }

  /** The copy asks for the generation that is there, or for none in particular. */
  predicate Readable(job: CopyJob, source: CopySource) {
    job.state(source) == Available || (job.state(source) == GenerationChanged && source.generation == 0)
  }

  /**
   * What decides each status: a source that can be read is copied exactly when its destination is free or may be
   * overwritten, and is skipped otherwise; so is one that has moved on; one that cannot be read fails.
   */
  lemma StatusIff(job: CopyJob, objects: map<string, CopySource>, source: CopySource)
    ensures var name := Destination(job.prefix, job.jobId, source.key);
      && (StatusOf(job, objects, source) == Copied <==> Readable(job, source) && (job.overwrite || name !in objects))
      && (StatusOf(job, objects, source) == CopyFailed <==> job.state(source) == Unreadable)
      && (StatusOf(job, objects, source) == SkippedExisting <==>
            || (Readable(job, source) && !job.overwrite && name in objects)
            || (job.state(source) == GenerationChanged && source.generation > 0))
  {}

  /**
   * The message of a skipped copy, that its destination exists and overwriting is disabled, can be relied on
   * exactly when the source has not moved on or the destination is occupied as well.
   */
  lemma SkippedMeansOccupiedIff(job: CopyJob, objects: map<string, CopySource>, source: CopySource)
    ensures (StatusOf(job, objects, source) == SkippedExisting ==> Occupied(job, objects, source)) <==>
            !Moved(job, source) || Occupied(job, objects, source)
  {}

  /** A copy that is skipped as existing although overwriting is enabled and the target bucket is empty. */
  lemma SkippedThoughFree(prefix: string, source: CopySource)
    requires source.generation > 0
    ensures var job := CopyJob(prefix, "job1", true, (s: CopySource) => GenerationChanged);
      StatusOf(job, map[], source) == SkippedExisting && !Occupied(job, map[], source)
  {}

  /** `copy_one`. */
  function CopyOne(job: CopyJob, objects: map<string, CopySource>, source: CopySource): map<string, CopySource> {
    if StatusOf(job, objects, source) == Copied then objects[DestinationOf(job, source) := source] else objects
  }

  /** The copies carried out one after the other, in the order in which the pool runs them. */
  function CopyAll(job: CopyJob, objects: map<string, CopySource>, sources: seq<CopySource>): map<string, CopySource>
    decreases |sources|
  {
    if sources == [] then objects else CopyAll(job, CopyOne(job, objects, sources[0]), sources[1..])
  }

  ghost predicate SeparateDestinations(job: CopyJob, sources: seq<CopySource>) {
    forall i, j :: 0 <= i < j < |sources| ==> DestinationOf(job, sources[i]) != DestinationOf(job, sources[j])
  }

  /** No two objects share an absolute name. */
  ghost predicate NoSharedAbsolute(keys: set<ObjectKey>) {
    forall a, b :: a in keys && b in keys && SameAbsolute(a, b) ==> a == b
  }

  /** The sources of a job go to different places exactly when no two objects share an absolute name. */
  lemma SourcesSeparateIff(job: CopyJob, rows: seq<Row>)
    requires IsSegment(job.jobId) && forall r :: r in rows ==> IsSegment(r.bucket)
    ensures SeparateDestinations(job, InKeyOrder(SourcesByKey(rows))) <==> NoSharedAbsolute(ObjectsOf(rows))
  {
    var sources := InKeyOrder(SourcesByKey(rows));
    UniqueSourcesProperties(rows);
    SourceKeys(rows);
    forall i, j | 0 <= i < j < |sources|
      ensures DestinationOf(job, sources[i]) == DestinationOf(job, sources[j]) <==>
                SameAbsolute(sources[i].key, sources[j].key)
    {
      DestinationEqualIff(job.prefix, job.jobId, sources[i].key, sources[j].key);
    }
    if SeparateDestinations(job, sources) {
      forall a, b | a in ObjectsOf(rows) && b in ObjectsOf(rows) && SameAbsolute(a, b)
        ensures a == b
      {
        var i :| 0 <= i < |sources| && sources[i].key == a;
        var j :| 0 <= j < |sources| && sources[j].key == b;
      }
    }
  }

  /** The keys of the sources are the objects of the rows. */
  lemma SourceKeys(rows: seq<Row>)
    ensures var sources := InKeyOrder(SourcesByKey(rows));
      && (forall i :: 0 <= i < |sources| ==> sources[i].key in ObjectsOf(rows))
      && (forall k :: k in ObjectsOf(rows) ==> exists i :: 0 <= i < |sources| && sources[i].key == k)
  {
    var m := SourcesByKey(rows);
    KeyLeIsTotalOrder();
    SourcesByKeyProperties(rows);
    SortedSetProperties(m.Keys, KeyLe);
    var keys := SortedSet(m.Keys, KeyLe);
    Looked(keys, m);
    forall i | 0 <= i < |keys|
      ensures keys[i] in ObjectsOf(rows)
    {
      assert keys[i] in keys;
    }
  }

  /** `source` is copied to `name`, judging by the bucket as it was before all copies. */
  predicate Lands(job: CopyJob, objects: map<string, CopySource>, source: CopySource, name: string) {
    DestinationOf(job, source) == name && StatusOf(job, objects, source) == Copied
  }

  /** What each copy leaves is decided by the bucket as it was before all of them. */
  lemma {:induction false} CopyAllCharacterised(job: CopyJob, objects: map<string, CopySource>,
                                                sources: seq<CopySource>, name: string)
    requires SeparateDestinations(job, sources)
    ensures var after := CopyAll(job, objects, sources);
      && (forall i :: 0 <= i < |sources| && Lands(job, objects, sources[i], name) ==>
          name in after && after[name] == sources[i])
      && ((forall i :: 0 <= i < |sources| ==> !Lands(job, objects, sources[i], name)) ==>
            (name in after <==> name in objects) && (name in objects ==> after[name] == objects[name]))
    decreases |sources|
  {
    if sources != [] {
      assert SeparateDestinations(job, sources[1..]) by {
        forall i, j | 0 <= i < j < |sources| - 1
          ensures DestinationOf(job, sources[1..][i]) != DestinationOf(job, sources[1..][j])
        {
          assert DestinationOf(job, sources[i + 1]) != DestinationOf(job, sources[j + 1]);
        }
      }
      CopyAllCharacterised(job, CopyOne(job, objects, sources[0]), sources[1..], name);
    }
  }

  /** The place of a copy, spelled out. */
  function Place(prefix: string, jobId: string, source: ObjectKey): string {
    var root := StripSlashes(prefix);
    (if root == "" then "" else root + "/") + "jobs/" + jobId + "/" + source.bucket + "/" + source.path
  }

  lemma PlaceIsDestination(prefix: string, jobId: string, source: ObjectKey)
    requires IsSegment(jobId) && IsSegment(source.bucket) && IsRelative(source.path)
    ensures Destination(prefix, jobId, source) == Place(prefix, jobId, source)
  {
    DestinationShape(prefix, jobId, source);
    RootSpelled(prefix, jobId);
  }

  lemma RootSpelled(prefix: string, jobId: string)
    ensures JobRoot(prefix, jobId) ==
            (if StripSlashes(prefix) == "" then "" else StripSlashes(prefix) + "/") + "jobs/" + jobId
  {
    if StripSlashes(prefix) == "" {
      assert "" + "jobs/" == "jobs/";
    } else {
      assert StripSlashes(prefix) + "/jobs/" == StripSlashes(prefix) + "/" + "jobs/";
    }
  }

  /**
   * After all copies, a source with a relative name that can be read, and whose place is free or may be overwritten,
   * stands at its place, under its own generation.
   */
  lemma CopiedToItsPlace(job: CopyJob, objects: map<string, CopySource>, sources: seq<CopySource>, i: nat)
    requires SeparateDestinations(job, sources) && i < |sources| && IsSegment(job.jobId)
    requires IsSegment(sources[i].key.bucket) && IsRelative(sources[i].key.path)
    requires Readable(job, sources[i]) && (job.overwrite || Place(job.prefix, job.jobId, sources[i].key) !in objects)
    ensures var name, after := Place(job.prefix, job.jobId, sources[i].key), CopyAll(job, objects, sources);
      name in after && after[name] == sources[i]
  {
    var name := Place(job.prefix, job.jobId, sources[i].key);
    PlaceIsDestination(job.prefix, job.jobId, sources[i].key);
    StatusIff(job, objects, sources[i]);
    CopyAllCharacterised(job, objects, sources, name);
    assert Lands(job, objects, sources[i], name);
  }

  /** What stands at a place that no source is copied to is what stood there before. */
  lemma PlaceLeftAlone(job: CopyJob, objects: map<string, CopySource>, sources: seq<CopySource>, name: string)
    requires SeparateDestinations(job, sources)
    requires forall i :: 0 <= i < |sources| && Destination(job.prefix, job.jobId, sources[i].key) == name ==>
               !Readable(job, sources[i]) || (!job.overwrite && name in objects)
    ensures var after := CopyAll(job, objects, sources);
      (name in after <==> name in objects) && (name in objects ==> after[name] == objects[name])
  {
    CopyAllCharacterised(job, objects, sources, name);
    forall i | 0 <= i < |sources|
      ensures !Lands(job, objects, sources[i], name)
    {
      StatusIff(job, objects, sources[i]);
    }
  }

  lemma SeparatePermutation(job: CopyJob, a: seq<CopySource>, b: seq<CopySource>)
    requires SeparateDestinations(job, a) && multiset(a) == multiset(b)
    ensures SeparateDestinations(job, b) && forall s :: s in a <==> s in b
  {
    var key := (s: CopySource) => DestinationOf(job, s);
    forall i, j | 0 <= i < j < |a|
      ensures key(a[i]) != key(a[j])
    {}
    DistinctPermutation(a, b, key);
    PermutationElements(a, b);
    forall i, j | 0 <= i < j < |b|
      ensures DestinationOf(job, b[i]) != DestinationOf(job, b[j])
    {
      assert key(b[i]) != key(b[j]);
    }
  }

  /** The pool may run the copies in any order: the target bucket ends up the same. */
  lemma CopyOrderIrrelevant(job: CopyJob, objects: map<string, CopySource>, a: seq<CopySource>, b: seq<CopySource>)
    requires SeparateDestinations(job, a) && multiset(a) == multiset(b)
    ensures CopyAll(job, objects, a) == CopyAll(job, objects, b)
  {
    SeparatePermutation(job, a, b);
    var x, y := CopyAll(job, objects, a), CopyAll(job, objects, b);
    forall name
      ensures name in x <==> name in y
      ensures name in x ==> x[name] == y[name]
    {
      SameAtName(job, objects, a, b, name);
    }
  }

  lemma SameAtName(job: CopyJob, objects: map<string, CopySource>, a: seq<CopySource>, b: seq<CopySource>, name: string)
    requires SeparateDestinations(job, a) && SeparateDestinations(job, b) && forall s :: s in a <==> s in b
    ensures var x, y := CopyAll(job, objects, a), CopyAll(job, objects, b);
      (name in x <==> name in y) && (name in x ==> x[name] == y[name])
  {
    CopyAllCharacterised(job, objects, a, name);
    CopyAllCharacterised(job, objects, b, name);
    if i :| 0 <= i < |a| && Lands(job, objects, a[i], name) {
      assert a[i] in b;
      var j :| 0 <= j < |b| && b[j] == a[i];
      assert Lands(job, objects, b[j], name);
    } else {
      forall j | 0 <= j < |b|
        ensures !Lands(job, objects, b[j], name)
      {
        assert b[j] in a;
      }
    }
  }

  /** Without overwriting, no object that was in the target bucket is changed. */
  lemma {:induction false} ExistingKept(job: CopyJob, objects: map<string, CopySource>, sources: seq<CopySource>,
                                        name: string)
    requires !job.overwrite && name in objects
    ensures name in CopyAll(job, objects, sources) && CopyAll(job, objects, sources)[name] == objects[name]
    decreases |sources|
  {
    if sources != [] {
      ExistingKept(job, CopyOne(job, objects, sources[0]), sources[1..], name);
    }
  }
}
