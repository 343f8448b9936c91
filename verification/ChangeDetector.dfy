/**
 Incremental change detection: a scan of the file system is compared with the files of an earlier
 snapshot by path, size and modification time.
 */
module ChangeDetector {
  import opened Wrappers
  import opened Text

  datatype ScannedFile = ScannedFile(
    relativePath: string,
    absolutePath: string,
    fileName: string,
    sizeBytes: nat,
    modifiedAt: string)

  datatype FileRecord = FileRecord(
    fileId: string,
    profileId: Option<string>,
    fileName: string,
    relativePath: string,
    originalSize: nat,
    status: string,
    logicalFileHash: Option<string>,
    modifiedAt: Option<string>)

  datatype VersionRecord = VersionRecord(
    versionId: string,
    fileId: string,
    snapshotId: string,
    manifestId: string,
    status: string)

  /** A row of the earlier snapshot's listing. */
  type Row = (FileRecord, VersionRecord)

  datatype ChangeKind = New | Modified | Unchanged | Deleted

  datatype FileChange = FileChange(
    kind: ChangeKind,
    fileId: string,
    relativePath: string,
    scanned: Option<ScannedFile>,
    previousFile: Option<FileRecord>,
    previousVersion: Option<VersionRecord>)

  // ----- what each entry becomes ---------------------------------------------------------------

  predicate SameContent(s: ScannedFile, f: FileRecord) {
    s.sizeBytes == f.originalSize && f.modifiedAt == Some(s.modifiedAt)
  }

  function ScanEntry(s: ScannedFile, byPath: map<string, Row>, newId: string -> string): FileChange {
    if s.relativePath in byPath then
      var (f, v) := byPath[s.relativePath];
      FileChange(if SameContent(s, f) then Unchanged else Modified, f.fileId, s.relativePath, Some(s), Some(f), Some(v))
    else
      FileChange(New, newId(s.relativePath), s.relativePath, Some(s), None, None)
  }

  function DeletedEntry(r: Row): FileChange {
    FileChange(Deleted, r.0.fileId, r.0.relativePath, None, Some(r.0), Some(r.1))
  }

  /** The earlier rows by path; a later row replaces an earlier one with the same path. */
  ghost function ByPath(prev: seq<Row>): map<string, Row> {
    if prev == [] then map[]
    else var r := prev[|prev| - 1]; ByPath(prev[..|prev| - 1])[r.0.relativePath := r]
  }

  ghost function ScanEntries(scan: seq<ScannedFile>, byPath: map<string, Row>, newId: string -> string): seq<FileChange> {
    seq(|scan|, i requires 0 <= i < |scan| => ScanEntry(scan[i], byPath, newId))
  }

  ghost function ScanPaths(scan: seq<ScannedFile>): set<string> {
    set i | 0 <= i < |scan| :: scan[i].relativePath
  }

  ghost function DeletedEntries(prev: seq<Row>, seen: set<string>): seq<FileChange> {
    if prev == [] then []
    else
      var r := prev[|prev| - 1];
      DeletedEntries(prev[..|prev| - 1], seen) + (if r.0.relativePath in seen then [] else [DeletedEntry(r)])
  }

  // ----- sorting -------------------------------------------------------------------------------

  /** Inserts after every entry whose path is not greater, which keeps a sort stable. */
  function Insert(c: FileChange, cs: seq<FileChange>): (r: seq<FileChange>)
    ensures multiset(r) == multiset(cs) + multiset{c}
  {
    if cs == [] then [c]
    else if LexLess(c.relativePath, cs[0].relativePath) then [c] + cs
    else
      assert cs == [cs[0]] + cs[1..];
      [cs[0]] + Insert(c, cs[1..])
  }

  /** The stable sort by relative path. */
  function SortByPath(cs: seq<FileChange>): (r: seq<FileChange>)
    ensures multiset(r) == multiset(cs)
  {
    if cs == [] then []
    else
      assert cs == cs[..|cs| - 1] + [cs[|cs| - 1]];
      Insert(cs[|cs| - 1], SortByPath(cs[..|cs| - 1]))
  }

  predicate SortedByPath(cs: seq<FileChange>) {
    forall i, j :: 0 <= i < j < |cs| ==> !LexLess(cs[j].relativePath, cs[i].relativePath)
  }

  lemma NotGreater(a: string, b: string, c: string)
    requires !LexLess(b, a) && !LexLess(c, b)
    ensures !LexLess(c, a)
  {
    if LexLess(c, a) {
      LexTotal(a, b);
      if a != b {
        LexTransitive(c, a, b);
      }
    }
  }

  lemma {:induction false} InsertSorted(c: FileChange, cs: seq<FileChange>)
    requires SortedByPath(cs)
    ensures SortedByPath(Insert(c, cs))
  {
    if cs != [] {
      if LexLess(c.relativePath, cs[0].relativePath) {
        var r := [c] + cs;
        forall i, j | 0 <= i < j < |r| ensures !LexLess(r[j].relativePath, r[i].relativePath) {
          if i == 0 {
            LexAsymmetric(c.relativePath, cs[0].relativePath);
            if j > 1 {
              NotGreater(c.relativePath, cs[0].relativePath, cs[j - 1].relativePath);
            }
          }
        }
      } else {
        InsertSorted(c, cs[1..]);
        var rest := Insert(c, cs[1..]);
        forall j | 0 <= j < |rest| ensures !LexLess(rest[j].relativePath, cs[0].relativePath) {
          assert rest[j] in multiset(rest);
          assert rest[j] == c || rest[j] in cs[1..];
        }
      }
    }
  }

  lemma LexAsymmetric(s: string, t: string)
    requires LexLess(s, t)
    ensures !LexLess(t, s)
  {
    if LexLess(t, s) {
      LexTransitive(s, t, s);
      LexIrreflexive(s);
    }
  }

  lemma {:induction false} SortSorted(cs: seq<FileChange>)
    ensures SortedByPath(SortByPath(cs))
  {
    if cs != [] {
      SortSorted(cs[..|cs| - 1]);
      InsertSorted(cs[|cs| - 1], SortByPath(cs[..|cs| - 1]));
    }
  }

  // ----- detection as written ------------------------------------------------------------------

  /** The change set of a scan against an earlier listing. */
  ghost function Changes(scan: seq<ScannedFile>, prev: seq<Row>, newId: string -> string): seq<FileChange> {
    SortByPath(ScanEntries(scan, ByPath(prev), newId) + DeletedEntries(prev, ScanPaths(scan)))
  }

  method DetectChanges(scan: seq<ScannedFile>, prev: seq<Row>, newId: string -> string)
    returns (changes: seq<FileChange>)
    ensures changes == Changes(scan, prev, newId)
  {
    var prevByPath: map<string, Row> := map[];
    for i := 0 to |prev|
      invariant prevByPath == ByPath(prev[..i])
    {
      prevByPath := prevByPath[prev[i].0.relativePath := prev[i]];
      assert prev[..i + 1][..i] == prev[..i];
    }
    assert prev[..|prev|] == prev;
    changes := [];
    var seenPaths: set<string> := {};
    for i := 0 to |scan|
      invariant seenPaths == ScanPaths(scan[..i])
      invariant changes == ScanEntries(scan[..i], prevByPath, newId)
    {
      seenPaths := seenPaths + {scan[i].relativePath};
      ScanPathsExtend(scan, i);
      changes := changes + [ScanEntry(scan[i], prevByPath, newId)];
      assert scan[..i + 1][..i] == scan[..i];
    }
    assert scan[..|scan|] == scan;
    ghost var scanned := changes;
    for i := 0 to |prev|
      invariant changes == scanned + DeletedEntries(prev[..i], seenPaths)
    {
      if prev[i].0.relativePath !in seenPaths {
        changes := changes + [DeletedEntry(prev[i])];
      }
      assert prev[..i + 1][..i] == prev[..i];
    }
    changes := SortByPath(changes);
  }

  lemma ScanPathsExtend(scan: seq<ScannedFile>, i: nat)
    requires i < |scan|
    ensures ScanPaths(scan[..i + 1]) == ScanPaths(scan[..i]) + {scan[i].relativePath}
  {
    forall p | p in ScanPaths(scan[..i + 1]) ensures p in ScanPaths(scan[..i]) + {scan[i].relativePath} {
      var k :| 0 <= k < i + 1 && scan[..i + 1][k].relativePath == p;
      if k < i { assert scan[..i][k].relativePath == p; }
    }
    forall p | p in ScanPaths(scan[..i]) ensures p in ScanPaths(scan[..i + 1]) {
      var k :| 0 <= k < i && scan[..i][k].relativePath == p;
      assert scan[..i + 1][k].relativePath == p;
    }
    assert scan[..i + 1][i] == scan[i];
  }

  // ----- what the change set contains ----------------------------------------------------------

  ghost predicate UniqueScan(scan: seq<ScannedFile>) {
    forall i, j :: 0 <= i < j < |scan| ==> scan[i].relativePath != scan[j].relativePath
  }

  ghost predicate UniqueRows(prev: seq<Row>) {
    forall i, j :: 0 <= i < j < |prev| ==> prev[i].0.relativePath != prev[j].0.relativePath
  }

  lemma {:induction false} ByPathLookup(prev: seq<Row>)
    requires UniqueRows(prev)
    ensures forall p :: p in ByPath(prev) <==> exists i :: 0 <= i < |prev| && prev[i].0.relativePath == p
    ensures forall i :: 0 <= i < |prev| ==> prev[i].0.relativePath in ByPath(prev) && ByPath(prev)[prev[i].0.relativePath] == prev[i]
  {
    if prev != [] {
      var n := |prev| - 1;
      ByPathLookup(prev[..n]);
      forall p ensures p in ByPath(prev) <==> exists i :: 0 <= i < |prev| && prev[i].0.relativePath == p {
        if p in ByPath(prev[..n]) {
          var i :| 0 <= i < n && prev[..n][i].0.relativePath == p;
          assert prev[i].0.relativePath == p;
        }
        if i :| 0 <= i < |prev| && prev[i].0.relativePath == p {
          if i < n { assert prev[..n][i].0.relativePath == p; }
        }
      }
      forall i | 0 <= i < |prev|
        ensures prev[i].0.relativePath in ByPath(prev) && ByPath(prev)[prev[i].0.relativePath] == prev[i]
      {
        if i < n { assert prev[..n][i] == prev[i]; }
      }
    }
  }

  lemma {:induction false} DeletedMembers(prev: seq<Row>, seen: set<string>)
    ensures forall c :: c in DeletedEntries(prev, seen) <==>
              exists i :: 0 <= i < |prev| && prev[i].0.relativePath !in seen && c == DeletedEntry(prev[i])
  {
    if prev != [] {
      var n := |prev| - 1;
      DeletedMembers(prev[..n], seen);
      forall c ensures c in DeletedEntries(prev, seen) <==>
                       exists i :: 0 <= i < |prev| && prev[i].0.relativePath !in seen && c == DeletedEntry(prev[i]) {
        if c in DeletedEntries(prev[..n], seen) {
          var i :| 0 <= i < n && prev[..n][i].0.relativePath !in seen && c == DeletedEntry(prev[..n][i]);
          assert prev[i] == prev[..n][i];
        }
        if i :| 0 <= i < |prev| && prev[i].0.relativePath !in seen && c == DeletedEntry(prev[i]) {
          if i < n { assert prev[..n][i] == prev[i]; }
        }
      }
    }
  }

  /** A change is the entry of some scanned file. */
  ghost predicate FromScan(c: FileChange, scan: seq<ScannedFile>, prev: seq<Row>, newId: string -> string) {
    exists i :: 0 <= i < |scan| && c == ScanEntry(scan[i], ByPath(prev), newId)
  }

  /** A change is the entry of some earlier file that the scan did not see. */
  ghost predicate FromDeleted(c: FileChange, scan: seq<ScannedFile>, prev: seq<Row>) {
    exists i :: 0 <= i < |prev| && prev[i].0.relativePath !in ScanPaths(scan) &&
                c == FileChange(Deleted, prev[i].0.fileId, prev[i].0.relativePath, None, Some(prev[i].0), Some(prev[i].1))
  }

  lemma SortMembers(cs: seq<FileChange>)
    ensures forall c :: c in SortByPath(cs) <==> c in cs
    ensures |SortByPath(cs)| == |cs|
  {
    forall c ensures c in SortByPath(cs) <==> c in cs {
      assert c in SortByPath(cs) <==> c in multiset(SortByPath(cs));
    }
    assert |multiset(SortByPath(cs))| == |multiset(cs)|;
  }

  /** The change set holds exactly one entry per scanned file and one per vanished file. */
  lemma ChangeMembers(scan: seq<ScannedFile>, prev: seq<Row>, newId: string -> string)
    ensures forall c :: c in Changes(scan, prev, newId) <==>
              FromScan(c, scan, prev, newId) || FromDeleted(c, scan, prev)
  {
    var a, b := ScanEntries(scan, ByPath(prev), newId), DeletedEntries(prev, ScanPaths(scan));
    SortMembers(a + b);
    ScanMembers(scan, prev, newId);
    VanishedMembers(scan, prev);
  }

  lemma ScanMembers(scan: seq<ScannedFile>, prev: seq<Row>, newId: string -> string)
    ensures forall c :: c in ScanEntries(scan, ByPath(prev), newId) <==> FromScan(c, scan, prev, newId)
  {
    forall c ensures c in ScanEntries(scan, ByPath(prev), newId) <==> FromScan(c, scan, prev, newId) {
      if i :| 0 <= i < |scan| && c == ScanEntry(scan[i], ByPath(prev), newId) {
        assert ScanEntries(scan, ByPath(prev), newId)[i] == c;
      }
    }
  }

  lemma VanishedMembers(scan: seq<ScannedFile>, prev: seq<Row>)
    ensures forall c :: c in DeletedEntries(prev, ScanPaths(scan)) <==> FromDeleted(c, scan, prev)
  {
    DeletedMembers(prev, ScanPaths(scan));
    forall c ensures c in DeletedEntries(prev, ScanPaths(scan)) <==> FromDeleted(c, scan, prev) {
      if i :| 0 <= i < |prev| && prev[i].0.relativePath !in ScanPaths(scan) && c == DeletedEntry(prev[i]) {
        assert FromDeleted(c, scan, prev);
      }
    }
  }

  ghost predicate StrictlySorted(cs: seq<FileChange>) {
    forall i, j :: 0 <= i < j < |cs| ==> LexLess(cs[i].relativePath, cs[j].relativePath)
  }

  ghost predicate DistinctPaths(cs: seq<FileChange>) {
    forall i, j :: 0 <= i < j < |cs| ==> cs[i].relativePath != cs[j].relativePath
  }

  lemma {:induction false} DeletedDistinct(prev: seq<Row>, seen: set<string>)
    requires UniqueRows(prev)
    ensures DistinctPaths(DeletedEntries(prev, seen))
  {
    if prev != [] {
      var n := |prev| - 1;
      DeletedDistinct(prev[..n], seen);
      DeletedMembers(prev[..n], seen);
      var d := DeletedEntries(prev[..n], seen);
      forall i | 0 <= i < |d| ensures d[i].relativePath != prev[n].0.relativePath {
        assert d[i] in d;
        var k :| 0 <= k < n && d[i] == DeletedEntry(prev[..n][k]);
        assert prev[..n][k] == prev[k];
      }
    }
  }

  lemma UnsortedDistinct(scan: seq<ScannedFile>, prev: seq<Row>, newId: string -> string)
    requires UniqueScan(scan) && UniqueRows(prev)
    ensures DistinctPaths(ScanEntries(scan, ByPath(prev), newId) + DeletedEntries(prev, ScanPaths(scan)))
  {
    var a, b := ScanEntries(scan, ByPath(prev), newId), DeletedEntries(prev, ScanPaths(scan));
    DeletedDistinct(prev, ScanPaths(scan));
    DeletedMembers(prev, ScanPaths(scan));
    forall i, j | 0 <= i < |a| && 0 <= j < |b| ensures a[i].relativePath != b[j].relativePath {
      assert a[i].relativePath == scan[i].relativePath;
      assert b[j] in b;
    }
    forall i, j | 0 <= i < j < |a| ensures a[i].relativePath != a[j].relativePath {
      assert a[i].relativePath == scan[i].relativePath && a[j].relativePath == scan[j].relativePath;
    }
  }

  lemma {:induction false} InsertDistinct(c: FileChange, cs: seq<FileChange>)
    requires DistinctPaths(cs) && forall i :: 0 <= i < |cs| ==> cs[i].relativePath != c.relativePath
    ensures DistinctPaths(Insert(c, cs))
  {
    if cs != [] && !LexLess(c.relativePath, cs[0].relativePath) {
      InsertDistinct(c, cs[1..]);
      var rest := Insert(c, cs[1..]);
      forall j | 0 <= j < |rest| ensures rest[j].relativePath != cs[0].relativePath {
        assert rest[j] in multiset(rest);
        assert rest[j] == c || rest[j] in cs[1..];
      }
    }
  }

  lemma {:induction false} SortDistinct(cs: seq<FileChange>)
    requires DistinctPaths(cs)
    ensures DistinctPaths(SortByPath(cs))
  {
    if cs != [] {
      var n := |cs| - 1;
      SortDistinct(cs[..n]);
      SortMembers(cs[..n]);
      var s := SortByPath(cs[..n]);
      forall i | 0 <= i < |s| ensures s[i].relativePath != cs[n].relativePath {
        assert s[i] in s;
        EarlierPathDiffers(cs, n, s[i]);
      }
      InsertDistinct(cs[n], s);
    }
  }

  lemma EarlierPathDiffers(cs: seq<FileChange>, n: nat, c: FileChange)
    requires DistinctPaths(cs) && n < |cs| && c in cs[..n]
    ensures c.relativePath != cs[n].relativePath
  {
  }

  /** For path-unique inputs the change set is strictly sorted by path, so it lists every path once. */
  lemma ChangeSetSorted(scan: seq<ScannedFile>, prev: seq<Row>, newId: string -> string)
    requires UniqueScan(scan) && UniqueRows(prev)
    ensures StrictlySorted(Changes(scan, prev, newId))
    ensures |Changes(scan, prev, newId)| == |scan| + |DeletedEntries(prev, ScanPaths(scan))|
  {
    var u := ScanEntries(scan, ByPath(prev), newId) + DeletedEntries(prev, ScanPaths(scan));
    UnsortedDistinct(scan, prev, newId);
    SortDistinct(u);
    SortSorted(u);
    SortMembers(u);
    SortedDistinctIsStrict(SortByPath(u));
  }

  lemma SortedDistinctIsStrict(cs: seq<FileChange>)
    requires SortedByPath(cs) && DistinctPaths(cs)
    ensures StrictlySorted(cs)
  {
    forall i, j | 0 <= i < j < |cs| ensures LexLess(cs[i].relativePath, cs[j].relativePath) {
      LexTotal(cs[i].relativePath, cs[j].relativePath);
    }
  }

  /** The entry of a scanned file says what the earlier listing makes of it. */
  ghost predicate DescribesScan(c: FileChange, s: ScannedFile, prev: seq<Row>, newId: string -> string) {
    && c.scanned == Some(s) && c.relativePath == s.relativePath && c.kind != Deleted
    && (c.kind == New <==> forall k :: 0 <= k < |prev| ==> prev[k].0.relativePath != s.relativePath)
    && (c.kind == New ==> c.fileId == newId(s.relativePath) && c.previousFile.None? && c.previousVersion.None?)
    && (forall k :: 0 <= k < |prev| && prev[k].0.relativePath == s.relativePath ==>
          && c.kind == (if SameContent(s, prev[k].0) then Unchanged else Modified)
          && c.fileId == prev[k].0.fileId
          && c.previousFile == Some(prev[k].0) && c.previousVersion == Some(prev[k].1))
  }

  lemma ScanEntryDescribes(s: ScannedFile, prev: seq<Row>, newId: string -> string)
    requires UniqueRows(prev)
    ensures DescribesScan(ScanEntry(s, ByPath(prev), newId), s, prev, newId)
  {
    ByPathLookup(prev);
  }

  /**
   For path-unique inputs: New, Modified and Unchanged entries are exactly one per scanned file, each
   with the right kind, identifier and earlier rows; Deleted entries are exactly the earlier rows
   whose path was not scanned.
   */
  lemma ChangeSetPartition(scan: seq<ScannedFile>, prev: seq<Row>, newId: string -> string)
    requires UniqueScan(scan) && UniqueRows(prev)
    ensures var cs := Changes(scan, prev, newId);
            && (forall c :: c in cs && c.kind != Deleted ==>
                  exists i :: 0 <= i < |scan| && DescribesScan(c, scan[i], prev, newId))
            && (forall i :: 0 <= i < |scan| ==> exists c :: c in cs && DescribesScan(c, scan[i], prev, newId))
            && (forall c :: (c in cs && c.kind == Deleted) <==> FromDeleted(c, scan, prev))
  {
    var cs := Changes(scan, prev, newId);
    ChangeMembers(scan, prev, newId);
    forall c | c in cs && c.kind != Deleted
      ensures exists i :: 0 <= i < |scan| && DescribesScan(c, scan[i], prev, newId)
    {
      var i :| 0 <= i < |scan| && c == ScanEntry(scan[i], ByPath(prev), newId);
      ScanEntryDescribes(scan[i], prev, newId);
    }
    forall i | 0 <= i < |scan| ensures exists c :: c in cs && DescribesScan(c, scan[i], prev, newId) {
      var c := ScanEntry(scan[i], ByPath(prev), newId);
      ScanEntryDescribes(scan[i], prev, newId);
      assert FromScan(c, scan, prev, newId);
    }
    forall c | c in cs && c.kind == Deleted ensures FromDeleted(c, scan, prev) {
      assert !FromScan(c, scan, prev, newId);
    }
  }

  // ----- totals --------------------------------------------------------------------------------

  /** The sum of a weight over a change set. */
  function Sum(cs: seq<FileChange>, weight: FileChange -> nat): nat {
    if cs == [] then 0 else weight(cs[0]) + Sum(cs[1..], weight)
  }

  /** The scanned size of an entry of one of the kinds. */
  function BytesOf(kinds: set<ChangeKind>): FileChange -> nat {
    (c: FileChange) => if c.kind in kinds && c.scanned.Some? then c.scanned.value.sizeBytes else 0
  }

  /** One for an entry of one of the kinds. */
  function OneOf(kinds: set<ChangeKind>): FileChange -> nat {
    (c: FileChange) => if c.kind in kinds then 1 else 0
  }

  function TotalTransferBytes(cs: seq<FileChange>): nat { Sum(cs, BytesOf({New, Modified})) }

  function TotalReusedBytes(cs: seq<FileChange>): nat { Sum(cs, BytesOf({Unchanged})) }

  function Count(cs: seq<FileChange>, kind: ChangeKind): nat { Sum(cs, OneOf({kind})) }

  function ScanBytes(scan: seq<ScannedFile>): nat {
    if scan == [] then 0 else scan[0].sizeBytes + ScanBytes(scan[1..])
  }

  lemma {:induction false} SumConcat(a: seq<FileChange>, b: seq<FileChange>, weight: FileChange -> nat)
    ensures Sum(a + b, weight) == Sum(a, weight) + Sum(b, weight)
  {
    if a == [] {
      assert a + b == b;
    } else {
      SumConcat(a[1..], b, weight);
      assert (a + b)[1..] == a[1..] + b;
    }
  }

  lemma SumLast(cs: seq<FileChange>, weight: FileChange -> nat)
    requires cs != []
    ensures Sum(cs, weight) == Sum(cs[..|cs| - 1], weight) + weight(cs[|cs| - 1])
  {
    var n := |cs| - 1;
    SumConcat(cs[..n], [cs[n]], weight);
    assert cs == cs[..n] + [cs[n]] && [cs[n]][1..] == [];
  }

  lemma {:induction false} InsertSum(c: FileChange, cs: seq<FileChange>, weight: FileChange -> nat)
    ensures Sum(Insert(c, cs), weight) == weight(c) + Sum(cs, weight)
  {
    if cs != [] && !LexLess(c.relativePath, cs[0].relativePath) {
      InsertSum(c, cs[1..], weight);
      assert ([cs[0]] + Insert(c, cs[1..]))[1..] == Insert(c, cs[1..]);
    } else {
      assert ([c] + cs)[1..] == cs;
    }
  }

  /** Sorting changes no total. */
  lemma {:induction false} SortSum(cs: seq<FileChange>, weight: FileChange -> nat)
    ensures Sum(SortByPath(cs), weight) == Sum(cs, weight)
  {
    if cs != [] {
      var n := |cs| - 1;
      SortSum(cs[..n], weight);
      InsertSum(cs[n], SortByPath(cs[..n]), weight);
      SumLast(cs, weight);
    }
  }

  lemma {:induction false} ScanEntriesTotals(scan: seq<ScannedFile>, m: map<string, Row>, newId: string -> string)
    ensures var a := ScanEntries(scan, m, newId);
            && Sum(a, BytesOf({New, Modified})) + Sum(a, BytesOf({Unchanged})) == ScanBytes(scan)
            && Sum(a, OneOf({New})) + Sum(a, OneOf({Modified})) + Sum(a, OneOf({Unchanged})) == |scan|
            && Sum(a, OneOf({Deleted})) == 0
  {
    if scan != [] {
      ScanEntriesTotals(scan[1..], m, newId);
      assert ScanEntries(scan, m, newId)[1..] == ScanEntries(scan[1..], m, newId);
    }
  }

  /** An entry of a vanished file weighs what its kind weighs. */
  lemma {:induction false} DeletedTotals(prev: seq<Row>, seen: set<string>, weight: FileChange -> nat, each: nat)
    requires forall r: Row :: weight(DeletedEntry(r)) == each
    ensures Sum(DeletedEntries(prev, seen), weight) == each * |DeletedEntries(prev, seen)|
  {
    if prev != [] {
      var n := |prev| - 1;
      DeletedTotals(prev[..n], seen, weight, each);
      var last := if prev[n].0.relativePath in seen then [] else [DeletedEntry(prev[n])];
      SumConcat(DeletedEntries(prev[..n], seen), last, weight);
      if last != [] { assert last[1..] == []; }
    }
  }

  lemma ChangesSum(scan: seq<ScannedFile>, prev: seq<Row>, newId: string -> string, weight: FileChange -> nat, each: nat)
    requires forall r: Row :: weight(DeletedEntry(r)) == each
    ensures Sum(Changes(scan, prev, newId), weight) ==
            Sum(ScanEntries(scan, ByPath(prev), newId), weight) + each * |DeletedEntries(prev, ScanPaths(scan))|
  {
    var a, b := ScanEntries(scan, ByPath(prev), newId), DeletedEntries(prev, ScanPaths(scan));
    SortSum(a + b, weight);
    SumConcat(a, b, weight);
    DeletedTotals(prev, ScanPaths(scan), weight, each);
  }

  /** No byte of the scan is lost or counted twice: transferred plus reused is the whole, always. */
  lemma BytesConserved(scan: seq<ScannedFile>, prev: seq<Row>, newId: string -> string)
    ensures var cs := Changes(scan, prev, newId);
            TotalTransferBytes(cs) + TotalReusedBytes(cs) == ScanBytes(scan)
  {
    ChangesSum(scan, prev, newId, BytesOf({New, Modified}), 0);
    ChangesSum(scan, prev, newId, BytesOf({Unchanged}), 0);
    ScanEntriesTotals(scan, ByPath(prev), newId);
  }

  /** Every scanned file is counted once, and every vanished row once. */
  lemma EntriesConserved(scan: seq<ScannedFile>, prev: seq<Row>, newId: string -> string)
    ensures var cs := Changes(scan, prev, newId);
            && Count(cs, New) + Count(cs, Modified) + Count(cs, Unchanged) == |scan|
            && Count(cs, Deleted) == |DeletedEntries(prev, ScanPaths(scan))|
  {
    ChangesSum(scan, prev, newId, OneOf({New}), 0);
    ChangesSum(scan, prev, newId, OneOf({Modified}), 0);
    ChangesSum(scan, prev, newId, OneOf({Unchanged}), 0);
    ChangesSum(scan, prev, newId, OneOf({Deleted}), 1);
    ScanEntriesTotals(scan, ByPath(prev), newId);
  }
}
