/**
 Integrity metadata of generated artifacts: src/lib/artifactIntegrity.ts. A file map is
 validated, hashed and versioned per file, digested as a whole, and re-verified on read.
 */
module ArtifactIntegrity {
  import opened Wrappers
  import opened JsObject
  import opened JsText
  import opened Hashing
  import opened ArtifactPaths
  import opened Utf8

  type FileMap = map<string, string>

  const MAX_ARTIFACT_FILES := 1000
  const MAX_ARTIFACT_TOTAL_BYTES := 10 * 1024 * 1024
  const MAX_ARTIFACT_FILE_BYTES := 1024 * 1024

  // ----- order -----

  /** The order of `<` and of `Array.prototype.sort` on strings. */
  predicate Less(a: string, b: string) {
    if b == "" then false
    else if a == "" then true
    else if a[0] != b[0] then a[0] < b[0]
    else Less(a[1..], b[1..])
  }

  lemma {:induction false} LessTotal(a: string, b: string)
    ensures a == b || Less(a, b) || Less(b, a)
    ensures !(Less(a, b) && Less(b, a))
    ensures !Less(a, a)
  {
    if a != "" && b != "" && a[0] == b[0] {
      LessTotal(a[1..], b[1..]);
      assert a == [a[0]] + a[1..] && b == [b[0]] + b[1..];
    }
    if a != "" {
      LessTotal(a[1..], a[1..]);
    }
  }

  lemma {:induction false} LessTransitive(a: string, b: string, c: string)
    requires Less(a, b) && Less(b, c)
    ensures Less(a, c)
  {
    if a != "" && a[0] == b[0] == c[0] {
      LessTransitive(a[1..], b[1..], c[1..]);
    }
  }

  // ----- validation -----

  datatype ArtifactError =
    | NoFiles
    | TooManyFiles
    | BadPath(raw: string, why: PathError)
    | DuplicatePath(path: string)
    | FileTooLarge(path: string)
    | ArtifactTooLarge
    | BadFiles
    | BadProjectId
    | BadArtifactVersion
    | MissingMetadata
    | WrongIdentity
    | WrongState
    | VerificationFailed
    | BadFileVersion

  /** Sizes of all files together. */
  ghost function TotalBytes(m: FileMap): nat {
    if m == map[] then 0
    else
      var p :| p in m;
      ByteLength(m[p]) + TotalBytes(m - {p})
  }

  lemma {:induction false} TotalWithout(m: FileMap, p: string)
    requires p in m
    ensures TotalBytes(m) == ByteLength(m[p]) + TotalBytes(m - {p})
    decreases m
  {
    var q :| q in m && TotalBytes(m) == ByteLength(m[q]) + TotalBytes(m - {q});
    if q != p {
      TotalWithout(m - {q}, p);
      TotalWithout(m - {p}, q);
      assert m - {q} - {p} == m - {p} - {q};
    }
  }

  /** What every accepted file map satisfies besides its number of files. */
  ghost predicate Wellformed(m: FileMap) {
    && (forall p :: p in m ==>
          SafePath(p).Ok? && !Inherited(SafePath(p).value) && ByteLength(m[p]) <= MAX_ARTIFACT_FILE_BYTES)
    && (forall p, q :: p in m && q in m && p != q ==> SafePath(p) != SafePath(q))
    && TotalBytes(m) <= MAX_ARTIFACT_TOTAL_BYTES
  }

  ghost predicate Acceptable(m: FileMap) {
    0 < |m| <= MAX_ARTIFACT_FILES && Wellformed(m)
  }

  /** The same contents under normalized paths. */
  ghost function Normalized(m: FileMap): (r: FileMap)
    requires Wellformed(m)
    ensures forall p {:trigger SafePath(p)} :: p in m ==> SafePath(p).value in r && r[SafePath(p).value] == m[p]
  {
    map p | p in m :: SafePath(p).value := m[p]
  }

  /** Every normalized path comes from a path of the map. */
  lemma RawOf(m: FileMap, n: string) returns (raw: string)
    requires Wellformed(m) && n in Normalized(m)
    ensures raw in m && SafePath(raw) == Ok(n)
  {
    hide SafePath, Inherited, TotalBytes, ByteLength;
    raw :| raw in m && SafePath(raw).value == n;
  }

  /** A JavaScript object as the list of its entries, in order. */
  function MapOf(entries: seq<(string, string)>): FileMap {
    if entries == [] then map[]
    else MapOf(entries[..|entries| - 1])[entries[|entries| - 1].0 := entries[|entries| - 1].1]
  }

  predicate DistinctPaths(entries: seq<(string, string)>) {
    forall i, j :: 0 <= i < j < |entries| ==> entries[i].0 != entries[j].0
  }

  lemma {:induction false} MapOfEntries(entries: seq<(string, string)>)
    requires DistinctPaths(entries)
    ensures forall i :: 0 <= i < |entries| ==>
              entries[i].0 in MapOf(entries) && MapOf(entries)[entries[i].0] == entries[i].1
    ensures forall p :: p in MapOf(entries) ==> exists i :: 0 <= i < |entries| && entries[i].0 == p
    ensures |MapOf(entries)| == |entries|
  {
    if entries != [] {
      var front, last := entries[..|entries| - 1], entries[|entries| - 1];
      MapOfEntries(front);
      forall i | 0 <= i < |front|
        ensures entries[i].0 in MapOf(entries) && MapOf(entries)[entries[i].0] == entries[i].1
      {
        assert front[i] == entries[i];
      }
      assert last.0 !in MapOf(front);
    }
  }

  lemma MapOfStep(entries: seq<(string, string)>, i: nat)
    requires DistinctPaths(entries) && i < |entries|
    ensures MapOf(entries[..i + 1]) == MapOf(entries[..i])[entries[i].0 := entries[i].1]
    ensures entries[i].0 !in MapOf(entries[..i])
    ensures TotalBytes(MapOf(entries[..i + 1])) == TotalBytes(MapOf(entries[..i])) + ByteLength(entries[i].1)
  {
    hide ByteLength, TotalBytes;
    var shorter, longer := entries[..i], entries[..i + 1];
    assert longer[..i] == shorter && longer[i] == entries[i];
    assert DistinctPaths(shorter);
    MapOfEntries(shorter);
    TotalWithout(MapOf(longer), entries[i].0);
    assert MapOf(longer) - {entries[i].0} == MapOf(shorter);
  }

  /** A fault in the first entries is a fault of the whole. */
  lemma {:induction false} PrefixWellformed(entries: seq<(string, string)>, i: nat)
    requires DistinctPaths(entries) && i <= |entries|
    requires Wellformed(MapOf(entries))
    ensures Wellformed(MapOf(entries[..i]))
    decreases |entries| - i
  {
    if i == |entries| {
      assert entries[..i] == entries;
    } else {
      PrefixWellformed(entries, i + 1);
      MapOfStep(entries, i);
      DropWellformed(MapOf(entries[..i]), entries[i].0, entries[i].1);
    }
  }

  lemma DropWellformed(m: FileMap, p: string, content: string)
    requires p !in m && Wellformed(m[p := content])
    ensures Wellformed(m)
  {
    hide SafePath, Inherited, TotalBytes, ByteLength;
    var m' := m[p := content];
    TotalWithout(m', p);
    assert m' - {p} == m;
    assert forall q :: q in m ==> q in m' && m'[q] == m[q];
  }

  /** In a wellformed map no entry trips any of the checks of the loop. */
  lemma NoFault(entries: seq<(string, string)>, i: nat)
    requires DistinctPaths(entries) && i < |entries| && Wellformed(MapOf(entries))
    ensures Wellformed(MapOf(entries[..i]))
    ensures var safe := SafePath(entries[i].0);
            safe.Ok? && !InObject(safe.value, Normalized(MapOf(entries[..i])))
    ensures ByteLength(entries[i].1) <= MAX_ARTIFACT_FILE_BYTES
    ensures TotalBytes(MapOf(entries[..i])) + ByteLength(entries[i].1) <= MAX_ARTIFACT_TOTAL_BYTES
  {
    hide SafePath, Inherited, MapOf, TotalBytes;
    PrefixWellformed(entries, i);
    PrefixWellformed(entries, i + 1);
    MapOfStep(entries, i);
    var before, after := MapOf(entries[..i]), MapOf(entries[..i + 1]);
    assert entries[i].0 in after;
    forall q | q in before ensures SafePath(q) != SafePath(entries[i].0) {
      assert q in after;
    }
  }

  lemma NotYetTaken(m: FileMap, p: string)
    requires Wellformed(m) && SafePath(p).Ok? && SafePath(p).value !in Normalized(m)
    ensures forall q :: q in m ==> SafePath(q) != SafePath(p)
  {
    hide SafePath, Inherited, TotalBytes;
    forall q | q in m ensures SafePath(q) != SafePath(p) {
      assert SafePath(q).value in Normalized(m);
    }
  }

  lemma AddWellformed(m: FileMap, p: string, content: string)
    requires Wellformed(m) && p !in m && SafePath(p).Ok? && !Inherited(SafePath(p).value)
    requires forall q :: q in m ==> SafePath(q) != SafePath(p)
    requires ByteLength(content) <= MAX_ARTIFACT_FILE_BYTES
    requires TotalBytes(m) + ByteLength(content) <= MAX_ARTIFACT_TOTAL_BYTES
    ensures Wellformed(m[p := content])
  {
    hide SafePath, Inherited, TotalBytes, ByteLength;
    var m' := m[p := content];
    TotalWithout(m', p);
    assert m' - {p} == m;
  }

  lemma NormalizedStep(m: FileMap, p: string, content: string)
    requires Wellformed(m) && p !in m && SafePath(p).Ok?
    requires !InObject(SafePath(p).value, Normalized(m))
    requires ByteLength(content) <= MAX_ARTIFACT_FILE_BYTES
    requires TotalBytes(m) + ByteLength(content) <= MAX_ARTIFACT_TOTAL_BYTES
    ensures Wellformed(m[p := content])
    ensures Normalized(m[p := content]) == Normalized(m)[SafePath(p).value := content]
  {
    hide SafePath, Inherited, TotalBytes, ByteLength, Wellformed, Normalized;
    NotYetTaken(m, p);
    AddWellformed(m, p, content);
    NormalizedKeys(m, p, content);
  }

  lemma PathOk(m: FileMap, p: string)
    requires Wellformed(m) && p in m
    ensures SafePath(p).Ok?
  {
    hide SafePath, Inherited, TotalBytes, ByteLength;
  }

  lemma NormalizedKeys(m: FileMap, p: string, content: string)
    requires Wellformed(m) && p !in m && Wellformed(m[p := content])
    ensures Normalized(m[p := content]) == Normalized(m)[SafePath(p).value := content]
  {
    hide SafePath, Inherited, TotalBytes, ByteLength, Wellformed, Normalized;
    var m' := m[p := content];
    PathOk(m', p);
    var left, right := Normalized(m'), Normalized(m)[SafePath(p).value := content];
    forall n ensures n in left <==> n in right {
      if n in left {
        var q := RawOf(m', n);
        assert q != p ==> q in m && SafePath(q).value in Normalized(m);
      }
      if n in right && n != SafePath(p).value {
        var q := RawOf(m, n);
        assert q in m';
      }
      assert SafePath(p).value in left;
    }
    forall n | n in left ensures left[n] == right[n] {
      var q := RawOf(m', n);
      if q != p {
        DistinctNames(m', p, q);
      }
    }
  }

  lemma DistinctNames(m: FileMap, p: string, q: string)
    requires Wellformed(m) && p in m && q in m && p != q
    ensures SafePath(p).Ok? && SafePath(q).Ok? && SafePath(p).value != SafePath(q).value
  {
    hide SafePath, Inherited, TotalBytes, ByteLength;
  }

  lemma EmptyMap()
    ensures MapOf([]) == map[] && TotalBytes(map[]) == 0
    ensures Wellformed(map[]) && Normalized(map[]) == map[]
  {
  }

  lemma AcceptableMeans(m: FileMap)
    ensures Acceptable(m) <==> 0 < |m| <= MAX_ARTIFACT_FILES && Wellformed(m)
  {
  }

  /** The contents of the entries one after the other. */
  function AllText(entries: seq<(string, string)>): string {
    if entries == [] then "" else AllText(entries[..|entries| - 1]) + entries[|entries| - 1].1
  }

  lemma {:induction false} TotalOfEntries(entries: seq<(string, string)>)
    requires DistinctPaths(entries)
    ensures TotalBytes(MapOf(entries)) == |Encode(AllText(entries))|
  {
    hide MapOf, TotalBytes, Encode, ByteLength;
    if entries == [] {
      EmptyMap();
      EncodeNothing();
    } else {
      var n := |entries| - 1;
      TotalOfEntries(entries[..n]);
      MapOfStep(entries, n);
      assert entries[..n + 1] == entries;
      EncodeConcat(AllText(entries[..n]), entries[n].1);
      ByteLengthIs(entries[n].1);
    }
  }

  /** The limits on the entries, their paths and their sizes in UTF-8. */
  predicate WithinLimits(entries: seq<(string, string)>) {
    && 0 < |entries| <= 1000
    && (forall i :: 0 <= i < |entries| ==>
          SafePath(entries[i].0).Ok? && !Inherited(SafePath(entries[i].0).value)
          && |Encode(entries[i].1)| <= 1024 * 1024)
    && (forall i, j :: 0 <= i < j < |entries| ==> SafePath(entries[i].0) != SafePath(entries[j].0))
    && |Encode(AllText(entries))| <= 10 * 1024 * 1024
  }

  lemma AcceptedExactly(entries: seq<(string, string)>)
    requires DistinctPaths(entries)
    ensures Acceptable(MapOf(entries)) <==> WithinLimits(entries)
  {
    hide MapOf, TotalBytes, Encode, ByteLength, SafePath, Inherited, AllText;
    var m := MapOf(entries);
    MapOfEntries(entries);
    TotalOfEntries(entries);
    forall i | 0 <= i < |entries| ensures ByteLength(m[entries[i].0]) == |Encode(entries[i].1)| {
      ByteLengthIs(entries[i].1);
    }
    if Acceptable(m) {
      forall i, j | 0 <= i < j < |entries| ensures SafePath(entries[i].0) != SafePath(entries[j].0) {
        assert entries[i].0 in m && entries[j].0 in m;
      }
    }
    if WithinLimits(entries) {
      forall p, q | p in m && q in m && p != q ensures SafePath(p) != SafePath(q) {
        var i :| 0 <= i < |entries| && entries[i].0 == p;
        var j :| 0 <= j < |entries| && entries[j].0 == q;
        assert i < j || j < i;
      }
      forall p | p in m
        ensures SafePath(p).Ok? && !Inherited(SafePath(p).value) && ByteLength(m[p]) <= MAX_ARTIFACT_FILE_BYTES
      {
        var i :| 0 <= i < |entries| && entries[i].0 == p;
      }
    }
  }

  /** The files of the entries under their safe paths, and no others. */
  predicate HoldsEntries(files: FileMap, entries: seq<(string, string)>) {
    && |files| == |entries|
    && forall i :: 0 <= i < |entries| ==>
         SafePath(entries[i].0).Ok? && SafePath(entries[i].0).value in files
         && files[SafePath(entries[i].0).value] == entries[i].1
  }

  lemma NormalizedHolds(entries: seq<(string, string)>)
    requires DistinctPaths(entries) && Wellformed(MapOf(entries))
    ensures HoldsEntries(Normalized(MapOf(entries)), entries)
  {
    hide MapOf, TotalBytes, ByteLength, SafePath, Inherited, Wellformed, Normalized;
    var m := MapOf(entries);
    MapOfEntries(entries);
    SizesKept(m);
    forall i | 0 <= i < |entries|
      ensures SafePath(entries[i].0).Ok? && SafePath(entries[i].0).value in Normalized(m)
      ensures Normalized(m)[SafePath(entries[i].0).value] == entries[i].1
    {
      PathOk(m, entries[i].0);
    }
  }

  method ValidateArtifactFiles(entries: seq<(string, string)>) returns (r: Result<FileMap, ArtifactError>)
    requires DistinctPaths(entries)
    ensures r.Ok? <==> WithinLimits(entries)
    ensures r.Ok? ==> HoldsEntries(r.value, entries)
    ensures r.Ok? <==> Acceptable(MapOf(entries))
    ensures r.Ok? ==> r.value == Normalized(MapOf(entries))
  {
    hide *;
    AcceptedExactly(entries);
    if Acceptable(MapOf(entries)) {
      AcceptableMeans(MapOf(entries));
      NormalizedHolds(entries);
    }
    MapOfEntries(entries);
    AcceptableMeans(MapOf(entries));
    assert entries[..|entries|] == entries;
    if |entries| == 0 {
      return Err(NoFiles);
    }
    if |entries| > MAX_ARTIFACT_FILES {
      return Err(TooManyFiles);
    }
    var out: FileMap := map[];
    var totalBytes := 0;
    EmptyMap();
    assert entries[..0] == [];
    for i := 0 to |entries|
      invariant Wellformed(MapOf(entries[..i]))
      invariant totalBytes == TotalBytes(MapOf(entries[..i]))
      invariant out == Normalized(MapOf(entries[..i]))
    {
      var rawPath, content := entries[i].0, entries[i].1;
      if Wellformed(MapOf(entries)) {
        NoFault(entries, i);
      }
      MapOfStep(entries, i);
      var safe := SafePath(rawPath);
      if safe.Err? {
        return Err(BadPath(rawPath, safe.error));
      }
      var path := safe.value;
      if InObject(path, out) {
        return Err(DuplicatePath(path));
      }
      var bytes := ByteLength(content);
      if bytes > MAX_ARTIFACT_FILE_BYTES {
        return Err(FileTooLarge(path));
      }
      totalBytes := totalBytes + bytes;
      if totalBytes > MAX_ARTIFACT_TOTAL_BYTES {
        return Err(ArtifactTooLarge);
      }
      NormalizedStep(MapOf(entries[..i]), rawPath, content);
      out := out[path := content];
    }
    return Ok(out);
  }

  // ----- sorted keys -----

  ghost predicate StrictlySorted(keys: seq<string>) {
    forall i, j :: 0 <= i < j < |keys| ==> Less(keys[i], keys[j])
  }

  lemma {:induction false} LeastExists(s: set<string>) returns (k: string)
    requires s != {}
    ensures k in s && forall p :: p in s && p != k ==> Less(k, p)
  {
    k :| k in s;
    if s != {k} {
      var k' := LeastExists(s - {k});
      LessTotal(k, k');
      if Less(k', k) {
        k := k';
      } else {
        forall p | p in s && p != k && p != k' ensures Less(k, p) {
          LessTransitive(k, k', p);
        }
      }
    }
  }

  predicate LeastIn(s: set<string>, k: string) {
    k in s && forall p :: p in s && p != k ==> Less(k, p)
  }

  ghost function LeastOf(s: set<string>): (k: string)
    requires s != {}
    ensures LeastIn(s, k)
  {
    assert exists k :: LeastIn(s, k) by {
      var k := LeastExists(s);
      assert LeastIn(s, k);
    }
    var k :| LeastIn(s, k);
    k
  }

  lemma LeastUnique(s: set<string>, k: string)
    requires LeastIn(s, k)
    ensures s != {} && k == LeastOf(s)
  {
    LessTotal(k, LeastOf(s));
  }

  /** `Object.keys(files).sort()`. */
  ghost function SortedKeys(s: set<string>): (r: seq<string>)
    ensures |r| == |s| && StrictlySorted(r)
    ensures forall p :: p in r <==> p in s
  {
    if s == {} then [] else [LeastOf(s)] + SortedKeys(s - {LeastOf(s)})
  }

  lemma SortKeysStep(s: set<string>, keys: seq<string>, rest: set<string>, k: string)
    requires SortedKeys(s) == keys + SortedKeys(rest) && LeastIn(rest, k)
    ensures SortedKeys(s) == (keys + [k]) + SortedKeys(rest - {k})
  {
    hide *;
    LeastUnique(rest, k);
    SortedKeysStart(rest, k);
    assert keys + ([k] + SortedKeys(rest - {k})) == (keys + [k]) + SortedKeys(rest - {k});
  }

  lemma SortedKeysStart(s: set<string>, k: string)
    requires s != {} && k == LeastOf(s)
    ensures SortedKeys(s) == [k] + SortedKeys(s - {k})
  {
    hide LeastIn, Less;
  }

  lemma SortKeysEnds(s: set<string>, keys: seq<string>)
    ensures [] + SortedKeys(s) == SortedKeys(s) && keys + SortedKeys({}) == keys
  {
  }

  method SortKeys(s: set<string>) returns (keys: seq<string>)
    ensures keys == SortedKeys(s)
  {
    hide *;
    keys := [];
    var rest := s;
    SortKeysEnds(s, []);
    while rest != {}
      invariant SortedKeys(s) == keys + SortedKeys(rest)
      decreases rest
    {
      LeastThere(rest);
      var k :| k in rest && LeastIn(rest, k);
      SortKeysStep(s, keys, rest, k);
      keys, rest := keys + [k], rest - {k};
    }
    SortKeysEnds(s, keys);
  }

  lemma LeastThere(s: set<string>)
    requires s != {}
    ensures exists k :: k in s && LeastIn(s, k)
  {
    assert LeastOf(s) in s && LeastIn(s, LeastOf(s));
  }

  lemma {:induction false} StrictlySortedAgree(xs: seq<string>, ys: seq<string>)
    requires StrictlySorted(xs) && StrictlySorted(ys)
    requires forall x :: x in xs <==> x in ys
    ensures xs == ys
  {
    hide Less;
    assert xs != [] ==> xs[0] in ys;
    assert ys != [] ==> ys[0] in xs;
    if xs != [] && ys != [] {
      LessTotal(xs[0], ys[0]);
      assert xs[0] == ys[0];
      forall x ensures x in xs[1..] <==> x in ys[1..] {
        TailOf(xs, x);
        TailOf(ys, x);
      }
      StrictlySortedAgree(xs[1..], ys[1..]);
      assert xs == [xs[0]] + xs[1..] && ys == [ys[0]] + ys[1..];
    }
  }

  lemma TailOf(xs: seq<string>, x: string)
    requires StrictlySorted(xs) && xs != []
    ensures x in xs[1..] <==> x in xs && x != xs[0]
  {
    hide Less;
    LessTotal(xs[0], xs[0]);
    assert xs == [xs[0]] + xs[1..];
    if x in xs[1..] {
      var k :| 0 <= k < |xs[1..]| && xs[1..][k] == x;
      assert xs[k + 1] == x;
    }
  }

  // ----- integrity records -----

  datatype ArtifactState = Working | Final

  /** `fileVersion` is absent in rows written by older versions of the program. */
  datatype FileRow = FileRow(path: string, sha256: string, bytes: int, fileVersion: Option<int>)

  datatype Integrity = Integrity(
    version: int, projectId: int, artifactVersion: int, state: ArtifactState,
    fileCount: int, totalBytes: int, sha256: string, files: seq<FileRow>)

  const NUL := "\0"

  function FileSha(h: Hash, path: string, content: string): string {
    h(path + (NUL + content))
  }

  function Decimal(n: nat): (s: string)
    ensures s != ""
  {
    var digit := ["0123456789"[n % 10]];
    if n < 10 then digit else Decimal(n / 10) + digit
  }

  /** An integer in a template string. */
  function NumberText(n: int): string {
    if n < 0 then "-" + Decimal(-n) else Decimal(n)
  }

  function VersionText(row: FileRow): string {
    if row.fileVersion.Some? then NumberText(row.fileVersion.value) else "undefined"
  }

  /** One row of the digested text; every field ends in NUL. */
  function RowText(row: FileRow, versioned: bool): string {
    row.path + (NUL + (row.sha256 + (NUL + (NumberText(row.bytes) + (NUL +
    (if versioned then VersionText(row) + NUL else ""))))))
  }

  function RowsText(rows: seq<FileRow>, versioned: bool): string {
    if rows == [] then "" else RowText(rows[0], versioned) + RowsText(rows[1..], versioned)
  }

  function SumBytes(rows: seq<FileRow>): int {
    if rows == [] then 0 else rows[0].bytes + SumBytes(rows[1..])
  }

  function InsertRow(row: FileRow, rows: seq<FileRow>): (r: seq<FileRow>)
    ensures multiset(r) == multiset(rows) + multiset{row}
  {
    if rows == [] || !Less(rows[0].path, row.path) then [row] + rows
    else
      assert rows == [rows[0]] + rows[1..];
      [rows[0]] + InsertRow(row, rows[1..])
  }

  /** A stable sort by path. */
  function SortRows(rows: seq<FileRow>): (r: seq<FileRow>)
    ensures multiset(r) == multiset(rows) && |r| == |rows|
  {
    if rows == [] then []
    else
      assert rows == [rows[0]] + rows[1..];
      assert |multiset(InsertRow(rows[0], SortRows(rows[1..])))| == |rows|;
      InsertRow(rows[0], SortRows(rows[1..]))
  }

  // ----- building -----

  /** The entry a `Map` built from the rows holds for a path: the last row wins. */
  function LastRow(rows: seq<FileRow>, path: string): (r: Option<FileRow>)
    ensures r.Some? ==> r.value in rows && r.value.path == path
    ensures r.None? ==> forall i :: 0 <= i < |rows| ==> rows[i].path != path
  {
    if rows == [] then None
    else if rows[|rows| - 1].path == path then Some(rows[|rows| - 1])
    else LastRow(rows[..|rows| - 1], path)
  }

  function Max(a: int, b: int): int {
    if a >= b then a else b
  }

  function PreviousRow(previous: Option<Integrity>, path: string): Option<FileRow> {
    if previous.None? then None else LastRow(previous.value.files, path)
  }

  function PreviousVersion(previous: Option<Integrity>, path: string): int {
    var row := PreviousRow(previous, path);
    if row.None? then 0
    else if row.value.fileVersion.Some? then row.value.fileVersion.value
    else previous.value.artifactVersion
  }

  function NextVersion(previous: Option<Integrity>, path: string, sha: string): int {
    var row := PreviousRow(previous, path);
    if row.Some? && row.value.sha256 == sha then Max(1, PreviousVersion(previous, path))
    else Max(1, PreviousVersion(previous, path) + 1)
  }

  function BuildRow(h: Hash, path: string, content: string, previous: Option<Integrity>): FileRow {
    var sha := FileSha(h, path, content);
    FileRow(path, sha, ByteLength(content), Some(NextVersion(previous, path, sha)))
  }

  function BuildRows(h: Hash, keys: seq<string>, files: FileMap, previous: Option<Integrity>): (rows: seq<FileRow>)
    requires forall k :: k in keys ==> k in files
    ensures |rows| == |keys|
    ensures forall i :: 0 <= i < |rows| ==> rows[i] == BuildRow(h, keys[i], files[keys[i]], previous)
  {
    if keys == [] then []
    else BuildRows(h, keys[..|keys| - 1], files, previous)
         + [BuildRow(h, keys[|keys| - 1], files[keys[|keys| - 1]], previous)]
  }

  /** `buildArtifactIntegrity`; the creation time is not part of this model. */
  ghost function BuildArtifactIntegrity(
    h: Hash, projectId: int, artifactVersion: int, state: ArtifactState, files: FileMap,
    previous: Option<Integrity>): Result<Integrity, ArtifactError>
  {
    if projectId <= 0 then Err(BadProjectId)
    else if artifactVersion <= 0 then Err(BadArtifactVersion)
    else if !Acceptable(files) then Err(BadFiles)
    else
      var normalized := Normalized(files);
      var rows := BuildRows(h, SortedKeys(normalized.Keys), normalized, previous);
      Ok(Integrity(1, projectId, artifactVersion, state, |rows|, SumBytes(rows), h(RowsText(rows, true)), rows))
  }

  // ----- verifying -----

  /** A row that records this content under this path. */
  predicate RowMatches(h: Hash, row: FileRow, path: string, content: string) {
    row.path == path && row.sha256 == FileSha(h, path, content) && row.bytes == ByteLength(content)
  }

  predicate VersionValid(row: FileRow) {
    row.fileVersion.Some? ==> row.fileVersion.value > 0
  }

  /** The rows record exactly these files, one row a file, in any order. */
  ghost predicate Describes(h: Hash, rows: seq<FileRow>, files: FileMap) {
    && |rows| == |files|
    && (forall i, j :: 0 <= i < j < |rows| ==> rows[i].path != rows[j].path)
    && (forall i :: 0 <= i < |rows| ==>
          rows[i].path in files && RowMatches(h, rows[i], rows[i].path, files[rows[i].path]) && VersionValid(rows[i]))
  }

  predicate FullyVersioned(rows: seq<FileRow>) {
    forall i :: 0 <= i < |rows| ==> rows[i].fileVersion.Some?
  }

  /** What it takes for an artifact to pass `assertArtifactIntegrity`. */
  ghost predicate Verifies(
    h: Hash, files: FileMap, integrity: Integrity, projectId: int, artifactVersion: int,
    requiredState: Option<ArtifactState>)
  {
    && integrity.version == 1 && integrity.projectId == projectId && integrity.artifactVersion == artifactVersion
    && (requiredState.Some? ==> integrity.state == requiredState.value)
    && Acceptable(files)
    && integrity.fileCount == |integrity.files|
    && Describes(h, integrity.files, Normalized(files))
    && integrity.totalBytes == SumBytes(integrity.files)
    && integrity.sha256 == h(RowsText(SortRows(integrity.files), FullyVersioned(integrity.files)))
  }

  ghost predicate PointwiseMatch(h: Hash, rows: seq<FileRow>, keys: seq<string>, files: FileMap, n: nat)
    requires forall k :: k in keys ==> k in files
  {
    n <= |rows| && n <= |keys| &&
    forall i :: 0 <= i < n ==> RowMatches(h, rows[i], keys[i], files[keys[i]]) && VersionValid(rows[i])
  }

  ghost predicate SortedByPath(rows: seq<FileRow>) {
    forall i, j :: 0 <= i < j < |rows| ==> Less(rows[i].path, rows[j].path)
  }

  ghost predicate DistinctRowPaths(rows: seq<FileRow>) {
    forall i, j :: 0 <= i < j < |rows| ==> rows[i].path != rows[j].path
  }

  lemma {:induction false} InsertRowSorted(row: FileRow, rows: seq<FileRow>)
    requires SortedByPath(rows) && forall i :: 0 <= i < |rows| ==> rows[i].path != row.path
    ensures SortedByPath(InsertRow(row, rows))
  {
    hide Less;
    if rows != [] {
      LessTotal(rows[0].path, row.path);
      if Less(rows[0].path, row.path) {
        var rest := InsertRow(row, rows[1..]);
        InsertRowSorted(row, rows[1..]);
        forall j | 0 <= j < |rest| ensures Less(rows[0].path, rest[j].path) {
          assert rest[j] in multiset(rest);
          assert rest[j] in multiset(rows[1..]) || rest[j] == row;
        }
      } else {
        forall j | 0 <= j < |rows| ensures Less(row.path, rows[j].path) {
          if j > 0 {
            LessTransitive(row.path, rows[0].path, rows[j].path);
          }
        }
      }
    }
  }

  lemma {:induction false} SortRowsSorted(rows: seq<FileRow>)
    requires DistinctRowPaths(rows)
    ensures SortedByPath(SortRows(rows))
  {
    if rows != [] {
      var rest := SortRows(rows[1..]);
      SortRowsSorted(rows[1..]);
      forall i | 0 <= i < |rest| ensures rest[i].path != rows[0].path {
        assert rest[i] in multiset(rows[1..]);
        var j :| 0 <= j < |rows[1..]| && rows[1..][j] == rest[i];
        assert rows[j + 1] == rest[i];
      }
      InsertRowSorted(rows[0], rest);
    }
  }

  lemma SortRowsElements(rows: seq<FileRow>, row: FileRow)
    ensures row in SortRows(rows) <==> row in rows
  {
    assert row in SortRows(rows) <==> row in multiset(SortRows(rows));
    assert row in rows <==> row in multiset(rows);
  }

  function PathsOf(rows: seq<FileRow>): (paths: seq<string>)
    ensures |paths| == |rows|
    ensures forall i :: 0 <= i < |rows| ==> paths[i] == rows[i].path
  {
    if rows == [] then [] else PathsOf(rows[..|rows| - 1]) + [rows[|rows| - 1].path]
  }

  /** Rows that describe the files have the files' paths and no others. */
  lemma DescribedPaths(h: Hash, rows: seq<FileRow>, files: FileMap)
    requires Describes(h, rows, files)
    ensures forall p :: p in files <==> p in PathsOf(rows)
  {
    hide RowMatches, VersionValid;
    var paths := PathsOf(rows);
    var covered := set p | p in paths;
    DistinctSetSize(paths);
    forall p | p in covered ensures p in files.Keys {
      var i :| 0 <= i < |paths| && paths[i] == p;
      assert rows[i].path in files;
    }
    SubsetSameSize(covered, files.Keys);
    assert |files.Keys| == |files|;
  }

  lemma {:induction false} DistinctSetSize(xs: seq<string>)
    requires forall i, j :: 0 <= i < j < |xs| ==> xs[i] != xs[j]
    ensures |set x | x in xs| == |xs|
  {
    if xs != [] {
      var front, last := xs[..|xs| - 1], xs[|xs| - 1];
      DistinctSetSize(front);
      assert (set x | x in xs) == (set x | x in front) + {last};
      assert last !in front;
    }
  }

  lemma SubsetSameSize(a: set<string>, b: set<string>)
    requires a <= b && |a| == |b|
    ensures a == b
  {
    assert (b - a) + a == b;
    assert |b - a| == 0;
  }

  lemma InSorted(rows: seq<FileRow>, i: nat) returns (j: nat)
    requires i < |rows|
    ensures j < |rows| && SortRows(rows)[j] == rows[i]
  {
    SortRowsElements(rows, rows[i]);
    assert rows[i] in rows;
    j :| 0 <= j < |rows| && SortRows(rows)[j] == rows[i];
  }

  lemma InRows(rows: seq<FileRow>, j: nat) returns (i: nat)
    requires j < |rows|
    ensures i < |rows| && SortRows(rows)[j] == rows[i]
  {
    SortRowsElements(rows, SortRows(rows)[j]);
    assert SortRows(rows)[j] in SortRows(rows);
    i :| 0 <= i < |rows| && SortRows(rows)[j] == rows[i];
  }

  lemma SamePaths(rows: seq<FileRow>, p: string)
    ensures p in PathsOf(SortRows(rows)) <==> p in PathsOf(rows)
  {
    hide SortRows;
    var sorted := SortRows(rows);
    if p in PathsOf(sorted) {
      var j :| 0 <= j < |sorted| && PathsOf(sorted)[j] == p;
      var i := InRows(rows, j);
      assert PathsOf(rows)[i] == p;
    }
    if p in PathsOf(rows) {
      var i :| 0 <= i < |rows| && PathsOf(rows)[i] == p;
      var j := InSorted(rows, i);
      assert PathsOf(sorted)[j] == p;
    }
  }

  lemma SortedPathsAreKeys(h: Hash, rows: seq<FileRow>, files: FileMap)
    requires Describes(h, rows, files)
    ensures PathsOf(SortRows(rows)) == SortedKeys(files.Keys)
  {
    hide RowMatches, VersionValid, Less, SortRows, SortedKeys, PathsOf;
    var paths, keys := PathsOf(SortRows(rows)), SortedKeys(files.Keys);
    DescribedPaths(h, rows, files);
    SortRowsSorted(rows);
    forall p ensures p in paths <==> p in keys {
      SamePaths(rows, p);
    }
    assert StrictlySorted(paths);
    StrictlySortedAgree(paths, keys);
  }

  lemma DescribedMatchPointwise(h: Hash, rows: seq<FileRow>, files: FileMap)
    requires Describes(h, rows, files)
    ensures PathsOf(SortRows(rows)) == SortedKeys(files.Keys)
    ensures PointwiseMatch(h, SortRows(rows), SortedKeys(files.Keys), files, |rows|)
  {
    hide RowMatches, VersionValid, Less, SortRows, SortedKeys, PathsOf;
    var sorted, keys := SortRows(rows), SortedKeys(files.Keys);
    SortedPathsAreKeys(h, rows, files);
    forall j | 0 <= j < |rows| ensures RowMatches(h, sorted[j], keys[j], files[keys[j]]) && VersionValid(sorted[j]) {
      var i := InRows(rows, j);
      assert sorted[j].path == PathsOf(sorted)[j];
    }
  }

  lemma RowDescribed(h: Hash, rows: seq<FileRow>, files: FileMap, i: nat)
    requires i < |rows| == |files|
    requires PointwiseMatch(h, SortRows(rows), SortedKeys(files.Keys), files, |rows|)
    ensures rows[i].path in files
    ensures RowMatches(h, rows[i], rows[i].path, files[rows[i].path]) && VersionValid(rows[i])
  {
    hide FileSha, ByteLength, VersionValid, SortRows, SortedKeys;
    var keys := SortedKeys(files.Keys);
    var j := InSorted(rows, i);
    assert RowMatches(h, SortRows(rows)[j], keys[j], files[keys[j]]);
    assert keys[j] in keys;
  }

  lemma PointwiseDescribes(h: Hash, rows: seq<FileRow>, files: FileMap)
    requires |rows| == |files|
    requires PointwiseMatch(h, SortRows(rows), SortedKeys(files.Keys), files, |rows|)
    ensures Describes(h, rows, files)
  {
    hide FileSha, ByteLength, VersionValid, Less, SortRows, SortedKeys;
    var sorted, keys := SortRows(rows), SortedKeys(files.Keys);
    forall i | 0 <= i < |rows|
      ensures rows[i].path in files && VersionValid(rows[i])
      ensures RowMatches(h, rows[i], rows[i].path, files[rows[i].path])
    {
      RowDescribed(h, rows, files, i);
    }
    PointwiseDistinct(h, rows, files);
  }

  lemma PointwisePaths(h: Hash, rows: seq<FileRow>, keys: seq<string>, files: FileMap, n: nat)
    requires forall k :: k in keys ==> k in files
    requires PointwiseMatch(h, rows, keys, files, n)
    ensures forall i :: 0 <= i < n ==> rows[i].path == keys[i]
  {
    hide FileSha, ByteLength, VersionValid;
    forall i | 0 <= i < n ensures rows[i].path == keys[i] {
      assert RowMatches(h, rows[i], keys[i], files[keys[i]]);
    }
  }

  lemma PointwiseDistinct(h: Hash, rows: seq<FileRow>, files: FileMap)
    requires |rows| == |files|
    requires PointwiseMatch(h, SortRows(rows), SortedKeys(files.Keys), files, |rows|)
    ensures DistinctRowPaths(rows)
  {
    hide PointwiseMatch, Less, SortRows, SortedKeys;
    var sorted, keys := SortRows(rows), SortedKeys(files.Keys);
    PointwisePaths(h, sorted, keys, files, |rows|);
    SortedDistinct(sorted, keys);
    forall i, j | 0 <= i < j < |rows| ensures rows[i].path != rows[j].path {
      PermutationDistinct(rows, sorted, i, j);
    }
  }

  lemma SortedDistinct(sorted: seq<FileRow>, keys: seq<string>)
    requires StrictlySorted(keys) && |sorted| == |keys|
    requires forall i :: 0 <= i < |keys| ==> sorted[i].path == keys[i]
    ensures DistinctRowPaths(sorted)
  {
    hide Less;
    forall i, j | 0 <= i < j < |sorted| ensures sorted[i].path != sorted[j].path {
      LessTotal(keys[i], keys[j]);
      LessTotal(keys[i], keys[i]);
    }
  }

  lemma PermutationDistinct(rows: seq<FileRow>, sorted: seq<FileRow>, i: nat, j: nat)
    requires multiset(rows) == multiset(sorted) && DistinctRowPaths(sorted) && i < j < |rows|
    ensures rows[i].path != rows[j].path
  {
    if rows[i].path == rows[j].path {
      assert rows[i] in multiset(rows) && rows[j] in multiset(rows);
      var k :| 0 <= k < |sorted| && sorted[k] == rows[i];
      var l :| 0 <= l < |sorted| && sorted[l] == rows[j];
      assert k == l;
      TwiceInMultiset(rows, i, j);
      OnceInMultiset(sorted, k);
    }
  }

  lemma TwiceInMultiset(rows: seq<FileRow>, i: nat, j: nat)
    requires i < j < |rows| && rows[i] == rows[j]
    ensures multiset(rows)[rows[i]] >= 2
  {
    assert rows == rows[..i] + [rows[i]] + rows[i + 1..j] + [rows[j]] + rows[j + 1..];
  }

  lemma OnceInMultiset(rows: seq<FileRow>, k: nat)
    requires DistinctRowPaths(rows) && k < |rows|
    ensures multiset(rows)[rows[k]] == 1
  {
    assert rows == rows[..k] + [rows[k]] + rows[k + 1..];
    assert rows[k] !in rows[..k] && rows[k] !in rows[k + 1..];
  }

  lemma {:induction false} InsertRowSum(row: FileRow, rows: seq<FileRow>)
    ensures SumBytes(InsertRow(row, rows)) == row.bytes + SumBytes(rows)
  {
    if rows != [] && Less(rows[0].path, row.path) {
      InsertRowSum(row, rows[1..]);
    }
  }

  lemma {:induction false} SortRowsSum(rows: seq<FileRow>)
    ensures SumBytes(SortRows(rows)) == SumBytes(rows)
  {
    if rows != [] {
      SortRowsSum(rows[1..]);
      InsertRowSum(rows[0], SortRows(rows[1..]));
    }
  }

  lemma SortRowsVersioned(rows: seq<FileRow>)
    ensures FullyVersioned(SortRows(rows)) <==> FullyVersioned(rows)
  {
    hide SortRows;
    if FullyVersioned(rows) {
      forall j | 0 <= j < |rows| ensures SortRows(rows)[j].fileVersion.Some? {
        var i := InRows(rows, j);
      }
    }
    if FullyVersioned(SortRows(rows)) {
      forall i | 0 <= i < |rows| ensures rows[i].fileVersion.Some? {
        var j := InSorted(rows, i);
      }
    }
  }

  /** The checks of the index loop, all of them passed, say that the rows describe the files. */
  lemma LoopMeansDescribes(h: Hash, rows: seq<FileRow>, files: FileMap)
    requires |rows| == |files|
    ensures PointwiseMatch(h, SortRows(rows), SortedKeys(files.Keys), files, |rows|) <==> Describes(h, rows, files)
  {
    hide SortRows, SortedKeys, Describes, PointwiseMatch;
    if Describes(h, rows, files) {
      DescribedMatchPointwise(h, rows, files);
    }
    if PointwiseMatch(h, SortRows(rows), SortedKeys(files.Keys), files, |rows|) {
      PointwiseDescribes(h, rows, files);
    }
  }

  lemma PointwiseStep(h: Hash, rows: seq<FileRow>, keys: seq<string>, files: FileMap, n: nat)
    requires forall k :: k in keys ==> k in files
    requires n < |rows| == |keys|
    ensures PointwiseMatch(h, rows, keys, files, 0)
    ensures keys[n] in files
    ensures PointwiseMatch(h, rows, keys, files, n + 1) <==>
              PointwiseMatch(h, rows, keys, files, n) &&
              RowMatches(h, rows[n], keys[n], files[keys[n]]) && VersionValid(rows[n])
    ensures PointwiseMatch(h, rows, keys, files, |rows|) ==> PointwiseMatch(h, rows, keys, files, n + 1)
  {
    hide RowMatches, VersionValid;
    assert keys[n] in keys;
  }

  method CheckRows(h: Hash, rows: seq<FileRow>, keys: seq<string>, files: FileMap) returns (r: Option<ArtifactError>)
    requires forall k :: k in keys ==> k in files
    requires |rows| == |keys|
    ensures r.None? <==> PointwiseMatch(h, rows, keys, files, |rows|)
  {
    hide PointwiseMatch;
    var index := 0;
    assert PointwiseMatch(h, rows, keys, files, 0) by {
      EmptyMatch(h, rows, keys, files);
    }
    while index < |keys|
      invariant index <= |keys| && PointwiseMatch(h, rows, keys, files, index)
    {
      PointwiseStep(h, rows, keys, files, index);
      var path, persisted := keys[index], rows[index];
      if persisted.path != path || persisted.sha256 != FileSha(h, path, files[path])
         || persisted.bytes != ByteLength(files[path])
      {
        return Some(VerificationFailed);
      }
      if persisted.fileVersion.Some? && persisted.fileVersion.value <= 0 {
        return Some(BadFileVersion);
      }
      index := index + 1;
    }
    return None;
  }

  lemma EmptyMatch(h: Hash, rows: seq<FileRow>, keys: seq<string>, files: FileMap)
    requires forall k :: k in keys ==> k in files
    ensures PointwiseMatch(h, rows, keys, files, 0)
  {
  }

  lemma VerifiesMeans(
    h: Hash, files: FileMap, integrity: Integrity, projectId: int, artifactVersion: int,
    requiredState: Option<ArtifactState>)
    requires Acceptable(files)
    ensures Verifies(h, files, integrity, projectId, artifactVersion, requiredState) <==>
      && integrity.version == 1 && integrity.projectId == projectId && integrity.artifactVersion == artifactVersion
      && (requiredState.Some? ==> integrity.state == requiredState.value)
      && integrity.fileCount == |integrity.files| == |Normalized(files)|
      && Describes(h, integrity.files, Normalized(files))
      && integrity.totalBytes == SumBytes(SortRows(integrity.files))
      && integrity.sha256 == h(RowsText(SortRows(integrity.files), FullyVersioned(SortRows(integrity.files))))
  {
    hide Acceptable, Normalized, SortRows, FullyVersioned, RowsText, SumBytes, RowMatches, VersionValid;
    SortRowsSum(integrity.files);
    SortRowsVersioned(integrity.files);
  }

  lemma VerifiesOnlyIf(
    h: Hash, files: FileMap, integrity: Integrity, projectId: int, artifactVersion: int,
    requiredState: Option<ArtifactState>)
    requires Verifies(h, files, integrity, projectId, artifactVersion, requiredState)
    ensures Acceptable(files)
    ensures integrity.version == 1 && integrity.projectId == projectId && integrity.artifactVersion == artifactVersion
    ensures requiredState.Some? ==> integrity.state == requiredState.value
  {
  }

  method AssertArtifactIntegrity(
    h: Hash, entries: seq<(string, string)>, candidate: Option<Integrity>, projectId: int, artifactVersion: int,
    requiredState: Option<ArtifactState>) returns (r: Result<Integrity, ArtifactError>)
    requires DistinctPaths(entries)
    ensures r.Ok? <==>
              candidate.Some? &&
              Verifies(h, MapOf(entries), candidate.value, projectId, artifactVersion, requiredState)
    ensures r.Ok? ==> r.value == candidate.value
  {
    hide *;
    if candidate.None? {
      return Err(MissingMetadata);
    }
    var integrity := candidate.value;
    if Verifies(h, MapOf(entries), integrity, projectId, artifactVersion, requiredState) {
      VerifiesOnlyIf(h, MapOf(entries), integrity, projectId, artifactVersion, requiredState);
    }
    if integrity.version != 1 || integrity.projectId != projectId || integrity.artifactVersion != artifactVersion {
      return Err(WrongIdentity);
    }
    if requiredState.Some? && integrity.state != requiredState.value {
      return Err(WrongState);
    }
    var validated := ValidateArtifactFiles(entries);
    if validated.Err? {
      return Err(validated.error);
    }
    var files := validated.value;
    VerifiesMeans(h, MapOf(entries), integrity, projectId, artifactVersion, requiredState);
    var expectedPaths := SortKeys(files.Keys);
    var persistedFiles := SortRows(integrity.files);
    assert |files.Keys| == |files|;
    if integrity.fileCount != |expectedPaths| || |persistedFiles| != |expectedPaths| {
      return Err(VerificationFailed);
    }
    LoopMeansDescribes(h, integrity.files, files);
    var fault := CheckRows(h, persistedFiles, expectedPaths, files);
    if fault.Some? {
      return Err(fault.value);
    }
    if integrity.totalBytes != SumBytes(persistedFiles) {
      return Err(VerificationFailed);
    }
    var versioned := FullyVersioned(persistedFiles);
    if h(RowsText(persistedFiles, versioned)) != integrity.sha256 {
      return Err(VerificationFailed);
    }
    return Ok(integrity);
  }

  // ----- building then verifying -----

  lemma BuiltRowsDescribe(h: Hash, files: FileMap, previous: Option<Integrity>)
    ensures var rows := BuildRows(h, SortedKeys(files.Keys), files, previous);
            Describes(h, rows, files) && FullyVersioned(rows) && SortedByPath(rows)
  {
    hide FileSha, ByteLength, NextVersion, Less, SortedKeys, BuildRows;
    var keys := SortedKeys(files.Keys);
    var rows := BuildRows(h, keys, files, previous);
    forall i | 0 <= i < |rows|
      ensures rows[i].path in files && VersionValid(rows[i])
      ensures RowMatches(h, rows[i], rows[i].path, files[rows[i].path])
    {
      assert keys[i] in keys;
      NextVersionPositive(previous, keys[i], FileSha(h, keys[i], files[keys[i]]));
    }
    SortedDistinct(rows, keys);
    assert |files.Keys| == |files|;
  }

  lemma NextVersionPositive(previous: Option<Integrity>, path: string, sha: string)
    ensures NextVersion(previous, path, sha) >= 1
  {
  }

  lemma {:induction false} SortSorted(rows: seq<FileRow>)
    requires SortedByPath(rows)
    ensures SortRows(rows) == rows
  {
    hide Less;
    if rows != [] {
      SortSorted(rows[1..]);
      if |rows| > 1 {
        LessTotal(rows[0].path, rows[1].path);
      }
    }
  }

  lemma BuildMeans(
    h: Hash, projectId: int, artifactVersion: int, state: ArtifactState, files: FileMap, previous: Option<Integrity>)
    ensures BuildArtifactIntegrity(h, projectId, artifactVersion, state, files, previous).Ok? <==>
              projectId > 0 && artifactVersion > 0 && Acceptable(files)
    ensures BuildArtifactIntegrity(h, projectId, artifactVersion, state, files, previous).Ok? ==>
              var integrity := BuildArtifactIntegrity(h, projectId, artifactVersion, state, files, previous).value;
              var normalized := Normalized(files);
              var rows := BuildRows(h, SortedKeys(normalized.Keys), normalized, previous);
              && integrity.version == 1 && integrity.projectId == projectId
              && integrity.artifactVersion == artifactVersion && integrity.state == state
              && integrity.files == rows && integrity.fileCount == |rows|
              && integrity.totalBytes == SumBytes(rows) && integrity.sha256 == h(RowsText(rows, true))
  {
    hide Acceptable, BuildRows, SortedKeys, RowsText, SumBytes;
  }

  lemma BuildSucceeds(
    h: Hash, projectId: int, artifactVersion: int, state: ArtifactState, files: FileMap, previous: Option<Integrity>)
    requires projectId > 0 && artifactVersion > 0 && Acceptable(files)
    ensures BuildArtifactIntegrity(h, projectId, artifactVersion, state, files, previous).Ok?
  {
    hide *;
    BuildMeans(h, projectId, artifactVersion, state, files, previous);
  }

  /** What was built for a file map passes the check on that file map. */
  lemma BuildThenVerify(
    h: Hash, projectId: int, artifactVersion: int, state: ArtifactState, files: FileMap, previous: Option<Integrity>)
    requires BuildArtifactIntegrity(h, projectId, artifactVersion, state, files, previous).Ok?
    ensures var integrity := BuildArtifactIntegrity(h, projectId, artifactVersion, state, files, previous).value;
            && Verifies(h, files, integrity, projectId, artifactVersion, Some(state))
            && FullyVersioned(integrity.files) && SortedByPath(integrity.files)
  {
    hide *;
    BuildMeans(h, projectId, artifactVersion, state, files, previous);
    AcceptableMeans(files);
    var integrity := BuildArtifactIntegrity(h, projectId, artifactVersion, state, files, previous).value;
    var normalized := Normalized(files);
    BuiltRowsDescribe(h, normalized, previous);
    SortSorted(integrity.files);
    DescribesSize(h, integrity.files, normalized);
    assert SortRows(integrity.files) == integrity.files;
    VerifiesMeans(h, files, integrity, projectId, artifactVersion, Some(state));
  }

  lemma DescribesSize(h: Hash, rows: seq<FileRow>, files: FileMap)
    requires Describes(h, rows, files)
    ensures |rows| == |files|
  {
  }

  /** The order in which the rows are stored does not matter. */
  lemma StoredOrderIrrelevant(
    h: Hash, files: FileMap, integrity: Integrity, rows: seq<FileRow>, projectId: int, artifactVersion: int,
    requiredState: Option<ArtifactState>)
    requires Verifies(h, files, integrity, projectId, artifactVersion, requiredState)
    requires multiset(rows) == multiset(integrity.files)
    ensures Verifies(h, files, integrity.(files := rows), projectId, artifactVersion, requiredState)
  {
    hide Acceptable, Normalized, SortRows, FullyVersioned, RowsText, SumBytes, RowMatches, VersionValid, Less;
    VerifiesOnlyIf(h, files, integrity, projectId, artifactVersion, requiredState);
    VerifiesMeans(h, files, integrity, projectId, artifactVersion, requiredState);
    assert |rows| == |multiset(rows)| == |integrity.files|;
    PermutationSorts(integrity.files, rows);
    forall i | 0 <= i < |rows|
      ensures rows[i].path in Normalized(files)
      ensures RowMatches(h, rows[i], rows[i].path, Normalized(files)[rows[i].path]) && VersionValid(rows[i])
    {
      assert rows[i] in multiset(rows);
      assert rows[i] in integrity.files;
    }
    forall i, j | 0 <= i < j < |rows| ensures rows[i].path != rows[j].path {
      PermutationDistinct(rows, integrity.files, i, j);
    }
    VerifiesMeans(h, files, integrity.(files := rows), projectId, artifactVersion, requiredState);
  }

  lemma PermutationSorts(xs: seq<FileRow>, ys: seq<FileRow>)
    requires DistinctRowPaths(xs) && multiset(xs) == multiset(ys)
    ensures SortRows(xs) == SortRows(ys)
  {
    hide SortRows, Less;
    forall i, j | 0 <= i < j < |ys| ensures ys[i].path != ys[j].path {
      PermutationDistinct(ys, xs, i, j);
    }
    SortRowsSorted(xs);
    SortRowsSorted(ys);
    SortedRowsAgree(SortRows(xs), SortRows(ys));
  }

  lemma SortedRowsAgree(xs: seq<FileRow>, ys: seq<FileRow>)
    requires SortedByPath(xs) && SortedByPath(ys) && multiset(xs) == multiset(ys)
    ensures xs == ys
  {
    hide Less, PathsOf;
    var ps, qs := PathsOf(xs), PathsOf(ys);
    forall p ensures p in ps <==> p in qs {
      PathIn(xs, ys, p);
      PathIn(ys, xs, p);
    }
    StrictlySortedAgree(ps, qs);
    forall i | 0 <= i < |xs| ensures xs[i] == ys[i] {
      assert xs[i] in multiset(ys);
      var j :| 0 <= j < |ys| && ys[j] == xs[i];
      assert xs[j].path == ys[j].path;
      LessTotal(xs[i].path, xs[j].path);
      assert i == j;
    }
  }

  lemma PathIn(xs: seq<FileRow>, ys: seq<FileRow>, p: string)
    requires multiset(xs) == multiset(ys)
    ensures p in PathsOf(xs) ==> p in PathsOf(ys)
  {
    if p in PathsOf(xs) {
      var i :| 0 <= i < |xs| && PathsOf(xs)[i] == p;
      assert xs[i] in multiset(ys);
      var j :| 0 <= j < |ys| && ys[j] == xs[i];
      assert PathsOf(ys)[j] == p;
    }
  }

  // ----- what the digest binds -----

  predicate HexOutput(h: Hash, x: string) {
    Without(h(x), '\0')
  }

  lemma {:induction false} DecimalDigits(n: nat)
    ensures Without(Decimal(n), '\0') && (|Decimal(n)| == 1 <==> n < 10)
  {
    if n >= 10 {
      DecimalDigits(n / 10);
    }
  }

  /** The number that decimal digits stand for. */
  function NumberOf(digits: string): int {
    if digits == "" then 0
    else 10 * NumberOf(digits[..|digits| - 1]) + (digits[|digits| - 1] as int - '0' as int)
  }

  /** A number is printed in decimal digits, without leading zeros. */
  lemma {:induction false} DecimalReads(n: nat)
    ensures NumberOf(Decimal(n)) == n
    ensures forall i :: 0 <= i < |Decimal(n)| ==> '0' <= Decimal(n)[i] <= '9'
    ensures n > 0 ==> Decimal(n)[0] != '0'
  {
    var digit := "0123456789"[n % 10];
    assert digit as int == '0' as int + n % 10;
    if n >= 10 {
      DecimalReads(n / 10);
      var s := Decimal(n);
      assert s[..|s| - 1] == Decimal(n / 10) && s[|s| - 1] == digit;
    } else {
      assert [digit][..0] == "";
    }
  }

  lemma DecimalInjective(m: nat, n: nat)
    requires Decimal(m) == Decimal(n)
    ensures m == n
  {
    DecimalReads(m);
    DecimalReads(n);
  }

  /** NUL-terminated fields parse only one way. */
  lemma FieldParses(a: string, b: string, x: string, y: string)
    requires Without(a, '\0') && Without(b, '\0')
    requires a + (NUL + x) == b + (NUL + y)
    ensures a == b && x == y
  {
    var u, v := a + (NUL + x), b + (NUL + y);
    assert u[|a|] == '\0' && v[|b|] == '\0';
    assert forall i :: 0 <= i < |b| ==> v[i] == b[i];
    assert forall i :: 0 <= i < |a| ==> u[i] == a[i];
    assert a == u[..|a|] && b == v[..|b|];
    assert x == u[|a| + 1..] && y == v[|b| + 1..];
  }

  /** A row as verified records hold it. */
  predicate CleanRow(row: FileRow) {
    && Without(row.path, '\0') && Without(row.sha256, '\0')
    && row.bytes >= 0 && row.fileVersion.Some? && row.fileVersion.value > 0
  }

  lemma RowTextParts(row: FileRow, rest: string)
    requires CleanRow(row)
    ensures RowText(row, true) + rest ==
            row.path + (NUL + (row.sha256 + (NUL + (Decimal(row.bytes) + (NUL +
            (Decimal(row.fileVersion.value) + (NUL + rest)))))))
  {
    hide Decimal;
    assert RowText(row, true) ==
           row.path + (NUL + (row.sha256 + (NUL +
           (Decimal(row.bytes) + (NUL + (Decimal(row.fileVersion.value) + NUL))))));
    Regroup3(row.path, row.sha256, Decimal(row.bytes), Decimal(row.fileVersion.value), rest);
  }

  lemma Regroup3(a: string, b: string, c: string, d: string, rest: string)
    ensures (a + (NUL + (b + (NUL + (c + (NUL + (d + NUL))))))) + rest ==
            a + (NUL + (b + (NUL + (c + (NUL + (d + (NUL + rest)))))))
  {
    Regroup1(d, "", rest);
    Regroup1(c, d + NUL, rest);
    Regroup1(b, c + (NUL + (d + NUL)), rest);
    Regroup1(a, b + (NUL + (c + (NUL + (d + NUL)))), rest);
    assert NUL + "" == NUL && "" + rest == rest;
  }

  lemma Regroup1(a: string, b: string, rest: string)
    ensures (a + (NUL + b)) + rest == a + (NUL + (b + rest))
  {
  }

  lemma RowParses(r: FileRow, s: FileRow, x: string, y: string)
    requires CleanRow(r) && CleanRow(s)
    requires RowText(r, true) + x == RowText(s, true) + y
    ensures r == s && x == y
  {
    hide RowText, Decimal;
    RowTextParts(r, x);
    RowTextParts(s, y);
    DecimalDigits(r.bytes);
    DecimalDigits(s.bytes);
    DecimalDigits(r.fileVersion.value);
    DecimalDigits(s.fileVersion.value);
    var rv, sv := Decimal(r.fileVersion.value) + (NUL + x), Decimal(s.fileVersion.value) + (NUL + y);
    var rb, sb := Decimal(r.bytes) + (NUL + rv), Decimal(s.bytes) + (NUL + sv);
    FieldParses(r.path, s.path, r.sha256 + (NUL + rb), s.sha256 + (NUL + sb));
    FieldParses(r.sha256, s.sha256, rb, sb);
    FieldParses(Decimal(r.bytes), Decimal(s.bytes), rv, sv);
    FieldParses(Decimal(r.fileVersion.value), Decimal(s.fileVersion.value), x, y);
    DecimalInjective(r.bytes, s.bytes);
    DecimalInjective(r.fileVersion.value, s.fileVersion.value);
  }

  predicate CleanRows(rows: seq<FileRow>) {
    forall i :: 0 <= i < |rows| ==> CleanRow(rows[i])
  }

  lemma RowTextNotEmpty(row: FileRow)
    ensures RowText(row, true) != ""
  {
  }

  lemma {:induction false} RowsParse(xs: seq<FileRow>, ys: seq<FileRow>)
    requires CleanRows(xs) && CleanRows(ys)
    requires RowsText(xs, true) == RowsText(ys, true)
    ensures xs == ys
  {
    hide RowText, CleanRow;
    if xs != [] && ys != [] {
      RowParses(xs[0], ys[0], RowsText(xs[1..], true), RowsText(ys[1..], true));
      RowsParse(xs[1..], ys[1..]);
      assert xs == [xs[0]] + xs[1..] && ys == [ys[0]] + ys[1..];
    } else if xs != [] {
      RowTextNotEmpty(xs[0]);
    } else if ys != [] {
      RowTextNotEmpty(ys[0]);
    }
  }

  lemma VerifiedRowsClean(
    h: Hash, files: FileMap, integrity: Integrity, projectId: int, artifactVersion: int,
    requiredState: Option<ArtifactState>)
    requires forall x :: HexOutput(h, x)
    requires Verifies(h, files, integrity, projectId, artifactVersion, requiredState)
    requires FullyVersioned(integrity.files)
    ensures CleanRows(SortRows(integrity.files))
  {
    hide SafePath, SortRows, CleanRow, Verifies, HexOutput;
    var rows := integrity.files;
    forall j | 0 <= j < |rows| ensures CleanRow(SortRows(rows)[j]) {
      var i := InRows(rows, j);
      VerifiedRow(h, files, integrity, projectId, artifactVersion, requiredState, i);
      RowClean(h, files, rows[i]);
    }
  }

  /** What a verified record says in one row. */
  lemma VerifiedRow(
    h: Hash, files: FileMap, integrity: Integrity, projectId: int, artifactVersion: int,
    requiredState: Option<ArtifactState>, i: nat)
    requires Verifies(h, files, integrity, projectId, artifactVersion, requiredState)
    requires FullyVersioned(integrity.files) && i < |integrity.files|
    ensures Wellformed(files)
    ensures var row, normalized := integrity.files[i], Normalized(files);
            && row.path in normalized && RowMatches(h, row, row.path, normalized[row.path])
            && row.fileVersion.Some? && VersionValid(row)
  {
    hide SafePath, Wellformed, Normalized, RowMatches, SortRows, SumBytes, RowsText;
  }

  lemma RowClean(h: Hash, files: FileMap, row: FileRow)
    requires forall x :: HexOutput(h, x)
    requires Wellformed(files) && row.path in Normalized(files)
    requires RowMatches(h, row, row.path, Normalized(files)[row.path]) && row.fileVersion.Some? && VersionValid(row)
    ensures CleanRow(row)
  {
    hide SafePath, TotalBytes, Inherited, Normalized, ByteLength;
    var raw := RawOf(files, row.path);
    SafePathIsNormal(raw);
    assert HexOutput(h, row.path + (NUL + Normalized(files)[row.path]));
  }

  /** Verified rows with the same path and hash record the same content, or the hash collides. */
  lemma RowBindsContent(h: Hash, row: FileRow, path: string, c: string, d: string)
    requires RowMatches(h, row, path, c) && RowMatches(h, row, path, d)
    ensures c == d || HasCollision(h)
  {
    var x, y := path + (NUL + c), path + (NUL + d);
    EqualDigests(h, x, y);
    if x == y {
      assert c == x[|path| + 1..] && d == y[|path| + 1..];
    }
  }

  /** The same rows describe one file map only, unless the hash collides. */
  lemma RowsBindFiles(h: Hash, rows: seq<FileRow>, f: FileMap, g: FileMap)
    requires Describes(h, rows, f) && Describes(h, rows, g)
    ensures f == g || HasCollision(h)
  {
    hide RowMatches, VersionValid;
    DescribedPaths(h, rows, f);
    DescribedPaths(h, rows, g);
    assert f.Keys == g.Keys;
    if !HasCollision(h) {
      forall p | p in f ensures f[p] == g[p] {
        assert p in PathsOf(rows);
        var i :| 0 <= i < |rows| && PathsOf(rows)[i] == p;
        RowBindsContent(h, rows[i], p, f[p], g[p]);
      }
    }
  }

  /** A record verifies against one artifact only: changed contents do not pass, unless the hash collides. */
  lemma TamperDetected(
    h: Hash, f: FileMap, g: FileMap, integrity: Integrity, projectId: int, artifactVersion: int,
    requiredState: Option<ArtifactState>)
    requires Verifies(h, f, integrity, projectId, artifactVersion, requiredState)
    requires Verifies(h, g, integrity, projectId, artifactVersion, requiredState)
    ensures Normalized(f) == Normalized(g) || HasCollision(h)
  {
    hide Acceptable, Describes, SortRows, FullyVersioned, RowsText, SumBytes, Normalized, HasCollision;
    AcceptableMeans(f);
    AcceptableMeans(g);
    RowsBindFiles(h, integrity.files, Normalized(f), Normalized(g));
  }

  lemma DescribesUpToOrder(h: Hash, xs: seq<FileRow>, ys: seq<FileRow>, files: FileMap)
    requires Describes(h, xs, files) && SortRows(xs) == SortRows(ys)
    ensures Describes(h, ys, files)
  {
    hide SortRows, RowMatches, VersionValid;
    assert multiset(xs) == multiset(ys);
    assert |ys| == |multiset(ys)| == |xs|;
    forall i | 0 <= i < |ys|
      ensures ys[i].path in files && RowMatches(h, ys[i], ys[i].path, files[ys[i].path]) && VersionValid(ys[i])
    {
      assert ys[i] in multiset(xs);
      var j :| 0 <= j < |xs| && xs[j] == ys[i];
    }
    forall i, j | 0 <= i < j < |ys| ensures ys[i].path != ys[j].path {
      PermutationDistinct(ys, xs, i, j);
    }
  }

  /**
   The aggregate digest binds the artifact: fully versioned records that verify and carry
   the same digest describe the same paths, contents, sizes and file versions, unless the
   hash collides.
   */
  lemma DigestBindsArtifact(
    h: Hash, f: FileMap, i: Integrity, g: FileMap, j: Integrity, projectI: int, versionI: int, projectJ: int,
    versionJ: int, stateI: Option<ArtifactState>, stateJ: Option<ArtifactState>)
    requires forall x :: HexOutput(h, x)
    requires Verifies(h, f, i, projectI, versionI, stateI) && FullyVersioned(i.files)
    requires Verifies(h, g, j, projectJ, versionJ, stateJ) && FullyVersioned(j.files)
    requires i.sha256 == j.sha256
    ensures (Normalized(f) == Normalized(g) && SortRows(i.files) == SortRows(j.files)) || HasCollision(h)
  {
    hide HexOutput, Acceptable, Describes, SortRows, FullyVersioned, RowsText, SumBytes, Normalized, HasCollision;
    VerifiedRowsClean(h, f, i, projectI, versionI, stateI);
    VerifiedRowsClean(h, g, j, projectJ, versionJ, stateJ);
    EqualDigests(h, RowsText(SortRows(i.files), true), RowsText(SortRows(j.files), true));
    if !HasCollision(h) {
      AcceptableMeans(f);
      AcceptableMeans(g);
      RowsParse(SortRows(i.files), SortRows(j.files));
      DescribesUpToOrder(h, i.files, j.files, Normalized(f));
      RowsBindFiles(h, j.files, Normalized(f), Normalized(g));
    }
  }

  // ----- file versions -----

  /** The row a record holds for a path. */
  lemma BuiltRowOf(
    h: Hash, projectId: int, artifactVersion: int, state: ArtifactState, files: FileMap, previous: Option<Integrity>,
    path: string)
    requires BuildArtifactIntegrity(h, projectId, artifactVersion, state, files, previous).Ok?
    ensures Acceptable(files)
    ensures var integrity := BuildArtifactIntegrity(h, projectId, artifactVersion, state, files, previous).value;
            var normalized := Normalized(files);
            LastRow(integrity.files, path) ==
            if path in normalized then Some(BuildRow(h, path, normalized[path], previous)) else None
  {
    hide Acceptable, Normalized, SortedKeys, LastRow, BuildRow, Less, RowsText, SumBytes;
    BuildMeans(h, projectId, artifactVersion, state, files, previous);
    AcceptableMeans(files);
    var normalized := Normalized(files);
    var keys := SortedKeys(normalized.Keys);
    assert forall k :: k in keys <==> k in normalized;
    SortedKeysDistinct(keys);
    LastBuiltRow(h, keys, normalized, previous, path);
  }

  lemma SortedKeysDistinct(keys: seq<string>)
    requires StrictlySorted(keys)
    ensures forall i, j :: 0 <= i < j < |keys| ==> keys[i] != keys[j]
  {
    hide Less;
    forall i, j | 0 <= i < j < |keys| ensures keys[i] != keys[j] {
      LessTotal(keys[i], keys[j]);
      LessTotal(keys[i], keys[i]);
    }
  }

  lemma {:induction false} LastBuiltRow(h: Hash, keys: seq<string>, files: FileMap,
                                        previous: Option<Integrity>, path: string)
    requires forall k :: k in keys ==> k in files
    requires forall i, j :: 0 <= i < j < |keys| ==> keys[i] != keys[j]
    ensures LastRow(BuildRows(h, keys, files, previous), path) ==
            if path in keys then Some(BuildRow(h, path, files[path], previous)) else None
  {
    hide FileSha, ByteLength, NextVersion;
    if keys != [] {
      var n := |keys| - 1;
      var rows := BuildRows(h, keys, files, previous);
      LastBuiltRow(h, keys[..n], files, previous, path);
      assert rows[..n] == BuildRows(h, keys[..n], files, previous);
      assert rows[n].path == keys[n];
      assert keys == keys[..n] + [keys[n]];
      assert path in keys <==> path in keys[..n] || path == keys[n];
    }
  }

  function VersionOf(integrity: Integrity, path: string): Option<int> {
    var row := LastRow(integrity.files, path);
    if row.Some? then row.value.fileVersion else None
  }

  function ShaOf(integrity: Integrity, path: string): Option<string> {
    var row := LastRow(integrity.files, path);
    if row.Some? then Some(row.value.sha256) else None
  }

  /** Every row of the record carries a version between 1 and a bound. */
  ghost predicate VersionsWithin(integrity: Integrity, bound: int) {
    forall path :: LastRow(integrity.files, path).Some? ==>
      VersionOf(integrity, path).Some? && 1 <= VersionOf(integrity, path).value <= bound
  }

  /** The version rule for one path, as a fact about the two records. */
  ghost predicate VersionRule(previous: Option<Integrity>, next: Integrity, path: string) {
    VersionOf(next, path).Some? ==>
      VersionOf(next, path).value ==
      if previous.None? || VersionOf(previous.value, path).None? then 1
      else if ShaOf(next, path) == ShaOf(previous.value, path) then VersionOf(previous.value, path).value
      else VersionOf(previous.value, path).value + 1
  }

  lemma NextVersionIs(previous: Option<Integrity>, path: string, sha: string)
    requires previous.Some? && LastRow(previous.value.files, path).Some? ==>
               VersionOf(previous.value, path).Some? && VersionOf(previous.value, path).value >= 1
    ensures NextVersion(previous, path, sha) ==
            if previous.None? || VersionOf(previous.value, path).None? then 1
            else if Some(sha) == ShaOf(previous.value, path) then VersionOf(previous.value, path).value
            else VersionOf(previous.value, path).value + 1
  {
    hide LastRow;
  }

  lemma BuiltVersion(
    h: Hash, projectId: int, artifactVersion: int, state: ArtifactState, files: FileMap, previous: Option<Integrity>,
    path: string)
    requires BuildArtifactIntegrity(h, projectId, artifactVersion, state, files, previous).Ok?
    requires previous.Some? ==> VersionsWithin(previous.value, artifactVersion - 1)
    ensures var next := BuildArtifactIntegrity(h, projectId, artifactVersion, state, files, previous).value;
            && VersionRule(previous, next, path)
            && (LastRow(next.files, path).Some? ==>
                  VersionOf(next, path).Some? && 1 <= VersionOf(next, path).value <= artifactVersion)
  {
    hide LastRow, Acceptable, Wellformed, Normalized, BuildArtifactIntegrity, FileSha, ByteLength, NextVersion;
    BuildMeans(h, projectId, artifactVersion, state, files, previous);
    AcceptableMeans(files);
    BuiltRowOf(h, projectId, artifactVersion, state, files, previous, path);
    if path in Normalized(files) {
      NextVersionIs(previous, path, FileSha(h, path, Normalized(files)[path]));
    }
  }

  /**
   One step of the version chain: a path present before and after keeps its version when its
   hash stays and gains exactly one when it changes; a new path starts at 1.
   */
  lemma VersionStep(
    h: Hash, projectId: int, artifactVersion: int, state: ArtifactState, files: FileMap, previous: Option<Integrity>)
    requires BuildArtifactIntegrity(h, projectId, artifactVersion, state, files, previous).Ok?
    requires previous.Some? ==> VersionsWithin(previous.value, artifactVersion - 1)
    ensures var next := BuildArtifactIntegrity(h, projectId, artifactVersion, state, files, previous).value;
            VersionsWithin(next, artifactVersion) && forall path :: VersionRule(previous, next, path)
  {
    hide LastRow, VersionRule, VersionOf, BuildArtifactIntegrity;
    var next := BuildArtifactIntegrity(h, projectId, artifactVersion, state, files, previous).value;
    forall path
      ensures VersionRule(previous, next, path)
      ensures LastRow(next.files, path).Some? ==>
                VersionOf(next, path).Some? && 1 <= VersionOf(next, path).value <= artifactVersion
    {
      BuiltVersion(h, projectId, artifactVersion, state, files, previous, path);
    }
  }

  predicate RowVersioned(integrity: Integrity, path: string) {
    LastRow(integrity.files, path).Some? ==>
      VersionOf(integrity, path).Some? && VersionOf(integrity, path).value >= 1
  }

  /** Every row of the record carries a positive version. */
  ghost predicate Versioned(integrity: Integrity) {
    forall path :: RowVersioned(integrity, path)
  }

  /** The version rule between two records, for every path. */
  ghost predicate RuleHolds(previous: Option<Integrity>, next: Integrity) {
    forall path :: VersionRule(previous, next, path)
  }

  /** The rule needs no bound on the versions. */
  lemma BuiltRule(
    h: Hash, projectId: int, artifactVersion: int, state: ArtifactState, files: FileMap, previous: Option<Integrity>)
    requires BuildArtifactIntegrity(h, projectId, artifactVersion, state, files, previous).Ok?
    requires previous.Some? ==> Versioned(previous.value)
    ensures var next := BuildArtifactIntegrity(h, projectId, artifactVersion, state, files, previous).value;
            Versioned(next) && RuleHolds(previous, next)
  {
    hide *;
    BuildMeans(h, projectId, artifactVersion, state, files, previous);
    AcceptableMeans(files);
    var next := BuildArtifactIntegrity(h, projectId, artifactVersion, state, files, previous).value;
    forall path ensures VersionRule(previous, next, path) && RowVersioned(next, path) {
      BuiltRuleAt(h, projectId, artifactVersion, state, files, previous, path);
    }
    VersionedMeans(next);
    RuleMeans(previous, next);
  }

  lemma VersionedMeans(integrity: Integrity)
    ensures Versioned(integrity) <==> forall path :: RowVersioned(integrity, path)
  {
    hide RowVersioned;
  }

  lemma RuleMeans(previous: Option<Integrity>, next: Integrity)
    ensures RuleHolds(previous, next) <==> forall path :: VersionRule(previous, next, path)
  {
    hide VersionRule;
  }

  lemma BuiltRuleAt(
    h: Hash, projectId: int, artifactVersion: int, state: ArtifactState, files: FileMap, previous: Option<Integrity>,
    path: string)
    requires BuildArtifactIntegrity(h, projectId, artifactVersion, state, files, previous).Ok? && Wellformed(files)
    requires previous.Some? ==> Versioned(previous.value)
    ensures var next := BuildArtifactIntegrity(h, projectId, artifactVersion, state, files, previous).value;
            VersionRule(previous, next, path) && RowVersioned(next, path)
  {
    hide LastRow, Acceptable, Wellformed, Normalized, BuildArtifactIntegrity, FileSha, ByteLength, NextVersion;
    BuiltRowOf(h, projectId, artifactVersion, state, files, previous, path);
    BoundOfOne(h, projectId, artifactVersion, state, files, previous, path);
    if path in Normalized(files) {
      assert previous.Some? ==> RowVersioned(previous.value, path);
      NextVersionIs(previous, path, FileSha(h, path, Normalized(files)[path]));
    }
  }

  /** What a record says of a path leaves room for its next version: one more if the content changes. */
  predicate RoomFor(h: Hash, previous: Option<Integrity>, path: string, content: string, bound: int) {
    var row := PreviousRow(previous, path);
    row.Some? ==>
      PreviousVersion(previous, path) <= if row.value.sha256 == FileSha(h, path, content) then bound else bound - 1
  }

  ghost predicate LeavesRoom(h: Hash, previous: Option<Integrity>, files: FileMap, bound: int) {
    forall path :: path in files ==> RoomFor(h, previous, path, files[path], bound)
  }

  lemma RoomForOne(h: Hash, previous: Option<Integrity>, path: string, content: string, bound: int)
    requires bound > 0
    ensures NextVersion(previous, path, FileSha(h, path, content)) <= bound <==>
              RoomFor(h, previous, path, content, bound)
  {
    hide LastRow, FileSha;
  }

  /** The version bound holds of a built record exactly when the previous record leaves room for the files. */
  lemma BoundExactly(
    h: Hash, projectId: int, artifactVersion: int, state: ArtifactState, files: FileMap, previous: Option<Integrity>)
    requires BuildArtifactIntegrity(h, projectId, artifactVersion, state, files, previous).Ok?
    ensures Acceptable(files)
    ensures var next := BuildArtifactIntegrity(h, projectId, artifactVersion, state, files, previous).value;
            VersionsWithin(next, artifactVersion) <==> LeavesRoom(h, previous, Normalized(files), artifactVersion)
  {
    hide LastRow, VersionOf, Acceptable, Wellformed, Normalized, BuildArtifactIntegrity, FileSha, NextVersion, RoomFor;
    BuildMeans(h, projectId, artifactVersion, state, files, previous);
    AcceptableMeans(files);
    var next := BuildArtifactIntegrity(h, projectId, artifactVersion, state, files, previous).value;
    var normalized := Normalized(files);
    if VersionsWithin(next, artifactVersion) {
      forall path | path in normalized ensures RoomFor(h, previous, path, normalized[path], artifactVersion) {
        BoundOfOne(h, projectId, artifactVersion, state, files, previous, path);
        RoomForOne(h, previous, path, normalized[path], artifactVersion);
      }
    }
    if LeavesRoom(h, previous, normalized, artifactVersion) {
      forall path | LastRow(next.files, path).Some?
        ensures VersionOf(next, path).Some? && 1 <= VersionOf(next, path).value <= artifactVersion
      {
        BoundOfOne(h, projectId, artifactVersion, state, files, previous, path);
        RoomForOne(h, previous, path, normalized[path], artifactVersion);
      }
    }
  }

  lemma {:induction false} LastRowThere(rows: seq<FileRow>, i: nat)
    requires i < |rows|
    ensures LastRow(rows, rows[i].path).Some?
  {
    var n := |rows| - 1;
    if rows[n].path != rows[i].path {
      LastRowThere(rows[..n], i);
    }
  }

  /** The row a verified record holds for a path: there is one for each file, with the hash of its content. */
  lemma VerifiedRowOf(
    h: Hash, files: FileMap, integrity: Integrity, projectId: int, artifactVersion: int,
    requiredState: Option<ArtifactState>, path: string)
    requires Verifies(h, files, integrity, projectId, artifactVersion, requiredState)
    requires Settled(files) && artifactVersion > 0
    ensures PreviousRow(Some(integrity), path).Some? <==> path in files
    ensures path in files ==>
              && PreviousRow(Some(integrity), path).value.sha256 == FileSha(h, path, files[path])
              && PreviousVersion(Some(integrity), path) > 0
  {
    hide LastRow, Verifies, Settled, FileSha, ByteLength;
    var rows := integrity.files;
    SettledDescribes(h, files, integrity, projectId, artifactVersion, requiredState);
    DescribedPaths(h, rows, files);
    var row := LastRow(rows, path);
    if path in files {
      var i :| 0 <= i < |rows| && PathsOf(rows)[i] == path;
      LastRowThere(rows, i);
    }
    if row.Some? {
      var j :| 0 <= j < |rows| && rows[j] == row.value;
    }
  }

  lemma SettledDescribes(
    h: Hash, files: FileMap, integrity: Integrity, projectId: int, artifactVersion: int,
    requiredState: Option<ArtifactState>)
    requires Verifies(h, files, integrity, projectId, artifactVersion, requiredState) && Settled(files)
    ensures Describes(h, integrity.files, files) && integrity.artifactVersion == artifactVersion
  {
    hide Describes, SortRows, SumBytes, RowsText, Acceptable, Normalized, FullyVersioned;
  }

  /** Different contents under one path have different hashes, unless the hash collides. */
  lemma FileShaBinds(h: Hash, path: string, c: string, d: string)
    requires FileSha(h, path, c) == FileSha(h, path, d)
    ensures c == d || HasCollision(h)
  {
    var x, y := path + (NUL + c), path + (NUL + d);
    EqualDigests(h, x, y);
    if x == y {
      assert c == x[|path| + 1..] && d == y[|path| + 1..];
    }
  }

  lemma BoundOfOne(
    h: Hash, projectId: int, artifactVersion: int, state: ArtifactState, files: FileMap, previous: Option<Integrity>,
    path: string)
    requires BuildArtifactIntegrity(h, projectId, artifactVersion, state, files, previous).Ok? && Wellformed(files)
    ensures var next := BuildArtifactIntegrity(h, projectId, artifactVersion, state, files, previous).value;
            var normalized := Normalized(files);
            && (LastRow(next.files, path).Some? <==> path in normalized)
            && (path in normalized ==>
                  VersionOf(next, path) == Some(NextVersion(previous, path, FileSha(h, path, normalized[path]))) &&
                  VersionOf(next, path).value >= 1)
  {
    hide LastRow, Acceptable, Wellformed, Normalized, BuildArtifactIntegrity, FileSha, ByteLength, NextVersion;
    BuiltRowOf(h, projectId, artifactVersion, state, files, previous, path);
    if path in Normalized(files) {
      NextVersionPositive(previous, path, FileSha(h, path, Normalized(files)[path]));
    }
  }

  // ----- what a record says, field by field -----

  /** The row that counts for a path is the last one. */
  predicate LastAt(rows: seq<FileRow>, i: nat, path: string) {
    i < |rows| && rows[i].path == path && forall j :: i < j < |rows| ==> rows[j].path != path
  }

  /**
   The version of a file: 1 for a new path, else that of the previous record, one more if the hash
   changed. A row of the older format counts with the version of its whole record.
   */
  ghost predicate FollowsVersion(previous: Option<Integrity>, path: string, sha: string, version: int) {
    && (previous.None? || (forall i :: 0 <= i < |previous.value.files| ==> previous.value.files[i].path != path) ==>
          version == 1)
    && (previous.Some? ==> forall i: nat :: LastAt(previous.value.files, i, path) ==>
          var row := previous.value.files[i];
          var before := if row.fileVersion.Some? then row.fileVersion.value else previous.value.artifactVersion;
          version == Max(1, if row.sha256 == sha then before else before + 1))
  }

  ghost predicate RowFor(h: Hash, row: FileRow, files: FileMap, previous: Option<Integrity>) {
    && row.path in files
    && row.sha256 == h(row.path + ("\0" + files[row.path]))
    && row.bytes == |Encode(files[row.path])|
    && row.fileVersion.Some? && FollowsVersion(previous, row.path, row.sha256, row.fileVersion.value)
  }

  /** The contents the rows are about, one after the other. */
  function TextOf(rows: seq<FileRow>, files: FileMap): string
    requires forall i :: 0 <= i < |rows| ==> rows[i].path in files
  {
    if rows == [] then "" else files[rows[0].path] + TextOf(rows[1..], files)
  }

  /** The record of these files: one row a file, by path, with sizes in UTF-8. */
  ghost predicate RecordFor(
    h: Hash, projectId: int, artifactVersion: int, state: ArtifactState, files: FileMap, previous: Option<Integrity>,
    r: Integrity)
  {
    && r.version == 1 && r.projectId == projectId && r.artifactVersion == artifactVersion && r.state == state
    && r.fileCount == |r.files| == |files| && SortedByPath(r.files)
    && (forall i :: 0 <= i < |r.files| ==> RowFor(h, r.files[i], files, previous))
    && r.totalBytes == |Encode(TextOf(r.files, files))|
    && r.sha256 == h(RowsText(r.files, true))
  }

  lemma {:induction false} LastIsLast(rows: seq<FileRow>, i: nat, path: string)
    requires LastAt(rows, i, path)
    ensures LastRow(rows, path) == Some(rows[i])
  {
    var n := |rows| - 1;
    if i < n {
      LastIsLast(rows[..n], i, path);
    }
  }

  lemma NextVersionFollows(previous: Option<Integrity>, path: string, sha: string)
    ensures FollowsVersion(previous, path, sha, NextVersion(previous, path, sha))
  {
    if previous.Some? {
      var rows := previous.value.files;
      forall i: nat | LastAt(rows, i, path) ensures LastRow(rows, path) == Some(rows[i]) {
        LastIsLast(rows, i, path);
      }
    }
  }

  lemma BuildRowFor(h: Hash, path: string, files: FileMap, previous: Option<Integrity>)
    requires path in files
    ensures RowFor(h, BuildRow(h, path, files[path], previous), files, previous)
  {
    hide FollowsVersion, NextVersion, Encode, ByteLength;
    NextVersionFollows(previous, path, FileSha(h, path, files[path]));
    ByteLengthIs(files[path]);
  }

  lemma {:induction false} SumIsText(rows: seq<FileRow>, files: FileMap)
    requires forall i :: 0 <= i < |rows| ==> rows[i].path in files && rows[i].bytes == |Encode(files[rows[i].path])|
    ensures SumBytes(rows) == |Encode(TextOf(rows, files))|
  {
    hide Encode;
    if rows == [] {
      EncodeNothing();
    } else {
      SumIsText(rows[1..], files);
      EncodeConcat(files[rows[0].path], TextOf(rows[1..], files));
    }
  }

  /** What is built is the record of the validated files, by the rules for each of its fields. */
  lemma BuiltRecord(
    h: Hash, projectId: int, artifactVersion: int, state: ArtifactState, files: FileMap, previous: Option<Integrity>)
    requires BuildArtifactIntegrity(h, projectId, artifactVersion, state, files, previous).Ok?
    ensures Acceptable(files)
    ensures RecordFor(h, projectId, artifactVersion, state, Normalized(files), previous,
                      BuildArtifactIntegrity(h, projectId, artifactVersion, state, files, previous).value)
  {
    hide *;
    BuildMeans(h, projectId, artifactVersion, state, files, previous);
    AcceptableMeans(files);
    BuiltRowsDescribe(h, Normalized(files), previous);
    RowsRecord(h, projectId, artifactVersion, state, Normalized(files), previous,
               BuildArtifactIntegrity(h, projectId, artifactVersion, state, files, previous).value);
  }

  lemma RowsRecord(
    h: Hash, projectId: int, artifactVersion: int, state: ArtifactState, files: FileMap, previous: Option<Integrity>,
    r: Integrity)
    requires r.version == 1 && r.projectId == projectId && r.artifactVersion == artifactVersion && r.state == state
    requires r.files == BuildRows(h, SortedKeys(files.Keys), files, previous) && SortedByPath(r.files)
    requires r.fileCount == |r.files| && r.totalBytes == SumBytes(r.files) && r.sha256 == h(RowsText(r.files, true))
    ensures RecordFor(h, projectId, artifactVersion, state, files, previous, r)
  {
    hide SortedByPath, SumBytes, RowsText, SortedKeys, BuildRow, RowFor, Encode, TextOf;
    var keys := SortedKeys(files.Keys);
    assert |files.Keys| == |files|;
    forall i | 0 <= i < |r.files| ensures RowFor(h, r.files[i], files, previous) {
      assert keys[i] in keys;
      BuildRowFor(h, keys[i], files, previous);
    }
    forall i | 0 <= i < |r.files|
      ensures r.files[i].path in files && r.files[i].bytes == |Encode(files[r.files[i].path])|
    {
      RowForMeans(h, r.files[i], files, previous);
    }
    SumIsText(r.files, files);
  }

  lemma RowForMeans(h: Hash, row: FileRow, files: FileMap, previous: Option<Integrity>)
    requires RowFor(h, row, files, previous)
    ensures row.path in files && row.bytes == |Encode(files[row.path])|
  {
    hide Encode, FollowsVersion;
  }

  /** Only one record verifies for given files and file versions, but for the order of its rows. */
  lemma VerifiedRecordUnique(
    h: Hash, files: FileMap, a: Integrity, b: Integrity, projectId: int, artifactVersion: int, state: ArtifactState)
    requires Verifies(h, files, a, projectId, artifactVersion, Some(state))
    requires Verifies(h, files, b, projectId, artifactVersion, Some(state))
    requires forall i, j :: 0 <= i < |a.files| && 0 <= j < |b.files| && a.files[i].path == b.files[j].path ==>
               a.files[i].fileVersion == b.files[j].fileVersion
    ensures a.(files := b.files) == b && multiset(a.files) == multiset(b.files)
    ensures forall i :: 0 <= i < |a.files| ==> VersionValid(a.files[i])
  {
    hide *;
    VerifiesOnlyIf(h, files, a, projectId, artifactVersion, Some(state));
    AcceptableMeans(files);
    VerifiesMeans(h, files, a, projectId, artifactVersion, Some(state));
    VerifiesMeans(h, files, b, projectId, artifactVersion, Some(state));
    DescribesAlike(h, a.files, b.files, Normalized(files));
    DescribesAlike(h, b.files, a.files, Normalized(files));
    SameRows(a.files, b.files);
    DescribedVersions(h, a.files, Normalized(files));
  }

  lemma DescribedVersions(h: Hash, rows: seq<FileRow>, files: FileMap)
    requires Describes(h, rows, files)
    ensures forall i :: 0 <= i < |rows| ==> VersionValid(rows[i])
    ensures DistinctRowPaths(rows)
  {
    hide RowMatches, VersionValid;
  }

  lemma DescribesAlike(h: Hash, a: seq<FileRow>, b: seq<FileRow>, files: FileMap)
    requires Describes(h, a, files) && Describes(h, b, files)
    requires forall i, j :: 0 <= i < |a| && 0 <= j < |b| && a[i].path == b[j].path ==>
               a[i].fileVersion == b[j].fileVersion
    ensures forall i :: 0 <= i < |a| ==> a[i] in b
    ensures DistinctRowPaths(a)
  {
    hide VersionValid, FileSha, ByteLength, PathsOf;
    DescribedPaths(h, b, files);
    forall i | 0 <= i < |a| ensures a[i] in b {
      assert a[i].path in files;
      var j :| 0 <= j < |b| && PathsOf(b)[j] == a[i].path;
      assert RowMatches(h, a[i], a[i].path, files[a[i].path]) && RowMatches(h, b[j], b[j].path, files[b[j].path]);
      assert a[i] == b[j];
    }
  }

  lemma SameRows(a: seq<FileRow>, b: seq<FileRow>)
    requires DistinctRowPaths(a) && DistinctRowPaths(b)
    requires forall i :: 0 <= i < |a| ==> a[i] in b
    requires forall j :: 0 <= j < |b| ==> b[j] in a
    ensures multiset(a) == multiset(b) && SortRows(a) == SortRows(b)
  {
    hide SortRows;
    forall row ensures multiset(a)[row] == multiset(b)[row] {
      if row in b {
        var j :| 0 <= j < |b| && b[j] == row;
        assert b[j] in a;
        var i :| 0 <= i < |a| && a[i] == row;
        OnceInMultiset(a, i);
        OnceInMultiset(b, j);
      } else {
        assert row !in a;
      }
    }
    PermutationSorts(a, b);
  }

  /** The hash of a file binds its path as well as its content. */
  lemma FileShaBindsPath(h: Hash, p: string, c: string, q: string, d: string)
    requires Without(p, '\0') && Without(q, '\0') && FileSha(h, p, c) == FileSha(h, q, d)
    ensures (p == q && c == d) || HasCollision(h)
  {
    EqualDigests(h, p + (NUL + c), q + (NUL + d));
    if p + (NUL + c) == q + (NUL + d) {
      FieldParses(p, q, c, d);
    }
  }

  // ----- the same operations on a file map -----

  ghost predicate Taken(entries: seq<(string, string)>, rest: FileMap, m: FileMap) {
    && DistinctPaths(entries)
    && (forall i :: 0 <= i < |entries| ==> entries[i].0 !in rest)
    && MapOf(entries) + rest == m
  }

  lemma TakeEntry(entries: seq<(string, string)>, rest: FileMap, m: FileMap, p: string)
    requires Taken(entries, rest, m) && p in rest
    ensures Taken(entries + [(p, rest[p])], rest - {p}, m)
  {
    var longer := entries + [(p, rest[p])];
    assert longer[..|longer| - 1] == entries;
    assert MapOf(longer) == MapOf(entries)[p := rest[p]];
    assert MapOf(longer) + (rest - {p}) == MapOf(entries) + rest;
  }

  lemma TakenEnds(entries: seq<(string, string)>, m: FileMap)
    ensures Taken([], m, m)
    ensures Taken(entries, map[], m) ==> DistinctPaths(entries) && MapOf(entries) == m
  {
    assert map[] + m == m;
    assert MapOf(entries) + map[] == MapOf(entries);
  }

  /** `Object.entries(files)`, in some order. */
  method EntriesOf(m: FileMap) returns (entries: seq<(string, string)>)
    ensures DistinctPaths(entries) && MapOf(entries) == m
  {
    hide *;
    entries := [];
    var rest := m;
    TakenEnds([], m);
    while rest != map[]
      invariant Taken(entries, rest, m)
      decreases |rest|
    {
      var p :| p in rest;
      TakeEntry(entries, rest, m, p);
      assert rest.Keys == (rest - {p}).Keys + {p};
      entries, rest := entries + [(p, rest[p])], rest - {p};
    }
    TakenEnds(entries, m);
  }

  method ValidateMap(m: FileMap) returns (r: Result<FileMap, ArtifactError>)
    ensures r.Ok? <==> Acceptable(m)
    ensures r.Ok? ==> r.value == Normalized(m)
  {
    var entries := EntriesOf(m);
    r := ValidateArtifactFiles(entries);
  }

  method BuildIntegrity(
    h: Hash, projectId: int, artifactVersion: int, state: ArtifactState, files: FileMap, previous: Option<Integrity>)
    returns (r: Result<Integrity, ArtifactError>)
    ensures r.Ok? <==> BuildArtifactIntegrity(h, projectId, artifactVersion, state, files, previous).Ok?
    ensures r.Ok? ==> r == BuildArtifactIntegrity(h, projectId, artifactVersion, state, files, previous)
    ensures r.Ok? ==> Acceptable(files)
    ensures r.Ok? ==> RecordFor(h, projectId, artifactVersion, state, Normalized(files), previous, r.value)
  {
    hide RecordFor, Acceptable, Normalized, SortedKeys, BuildRows, RowsText, SumBytes;
    if projectId <= 0 {
      return Err(BadProjectId);
    }
    if artifactVersion <= 0 {
      return Err(BadArtifactVersion);
    }
    var validated := ValidateMap(files);
    if validated.Err? {
      return Err(validated.error);
    }
    var keys := SortKeys(validated.value.Keys);
    var rows := BuildRows(h, keys, validated.value, previous);
    BuiltRecord(h, projectId, artifactVersion, state, files, previous);
    return Ok(Integrity(1, projectId, artifactVersion, state, |rows|, SumBytes(rows), h(RowsText(rows, true)), rows));
  }

  method VerifyMap(
    h: Hash, files: FileMap, integrity: Integrity, projectId: int, artifactVersion: int, requiredState: ArtifactState)
    returns (ok: bool)
    ensures ok <==> Verifies(h, files, integrity, projectId, artifactVersion, Some(requiredState))
  {
    hide Verifies;
    var entries := EntriesOf(files);
    var r := AssertArtifactIntegrity(h, entries, Some(integrity), projectId, artifactVersion, Some(requiredState));
    ok := r.Ok?;
  }

  // ----- validating twice -----

  /** What a validation returns; None when it throws. */
  ghost function Validated(m: FileMap): Option<FileMap> {
    if Acceptable(m) then Some(Normalized(m)) else None
  }

  lemma ValidatedMeans(m: FileMap)
    ensures Validated(m).Some? <==> Acceptable(m)
    ensures Acceptable(m) ==> Wellformed(m) && Validated(m) == Some(Normalized(m))
  {
    hide Wellformed, Normalized;
  }

  /** Files that validation leaves as they are. */
  ghost predicate Settled(m: FileMap) {
    Acceptable(m) && Normalized(m) == m
  }

  /** Once the result of a validation validates again, further validation changes nothing. */
  lemma ValidTwiceSettled(m: FileMap)
    requires Acceptable(m) && Acceptable(Normalized(m))
    ensures Settled(Normalized(m))
  {
    hide SafePath, Inherited, TotalBytes;
    var n := Normalized(m);
    forall p | p in n ensures SafePath(p) == Ok(p) {
      var raw := RawOf(m, p);
      SafePathAgain(raw);
    }
    SettledPaths(n);
  }

  lemma SettledPaths(n: FileMap)
    requires Wellformed(n) && forall p :: p in n ==> SafePath(p) == Ok(p)
    ensures Normalized(n) == n
  {
    hide SafePath, Inherited, TotalBytes;
    forall p ensures p in Normalized(n) <==> p in n {
      if p in n {
        assert SafePath(p).value in Normalized(n);
      }
    }
    forall p | p in n ensures Normalized(n)[p] == n[p] {
      assert Normalized(n)[SafePath(p).value] == n[p];
    }
  }

  lemma {:induction false} SizesKept(m: FileMap)
    requires Wellformed(m)
    ensures TotalBytes(Normalized(m)) == TotalBytes(m) && |Normalized(m)| == |m|
    decreases |m|
  {
    hide SafePath, Inherited, TotalBytes, ByteLength, Wellformed, Normalized;
    if m == map[] {
      EmptyMap();
    } else {
      var p :| p in m;
      var rest := m - {p};
      assert m == rest[p := m[p]] && m.Keys == rest.Keys + {p};
      DropWellformed(rest, p, m[p]);
      SizesKept(rest);
      NormalizedKeys(rest, p, m[p]);
      NewName(rest, p, m[p]);
      var n := SafePath(p).value;
      TotalWithout(m, p);
      TotalWithout(Normalized(m), n);
      assert Normalized(m) - {n} == Normalized(rest);
    }
  }

  lemma NewName(m: FileMap, p: string, content: string)
    requires p !in m && Wellformed(m) && Wellformed(m[p := content])
    ensures SafePath(p).Ok? && SafePath(p).value !in Normalized(m)
  {
    hide SafePath, Inherited, TotalBytes, ByteLength, Wellformed, Normalized;
    var m' := m[p := content];
    PathOk(m', p);
    if SafePath(p).value in Normalized(m) {
      var q := RawOf(m, SafePath(p).value);
      DistinctNames(m', p, q);
    }
  }

  /** No path of the map is one that a second validation refuses. */
  ghost predicate Repeatable(m: FileMap) {
    forall p :: p in m ==> !Unrepeatable(p)
  }

  lemma NormalizedOk(m: FileMap, p: string)
    requires Wellformed(m) && p in m
    ensures SafePath(p).Ok? && SafePath(p).value in Normalized(m)
    ensures SafePath(SafePath(p).value) == SafePath(p) <==> !Unrepeatable(p)
    ensures SafePath(SafePath(p).value).Ok? ==> SafePath(SafePath(p).value) == SafePath(p)
  {
    hide SafePath, TotalBytes, Inherited, ByteLength, Normalized, Unrepeatable, DrivePath;
    SafePathAgainInput(p);
    SafePathAgain(p);
  }

  lemma RepeatableWellformed(m: FileMap)
    requires Wellformed(m) && Repeatable(m)
    ensures Wellformed(Normalized(m)) && forall n :: n in Normalized(m) ==> SafePath(n) == Ok(n)
  {
    hide SafePath, TotalBytes, Inherited, ByteLength, Unrepeatable;
    SizesKept(m);
    var normalized := Normalized(m);
    forall n | n in normalized
      ensures SafePath(n) == Ok(n) && !Inherited(n) && ByteLength(normalized[n]) <= MAX_ARTIFACT_FILE_BYTES
    {
      var p := RawOf(m, n);
      NormalizedOk(m, p);
      assert normalized[SafePath(p).value] == m[p];
    }
  }

  /**
   Validating the result of a validation changes nothing exactly when no path is `././` or `./` before
   a drive path; with such a path the second validation fails.
   */
  lemma ValidatedAgain(m: FileMap)
    requires Acceptable(m)
    ensures Validated(Normalized(m)) == if Repeatable(m) then Some(Normalized(m)) else None
  {
    hide Wellformed, Normalized, Unrepeatable;
    AcceptableMeans(m);
    AcceptableMeans(Normalized(m));
    SizesKept(m);
    if Repeatable(m) {
      RepeatableWellformed(m);
      SettledPaths(Normalized(m));
    } else {
      var p :| p in m && Unrepeatable(p);
      NormalizedOk(m, p);
      NotWellformed(Normalized(m), SafePath(p).value);
    }
  }

  lemma NotWellformed(m: FileMap, p: string)
    requires p in m && SafePath(p).Err?
    ensures !Wellformed(m)
  {
    hide SafePath, TotalBytes, Inherited, ByteLength;
  }

  /** Adding to settled files, or replacing one of them, changes one entry of what validation returns. */
  lemma MergeSettled(m: FileMap, path: string, content: string)
    requires Acceptable(m) && Normalized(m) == m && Acceptable(m[path := content])
    ensures SafePath(path).Ok?
    ensures Normalized(m[path := content]) == m[SafePath(path).value := content]
    ensures if path in m then SafePath(path).value == path else SafePath(path).value !in m
  {
    hide *;
    AcceptableMeans(m);
    AcceptableMeans(m[path := content]);
    if path in m {
      SettledPath(m, path);
      SamePathsNormalized(m, path, content);
    } else {
      NormalizedKeys(m, path, content);
      NewName(m, path, content);
    }
  }

  /** A path of settled files is its own normalization. */
  lemma SettledPath(m: FileMap, path: string)
    requires Wellformed(m) && Normalized(m) == m && path in m
    ensures SafePath(path) == Ok(path)
  {
    hide *;
    NormalizedOk(m, path);
    var raw := RawOf(m, path);
    NormalizedOk(m, raw);
  }

  lemma SamePathsNormalized(m: FileMap, path: string, content: string)
    requires Wellformed(m) && Normalized(m) == m && path in m && Wellformed(m[path := content])
    ensures Normalized(m[path := content]) == m[path := content]
  {
    hide SafePath, Inherited, TotalBytes, ByteLength, Wellformed, Normalized;
    var changed := m[path := content];
    forall p | p in changed ensures SafePath(p) == Ok(p) {
      SettledPath(m, p);
    }
    SettledPaths(changed);
  }

  /** A single small file under an accepted path. */
  lemma OneFile(p: string, content: string)
    requires SafePath(p).Ok? && !Inherited(SafePath(p).value) && ByteLength(content) <= MAX_ARTIFACT_FILE_BYTES
    ensures Validated(map[p := content]) == Some(map[SafePath(p).value := content])
  {
    hide SafePath, Inherited, TotalBytes, ByteLength, Wellformed, Normalized;
    EmptyMap();
    NormalizedStep(map[], p, content);
    assert map[][p := content] == map[p := content];
    AcceptableMeans(map[p := content]);
    ValidatedMeans(map[p := content]);
  }

  /** Inputs that fail it: both are validated, and their results are not. */
  lemma ValidTwiceFails()
    ensures Validated(map["././" := ""]) == Some(map["./" := ""]) && Validated(map["./" := ""]) == None
    ensures Validated(map["./C:/x" := ""]) == Some(map["C:/x" := ""]) && Validated(map["C:/x" := ""]) == None
  {
    hide SafePath, Wellformed, Normalized;
    SafePathTwiceFails();
    ShortNotInherited("./");
    ShortNotInherited("C:/x");
    OneFile("././", "");
    OneFile("./C:/x", "");
    NotWellformed(map["./" := ""], "./");
    NotWellformed(map["C:/x" := ""], "C:/x");
  }

  lemma ShortNotInherited(name: string)
    requires |name| < 7
    ensures !Inherited(name)
  {
    assert forall n :: n in INHERITED_NAMES ==> |n| >= 7;
  }
}
