/**
 The artifact tables of src/db.ts: working artifacts of projects and their build snapshots.
 Every operation runs under the project's row lock and advisory lock, so it is one step.
 */
module SnapshotStore {
  import opened Wrappers
  import opened Hashing
  import opened ArtifactIntegrity
  import opened ArtifactPaths

  /** A requirement manifest with the outcome of `assertMustHaveRequirementsResolved` on it. */
  datatype Manifest = Manifest(text: string, resolved: bool)

  datatype Project = Project(
    userId: int, workingVersion: nat, workingIntegrity: Option<Integrity>, generatedFiles: Option<FileMap>,
    manifest: Option<Manifest>)

  datatype Snapshot = Snapshot(
    id: int, projectId: int, userId: int, version: int, files: FileMap, fileCount: int, manifest: Manifest,
    integrity: Integrity, isCurrent: bool)

  datatype Request = Request(
    projectId: int, userId: int, version: int, files: FileMap, fileCount: int, manifest: Manifest)

  datatype Store = Store(projects: map<int, Project>, rows: seq<Snapshot>, nextId: int)

  datatype Operation =
    | NewProject(projectId: int, userId: int)
    | UpdateFiles(projectId: int, files: FileMap)
    | Create(request: Request)
    | CreateAndActivate(request: Request)
    | MarkCurrent(id: int, projectId: int)
    | Append(projectId: int, path: string, content: string)

  // ----- queries -----

  function FindRow(rows: seq<Snapshot>, projectId: int, id: int): (r: Option<Snapshot>)
    ensures r.Some? ==> r.value in rows && r.value.projectId == projectId && r.value.id == id
    ensures r.None? ==> forall row :: row in rows ==> row.projectId != projectId || row.id != id
  {
    if rows == [] then None
    else if rows[0].projectId == projectId && rows[0].id == id then Some(rows[0])
    else FindRow(rows[1..], projectId, id)
  }

  function FindCurrent(rows: seq<Snapshot>, projectId: int): (r: Option<Snapshot>)
    ensures r.Some? ==> r.value in rows && r.value.projectId == projectId && r.value.isCurrent
    ensures r.None? ==> forall row :: row in rows ==> row.projectId != projectId || !row.isCurrent
  {
    if rows == [] then None
    else if rows[0].projectId == projectId && rows[0].isCurrent then Some(rows[0])
    else FindCurrent(rows[1..], projectId)
  }

  predicate HasVersion(rows: seq<Snapshot>, projectId: int, version: int) {
    exists i :: 0 <= i < |rows| && rows[i].projectId == projectId && rows[i].version == version
  }

  function Greater(a: int, b: int): int {
    if a >= b then a else b
  }

  /** The largest version of the project's snapshots, or 0 without any. */
  function MaxVersion(rows: seq<Snapshot>, projectId: int): (v: int)
    ensures forall i :: 0 <= i < |rows| && rows[i].projectId == projectId ==> rows[i].version <= v
    ensures v >= 0
  {
    if rows == [] then 0
    else
      var v := MaxVersion(rows[..|rows| - 1], projectId);
      if rows[|rows| - 1].projectId == projectId then Greater(v, rows[|rows| - 1].version) else v
  }

  // ----- statements -----

  /** `UPDATE ... SET is_current = false WHERE project_id = ...`. */
  function ClearCurrent(rows: seq<Snapshot>, projectId: int): (r: seq<Snapshot>)
    ensures |r| == |rows|
    ensures forall i :: 0 <= i < |r| ==>
              r[i] == if rows[i].projectId == projectId then rows[i].(isCurrent := false) else rows[i]
  {
    if rows == [] then []
    else
      var last := rows[|rows| - 1];
      ClearCurrent(rows[..|rows| - 1], projectId)
      + [if last.projectId == projectId then last.(isCurrent := false) else last]
  }

  /** `UPDATE ... SET is_current = true WHERE id = ...`. */
  function SetCurrent(rows: seq<Snapshot>, id: int): (r: seq<Snapshot>)
    ensures |r| == |rows|
    ensures forall i :: 0 <= i < |r| ==> r[i] == if rows[i].id == id then rows[i].(isCurrent := true) else rows[i]
  {
    if rows == [] then []
    else
      var last := rows[|rows| - 1];
      SetCurrent(rows[..|rows| - 1], id) + [if last.id == id then last.(isCurrent := true) else last]
  }

  // ----- what each transaction commits; None when it throws -----

  ghost function UpdatedProject(h: Hash, projectId: int, p: Project, files: FileMap): Option<Project> {
    var normalized := Validated(files);
    if normalized.None? then None
    else
      var built := BuildArtifactIntegrity(
        h, projectId, p.workingVersion + 1, Working, normalized.value, p.workingIntegrity);
      if built.Err? then None
      else Some(p.(generatedFiles := normalized, workingVersion := p.workingVersion + 1,
                   workingIntegrity := Some(built.value)))
  }

  ghost function NewRow(h: Hash, st: Store, q: Request): Option<Snapshot> {
    var files := Validated(q.files);
    if !q.manifest.resolved || files.None? || q.fileCount != |files.value| then None
    else if q.projectId !in st.projects || st.projects[q.projectId].userId != q.userId then None
    else if HasVersion(st.rows, q.projectId, q.version) then None
    else
      var built := BuildArtifactIntegrity(
        h, q.projectId, q.version, Final, files.value, st.projects[q.projectId].workingIntegrity);
      if built.Err? then None
      else Some(Snapshot(st.nextId, q.projectId, q.userId, q.version, files.value, built.value.fileCount, q.manifest,
                         built.value, false))
  }

  /** The stored files of a snapshot when they validate and match its integrity record. */
  ghost function VerifiedFiles(h: Hash, row: Snapshot): Option<FileMap> {
    var files := Validated(row.files);
    if files.None? || !Verifies(h, files.value, row.integrity, row.projectId, row.version, Some(Final)) then None
    else files
  }

  /** The row a rollback finds fit to become current. */
  ghost function MarkedRow(h: Hash, st: Store, id: int, projectId: int): Option<Snapshot> {
    var row := FindRow(st.rows, projectId, id);
    if row.None? || !row.value.manifest.resolved || VerifiedFiles(h, row.value).None? then None else row
  }

  /** The current artifact as `getCurrentArtifact` hands it out. */
  datatype Artifact = Artifact(snapshotId: int, version: int, files: FileMap, integrity: Integrity)

  datatype Reading = NoSnapshot | Broken | Found(artifact: Artifact)

  ghost function CurrentArtifact(h: Hash, st: Store, projectId: int): Reading {
    var row := FindCurrent(st.rows, projectId);
    if row.None? then NoSnapshot
    else
      var files := VerifiedFiles(h, row.value);
      if files.None? then Broken
      else Found(Artifact(row.value.id, row.value.version, files.value, row.value.integrity))
  }

  /** The files of the current snapshot with one of them added or replaced. */
  ghost function MergedFiles(h: Hash, st: Store, projectId: int, path: string, content: string): Option<FileMap> {
    var reading := CurrentArtifact(h, st, projectId);
    if reading.Found? then Validated(reading.artifact.files[path := content]) else None
  }

  /** The revision and the project an append commits. */
  ghost function Appended(h: Hash, st: Store, projectId: int, path: string, content: string)
    : Option<(Snapshot, Project)>
  {
    var current := FindCurrent(st.rows, projectId);
    var files := MergedFiles(h, st, projectId, path, content);
    if projectId !in st.projects || current.None? || files.None? || !current.value.manifest.resolved then None
    else
      var p, row := st.projects[projectId], current.value;
      var version := MaxVersion(st.rows, projectId) + 1;
      var built := BuildArtifactIntegrity(h, projectId, version, Final, files.value, Some(row.integrity));
      var previous := if p.workingIntegrity.Some? then p.workingIntegrity else Some(row.integrity);
      var working := BuildArtifactIntegrity(h, projectId, p.workingVersion + 1, Working, files.value, previous);
      if built.Err? || working.Err? then None
      else Some((
        Snapshot(st.nextId, projectId, p.userId, version, files.value, built.value.fileCount, row.manifest,
                 built.value, false),
        p.(generatedFiles := files, workingVersion := p.workingVersion + 1,
           workingIntegrity := Some(working.value), manifest := Some(row.manifest))))
  }

  /** Exactly the given snapshot is current in its project; other projects are untouched. */
  function Activate(rows: seq<Snapshot>, projectId: int, id: int): seq<Snapshot> {
    SetCurrent(ClearCurrent(rows, projectId), id)
  }

  /** `UPDATE projects SET requirement_manifest = ... WHERE id = ...`. */
  function WithManifest(projects: map<int, Project>, projectId: int, m: Manifest): map<int, Project> {
    if projectId in projects then projects[projectId := projects[projectId].(manifest := Some(m))] else projects
  }

  ghost function Step(h: Hash, st: Store, op: Operation): Store {
    match op
    case NewProject(projectId, userId) =>
      if projectId in st.projects then st
      else st.(projects := st.projects[projectId := Project(userId, 0, None, None, None)])
    case UpdateFiles(projectId, files) =>
      if projectId !in st.projects then st
      else
        var p := UpdatedProject(h, projectId, st.projects[projectId], files);
        if p.None? then st else st.(projects := st.projects[projectId := p.value])
    case Create(q) =>
      var row := NewRow(h, st, q);
      if row.None? then st else st.(rows := st.rows + [row.value], nextId := st.nextId + 1)
    case CreateAndActivate(q) =>
      var row := NewRow(h, st, q);
      if row.None? then st
      else Store(
        st.projects[q.projectId := st.projects[q.projectId].(manifest := Some(q.manifest))],
        Activate(st.rows + [row.value], q.projectId, row.value.id), st.nextId + 1)
    case MarkCurrent(id, projectId) =>
      var row := MarkedRow(h, st, id, projectId);
      if row.None? then st
      else st.(rows := Activate(st.rows, projectId, id),
               projects := WithManifest(st.projects, projectId, row.value.manifest))
    case Append(projectId, path, content) =>
      var result := Appended(h, st, projectId, path, content);
      if result.None? then st
      else Store(
        st.projects[projectId := result.value.1],
        Activate(st.rows + [result.value.0], projectId, st.nextId), st.nextId + 1)
  }

  ghost function Run(h: Hash, st: Store, ops: seq<Operation>): Store {
    if ops == [] then st else Step(h, Run(h, st, ops[..|ops| - 1]), ops[|ops| - 1])
  }

  const EMPTY := Store(map[], [], 1)

  // ----- the invariant -----

  ghost predicate RowOk(h: Hash, row: Snapshot) {
    && Settled(row.files) && row.fileCount == |row.files| && row.version > 0 && row.manifest.resolved
    && Verifies(h, row.files, row.integrity, row.projectId, row.version, Some(Final))
  }

  ghost predicate ProjectOk(h: Hash, projectId: int, p: Project) {
    && (p.workingIntegrity.Some? <==> p.generatedFiles.Some?)
    && (p.workingIntegrity.Some? ==>
          Settled(p.generatedFiles.value) &&
          Verifies(h, p.generatedFiles.value, p.workingIntegrity.value, projectId, p.workingVersion, Some(Working)))
  }

  ghost predicate AllRowsOk(h: Hash, rows: seq<Snapshot>) {
    forall i :: 0 <= i < |rows| ==> RowOk(h, rows[i])
  }

  predicate Placed(rows: seq<Snapshot>, projects: set<int>, nextId: int) {
    && (forall i :: 0 <= i < |rows| ==> rows[i].projectId in projects && rows[i].id < nextId)
    && (forall i, j :: 0 <= i < j < |rows| ==> rows[i].id != rows[j].id)
  }

  /** No two snapshots of a project share a version or are both current. */
  predicate Exclusive(rows: seq<Snapshot>) {
    forall i, j :: 0 <= i < j < |rows| && rows[i].projectId == rows[j].projectId ==>
      rows[i].version != rows[j].version && !(rows[i].isCurrent && rows[j].isCurrent)
  }

  ghost predicate AllProjectsOk(h: Hash, projects: map<int, Project>) {
    forall p :: p in projects ==> ProjectOk(h, p, projects[p])
  }

  ghost predicate Valid(h: Hash, st: Store) {
    && AllRowsOk(h, st.rows) && Placed(st.rows, st.projects.Keys, st.nextId) && Exclusive(st.rows)
    && AllProjectsOk(h, st.projects)
  }

  lemma BuiltVerifies(
    h: Hash, projectId: int, version: int, state: ArtifactState, m: FileMap, previous: Option<Integrity>)
    requires Acceptable(m)
    requires BuildArtifactIntegrity(h, projectId, version, state, Normalized(m), previous).Ok?
    ensures var files := Normalized(m);
            var built := BuildArtifactIntegrity(h, projectId, version, state, files, previous).value;
            && Settled(files) && version > 0
            && Verifies(h, files, built, projectId, version, Some(state))
            && built.fileCount == |files|
  {
    hide *;
    AcceptableMeans(m);
    BuildMeans(h, projectId, version, state, Normalized(m), previous);
    ValidTwiceSettled(m);
    BuildThenVerify(h, projectId, version, state, Normalized(m), previous);
    var built := BuildArtifactIntegrity(h, projectId, version, state, Normalized(m), previous).value;
    AcceptableMeans(Normalized(m));
    VerifiesMeans(h, Normalized(m), built, projectId, version, Some(state));
    SettledMeans(Normalized(m));
  }

  lemma SettledMeans(m: FileMap)
    ensures Settled(m) <==> Acceptable(m) && Normalized(m) == m
  {
    hide Acceptable, Normalized;
  }

  lemma NewRowOk(h: Hash, st: Store, q: Request)
    requires NewRow(h, st, q).Some?
    ensures var row := NewRow(h, st, q).value;
            && RowOk(h, row) && row.id == st.nextId && !row.isCurrent
            && row.projectId == q.projectId && q.projectId in st.projects && row.version == q.version
            && Some(row.files) == Validated(q.files)
            && !HasVersion(st.rows, q.projectId, q.version)
  {
    hide Settled, Verifies, BuildArtifactIntegrity, HasVersion, Validated, Acceptable, Normalized;
    ValidatedMeans(q.files);
    BuiltVerifies(h, q.projectId, q.version, Final, q.files, st.projects[q.projectId].workingIntegrity);
  }

  lemma AppendedOk(h: Hash, st: Store, projectId: int, path: string, content: string)
    requires Appended(h, st, projectId, path, content).Some?
    ensures var result := Appended(h, st, projectId, path, content).value;
            && RowOk(h, result.0) && result.0.id == st.nextId && !result.0.isCurrent
            && result.0.projectId == projectId && projectId in st.projects
            && result.0.version == MaxVersion(st.rows, projectId) + 1
            && ProjectOk(h, projectId, result.1)
            && Some(result.0.files) == MergedFiles(h, st, projectId, path, content)
  {
    hide Settled, Verifies, BuildArtifactIntegrity, MaxVersion, Validated, Acceptable, Normalized, FindCurrent,
      CurrentArtifact;
    var row := FindCurrent(st.rows, projectId).value;
    var merged := CurrentArtifact(h, st, projectId).artifact.files[path := content];
    var p := st.projects[projectId];
    var previous := if p.workingIntegrity.Some? then p.workingIntegrity else Some(row.integrity);
    ValidatedMeans(merged);
    BuiltVerifies(h, projectId, MaxVersion(st.rows, projectId) + 1, Final, merged, Some(row.integrity));
    BuiltVerifies(h, projectId, p.workingVersion + 1, Working, merged, previous);
  }

  lemma UpdatedOk(h: Hash, projectId: int, p: Project, files: FileMap)
    requires UpdatedProject(h, projectId, p, files).Some?
    ensures ProjectOk(h, projectId, UpdatedProject(h, projectId, p, files).value)
  {
    hide *;
    UpdatedMeans(h, projectId, p, files);
    ValidatedMeans(files);
    BuiltVerifies(h, projectId, p.workingVersion + 1, Working, files, p.workingIntegrity);
    WorkingOk(h, projectId, UpdatedProject(h, projectId, p, files).value);
  }

  lemma UpdatedMeans(h: Hash, projectId: int, p: Project, files: FileMap)
    requires UpdatedProject(h, projectId, p, files).Some?
    ensures Acceptable(files) && Validated(files) == Some(Normalized(files))
    ensures var built := BuildArtifactIntegrity(
              h, projectId, p.workingVersion + 1, Working, Normalized(files), p.workingIntegrity);
            && built.Ok?
            && UpdatedProject(h, projectId, p, files).value ==
               p.(generatedFiles := Some(Normalized(files)), workingVersion := p.workingVersion + 1,
                  workingIntegrity := Some(built.value))
  {
    hide BuildArtifactIntegrity, Acceptable, Normalized;
  }

  lemma WorkingOk(h: Hash, projectId: int, p: Project)
    requires p.workingIntegrity.Some? && p.generatedFiles.Some? && Settled(p.generatedFiles.value)
    requires Verifies(h, p.generatedFiles.value, p.workingIntegrity.value, projectId, p.workingVersion, Some(Working))
    ensures ProjectOk(h, projectId, p)
  {
    hide Settled, Verifies;
  }

  lemma InsertedOk(h: Hash, rows: seq<Snapshot>, projects: set<int>, nextId: int, row: Snapshot)
    requires AllRowsOk(h, rows) && Placed(rows, projects, nextId) && Exclusive(rows)
    requires RowOk(h, row) && row.projectId in projects && row.id == nextId && !row.isCurrent
    requires !HasVersion(rows, row.projectId, row.version)
    ensures AllRowsOk(h, rows + [row]) && Placed(rows + [row], projects, nextId + 1) && Exclusive(rows + [row])
  {
    hide RowOk;
  }

  /** What activating does to each row. */
  lemma ActivatedRows(rows: seq<Snapshot>, projects: set<int>, nextId: int, projectId: int, k: nat)
    requires Placed(rows, projects, nextId) && k < |rows| && rows[k].projectId == projectId
    ensures var active := Activate(rows, projectId, rows[k].id);
            |active| == |rows| &&
            forall i :: 0 <= i < |rows| ==>
              active[i] == rows[i].(isCurrent := if rows[i].projectId == projectId then i == k else rows[i].isCurrent)
  {
  }

  lemma ActivatedOk(h: Hash, rows: seq<Snapshot>, projects: set<int>, nextId: int, projectId: int, k: nat)
    requires AllRowsOk(h, rows) && Placed(rows, projects, nextId) && Exclusive(rows)
    requires k < |rows| && rows[k].projectId == projectId
    ensures var active := Activate(rows, projectId, rows[k].id);
            AllRowsOk(h, active) && Placed(active, projects, nextId) && Exclusive(active)
  {
    hide Activate, Settled, Verifies;
    ActivatedRows(rows, projects, nextId, projectId, k);
    var active := Activate(rows, projectId, rows[k].id);
    forall i | 0 <= i < |rows| ensures RowOk(h, active[i]) {
      assert RowOk(h, rows[i]);
    }
  }

  lemma FoundAt(rows: seq<Snapshot>, projectId: int, id: int) returns (k: nat)
    requires FindRow(rows, projectId, id).Some?
    ensures k < |rows| && rows[k] == FindRow(rows, projectId, id).value
    ensures rows[k].projectId == projectId && rows[k].id == id
  {
    k :| 0 <= k < |rows| && rows[k] == FindRow(rows, projectId, id).value;
  }

  lemma NoVersionAboveMax(rows: seq<Snapshot>, projectId: int)
    ensures !HasVersion(rows, projectId, MaxVersion(rows, projectId) + 1)
  {
    hide MaxVersion;
  }

  lemma ProjectsOkUpdate(h: Hash, projects: map<int, Project>, projectId: int, p: Project)
    requires AllProjectsOk(h, projects) && ProjectOk(h, projectId, p)
    ensures AllProjectsOk(h, projects[projectId := p])
  {
    hide ProjectOk;
  }

  lemma ManifestOnly(h: Hash, projectId: int, p: Project, m: Manifest)
    requires ProjectOk(h, projectId, p)
    ensures ProjectOk(h, projectId, p.(manifest := Some(m)))
  {
    hide Settled, Verifies;
  }

  /** Every operation, successful or not, keeps the store valid. */
  lemma StepValid(h: Hash, st: Store, op: Operation)
    requires Valid(h, st)
    ensures Valid(h, Step(h, st, op))
  {
    hide AllRowsOk, Placed, Exclusive, AllProjectsOk, RowOk, ProjectOk, Activate, NewRow, MarkedRow, Appended,
      UpdatedProject;
    match op {
      case NewProject(projectId, userId) =>
        if projectId !in st.projects {
          NewProjectValid(h, st, projectId, userId);
        }
      case UpdateFiles(projectId, files) =>
        if projectId in st.projects && UpdatedProject(h, projectId, st.projects[projectId], files).Some? {
          UpdateValid(h, st, projectId, files);
        }
      case Create(q) =>
        if NewRow(h, st, q).Some? {
          CreateValid(h, st, q);
        }
      case CreateAndActivate(q) =>
        if NewRow(h, st, q).Some? {
          CreateValid(h, st, q);
        }
      case MarkCurrent(id, projectId) =>
        if MarkedRow(h, st, id, projectId).Some? {
          MarkedProject(h, st, id, projectId);
          MarkValid(h, st, id, projectId);
        }
      case Append(projectId, path, content) =>
        if Appended(h, st, projectId, path, content).Some? {
          AppendValid(h, st, projectId, path, content);
        }
    }
  }

  lemma NewProjectValid(h: Hash, st: Store, projectId: int, userId: int)
    requires Valid(h, st) && projectId !in st.projects
    ensures Valid(h, st.(projects := st.projects[projectId := Project(userId, 0, None, None, None)]))
  {
    hide RowOk, AllRowsOk, Exclusive, Verifies, Settled;
    var p := Project(userId, 0, None, None, None);
    assert ProjectOk(h, projectId, p);
    ProjectsOkUpdate(h, st.projects, projectId, p);
  }

  lemma SameKeys(st: Store, projectId: int, p: Project)
    requires projectId in st.projects
    ensures st.projects[projectId := p].Keys == st.projects.Keys
  {
  }

  lemma UpdateValid(h: Hash, st: Store, projectId: int, files: FileMap)
    requires Valid(h, st) && projectId in st.projects
    requires UpdatedProject(h, projectId, st.projects[projectId], files).Some?
    ensures var p := UpdatedProject(h, projectId, st.projects[projectId], files).value;
            Valid(h, st.(projects := st.projects[projectId := p]))
  {
    hide AllRowsOk, Placed, Exclusive, AllProjectsOk, ProjectOk, UpdatedProject;
    var p := UpdatedProject(h, projectId, st.projects[projectId], files).value;
    UpdatedOk(h, projectId, st.projects[projectId], files);
    ProjectsOkUpdate(h, st.projects, projectId, p);
    SameKeys(st, projectId, p);
  }

  lemma LastIndex(rows: seq<Snapshot>, row: Snapshot)
    ensures (rows + [row])[|rows|] == row
  {
  }

  lemma CreateValid(h: Hash, st: Store, q: Request)
    requires Valid(h, st) && NewRow(h, st, q).Some?
    ensures q.projectId in st.projects
    ensures var row := NewRow(h, st, q).value;
            var p := st.projects[q.projectId].(manifest := Some(q.manifest));
            && Valid(h, st.(rows := st.rows + [row], nextId := st.nextId + 1))
            && Valid(h, Store(st.projects[q.projectId := p], Activate(st.rows + [row], q.projectId, row.id),
                              st.nextId + 1))
  {
    hide *;
    ValidMeans(h, st);
    NewRowOk(h, st, q);
    var row := NewRow(h, st, q).value;
    var p := st.projects[q.projectId].(manifest := Some(q.manifest));
    var active := Store(st.projects[q.projectId := p], Activate(st.rows + [row], q.projectId, row.id), st.nextId + 1);
    InsertedOk(h, st.rows, st.projects.Keys, st.nextId, row);
    LastIndex(st.rows, row);
    ActivatedOk(h, st.rows + [row], st.projects.Keys, st.nextId + 1, q.projectId, |st.rows|);
    ProjectOf(h, st.projects, q.projectId);
    ManifestOnly(h, q.projectId, st.projects[q.projectId], q.manifest);
    ProjectsOkUpdate(h, st.projects, q.projectId, p);
    SameKeys(st, q.projectId, p);
    ValidMeans(h, st.(rows := st.rows + [row], nextId := st.nextId + 1));
    ValidMeans(h, active);
  }

  lemma ProjectOf(h: Hash, projects: map<int, Project>, projectId: int)
    requires AllProjectsOk(h, projects) && projectId in projects
    ensures ProjectOk(h, projectId, projects[projectId])
  {
    hide ProjectOk;
  }

  lemma MarkValid(h: Hash, st: Store, id: int, projectId: int)
    requires Valid(h, st) && MarkedRow(h, st, id, projectId).Some? && projectId in st.projects
    ensures var p := st.projects[projectId].(manifest := Some(MarkedRow(h, st, id, projectId).value.manifest));
            Valid(h, st.(rows := Activate(st.rows, projectId, id), projects := st.projects[projectId := p]))
  {
    hide AllRowsOk, Placed, Exclusive, AllProjectsOk, ProjectOk, Activate, VerifiedFiles;
    var k := FoundAt(st.rows, projectId, id);
    var p := st.projects[projectId].(manifest := Some(MarkedRow(h, st, id, projectId).value.manifest));
    ActivatedOk(h, st.rows, st.projects.Keys, st.nextId, projectId, k);
    ProjectOf(h, st.projects, projectId);
    ManifestOnly(h, projectId, st.projects[projectId], MarkedRow(h, st, id, projectId).value.manifest);
    ProjectsOkUpdate(h, st.projects, projectId, p);
    SameKeys(st, projectId, p);
  }

  lemma AppendValid(h: Hash, st: Store, projectId: int, path: string, content: string)
    requires Valid(h, st) && Appended(h, st, projectId, path, content).Some?
    ensures var result := Appended(h, st, projectId, path, content).value;
            Valid(h, Store(st.projects[projectId := result.1],
                           Activate(st.rows + [result.0], projectId, st.nextId), st.nextId + 1))
  {
    hide *;
    ValidMeans(h, st);
    AppendedOk(h, st, projectId, path, content);
    var result := Appended(h, st, projectId, path, content).value;
    var next := Store(
      st.projects[projectId := result.1], Activate(st.rows + [result.0], projectId, st.nextId), st.nextId + 1);
    NoVersionAboveMax(st.rows, projectId);
    InsertedOk(h, st.rows, st.projects.Keys, st.nextId, result.0);
    LastIndex(st.rows, result.0);
    ActivatedOk(h, st.rows + [result.0], st.projects.Keys, st.nextId + 1, projectId, |st.rows|);
    ProjectsOkUpdate(h, st.projects, projectId, result.1);
    SameKeys(st, projectId, result.1);
    ValidMeans(h, next);
  }

  /** The store is valid after any operations from an empty one. */
  lemma {:induction false} RunValid(h: Hash, ops: seq<Operation>)
    ensures Valid(h, Run(h, EMPTY, ops))
  {
    hide Valid, Step;
    if ops == [] {
      EmptyValid(h);
    } else {
      RunValid(h, ops[..|ops| - 1]);
      StepValid(h, Run(h, EMPTY, ops[..|ops| - 1]), ops[|ops| - 1]);
    }
  }

  lemma EmptyValid(h: Hash)
    ensures Valid(h, EMPTY)
  {
  }

  // ----- snapshots are immutable but for the current flag -----

  ghost predicate KeepsRows(before: seq<Snapshot>, after: seq<Snapshot>) {
    && |before| <= |after|
    && forall i :: 0 <= i < |before| ==> after[i] == before[i].(isCurrent := after[i].isCurrent)
  }

  lemma ActivateKeeps(rows: seq<Snapshot>, projectId: int, id: int)
    ensures |Activate(rows, projectId, id)| == |rows| && KeepsRows(rows, Activate(rows, projectId, id))
  {
  }

  lemma StepKeepsRows(h: Hash, st: Store, op: Operation)
    ensures KeepsRows(st.rows, Step(h, st, op).rows)
  {
    hide Activate, NewRow, MarkedRow, Appended, UpdatedProject;
    match op {
      case NewProject(_, _) =>
      case UpdateFiles(_, _) =>
      case Create(q) =>
      case CreateAndActivate(q) =>
        if NewRow(h, st, q).Some? {
          ActivateKeeps(st.rows + [NewRow(h, st, q).value], q.projectId, NewRow(h, st, q).value.id);
        }
      case MarkCurrent(id, projectId) =>
        ActivateKeeps(st.rows, projectId, id);
      case Append(projectId, path, content) =>
        if Appended(h, st, projectId, path, content).Some? {
          ActivateKeeps(st.rows + [Appended(h, st, projectId, path, content).value.0], projectId, st.nextId);
        }
    }
  }

  lemma {:induction false} RunKeepsRows(h: Hash, st: Store, ops: seq<Operation>)
    ensures KeepsRows(st.rows, Run(h, st, ops).rows)
  {
    hide Step;
    if ops != [] {
      RunKeepsRows(h, st, ops[..|ops| - 1]);
      StepKeepsRows(h, Run(h, st, ops[..|ops| - 1]), ops[|ops| - 1]);
    }
  }

  lemma {:induction false} RunStaysValid(h: Hash, st: Store, ops: seq<Operation>)
    requires Valid(h, st)
    ensures Valid(h, Run(h, st, ops))
  {
    hide Valid, Step;
    if ops != [] {
      RunStaysValid(h, st, ops[..|ops| - 1]);
      StepValid(h, Run(h, st, ops[..|ops| - 1]), ops[|ops| - 1]);
    }
  }

  lemma VerifiedFilesOfValid(h: Hash, row: Snapshot)
    requires RowOk(h, row)
    ensures VerifiedFiles(h, row) == Some(row.files)
  {
    hide Acceptable, Normalized, Verifies;
    ValidatedMeans(row.files);
    SettledMeans(row.files);
  }

  /** In a valid store the current artifact is always readable and is the stored row. */
  lemma CurrentIsReadable(h: Hash, st: Store, projectId: int)
    requires Valid(h, st)
    ensures var row := FindCurrent(st.rows, projectId);
            CurrentArtifact(h, st, projectId) ==
            if row.None? then NoSnapshot
            else Found(Artifact(row.value.id, row.value.version, row.value.files, row.value.integrity))
  {
    hide RowOk, VerifiedFiles;
    var row := FindCurrent(st.rows, projectId);
    if row.Some? {
      var k :| 0 <= k < |st.rows| && st.rows[k] == row.value;
      VerifiedFilesOfValid(h, row.value);
    }
  }

  /** A rollback succeeds exactly for the snapshots the project has. */
  lemma RollbackSucceedsIffThere(h: Hash, st: Store, id: int, projectId: int)
    requires Valid(h, st)
    ensures MarkedRow(h, st, id, projectId).Some? <==>
              exists k :: 0 <= k < |st.rows| && st.rows[k].id == id && st.rows[k].projectId == projectId
  {
    hide VerifiedFiles, Verifies, Settled;
    if FindRow(st.rows, projectId, id).Some? {
      var k := FoundAt(st.rows, projectId, id);
      assert RowOk(h, st.rows[k]);
      VerifiedFilesOfValid(h, st.rows[k]);
    }
  }

  /** After a rollback the named snapshot is the one that is current. */
  lemma RollbackMakesCurrent(h: Hash, st: Store, k: nat)
    requires Valid(h, st) && k < |st.rows|
    ensures var row := st.rows[k];
            FindCurrent(Step(h, st, MarkCurrent(row.id, row.projectId)).rows, row.projectId)
            == Some(row.(isCurrent := true))
  {
    hide Activate, VerifiedFiles, AllRowsOk, AllProjectsOk;
    var row := st.rows[k];
    RollbackSucceedsIffThere(h, st, row.id, row.projectId);
    ActivatedRows(st.rows, st.projects.Keys, st.nextId, row.projectId, k);
    var active := Activate(st.rows, row.projectId, row.id);
    OnlyCurrent(active, row.projectId, k);
  }

  lemma OnlyCurrent(rows: seq<Snapshot>, projectId: int, k: nat)
    requires k < |rows| && rows[k].projectId == projectId
    requires forall i :: 0 <= i < |rows| && rows[i].projectId == projectId ==> (rows[i].isCurrent <==> i == k)
    ensures FindCurrent(rows, projectId) == Some(rows[k])
  {
    var found := FindCurrent(rows, projectId);
    assert rows[k] in rows;
    if found.Some? {
      var i :| 0 <= i < |rows| && rows[i] == found.value;
    }
  }

  /**
   Whatever happened since, when the snapshot a request created is current, the artifact
   handed out is the one validated and hashed at its creation.
   */
  lemma CreatedArtifactIsReturned(h: Hash, st: Store, q: Request, activate: bool, later: seq<Operation>)
    requires Valid(h, st) && NewRow(h, st, q).Some?
    ensures var row := NewRow(h, st, q).value;
            var created := Step(h, st, if activate then CreateAndActivate(q) else Create(q));
            var now := Run(h, created, later);
            var current := FindCurrent(now.rows, q.projectId);
            current.Some? && current.value.id == row.id ==>
              && Validated(q.files) == Some(row.files)
              && CurrentArtifact(h, now, q.projectId) == Found(Artifact(row.id, q.version, row.files, row.integrity))
  {
    hide Activate, NewRow, AllRowsOk, AllProjectsOk, Exclusive, RowOk, CurrentArtifact, Run, Validated;
    var row := NewRow(h, st, q).value;
    var op := if activate then CreateAndActivate(q) else Create(q);
    var created := Step(h, st, op);
    var now := Run(h, created, later);
    NewRowOk(h, st, q);
    StepValid(h, st, op);
    RunStaysValid(h, created, later);
    RunKeepsRows(h, created, later);
    CurrentIsReadable(h, now, q.projectId);
    ActivateKeeps(st.rows + [row], q.projectId, row.id);
    LastIndex(st.rows, row);
    assert created.rows[|st.rows|] == row.(isCurrent := created.rows[|st.rows|].isCurrent);
    var current := FindCurrent(now.rows, q.projectId);
    if current.Some? && current.value.id == row.id {
      var i :| 0 <= i < |now.rows| && now.rows[i] == current.value;
      assert i == |st.rows|;
    }
  }

  /** The same for a revision made by an append: its files are the current ones with the appended file. */
  lemma AppendedArtifactIsReturned(
    h: Hash, st: Store, projectId: int, path: string, content: string, later: seq<Operation>)
    requires Valid(h, st) && Appended(h, st, projectId, path, content).Some?
    ensures var row := Appended(h, st, projectId, path, content).value.0;
            var now := Run(h, Step(h, st, Append(projectId, path, content)), later);
            var current := FindCurrent(now.rows, projectId);
            current.Some? && current.value.id == row.id ==>
              && MergedFiles(h, st, projectId, path, content) == Some(row.files)
              && CurrentArtifact(h, now, projectId) ==
                 Found(Artifact(row.id, MaxVersion(st.rows, projectId) + 1, row.files, row.integrity))
  {
    hide *;
    var row := Appended(h, st, projectId, path, content).value.0;
    var appended := Step(h, st, Append(projectId, path, content));
    var now := Run(h, appended, later);
    AppendedOk(h, st, projectId, path, content);
    AppendedRows(h, st, projectId, path, content);
    StepValid(h, st, Append(projectId, path, content));
    RunStaysValid(h, appended, later);
    RunKeepsRows(h, appended, later);
    CurrentIsReadable(h, now, projectId);
    CurrentIsThatRow(h, appended.rows, now, projectId, |st.rows|);
  }

  /** In a later valid store, a current row with the id of an earlier one is that row. */
  lemma CurrentIsThatRow(h: Hash, before: seq<Snapshot>, now: Store, projectId: int, k: nat)
    requires Valid(h, now) && KeepsRows(before, now.rows) && k < |before|
    ensures var current := FindCurrent(now.rows, projectId);
            current.Some? && current.value.id == before[k].id ==>
              current.value == before[k].(isCurrent := current.value.isCurrent)
  {
    hide AllRowsOk, AllProjectsOk, Exclusive;
    var current := FindCurrent(now.rows, projectId);
    if current.Some? && current.value.id == before[k].id {
      var i :| 0 <= i < |now.rows| && now.rows[i] == current.value;
      assert now.rows[k].id == before[k].id;
    }
  }

  lemma ValidMeans(h: Hash, st: Store)
    ensures Valid(h, st) <==>
              AllRowsOk(h, st.rows) && Placed(st.rows, st.projects.Keys, st.nextId) && Exclusive(st.rows) &&
              AllProjectsOk(h, st.projects)
  {
    hide AllRowsOk, Placed, Exclusive, AllProjectsOk;
  }

  /** Where an append puts its row. */
  lemma AppendCommits(h: Hash, st: Store, projectId: int, path: string, content: string)
    requires Appended(h, st, projectId, path, content).Some?
    ensures var result := Appended(h, st, projectId, path, content).value;
            Step(h, st, Append(projectId, path, content)) ==
            Store(st.projects[projectId := result.1],
                  Activate(st.rows + [result.0], projectId, st.nextId), st.nextId + 1)
  {
    hide Activate, Appended, NewRow, MarkedRow, UpdatedProject;
  }

  lemma AppendedRows(h: Hash, st: Store, projectId: int, path: string, content: string)
    requires Valid(h, st) && Appended(h, st, projectId, path, content).Some?
    ensures var row := Appended(h, st, projectId, path, content).value.0;
            var active := Step(h, st, Append(projectId, path, content)).rows;
            && |active| == |st.rows| + 1
            && active[|st.rows|] == row.(isCurrent := true) && row.projectId == projectId
            && forall i :: 0 <= i < |st.rows| ==>
                 active[i] == st.rows[i].(isCurrent := st.rows[i].projectId != projectId && st.rows[i].isCurrent)
  {
    hide *;
    ValidMeans(h, st);
    AppendedOk(h, st, projectId, path, content);
    AppendCommits(h, st, projectId, path, content);
    NoVersionAboveMax(st.rows, projectId);
    var row := Appended(h, st, projectId, path, content).value.0;
    InsertedOk(h, st.rows, st.projects.Keys, st.nextId, row);
    LastIndex(st.rows, row);
    ActivatedRows(st.rows + [row], st.projects.Keys, st.nextId + 1, projectId, |st.rows|);
  }

  /** A current row that is new, has the given files and a version above all others of its project. */
  predicate NewestRow(st: Store, projectId: int, current: Option<Snapshot>, files: Option<FileMap>) {
    && current.Some? && current.value.id == st.nextId && Some(current.value.files) == files
    && forall i :: 0 <= i < |st.rows| && st.rows[i].projectId == projectId ==>
         st.rows[i].version < current.value.version
  }

  /** An appended revision is current, holds the merged files, and has a version above every earlier one. */
  lemma AppendIsNewest(h: Hash, st: Store, projectId: int, path: string, content: string)
    requires Valid(h, st) && Appended(h, st, projectId, path, content).Some?
    ensures NewestRow(
              st, projectId, FindCurrent(Step(h, st, Append(projectId, path, content)).rows, projectId),
              MergedFiles(h, st, projectId, path, content))
  {
    hide *;
    AppendedOk(h, st, projectId, path, content);
    AppendedRows(h, st, projectId, path, content);
    OnlyCurrent(Step(h, st, Append(projectId, path, content)).rows, projectId, |st.rows|);
    AboveMax(st, projectId, Appended(h, st, projectId, path, content).value.0.(isCurrent := true));
  }

  lemma AboveMax(st: Store, projectId: int, row: Snapshot)
    requires row.id == st.nextId && row.version == MaxVersion(st.rows, projectId) + 1
    ensures NewestRow(st, projectId, Some(row), Some(row.files))
  {
    hide MaxVersion;
  }

  /** The project an operation is about. */
  function ProjectOfOp(op: Operation): int {
    match op
    case NewProject(p, _) => p
    case UpdateFiles(p, _) => p
    case Create(q) => q.projectId
    case CreateAndActivate(q) => q.projectId
    case MarkCurrent(_, p) => p
    case Append(p, _, _) => p
  }

  /** Rows of other projects are as they were, new rows belong to this one, other projects are unchanged. */
  ghost predicate OthersUntouched(st: Store, next: Store, projectId: int) {
    && KeepsRows(st.rows, next.rows)
    && (forall i :: 0 <= i < |st.rows| && st.rows[i].projectId != projectId ==> next.rows[i] == st.rows[i])
    && (forall i :: |st.rows| <= i < |next.rows| ==> next.rows[i].projectId == projectId)
    && (forall p :: p != projectId ==> (p in next.projects <==> p in st.projects))
    && (forall p :: p != projectId && p in st.projects ==> next.projects[p] == st.projects[p])
  }

  lemma ActivateOthers(rows: seq<Snapshot>, projects: set<int>, nextId: int, k: nat, projectId: int)
    requires Placed(rows, projects, nextId) && k < |rows| && rows[k].projectId == projectId
    ensures var active := Activate(rows, projectId, rows[k].id);
            && |active| == |rows|
            && forall i :: 0 <= i < |rows| && rows[i].projectId != projectId ==> active[i] == rows[i]
  {
    hide *;
    ActivatedRows(rows, projects, nextId, projectId, k);
  }

  /** An operation on one project touches nothing of the others. */
  lemma OperationsAreLocal(h: Hash, st: Store, op: Operation)
    requires Valid(h, st)
    ensures OthersUntouched(st, Step(h, st, op), ProjectOfOp(op))
  {
    hide *;
    UntouchedByNothing(st, ProjectOfOp(op));
    match op {
      case NewProject(_, _) =>
        ProjectOpsLocal(h, st, op);
      case UpdateFiles(_, _) =>
        ProjectOpsLocal(h, st, op);
      case Create(q) =>
        CreateLocal(h, st, q);
      case CreateAndActivate(q) =>
        CreateLocal(h, st, q);
      case MarkCurrent(id, projectId) =>
        MarkLocal(h, st, id, projectId);
      case Append(projectId, path, content) =>
        AppendOrNot(h, st, projectId, path, content);
    }
    ProjectOfOpMeans(op);
  }

  lemma ProjectOfOpMeans(op: Operation)
    ensures op.NewProject? || op.UpdateFiles? || op.MarkCurrent? || op.Append? ==> ProjectOfOp(op) == op.projectId
    ensures op.Create? || op.CreateAndActivate? ==> ProjectOfOp(op) == op.request.projectId
  {
  }

  lemma UntouchedByNothing(st: Store, projectId: int)
    ensures OthersUntouched(st, st, projectId)
  {
  }

  lemma ProjectOpsLocal(h: Hash, st: Store, op: Operation)
    requires op.NewProject? || op.UpdateFiles?
    ensures OthersUntouched(st, Step(h, st, op), op.projectId)
  {
    hide UpdatedProject;
  }

  lemma CreateLocal(h: Hash, st: Store, q: Request)
    requires Valid(h, st)
    ensures OthersUntouched(st, Step(h, st, Create(q)), q.projectId)
    ensures OthersUntouched(st, Step(h, st, CreateAndActivate(q)), q.projectId)
  {
    hide *;
    UntouchedByNothing(st, q.projectId);
    CreateCommits(h, st, q);
    StepKeepsRows(h, st, Create(q));
    StepKeepsRows(h, st, CreateAndActivate(q));
    if NewRow(h, st, q).Some? {
      var row := NewRow(h, st, q).value;
      NewRowOk(h, st, q);
      ActivateNewLocal(h, st, q);
      LastIndex(st.rows, row);
      RowsUntouched(st, Step(h, st, Create(q)), q.projectId);
      RowsUntouched(st, Step(h, st, CreateAndActivate(q)), q.projectId);
    }
  }

  lemma RowsUntouched(st: Store, next: Store, projectId: int)
    requires KeepsRows(st.rows, next.rows)
    requires |st.rows| <= |next.rows| <= |st.rows| + 1
    requires |next.rows| == |st.rows| || next.rows[|st.rows|].projectId == projectId
    requires forall i :: 0 <= i < |st.rows| && st.rows[i].projectId != projectId ==> next.rows[i] == st.rows[i]
    requires next.projects == st.projects ||
             (projectId in next.projects && next.projects == st.projects[projectId := next.projects[projectId]])
    ensures OthersUntouched(st, next, projectId)
  {
    hide KeepsRows;
  }

  lemma CreateCommits(h: Hash, st: Store, q: Request)
    ensures var row := NewRow(h, st, q);
            && (row.None? ==> Step(h, st, Create(q)) == st && Step(h, st, CreateAndActivate(q)) == st)
            && (row.Some? ==>
                  && q.projectId in st.projects
                  && Step(h, st, Create(q)) == st.(rows := st.rows + [row.value], nextId := st.nextId + 1)
                  && Step(h, st, CreateAndActivate(q)) == Store(
                       st.projects[q.projectId := st.projects[q.projectId].(manifest := Some(q.manifest))],
                       Activate(st.rows + [row.value], q.projectId, row.value.id), st.nextId + 1))
  {
    hide Activate, HasVersion, BuildArtifactIntegrity, Validated;
  }

  lemma MarkCommits(h: Hash, st: Store, id: int, projectId: int)
    ensures var next := Step(h, st, MarkCurrent(id, projectId));
            if MarkedRow(h, st, id, projectId).Some?
            then next.rows == Activate(st.rows, projectId, id) &&
                 (next.projects == st.projects ||
                  (projectId in next.projects && next.projects == st.projects[projectId := next.projects[projectId]]))
            else next == st
  {
    hide Activate, MarkedRow;
  }

  lemma MarkLocal(h: Hash, st: Store, id: int, projectId: int)
    requires Valid(h, st)
    ensures OthersUntouched(st, Step(h, st, MarkCurrent(id, projectId)), projectId)
  {
    hide *;
    UntouchedByNothing(st, projectId);
    MarkCommits(h, st, id, projectId);
    StepKeepsRows(h, st, MarkCurrent(id, projectId));
    if MarkedRow(h, st, id, projectId).Some? {
      var k := MarkedAt(h, st, id, projectId);
      ValidMeans(h, st);
      ActivateOthers(st.rows, st.projects.Keys, st.nextId, k, projectId);
      RowsUntouched(st, Step(h, st, MarkCurrent(id, projectId)), projectId);
    }
  }

  lemma AppendOrNot(h: Hash, st: Store, projectId: int, path: string, content: string)
    requires Valid(h, st)
    ensures OthersUntouched(st, Step(h, st, Append(projectId, path, content)), projectId)
  {
    hide Activate, Appended, Valid, OthersUntouched;
    UntouchedByNothing(st, projectId);
    if Appended(h, st, projectId, path, content).Some? {
      AppendLocal(h, st, projectId, path, content);
    }
  }

  lemma ActivateNewLocal(h: Hash, st: Store, q: Request)
    requires Valid(h, st) && NewRow(h, st, q).Some?
    ensures var row := NewRow(h, st, q).value;
            var active := Activate(st.rows + [row], q.projectId, row.id);
            && |active| == |st.rows| + 1 && active[|st.rows|].projectId == q.projectId
            && forall i :: 0 <= i < |st.rows| && st.rows[i].projectId != q.projectId ==> active[i] == st.rows[i]
  {
    hide *;
    var row := NewRow(h, st, q).value;
    ValidMeans(h, st);
    NewRowOk(h, st, q);
    InsertedOk(h, st.rows, st.projects.Keys, st.nextId, row);
    LastIndex(st.rows, row);
    ActivatedRows(st.rows + [row], st.projects.Keys, st.nextId + 1, q.projectId, |st.rows|);
  }

  lemma MarkedAt(h: Hash, st: Store, id: int, projectId: int) returns (k: nat)
    requires MarkedRow(h, st, id, projectId).Some?
    ensures k < |st.rows| && st.rows[k].id == id && st.rows[k].projectId == projectId
  {
    k := FoundAt(st.rows, projectId, id);
  }

  lemma AppendLocal(h: Hash, st: Store, projectId: int, path: string, content: string)
    requires Valid(h, st) && Appended(h, st, projectId, path, content).Some?
    ensures OthersUntouched(st, Step(h, st, Append(projectId, path, content)), projectId)
  {
    hide Activate, Appended, Valid, KeepsRows, Step, RowOk, ProjectOk, MergedFiles, MaxVersion;
    StepKeepsRows(h, st, Append(projectId, path, content));
    AppendedOk(h, st, projectId, path, content);
    AppendCommits(h, st, projectId, path, content);
    AppendedRows(h, st, projectId, path, content);
  }

  // ----- what an operation does to the tables -----

  /** What a snapshot request must bring. */
  ghost predicate Admissible(st: Store, q: Request) {
    && q.manifest.resolved && Acceptable(q.files) && Repeatable(q.files) && q.fileCount == |q.files|
    && 0 < q.projectId && 0 < q.version
    && q.projectId in st.projects && st.projects[q.projectId].userId == q.userId
    && forall row :: row in st.rows && row.projectId == q.projectId ==> row.version != q.version
  }

  /** The row of a request, its file versions continued from the working record of the project. */
  ghost predicate RowFrom(h: Hash, st: Store, q: Request, row: Snapshot) {
    && Acceptable(q.files) && q.projectId in st.projects
    && row.id == st.nextId && row.projectId == q.projectId && row.userId == q.userId && row.version == q.version
    && row.files == Normalized(q.files) && row.fileCount == |row.files| && row.manifest == q.manifest
    && RecordFor(h, q.projectId, q.version, Final, row.files, st.projects[q.projectId].workingIntegrity,
                 row.integrity)
  }

  /** One row more, of which the project's others are told apart by their flag only. */
  predicate AddedRow(before: seq<Snapshot>, after: seq<Snapshot>, projectId: int, activate: bool) {
    && |after| == |before| + 1 && after[|before|].projectId == projectId && after[|before|].isCurrent == activate
    && forall i :: 0 <= i < |before| ==>
         after[i] == if activate && before[i].projectId == projectId then before[i].(isCurrent := false) else before[i]
  }

  lemma BuiltAgain(
    h: Hash, projectId: int, version: int, state: ArtifactState, m: FileMap, previous: Option<Integrity>)
    requires Acceptable(m)
    ensures BuildArtifactIntegrity(h, projectId, version, state, Normalized(m), previous).Ok? <==>
              0 < projectId && 0 < version && Repeatable(m)
    ensures BuildArtifactIntegrity(h, projectId, version, state, Normalized(m), previous).Ok? ==>
              RecordFor(h, projectId, version, state, Normalized(m), previous,
                        BuildArtifactIntegrity(h, projectId, version, state, Normalized(m), previous).value)
  {
    hide *;
    AcceptableMeans(m);
    ValidatedAgain(m);
    ValidatedMeans(Normalized(m));
    BuildMeans(h, projectId, version, state, Normalized(m), previous);
    if BuildArtifactIntegrity(h, projectId, version, state, Normalized(m), previous).Ok? {
      BuiltRecord(h, projectId, version, state, Normalized(m), previous);
    }
  }

  lemma NormalizedSize(m: FileMap)
    requires Acceptable(m)
    ensures |Normalized(m)| == |m|
  {
    hide *;
    AcceptableMeans(m);
    SizesKept(m);
  }

  lemma NewRowExactly(h: Hash, st: Store, q: Request)
    ensures NewRow(h, st, q).Some? <==> Admissible(st, q)
    ensures NewRow(h, st, q).Some? ==> RowFrom(h, st, q, NewRow(h, st, q).value)
  {
    hide Acceptable, Normalized, Validated, Repeatable, BuildArtifactIntegrity, RecordFor;
    ValidatedMeans(q.files);
    if Acceptable(q.files) {
      NormalizedSize(q.files);
      if q.projectId in st.projects {
        BuiltAgain(h, q.projectId, q.version, Final, q.files, st.projects[q.projectId].workingIntegrity);
        if NewRow(h, st, q).Some? {
          BuiltVerifies(h, q.projectId, q.version, Final, q.files, st.projects[q.projectId].workingIntegrity);
        }
      }
    }
  }

  /** The row of the request is there; if it is activated it is the only current one and its manifest counts. */
  ghost predicate CreateDone(h: Hash, st: Store, q: Request, activate: bool, next: Store) {
    && AddedRow(st.rows, next.rows, q.projectId, activate)
    && RowFrom(h, st, q, next.rows[|st.rows|].(isCurrent := false)) && next.nextId == st.nextId + 1
    && next.projects ==
       if activate then st.projects[q.projectId := st.projects[q.projectId].(manifest := Some(q.manifest))]
       else st.projects
  }

  lemma CreateDoneMeans(h: Hash, st: Store, q: Request, activate: bool, row: Snapshot, next: Store)
    requires AddedRow(st.rows, next.rows, q.projectId, activate) && RowFrom(h, st, q, row) && !row.isCurrent
    requires next.rows[|st.rows|] == row.(isCurrent := activate) && next.nextId == st.nextId + 1
    requires q.projectId in st.projects
    requires next.projects ==
             if activate then st.projects[q.projectId := st.projects[q.projectId].(manifest := Some(q.manifest))]
             else st.projects
    ensures CreateDone(h, st, q, activate, next)
  {
    hide RecordFor, Acceptable, Normalized;
  }

  /**
   A snapshot request inserts exactly its row, or does nothing when it is not admissible. Activating
   it makes it the only current one of its project and hands its manifest on.
   */
  lemma CreateExactly(h: Hash, st: Store, q: Request, activate: bool)
    requires Valid(h, st)
    ensures var next := Step(h, st, if activate then CreateAndActivate(q) else Create(q));
            if Admissible(st, q) then CreateDone(h, st, q, activate, next) else next == st
  {
    hide *;
    NewRowExactly(h, st, q);
    CreateCommits(h, st, q);
    if NewRow(h, st, q).Some? {
      var row := NewRow(h, st, q).value;
      NewRowOk(h, st, q);
      ValidMeans(h, st);
      InsertedOk(h, st.rows, st.projects.Keys, st.nextId, row);
      LastIndex(st.rows, row);
      ActivatedRows(st.rows + [row], st.projects.Keys, st.nextId + 1, q.projectId, |st.rows|);
      PlainlyAdded(st.rows, row);
      ActivelyAdded(st.rows, Activate(st.rows + [row], q.projectId, row.id), row);
      CreateDoneMeans(h, st, q, activate, row, Step(h, st, if activate then CreateAndActivate(q) else Create(q)));
    }
  }

  lemma PlainlyAdded(rows: seq<Snapshot>, row: Snapshot)
    requires !row.isCurrent
    ensures AddedRow(rows, rows + [row], row.projectId, false)
    ensures (rows + [row])[|rows|] == row
  {
  }

  lemma ActivelyAdded(rows: seq<Snapshot>, active: seq<Snapshot>, row: Snapshot)
    requires !row.isCurrent && |active| == |rows| + 1
    requires forall i :: 0 <= i < |active| ==>
               var r := (rows + [row])[i];
               active[i] == r.(isCurrent := if r.projectId == row.projectId then i == |rows| else r.isCurrent)
    ensures AddedRow(rows, active, row.projectId, true)
    ensures active[|rows|] == row.(isCurrent := true)
  {
    assert (rows + [row])[|rows|] == row;
    forall i | 0 <= i < |rows|
      ensures active[i] == if rows[i].projectId == row.projectId then rows[i].(isCurrent := false) else rows[i]
    {
      assert (rows + [row])[i] == rows[i];
    }
  }

  /** A current snapshot whose files, with the new one, validate and validate again. */
  ghost predicate Appendable(st: Store, projectId: int, path: string, content: string) {
    var current := FindCurrent(st.rows, projectId);
    && projectId in st.projects && 0 < projectId && current.Some?
    && Acceptable(current.value.files[path := content]) && Repeatable(current.value.files[path := content])
  }

  /** The revision of the current snapshot: its file versions continue those of that snapshot. */
  ghost predicate RevisionOf(
    h: Hash, st: Store, projectId: int, path: string, content: string, row: Snapshot, p: Project)
  {
    var current := FindCurrent(st.rows, projectId);
    && projectId in st.projects && current.Some? && Acceptable(current.value.files[path := content])
    && row.id == st.nextId && row.projectId == projectId && row.userId == st.projects[projectId].userId
    && (forall other :: other in st.rows && other.projectId == projectId ==> other.version < row.version)
    && (exists other :: other in st.rows && other.projectId == projectId && other.version == row.version - 1)
    && row.files == Normalized(current.value.files[path := content]) && row.fileCount == |row.files|
    && row.manifest == current.value.manifest
    && RecordFor(h, projectId, row.version, Final, row.files, Some(current.value.integrity), row.integrity)
    && p.userId == st.projects[projectId].userId && p.manifest == Some(row.manifest)
    && p.generatedFiles == Some(row.files) && p.workingVersion == st.projects[projectId].workingVersion + 1
    && p.workingIntegrity.Some?
    && RecordFor(h, projectId, p.workingVersion, Working, row.files, Continued(st.projects[projectId], current.value),
                 p.workingIntegrity.value)
  }

  lemma {:induction false} MaxIsThere(rows: seq<Snapshot>, projectId: int)
    requires MaxVersion(rows, projectId) > 0
    ensures exists row :: row in rows && row.projectId == projectId && row.version == MaxVersion(rows, projectId)
  {
    var n := |rows| - 1;
    assert rows[n] in rows;
    if !(rows[n].projectId == projectId && rows[n].version >= MaxVersion(rows[..n], projectId)) {
      MaxIsThere(rows[..n], projectId);
      var row :| row in rows[..n] && row.projectId == projectId && row.version == MaxVersion(rows[..n], projectId);
      assert row in rows;
    }
  }

  lemma NextOfMax(h: Hash, st: Store, projectId: int)
    requires Valid(h, st) && FindCurrent(st.rows, projectId).Some?
    ensures var version := MaxVersion(st.rows, projectId) + 1;
            && version > 1
            && (forall row :: row in st.rows && row.projectId == projectId ==> row.version < version)
            && (exists row :: row in st.rows && row.projectId == projectId && row.version == version - 1)
  {
    hide MaxVersion, RowOk, Valid;
    CurrentRowOk(h, st, projectId);
    var current := FindCurrent(st.rows, projectId).value;
    VersionPositive(h, current);
    MaxIsThere(st.rows, projectId);
  }

  lemma VersionPositive(h: Hash, row: Snapshot)
    requires RowOk(h, row)
    ensures row.version > 0 && row.manifest.resolved
  {
    hide Settled, Verifies;
  }

  lemma AppendedExactly(h: Hash, st: Store, projectId: int, path: string, content: string)
    requires Valid(h, st)
    ensures Appended(h, st, projectId, path, content).Some? <==> Appendable(st, projectId, path, content)
    ensures Appended(h, st, projectId, path, content).Some? ==>
              var result := Appended(h, st, projectId, path, content).value;
              RevisionOf(h, st, projectId, path, content, result.0, result.1)
  {
    hide Acceptable, Normalized, Repeatable, BuildArtifactIntegrity, RecordFor, CurrentArtifact, FindCurrent,
      MaxVersion, Valid, Appended, RowOk, Continued;
    AppendedMeans(h, st, projectId, path, content);
    CurrentIsReadable(h, st, projectId);
    var current := FindCurrent(st.rows, projectId);
    if current.Some? && projectId in st.projects {
      CurrentRowOk(h, st, projectId);
      VersionPositive(h, current.value);
      NextOfMax(h, st, projectId);
      var merged, p := current.value.files[path := content], st.projects[projectId];
      ContinuedMeans(p, current.value);
      if Acceptable(merged) {
        BuiltAgain(h, projectId, MaxVersion(st.rows, projectId) + 1, Final, merged, Some(current.value.integrity));
        BuiltAgain(h, projectId, p.workingVersion + 1, Working, merged, Continued(p, current.value));
        if Appended(h, st, projectId, path, content).Some? {
          BuiltVerifies(h, projectId, MaxVersion(st.rows, projectId) + 1, Final, merged,
                        Some(current.value.integrity));
        }
      }
    }
  }

  /** The revision is there, the only current one, and its files are the working ones. */
  ghost predicate AppendDone(h: Hash, st: Store, projectId: int, path: string, content: string, next: Store) {
    && AddedRow(st.rows, next.rows, projectId, true) && next.nextId == st.nextId + 1
    && projectId in next.projects
    && next.projects == st.projects[projectId := next.projects[projectId]]
    && RevisionOf(h, st, projectId, path, content, next.rows[|st.rows|].(isCurrent := false),
                  next.projects[projectId])
  }

  /**
   An append inserts exactly the next revision of the current snapshot, makes it the only current one
   and records its files as the working ones, or does nothing when it is not possible.
   */
  lemma AppendExactly(h: Hash, st: Store, projectId: int, path: string, content: string)
    requires Valid(h, st)
    ensures var next := Step(h, st, Append(projectId, path, content));
            if !Appendable(st, projectId, path, content) then next == st
            else AppendDone(h, st, projectId, path, content, next)
  {
    hide *;
    AppendedExactly(h, st, projectId, path, content);
    AppendFails(h, st, projectId, path, content);
    if Appended(h, st, projectId, path, content).Some? {
      var (row, p) := Appended(h, st, projectId, path, content).value;
      AppendCommits(h, st, projectId, path, content);
      AppendedOk(h, st, projectId, path, content);
      ValidMeans(h, st);
      NoVersionAboveMax(st.rows, projectId);
      InsertedOk(h, st.rows, st.projects.Keys, st.nextId, row);
      LastIndex(st.rows, row);
      ActivatedRows(st.rows + [row], st.projects.Keys, st.nextId + 1, projectId, |st.rows|);
      ActivelyAdded(st.rows, Activate(st.rows + [row], projectId, row.id), row);
      AppendDoneMeans(h, st, projectId, path, content, row, p, Step(h, st, Append(projectId, path, content)));
    }
  }

  lemma AppendDoneMeans(
    h: Hash, st: Store, projectId: int, path: string, content: string, row: Snapshot, p: Project, next: Store)
    requires AddedRow(st.rows, next.rows, projectId, true) && next.nextId == st.nextId + 1
    requires next.projects == st.projects[projectId := p]
    requires next.rows[|st.rows|] == row.(isCurrent := true) && !row.isCurrent
    requires RevisionOf(h, st, projectId, path, content, row, p)
    ensures AppendDone(h, st, projectId, path, content, next)
  {
    hide RevisionOf;
  }

  /** An update of the working files records them under the next working version, or does nothing. */
  lemma UpdateExactly(h: Hash, st: Store, projectId: int, files: FileMap)
    ensures var next := Step(h, st, UpdateFiles(projectId, files));
            if !(projectId in st.projects && 0 < projectId && Acceptable(files) && Repeatable(files)) then next == st
            else
              && next.rows == st.rows && next.nextId == st.nextId && projectId in next.projects
              && var p, q := st.projects[projectId], next.projects[projectId];
                 && next.projects == st.projects[projectId := q]
                 && q == p.(generatedFiles := Some(Normalized(files)), workingVersion := p.workingVersion + 1,
                            workingIntegrity := q.workingIntegrity)
                 && q.workingIntegrity.Some?
                 && RecordFor(h, projectId, q.workingVersion, Working, Normalized(files), p.workingIntegrity,
                              q.workingIntegrity.value)
  {
    hide Acceptable, Normalized, Repeatable, BuildArtifactIntegrity, RecordFor, Validated, Step;
    UpdateCommits(h, st, projectId, files);
    ValidatedMeans(files);
    if projectId in st.projects && Acceptable(files) {
      var p := st.projects[projectId];
      BuiltAgain(h, projectId, p.workingVersion + 1, Working, files, p.workingIntegrity);
    }
  }

  predicate Named(st: Store, id: int, projectId: int) {
    exists row :: row in st.rows && row.projectId == projectId && row.id == id
  }

  /** The named snapshot is the only current one of its project, and its manifest is the project's. */
  predicate MarkDone(st: Store, id: int, projectId: int, next: Store) {
    && projectId in st.projects && next.nextId == st.nextId && |next.rows| == |st.rows|
    && (forall i :: 0 <= i < |st.rows| ==>
          next.rows[i] == if st.rows[i].projectId == projectId
                          then st.rows[i].(isCurrent := st.rows[i].id == id) else st.rows[i])
    && exists row :: row in st.rows && row.projectId == projectId && row.id == id &&
         next.projects == st.projects[projectId := st.projects[projectId].(manifest := Some(row.manifest))]
  }

  /** A rollback makes the named snapshot the only current one and hands its manifest on, or does nothing. */
  lemma MarkExactly(h: Hash, st: Store, id: int, projectId: int)
    requires Valid(h, st)
    ensures var next := Step(h, st, MarkCurrent(id, projectId));
            if Named(st, id, projectId) then MarkDone(st, id, projectId, next) else next == st
  {
    hide *;
    RollbackSucceedsIffThere(h, st, id, projectId);
    NamedMeans(st, id, projectId);
    MarkCommits(h, st, id, projectId);
    if MarkedRow(h, st, id, projectId).Some? {
      ValidMeans(h, st);
      MarkedProject(h, st, id, projectId);
      MarkStep(h, st, id, projectId);
      MarkedIs(h, st, id, projectId);
      var k := MarkedAt(h, st, id, projectId);
      ActivatedRows(st.rows, st.projects.Keys, st.nextId, projectId, k);
      OnlyOneOfId(st, k);
      var row := MarkedRow(h, st, id, projectId).value;
      WithManifestIs(st.projects, projectId, row.manifest);
      MarkDoneMeans(st, k, row, Step(h, st, MarkCurrent(id, projectId)));
    }
  }

  lemma NamedMeans(st: Store, id: int, projectId: int)
    ensures Named(st, id, projectId) <==>
              exists k :: 0 <= k < |st.rows| && st.rows[k].id == id && st.rows[k].projectId == projectId
  {
    if Named(st, id, projectId) {
      var row :| row in st.rows && row.projectId == projectId && row.id == id;
      var k :| 0 <= k < |st.rows| && st.rows[k] == row;
    }
  }

  lemma MarkDoneMeans(st: Store, k: nat, row: Snapshot, next: Store)
    requires k < |st.rows| && row in st.rows && row.projectId in st.projects
    requires row.projectId == st.rows[k].projectId && row.id == st.rows[k].id
    requires forall i :: 0 <= i < |st.rows| ==> (st.rows[i].id == st.rows[k].id <==> i == k)
    requires next.nextId == st.nextId && |next.rows| == |st.rows|
    requires forall i :: 0 <= i < |st.rows| ==>
               next.rows[i] == st.rows[i].(isCurrent := if st.rows[i].projectId == row.projectId then i == k
                                                        else st.rows[i].isCurrent)
    requires next.projects ==
             st.projects[row.projectId := st.projects[row.projectId].(manifest := Some(row.manifest))]
    ensures MarkDone(st, row.id, row.projectId, next)
  {
  }

  lemma MarkedIs(h: Hash, st: Store, id: int, projectId: int)
    requires MarkedRow(h, st, id, projectId).Some?
    ensures var row := MarkedRow(h, st, id, projectId).value;
            row in st.rows && row.projectId == projectId && row.id == id
  {
    hide VerifiedFiles;
  }

  lemma OnlyOneOfId(st: Store, k: nat)
    requires Placed(st.rows, st.projects.Keys, st.nextId) && k < |st.rows|
    ensures forall i :: 0 <= i < |st.rows| ==> (st.rows[i].id == st.rows[k].id <==> i == k)
  {
  }

  lemma WithManifestIs(projects: map<int, Project>, projectId: int, m: Manifest)
    requires projectId in projects
    ensures WithManifest(projects, projectId, m) == projects[projectId := projects[projectId].(manifest := Some(m))]
  {
  }

  // ----- owners -----

  /** Every snapshot belongs to the owner of its project. */
  ghost predicate Owned(st: Store) {
    forall i :: 0 <= i < |st.rows| ==>
      st.rows[i].projectId in st.projects && st.rows[i].userId == st.projects[st.rows[i].projectId].userId
  }

  ghost predicate OwnersKept(before: map<int, Project>, after: map<int, Project>) {
    forall p :: p in before ==> p in after && after[p].userId == before[p].userId
  }

  lemma OwnedStays(st: Store, next: Store)
    requires Owned(st) && KeepsRows(st.rows, next.rows) && OwnersKept(st.projects, next.projects)
    requires forall i :: |st.rows| <= i < |next.rows| ==>
               next.rows[i].projectId in next.projects &&
               next.rows[i].userId == next.projects[next.rows[i].projectId].userId
    ensures Owned(next)
  {
  }

  lemma NewRowOwner(h: Hash, st: Store, q: Request)
    requires NewRow(h, st, q).Some?
    ensures var row := NewRow(h, st, q).value;
            && row.projectId == q.projectId && q.projectId in st.projects
            && row.userId == q.userId == st.projects[q.projectId].userId
  {
    hide HasVersion, BuildArtifactIntegrity, Validated;
  }

  lemma AppendedOwner(h: Hash, st: Store, projectId: int, path: string, content: string)
    requires Appended(h, st, projectId, path, content).Some?
    ensures var result := Appended(h, st, projectId, path, content).value;
            && projectId in st.projects && result.0.projectId == projectId
            && result.0.userId == st.projects[projectId].userId == result.1.userId
  {
    hide MergedFiles, FindCurrent, BuildArtifactIntegrity, MaxVersion;
  }

  /** Only the owner of a project adds snapshots to it, and a project keeps its owner. */
  lemma StepOwned(h: Hash, st: Store, op: Operation)
    requires Owned(st)
    ensures Owned(Step(h, st, op)) && OwnersKept(st.projects, Step(h, st, op).projects)
  {
    hide *;
    StepKeepsRows(h, st, op);
    match op {
      case NewProject(_, _) =>
        ProjectOpOwned(h, st, op);
      case UpdateFiles(_, _) =>
        ProjectOpOwned(h, st, op);
      case Create(q) =>
        CreateOwned(h, st, q);
      case CreateAndActivate(q) =>
        CreateOwned(h, st, q);
      case MarkCurrent(id, projectId) =>
        MarkOwned(h, st, id, projectId);
      case Append(projectId, path, content) =>
        AppendOwned(h, st, projectId, path, content);
    }
  }

  lemma ProjectOpOwned(h: Hash, st: Store, op: Operation)
    requires Owned(st) && (op.NewProject? || op.UpdateFiles?)
    ensures Owned(Step(h, st, op)) && OwnersKept(st.projects, Step(h, st, op).projects)
  {
    hide Validated, BuildArtifactIntegrity;
  }

  lemma CreateOwned(h: Hash, st: Store, q: Request)
    requires Owned(st)
    ensures Owned(Step(h, st, Create(q))) && OwnersKept(st.projects, Step(h, st, Create(q)).projects)
    ensures Owned(Step(h, st, CreateAndActivate(q)))
    ensures OwnersKept(st.projects, Step(h, st, CreateAndActivate(q)).projects)
  {
    hide Step, NewRow, Activate;
    CreateCommits(h, st, q);
    StepKeepsRows(h, st, Create(q));
    StepKeepsRows(h, st, CreateAndActivate(q));
    if NewRow(h, st, q).Some? {
      var row := NewRow(h, st, q).value;
      NewRowOwner(h, st, q);
      ActivateKeeps(st.rows + [row], q.projectId, row.id);
      OwnedStays(st, Step(h, st, Create(q)));
      OwnedStays(st, Step(h, st, CreateAndActivate(q)));
    }
  }

  lemma MarkOwned(h: Hash, st: Store, id: int, projectId: int)
    requires Owned(st)
    ensures Owned(Step(h, st, MarkCurrent(id, projectId)))
    ensures OwnersKept(st.projects, Step(h, st, MarkCurrent(id, projectId)).projects)
  {
    hide MarkedRow, Activate;
    StepKeepsRows(h, st, MarkCurrent(id, projectId));
    ActivateKeeps(st.rows, projectId, id);
    if MarkedRow(h, st, id, projectId).Some? {
      OwnedStays(st, Step(h, st, MarkCurrent(id, projectId)));
    }
  }

  lemma AppendOwned(h: Hash, st: Store, projectId: int, path: string, content: string)
    requires Owned(st)
    ensures Owned(Step(h, st, Append(projectId, path, content)))
    ensures OwnersKept(st.projects, Step(h, st, Append(projectId, path, content)).projects)
  {
    hide Step, Appended, Activate;
    AppendFails(h, st, projectId, path, content);
    StepKeepsRows(h, st, Append(projectId, path, content));
    if Appended(h, st, projectId, path, content).Some? {
      var result := Appended(h, st, projectId, path, content).value;
      AppendCommits(h, st, projectId, path, content);
      AppendedOwner(h, st, projectId, path, content);
      ActivateKeeps(st.rows + [result.0], projectId, st.nextId);
      OwnedStays(st, Step(h, st, Append(projectId, path, content)));
    }
  }

  lemma {:induction false} RunOwned(h: Hash, ops: seq<Operation>)
    ensures Owned(Run(h, EMPTY, ops))
  {
    hide Owned, OwnersKept, Step;
    if ops == [] {
      EmptyOwned();
    } else {
      RunOwned(h, ops[..|ops| - 1]);
      StepOwned(h, Run(h, EMPTY, ops[..|ops| - 1]), ops[|ops| - 1]);
    }
  }

  lemma EmptyOwned()
    ensures Owned(EMPTY)
  {
  }

  // ----- the version chain of working files -----

  /** A project after a series of `updateProjectFiles` calls; a call that throws changes nothing. */
  ghost function AfterUpdates(h: Hash, projectId: int, p: Project, updates: seq<FileMap>): Project {
    if updates == [] then p
    else
      var before := AfterUpdates(h, projectId, p, updates[..|updates| - 1]);
      var after := UpdatedProject(h, projectId, before, updates[|updates| - 1]);
      if after.None? then before else after.value
  }

  function WorkingVersionOf(p: Project, path: string): Option<int> {
    if p.workingIntegrity.None? then None else VersionOf(p.workingIntegrity.value, path)
  }

  function WorkingShaOf(p: Project, path: string): Option<string> {
    if p.workingIntegrity.None? then None else ShaOf(p.workingIntegrity.value, path)
  }

  ghost predicate ChainOk(p: Project) {
    p.workingIntegrity.Some? ==> VersionsWithin(p.workingIntegrity.value, p.workingVersion)
  }

  ghost predicate Fresh(p: Project) {
    p.workingIntegrity.None?
  }

  lemma UpdateChainStep(h: Hash, projectId: int, p: Project, files: FileMap, path: string)
    requires ChainOk(p) && UpdatedProject(h, projectId, p, files).Some?
    ensures var next := UpdatedProject(h, projectId, p, files).value;
            && ChainOk(next)
            && (WorkingVersionOf(p, path).Some? && WorkingVersionOf(next, path).Some? ==>
                  WorkingVersionOf(next, path).value == WorkingVersionOf(p, path).value +
                  if WorkingShaOf(next, path) == WorkingShaOf(p, path) then 0 else 1)
  {
    hide BuildArtifactIntegrity, VersionsWithin, VersionOf, ShaOf, Validated;
    var normalized := Validated(files).value;
    VersionStep(h, projectId, p.workingVersion + 1, Working, normalized, p.workingIntegrity);
    var next := UpdatedProject(h, projectId, p, files).value;
    assert VersionRule(p.workingIntegrity, next.workingIntegrity.value, path);
  }

  lemma {:induction false} ChainHolds(h: Hash, projectId: int, p: Project, updates: seq<FileMap>)
    requires Fresh(p)
    ensures ChainOk(AfterUpdates(h, projectId, p, updates))
  {
    hide UpdatedProject, ChainOk;
    if updates == [] {
      FreshChain(p);
    } else {
      var before := AfterUpdates(h, projectId, p, updates[..|updates| - 1]);
      ChainHolds(h, projectId, p, updates[..|updates| - 1]);
      if UpdatedProject(h, projectId, before, updates[|updates| - 1]).Some? {
        UpdateChainStep(h, projectId, before, updates[|updates| - 1], "");
      }
    }
  }

  lemma FreshChain(p: Project)
    requires Fresh(p)
    ensures ChainOk(p)
  {
  }

  /** All records of the store carry positive file versions. */
  ghost predicate AllVersioned(st: Store) {
    && (forall i :: 0 <= i < |st.rows| ==> Versioned(st.rows[i].integrity))
    && (forall p :: p in st.projects && st.projects[p].workingIntegrity.Some? ==>
          Versioned(st.projects[p].workingIntegrity.value))
  }

  /** The record whose file versions a new row continues. */
  function PreviousOf(st: Store, op: Operation): Option<Integrity> {
    match op
    case Append(projectId, _, _) =>
      var current := FindCurrent(st.rows, projectId);
      if current.Some? then Some(current.value.integrity) else None
    case Create(q) => if q.projectId in st.projects then st.projects[q.projectId].workingIntegrity else None
    case CreateAndActivate(q) => if q.projectId in st.projects then st.projects[q.projectId].workingIntegrity else None
    case _ => None
  }

  lemma NewRowVersions(h: Hash, st: Store, q: Request)
    requires AllVersioned(st) && NewRow(h, st, q).Some?
    ensures q.projectId in st.projects
    ensures Versioned(NewRow(h, st, q).value.integrity)
    ensures RuleHolds(st.projects[q.projectId].workingIntegrity, NewRow(h, st, q).value.integrity)
  {
    hide Validated, BuildArtifactIntegrity, HasVersion, Versioned, RuleHolds;
    BuiltRule(h, q.projectId, q.version, Final, Validated(q.files).value, st.projects[q.projectId].workingIntegrity);
  }

  lemma AppendedVersions(h: Hash, st: Store, projectId: int, path: string, content: string)
    requires AllVersioned(st) && Appended(h, st, projectId, path, content).Some?
    ensures projectId in st.projects && FindCurrent(st.rows, projectId).Some?
    ensures var p, current := st.projects[projectId], FindCurrent(st.rows, projectId).value;
            var (row, next) := Appended(h, st, projectId, path, content).value;
            && Versioned(row.integrity) && RuleHolds(Some(current.integrity), row.integrity)
            && next.workingIntegrity.Some? && Versioned(next.workingIntegrity.value)
            && RuleHolds(Continued(p, current), next.workingIntegrity.value)
  {
    hide MergedFiles, FindCurrent, MaxVersion, BuildArtifactIntegrity, Versioned, RuleHolds;
    var p, current := st.projects[projectId], FindCurrent(st.rows, projectId).value;
    var k :| 0 <= k < |st.rows| && st.rows[k] == current;
    var files := MergedFiles(h, st, projectId, path, content).value;
    BuiltRule(h, projectId, MaxVersion(st.rows, projectId) + 1, Final, files, Some(current.integrity));
    BuiltRule(h, projectId, p.workingVersion + 1, Working, files, Continued(p, current));
  }

  lemma UpdatedVersions(h: Hash, projectId: int, p: Project, files: FileMap)
    requires p.workingIntegrity.Some? ==> Versioned(p.workingIntegrity.value)
    requires UpdatedProject(h, projectId, p, files).Some?
    ensures var next := UpdatedProject(h, projectId, p, files).value;
            && next.workingIntegrity.Some? && Versioned(next.workingIntegrity.value)
            && RuleHolds(p.workingIntegrity, next.workingIntegrity.value)
  {
    hide Validated, BuildArtifactIntegrity, Versioned, RuleHolds;
    BuiltRule(h, projectId, p.workingVersion + 1, Working, Validated(files).value, p.workingIntegrity);
  }

  /** Rows keep their records, and the last one, if there is one more, is versioned. */
  lemma RowsVersioned(before: seq<Snapshot>, after: seq<Snapshot>)
    requires KeepsRows(before, after) && |after| <= |before| + 1
    requires forall i :: 0 <= i < |before| ==> Versioned(before[i].integrity)
    requires |after| > |before| ==> Versioned(after[|before|].integrity)
    ensures forall i :: 0 <= i < |after| ==> Versioned(after[i].integrity)
  {
    hide Versioned;
  }

  /**
   The row an operation adds carries, for each path, the version of the record it continues while the
   hash stays, one more when it changed, and 1 for a new path.
   */
  lemma RowVersions(h: Hash, st: Store, op: Operation)
    requires AllVersioned(st)
    ensures var next := Step(h, st, op);
            && |st.rows| <= |next.rows| <= |st.rows| + 1
            && (|next.rows| > |st.rows| ==>
                  Versioned(next.rows[|st.rows|].integrity) &&
                  RuleHolds(PreviousOf(st, op), next.rows[|st.rows|].integrity))
  {
    hide NewRow, MarkedRow, Appended, UpdatedProject, Activate, FindCurrent, AllVersioned, Versioned, RuleHolds;
    match op {
      case Create(q) =>
        if NewRow(h, st, q).Some? {
          NewRowVersions(h, st, q);
        }
      case CreateAndActivate(q) =>
        if NewRow(h, st, q).Some? {
          NewRowVersions(h, st, q);
          ActivateKeeps(st.rows + [NewRow(h, st, q).value], q.projectId, NewRow(h, st, q).value.id);
        }
      case Append(projectId, path, content) =>
        if Appended(h, st, projectId, path, content).Some? {
          AppendedVersions(h, st, projectId, path, content);
          ActivateKeeps(st.rows + [Appended(h, st, projectId, path, content).value.0], projectId, st.nextId);
        }
      case MarkCurrent(id, projectId) =>
        ActivateKeeps(st.rows, projectId, id);
      case _ =>
    }
  }

  /** The working record of a project stays or is continued by the version rule. */
  lemma WorkingVersions(h: Hash, st: Store, op: Operation, projectId: int)
    requires AllVersioned(st) && projectId in st.projects
    ensures var next := Step(h, st, op);
            && projectId in next.projects
            && var before, after := st.projects[projectId].workingIntegrity, next.projects[projectId].workingIntegrity;
               after == before ||
               (after.Some? && Versioned(after.value) && (before.Some? ==> RuleHolds(before, after.value)))
  {
    hide NewRow, MarkedRow, Appended, UpdatedProject, Activate, FindCurrent, Versioned, RuleHolds;
    match op {
      case UpdateFiles(p, files) =>
        if p == projectId && UpdatedProject(h, p, st.projects[p], files).Some? {
          UpdatedVersions(h, p, st.projects[p], files);
        }
      case Append(p, path, content) =>
        if p == projectId && Appended(h, st, p, path, content).Some? {
          AppendedVersions(h, st, p, path, content);
        }
      case CreateAndActivate(q) =>
        CreateCommits(h, st, q);
      case _ =>
    }
  }

  /** Projects are added fresh only. */
  lemma NewProjectsFresh(h: Hash, st: Store, op: Operation, projectId: int)
    requires projectId !in st.projects && projectId in Step(h, st, op).projects
    ensures Fresh(Step(h, st, op).projects[projectId])
  {
    hide NewRow, MarkedRow, Appended, UpdatedProject, Activate;
    if op.Append? {
      AppendFails(h, st, op.projectId, op.path, op.content);
      if Appended(h, st, op.projectId, op.path, op.content).Some? {
        AppendedProject(h, st, op.projectId, op.path, op.content);
      }
    } else if op.CreateAndActivate? {
      CreateCommits(h, st, op.request);
    }
  }

  lemma AppendedProject(h: Hash, st: Store, projectId: int, path: string, content: string)
    requires Appended(h, st, projectId, path, content).Some?
    ensures projectId in st.projects
  {
    hide MergedFiles, FindCurrent, MaxVersion, BuildArtifactIntegrity;
  }

  lemma StepVersioned(h: Hash, st: Store, op: Operation)
    requires AllVersioned(st)
    ensures AllVersioned(Step(h, st, op))
  {
    hide Step, Versioned, RuleHolds;
    var next := Step(h, st, op);
    RowVersions(h, st, op);
    StepKeepsRows(h, st, op);
    RowsVersioned(st.rows, next.rows);
    forall p | p in next.projects && next.projects[p].workingIntegrity.Some?
      ensures Versioned(next.projects[p].workingIntegrity.value)
    {
      if p in st.projects {
        WorkingVersions(h, st, op, p);
      } else {
        NewProjectsFresh(h, st, op, p);
      }
    }
  }

  lemma {:induction false} RunVersioned(h: Hash, ops: seq<Operation>)
    ensures AllVersioned(Run(h, EMPTY, ops))
  {
    hide Step, AllVersioned;
    if ops == [] {
      EmptyVersioned();
    } else {
      RunVersioned(h, ops[..|ops| - 1]);
      StepVersioned(h, Run(h, EMPTY, ops[..|ops| - 1]), ops[|ops| - 1]);
    }
  }

  lemma EmptyVersioned()
    ensures AllVersioned(EMPTY)
  {
  }

  /** The working record of a project after a run. */
  ghost function WorkingAt(h: Hash, ops: seq<Operation>, projectId: int): Option<Integrity> {
    var st := Run(h, EMPTY, ops);
    if projectId in st.projects then st.projects[projectId].workingIntegrity else None
  }

  predicate Has(integrity: Option<Integrity>, path: string) {
    integrity.Some? && VersionOf(integrity.value, path).Some?
  }

  /** The path is in the working record in every state from the i-th operation on. */
  ghost predicate PresentSince(h: Hash, ops: seq<Operation>, projectId: int, i: nat, path: string)
    requires i <= |ops|
  {
    Has(WorkingAt(h, ops, projectId), path) &&
    (i < |ops| ==> PresentSince(h, ops[..|ops| - 1], projectId, i, path))
  }

  /** How often the hash of the path changed from one state to the next. */
  ghost function ChangesSince(h: Hash, ops: seq<Operation>, projectId: int, i: nat, path: string): nat
    requires i <= |ops| && PresentSince(h, ops, projectId, i, path)
  {
    if i == |ops| then 0
    else
      var before := ops[..|ops| - 1];
      ChangesSince(h, before, projectId, i, path) +
      if ShaOf(WorkingAt(h, ops, projectId).value, path) == ShaOf(WorkingAt(h, before, projectId).value, path)
      then 0 else 1
  }

  lemma WorkingStep(h: Hash, ops: seq<Operation>, projectId: int, path: string)
    requires ops != [] && Has(WorkingAt(h, ops, projectId), path)
    requires Has(WorkingAt(h, ops[..|ops| - 1], projectId), path)
    ensures var before, after := WorkingAt(h, ops[..|ops| - 1], projectId).value, WorkingAt(h, ops, projectId).value;
            VersionOf(after, path).value ==
            VersionOf(before, path).value + if ShaOf(after, path) == ShaOf(before, path) then 0 else 1
  {
    hide Step, VersionOf, ShaOf, Versioned;
    var n := |ops| - 1;
    RunVersioned(h, ops[..n]);
    WorkingVersions(h, Run(h, EMPTY, ops[..n]), ops[n], projectId);
    var before, after := WorkingAt(h, ops[..n], projectId), WorkingAt(h, ops, projectId);
    if after != before {
      assert VersionRule(before, after.value, path);
    }
  }

  /**
   Along any operations from an empty store, while a path stays in the working record its version
   grows by exactly the number of times its hash changes: it never falls and rises by one at a time.
   */
  lemma {:induction false} FileVersionChain(h: Hash, ops: seq<Operation>, projectId: int, i: nat, path: string)
    requires i <= |ops| && PresentSince(h, ops, projectId, i, path)
    ensures Has(WorkingAt(h, ops[..i], projectId), path) && Has(WorkingAt(h, ops, projectId), path)
    ensures VersionOf(WorkingAt(h, ops, projectId).value, path).value ==
            VersionOf(WorkingAt(h, ops[..i], projectId).value, path).value
            + ChangesSince(h, ops, projectId, i, path)
    decreases |ops|
  {
    hide WorkingAt, Has, VersionOf, ShaOf;
    assert ops[..|ops|] == ops;
    if i < |ops| {
      var before := ops[..|ops| - 1];
      FileVersionChain(h, before, projectId, i, path);
      assert before[..i] == ops[..i];
      PresentNow(h, before, projectId, i, path);
      WorkingStep(h, ops, projectId, path);
    }
  }

  lemma PresentNow(h: Hash, ops: seq<Operation>, projectId: int, i: nat, path: string)
    requires i <= |ops| && PresentSince(h, ops, projectId, i, path)
    ensures Has(WorkingAt(h, ops, projectId), path)
  {
    hide WorkingAt, Has;
  }

  /** Every file version lies between 1 and the version of the working artifact. */
  lemma FileVersionBound(h: Hash, projectId: int, p: Project, updates: seq<FileMap>, path: string)
    requires Fresh(p)
    ensures var now := AfterUpdates(h, projectId, p, updates);
            WorkingVersionOf(now, path).Some? ==> 1 <= WorkingVersionOf(now, path).value <= now.workingVersion
  {
    hide AfterUpdates, LastRow;
    ChainHolds(h, projectId, p, updates);
    var now := AfterUpdates(h, projectId, p, updates);
    assert WorkingVersionOf(now, path).Some? ==> LastRow(now.workingIntegrity.value.files, path).Some?;
  }

  /** The record whose file versions an append continues in the working artifact. */
  ghost function Continued(p: Project, current: Snapshot): Option<Integrity> {
    if p.workingIntegrity.Some? then p.workingIntegrity else Some(current.integrity)
  }

  /**
   What a caller can read before the append: every version of the current snapshot is within the new
   working version, and that of the file that is to change below it.
   */
  ghost predicate AppendLeavesRoom(p: Project, current: Snapshot, path: string, content: string) {
    forall file :: file in current.files ==> Fits(p, current, path, content, file)
  }

  predicate Fits(p: Project, current: Snapshot, path: string, content: string, file: string)
    requires file in current.files
  {
    PreviousVersion(Some(current.integrity), file) <=
    if file == path && current.files[file] != content then p.workingVersion else p.workingVersion + 1
  }

  /**
   An append keeps the bound of file versions by the artifact version whenever the project had a
   working record; without one exactly when the versions of the current snapshot leave room for it.
   */
  lemma AppendBoundExactly(h: Hash, st: Store, projectId: int, path: string, content: string)
    requires Valid(h, st) && Appended(h, st, projectId, path, content).Some?
    requires projectId in st.projects && FindCurrent(st.rows, projectId).Some? && ChainOk(st.projects[projectId])
    ensures var p, current := st.projects[projectId], FindCurrent(st.rows, projectId).value;
            var next := Appended(h, st, projectId, path, content).value.1;
            if p.workingIntegrity.Some? then ChainOk(next)
            else
              && (AppendLeavesRoom(p, current, path, content) ==> ChainOk(next))
              && (ChainOk(next) ==> AppendLeavesRoom(p, current, path, content) || HasCollision(h))
  {
    hide *;
    AppendedWorking(h, st, projectId, path, content);
    var p, current := st.projects[projectId], FindCurrent(st.rows, projectId).value;
    var result := Appended(h, st, projectId, path, content).value;
    WorkingBound(h, projectId, p, current, result.0.files, result.1);
    ContinuedMeans(p, current);
    CurrentRowOk(h, st, projectId);
    MergedIs(h, st, projectId, path, content);
    RoomBefore(h, p, current, path, SafePath(path).value, content, result.0.files);
  }

  lemma CurrentRowOk(h: Hash, st: Store, projectId: int)
    requires Valid(h, st) && FindCurrent(st.rows, projectId).Some?
    ensures RowOk(h, FindCurrent(st.rows, projectId).value)
  {
    hide RowOk;
    var k :| 0 <= k < |st.rows| && st.rows[k] == FindCurrent(st.rows, projectId).value;
  }

  /** The files of a revision are those of the current snapshot with one added or replaced. */
  lemma MergedIs(h: Hash, st: Store, projectId: int, path: string, content: string)
    requires Valid(h, st) && Appended(h, st, projectId, path, content).Some?
    requires FindCurrent(st.rows, projectId).Some?
    ensures SafePath(path).Ok?
    ensures var current := FindCurrent(st.rows, projectId).value;
            var n := SafePath(path).value;
            && Appended(h, st, projectId, path, content).value.0.files == current.files[n := content]
            && (if path in current.files then n == path else n !in current.files)
  {
    hide *;
    AppendedMeans(h, st, projectId, path, content);
    CurrentIsReadable(h, st, projectId);
    CurrentRowOk(h, st, projectId);
    RowSettled(h, FindCurrent(st.rows, projectId).value);
    MergeSettled(FindCurrent(st.rows, projectId).value.files, path, content);
  }

  /** The condition before the append is the one on what it builds. */
  lemma RoomBefore(h: Hash, p: Project, current: Snapshot, path: string, n: string, content: string, files: FileMap)
    requires RowOk(h, current) && files == current.files[n := content]
    requires if path in current.files then n == path else n !in current.files
    ensures AppendLeavesRoom(p, current, path, content) ==>
              LeavesRoom(h, Some(current.integrity), files, p.workingVersion + 1)
    ensures LeavesRoom(h, Some(current.integrity), files, p.workingVersion + 1) ==>
              AppendLeavesRoom(p, current, path, content) || HasCollision(h)
  {
    hide RowOk, RoomFor, Fits, HasCollision;
    if AppendLeavesRoom(p, current, path, content) {
      forall file | file in files ensures RoomFor(h, Some(current.integrity), file, files[file], p.workingVersion + 1) {
        if file in current.files {
          RoomForKept(h, p, current, path, content, files[file], file);
        } else {
          RoomForNew(h, current, file, files[file], p.workingVersion + 1);
        }
      }
    }
    if LeavesRoom(h, Some(current.integrity), files, p.workingVersion + 1) && !HasCollision(h) {
      forall file | file in current.files ensures Fits(p, current, path, content, file) {
        assert file in files;
        RoomForKept(h, p, current, path, content, files[file], file);
      }
    }
  }

  lemma RoomForNew(h: Hash, current: Snapshot, file: string, content: string, bound: int)
    requires RowOk(h, current) && file !in current.files
    ensures RoomFor(h, Some(current.integrity), file, content, bound)
  {
    hide *;
    SnapshotRowOf(h, current, file);
    RoomForMeans(h, Some(current.integrity), file, content, bound);
  }

  lemma RoomForKept(
    h: Hash, p: Project, current: Snapshot, path: string, content: string, next: string, file: string)
    requires RowOk(h, current) && file in current.files
    requires next == if file == path then content else current.files[file]
    ensures Fits(p, current, path, content, file) ==>
              RoomFor(h, Some(current.integrity), file, next, p.workingVersion + 1)
    ensures RoomFor(h, Some(current.integrity), file, next, p.workingVersion + 1) ==>
              Fits(p, current, path, content, file) || HasCollision(h)
  {
    hide *;
    SnapshotRowOf(h, current, file);
    RoomForMeans(h, Some(current.integrity), file, next, p.workingVersion + 1);
    FitsMeans(p, current, path, content, file);
    if FileSha(h, file, current.files[file]) == FileSha(h, file, next) {
      FileShaBinds(h, file, current.files[file], next);
    }
  }

  lemma RoomForMeans(h: Hash, previous: Option<Integrity>, path: string, content: string, bound: int)
    ensures RoomFor(h, previous, path, content, bound) <==>
              (PreviousRow(previous, path).Some? ==>
                 PreviousVersion(previous, path) <=
                 if PreviousRow(previous, path).value.sha256 == FileSha(h, path, content) then bound else bound - 1)
  {
    hide PreviousVersion, PreviousRow, FileSha;
  }

  lemma FitsMeans(p: Project, current: Snapshot, path: string, content: string, file: string)
    requires file in current.files
    ensures Fits(p, current, path, content, file) <==>
              PreviousVersion(Some(current.integrity), file) <=
              if file == path && current.files[file] != content then p.workingVersion else p.workingVersion + 1
  {
    hide PreviousVersion;
  }

  lemma SnapshotRowOf(h: Hash, current: Snapshot, file: string)
    requires RowOk(h, current)
    ensures PreviousRow(Some(current.integrity), file).Some? <==> file in current.files
    ensures file in current.files ==>
              && PreviousRow(Some(current.integrity), file).value.sha256 == FileSha(h, file, current.files[file])
              && PreviousVersion(Some(current.integrity), file) > 0
  {
    hide PreviousVersion, PreviousRow, FileSha, Verifies, Settled;
    VerifiedRowOf(h, current.files, current.integrity, current.projectId, current.version, Some(Final), file);
  }

  lemma WorkingBound(h: Hash, projectId: int, p: Project, current: Snapshot, files: FileMap, next: Project)
    requires ChainOk(p) && Settled(files)
    requires BuildArtifactIntegrity(h, projectId, p.workingVersion + 1, Working, files, Continued(p, current)).Ok?
    requires next.workingVersion == p.workingVersion + 1
    requires next.workingIntegrity == Some(
               BuildArtifactIntegrity(h, projectId, p.workingVersion + 1, Working, files, Continued(p, current)).value)
    ensures p.workingIntegrity.Some? ==> ChainOk(next)
    ensures ChainOk(next) <==> LeavesRoom(h, Continued(p, current), files, p.workingVersion + 1)
  {
    hide *;
    ContinuedMeans(p, current);
    SettledMeans(files);
    BoundExactly(h, projectId, p.workingVersion + 1, Working, files, Continued(p, current));
    ChainOkMeans(p);
    ChainOkMeans(next);
    if p.workingIntegrity.Some? {
      VersionStep(h, projectId, p.workingVersion + 1, Working, files, Continued(p, current));
    }
  }

  /** The working record an append commits. */
  lemma AppendedWorking(h: Hash, st: Store, projectId: int, path: string, content: string)
    requires Appended(h, st, projectId, path, content).Some?
    ensures projectId in st.projects && FindCurrent(st.rows, projectId).Some?
    ensures var p, current := st.projects[projectId], FindCurrent(st.rows, projectId).value;
            var result := Appended(h, st, projectId, path, content).value;
            var built := BuildArtifactIntegrity(
              h, projectId, p.workingVersion + 1, Working, result.0.files, Continued(p, current));
            && built.Ok? && result.1.workingIntegrity == Some(built.value)
            && result.1.workingVersion == p.workingVersion + 1
            && Settled(result.0.files)
  {
    hide *;
    AppendedMeans(h, st, projectId, path, content);
    AppendedOk(h, st, projectId, path, content);
    ContinuedMeans(st.projects[projectId], FindCurrent(st.rows, projectId).value);
    RowSettled(h, Appended(h, st, projectId, path, content).value.0);
    SettledMeans(Appended(h, st, projectId, path, content).value.0.files);
  }

  lemma ContinuedMeans(p: Project, current: Snapshot)
    ensures Continued(p, current) ==
            if p.workingIntegrity.Some? then p.workingIntegrity else Some(current.integrity)
  {
  }

  lemma ChainOkMeans(p: Project)
    ensures ChainOk(p) <==> p.workingIntegrity.None? || VersionsWithin(p.workingIntegrity.value, p.workingVersion)
  {
    hide VersionsWithin;
  }

  lemma RowSettled(h: Hash, row: Snapshot)
    requires RowOk(h, row)
    ensures Acceptable(row.files) && Normalized(row.files) == row.files
  {
    hide Acceptable, Normalized, Verifies;
  }

  /** An append to the project that would go through without a working record finds room for its versions. */
  ghost predicate LeavesRoomAt(h: Hash, st: Store, op: Operation, projectId: int) {
    op.Append? && op.projectId == projectId && Appended(h, st, projectId, op.path, op.content).Some?
    && projectId in st.projects && Fresh(st.projects[projectId]) && FindCurrent(st.rows, projectId).Some?
    ==> AppendLeavesRoom(st.projects[projectId], FindCurrent(st.rows, projectId).value, op.path, op.content)
  }

  ghost predicate AllLeaveRoom(h: Hash, ops: seq<Operation>, projectId: int) {
    ops == [] ||
    (AllLeaveRoom(h, ops[..|ops| - 1], projectId) &&
     LeavesRoomAt(h, Run(h, EMPTY, ops[..|ops| - 1]), ops[|ops| - 1], projectId))
  }

  ghost predicate BoundAt(st: Store, projectId: int) {
    projectId in st.projects ==> ChainOk(st.projects[projectId])
  }

  /** In every state of the run the project's file versions are within its working version. */
  ghost predicate BoundThroughout(h: Hash, ops: seq<Operation>, projectId: int) {
    BoundAt(Run(h, EMPTY, ops), projectId) && (ops == [] || BoundThroughout(h, ops[..|ops| - 1], projectId))
  }

  lemma AppendBound(h: Hash, st: Store, projectId: int, path: string, content: string)
    requires Valid(h, st) && BoundAt(st, projectId)
    ensures var op := Append(projectId, path, content);
            && (LeavesRoomAt(h, st, op, projectId) ==> BoundAt(Step(h, st, op), projectId))
            && (BoundAt(Step(h, st, op), projectId) ==> LeavesRoomAt(h, st, op, projectId) || HasCollision(h))
  {
    hide *;
    AppendFails(h, st, projectId, path, content);
    LeavesRoomMeans(h, st, projectId, path, content);
    if Appended(h, st, projectId, path, content).Some? {
      AppendCommits(h, st, projectId, path, content);
      AppendedWorking(h, st, projectId, path, content);
      BoundMeans(st, projectId);
      BoundMeans(Step(h, st, Append(projectId, path, content)), projectId);
      AppendBoundExactly(h, st, projectId, path, content);
    }
  }

  lemma BoundMeans(st: Store, projectId: int)
    requires projectId in st.projects
    ensures BoundAt(st, projectId) <==> ChainOk(st.projects[projectId])
  {
  }

  lemma LeavesRoomMeans(h: Hash, st: Store, projectId: int, path: string, content: string)
    ensures LeavesRoomAt(h, st, Append(projectId, path, content), projectId) <==>
              (Appended(h, st, projectId, path, content).Some? && projectId in st.projects
               && st.projects[projectId].workingIntegrity.None? && FindCurrent(st.rows, projectId).Some? ==>
                 AppendLeavesRoom(st.projects[projectId], FindCurrent(st.rows, projectId).value, path, content))
  {
    hide Appended, FindCurrent, AppendLeavesRoom;
  }

  lemma UpdateBound(h: Hash, st: Store, projectId: int, files: FileMap, other: int)
    requires BoundAt(st, other)
    ensures BoundAt(Step(h, st, UpdateFiles(projectId, files)), other)
  {
    hide UpdatedProject, ChainOk;
    if projectId == other && other in st.projects && UpdatedProject(h, other, st.projects[other], files).Some? {
      UpdateChainStep(h, other, st.projects[other], files, "");
    }
  }

  /** The operations on snapshots touch the manifest of a project only. */
  lemma SnapshotBound(h: Hash, st: Store, op: Operation, projectId: int)
    requires BoundAt(st, projectId)
    requires op.NewProject? || op.Create? || op.CreateAndActivate? || op.MarkCurrent?
    ensures BoundAt(Step(h, st, op), projectId)
  {
    hide NewRow, MarkedRow, Activate, VersionsWithin;
    if op.CreateAndActivate? {
      CreateCommits(h, st, op.request);
    }
  }

  lemma StepBound(h: Hash, st: Store, op: Operation, projectId: int)
    requires Valid(h, st) && BoundAt(st, projectId)
    ensures LeavesRoomAt(h, st, op, projectId) ==> BoundAt(Step(h, st, op), projectId)
    ensures BoundAt(Step(h, st, op), projectId) ==> LeavesRoomAt(h, st, op, projectId) || HasCollision(h)
  {
    hide Valid, Step, Appended, ChainOk, AppendLeavesRoom, HasCollision, OthersUntouched;
    match op {
      case UpdateFiles(p, files) =>
        UpdateBound(h, st, p, files, projectId);
      case Append(p, path, content) =>
        if p == projectId {
          AppendBound(h, st, projectId, path, content);
        } else {
          OperationsAreLocal(h, st, op);
          OtherProject(st, Step(h, st, op), p, projectId);
        }
      case _ =>
        SnapshotBound(h, st, op, projectId);
    }
  }

  lemma OtherProject(st: Store, next: Store, projectId: int, other: int)
    requires OthersUntouched(st, next, projectId) && other != projectId && BoundAt(st, other)
    ensures BoundAt(next, other)
  {
    hide KeepsRows, ChainOk;
  }

  /**
   Along any operations from an empty store the bound holds in every state exactly when each append
   without a working record finds room in the current snapshot.
   */
  lemma {:induction false} RunBoundExactly(h: Hash, ops: seq<Operation>, projectId: int)
    ensures AllLeaveRoom(h, ops, projectId) ==> BoundThroughout(h, ops, projectId)
    ensures BoundThroughout(h, ops, projectId) ==> AllLeaveRoom(h, ops, projectId) || HasCollision(h)
  {
    hide Valid, Step, LeavesRoomAt, HasCollision, ChainOk;
    if ops != [] {
      var n := |ops| - 1;
      RunBoundExactly(h, ops[..n], projectId);
      RunValid(h, ops[..n]);
      if BoundAt(Run(h, EMPTY, ops[..n]), projectId) {
        StepBound(h, Run(h, EMPTY, ops[..n]), ops[n], projectId);
      }
      if BoundThroughout(h, ops[..n], projectId) {
        BoundNow(h, ops[..n], projectId);
      }
    }
  }

  lemma BoundNow(h: Hash, ops: seq<Operation>, projectId: int)
    requires BoundThroughout(h, ops, projectId)
    ensures BoundAt(Run(h, EMPTY, ops), projectId)
  {
    hide Run, BoundAt;
  }

  const FIRST_FILES: FileMap := map["a" := "x"]
  const FIRST_REQUEST := Request(1, 1, 1, FIRST_FILES, 1, Manifest("", true))

  /** A run from an empty store after which a file version exceeds the working version. */
  const BREAKING_RUN := [NewProject(1, 1), CreateAndActivate(FIRST_REQUEST), Append(1, "a", "y")]

  /** A project, one activated snapshot, and an append that changes its file: version 2 in working artifact 1. */
  lemma AppendBreaksBound(h: Hash)
    ensures var st := Run(h, EMPTY, BREAKING_RUN);
            1 in st.projects && (!ChainOk(st.projects[1]) || HasCollision(h))
  {
    hide *;
    var created := AfterCreate(h);
    BreakingRunIs(h);
    var path, content := "a", "y";
    FirstCurrent(h);
    AppendGoesThrough(h);
    AppendCommits(h, created, 1, path, content);
    CreatedValid(h);
    FirstChainOk(h);
    AppendBoundExactly(h, created, 1, path, content);
    CurrentRowOk(h, created, 1);
    SnapshotRowOf(h, FindCurrent(created.rows, 1).value, path);
    NoRoom(created.projects[1], FindCurrent(created.rows, 1).value, path, content);
  }

  ghost function AfterCreate(h: Hash): Store {
    Step(h, Step(h, EMPTY, NewProject(1, 1)), CreateAndActivate(FIRST_REQUEST))
  }

  lemma BreakingRunIs(h: Hash)
    ensures Run(h, EMPTY, BREAKING_RUN) == Step(h, AfterCreate(h), Append(1, "a", "y"))
  {
    hide Step;
    var ops := BREAKING_RUN;
    assert ops[..2][..1] == ops[..1] && ops[..1][..0] == [];
    assert Run(h, EMPTY, ops[..1]) == Step(h, EMPTY, ops[0]);
    assert Run(h, EMPTY, ops[..2]) == Step(h, Run(h, EMPTY, ops[..1]), ops[1]);
  }

  lemma NoRoom(p: Project, current: Snapshot, path: string, content: string)
    requires path in current.files && current.files[path] != content
    requires PreviousVersion(Some(current.integrity), path) > p.workingVersion
    ensures !AppendLeavesRoom(p, current, path, content)
  {
    hide PreviousVersion;
    assert !Fits(p, current, path, content, path);
  }

  const FIRST_PROJECT := Project(1, 0, None, None, None)

  lemma SmallFile(content: string)
    requires |content| == 1 && content[0] < 'z'
    ensures Validated(map["a" := content]) == Some(map["a" := content])
  {
    hide SafePath, Validated;
    LetterPath();
    ShortNotInherited("a");
    assert content[1..] == "";
    OneFile("a", content);
  }

  /** A request nothing speaks against inserts a row. */
  lemma NewRowWhen(h: Hash, st: Store, q: Request, files: FileMap)
    requires q.manifest.resolved && Validated(q.files) == Some(files) && q.fileCount == |files|
    requires q.projectId in st.projects && st.projects[q.projectId].userId == q.userId
    requires !HasVersion(st.rows, q.projectId, q.version)
    requires BuildArtifactIntegrity(
               h, q.projectId, q.version, Final, files, st.projects[q.projectId].workingIntegrity).Ok?
    ensures RowOfRequest(NewRow(h, st, q), q, files, st.nextId)
  {
    hide Validated, BuildArtifactIntegrity, HasVersion;
  }

  predicate RowOfRequest(row: Option<Snapshot>, q: Request, files: FileMap, id: int) {
    row.Some? && row.value.id == id && row.value.projectId == q.projectId && row.value.files == files &&
    row.value.manifest == q.manifest
  }

  /** The first request inserts its row. */
  lemma FirstRow(h: Hash)
    ensures RowOfRequest(NewRow(h, FIRST_STORE, FIRST_REQUEST), FIRST_REQUEST, FIRST_FILES, 1)
  {
    hide *;
    FirstFacts();
    ValidatedMeans(FIRST_FILES);
    BuildSucceeds(h, 1, 1, Final, FIRST_FILES, None);
    NewRowWhen(h, FIRST_STORE, FIRST_REQUEST, FIRST_FILES);
  }

  lemma FirstFacts()
    ensures FIRST_REQUEST == Request(1, 1, 1, FIRST_FILES, 1, Manifest("", true))
    ensures |FIRST_FILES| == 1 && Validated(FIRST_FILES) == Some(FIRST_FILES)
    ensures 1 in FIRST_STORE.projects && FIRST_STORE.projects[1] == Project(1, 0, None, None, None)
    ensures !HasVersion(FIRST_STORE.rows, 1, 1) && FIRST_STORE.nextId == 1
  {
    hide Validated;
    SmallFile("x");
  }

  const FIRST_STORE := Store(map[1 := FIRST_PROJECT], [], 1)

  lemma FirstStep(h: Hash)
    ensures Step(h, EMPTY, NewProject(1, 1)) == FIRST_STORE
  {
    var none: map<int, Project> := map[];
    assert none[1 := FIRST_PROJECT] == map[1 := FIRST_PROJECT];
  }

  lemma CreatedValid(h: Hash)
    ensures Valid(h, AfterCreate(h))
  {
    hide Valid, Step;
    EmptyValid(h);
    StepValid(h, EMPTY, NewProject(1, 1));
    StepValid(h, Step(h, EMPTY, NewProject(1, 1)), CreateAndActivate(FIRST_REQUEST));
  }

  /** After the first request its snapshot is current and the project has no working record yet. */
  lemma FirstCurrent(h: Hash)
    ensures var created := AfterCreate(h);
            && 1 in created.projects
            && created.projects[1] == FIRST_PROJECT.(manifest := Some(FIRST_REQUEST.manifest))
            && FindCurrent(created.rows, 1).Some? && FindCurrent(created.rows, 1).value.files == FIRST_FILES
            && FindCurrent(created.rows, 1).value.manifest.resolved
  {
    hide NewRow, Step, Activate, FindCurrent;
    var st := FIRST_STORE;
    FirstStep(h);
    FirstRow(h);
    CreateCommits(h, st, FIRST_REQUEST);
    var row := NewRow(h, st, FIRST_REQUEST).value;
    NewRowOwner(h, st, FIRST_REQUEST);
    assert st.rows + [row] == [row];
    ActivatedRows([row], {1}, 2, 1, 0);
    OnlyCurrent(Activate([row], 1, row.id), 1, 0);
  }

  lemma FirstChainOk(h: Hash)
    ensures 1 in AfterCreate(h).projects && ChainOk(AfterCreate(h).projects[1])
    ensures AfterCreate(h).projects[1].workingIntegrity.None? && AfterCreate(h).projects[1].workingVersion == 0
    ensures "a" in FIRST_FILES && FIRST_FILES["a"] == "x" && "x" != "y"
  {
    hide AfterCreate;
    FirstCurrent(h);
  }

  /** An append succeeds when the merged files validate and both records can be built from them. */
  lemma AppendedWhen(h: Hash, st: Store, projectId: int, path: string, content: string, row: Snapshot, files: FileMap)
    requires projectId in st.projects && FindCurrent(st.rows, projectId) == Some(row) && row.manifest.resolved
    requires MergedFiles(h, st, projectId, path, content) == Some(files)
    requires BuildArtifactIntegrity(
               h, projectId, MaxVersion(st.rows, projectId) + 1, Final, files, Some(row.integrity)).Ok?
    requires var p := st.projects[projectId];
             BuildArtifactIntegrity(
               h, projectId, p.workingVersion + 1, Working, files,
               if p.workingIntegrity.Some? then p.workingIntegrity else Some(row.integrity)).Ok?
    ensures Appended(h, st, projectId, path, content).Some?
  {
    hide MergedFiles, FindCurrent, MaxVersion, BuildArtifactIntegrity;
  }

  lemma MergedWhen(h: Hash, st: Store, projectId: int, path: string, content: string, artifact: Artifact)
    requires CurrentArtifact(h, st, projectId) == Found(artifact)
    ensures MergedFiles(h, st, projectId, path, content) == Validated(artifact.files[path := content])
  {
    hide CurrentArtifact, Validated;
  }

  /** The append to it succeeds. */
  lemma AppendGoesThrough(h: Hash)
    ensures Appended(h, AfterCreate(h), 1, "a", "y").Some?
  {
    hide *;
    var created := AfterCreate(h);
    FirstCurrent(h);
    FirstChainOk(h);
    CreatedValid(h);
    CurrentIsReadable(h, created, 1);
    var row := FindCurrent(created.rows, 1).value;
    var merged: FileMap := map["a" := "y"];
    MergedWhen(h, created, 1, "a", "y", Artifact(row.id, row.version, row.files, row.integrity));
    SecondFiles();
    SmallFile("y");
    ValidatedMeans(merged);
    BuildSucceeds(h, 1, MaxVersion(created.rows, 1) + 1, Final, merged, Some(row.integrity));
    BuildSucceeds(h, 1, 1, Working, merged, Some(row.integrity));
    AppendedWhen(h, created, 1, "a", "y", row, merged);
  }

  lemma SecondFiles()
    ensures FIRST_FILES["a" := "y"] == map["a" := "y"]
  {
  }

  // ----- the tables, updated statement by statement -----

  lemma UpdateCommits(h: Hash, st: Store, projectId: int, files: FileMap)
    ensures Step(h, st, UpdateFiles(projectId, files)) ==
            if projectId !in st.projects || UpdatedProject(h, projectId, st.projects[projectId], files).None? then st
            else st.(projects := st.projects[projectId :=
                       UpdatedProject(h, projectId, st.projects[projectId], files).value])
  {
    hide UpdatedProject;
  }

  lemma ActivateMeans(rows: seq<Snapshot>, projectId: int, id: int)
    ensures Activate(rows, projectId, id) == SetCurrent(ClearCurrent(rows, projectId), id)
  {
  }

  lemma VerifiedFilesMeans(h: Hash, row: Snapshot)
    ensures VerifiedFiles(h, row) ==
            if Acceptable(row.files) &&
               Verifies(h, Normalized(row.files), row.integrity, row.projectId, row.version, Some(Final))
            then Some(Normalized(row.files)) else None
  {
    hide Acceptable, Normalized, Verifies;
    ValidatedMeans(row.files);
  }

  lemma CurrentArtifactMeans(h: Hash, st: Store, projectId: int)
    ensures var row := FindCurrent(st.rows, projectId);
            CurrentArtifact(h, st, projectId) ==
            if row.None? then NoSnapshot
            else if VerifiedFiles(h, row.value).None? then Broken
            else Found(Artifact(row.value.id, row.value.version, VerifiedFiles(h, row.value).value,
                                row.value.integrity))
  {
    hide FindCurrent, VerifiedFiles;
  }

  lemma MarkedRowMeans(h: Hash, st: Store, id: int, projectId: int)
    ensures var row := FindRow(st.rows, projectId, id);
            MarkedRow(h, st, id, projectId) ==
            if row.None? || !row.value.manifest.resolved || VerifiedFiles(h, row.value).None? then None else row
  {
    hide FindRow, VerifiedFiles;
  }

  lemma MarkStep(h: Hash, st: Store, id: int, projectId: int)
    requires MarkedRow(h, st, id, projectId).Some?
    ensures Step(h, st, MarkCurrent(id, projectId)) ==
            st.(rows := Activate(st.rows, projectId, id),
                projects := WithManifest(st.projects, projectId, MarkedRow(h, st, id, projectId).value.manifest))
  {
    hide Activate, MarkedRow, WithManifest;
  }

  lemma MarkedProject(h: Hash, st: Store, id: int, projectId: int)
    requires Valid(h, st) && MarkedRow(h, st, id, projectId).Some?
    ensures projectId in st.projects
  {
    hide AllRowsOk, AllProjectsOk, Exclusive, VerifiedFiles;
    var k := FoundAt(st.rows, projectId, id);
  }

  predicate NoneCurrent(rows: seq<Snapshot>, projectId: int) {
    forall row :: row in rows && row.projectId == projectId ==> !row.isCurrent
  }

  lemma NoneCurrentMeans(rows: seq<Snapshot>, projectId: int)
    ensures NoneCurrent(rows, projectId) <==> FindCurrent(rows, projectId).None?
  {
    hide FindCurrent;
  }

  /** The artifact is a current snapshot of the project, whose files validate and match its record. */
  ghost predicate FoundIn(h: Hash, rows: seq<Snapshot>, projectId: int, a: Artifact) {
    exists row :: row in rows && row.projectId == projectId && row.isCurrent && ArtifactOf(h, row, a)
  }

  ghost predicate ArtifactOf(h: Hash, row: Snapshot, a: Artifact) {
    && a.snapshotId == row.id && a.version == row.version && a.integrity == row.integrity
    && Acceptable(row.files) && a.files == Normalized(row.files)
    && Verifies(h, a.files, row.integrity, row.projectId, row.version, Some(Final))
  }

  lemma CurrentFound(h: Hash, rows: seq<Snapshot>, projectId: int)
    requires FindCurrent(rows, projectId).Some? && VerifiedFiles(h, FindCurrent(rows, projectId).value).Some?
    ensures var row := FindCurrent(rows, projectId).value;
            FoundIn(h, rows, projectId, Artifact(row.id, row.version, VerifiedFiles(h, row).value, row.integrity))
  {
    hide Acceptable, Normalized, Verifies, FindCurrent, VerifiedFiles;
    var row := FindCurrent(rows, projectId).value;
    VerifiedFilesMeans(h, row);
    assert ArtifactOf(h, row, Artifact(row.id, row.version, VerifiedFiles(h, row).value, row.integrity));
  }

  class SnapshotTable {
    const h: Hash
    var projects: map<int, Project>
    var rows: seq<Snapshot>
    var nextId: int

    ghost function State(): Store
      reads this
    {
      Store(projects, rows, nextId)
    }

    constructor (h: Hash)
      ensures this.h == h && State() == EMPTY
    {
      this.h := h;
      projects := map[];
      rows := [];
      nextId := 1;
    }

    method UpdateProjectFiles(id: int, files: FileMap) returns (r: Option<Integrity>)
      modifies this
      ensures State() == Step(h, old(State()), UpdateFiles(id, files))
      ensures r.Some? <==> id in old(projects) && UpdatedProject(h, id, old(projects)[id], files).Some?
      ensures r.Some? ==> id in projects && projects[id].workingIntegrity == r
    {
      hide Step, Acceptable, Normalized, BuildArtifactIntegrity, RecordFor;
      UpdateCommits(h, State(), id, files);
      ValidatedMeans(files);
      var normalized := ValidateMap(files);
      if normalized.Err? || id !in projects {
        return None;
      }
      var project := projects[id];
      var artifactVersion := project.workingVersion + 1;
      var integrity :=
        BuildIntegrity(h, id, artifactVersion, Working, normalized.value, project.workingIntegrity);
      if integrity.Err? {
        return None;
      }
      projects := projects[id := project.(
        generatedFiles := Some(normalized.value), workingVersion := artifactVersion,
        workingIntegrity := Some(integrity.value))];
      return Some(integrity.value);
    }

    /** The row a snapshot request inserts, if nothing speaks against it. */
    method PrepareRow(q: Request) returns (row: Option<Snapshot>)
      ensures row == NewRow(h, State(), q)
    {
      hide Acceptable, Normalized, BuildArtifactIntegrity, HasVersion, RecordFor;
      ValidatedMeans(q.files);
      if !q.manifest.resolved {
        return None;
      }
      var files := ValidateMap(q.files);
      if files.Err? || q.fileCount != |files.value| {
        return None;
      }
      if q.projectId !in projects || projects[q.projectId].userId != q.userId {
        return None;
      }
      if HasVersion(rows, q.projectId, q.version) {
        return None;
      }
      var integrity := BuildIntegrity(
        h, q.projectId, q.version, Final, files.value, projects[q.projectId].workingIntegrity);
      if integrity.Err? {
        return None;
      }
      return Some(Snapshot(
        nextId, q.projectId, q.userId, q.version, files.value, integrity.value.fileCount, q.manifest,
        integrity.value, false));
    }

    method CreateBuildSnapshot(q: Request) returns (id: Option<int>)
      modifies this
      ensures State() == Step(h, old(State()), Create(q))
      ensures id == if NewRow(h, old(State()), q).Some? then Some(old(nextId)) else None
    {
      hide Step, NewRow, Activate;
      CreateCommits(h, State(), q);
      var row := PrepareRow(q);
      if row.None? {
        return None;
      }
      id := Some(nextId);
      rows, nextId := rows + [row.value], nextId + 1;
    }

    method CreateAndActivateBuildSnapshot(q: Request) returns (r: Option<(int, Integrity)>)
      modifies this
      ensures State() == Step(h, old(State()), CreateAndActivate(q))
      ensures var row := NewRow(h, old(State()), q);
              r == if row.Some? then Some((row.value.id, row.value.integrity)) else None
      ensures r.None? ==> State() == old(State())
      ensures r.Some? ==>
                |rows| == |old(rows)| + 1
                && rows[|old(rows)|].id == r.value.0 && rows[|old(rows)|].integrity == r.value.1
    {
      hide Step, NewRow, Activate, ClearCurrent, SetCurrent;
      CreateCommits(h, State(), q);
      var row := PrepareRow(q);
      if row.None? {
        return None;
      }
      var id := row.value.id;
      ActivateMeans(rows + [row.value], q.projectId, id);
      rows, nextId := rows + [row.value], nextId + 1;
      rows := ClearCurrent(rows, q.projectId);
      rows := SetCurrent(rows, id);
      projects := projects[q.projectId := projects[q.projectId].(manifest := Some(q.manifest))];
      return Some((id, row.value.integrity));
    }

    /** `validateArtifactFiles` and `assertArtifactIntegrity` on a stored snapshot. */
    method ReadVerified(row: Snapshot) returns (files: Option<FileMap>)
      ensures files == VerifiedFiles(h, row)
    {
      hide *;
      VerifiedFilesMeans(h, row);
      var validated := ValidateMap(row.files);
      if validated.Err? {
        return None;
      }
      var ok := VerifyMap(h, validated.value, row.integrity, row.projectId, row.version, Final);
      return if ok then Some(validated.value) else None;
    }

    method GetCurrentArtifact(projectId: int) returns (r: Reading)
      ensures r == CurrentArtifact(h, State(), projectId)
      ensures r.NoSnapshot? <==> NoneCurrent(rows, projectId)
      ensures r.Found? ==> FoundIn(h, rows, projectId, r.artifact)
    {
      hide CurrentArtifact, VerifiedFiles, FindCurrent, FoundIn, NoneCurrent;
      NoneCurrentMeans(rows, projectId);
      CurrentArtifactMeans(h, State(), projectId);
      var row := FindCurrent(rows, projectId);
      if row.None? {
        return NoSnapshot;
      }
      var files := ReadVerified(row.value);
      if files.None? {
        return Broken;
      }
      CurrentFound(h, rows, projectId);
      return Found(Artifact(row.value.id, row.value.version, files.value, row.value.integrity));
    }

    method MarkSnapshotAsCurrent(id: int, projectId: int) returns (ok: bool)
      modifies this
      ensures State() == Step(h, old(State()), MarkCurrent(id, projectId))
      ensures ok <==> MarkedRow(h, old(State()), id, projectId).Some?
    {
      hide Step, MarkedRow, VerifiedFiles, FindRow, Activate, ClearCurrent, SetCurrent;
      MarkCommits(h, State(), id, projectId);
      MarkedRowMeans(h, State(), id, projectId);
      var row := FindRow(rows, projectId, id);
      if row.None? || !row.value.manifest.resolved {
        return false;
      }
      var files := ReadVerified(row.value);
      if files.None? {
        return false;
      }
      MarkStep(h, State(), id, projectId);
      ActivateMeans(rows, projectId, id);
      rows := ClearCurrent(rows, projectId);
      rows := SetCurrent(rows, id);
      if projectId in projects {
        projects := projects[projectId := projects[projectId].(manifest := Some(row.value.manifest))];
      }
      return true;
    }

    /** A failure after the first writes puts the tables back. */
    method AppendArtifactToCurrentSnapshot(projectId: int, path: string, content: string)
      returns (r: Option<Artifact>)
      modifies this
      ensures State() == Step(h, old(State()), Append(projectId, path, content))
      ensures var result := Appended(h, old(State()), projectId, path, content);
              r == if result.None? then None
                   else Some(Artifact(old(nextId), result.value.0.version, result.value.0.files,
                                      result.value.0.integrity))
    {
      hide Step, Appended, CurrentArtifact, VerifiedFiles, FindCurrent, MaxVersion, Acceptable, Normalized,
        BuildArtifactIntegrity, Activate, ClearCurrent, SetCurrent, RecordFor, FoundIn, NoneCurrent, Verifies;
      AppendFails(h, State(), projectId, path, content);
      AppendedMeans(h, State(), projectId, path, content);
      var projectsBefore, rowsBefore, nextIdBefore := projects, rows, nextId;
      if projectId !in projects {
        return None;
      }
      var project := projects[projectId];
      var reading := GetCurrentArtifact(projectId);
      if !reading.Found? {
        return None;
      }
      var currents := FindCurrent(rows, projectId);
      CurrentArtifactMeans(h, State(), projectId);
      var current := currents.value;
      var files := ValidateMap(reading.artifact.files[path := content]);
      if files.Err? || !current.manifest.resolved {
        return None;
      }
      var version := MaxVersion(rows, projectId) + 1;
      var integrity := BuildIntegrity(h, projectId, version, Final, files.value, Some(current.integrity));
      if integrity.Err? {
        return None;
      }
      var row := Snapshot(
        nextId, projectId, project.userId, version, files.value, integrity.value.fileCount, current.manifest,
        integrity.value, false);
      ActivateMeans(rows + [row], projectId, row.id);
      rows, nextId := rows + [row], nextId + 1;
      rows := ClearCurrent(rows, projectId);
      rows := SetCurrent(rows, row.id);
      var previous :=
        if project.workingIntegrity.Some? then project.workingIntegrity else Some(current.integrity);
      var working := BuildIntegrity(h, projectId, project.workingVersion + 1, Working, files.value, previous);
      if working.Err? {
        projects, rows, nextId := projectsBefore, rowsBefore, nextIdBefore;
        return None;
      }
      AppendCommits(h, old(State()), projectId, path, content);
      projects := projects[projectId := project.(
        generatedFiles := Some(files.value), workingVersion := project.workingVersion + 1,
        workingIntegrity := Some(working.value), manifest := Some(current.manifest))];
      return Some(Artifact(row.id, version, files.value, integrity.value));
    }
  }

  lemma AppendFails(h: Hash, st: Store, projectId: int, path: string, content: string)
    ensures Appended(h, st, projectId, path, content).None? ==> Step(h, st, Append(projectId, path, content)) == st
  {
    hide Appended, Activate;
  }

  lemma AppendedMeans(h: Hash, st: Store, projectId: int, path: string, content: string)
    ensures var reading := CurrentArtifact(h, st, projectId);
            var result := Appended(h, st, projectId, path, content);
            if projectId !in st.projects || !reading.Found? ||
               !Acceptable(reading.artifact.files[path := content]) ||
               FindCurrent(st.rows, projectId).None? || !FindCurrent(st.rows, projectId).value.manifest.resolved
            then result.None?
            else
              var p, row := st.projects[projectId], FindCurrent(st.rows, projectId).value;
              var files := Normalized(reading.artifact.files[path := content]);
              var version := MaxVersion(st.rows, projectId) + 1;
              var built := BuildArtifactIntegrity(h, projectId, version, Final, files, Some(row.integrity));
              var previous := if p.workingIntegrity.Some? then p.workingIntegrity else Some(row.integrity);
              var working :=
                BuildArtifactIntegrity(h, projectId, p.workingVersion + 1, Working, files, previous);
              if built.Err? || working.Err? then result.None?
              else
                result == Some((
                  Snapshot(st.nextId, projectId, p.userId, version, files, built.value.fileCount, row.manifest,
                           built.value, false),
                  p.(generatedFiles := Some(files), workingVersion := p.workingVersion + 1,
                     workingIntegrity := Some(working.value), manifest := Some(row.manifest))))
  {
    hide CurrentArtifact, FindCurrent, MaxVersion, BuildArtifactIntegrity, Acceptable, Normalized, Validated;
    if CurrentArtifact(h, st, projectId).Found? {
      ValidatedMeans(CurrentArtifact(h, st, projectId).artifact.files[path := content]);
    }
  }
}
