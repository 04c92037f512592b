/**
 The coordination record of src/lib/agentCoordination.ts: exclusive file ownership, dependency
 unlocking, handoff checks and the repair of a record on resume.
 */
module AgentCoordination {
  import opened Wrappers
  import opened JsObject

  /** Plans and records hold trimmed, non-empty names only; their schemas see to it. */
  type Name = s: string | s != "" witness "-"

  datatype Status = Pending | Blocked | Running | Retrying | Paused | Failed | Completed

  datatype TaskState = TaskState(
    taskId: Name, ownerAgent: Name, requirementIds: seq<Name>, dependencies: seq<Name>, ownedFiles: seq<Name>,
    validations: seq<Name>, status: Status, attempts: nat, lastError: Option<string>, outputFiles: seq<Name>)

  datatype Task = Task(
    id: Name, agent: Name, requirementIds: seq<Name>, dependencies: seq<Name>, files: seq<Name>, validations: seq<Name>)

  datatype Record = Record(taskStates: map<Name, TaskState>, fileOwners: map<Name, Name>)

  datatype Context = Context(tasks: seq<Task>, taskToAgent: map<Name, Name>, requirementIds: seq<Name>)

  datatype CoordinationError =
    | DuplicateOwnership(file: Name, task: Name)
    | UnknownTask(task: Name)
    | DependencyIncomplete(task: Name, dependency: Name)
    | ForeignRequirement(task: Name, requirement: Name)
    | FileNotOwned(task: Name, file: Name)
    | AgentDisagrees(task: Name)
    | NoOutput(task: Name)
    | UnownedWrite(task: Name, file: Name)
    | OverwritesOther(task: Name, file: Name)

  // ----- creating a record -----

  /** The status of a task that has to be done (again). */
  function InitialStatus(dependencies: seq<Name>): Status {
    if |dependencies| > 0 then Blocked else Pending
  }

  function InitialState(t: Task): TaskState {
    TaskState(t.id, t.agent, t.requirementIds, t.dependencies, t.files, t.validations,
              InitialStatus(t.dependencies), 0, None, [])
  }

  predicate Lists(t: Task, f: Name) {
    f in t.files
  }

  /** No file is listed by two tasks of different ids, or named like an inherited property. */
  ghost predicate OwnershipExclusive(tasks: seq<Task>) {
    && (forall i, f: Name :: 0 <= i < |tasks| && Lists(tasks[i], f) ==> !Inherited(f))
    && (forall i, j, f: Name :: 0 <= i < |tasks| && 0 <= j < |tasks| && Lists(tasks[i], f) && Lists(tasks[j], f) ==>
          tasks[i].id == tasks[j].id)
  }

  ghost predicate OwnersOf(tasks: seq<Task>, owners: map<Name, Name>) {
    && (forall f :: f in owners ==> exists i :: 0 <= i < |tasks| && Lists(tasks[i], f))
    && (forall i, f: Name :: 0 <= i < |tasks| && Lists(tasks[i], f) ==> f in owners && owners[f] == tasks[i].id)
  }

  /** Tasks of one id share one state; the last of them is recorded. */
  function StatesOf(tasks: seq<Task>): map<Name, TaskState> {
    if tasks == [] then map[]
    else
      var last := tasks[|tasks| - 1];
      StatesOf(tasks[..|tasks| - 1])[last.id := InitialState(last)]
  }

  ghost predicate RecordOf(tasks: seq<Task>, r: Record) {
    OwnersOf(tasks, r.fileOwners) && r.taskStates == StatesOf(tasks)
  }

  /** A task that has not begun, with everything the plan says about it. */
  predicate Begins(t: Task, s: TaskState) {
    && s.taskId == t.id && s.ownerAgent == t.agent && s.requirementIds == t.requirementIds
    && s.dependencies == t.dependencies && s.ownedFiles == t.files && s.validations == t.validations
    && s.status == (if t.dependencies == [] then Pending else Blocked)
    && s.attempts == 0 && s.lastError == None && s.outputFiles == []
  }

  /** No later task has the same id. */
  predicate LastOfId(tasks: seq<Task>, i: nat) {
    i < |tasks| && forall j :: i < j < |tasks| ==> tasks[j].id != tasks[i].id
  }

  /** Every task has its first state; of tasks with one id the last counts. */
  ghost predicate AllBegin(tasks: seq<Task>, states: map<Name, TaskState>) {
    && states.Keys == Ids(tasks)
    && (forall i: nat :: LastOfId(tasks, i) ==> Begins(tasks[i], states[tasks[i].id]))
  }

  lemma {:induction false} StatesBegin(tasks: seq<Task>)
    ensures AllBegin(tasks, StatesOf(tasks))
  {
    hide Begins, AllBegin, InitialState;
    if tasks == [] {
      NoneBegin();
    } else {
      var n := |tasks| - 1;
      StatesBegin(tasks[..n]);
      BeginsInitially(tasks[n]);
      BeginStep(tasks, StatesOf(tasks[..n]), InitialState(tasks[n]));
    }
  }

  lemma NoneBegin()
    ensures AllBegin([], map[])
  {
  }

  lemma BeginsInitially(t: Task)
    ensures Begins(t, InitialState(t))
  {
  }

  lemma BeganBefore(tasks: seq<Task>, states: map<Name, TaskState>, i: nat)
    requires tasks != [] && AllBegin(tasks[..|tasks| - 1], states) && LastOfId(tasks, i) && i < |tasks| - 1
    ensures tasks[i].id in states && Begins(tasks[i], states[tasks[i].id])
    ensures tasks[i].id != tasks[|tasks| - 1].id
  {
    hide Begins;
    var shorter := tasks[..|tasks| - 1];
    assert shorter[i] == tasks[i];
    assert shorter[i].id in Ids(shorter);
    assert LastOfId(shorter, i);
  }

  lemma BeginStep(tasks: seq<Task>, states: map<Name, TaskState>, s: TaskState)
    requires tasks != [] && AllBegin(tasks[..|tasks| - 1], states) && Begins(tasks[|tasks| - 1], s)
    ensures AllBegin(tasks, states[tasks[|tasks| - 1].id := s])
  {
    hide *;
    var n := |tasks| - 1;
    var after := states[tasks[n].id := s];
    IdsStep(tasks);
    BeginKeys(tasks[..n], states);
    forall i: nat | LastOfId(tasks, i)
      ensures i < |tasks| && tasks[i].id in after && Begins(tasks[i], after[tasks[i].id])
    {
      LastIsIndex(tasks, i);
      if i < n {
        BeganBefore(tasks, states, i);
      }
    }
    AllBeginFrom(tasks, after);
  }

  lemma LastIsIndex(tasks: seq<Task>, i: nat)
    requires LastOfId(tasks, i)
    ensures i < |tasks|
  {
  }

  lemma BeginKeys(tasks: seq<Task>, states: map<Name, TaskState>)
    requires AllBegin(tasks, states)
    ensures states.Keys == Ids(tasks)
  {
    hide Ids;
  }

  lemma AllBeginFrom(tasks: seq<Task>, states: map<Name, TaskState>)
    requires states.Keys == Ids(tasks)
    requires forall i: nat :: LastOfId(tasks, i) ==>
               i < |tasks| && tasks[i].id in states && Begins(tasks[i], states[tasks[i].id])
    ensures AllBegin(tasks, states)
  {
    hide Ids, Begins;
  }

  /** A task of another id has listed the file before, or its name is an inherited one. */
  ghost predicate Clashes(tasks: seq<Task>, i: nat, f: Name)
    requires i < |tasks|
  {
    f in INHERITED_NAMES || exists k :: 0 <= k < i && f in tasks[k].files && tasks[k].id != tasks[i].id
  }

  /** The first clash, in the order in which the files of the tasks are listed. */
  ghost predicate FirstClash(tasks: seq<Task>, i: nat, j: nat) {
    && i < |tasks| && j < |tasks[i].files| && Clashes(tasks, i, tasks[i].files[j])
    && (forall l :: 0 <= l < j ==> !Clashes(tasks, i, tasks[i].files[l]))
    && (forall k, f: Name :: 0 <= k < i && f in tasks[k].files ==> !Clashes(tasks, k, f))
  }

  ghost predicate ReportsClash(tasks: seq<Task>, error: CoordinationError) {
    exists i: nat, j: nat :: FirstClash(tasks, i, j) && error == DuplicateOwnership(tasks[i].files[j], tasks[i].id)
  }

  lemma ClashIs(tasks: seq<Task>, i: nat, j: nat, before: map<Name, Name>, owners: map<Name, Name>)
    requires i < |tasks| && j < |tasks[i].files|
    requires OwnersOf(tasks[..i], before) && Claimed(tasks[i], j, before, owners)
    ensures var file := tasks[i].files[j];
            Inherited(file) || (file in owners && owners[file] != tasks[i].id) <==> Clashes(tasks, i, file)
  {
    var file := tasks[i].files[j];
    assert forall k :: 0 <= k < i ==> tasks[..i][k] == tasks[k];
    if file in before && before[file] != tasks[i].id {
      var k :| 0 <= k < i && Lists(tasks[..i][k], file);
      assert file in tasks[k].files && tasks[k].id != tasks[i].id;
    }
    if k :| 0 <= k < i && file in tasks[k].files && tasks[k].id != tasks[i].id {
      assert Lists(tasks[..i][k], file);
    }
  }

  lemma NoClashBefore(tasks: seq<Task>, i: nat, k: nat, f: Name)
    requires k < i <= |tasks| && OwnershipExclusive(tasks[..i]) && f in tasks[k].files
    ensures !Clashes(tasks, k, f)
  {
    hide Inherited;
    InheritedMeans(f);
    assert Lists(tasks[..i][k], f);
    forall l | 0 <= l < k && f in tasks[l].files ensures tasks[l].id == tasks[k].id {
      assert Lists(tasks[..i][l], f);
    }
  }

  lemma InheritedMeans(f: Name)
    ensures Inherited(f) <==> f in INHERITED_NAMES
  {
  }

  lemma ClaimedNoClash(tasks: seq<Task>, i: nat, j: nat, before: map<Name, Name>, owners: map<Name, Name>, l: nat)
    requires i < |tasks| && l < j <= |tasks[i].files|
    requires OwnersOf(tasks[..i], before) && Claimed(tasks[i], j, before, owners)
    ensures !Clashes(tasks, i, tasks[i].files[l])
  {
    hide Inherited;
    var f := tasks[i].files[l];
    InheritedMeans(f);
    if k :| 0 <= k < i && f in tasks[k].files && tasks[k].id != tasks[i].id {
      assert Lists(tasks[..i][k], f);
    }
  }

  lemma FirstClashIs(tasks: seq<Task>, i: nat, j: nat, before: map<Name, Name>, owners: map<Name, Name>)
    requires i < |tasks| && j < |tasks[i].files| && OwnershipExclusive(tasks[..i])
    requires OwnersOf(tasks[..i], before) && Claimed(tasks[i], j, before, owners)
    requires var file := tasks[i].files[j]; Inherited(file) || (file in owners && owners[file] != tasks[i].id)
    ensures ReportsClash(tasks, DuplicateOwnership(tasks[i].files[j], tasks[i].id))
  {
    hide OwnershipExclusive, OwnersOf, Claimed, Clashes, Inherited;
    ClashIs(tasks, i, j, before, owners);
    forall l | 0 <= l < j ensures !Clashes(tasks, i, tasks[i].files[l]) {
      ClaimedNoClash(tasks, i, j, before, owners, l);
    }
    forall k, f: Name | 0 <= k < i && f in tasks[k].files ensures !Clashes(tasks, k, f) {
      NoClashBefore(tasks, i, k, f);
    }
    assert FirstClash(tasks, i, j);
  }

  /** The owners after the first files of a task are claimed. */
  ghost predicate Claimed(task: Task, n: nat, before: map<Name, Name>, after: map<Name, Name>) {
    && n <= |task.files|
    && (forall k :: 0 <= k < n ==>
          var f := task.files[k]; !Inherited(f) && (f in before ==> before[f] == task.id))
    && after.Keys == before.Keys + (set k | 0 <= k < n :: task.files[k])
    && (forall k :: 0 <= k < n ==> task.files[k] in after && after[task.files[k]] == task.id)
    && (forall f :: f in before ==> f in after && after[f] == before[f])
  }

  lemma ClaimedStep(task: Task, n: nat, before: map<Name, Name>, after: map<Name, Name>)
    requires n < |task.files| && Claimed(task, n, before, after)
    requires !Inherited(task.files[n]) && (task.files[n] in after ==> after[task.files[n]] == task.id)
    ensures Claimed(task, n + 1, before, after[task.files[n] := task.id])
  {
    hide Inherited;
  }

  method CreateAgentCoordinationRecord(tasks: seq<Task>) returns (r: Result<Record, CoordinationError>)
    ensures r.Ok? <==> OwnershipExclusive(tasks)
    ensures r.Ok? ==> RecordOf(tasks, r.value) && AllBegin(tasks, r.value.taskStates)
    ensures r.Err? ==> ReportsClash(tasks, r.error)
  {
    hide OwnershipExclusive, OwnersOf, Inherited, InitialState, Claimed, AllBegin, ReportsClash;
    var fileOwners: map<Name, Name> := map[];
    var taskStates: map<Name, TaskState> := map[];
    NothingOwned();
    assert tasks[..0] == [];
    for i := 0 to |tasks|
      invariant OwnershipExclusive(tasks[..i])
      invariant OwnersOf(tasks[..i], fileOwners)
      invariant taskStates == StatesOf(tasks[..i])
    {
      var task := tasks[i];
      ghost var before := fileOwners;
      NothingClaimed(task, before);
      for j := 0 to |task.files|
        invariant Claimed(task, j, before, fileOwners)
      {
        var file := task.files[j];
        if Inherited(file) || (file in fileOwners && fileOwners[file] != task.id) {
          Conflict(tasks, i, j, before, fileOwners);
          FirstClashIs(tasks, i, j, before, fileOwners);
          return Err(DuplicateOwnership(file, task.id));
        }
        ClaimedStep(task, j, before, fileOwners);
        fileOwners := fileOwners[file := task.id];
      }
      TaskAdded(tasks, i, before, fileOwners);
      taskStates := taskStates[task.id := InitialState(task)];
      assert tasks[..i + 1][..i] == tasks[..i];
    }
    assert tasks[..|tasks|] == tasks;
    StatesBegin(tasks);
    return Ok(Record(taskStates, fileOwners));
  }

  lemma NothingOwned()
    ensures OwnershipExclusive([]) && OwnersOf([], map[])
  {
  }

  lemma NothingClaimed(task: Task, before: map<Name, Name>)
    ensures Claimed(task, 0, before, before)
  {
  }

  lemma Conflict(tasks: seq<Task>, i: nat, j: nat, before: map<Name, Name>, owners: map<Name, Name>)
    requires i < |tasks| && j < |tasks[i].files|
    requires OwnersOf(tasks[..i], before) && Claimed(tasks[i], j, before, owners)
    requires var file := tasks[i].files[j]; Inherited(file) || (file in owners && owners[file] != tasks[i].id)
    ensures !OwnershipExclusive(tasks)
  {
    hide Inherited;
    var file := tasks[i].files[j];
    assert Lists(tasks[i], file);
    if !Inherited(file) {
      assert file in before;
      var k :| 0 <= k < i && Lists(tasks[..i][k], file);
      assert tasks[k] == tasks[..i][k];
    }
  }

  lemma ClaimedAll(task: Task, before: map<Name, Name>, after: map<Name, Name>, f: Name)
    requires Claimed(task, |task.files|, before, after)
    ensures f in after <==> f in before || Lists(task, f)
    ensures f in before ==> f in after && after[f] == before[f]
    ensures Lists(task, f) ==>
              f in after && after[f] == task.id && !Inherited(f) && (f in before ==> before[f] == task.id)
  {
    hide Inherited;
    if Lists(task, f) {
      var k :| 0 <= k < |task.files| && task.files[k] == f;
    }
  }

  lemma TaskAdded(tasks: seq<Task>, i: nat, before: map<Name, Name>, after: map<Name, Name>)
    requires i < |tasks| && OwnershipExclusive(tasks[..i]) && OwnersOf(tasks[..i], before)
    requires Claimed(tasks[i], |tasks[i].files|, before, after)
    ensures OwnershipExclusive(tasks[..i + 1]) && OwnersOf(tasks[..i + 1], after)
  {
    hide Inherited, Lists, Claimed;
    var shorter, longer := tasks[..i], tasks[..i + 1];
    assert forall k :: 0 <= k < i ==> longer[k] == shorter[k];
    assert longer[i] == tasks[i];
    forall f: Name ensures f in after <==> f in before || Lists(longer[i], f)
      ensures f in before ==> f in after && after[f] == before[f]
      ensures Lists(longer[i], f) ==>
                && f in after && after[f] == tasks[i].id && !Inherited(f)
                && (f in before ==> before[f] == tasks[i].id)
    {
      ClaimedAll(tasks[i], before, after, f);
    }
    forall f: Name | f in after ensures exists k :: 0 <= k < |longer| && Lists(longer[k], f) {
      if f in before {
        var k :| 0 <= k < i && Lists(shorter[k], f);
        assert Lists(longer[k], f);
      }
    }
    assert OwnersOf(longer, after);
  }

  // ----- checks before and after a task runs -----

  ghost predicate HandoffOk(context: Context, r: Record, t: Task, completed: set<Name>) {
    && (exists i :: 0 <= i < |context.tasks| && context.tasks[i].id == t.id)
    && (forall k :: 0 <= k < |t.dependencies| ==> t.dependencies[k] in completed)
    && RequirementsKnown(context, t)
    && (forall k :: 0 <= k < |t.files| ==> Owns(r, t.id, t.files[k]))
    && AgentAgrees(context, t)
  }

  predicate RequirementsKnown(context: Context, t: Task) {
    forall k :: 0 <= k < |t.requirementIds| ==> t.requirementIds[k] in context.requirementIds
  }

  predicate AgentAgrees(context: Context, t: Task) {
    t.id in context.taskToAgent && context.taskToAgent[t.id] == t.agent
  }

  predicate Owns(r: Record, task: Name, file: Name) {
    file in r.fileOwners && r.fileOwners[file] == task
  }

  ghost predicate Planned(context: Context, t: Task) {
    exists i :: 0 <= i < |context.tasks| && context.tasks[i].id == t.id
  }

  /** The first of several names that fails a test. */
  ghost predicate First(names: seq<Name>, passes: Name -> bool, name: Name) {
    exists k :: 0 <= k < |names| && names[k] == name && !passes(name) && forall l :: 0 <= l < k ==> passes(names[l])
  }

  /** The checks are made in this order; the error names what the first failing one found first. */
  ghost predicate HandoffFails(
    context: Context, r: Record, t: Task, completed: set<Name>, error: CoordinationError)
  {
    var dependenciesDone := forall k :: 0 <= k < |t.dependencies| ==> t.dependencies[k] in completed;
    match error
    case UnknownTask(id) => id == t.id && !Planned(context, t)
    case DependencyIncomplete(id, dependency) =>
      id == t.id && Planned(context, t) && First(t.dependencies, name => name in completed, dependency)
    case ForeignRequirement(id, requirement) =>
      && id == t.id && Planned(context, t) && dependenciesDone
      && First(t.requirementIds, name => name in context.requirementIds, requirement)
    case FileNotOwned(id, file) =>
      && id == t.id && Planned(context, t) && dependenciesDone && RequirementsKnown(context, t)
      && First(t.files, name => name in r.fileOwners && r.fileOwners[name] == t.id, file)
    case AgentDisagrees(id) =>
      && id == t.id && Planned(context, t) && dependenciesDone && RequirementsKnown(context, t)
      && (forall k :: 0 <= k < |t.files| ==> Owns(r, t.id, t.files[k])) && !AgentAgrees(context, t)
    case _ => false
  }

  method ValidateTaskHandoff(context: Context, r: Record, t: Task, completed: set<Name>)
    returns (error: Option<CoordinationError>)
    ensures error.None? <==> HandoffOk(context, r, t, completed)
    ensures error.Some? ==> HandoffFails(context, r, t, completed, error.value)
  {
    var known := false;
    for i := 0 to |context.tasks|
      invariant known <==> exists k :: 0 <= k < i && context.tasks[k].id == t.id
    {
      if context.tasks[i].id == t.id {
        known := true;
      }
    }
    if !known {
      return Some(UnknownTask(t.id));
    }
    for k := 0 to |t.dependencies|
      invariant forall l :: 0 <= l < k ==> t.dependencies[l] in completed
    {
      if t.dependencies[k] !in completed {
        return Some(DependencyIncomplete(t.id, t.dependencies[k]));
      }
    }
    for k := 0 to |t.requirementIds|
      invariant forall l :: 0 <= l < k ==> t.requirementIds[l] in context.requirementIds
    {
      if t.requirementIds[k] !in context.requirementIds {
        return Some(ForeignRequirement(t.id, t.requirementIds[k]));
      }
    }
    for k := 0 to |t.files|
      invariant forall l :: 0 <= l < k ==> Owns(r, t.id, t.files[l])
    {
      if !Owns(r, t.id, t.files[k]) {
        return Some(FileNotOwned(t.id, t.files[k]));
      }
    }
    if !AgentAgrees(context, t) {
      return Some(AgentDisagrees(t.id));
    }
    return None;
  }

  type Files = map<Name, string>

  /** A task may hand in some of its own files, at least one, and nothing else. */
  ghost predicate OutputOk(t: Task, files: Files, r: Record) {
    files != map[] && forall f :: f in files ==> Lists(t, f) && Owns(r, t.id, f)
  }

  method AssertTaskOutputOwnership(t: Task, files: Files, r: Record) returns (error: Option<CoordinationError>)
    ensures error.None? <==> OutputOk(t, files, r)
    ensures match error
            case None => true
            case Some(NoOutput(id)) => id == t.id && files == map[]
            case Some(UnownedWrite(id, file)) => id == t.id && file in files && file !in t.files
            case Some(OverwritesOther(id, file)) =>
              && id == t.id && file in files && file in t.files
              && (file in r.fileOwners ==> r.fileOwners[file] != t.id)
            case _ => false
  {
    if |files| == 0 {
      return Some(NoOutput(t.id));
    }
    var produced := files.Keys;
    while produced != {}
      invariant produced <= files.Keys
      invariant forall f :: f in files && f !in produced ==> Lists(t, f) && Owns(r, t.id, f)
      decreases |produced|
    {
      var file :| file in produced;
      if !Lists(t, file) {
        return Some(UnownedWrite(t.id, file));
      }
      if !Owns(r, t.id, file) {
        return Some(OverwritesOther(t.id, file));
      }
      produced := produced - {file};
    }
    return None;
  }

  /** The outputs of two tasks never name the same file. */
  lemma OutputsDisjoint(r: Record, t: Task, u: Task, produced: Files, others: Files)
    requires t.id != u.id && OutputOk(t, produced, r) && OutputOk(u, others, r)
    ensures produced.Keys !! others.Keys
  {
    hide Lists;
    assert forall f :: f in produced ==> Owns(r, t.id, f);
    assert forall f :: f in others ==> Owns(r, u.id, f);
  }

  /** Outputs spread over the files one after the other. */
  function Merge(order: seq<Name>, outputs: map<Name, Files>): Files
    requires forall k :: 0 <= k < |order| ==> order[k] in outputs
  {
    if order == [] then map[] else Merge(order[..|order| - 1], outputs) + outputs[order[|order| - 1]]
  }

  ghost predicate Disjoint(outputs: map<Name, Files>) {
    forall a, b :: a in outputs && b in outputs && a != b ==> outputs[a].Keys !! outputs[b].Keys
  }

  lemma {:induction false} MergeHas(order: seq<Name>, outputs: map<Name, Files>, k: nat, f: Name)
    requires forall k :: 0 <= k < |order| ==> order[k] in outputs
    requires Disjoint(outputs) && k < |order| && f in outputs[order[k]]
    ensures f in Merge(order, outputs) && Merge(order, outputs)[f] == outputs[order[k]][f]
  {
    var n := |order| - 1;
    assert order[k] != order[n] ==> f !in outputs[order[n]];
    if f !in outputs[order[n]] {
      MergeHas(order[..n], outputs, k, f);
    }
  }

  lemma {:induction false} MergeFrom(order: seq<Name>, outputs: map<Name, Files>, f: Name) returns (k: nat)
    requires forall k :: 0 <= k < |order| ==> order[k] in outputs
    requires f in Merge(order, outputs)
    ensures k < |order| && f in outputs[order[k]]
  {
    k := |order| - 1;
    if f !in outputs[order[k]] {
      k := MergeFrom(order[..|order| - 1], outputs, f);
    }
  }

  /** Accepted outputs of different tasks can be merged in any order. */
  lemma MergeInAnyOrder(
    r: Record, tasks: map<Name, Task>, outputs: map<Name, Files>, order: seq<Name>, other: seq<Name>)
    requires forall id :: id in outputs ==> id in tasks && tasks[id].id == id && OutputOk(tasks[id], outputs[id], r)
    requires forall k :: 0 <= k < |order| ==> order[k] in outputs
    requires forall k :: 0 <= k < |other| ==> other[k] in outputs
    requires forall id :: id in order <==> id in other
    ensures Merge(order, outputs) == Merge(other, outputs)
    ensures forall id, f: Name :: id in order && f in outputs[id] ==>
              f in Merge(order, outputs) && Merge(order, outputs)[f] == outputs[id][f]
    ensures forall f: Name :: f in Merge(order, outputs) ==> exists id :: id in order && f in outputs[id]
  {
    hide OutputOk, Merge;
    forall a, b | a in outputs && b in outputs && a != b ensures outputs[a].Keys !! outputs[b].Keys {
      OutputsDisjoint(r, tasks[a], tasks[b], outputs[a], outputs[b]);
    }
    MergeWithin(order, other, outputs);
    MergeWithin(other, order, outputs);
    MergeHolds(order, outputs);
  }

  lemma MergeHolds(order: seq<Name>, outputs: map<Name, Files>)
    requires forall k :: 0 <= k < |order| ==> order[k] in outputs
    requires Disjoint(outputs)
    ensures forall id, f: Name :: id in order && f in outputs[id] ==>
              f in Merge(order, outputs) && Merge(order, outputs)[f] == outputs[id][f]
    ensures forall f: Name :: f in Merge(order, outputs) ==> exists id :: id in order && f in outputs[id]
  {
    hide Merge, Disjoint;
    forall id, f: Name | id in order && f in outputs[id]
      ensures f in Merge(order, outputs) && Merge(order, outputs)[f] == outputs[id][f]
    {
      var k :| 0 <= k < |order| && order[k] == id;
      MergeHas(order, outputs, k, f);
    }
    forall f: Name | f in Merge(order, outputs) ensures exists id :: id in order && f in outputs[id] {
      var k := MergeFrom(order, outputs, f);
      assert order[k] in order;
    }
  }

  lemma MergeWithin(order: seq<Name>, other: seq<Name>, outputs: map<Name, Files>)
    requires forall k :: 0 <= k < |order| ==> order[k] in outputs
    requires forall k :: 0 <= k < |other| ==> other[k] in outputs
    requires Disjoint(outputs)
    requires forall id :: id in order ==> id in other
    ensures forall f: Name :: f in Merge(order, outputs) ==>
              f in Merge(other, outputs) && Merge(order, outputs)[f] == Merge(other, outputs)[f]
  {
    hide Merge, Disjoint;
    forall f: Name | f in Merge(order, outputs)
      ensures f in Merge(other, outputs) && Merge(order, outputs)[f] == Merge(other, outputs)[f]
    {
      var k := MergeFrom(order, outputs, f);
      assert order[k] in other;
      var l :| 0 <= l < |other| && other[l] == order[k];
      MergeHas(order, outputs, k, f);
      MergeHas(other, outputs, l, f);
    }
  }

  // ----- updating and unlocking -----

  predicate AllDone(dependencies: seq<Name>, completed: set<Name>) {
    forall k :: 0 <= k < |dependencies| ==> dependencies[k] in completed
  }

  predicate Ready(s: TaskState, completed: set<Name>) {
    AllDone(s.dependencies, completed)
  }

  function CompletedIds(states: map<Name, TaskState>): set<Name> {
    set id | id in states && states[id].status == Completed :: states[id].taskId
  }

  /** Some task of that id is completed. */
  ghost predicate CompletedNamed(states: map<Name, TaskState>, name: Name) {
    exists id :: id in states && states[id].status == Completed && states[id].taskId == name
  }

  ghost predicate AllCompleted(states: map<Name, TaskState>, names: seq<Name>) {
    forall name :: name in names ==> CompletedNamed(states, name)
  }

  /** Exactly the blocked tasks whose dependencies are all completed become pending; nothing else changes. */
  ghost predicate Unlocks(before: map<Name, TaskState>, after: map<Name, TaskState>) {
    && after.Keys == before.Keys
    && forall id :: id in before ==>
         after[id] == if before[id].status == Blocked && AllCompleted(before, before[id].dependencies)
                      then before[id].(status := Pending) else before[id]
  }

  lemma ReadyMeans(states: map<Name, TaskState>, s: TaskState)
    ensures Ready(s, CompletedIds(states)) <==> AllCompleted(states, s.dependencies)
  {
    forall name ensures name in CompletedIds(states) <==> CompletedNamed(states, name) {
      if CompletedNamed(states, name) {
        var id :| id in states && states[id].status == Completed && states[id].taskId == name;
      }
    }
    if Ready(s, CompletedIds(states)) {
      forall name | name in s.dependencies ensures CompletedNamed(states, name) {
        var k :| 0 <= k < |s.dependencies| && s.dependencies[k] == name;
      }
    }
    if AllCompleted(states, s.dependencies) {
      forall k | 0 <= k < |s.dependencies| ensures s.dependencies[k] in CompletedIds(states) {
        assert s.dependencies[k] in s.dependencies;
      }
    }
  }

  lemma UnlockedUnlocks(states: map<Name, TaskState>)
    ensures Unlocks(states, UnlockedStates(states))
  {
    hide Ready, CompletedIds, AllCompleted;
    forall id | id in states
      ensures Ready(states[id], CompletedIds(states)) <==> AllCompleted(states, states[id].dependencies)
    {
      ReadyMeans(states, states[id]);
    }
  }

  function UnlockedState(s: TaskState, completed: set<Name>): TaskState {
    if s.status == Blocked && Ready(s, completed) then s.(status := Pending) else s
  }

  function UnlockedStates(states: map<Name, TaskState>): map<Name, TaskState> {
    map id | id in states :: UnlockedState(states[id], CompletedIds(states))
  }

  /** The ids of the completed tasks outside the rest. */
  ghost predicate CollectedSoFar(states: map<Name, TaskState>, rest: set<Name>, completed: set<Name>) {
    && rest <= states.Keys
    && completed == set id | id in states && id !in rest && states[id].status == Completed :: states[id].taskId
  }

  lemma CollectOne(states: map<Name, TaskState>, rest: set<Name>, completed: set<Name>, id: Name)
    requires CollectedSoFar(states, rest, completed) && id in rest
    ensures id in states
    ensures states[id].status == Completed ==> CollectedSoFar(states, rest - {id}, completed + {states[id].taskId})
    ensures states[id].status != Completed ==> CollectedSoFar(states, rest - {id}, completed)
  {
  }

  lemma CollectEnds(states: map<Name, TaskState>, completed: set<Name>)
    ensures CollectedSoFar(states, states.Keys, {})
    ensures CollectedSoFar(states, {}, completed) ==> completed == CompletedIds(states)
  {
  }

  /** The states with all tasks unlocked but those in the rest. */
  ghost predicate UnlockedSoFar(
    before: map<Name, TaskState>, states: map<Name, TaskState>, rest: set<Name>, completed: set<Name>)
  {
    && rest <= before.Keys == states.Keys
    && forall id :: id in before ==>
         states[id] == if id in rest then before[id] else UnlockedState(before[id], completed)
  }

  lemma UnlockOne(
    before: map<Name, TaskState>, states: map<Name, TaskState>, rest: set<Name>, completed: set<Name>, id: Name)
    requires UnlockedSoFar(before, states, rest, completed) && id in rest
    ensures id in before && UnlockedState(before[id], completed) ==
                            if before[id].status == Blocked && Ready(before[id], completed)
                            then before[id].(status := Pending) else before[id]
    ensures UnlockedSoFar(before, states[id := UnlockedState(before[id], completed)], rest - {id}, completed)
    ensures UnlockedState(before[id], completed) == before[id] ==>
              UnlockedSoFar(before, states, rest - {id}, completed)
  {
    hide Ready;
  }

  lemma UnlockEnds(before: map<Name, TaskState>, states: map<Name, TaskState>, completed: set<Name>)
    ensures UnlockedSoFar(before, before, before.Keys, completed)
    ensures UnlockedSoFar(before, states, {}, completed) && completed == CompletedIds(before) ==>
              states == UnlockedStates(before)
  {
    hide Ready, CompletedIds;
  }

  method UnlockReadyTasks(r: Record) returns (unlocked: Record)
    ensures unlocked == r.(taskStates := UnlockedStates(r.taskStates))
    ensures unlocked.fileOwners == r.fileOwners && Unlocks(r.taskStates, unlocked.taskStates)
  {
    hide *;
    UnlockedUnlocks(r.taskStates);
    var completed: set<Name> := {};
    var rest := r.taskStates.Keys;
    CollectEnds(r.taskStates, {});
    while rest != {}
      invariant CollectedSoFar(r.taskStates, rest, completed)
      decreases |rest|
    {
      var id :| id in rest;
      CollectOne(r.taskStates, rest, completed, id);
      if r.taskStates[id].status == Completed {
        completed := completed + {r.taskStates[id].taskId};
      }
      rest := rest - {id};
    }
    CollectEnds(r.taskStates, completed);
    var taskStates := r.taskStates;
    rest := r.taskStates.Keys;
    UnlockEnds(r.taskStates, taskStates, completed);
    while rest != {}
      invariant UnlockedSoFar(r.taskStates, taskStates, rest, completed)
      decreases |rest|
    {
      var taskId :| taskId in rest;
      UnlockOne(r.taskStates, taskStates, rest, completed, taskId);
      var task := r.taskStates[taskId];
      if task.status == Blocked && Ready(task, completed) {
        taskStates := taskStates[taskId := task.(status := Pending)];
      }
      rest := rest - {taskId};
    }
    UnlockEnds(r.taskStates, taskStates, completed);
    return r.(taskStates := taskStates);
  }

  // ----- resuming -----

  function MissingOutputs(outputs: seq<Name>, generated: Files): (missing: seq<string>)
    ensures missing == [] <==> forall k :: 0 <= k < |outputs| ==> InObject(outputs[k], generated)
  {
    if outputs == [] then []
    else
      MissingOutputs(outputs[..|outputs| - 1], generated)
      + if InObject(outputs[|outputs| - 1], generated) then [] else [outputs[|outputs| - 1]]
  }

  function JoinComma(parts: seq<string>): string {
    if parts == [] then "" else if |parts| == 1 then parts[0] else parts[0] + ", " + JoinComma(parts[1..])
  }

  /** The missing files: those that are neither generated nor named like an inherited property, in order. */
  ghost predicate MissingAt(outputs: seq<Name>, generated: Files, at: seq<nat>, missing: seq<string>) {
    && |missing| == |at| && Positions(at, |outputs|)
    && (forall k :: 0 <= k < |at| ==> missing[k] == outputs[at[k]])
    && (forall i :: 0 <= i < |outputs| ==>
          (i in at <==> outputs[i] !in generated && outputs[i] !in INHERITED_NAMES))
  }

  lemma {:induction false} MissingPositions(outputs: seq<Name>, generated: Files) returns (at: seq<nat>)
    ensures MissingAt(outputs, generated, at, MissingOutputs(outputs, generated))
  {
    at := [];
    if outputs != [] {
      var n := |outputs| - 1;
      at := MissingPositions(outputs[..n], generated);
      var missing := MissingOutputs(outputs[..n], generated);
      assert forall i :: 0 <= i < n ==> outputs[..n][i] == outputs[i];
      if InObject(outputs[n], generated) {
        assert MissingAt(outputs, generated, at, missing);
      } else {
        at := at + [n];
        MissingStep(outputs, generated, at, missing);
      }
    }
  }

  lemma MissingStep(outputs: seq<Name>, generated: Files, at: seq<nat>, missing: seq<string>)
    requires outputs != [] && at != [] && at[|at| - 1] == |outputs| - 1
    requires MissingAt(outputs[..|outputs| - 1], generated, at[..|at| - 1], missing)
    requires outputs[|outputs| - 1] !in generated && outputs[|outputs| - 1] !in INHERITED_NAMES
    ensures MissingAt(outputs, generated, at, missing + [outputs[|outputs| - 1]])
  {
    var n, shorter := |outputs| - 1, at[..|at| - 1];
    assert forall i :: 0 <= i < n ==> outputs[..n][i] == outputs[i];
    assert at == shorter + [n];
  }

  lemma {:induction false} JoinedByComma(front: seq<string>, back: seq<string>)
    requires front != [] && back != []
    ensures JoinComma(front + back) == JoinComma(front) + ", " + JoinComma(back)
    ensures JoinComma([front[0]]) == front[0]
  {
    if |front| == 1 {
      assert (front + back)[1..] == back;
    } else {
      assert (front + back)[1..] == front[1..] + back;
      JoinedByComma(front[1..], back);
    }
  }

  /** A repair reason that JavaScript counts as true. */
  predicate Given(repairReason: Option<string>) {
    repairReason.Some? && repairReason.value != ""
  }

  function ResetState(id: Name, s: TaskState, generated: Files, repairReason: Option<string>): TaskState {
    var missing := MissingOutputs(s.outputFiles, generated);
    if s.status != Completed then s
    else if Given(repairReason) then
      s.(taskId := id, status := InitialStatus(s.dependencies), lastError := repairReason)
    else if s.outputFiles == [] then
      s.(taskId := id, status := InitialStatus(s.dependencies),
         lastError := Some("Completed task had no persisted output files during resume"), outputFiles := [])
    else if missing != [] then
      s.(taskId := id, status := InitialStatus(s.dependencies),
         lastError := Some("Resume detected missing output files: " + JoinComma(missing)), outputFiles := [])
    else s
  }

  function ResetStates(states: map<Name, TaskState>, generated: Files, repairReason: Option<string>)
    : map<Name, TaskState>
  {
    map id | id in states :: ResetState(id, states[id], generated, repairReason)
  }

  function Reconciled(states: map<Name, TaskState>, generated: Files, repairReason: Option<string>)
    : map<Name, TaskState>
  {
    UnlockedStates(ResetStates(states, generated, repairReason))
  }

  /** The fields of a task state that a caller may change; absent ones stay as they are. */
  datatype Patch = Patch(
    ownerAgent: Option<Name>, requirementIds: Option<seq<Name>>, dependencies: Option<seq<Name>>,
    ownedFiles: Option<seq<Name>>, validations: Option<seq<Name>>, status: Option<Status>, attempts: Option<nat>,
    lastError: Option<Option<string>>, outputFiles: Option<seq<Name>>)

  const UNCHANGED := Patch(None, None, None, None, None, None, None, None, None)

  predicate FieldPatched<T(==)>(before: T, after: T, change: Option<T>) {
    match change
    case Some(value) => after == value
    case None => after == before
  }

  /** Exactly the fields named in the patch have its values, all others those of before. */
  predicate PatchedBy(before: TaskState, after: TaskState, patch: Patch) {
    && FieldPatched(before.ownerAgent, after.ownerAgent, patch.ownerAgent)
    && FieldPatched(before.requirementIds, after.requirementIds, patch.requirementIds)
    && FieldPatched(before.dependencies, after.dependencies, patch.dependencies)
    && FieldPatched(before.ownedFiles, after.ownedFiles, patch.ownedFiles)
    && FieldPatched(before.validations, after.validations, patch.validations)
    && FieldPatched(before.status, after.status, patch.status)
    && FieldPatched(before.attempts, after.attempts, patch.attempts)
    && FieldPatched(before.lastError, after.lastError, patch.lastError)
    && FieldPatched(before.outputFiles, after.outputFiles, patch.outputFiles)
  }

  /** Every state is stored under its own id, as a record is created. */
  ghost predicate WellKeyed(r: Record) {
    forall id :: id in r.taskStates ==> r.taskStates[id].taskId == id
  }

  /**
   Updates one known task. No task and no owner of a file comes or goes, no other state changes, and
   no patch can move the state away from its id.
   */
  method UpdateTaskCoordinationState(r: Record, taskId: Name, patch: Patch)
    returns (updated: Result<Record, CoordinationError>)
    ensures updated.Ok? <==> taskId in r.taskStates
    ensures updated.Ok? ==>
              && updated.value.taskStates.Keys == r.taskStates.Keys && updated.value.fileOwners == r.fileOwners
              && (forall id :: id in r.taskStates && id != taskId ==>
                    updated.value.taskStates[id] == r.taskStates[id])
              && PatchedBy(r.taskStates[taskId], updated.value.taskStates[taskId], patch)
              && updated.value.taskStates[taskId].taskId == taskId
              && (WellKeyed(r) ==> WellKeyed(updated.value))
  {
    if taskId !in r.taskStates {
      return Err(UnknownTask(taskId));
    }
    var current := r.taskStates[taskId];
    var next := TaskState(
      taskId,
      Or(patch.ownerAgent, current.ownerAgent),
      Or(patch.requirementIds, current.requirementIds),
      Or(patch.dependencies, current.dependencies),
      Or(patch.ownedFiles, current.ownedFiles),
      Or(patch.validations, current.validations),
      Or(patch.status, current.status),
      Or(patch.attempts, current.attempts),
      Or(patch.lastError, current.lastError),
      Or(patch.outputFiles, current.outputFiles));
    return Ok(r.(taskStates := r.taskStates[taskId := next]));
  }

  /** A task that starts over for the given reason, with new outputs or the old ones. */
  function Restarted(id: Name, s: TaskState, error: Option<string>, outputs: Option<seq<Name>>): TaskState {
    s.(taskId := id, status := InitialStatus(s.dependencies), lastError := error,
       outputFiles := Or(outputs, s.outputFiles))
  }

  /** Patching the status, the error and perhaps the outputs of a state leaves one possible result. */
  lemma PatchIs(s: TaskState, t: TaskState, id: Name, error: Option<string>, outputs: Option<seq<Name>>)
    requires t.taskId == id
    requires PatchedBy(s, t, UNCHANGED.(status := Some(InitialStatus(s.dependencies)), lastError := Some(error),
                                        outputFiles := outputs))
    ensures t == Restarted(id, s, error, outputs)
  {
    hide InitialStatus;
  }

  lemma OneChanged(before: map<Name, TaskState>, after: map<Name, TaskState>, id: Name)
    requires id in before && after.Keys == before.Keys
    requires forall other :: other in before && other != id ==> after[other] == before[other]
    ensures after == before[id := after[id]]
  {
  }

  lemma ReconciledMeans(states: map<Name, TaskState>, generated: Files, repairReason: Option<string>)
    ensures Reconciled(states, generated, repairReason) == UnlockedStates(ResetStates(states, generated, repairReason))
  {
    hide ResetStates, UnlockedStates;
  }

  lemma ResetMeans(id: Name, s: TaskState, generated: Files, repairReason: Option<string>)
    ensures s.status != Completed ==> ResetState(id, s, generated, repairReason) == s
    ensures s.status == Completed && Given(repairReason) ==>
              ResetState(id, s, generated, repairReason) == Restarted(id, s, repairReason, None)
    ensures s.status == Completed && !Given(repairReason) ==>
              var missing := MissingOutputs(s.outputFiles, generated);
              ResetState(id, s, generated, repairReason) ==
              if s.outputFiles != [] && missing == [] then s
              else Restarted(id, s, Some(
                        if |s.outputFiles| == 0 then "Completed task had no persisted output files during resume"
                        else "Resume detected missing output files: " + JoinComma(missing)), Some([]))
  {
    hide MissingOutputs, JoinComma, InObject, Given, InitialStatus;
  }

  /** The states with all tasks reset but those in the rest. */
  ghost predicate ResetSoFar(
    before: map<Name, TaskState>, states: map<Name, TaskState>, rest: set<Name>, generated: Files,
    repairReason: Option<string>)
  {
    && rest <= before.Keys == states.Keys
    && (forall id :: id in rest ==> states[id] == before[id])
    && (forall id :: id in before && id !in rest ==>
          states[id] == ResetState(id, before[id], generated, repairReason))
  }

  lemma ResetBegins(before: map<Name, TaskState>, generated: Files, repairReason: Option<string>)
    ensures ResetSoFar(before, before, before.Keys, generated, repairReason)
  {
  }

  lemma ResetOne(
    before: map<Name, TaskState>, states: map<Name, TaskState>, rest: set<Name>, generated: Files,
    repairReason: Option<string>, id: Name)
    requires ResetSoFar(before, states, rest, generated, repairReason) && id in rest
    ensures id in before && id in states && states[id] == before[id]
    ensures ResetState(id, before[id], generated, repairReason) == before[id] ==>
              ResetSoFar(before, states, rest - {id}, generated, repairReason)
    ensures ResetSoFar(before, states[id := ResetState(id, before[id], generated, repairReason)], rest - {id},
                       generated, repairReason)
  {
    hide ResetState;
  }

  /** Patching a task the way a reset does counts as resetting it. */
  lemma ResetPatched(
    before: map<Name, TaskState>, states: map<Name, TaskState>, after: map<Name, TaskState>, rest: set<Name>,
    generated: Files, repairReason: Option<string>, id: Name, error: Option<string>, outputs: Option<seq<Name>>)
    requires ResetSoFar(before, states, rest, generated, repairReason) && id in rest
    requires id in before && id in states && id in after && after.Keys == states.Keys
    requires forall other :: other in states && other != id ==> after[other] == states[other]
    requires PatchedBy(states[id], after[id],
                       UNCHANGED.(status := Some(InitialStatus(states[id].dependencies)), lastError := Some(error),
                                  outputFiles := outputs))
    requires after[id].taskId == id
    requires ResetState(id, before[id], generated, repairReason) == Restarted(id, before[id], error, outputs)
    ensures ResetSoFar(before, after, rest - {id}, generated, repairReason)
  {
    hide *;
    ResetOne(before, states, rest, generated, repairReason, id);
    OneChanged(states, after, id);
    PatchIs(states[id], after[id], id, error, outputs);
  }

  lemma ResetDone(
    before: map<Name, TaskState>, states: map<Name, TaskState>, generated: Files, repairReason: Option<string>)
    requires ResetSoFar(before, states, {}, generated, repairReason)
    ensures states == ResetStates(before, generated, repairReason)
  {
    hide ResetState;
  }

  /** The task waits unless all its dependencies are completed in the given states. */
  ghost predicate WaitsIn(states: map<Name, TaskState>, s: TaskState) {
    s.status == if AllCompleted(states, s.dependencies) then Pending else Blocked
  }

  /** Everything but the id, the status, the error and the outputs of a task. */
  predicate SameTask(before: TaskState, after: TaskState) {
    && after.ownerAgent == before.ownerAgent && after.requirementIds == before.requirementIds
    && after.dependencies == before.dependencies && after.ownedFiles == before.ownedFiles
    && after.validations == before.validations && after.attempts == before.attempts
  }

  /** What a resume makes of one task, `states` being the states it ends with. */
  ghost predicate Resumed(
    id: Name, before: TaskState, after: TaskState, states: map<Name, TaskState>, generated: Files,
    repairReason: Option<string>)
  {
    && SameTask(before, after)
    && if before.status != Completed then
         && after.taskId == before.taskId && after.lastError == before.lastError
         && after.outputFiles == before.outputFiles
         && (if before.status == Blocked then WaitsIn(states, after) else after.status == before.status)
       else if repairReason.Some? && repairReason.value != "" then
         && after.taskId == id && WaitsIn(states, after)
         && after.lastError == repairReason && after.outputFiles == before.outputFiles
       else if before.outputFiles == [] then
         && after.taskId == id && WaitsIn(states, after)
         && after.lastError == Some("Completed task had no persisted output files during resume")
         && after.outputFiles == []
       else if forall file :: file in before.outputFiles ==> file in generated || file in INHERITED_NAMES then
         after == before
       else
         && after.taskId == id && WaitsIn(states, after) && after.outputFiles == []
         && exists at: seq<nat>, missing: seq<string> ::
              && MissingAt(before.outputFiles, generated, at, missing)
              && after.lastError == Some("Resume detected missing output files: " + JoinComma(missing))
  }

  lemma MissingMeans(outputs: seq<Name>, generated: Files)
    ensures MissingOutputs(outputs, generated) == [] <==>
              forall file :: file in outputs ==> file in generated || file in INHERITED_NAMES
  {
    if MissingOutputs(outputs, generated) == [] {
      forall file | file in outputs ensures file in generated || file in INHERITED_NAMES {
        var k :| 0 <= k < |outputs| && outputs[k] == file;
        assert InObject(outputs[k], generated);
      }
    }
  }

  lemma WaitsForNothing(states: map<Name, TaskState>, dependencies: seq<Name>)
    ensures dependencies == [] ==> AllCompleted(states, dependencies)
  {
  }

  /** The state of a reset task, unlocked where its dependencies are completed. */
  predicate UnlockedIn(s: TaskState, t: TaskState, ready: bool) {
    t == if s.status == Blocked && ready then s.(status := Pending) else s
  }

  lemma RestartedWaits(
    id: Name, s: TaskState, t: TaskState, states: map<Name, TaskState>, error: Option<string>,
    outputs: Option<seq<Name>>)
    requires UnlockedIn(Restarted(id, s, error, outputs), t, AllCompleted(states, s.dependencies))
    ensures SameTask(s, t) && WaitsIn(states, t)
    ensures t.taskId == id && t.lastError == error
    ensures t.outputFiles == if outputs.Some? then outputs.value else s.outputFiles
  {
    hide AllCompleted;
    WaitsForNothing(states, s.dependencies);
  }

  lemma KeptWaits(s: TaskState, t: TaskState, states: map<Name, TaskState>)
    requires UnlockedIn(s, t, AllCompleted(states, s.dependencies))
    ensures SameTask(s, t) && t.taskId == s.taskId && t.lastError == s.lastError && t.outputFiles == s.outputFiles
    ensures if s.status == Blocked then WaitsIn(states, t) else t == s
  {
    hide AllCompleted;
  }

  lemma ResumesWithoutOutputs(
    id: Name, s: TaskState, t: TaskState, states: map<Name, TaskState>, generated: Files, repairReason: Option<string>)
    requires s.status == Completed && !Given(repairReason) && s.outputFiles == []
    requires UnlockedIn(ResetState(id, s, generated, repairReason), t, AllCompleted(states, s.dependencies))
    ensures Resumed(id, s, t, states, generated, repairReason)
  {
    hide MissingOutputs, JoinComma, MissingAt, ResetState, AllCompleted, InObject, Inherited, Restarted, SameTask,
         WaitsIn, UnlockedIn;
    ResetMeans(id, s, generated, repairReason);
    RestartedWaits(
      id, s, t, states, Some("Completed task had no persisted output files during resume"), Some([]));
  }

  lemma ResumesWithMissing(
    id: Name, s: TaskState, t: TaskState, states: map<Name, TaskState>, generated: Files, repairReason: Option<string>)
    requires s.status == Completed && !Given(repairReason) && s.outputFiles != []
    requires MissingOutputs(s.outputFiles, generated) != []
    requires UnlockedIn(ResetState(id, s, generated, repairReason), t, AllCompleted(states, s.dependencies))
    ensures Resumed(id, s, t, states, generated, repairReason)
  {
    hide MissingOutputs, JoinComma, MissingAt, ResetState, AllCompleted, InObject, Inherited, Restarted, SameTask,
         WaitsIn, UnlockedIn;
    var missing := MissingOutputs(s.outputFiles, generated);
    ResetMeans(id, s, generated, repairReason);
    MissingMeans(s.outputFiles, generated);
    var at := MissingPositions(s.outputFiles, generated);
    RestartedWaits(
      id, s, t, states, Some("Resume detected missing output files: " + JoinComma(missing)), Some([]));
  }

  lemma ResumesRepaired(
    id: Name, s: TaskState, t: TaskState, states: map<Name, TaskState>, generated: Files, repairReason: Option<string>)
    requires s.status == Completed && Given(repairReason)
    requires UnlockedIn(ResetState(id, s, generated, repairReason), t, AllCompleted(states, s.dependencies))
    ensures Resumed(id, s, t, states, generated, repairReason)
  {
    hide MissingOutputs, JoinComma, MissingAt, ResetState, AllCompleted, InObject, Inherited, Restarted, SameTask,
         WaitsIn, UnlockedIn;
    ResetMeans(id, s, generated, repairReason);
    RestartedWaits(id, s, t, states, repairReason, None);
  }

  lemma ResumesKept(
    id: Name, s: TaskState, t: TaskState, states: map<Name, TaskState>, generated: Files, repairReason: Option<string>)
    requires s.status != Completed || (!Given(repairReason) && s.outputFiles != []
                                       && MissingOutputs(s.outputFiles, generated) == [])
    requires UnlockedIn(ResetState(id, s, generated, repairReason), t, AllCompleted(states, s.dependencies))
    ensures Resumed(id, s, t, states, generated, repairReason)
  {
    hide MissingOutputs, JoinComma, MissingAt, ResetState, AllCompleted, InObject, Inherited, Restarted, SameTask,
         WaitsIn, UnlockedIn;
    ResetMeans(id, s, generated, repairReason);
    MissingMeans(s.outputFiles, generated);
    KeptWaits(s, t, states);
  }

  lemma ResetResumes(
    id: Name, s: TaskState, t: TaskState, states: map<Name, TaskState>, generated: Files, repairReason: Option<string>)
    requires UnlockedIn(ResetState(id, s, generated, repairReason), t, AllCompleted(states, s.dependencies))
    ensures Resumed(id, s, t, states, generated, repairReason)
  {
    hide *;
    if s.status == Completed && Given(repairReason) {
      ResumesRepaired(id, s, t, states, generated, repairReason);
    } else if s.status == Completed && s.outputFiles == [] {
      ResumesWithoutOutputs(id, s, t, states, generated, repairReason);
    } else if s.status == Completed && MissingOutputs(s.outputFiles, generated) != [] {
      ResumesWithMissing(id, s, t, states, generated, repairReason);
    } else {
      ResumesKept(id, s, t, states, generated, repairReason);
    }
  }

  /** Task by task, what a resume leaves behind. */
  lemma ResumeExactly(states: map<Name, TaskState>, generated: Files, repairReason: Option<string>)
    ensures var after := Reconciled(states, generated, repairReason);
            after.Keys == states.Keys &&
            forall id :: id in states ==> Resumed(id, states[id], after[id], after, generated, repairReason)
  {
    hide *;
    var reset := ResetStates(states, generated, repairReason);
    var after := Reconciled(states, generated, repairReason);
    ReconciledMeans(states, generated, repairReason);
    UnlockKeepsCompleted(reset);
    forall id | id in states
      ensures id in after && Resumed(id, states[id], after[id], after, generated, repairReason)
    {
      ResetStatesAt(states, generated, repairReason, id);
      UnlockedAt(reset, id);
      ReadyMeans(reset, reset[id]);
      ReadyMeans(after, reset[id]);
      ResetKeeps(id, states[id], generated, repairReason);
      ReadySame(reset[id], CompletedIds(reset), CompletedIds(after));
      ResetResumes(id, states[id], after[id], after, generated, repairReason);
    }
    ResumeKeys(states, generated, repairReason);
  }

  lemma ReadySame(s: TaskState, completed: set<Name>, other: set<Name>)
    requires completed == other
    ensures Ready(s, completed) == Ready(s, other)
  {
  }

  lemma UnlockedAt(states: map<Name, TaskState>, id: Name)
    requires id in states
    ensures id in UnlockedStates(states)
    ensures UnlockedIn(states[id], UnlockedStates(states)[id], AllCompleted(states, states[id].dependencies))
  {
    hide AllCompleted, UnlockedStates;
    UnlockedUnlocks(states);
  }

  method ReconcileCoordinationResume(initial: Record, generated: Files, repairReason: Option<string>)
    returns (r: Record)
    ensures r == initial.(taskStates := Reconciled(initial.taskStates, generated, repairReason))
    ensures r.fileOwners == initial.fileOwners && r.taskStates.Keys == initial.taskStates.Keys
    ensures forall id :: id in initial.taskStates ==>
              Resumed(id, initial.taskStates[id], r.taskStates[id], r.taskStates, generated, repairReason)
  {
    hide *;
    ResumeExactly(initial.taskStates, generated, repairReason);
    ReconciledMeans(initial.taskStates, generated, repairReason);
    r := initial;
    ResetBegins(initial.taskStates, generated, repairReason);
    var rest := initial.taskStates.Keys;
    while rest != {}
      invariant r.fileOwners == initial.fileOwners
      invariant ResetSoFar(initial.taskStates, r.taskStates, rest, generated, repairReason)
      decreases |rest|
    {
      var taskId :| taskId in rest;
      ResetOne(initial.taskStates, r.taskStates, rest, generated, repairReason, taskId);
      var state := initial.taskStates[taskId];
      ResetMeans(taskId, state, generated, repairReason);
      ghost var todo := rest;
      rest := rest - {taskId};
      if state.status != Completed {
        continue;
      }
      var status := InitialStatus(state.dependencies);
      if Given(repairReason) {
        var updated := UpdateTaskCoordinationState(
          r, taskId, UNCHANGED.(status := Some(status), lastError := Some(repairReason), outputFiles := None));
        ResetPatched(initial.taskStates, r.taskStates, updated.value.taskStates, todo, generated,
                     repairReason, taskId, repairReason, None);
        r := updated.value;
        continue;
      }
      var missing := MissingOutputs(state.outputFiles, generated);
      if |state.outputFiles| == 0 || |missing| > 0 {
        var reason :=
          if |state.outputFiles| == 0 then "Completed task had no persisted output files during resume"
          else "Resume detected missing output files: " + JoinComma(missing);
        var updated := UpdateTaskCoordinationState(
          r, taskId,
          UNCHANGED.(status := Some(status), lastError := Some(Some(reason)), outputFiles := Some([])));
        ResetPatched(initial.taskStates, r.taskStates, updated.value.taskStates, todo, generated,
                     repairReason, taskId, Some(reason), Some([]));
        r := updated.value;
      }
    }
    ResetDone(initial.taskStates, r.taskStates, generated, repairReason);
    r := UnlockReadyTasks(r);
  }

  predicate OutputsPresent(s: TaskState, generated: Files) {
    s.outputFiles != [] &&
    forall k :: 0 <= k < |s.outputFiles| ==> s.outputFiles[k] in generated || Inherited(s.outputFiles[k])
  }

  /**
   After a resume: a task is completed exactly when it was, no repair is asked for, and its outputs
   are all there; nothing stays blocked whose dependencies are all completed; every reset task
   starts over; and all other tasks keep their state but for being unlocked.
   */
  lemma ResumeRepairs(states: map<Name, TaskState>, generated: Files, repairReason: Option<string>, id: Name)
    requires id in states
    ensures var after := Reconciled(states, generated, repairReason);
            && after.Keys == states.Keys
            && (after[id].status == Completed <==>
                  states[id].status == Completed && !Given(repairReason) && OutputsPresent(states[id], generated))
            && (after[id].status == Completed ==> after[id] == states[id])
            && !(after[id].status == Blocked && Ready(after[id], CompletedIds(after)))
            && (states[id].status == Completed && after[id].status != Completed ==>
                  (after[id].status == Pending || after[id].status == Blocked) && after[id].lastError.Some?)
            && after[id].dependencies == states[id].dependencies
            && (states[id].status != Completed ==>
                  || after[id] == states[id]
                  || (states[id].status == Blocked && after[id] == states[id].(status := Pending)))
  {
    hide *;
    var reset := ResetStates(states, generated, repairReason);
    ReconciledMeans(states, generated, repairReason);
    ResetStatesAt(states, generated, repairReason, id);
    ResetKeeps(id, states[id], generated, repairReason);
    UnlockKeepsCompleted(reset);
    UnlockMeans(reset, id);
  }

  lemma ResetStatesAt(states: map<Name, TaskState>, generated: Files, repairReason: Option<string>, id: Name)
    ensures ResetStates(states, generated, repairReason).Keys == states.Keys
    ensures id in states ==>
              ResetStates(states, generated, repairReason)[id] == ResetState(id, states[id], generated, repairReason)
  {
    hide ResetState;
  }

  lemma ResetKeeps(id: Name, s: TaskState, generated: Files, repairReason: Option<string>)
    ensures var t := ResetState(id, s, generated, repairReason);
            && (t.status == Completed <==>
                  s.status == Completed && !Given(repairReason) && OutputsPresent(s, generated))
            && (t.status == Completed || s.status != Completed ==> t == s)
            && (s.status == Completed && t.status != Completed ==>
                  (t.status == Pending || t.status == Blocked) && t.lastError.Some?)
            && t.dependencies == s.dependencies
  {
    hide MissingOutputs, JoinComma, Inherited;
  }

  lemma UnlockMeans(states: map<Name, TaskState>, id: Name)
    ensures UnlockedStates(states).Keys == states.Keys
    ensures id in states ==>
              var t := UnlockedStates(states)[id];
              && (t == states[id] || (states[id].status == Blocked && t == states[id].(status := Pending)))
              && !(t.status == Blocked && Ready(t, CompletedIds(states)))
  {
    hide CompletedIds, AllDone;
  }

  lemma UnlockKeepsCompleted(states: map<Name, TaskState>)
    ensures CompletedIds(UnlockedStates(states)) == CompletedIds(states)
  {
    hide Ready;
    var after := UnlockedStates(states);
    forall name ensures name in CompletedIds(after) <==> name in CompletedIds(states) {
      if name in CompletedIds(after) {
        var id :| id in after && after[id].status == Completed && after[id].taskId == name;
        assert states[id].status == Completed && states[id].taskId == name;
      }
      if name in CompletedIds(states) {
        var id :| id in states && states[id].status == Completed && states[id].taskId == name;
        assert after[id].status == Completed && after[id].taskId == name;
      }
    }
  }

  /** A second resume with the same files and reason changes no task state. */
  lemma ResumeTwice(states: map<Name, TaskState>, generated: Files, repairReason: Option<string>)
    ensures var after := Reconciled(states, generated, repairReason);
            Reconciled(after, generated, repairReason) == after
  {
    hide Ready, MissingOutputs, JoinComma, UnlockedStates, CompletedIds, Inherited;
    var after := Reconciled(states, generated, repairReason);
    forall id | id in after ensures ResetState(id, after[id], generated, repairReason) == after[id] {
      ResumeKeys(states, generated, repairReason);
      ResumeRepairs(states, generated, repairReason, id);
    }
    assert ResetStates(after, generated, repairReason) == after;
    forall id | id in after ensures !(after[id].status == Blocked && Ready(after[id], CompletedIds(after))) {
      ResumeKeys(states, generated, repairReason);
      ResumeRepairs(states, generated, repairReason, id);
    }
    NothingToUnlock(after);
  }

  lemma ResumeKeys(states: map<Name, TaskState>, generated: Files, repairReason: Option<string>)
    ensures Reconciled(states, generated, repairReason).Keys == states.Keys
  {
    hide CompletedIds;
  }

  lemma NothingToUnlock(states: map<Name, TaskState>)
    requires forall id :: id in states ==> !(states[id].status == Blocked && Ready(states[id], CompletedIds(states)))
    ensures UnlockedStates(states) == states
  {
    hide Ready, CompletedIds;
  }

  lemma NoReason()
    ensures !Given(None)
  {
  }

  /** Every dependency of a completed task that the record knows is completed too. */
  ghost predicate Closed(states: map<Name, TaskState>) {
    forall id, dependency ::
      id in states && dependency in states && dependency in states[id].dependencies && states[id].status == Completed
      ==> states[dependency].status == Completed
  }

  predicate CompletedWithOutputs(s: TaskState, generated: Files) {
    s.status == Completed && OutputsPresent(s, generated)
  }

  /** No task that keeps its completion depends on one that loses it. */
  ghost predicate ClosedOnDisk(states: map<Name, TaskState>, generated: Files) {
    forall id, dependency ::
      id in states && dependency in states && dependency in states[id].dependencies
      && CompletedWithOutputs(states[id], generated)
      ==> CompletedWithOutputs(states[dependency], generated)
  }

  /**
   After a resume the completed tasks are closed under dependencies exactly when a repair was asked
   for, which leaves none completed, or no completed task with all outputs present depends on a task
   that is not completed with all outputs present.
   */
  lemma ClosedAfterResume(states: map<Name, TaskState>, generated: Files, repairReason: Option<string>)
    ensures Closed(Reconciled(states, generated, repairReason)) <==>
              Given(repairReason) || ClosedOnDisk(states, generated)
  {
    hide Reconciled, Given, OutputsPresent;
    var after := Reconciled(states, generated, repairReason);
    ResumeKeys(states, generated, repairReason);
    forall id | id in states
      ensures after[id].dependencies == states[id].dependencies
      ensures after[id].status == Completed <==> !Given(repairReason) && CompletedWithOutputs(states[id], generated)
    {
      ResumeRepairs(states, generated, repairReason, id);
    }
  }

  /** An input that fails it: a resume does not look at the dependents of a task it resets. */
  lemma DependentsStayCompleted()
    ensures exists states: map<Name, TaskState>, generated: Files ::
              Closed(states) && !Closed(Reconciled(states, generated, None))
  {
    var base: Name, above: Name, file: Name := "base", "above", "a.ts";
    var b := TaskState(base, "agent", [], [], [], [], Completed, 0, None, []);
    var a := TaskState(above, "agent", [], [base], [file], [], Completed, 0, None, [file]);
    var states: map<Name, TaskState> := map[base := b, above := a];
    var generated: Files := map[file := ""];
    assert base in a.dependencies && CompletedWithOutputs(a, generated) && !CompletedWithOutputs(b, generated);
    NotClosedAfter(states, generated, above, base);
    assert forall id :: id in states ==> states[id].status == Completed;
  }

  lemma NotClosedAfter(states: map<Name, TaskState>, generated: Files, id: Name, dependency: Name)
    requires id in states && dependency in states && dependency in states[id].dependencies
    requires CompletedWithOutputs(states[id], generated) && !CompletedWithOutputs(states[dependency], generated)
    ensures !Closed(Reconciled(states, generated, None))
  {
    hide Reconciled, CompletedWithOutputs, Given;
    ClosedAfterResume(states, generated, None);
    NoReason();
  }

  // ----- scheduling a plan -----

  /** A task handed off, run and recorded as completed with its outputs. */
  datatype Completion = Completion(taskId: Name, outputs: seq<Name>)

  function Completed1(states: map<Name, TaskState>, c: Completion): map<Name, TaskState> {
    if c.taskId in states then
      UnlockedStates(states[c.taskId :=
        states[c.taskId].(taskId := c.taskId, status := Completed, outputFiles := c.outputs)])
    else states
  }

  function AfterCompletions(states: map<Name, TaskState>, run: seq<Completion>): map<Name, TaskState> {
    if run == [] then states else Completed1(AfterCompletions(states, run[..|run| - 1]), run[|run| - 1])
  }

  predicate IsPending(states: map<Name, TaskState>, id: Name) {
    id in states && states[id].status == Pending
  }

  /** A scheduler that hands off a pending task, completes it and unlocks, over and over. */
  predicate Schedule(states: map<Name, TaskState>, run: seq<Completion>) {
    run == [] ||
    (Schedule(states, run[..|run| - 1]) &&
     IsPending(AfterCompletions(states, run[..|run| - 1]), run[|run| - 1].taskId))
  }

  function Ids(tasks: seq<Task>): (r: set<Name>)
    ensures forall id :: id in r <==> exists i :: 0 <= i < |tasks| && tasks[i].id == id
  {
    set i | 0 <= i < |tasks| :: tasks[i].id
  }

  function Done(run: seq<Completion>): (r: set<Name>)
    ensures forall id :: id in r <==> exists k :: 0 <= k < |run| && run[k].taskId == id
  {
    set k | 0 <= k < |run| :: run[k].taskId
  }

  predicate DistinctIds(tasks: seq<Task>) {
    forall i, j :: 0 <= i < j < |tasks| ==> tasks[i].id != tasks[j].id
  }

  /** What the plan validator makes sure of: distinct ids, and dependencies that name tasks. */
  predicate PlanOk(tasks: seq<Task>) {
    DistinctIds(tasks) &&
    forall i, k :: 0 <= i < |tasks| && 0 <= k < |tasks[i].dependencies| ==> tasks[i].dependencies[k] in Ids(tasks)
  }

  /** A ranking in which every dependency comes before its dependents: the graph has no cycle. */
  predicate Ranked(tasks: seq<Task>, rank: map<Name, nat>) {
    && (forall i :: 0 <= i < |tasks| ==> tasks[i].id in rank)
    && (forall i, k :: 0 <= i < |tasks| && 0 <= k < |tasks[i].dependencies| ==>
          tasks[i].dependencies[k] in rank && rank[tasks[i].dependencies[k]] < rank[tasks[i].id])
  }

  function StatusWhen(t: Task, done: set<Name>): Status {
    if t.id in done then Completed
    else if AllDone(t.dependencies, done) then Pending
    else Blocked
  }

  /** The states of a plan of which the given tasks are done. */
  ghost predicate Tracks(tasks: seq<Task>, states: map<Name, TaskState>, done: set<Name>) {
    && states.Keys == Ids(tasks) && done <= Ids(tasks)
    && forall i :: 0 <= i < |tasks| ==>
         var s := states[tasks[i].id];
         s.taskId == tasks[i].id && s.dependencies == tasks[i].dependencies && s.status == StatusWhen(tasks[i], done)
  }

  lemma {:induction false} StatesOfDistinct(tasks: seq<Task>, i: nat)
    requires DistinctIds(tasks) && i < |tasks|
    ensures tasks[i].id in StatesOf(tasks) && StatesOf(tasks)[tasks[i].id] == InitialState(tasks[i])
  {
    hide InitialState;
    var n := |tasks| - 1;
    if i < n {
      StatesOfDistinct(tasks[..n], i);
    }
  }

  lemma InitialStatusIs(t: Task)
    ensures InitialState(t).status == StatusWhen(t, {})
    ensures InitialState(t).taskId == t.id && InitialState(t).dependencies == t.dependencies
  {
    if |t.dependencies| > 0 {
      var none: set<Name> := {};
      assert t.dependencies[0] !in none;
    }
  }

  lemma InitialTracks(tasks: seq<Task>)
    requires DistinctIds(tasks)
    ensures Tracks(tasks, StatesOf(tasks), {})
  {
    hide StatesOf, InitialState, StatusWhen;
    StatesOfKeys(tasks);
    forall i | 0 <= i < |tasks| ensures StatesOf(tasks)[tasks[i].id] == InitialState(tasks[i]) {
      StatesOfDistinct(tasks, i);
    }
    forall i | 0 <= i < |tasks|
      ensures InitialState(tasks[i]).status == StatusWhen(tasks[i], {})
      ensures InitialState(tasks[i]).taskId == tasks[i].id
      ensures InitialState(tasks[i]).dependencies == tasks[i].dependencies
    {
      InitialStatusIs(tasks[i]);
    }
  }

  lemma {:induction false} StatesOfKeys(tasks: seq<Task>)
    ensures StatesOf(tasks).Keys == Ids(tasks)
  {
    hide InitialState;
    if tasks != [] {
      StatesOfKeys(tasks[..|tasks| - 1]);
      IdsStep(tasks);
    }
  }

  lemma TracksCompleted(tasks: seq<Task>, states: map<Name, TaskState>, done: set<Name>)
    requires Tracks(tasks, states, done)
    ensures CompletedIds(states) == done
  {
    forall id ensures id in CompletedIds(states) <==> id in done {
      if id in Ids(tasks) {
        var i :| 0 <= i < |tasks| && tasks[i].id == id;
        assert states[id].taskId == id;
      }
      if id in CompletedIds(states) {
        var key :| key in states && states[key].status == Completed && states[key].taskId == id;
        var i :| 0 <= i < |tasks| && tasks[i].id == key;
      }
    }
  }

  lemma CompleteTracks(tasks: seq<Task>, states: map<Name, TaskState>, done: set<Name>, c: Completion)
    requires DistinctIds(tasks) && Tracks(tasks, states, done) && IsPending(states, c.taskId)
    ensures c.taskId !in done
    ensures Tracks(tasks, Completed1(states, c), done + {c.taskId})
  {
    hide CompletedIds;
    var id := c.taskId;
    var i :| 0 <= i < |tasks| && tasks[i].id == id;
    var next := states[id := states[id].(taskId := id, status := Completed, outputFiles := c.outputs)];
    TracksCompleted(tasks, states, done);
    NextCompleted(states, next, c, done);
    forall j | 0 <= j < |tasks|
      ensures var s := Completed1(states, c)[tasks[j].id];
              s.taskId == tasks[j].id && s.dependencies == tasks[j].dependencies &&
              s.status == StatusWhen(tasks[j], done + {id})
    {
      OneTracks(tasks[j], states, done, c);
    }
  }

  lemma NextCompleted(states: map<Name, TaskState>, next: map<Name, TaskState>, c: Completion, done: set<Name>)
    requires c.taskId in states && states[c.taskId].status != Completed && CompletedIds(states) == done
    requires next == states[c.taskId :=
               states[c.taskId].(taskId := c.taskId, status := Completed, outputFiles := c.outputs)]
    ensures CompletedIds(next) == done + {c.taskId}
  {
    forall name ensures name in CompletedIds(next) <==> name in done || name == c.taskId {
      if name in done {
        var id :| id in states && states[id].status == Completed && states[id].taskId == name;
        assert next[id] == states[id];
      }
      assert next[c.taskId].status == Completed;
    }
  }

  lemma OneTracks(t: Task, states: map<Name, TaskState>, done: set<Name>, c: Completion)
    requires t.id in states && states[t.id].taskId == t.id && states[t.id].dependencies == t.dependencies
    requires states[t.id].status == StatusWhen(t, done) && IsPending(states, c.taskId)
    requires CompletedIds(states[c.taskId :=
               states[c.taskId].(taskId := c.taskId, status := Completed, outputFiles := c.outputs)])
             == done + {c.taskId}
    ensures var s := Completed1(states, c)[t.id];
            s.taskId == t.id && s.dependencies == t.dependencies && s.status == StatusWhen(t, done + {c.taskId})
  {
    hide CompletedIds;
  }

  lemma {:induction false} ScheduleTracks(tasks: seq<Task>, run: seq<Completion>)
    requires DistinctIds(tasks) && Schedule(StatesOf(tasks), run)
    ensures Tracks(tasks, AfterCompletions(StatesOf(tasks), run), Done(run))
    ensures |Done(run)| == |run|
  {
    hide Tracks, StatesOf, Completed1, IsPending;
    if run == [] {
      InitialTracks(tasks);
      assert Done(run) == {};
    } else {
      var n := |run| - 1;
      ScheduleTracks(tasks, run[..n]);
      CompleteTracks(tasks, AfterCompletions(StatesOf(tasks), run[..n]), Done(run[..n]), run[n]);
      DoneStep(run);
    }
  }

  /** What a schedule has made of a task: as planned, completed with its outputs, pending or blocked. */
  ghost predicate Progressed(t: Task, s: TaskState, run: seq<Completion>) {
    && s.taskId == t.id && s.ownerAgent == t.agent && s.requirementIds == t.requirementIds
    && s.dependencies == t.dependencies && s.ownedFiles == t.files && s.validations == t.validations
    && s.attempts == 0 && s.lastError == None
    && if exists k :: 0 <= k < |run| && run[k].taskId == t.id then
         s.status == Completed && exists k :: 0 <= k < |run| && run[k] == Completion(t.id, s.outputFiles)
       else
         && s.outputFiles == []
         && s.status == if forall d :: d in t.dependencies ==> d in Done(run) then Pending else Blocked
  }

  lemma ProgressStep(t: Task, s: TaskState, next: TaskState, run: seq<Completion>, c: Completion)
    requires Progressed(t, s, run)
    requires s.status == StatusWhen(t, Done(run)) && next.status == StatusWhen(t, Done(run + [c]))
    requires next == s.(status := next.status, outputFiles := next.outputFiles)
    requires next.outputFiles == if c.taskId == t.id then c.outputs else s.outputFiles
    ensures Progressed(t, next, run + [c])
  {
    var longer := run + [c];
    assert longer[|run|] == c && forall k :: 0 <= k < |run| ==> longer[k] == run[k];
    assert (forall d :: d in t.dependencies ==> d in Done(longer)) <==> AllDone(t.dependencies, Done(longer));
  }

  lemma NoProgress(t: Task)
    ensures Progressed(t, InitialState(t), [])
  {
    InitialStatusIs(t);
    assert Done([]) == {};
    assert forall k :: 0 <= k < |t.dependencies| ==> t.dependencies[k] in t.dependencies;
  }

  lemma CompletedAt(states: map<Name, TaskState>, c: Completion, id: Name)
    requires id in states && c.taskId in states && states[c.taskId].taskId == c.taskId
    ensures id in Completed1(states, c)
    ensures var next := Completed1(states, c)[id];
            && next == states[id].(status := next.status, outputFiles := next.outputFiles)
            && next.outputFiles == if c.taskId == id then c.outputs else states[id].outputFiles
  {
    hide CompletedIds, AllDone;
  }

  /** Task by task, the states after any schedule. */
  lemma {:induction false} ScheduleStates(tasks: seq<Task>, run: seq<Completion>, i: nat)
    requires DistinctIds(tasks) && Schedule(StatesOf(tasks), run) && i < |tasks|
    ensures tasks[i].id in AfterCompletions(StatesOf(tasks), run)
    ensures Progressed(tasks[i], AfterCompletions(StatesOf(tasks), run)[tasks[i].id], run)
    decreases |run|
  {
    hide *;
    var t, start := tasks[i], StatesOf(tasks);
    if run == [] {
      StatesOfDistinct(tasks, i);
      AfterNone(start);
      NoProgress(t);
    } else {
      var n := |run| - 1;
      var states := AfterCompletions(start, run[..n]);
      AfterOne(start, run);
      ScheduleSplit(start, run);
      ScheduleStates(tasks, run[..n], i);
      ScheduleTracks(tasks, run[..n]);
      ScheduleTracks(tasks, run);
      TracksStatus(tasks, states, Done(run[..n]), i);
      TracksStatus(tasks, AfterCompletions(start, run), Done(run), i);
      var j := TracksKey(tasks, states, Done(run[..n]), run[n].taskId);
      CompletedAt(states, run[n], t.id);
      assert run == run[..n] + [run[n]];
      ProgressStep(t, states[t.id], Completed1(states, run[n])[t.id], run[..n], run[n]);
    }
  }

  lemma AfterNone(states: map<Name, TaskState>)
    ensures AfterCompletions(states, []) == states
  {
  }

  lemma AfterOne(states: map<Name, TaskState>, run: seq<Completion>)
    requires run != []
    ensures AfterCompletions(states, run) ==
            Completed1(AfterCompletions(states, run[..|run| - 1]), run[|run| - 1])
  {
    hide Completed1;
  }

  lemma TracksStatus(tasks: seq<Task>, states: map<Name, TaskState>, done: set<Name>, i: nat)
    requires Tracks(tasks, states, done) && i < |tasks|
    ensures tasks[i].id in states && states[tasks[i].id].status == StatusWhen(tasks[i], done)
  {
    hide Ids, StatusWhen;
  }

  lemma TracksKey(tasks: seq<Task>, states: map<Name, TaskState>, done: set<Name>, id: Name) returns (i: nat)
    requires Tracks(tasks, states, done) && IsPending(states, id)
    ensures i < |tasks| && tasks[i].id == id && id in states && states[id].taskId == id
  {
    hide StatusWhen;
    i :| 0 <= i < |tasks| && tasks[i].id == id;
  }

  lemma DoneStep(run: seq<Completion>)
    requires run != []
    ensures Done(run) == Done(run[..|run| - 1]) + {run[|run| - 1].taskId}
  {
    var n := |run| - 1;
    forall id ensures id in Done(run) <==> id in Done(run[..n]) || id == run[n].taskId {
      if id in Done(run[..n]) {
        var k :| 0 <= k < n && run[..n][k].taskId == id;
        assert run[k].taskId == id;
      }
      if id in Done(run) && id != run[n].taskId {
        var k :| 0 <= k < |run| && run[k].taskId == id;
        assert run[..n][k].taskId == id;
      }
    }
  }

  lemma {:induction false} SubsetSize(a: set<Name>, b: set<Name>)
    requires a <= b
    ensures |a| <= |b|
    ensures |a| == |b| ==> a == b
  {
    if a != {} {
      var x :| x in a;
      SubsetSize(a - {x}, b - {x});
    }
  }

  lemma {:induction false} IdsSize(tasks: seq<Task>)
    requires DistinctIds(tasks)
    ensures |Ids(tasks)| == |tasks|
  {
    if tasks == [] {
      assert Ids(tasks) == {};
    } else {
      IdsSize(tasks[..|tasks| - 1]);
      IdsStep(tasks);
    }
  }

  lemma IdsStep(tasks: seq<Task>)
    requires tasks != []
    ensures Ids(tasks) == Ids(tasks[..|tasks| - 1]) + {tasks[|tasks| - 1].id}
    ensures DistinctIds(tasks) ==> tasks[|tasks| - 1].id !in Ids(tasks[..|tasks| - 1])
  {
    hide Ids;
    var n := |tasks| - 1;
    forall id: Name ensures id in Ids(tasks) <==> id in Ids(tasks[..n]) || id == tasks[n].id {
      if id in Ids(tasks[..n]) {
        var k :| 0 <= k < n && tasks[..n][k].id == id;
        assert tasks[k].id == id;
      }
      if id in Ids(tasks) && id != tasks[n].id {
        var k :| 0 <= k < |tasks| && tasks[k].id == id;
        assert tasks[..n][k].id == id;
      }
    }
  }

  /** Among tasks that are not done, one of least rank has all its dependencies done. */
  lemma {:induction false} LeastRank(ids: set<Name>, rank: map<Name, nat>) returns (least: Name)
    requires ids != {} && forall id :: id in ids ==> id in rank
    ensures least in ids && forall id :: id in ids ==> rank[least] <= rank[id]
  {
    var x :| x in ids;
    least := x;
    if ids != {x} {
      var y := LeastRank(ids - {x}, rank);
      least := if rank[x] <= rank[y] then x else y;
    }
  }

  /** The index of a task that is pending, as long as some task of an acyclic plan is not done. */
  lemma NextTask(tasks: seq<Task>, states: map<Name, TaskState>, done: set<Name>, rank: map<Name, nat>)
    returns (i: nat)
    requires PlanOk(tasks) && Ranked(tasks, rank) && Tracks(tasks, states, done) && done != Ids(tasks)
    ensures i < |tasks| && IsPending(states, tasks[i].id)
  {
    var open := Ids(tasks) - done;
    var undone := NotAllDone(tasks, done);
    assert tasks[undone].id in open;
    forall id | id in open ensures id in rank {
      var k :| 0 <= k < |tasks| && tasks[k].id == id;
    }
    var least := LeastRank(open, rank);
    i :| 0 <= i < |tasks| && tasks[i].id == least;
    forall k | 0 <= k < |tasks[i].dependencies| ensures tasks[i].dependencies[k] in done {
      assert tasks[i].dependencies[k] in Ids(tasks);
      assert rank[tasks[i].dependencies[k]] < rank[least];
    }
  }

  lemma TracksAt(tasks: seq<Task>, states: map<Name, TaskState>, done: set<Name>, i: nat)
    requires Tracks(tasks, states, done) && i < |tasks|
    ensures tasks[i].id in states
    ensures states[tasks[i].id].status == Completed <==> tasks[i].id in done
    ensures IsPending(states, tasks[i].id) ==> AllDone(tasks[i].dependencies, done)
    ensures done == Ids(tasks) ==> !IsPending(states, tasks[i].id)
  {
    hide AllDone, Ids;
  }

  lemma TracksWithin(tasks: seq<Task>, states: map<Name, TaskState>, done: set<Name>)
    requires Tracks(tasks, states, done)
    ensures done <= Ids(tasks)
  {
    hide AllDone, Ids;
  }

  lemma NotAllDone(tasks: seq<Task>, done: set<Name>) returns (i: nat)
    requires done <= Ids(tasks) && done != Ids(tasks)
    ensures i < |tasks| && tasks[i].id !in done
  {
    var id :| id in Ids(tasks) && id !in done;
    i :| 0 <= i < |tasks| && tasks[i].id == id;
  }

  /**
   With an acyclic plan the scheduler is never stuck: it has done fewer completions than there are
   tasks exactly while some task is pending, and after n completions every task is completed.
   */
  lemma SchedulerProgress(tasks: seq<Task>, run: seq<Completion>, rank: map<Name, nat>)
    requires PlanOk(tasks) && Ranked(tasks, rank) && Schedule(StatesOf(tasks), run)
    ensures var states := AfterCompletions(StatesOf(tasks), run);
            && |run| <= |tasks|
            && (|run| < |tasks| <==> exists i :: 0 <= i < |tasks| && IsPending(states, tasks[i].id))
            && (|run| == |tasks| <==> forall i :: 0 <= i < |tasks| ==>
                  tasks[i].id in states && states[tasks[i].id].status == Completed)
  {
    hide *;
    PlanDistinct(tasks);
    var states, done := AfterCompletions(StatesOf(tasks), run), Done(run);
    ScheduleTracks(tasks, run);
    TracksWithin(tasks, states, done);
    IdsSize(tasks);
    SubsetSize(done, Ids(tasks));
    forall i | 0 <= i < |tasks|
      ensures tasks[i].id in states && (states[tasks[i].id].status == Completed <==> tasks[i].id in done)
      ensures done == Ids(tasks) ==> !IsPending(states, tasks[i].id)
    {
      TracksAt(tasks, states, done, i);
    }
    if done != Ids(tasks) {
      var i := NextTask(tasks, states, done, rank);
      var j := NotAllDone(tasks, done);
    }
  }

  lemma PlanDistinct(tasks: seq<Task>)
    requires PlanOk(tasks)
    ensures DistinctIds(tasks)
  {
    hide DistinctIds, Ids;
  }

  /** The dependencies of a pending task are done and the task itself is not. */
  lemma PendingMeans(tasks: seq<Task>, run: seq<Completion>, i: nat)
    requires DistinctIds(tasks) && Schedule(StatesOf(tasks), run) && i < |tasks|
    requires IsPending(AfterCompletions(StatesOf(tasks), run), tasks[i].id)
    ensures tasks[i].id !in Done(run)
    ensures AllDone(tasks[i].dependencies, Done(run))
  {
    hide StatesOf, AfterCompletions, Schedule, Tracks, Done, AllDone;
    ScheduleTracks(tasks, run);
    TracksAt(tasks, AfterCompletions(StatesOf(tasks), run), Done(run), i);
  }

  /** A schedule is a schedule of fewer completions followed by one of a pending task. */
  lemma ScheduleSplit(states: map<Name, TaskState>, run: seq<Completion>)
    requires Schedule(states, run) && run != []
    ensures Schedule(states, run[..|run| - 1])
    ensures IsPending(AfterCompletions(states, run[..|run| - 1]), run[|run| - 1].taskId)
  {
    hide AfterCompletions, IsPending;
  }

  lemma DoneAt(run: seq<Completion>, k: nat)
    requires k < |run|
    ensures run[k].taskId in Done(run)
  {
  }

  lemma DoneWhere(run: seq<Completion>, id: Name) returns (k: nat)
    requires id in Done(run)
    ensures k < |run| && run[k].taskId == id
  {
    k :| 0 <= k < |run| && run[k].taskId == id;
  }

  /** No task is completed twice. */
  lemma {:induction false} NotTwice(tasks: seq<Task>, run: seq<Completion>, k: nat, l: nat)
    requires DistinctIds(tasks) && Schedule(StatesOf(tasks), run) && k < l < |run|
    ensures run[k].taskId != run[l].taskId
    decreases |run|
  {
    hide *;
    var n := |run| - 1;
    ScheduleSplit(StatesOf(tasks), run);
    assert run[..n][k] == run[k];
    if l < n {
      NotTwice(tasks, run[..n], k, l);
    } else {
      ScheduleTracks(tasks, run[..n]);
      DoneAt(run[..n], k);
      CompleteTracks(tasks, AfterCompletions(StatesOf(tasks), run[..n]), Done(run[..n]), run[n]);
    }
  }

  /** A task is completed only after each of its dependencies. */
  lemma {:induction false} Topological(tasks: seq<Task>, run: seq<Completion>, k: nat, i: nat, d: nat)
    returns (l: nat)
    requires DistinctIds(tasks) && Schedule(StatesOf(tasks), run) && k < |run|
    requires i < |tasks| && tasks[i].id == run[k].taskId && d < |tasks[i].dependencies|
    ensures l < k && run[l].taskId == tasks[i].dependencies[d]
    decreases |run|
  {
    hide *;
    var n := |run| - 1;
    ScheduleSplit(StatesOf(tasks), run);
    if k < n {
      l := Topological(tasks, run[..n], k, i, d);
    } else {
      PendingMeans(tasks, run[..n], i);
      AllDoneAt(tasks[i].dependencies, Done(run[..n]), d);
      l := DoneWhere(run[..n], tasks[i].dependencies[d]);
    }
  }

  lemma AllDoneAt(dependencies: seq<Name>, done: set<Name>, d: nat)
    requires AllDone(dependencies, done) && d < |dependencies|
    ensures dependencies[d] in done
  {
  }

  /**
   The handoff of a pending task never fails for its dependencies or its files: only requirement
   ids outside the contract or a disagreeing agent can stop it.
   */
  lemma HandoffOfPending(context: Context, r: Record, run: seq<Completion>, i: nat)
    requires DistinctIds(context.tasks) && RecordOf(context.tasks, r) && Schedule(r.taskStates, run)
    requires i < |context.tasks|
    requires IsPending(AfterCompletions(r.taskStates, run), context.tasks[i].id)
    ensures var now := r.(taskStates := AfterCompletions(r.taskStates, run));
            HandoffOk(context, now, context.tasks[i], Done(run)) <==>
              RequirementsKnown(context, context.tasks[i]) && AgentAgrees(context, context.tasks[i])
  {
    hide StatesOf, AfterCompletions, Schedule, RequirementsKnown, AgentAgrees, Done, IsPending, RecordOf, Owns;
    OwnsAll(context.tasks, r, i);
    PendingMeans(context.tasks, run, i);
    var t, now := context.tasks[i], r.(taskStates := AfterCompletions(r.taskStates, run));
    forall k | 0 <= k < |t.files| ensures Owns(now, t.id, t.files[k]) {
      SameOwners(r, now, t.id, t.files[k]);
    }
  }

  lemma SameOwners(r: Record, s: Record, task: Name, file: Name)
    requires r.fileOwners == s.fileOwners
    ensures Owns(r, task, file) == Owns(s, task, file)
  {
  }

  lemma OwnsAll(tasks: seq<Task>, r: Record, i: nat)
    requires RecordOf(tasks, r) && i < |tasks|
    ensures r.taskStates == StatesOf(tasks)
    ensures forall k :: 0 <= k < |tasks[i].files| ==> Owns(r, tasks[i].id, tasks[i].files[k])
  {
    hide StatesOf;
    forall k | 0 <= k < |tasks[i].files| ensures Owns(r, tasks[i].id, tasks[i].files[k]) {
      assert Lists(tasks[i], tasks[i].files[k]);
    }
  }

  /** Extends a schedule of an acyclic plan until every task is completed. */
  lemma {:induction false} FullSchedule(tasks: seq<Task>, run: seq<Completion>, rank: map<Name, nat>)
    returns (full: seq<Completion>)
    requires PlanOk(tasks) && Ranked(tasks, rank) && Schedule(StatesOf(tasks), run)
    ensures Schedule(StatesOf(tasks), full) && |full| == |tasks| && run <= full
    decreases |tasks| - |run|
  {
    hide *;
    SchedulerProgress(tasks, run, rank);
    if |run| == |tasks| {
      full := run;
    } else {
      var i :| 0 <= i < |tasks| && IsPending(AfterCompletions(StatesOf(tasks), run), tasks[i].id);
      var longer := run + [Completion(tasks[i].id, [])];
      ScheduleExtends(StatesOf(tasks), run, Completion(tasks[i].id, []));
      full := FullSchedule(tasks, longer, rank);
    }
  }

  lemma ScheduleExtends(states: map<Name, TaskState>, run: seq<Completion>, c: Completion)
    requires Schedule(states, run) && IsPending(AfterCompletions(states, run), c.taskId)
    ensures Schedule(states, run + [c])
  {
    hide AfterCompletions, IsPending;
    assert (run + [c])[..|run|] == run;
  }

  /** The place of each task in a schedule. */
  function Places(run: seq<Completion>): (r: map<Name, nat>)
    ensures forall id :: id in r ==> r[id] < |run| && run[r[id]].taskId == id
    ensures forall k :: 0 <= k < |run| ==> run[k].taskId in r
  {
    if run == [] then map[] else Places(run[..|run| - 1])[run[|run| - 1].taskId := |run| - 1]
  }

  lemma ScheduleRanks(tasks: seq<Task>, run: seq<Completion>)
    requires PlanOk(tasks) && Schedule(StatesOf(tasks), run) && |run| == |tasks|
    ensures Ranked(tasks, Places(run))
  {
    hide StatesOf, Schedule, Places, Done, Ids, PlanOk;
    PlanDistinct(tasks);
    ScheduleCovers(tasks, run);
    forall i | 0 <= i < |tasks| ensures tasks[i].id in Places(run) {
      var k := DoneWhere(run, tasks[i].id);
    }
    forall i, d | 0 <= i < |tasks| && 0 <= d < |tasks[i].dependencies|
      ensures tasks[i].dependencies[d] in Places(run)
      ensures Places(run)[tasks[i].dependencies[d]] < Places(run)[tasks[i].id]
    {
      DependencyBefore(tasks, run, i, d);
    }
  }

  lemma ScheduleCovers(tasks: seq<Task>, run: seq<Completion>)
    requires DistinctIds(tasks) && Schedule(StatesOf(tasks), run) && |run| == |tasks|
    ensures forall i :: 0 <= i < |tasks| ==> tasks[i].id in Done(run)
  {
    hide *;
    ScheduleTracks(tasks, run);
    TracksWithin(tasks, AfterCompletions(StatesOf(tasks), run), Done(run));
    IdsSize(tasks);
    SubsetSize(Done(run), Ids(tasks));
  }

  lemma DependencyBefore(tasks: seq<Task>, run: seq<Completion>, i: nat, d: nat)
    requires DistinctIds(tasks) && Schedule(StatesOf(tasks), run)
    requires i < |tasks| && d < |tasks[i].dependencies| && tasks[i].id in Places(run)
    ensures tasks[i].dependencies[d] in Places(run)
    ensures Places(run)[tasks[i].dependencies[d]] < Places(run)[tasks[i].id]
  {
    hide *;
    var k := Places(run)[tasks[i].id];
    var l := Topological(tasks, run, k, i, d);
    var m := Places(run)[tasks[i].dependencies[d]];
    if l < m {
      NotTwice(tasks, run, l, m);
    } else if m < l {
      NotTwice(tasks, run, m, l);
    }
  }

  /** A plan can be carried out to the end exactly when its dependencies have no cycle. */
  lemma CompletableIffAcyclic(tasks: seq<Task>)
    requires PlanOk(tasks)
    ensures (exists run :: Schedule(StatesOf(tasks), run) && |run| == |tasks|) <==>
              (exists rank :: Ranked(tasks, rank))
  {
    hide PlanOk, Ranked, Schedule, StatesOf;
    if run :| Schedule(StatesOf(tasks), run) && |run| == |tasks| {
      ScheduleRanks(tasks, run);
    }
    if rank :| Ranked(tasks, rank) {
      EmptySchedule(StatesOf(tasks));
      var full := FullSchedule(tasks, [], rank);
    }
  }

  /** A plan that cannot be: two tasks that wait for each other pass the check of each task by itself. */
  lemma CycleStalls()
    ensures exists tasks: seq<Task> ::
              && PlanOk(tasks) && (forall i :: 0 <= i < |tasks| ==> tasks[i].id !in tasks[i].dependencies)
              && !(exists run :: Schedule(StatesOf(tasks), run) && |run| == |tasks|)
  {
    hide Schedule, StatesOf;
    var a: Name, b: Name := "a", "b";
    var tasks := [Task(a, "agent", [], [b], [], []), Task(b, "agent", [], [a], [], [])];
    assert tasks[0].dependencies[0] == b && tasks[1].dependencies[0] == a;
    assert tasks[0].id in Ids(tasks) && tasks[1].id in Ids(tasks);
    assert forall rank :: !Ranked(tasks, rank);
    CompletableIffAcyclic(tasks);
  }

  lemma EmptySchedule(states: map<Name, TaskState>)
    ensures Schedule(states, [])
  {
  }
}
