/**
 The migration runner `applyAppForgeSchemaMigrations` of src/db/ensureSchema.ts: servers apply a
 list of checksummed migrations, one transaction each, under a session lock.
 */
module SchemaMigrations {
  import opened Wrappers
  import opened Hashing

  datatype Migration = Migration(version: string, name: string, sql: string)

  /** What running some SQL does to a schema. */
  type Effect<!S> = (string, S) -> S

  /** The rows of `appforge_schema_migrations` are kept as the migrations committed, in order. */
  datatype Found = Missing | Same | Changed

  function Find(log: seq<Migration>, version: string): (r: Option<Migration>)
    ensures r.Some? ==> r.value in log && r.value.version == version
    ensures r.None? ==> forall i :: 0 <= i < |log| ==> log[i].version != version
  {
    if log == [] then None
    else if log[0].version == version then Some(log[0])
    else Find(log[1..], version)
  }

  /** An empty recorded checksum counts as no record. */
  function Look(h: Hash, log: seq<Migration>, m: Migration): Found {
    var row := Find(log, m.version);
    if row.None? || h(row.value.sql) == "" then Missing
    else if h(row.value.sql) == h(m.sql) then Same
    else Changed
  }

  predicate Recorded(log: seq<Migration>, version: string) {
    exists i :: 0 <= i < |log| && log[i].version == version
  }

  /** Recorded with the checksum of this migration. */
  predicate Applied(h: Hash, log: seq<Migration>, m: Migration) {
    exists i :: 0 <= i < |log| && log[i].version == m.version && h(log[i].sql) == h(m.sql)
  }

  function Fold<S>(effect: Effect<S>, base: S, log: seq<Migration>): S {
    if log == [] then base else effect(log[|log| - 1].sql, Fold(effect, base, log[..|log| - 1]))
  }

  predicate DistinctVersions(log: seq<Migration>) {
    forall i, j :: 0 <= i < j < |log| ==> log[i].version != log[j].version
  }

  // ----- one server alone -----

  datatype Failure = ChecksumChanged | SqlError | Conflict

  /** The outcome of the loop on its own; migrations of broken versions fail when they run. */
  function Loop(h: Hash, log: seq<Migration>, list: seq<Migration>, broken: set<string>)
    : (seq<Migration>, Option<Failure>)
    decreases |list|
  {
    if list == [] then (log, None)
    else
      match Look(h, log, list[0])
      case Changed => (log, Some(ChecksumChanged))
      case Same => Loop(h, log, list[1..], broken)
      case Missing =>
        if list[0].version in broken then (log, Some(SqlError))
        else if Recorded(log, list[0].version) then (log, Some(Conflict))
        else Loop(h, log + [list[0]], list[1..], broken)
  }

  class Database<!S> {
    const h: Hash
    const effect: Effect<S>
    var schema: S
    var log: seq<Migration>

    constructor (h: Hash, effect: Effect<S>, base: S)
      ensures this.h == h && this.effect == effect && schema == base && log == []
    {
      this.h := h;
      this.effect := effect;
      schema := base;
      log := [];
    }

    /** One transaction: the SQL and the row, or neither. */
    method Begin(m: Migration, broken: set<string>) returns (failure: Option<Failure>)
      modifies this
      ensures failure == if m.version in broken then Some(SqlError)
                         else if Recorded(old(log), m.version) then Some(Conflict) else None
      ensures log == if failure.None? then old(log) + [m] else old(log)
      ensures schema == if failure.None? then effect(m.sql, old(schema)) else old(schema)
    {
      if m.version in broken {
        return Some(SqlError);
      }
      var before := schema;
      schema := effect(m.sql, schema);
      if Recorded(log, m.version) {
        schema := before;
        return Some(Conflict);
      }
      log := log + [m];
      return None;
    }

    method ApplyAppForgeSchemaMigrations(list: seq<Migration>, broken: set<string>, ghost base: S)
      returns (failure: Option<Failure>)
      requires schema == Fold(effect, base, log)
      modifies this
      ensures (log, failure) == Loop(h, old(log), list, broken)
      ensures schema == Fold(effect, base, log)
    {
      hide Look, Recorded;
      assert list[0..] == list;
      for i := 0 to |list|
        invariant schema == Fold(effect, base, log)
        invariant Loop(h, log, list[i..], broken) == Loop(h, old(log), list, broken)
      {
        var migration := list[i];
        assert list[i..][0] == migration && list[i..][1..] == list[i + 1..];
        match Look(h, log, migration)
        case Changed =>
          return Some(ChecksumChanged);
        case Same =>
        case Missing =>
          ghost var before := log;
          var failed := Begin(migration, broken);
          if failed.Some? {
            return failed;
          }
          assert log[..|log| - 1] == before;
      }
      return None;
    }
  }

  /** What a server can rely on after the loop, whatever was recorded before. */
  lemma {:induction false} LoopApplies(h: Hash, log: seq<Migration>, list: seq<Migration>, broken: set<string>)
    requires DistinctVersions(log)
    ensures var (after, failure) := Loop(h, log, list, broken);
            && log <= after && DistinctVersions(after)
            && (failure.None? ==> forall i :: 0 <= i < |list| ==> Applied(h, after, list[i]))
    decreases |list|
  {
    hide Look, Applied, Recorded;
    if list != [] {
      var m := list[0];
      LookMeans(h, log, m);
      if Look(h, log, m) == Same {
        LoopApplies(h, log, list[1..], broken);
        var (after, failure) := Loop(h, log, list[1..], broken);
        AppliedStays(h, log, after, m);
      } else if Look(h, log, m) == Missing && m.version !in broken && !Recorded(log, m.version) {
        LogExtends(h, log, m);
        LoopApplies(h, log + [m], list[1..], broken);
        var (after, failure) := Loop(h, log + [m], list[1..], broken);
        AppliedStays(h, log + [m], after, m);
      }
    }
  }

  lemma LookMeans(h: Hash, log: seq<Migration>, m: Migration)
    ensures Look(h, log, m) == Same ==> Applied(h, log, m)
    ensures !Recorded(log, m.version) ==> Look(h, log, m) == Missing
    ensures DistinctVersions(log) && Applied(h, log, m) && h(m.sql) != "" ==> Look(h, log, m) == Same
  {
    var row := Find(log, m.version);
    if row.Some? {
      var i :| 0 <= i < |log| && log[i] == row.value;
    }
  }

  lemma AppliedStays(h: Hash, log: seq<Migration>, after: seq<Migration>, m: Migration)
    requires log <= after && Applied(h, log, m)
    ensures Applied(h, after, m)
  {
    var i :| 0 <= i < |log| && log[i].version == m.version && h(log[i].sql) == h(m.sql);
    assert after[i] == log[i];
  }

  lemma LogExtends(h: Hash, log: seq<Migration>, m: Migration)
    requires DistinctVersions(log) && !Recorded(log, m.version)
    ensures DistinctVersions(log + [m]) && Applied(h, log + [m], m)
  {
    assert (log + [m])[|log|] == m;
  }

  // ----- many servers -----

  datatype Phase =
    | Idle
    | Waiting(list: seq<Migration>)
    | Running(list: seq<Migration>, i: nat)
    | Applying(list: seq<Migration>, i: nat)
    | Succeeded(list: seq<Migration>)
    | Failed(why: Failure)

  datatype State<!S> = State(log: seq<Migration>, schema: S, lock: Option<int>, servers: map<int, Phase>)

  /** A server whose connection drops loses the lock; its client may reconnect and go on. */
  datatype Action =
    | Start(server: int, list: seq<Migration>)
    | Acquire(server: int)
    | Read(server: int)
    | Commit(server: int)
    | SqlFails(server: int)
    | Finish(server: int)
    | Crash(server: int)
    | Reconnect(server: int)

  function PhaseOf<S>(s: State<S>, server: int): Phase {
    if server in s.servers then s.servers[server] else Idle
  }

  function Enter<S>(s: State<S>, server: int, phase: Phase): State<S> {
    s.(servers := s.servers[server := phase])
  }

  /** Unlocking is a no-op for a server that does not hold the lock. */
  function Release<S>(s: State<S>, server: int): State<S> {
    if s.lock == Some(server) then s.(lock := None) else s
  }

  predicate AtMigration(phase: Phase) {
    (phase.Running? || phase.Applying?) && phase.i < |phase.list|
  }

  function Step<S>(h: Hash, effect: Effect<S>, s: State<S>, a: Action): State<S> {
    var phase := PhaseOf(s, a.server);
    match a
    case Start(server, list) =>
      if phase.Idle? || phase.Succeeded? || phase.Failed? then Enter(s, server, Waiting(list)) else s
    case Acquire(server) =>
      if phase.Waiting? && s.lock.None? then Enter(s, server, Running(phase.list, 0)).(lock := Some(server)) else s
    case Read(server) =>
      if !phase.Running? || !AtMigration(phase) then s
      else
        var found := Look(h, s.log, phase.list[phase.i]);
        if found == Same then Enter(s, server, Running(phase.list, phase.i + 1))
        else if found == Changed then Release(Enter(s, server, Failed(ChecksumChanged)), server)
        else Enter(s, server, Applying(phase.list, phase.i))
    case Commit(server) =>
      if !phase.Applying? || !AtMigration(phase) then s
      else
        var m := phase.list[phase.i];
        if Recorded(s.log, m.version) then Release(Enter(s, server, Failed(Conflict)), server)
        else
          Enter(s, server, Running(phase.list, phase.i + 1))
          .(log := s.log + [m], schema := effect(m.sql, s.schema))
    case SqlFails(server) =>
      if phase.Applying? then Release(Enter(s, server, Failed(SqlError)), server) else s
    case Finish(server) =>
      if phase.Running? && phase.i >= |phase.list| then Release(Enter(s, server, Succeeded(phase.list)), server) else s
    case Crash(server) => Release(Enter(s, server, Idle), server)
    case Reconnect(server) => Release(s, server)
  }

  function Run<S>(h: Hash, effect: Effect<S>, s: State<S>, actions: seq<Action>): State<S> {
    if actions == [] then s
    else Step(h, effect, Run(h, effect, s, actions[..|actions| - 1]), actions[|actions| - 1])
  }

  function Empty<S>(base: S): State<S> {
    State([], base, None, map[])
  }

  // ----- what holds for any lists of migrations -----

  /** Everything before the server's position is recorded with matching checksums. */
  ghost predicate Progress(h: Hash, log: seq<Migration>, phase: Phase) {
    && (phase.Running? || phase.Applying? ==>
          phase.i <= |phase.list| && forall k :: 0 <= k < phase.i ==> Applied(h, log, phase.list[k]))
    && (phase.Succeeded? ==> forall k :: 0 <= k < |phase.list| ==> Applied(h, log, phase.list[k]))
  }

  ghost predicate Inv<S>(h: Hash, effect: Effect<S>, base: S, s: State<S>) {
    && DistinctVersions(s.log)
    && s.schema == Fold(effect, base, s.log)
    && forall server :: server in s.servers ==> Progress(h, s.log, s.servers[server])
  }

  lemma ProgressStays(h: Hash, log: seq<Migration>, after: seq<Migration>, phase: Phase)
    requires log <= after && Progress(h, log, phase)
    ensures Progress(h, after, phase)
  {
    hide Applied;
    if phase.Running? || phase.Applying? || phase.Succeeded? {
      forall k | 0 <= k < |phase.list| && Applied(h, log, phase.list[k]) ensures Applied(h, after, phase.list[k]) {
        AppliedStays(h, log, after, phase.list[k]);
      }
    }
  }

  lemma EnterInv<S>(h: Hash, effect: Effect<S>, base: S, s: State<S>, server: int, phase: Phase)
    requires Inv(h, effect, base, s) && Progress(h, s.log, phase)
    ensures Inv(h, effect, base, Enter(s, server, phase))
    ensures Inv(h, effect, base, Release(Enter(s, server, phase), server))
  {
    hide Progress, DistinctVersions, Fold;
  }

  lemma ReadProgress(h: Hash, log: seq<Migration>, phase: Phase)
    requires phase.Running? && AtMigration(phase) && Progress(h, log, phase)
    ensures Progress(h, log, Applying(phase.list, phase.i))
    ensures Look(h, log, phase.list[phase.i]) == Same ==> Progress(h, log, Running(phase.list, phase.i + 1))
  {
    hide Look, Applied;
    LookMeans(h, log, phase.list[phase.i]);
  }

  lemma CommitInv<S>(h: Hash, effect: Effect<S>, base: S, s: State<S>, server: int)
    requires Inv(h, effect, base, s) && server in s.servers
    requires var phase := s.servers[server];
             phase.Applying? && AtMigration(phase) && !Recorded(s.log, phase.list[phase.i].version)
    ensures var phase := s.servers[server];
            var m := phase.list[phase.i];
            Inv(h, effect, base,
                Enter(s, server, Running(phase.list, phase.i + 1))
                  .(log := s.log + [m], schema := effect(m.sql, s.schema)))
  {
    hide Recorded, Progress, DistinctVersions, Applied;
    var phase := s.servers[server];
    var m := phase.list[phase.i];
    var log := s.log + [m];
    LogExtends(h, s.log, m);
    assert log[..|log| - 1] == s.log;
    forall other | other in s.servers ensures Progress(h, log, s.servers[other]) {
      ProgressStays(h, s.log, log, s.servers[other]);
    }
    AppliedProgress(h, log, phase);
  }

  lemma AppliedProgress(h: Hash, log: seq<Migration>, phase: Phase)
    requires phase.Applying? && AtMigration(phase) && Progress(h, log, phase)
    requires Applied(h, log, phase.list[phase.i])
    ensures Progress(h, log, Running(phase.list, phase.i + 1))
  {
    hide Applied;
  }

  lemma StepInv<S>(h: Hash, effect: Effect<S>, base: S, s: State<S>, a: Action)
    requires Inv(h, effect, base, s)
    ensures Inv(h, effect, base, Step(h, effect, s, a))
    ensures s.log <= Step(h, effect, s, a).log
  {
    hide Look, Recorded, Fold, DistinctVersions;
    var phase := PhaseOf(s, a.server);
    assert Progress(h, s.log, phase);
    match a {
      case Start(server, list) =>
        EnterInv(h, effect, base, s, server, Waiting(list));
      case Acquire(server) =>
      case Read(server) =>
        if phase.Running? && AtMigration(phase) {
          ReadProgress(h, s.log, phase);
          EnterInv(h, effect, base, s, server, Applying(phase.list, phase.i));
          EnterInv(h, effect, base, s, server, Failed(ChecksumChanged));
          if Look(h, s.log, phase.list[phase.i]) == Same {
            EnterInv(h, effect, base, s, server, Running(phase.list, phase.i + 1));
          }
        }
      case Commit(server) =>
        if phase.Applying? && AtMigration(phase) {
          if Recorded(s.log, phase.list[phase.i].version) {
            EnterInv(h, effect, base, s, server, Failed(Conflict));
          } else {
            CommitInv(h, effect, base, s, server);
          }
        }
      case SqlFails(server) =>
        EnterInv(h, effect, base, s, server, Failed(SqlError));
      case Finish(server) =>
        if phase.Running? && phase.i >= |phase.list| {
          EnterInv(h, effect, base, s, server, Succeeded(phase.list));
        }
      case Crash(server) =>
        EnterInv(h, effect, base, s, server, Idle);
      case Reconnect(server) =>
    }
  }

  lemma {:induction false} RunInv<S>(h: Hash, effect: Effect<S>, base: S, actions: seq<Action>)
    ensures Inv(h, effect, base, Run(h, effect, Empty(base), actions))
  {
    hide Inv, Step;
    if actions == [] {
      EmptyInv(h, effect, base);
    } else {
      var n := |actions| - 1;
      RunInv(h, effect, base, actions[..n]);
      StepInv(h, effect, base, Run(h, effect, Empty(base), actions[..n]), actions[n]);
    }
  }

  lemma EmptyInv<S>(h: Hash, effect: Effect<S>, base: S)
    ensures Inv(h, effect, base, Empty(base))
  {
  }

  /**
   Whatever lists the servers bring, and even if one goes on after losing the lock: no version is
   committed twice, the schema is the committed migrations one after the other, and a server that
   succeeded finds its whole list recorded with matching checksums.
   */
  lemma CommittedOnce<S>(h: Hash, effect: Effect<S>, base: S, actions: seq<Action>, server: int)
    ensures var s := Run(h, effect, Empty(base), actions);
            && DistinctVersions(s.log)
            && s.schema == Fold(effect, base, s.log)
            && (PhaseOf(s, server).Succeeded? ==>
                  forall k :: 0 <= k < |PhaseOf(s, server).list| ==> Applied(h, s.log, PhaseOf(s, server).list[k]))
  {
    hide Run, DistinctVersions, Fold, Applied;
    RunInv(h, effect, base, actions);
  }

  // ----- lists that only grow at the end -----

  /** Every server brings a prefix of one list that nobody edits. */
  predicate Brings(a: Action, master: seq<Migration>) {
    a.Start? ==> a.list <= master
  }

  predicate AllBring(actions: seq<Action>, master: seq<Migration>) {
    forall k :: 0 <= k < |actions| ==> Brings(actions[k], master)
  }

  predicate ListOk(phase: Phase, master: seq<Migration>, n: nat) {
    && (phase.Waiting? || phase.Running? || phase.Applying? || phase.Succeeded? ==> phase.list <= master)
    && (phase.Running? || phase.Applying? ==> phase.i <= |phase.list| && phase.i <= n)
    && (phase.Succeeded? ==> |phase.list| <= n)
    && (phase.Failed? ==> phase.why != ChecksumChanged)
  }

  ghost predicate PrefixInv<S>(master: seq<Migration>, s: State<S>) {
    && s.log <= master
    && forall server :: server in s.servers ==> ListOk(s.servers[server], master, |s.log|)
  }

  /** What a server finds at its position: the same migration, or none and it is the next one. */
  lemma NextOfPrefix(h: Hash, master: seq<Migration>, log: seq<Migration>, i: nat)
    requires DistinctVersions(master) && log <= master && i <= |log| && i < |master|
    requires forall k :: 0 <= k < |master| ==> h(master[k].sql) != ""
    ensures i < |log| ==> Recorded(log, master[i].version) && Look(h, log, master[i]) == Same
    ensures i == |log| ==> !Recorded(log, master[i].version) && Look(h, log, master[i]) == Missing
  {
    hide Look;
    LookMeans(h, log, master[i]);
    if i < |log| {
      assert log[i] == master[i];
    }
  }

  lemma ListOkLater(phase: Phase, master: seq<Migration>, n: nat)
    requires ListOk(phase, master, n)
    ensures ListOk(phase, master, n + 1)
  {
  }

  lemma EnterPrefix<S>(master: seq<Migration>, s: State<S>, server: int, phase: Phase)
    requires PrefixInv(master, s) && ListOk(phase, master, |s.log|)
    ensures PrefixInv(master, Enter(s, server, phase))
    ensures PrefixInv(master, Release(Enter(s, server, phase), server))
  {
    hide ListOk;
  }

  lemma CommitPrefix<S>(h: Hash, effect: Effect<S>, master: seq<Migration>, s: State<S>, server: int)
    requires DistinctVersions(master) && forall k :: 0 <= k < |master| ==> h(master[k].sql) != ""
    requires PrefixInv(master, s) && server in s.servers
    requires s.servers[server].Applying? && AtMigration(s.servers[server])
    ensures PrefixInv(master, Step(h, effect, s, Commit(server)))
  {
    hide Look, Recorded, ListOk, DistinctVersions;
    var phase := s.servers[server];
    PositionOk(master, s, server);
    NextOfPrefix(h, master, s.log, phase.i);
    if Recorded(s.log, phase.list[phase.i].version) {
      assert ListOk(Failed(Conflict), master, |s.log|) by {
        ConflictOk(master, |s.log|);
      }
      EnterPrefix(master, s, server, Failed(Conflict));
    } else {
      var m := phase.list[phase.i];
      assert s.log + [m] == master[..|s.log| + 1];
      forall other | other in s.servers ensures ListOk(s.servers[other], master, |s.log| + 1) {
        ListOkLater(s.servers[other], master, |s.log|);
      }
      NextOk(phase, master, |s.log| + 1);
    }
  }

  lemma ConflictOk(master: seq<Migration>, n: nat)
    ensures ListOk(Failed(Conflict), master, n) && ListOk(Failed(SqlError), master, n) && ListOk(Idle, master, n)
  {
  }

  lemma NextOk(phase: Phase, master: seq<Migration>, n: nat)
    requires phase.Applying? && AtMigration(phase) && ListOk(phase, master, n) && phase.i < n
    ensures ListOk(Running(phase.list, phase.i + 1), master, n)
  {
  }

  lemma PositionOk<S>(master: seq<Migration>, s: State<S>, server: int)
    requires PrefixInv(master, s) && server in s.servers && AtMigration(s.servers[server])
    ensures var phase := s.servers[server];
            phase.i <= |s.log| && phase.i < |master| && phase.list[phase.i] == master[phase.i] && phase.list <= master
  {
  }

  lemma ReadPrefix<S>(h: Hash, effect: Effect<S>, master: seq<Migration>, s: State<S>, server: int)
    requires DistinctVersions(master) && forall k :: 0 <= k < |master| ==> h(master[k].sql) != ""
    requires PrefixInv(master, s) && server in s.servers
    requires s.servers[server].Running? && AtMigration(s.servers[server])
    ensures PrefixInv(master, Step(h, effect, s, Read(server)))
  {
    hide Look, Recorded, DistinctVersions;
    var phase := s.servers[server];
    PositionOk(master, s, server);
    NextOfPrefix(h, master, s.log, phase.i);
    if phase.i < |s.log| {
      EnterPrefix(master, s, server, Running(phase.list, phase.i + 1));
    } else {
      EnterPrefix(master, s, server, Applying(phase.list, phase.i));
    }
  }

  lemma StepPrefix<S>(h: Hash, effect: Effect<S>, master: seq<Migration>, s: State<S>, a: Action)
    requires DistinctVersions(master) && forall k :: 0 <= k < |master| ==> h(master[k].sql) != ""
    requires PrefixInv(master, s) && Brings(a, master)
    ensures PrefixInv(master, Step(h, effect, s, a))
  {
    hide Look, Recorded, DistinctVersions;
    var phase := PhaseOf(s, a.server);
    match a {
      case Start(server, list) =>
        EnterPrefix(master, s, server, Waiting(list));
      case Acquire(server) =>
      case Read(server) =>
        if phase.Running? && AtMigration(phase) {
          ReadPrefix(h, effect, master, s, server);
        }
      case Commit(server) =>
        if phase.Applying? && AtMigration(phase) {
          CommitPrefix(h, effect, master, s, server);
        }
      case SqlFails(server) =>
        EnterPrefix(master, s, server, Failed(SqlError));
      case Finish(server) =>
        if phase.Running? && phase.i >= |phase.list| {
          EnterPrefix(master, s, server, Succeeded(phase.list));
        }
      case Crash(server) =>
        EnterPrefix(master, s, server, Idle);
      case Reconnect(server) =>
    }
  }

  lemma {:induction false} RunPrefix<S>(
    h: Hash, effect: Effect<S>, base: S, master: seq<Migration>, actions: seq<Action>)
    requires DistinctVersions(master) && forall k :: 0 <= k < |master| ==> h(master[k].sql) != ""
    requires AllBring(actions, master)
    ensures PrefixInv(master, Run(h, effect, Empty(base), actions))
  {
    hide PrefixInv, Step, DistinctVersions, Brings;
    if actions == [] {
      EmptyPrefix(base, master);
    } else {
      var n := |actions| - 1;
      RunPrefix(h, effect, base, master, actions[..n]);
      StepPrefix(h, effect, master, Run(h, effect, Empty(base), actions[..n]), actions[n]);
    }
  }

  lemma EmptyPrefix<S>(base: S, master: seq<Migration>)
    ensures PrefixInv(master, Empty(base))
  {
  }

  /**
   With lists that only grow at the end: over any run with crashes and restarts the recorded
   migrations are a prefix of the list, the schema is that prefix carried out, a server that
   succeeded finds its list within it, and none ever sees a changed checksum.
   */
  lemma CrashSafe<S>(
    h: Hash, effect: Effect<S>, base: S, master: seq<Migration>, actions: seq<Action>, server: int)
    requires DistinctVersions(master) && forall k :: 0 <= k < |master| ==> h(master[k].sql) != ""
    requires AllBring(actions, master)
    ensures var s := Run(h, effect, Empty(base), actions);
            && s.log <= master
            && s.schema == Fold(effect, base, master[..|s.log|])
            && (PhaseOf(s, server).Succeeded? ==> PhaseOf(s, server).list <= s.log)
            && PhaseOf(s, server) != Failed(ChecksumChanged)
  {
    hide Run, DistinctVersions, Fold, AllBring;
    RunInv(h, effect, base, actions);
    RunPrefix(h, effect, base, master, actions);
    var s := Run(h, effect, Empty(base), actions);
    assert master[..|s.log|] == s.log;
  }

  /** However far earlier servers came before they crashed, one that runs to its end completes its list. */
  lemma {:induction false} RestartCompletes(h: Hash, master: seq<Migration>, done: nat, i: nat, n: nat)
    requires DistinctVersions(master) && forall k :: 0 <= k < |master| ==> h(master[k].sql) != ""
    requires done <= |master| && i <= done && i <= n <= |master|
    ensures Loop(h, master[..done], master[i..n], {}) == (master[..if done >= n then done else n], None)
    decreases |master| - i
  {
    hide Look, Recorded, DistinctVersions;
    var list := master[i..n];
    if list != [] {
      assert list[1..] == master[i + 1..n];
      NextOfPrefix(h, master, master[..done], i);
      if i < done {
        RestartCompletes(h, master, done, i + 1, n);
      } else {
        assert master[..done] + [list[0]] == master[..done + 1];
        RestartCompletes(h, master, done + 1, i + 1, n);
      }
    }
  }

  // ----- a server that nobody interrupts -----

  /** The loop stops for a reason: everything before is done, and this one cannot be applied. */
  lemma {:induction false} LoopStops(h: Hash, log: seq<Migration>, list: seq<Migration>, broken: set<string>)
    returns (k: nat)
    requires Loop(h, log, list, broken).1.Some?
    ensures k < |list|
    ensures var (after, failure) := Loop(h, log, list, broken);
            && Loop(h, log, list[..k], broken) == (after, None)
            && match failure.value
               case ChecksumChanged =>
                 exists row :: row in after && row.version == list[k].version && h(row.sql) != h(list[k].sql)
               case SqlError => list[k].version in broken
               case Conflict => Recorded(after, list[k].version)
    decreases |list|
  {
    hide Look, Recorded;
    var m := list[0];
    k := 0;
    var rest := log;
    if Look(h, log, m) == Missing && m.version !in broken && !Recorded(log, m.version) {
      rest := log + [m];
    }
    if Look(h, log, m) == Same || rest != log {
      var l := LoopStops(h, rest, list[1..], broken);
      k := l + 1;
      assert list[..k][0] == m && list[..k][1..] == list[1..][..k - 1];
    } else {
      assert list[..0] == [];
      if Look(h, log, m) == Changed {
        ChangedMeans(h, log, m);
      }
    }
  }

  lemma ChangedMeans(h: Hash, log: seq<Migration>, m: Migration)
    requires Look(h, log, m) == Changed
    ensures exists row :: row in log && row.version == m.version && h(row.sql) != h(m.sql)
  {
  }

  predicate By(actions: seq<Action>, server: int) {
    forall k :: 0 <= k < |actions| ==> actions[k].server == server
  }

  lemma {:induction false} RunConcat<S>(h: Hash, effect: Effect<S>, s: State<S>, a: seq<Action>, b: seq<Action>)
    ensures Run(h, effect, s, a + b) == Run(h, effect, Run(h, effect, s, a), b)
    decreases |b|
  {
    hide Step;
    if b == [] {
      assert a + b == a;
    } else {
      var n := |b| - 1;
      assert (a + b)[..|a| + n] == a + b[..n];
      RunConcat(h, effect, s, a, b[..n]);
    }
  }

  lemma RunOne<S>(h: Hash, effect: Effect<S>, s: State<S>, a: Action)
    ensures Run(h, effect, s, [a]) == Step(h, effect, s, a)
  {
    hide Step;
    assert [a][..0] == [];
    assert Run(h, effect, s, [a][..0]) == s;
  }

  lemma RunTwo<S>(h: Hash, effect: Effect<S>, s: State<S>, a: Action, b: Action)
    ensures Run(h, effect, s, [a, b]) == Step(h, effect, Step(h, effect, s, a), b)
  {
    hide Step;
    assert [a, b] == [a] + [b];
    RunConcat(h, effect, s, [a], [b]);
    RunOne(h, effect, s, a);
    RunOne(h, effect, Step(h, effect, s, a), b);
  }

  /** The state a server leaves behind that worked alone on these migrations. */
  ghost predicate Worked<S>(
    h: Hash, effect: Effect<S>, s: State<S>, t: State<S>, server: int, list: seq<Migration>, rest: seq<Migration>,
    broken: set<string>)
  {
    var (log, failure) := Loop(h, s.log, rest, broken);
    && t.log == log && s.log <= t.log && t.schema == Fold(effect, s.schema, t.log[|s.log|..])
    && t.lock == None
    && t.servers == s.servers[server := if failure.None? then Succeeded(list) else Failed(failure.value)]
  }

  /** One more migration in front of what was worked on. */
  lemma WorkedMore<S>(
    h: Hash, effect: Effect<S>, s: State<S>, between: State<S>, t: State<S>, server: int, list: seq<Migration>,
    i: nat, broken: set<string>)
    requires i < |list| && Worked(h, effect, between, t, server, list, list[i + 1..], broken)
    requires Look(h, s.log, list[i]) == Same
             || (Look(h, s.log, list[i]) == Missing && list[i].version !in broken
                 && !Recorded(s.log, list[i].version))
    requires between == if Look(h, s.log, list[i]) == Same then Enter(s, server, Running(list, i + 1))
                        else Enter(s, server, Running(list, i + 1))
                             .(log := s.log + [list[i]], schema := effect(list[i].sql, s.schema))
    ensures Worked(h, effect, s, t, server, list, list[i..], broken)
  {
    hide Look, Recorded;
    assert list[i..][0] == list[i] && list[i..][1..] == list[i + 1..];
    var phase := t.servers[server];
    assert between.servers[server := phase] == s.servers[server := phase];
    if between.log != s.log {
      var more := t.log[|between.log|..];
      assert t.log[|s.log|..] == [list[i]] + more;
      FoldFirst(effect, s.schema, list[i], more);
    }
  }

  lemma {:induction false} FoldFirst<S>(effect: Effect<S>, base: S, m: Migration, more: seq<Migration>)
    ensures Fold(effect, base, [m] + more) == Fold(effect, effect(m.sql, base), more)
  {
    var all := [m] + more;
    if more == [] {
      assert all[..0] == [] && all[0] == m;
    } else {
      var n := |more| - 1;
      FoldFirst(effect, base, m, more[..n]);
      assert all[..|all| - 1] == [m] + more[..n] && all[|all| - 1] == more[n];
    }
  }

  lemma {:induction false} FoldConcat<S>(effect: Effect<S>, base: S, a: seq<Migration>, b: seq<Migration>)
    ensures Fold(effect, base, a + b) == Fold(effect, Fold(effect, base, a), b)
    decreases |b|
  {
    if b == [] {
      assert a + b == a;
    } else {
      var n := |b| - 1;
      assert (a + b)[..|a| + n] == a + b[..n] && (a + b)[|a| + n] == b[n];
      FoldConcat(effect, base, a, b[..n]);
    }
  }

  /** From its i-th migration on a server that holds the lock does what the loop does. */
  lemma {:induction false} WorksLikeLoop<S>(
    h: Hash, effect: Effect<S>, s: State<S>, server: int, list: seq<Migration>, i: nat, broken: set<string>)
    returns (actions: seq<Action>)
    requires server in s.servers && s.servers[server] == Running(list, i) && s.lock == Some(server) && i <= |list|
    ensures By(actions, server)
    ensures Worked(h, effect, s, Run(h, effect, s, actions), server, list, list[i..], broken)
    decreases |list| - i
  {
    hide Look, Recorded, Worked, Run;
    if i == |list| {
      actions := [Finish(server)];
      RunOne(h, effect, s, Finish(server));
      WorkedNothing(h, effect, s, server, list, broken);
    } else {
      var m := list[i];
      var found := Look(h, s.log, m);
      if found == Changed {
        actions := [Read(server)];
        RunOne(h, effect, s, Read(server));
        WorkedNot(h, effect, s, server, list, i, broken, ChecksumChanged);
      } else if found == Missing && m.version in broken {
        actions := [Read(server), SqlFails(server)];
        RunTwo(h, effect, s, Read(server), SqlFails(server));
        ReadThen(h, effect, s, server, list, i);
        WorkedNot(h, effect, s, server, list, i, broken, SqlError);
      } else if found == Missing && Recorded(s.log, m.version) {
        actions := [Read(server), Commit(server)];
        RunTwo(h, effect, s, Read(server), Commit(server));
        ReadThen(h, effect, s, server, list, i);
        WorkedNot(h, effect, s, server, list, i, broken, Conflict);
      } else {
        var first := if found == Same then [Read(server)] else [Read(server), Commit(server)];
        var between := Run(h, effect, s, first);
        RunOne(h, effect, s, Read(server));
        RunTwo(h, effect, s, Read(server), Commit(server));
        ReadThen(h, effect, s, server, list, i);
        var more := WorksLikeLoop(h, effect, between, server, list, i + 1, broken);
        actions := first + more;
        RunConcat(h, effect, s, first, more);
        WorkedMore(h, effect, s, between, Run(h, effect, between, more), server, list, i, broken);
      }
    }
  }

  /** What the two steps after finding nothing recorded lead to. */
  lemma ReadThen<S>(
    h: Hash, effect: Effect<S>, s: State<S>, server: int, list: seq<Migration>, i: nat)
    requires server in s.servers && s.servers[server] == Running(list, i) && s.lock == Some(server) && i < |list|
    ensures var m := list[i];
            var read := Step(h, effect, s, Read(server));
            && (Look(h, s.log, m) == Same ==> read == Enter(s, server, Running(list, i + 1)))
            && (Look(h, s.log, m) == Missing ==>
                  && Step(h, effect, read, SqlFails(server))
                     == Enter(s, server, Failed(SqlError)).(lock := None)
                  && Step(h, effect, read, Commit(server)) ==
                     if Recorded(s.log, m.version) then Enter(s, server, Failed(Conflict)).(lock := None)
                     else Enter(s, server, Running(list, i + 1))
                          .(log := s.log + [m], schema := effect(m.sql, s.schema)))
  {
    hide Look, Recorded;
    var applying := Applying(list, i);
    assert s.servers[server := applying][server := Failed(SqlError)] == s.servers[server := Failed(SqlError)];
    assert s.servers[server := applying][server := Failed(Conflict)] == s.servers[server := Failed(Conflict)];
    assert s.servers[server := applying][server := Running(list, i + 1)] == s.servers[server := Running(list, i + 1)];
  }

  lemma WorkedNothing<S>(
    h: Hash, effect: Effect<S>, s: State<S>, server: int, list: seq<Migration>, broken: set<string>)
    ensures Worked(h, effect, s, Enter(s, server, Succeeded(list)).(lock := None), server, list, list[|list|..], broken)
  {
    assert s.log[|s.log|..] == [];
  }

  lemma WorkedNot<S>(
    h: Hash, effect: Effect<S>, s: State<S>, server: int, list: seq<Migration>, i: nat, broken: set<string>,
    why: Failure)
    requires i < |list| && Loop(h, s.log, list[i..], broken) == (s.log, Some(why))
    ensures Worked(h, effect, s, Enter(s, server, Failed(why)).(lock := None), server, list, list[i..], broken)
  {
    assert s.log[|s.log|..] == [];
  }

  /**
   A server that nobody interrupts, from any state in which the lock is free: it ends as the loop on
   its own does, with the same record and outcome, and gives the lock back.
   */
  lemma UninterruptedIsLoop<S>(
    h: Hash, effect: Effect<S>, s: State<S>, server: int, list: seq<Migration>, broken: set<string>)
    returns (actions: seq<Action>)
    requires s.lock == None && (PhaseOf(s, server).Idle? || PhaseOf(s, server).Succeeded? || PhaseOf(s, server).Failed?)
    ensures By(actions, server)
    ensures Worked(h, effect, s, Run(h, effect, s, [Start(server, list), Acquire(server)] + actions), server, list,
                   list, broken)
  {
    hide Run, Worked, Loop;
    var begun := Enter(s, server, Running(list, 0)).(lock := Some(server));
    RunTwo(h, effect, s, Start(server, list), Acquire(server));
    assert s.servers[server := Waiting(list)][server := Running(list, 0)] == begun.servers;
    actions := WorksLikeLoop(h, effect, begun, server, list, 0, broken);
    RunConcat(h, effect, s, [Start(server, list), Acquire(server)], actions);
    assert list[0..] == list;
    WorkedSince(h, effect, s, begun, Run(h, effect, begun, actions), server, list, broken);
  }

  lemma WorkedSince<S>(
    h: Hash, effect: Effect<S>, s: State<S>, begun: State<S>, t: State<S>, server: int, list: seq<Migration>,
    broken: set<string>)
    requires begun == Enter(s, server, Running(list, 0)).(lock := Some(server))
    requires Worked(h, effect, begun, t, server, list, list, broken)
    ensures Worked(h, effect, s, t, server, list, list, broken)
  {
    hide Loop;
    var phase := t.servers[server];
    assert begun.servers[server := phase] == s.servers[server := phase];
  }

  /**
   After any run with crashes and restarts, once the lock is free a server that nobody interrupts
   succeeds: its list is recorded, nothing is lost, and the schema is the record carried out.
   */
  lemma AloneItSucceeds<S>(
    h: Hash, effect: Effect<S>, base: S, master: seq<Migration>, before: seq<Action>, server: int,
    list: seq<Migration>)
    returns (actions: seq<Action>)
    requires DistinctVersions(master) && forall k :: 0 <= k < |master| ==> h(master[k].sql) != ""
    requires AllBring(before, master) && list <= master
    requires var s := Run(h, effect, Empty(base), before);
             s.lock == None && (PhaseOf(s, server).Idle? || PhaseOf(s, server).Succeeded? || PhaseOf(s, server).Failed?)
    ensures By(actions, server)
    ensures var s := Run(h, effect, Empty(base), before);
            var t := Run(h, effect, s, [Start(server, list), Acquire(server)] + actions);
            && PhaseOf(t, server) == Succeeded(list) && t.lock == None
            && t.log == (if |list| <= |s.log| then s.log else list) && list <= t.log && s.log <= t.log
            && t.schema == Fold(effect, base, t.log)
  {
    hide Run, Worked, Loop, Fold, DistinctVersions, AllBring;
    var s := Run(h, effect, Empty(base), before);
    CrashSafe(h, effect, base, master, before, server);
    actions := UninterruptedIsLoop(h, effect, s, server, list, {});
    var t := Run(h, effect, s, [Start(server, list), Acquire(server)] + actions);
    var done, n := |s.log|, |list|;
    RestartCompletes(h, master, done, 0, n);
    assert master[..done] == s.log && master[0..n] == list;
    WorkedMeans(h, effect, s, t, server, list, {});
    FoldConcat(effect, base, s.log, t.log[done..]);
    assert s.log + t.log[done..] == t.log;
    assert master[..n] == list;
  }

  lemma WorkedMeans<S>(
    h: Hash, effect: Effect<S>, s: State<S>, t: State<S>, server: int, list: seq<Migration>, broken: set<string>)
    requires Worked(h, effect, s, t, server, list, list, broken)
    ensures var (log, failure) := Loop(h, s.log, list, broken);
            && t.log == log && s.log <= t.log && t.schema == Fold(effect, s.schema, t.log[|s.log|..])
            && t.lock == None
            && PhaseOf(t, server) == if failure.None? then Succeeded(list) else Failed(failure.value)
  {
    hide Loop;
  }

  // ----- what the lock is for -----

  /** Only the holder of the lock works, and what it is about to apply is not recorded. */
  ghost predicate LockInv<S>(s: State<S>) {
    forall server :: server in s.servers ==>
      && (s.servers[server].Running? || s.servers[server].Applying? ==> s.lock == Some(server))
      && (s.servers[server].Applying? && AtMigration(s.servers[server]) ==>
            !Recorded(s.log, s.servers[server].list[s.servers[server].i].version))
      && s.servers[server] != Failed(Conflict)
  }

  lemma NotRecorded(h: Hash, log: seq<Migration>, m: Migration)
    requires (forall sql :: h(sql) != "") && Look(h, log, m) == Missing
    ensures !Recorded(log, m.version)
  {
  }

  lemma StepLock<S>(h: Hash, effect: Effect<S>, s: State<S>, a: Action)
    requires (forall sql :: h(sql) != "") && LockInv(s) && !a.Reconnect?
    ensures LockInv(Step(h, effect, s, a))
  {
    hide Look, Recorded;
    var phase := PhaseOf(s, a.server);
    if a.Read? && phase.Running? && AtMigration(phase) && Look(h, s.log, phase.list[phase.i]) == Missing {
      NotRecorded(h, s.log, phase.list[phase.i]);
    }
  }

  lemma {:induction false} RunLock<S>(h: Hash, effect: Effect<S>, base: S, actions: seq<Action>)
    requires forall sql :: h(sql) != ""
    requires forall k :: 0 <= k < |actions| ==> !actions[k].Reconnect?
    ensures LockInv(Run(h, effect, Empty(base), actions))
  {
    hide LockInv, Step;
    if actions == [] {
      EmptyLock(base);
    } else {
      var n := |actions| - 1;
      RunLock(h, effect, base, actions[..n]);
      StepLock(h, effect, Run(h, effect, Empty(base), actions[..n]), actions[n]);
    }
  }

  lemma EmptyLock<S>(base: S)
    ensures LockInv(Empty(base))
  {
  }

  /** As long as connections keep their lock, two servers never work at once and none runs into a conflict. */
  lemma LockPreventsConflicts<S>(h: Hash, effect: Effect<S>, base: S, actions: seq<Action>, a: int, b: int)
    requires forall sql :: h(sql) != ""
    requires forall k :: 0 <= k < |actions| ==> !actions[k].Reconnect?
    ensures var s := Run(h, effect, Empty(base), actions);
            && PhaseOf(s, a) != Failed(Conflict)
            && (PhaseOf(s, a).Running? || PhaseOf(s, a).Applying? ==>
                PhaseOf(s, b).Running? || PhaseOf(s, b).Applying? ==> a == b)
  {
    hide Run;
    RunLock(h, effect, base, actions);
  }
}
