/**
 The credit ledger of src/db.ts: balances and ledger rows, changed in transactions under a
 per-user advisory lock; the arithmetic is in src/lib/creditRollover.ts.
 */
module CreditLedger {
  import opened Wrappers

  const MAX_SAFE_INTEGER := 0x1F_FFFF_FFFF_FFFF
  /** The largest value of an INTEGER column. */
  const MAX_COLUMN := 0x7FFF_FFFF
  const DAY := 24 * 60 * 60 * 1000

  type UserId = int

  // ----- arithmetic and tables -----

  predicate Safe(n: int) {
    -MAX_SAFE_INTEGER <= n <= MAX_SAFE_INTEGER
  }

  /** The new balance, unless an argument or the sum is negative or not a safe integer. */
  function BalanceAfterMonthlyGrant(balance: int, grant: int): (r: Option<int>)
    ensures r.Some? <==> 0 <= balance && 0 <= grant && balance + grant <= MAX_SAFE_INTEGER
    ensures r.Some? ==> r.value - grant == balance
  {
    if !Safe(balance) || balance < 0 || !Safe(grant) || grant < 0 || !Safe(balance + grant) then None
    else Some(balance + grant)
  }

  /** Credits a tier refills; None where the refill is unlimited. An unknown tier counts as free. */
  function TierCreditRefill(tier: string): Option<nat> {
    if tier == "starter" then Some(100)
    else if tier == "builder" then Some(400)
    else if tier == "studio" then Some(1500)
    else if tier == "enterprise" || tier == "custom" then None
    else Some(0)
  }

  // ----- rows -----

  datatype Account = Account(balance: int, tier: string, unlimited: bool, lastRefillAt: int)

  datatype Kind = SubscriptionGrant | GodCodeGrant | BuildUsage | Other(name: string)

  datatype Entry = Entry(userId: UserId, amount: int, kind: Kind, ref: Option<string>, createdAt: int)

  datatype Db = Db(accounts: map<UserId, Account>, ledger: seq<Entry>)

  function Total(ledger: seq<Entry>, user: UserId): int {
    if ledger == [] then 0
    else
      var last := ledger[|ledger| - 1];
      Total(ledger[..|ledger| - 1], user) + if last.userId == user then last.amount else 0
  }

  predicate HasRef(ledger: seq<Entry>, ref: string) {
    exists i :: 0 <= i < |ledger| && ledger[i].ref == Some(ref)
  }

  /** When the user's latest subscription grant was recorded. */
  function LatestGrant(ledger: seq<Entry>, user: UserId): (r: Option<int>)
    ensures r.None? ==> forall i :: 0 <= i < |ledger| && IsGrantOf(ledger[i], user) ==> false
    ensures r.Some? ==> forall i :: 0 <= i < |ledger| && IsGrantOf(ledger[i], user) ==> ledger[i].createdAt <= r.value
  {
    if ledger == [] then None
    else
      var n := |ledger| - 1;
      var before := LatestGrant(ledger[..n], user);
      if !IsGrantOf(ledger[n], user) then before
      else if before.Some? && before.value > ledger[n].createdAt then before
      else Some(ledger[n].createdAt)
  }

  predicate IsGrantOf(e: Entry, user: UserId) {
    e.userId == user && e.kind == SubscriptionGrant
  }

  // ----- operations -----

  /** A subscription row as it is read under the lock; times that do not parse are absent. */
  datatype Subscription = Subscription(
    tier: string, status: string, currentPeriodEnd: Option<int>, trialEnd: Option<int>)

  datatype Operation =
    | ApplyGodCodeGrant(userId: UserId, lifetime: bool, owner: bool, credits: int)
    | RefillMonthlyCredits(userId: UserId, wanted: Option<string>, subscription: Option<Subscription>)
    | DeductCredits(userId: UserId, amount: int)
    | AddCredits(userId: UserId, amount: int, kind: Kind, ref: Option<string>)
    | GrantPlanCredits(userId: UserId, tier: string, key: Option<string>, calledAt: int)

  /** What a transaction writes: changed columns of the account row and perhaps a ledger row. */
  datatype Write = Write(
    balance: Option<int>, tier: Option<string>, unlimited: Option<bool>, lastRefillAt: Option<int>,
    entry: Option<Entry>)

  datatype Plan = Throw | Skip | Change(write: Write)

  /** The reference the transaction looks up first; an empty string counts as none. */
  function CheckedRef(op: Operation): Option<string> {
    match op
    case AddCredits(_, _, _, ref) => if ref == Some("") then None else ref
    case GrantPlanCredits(_, _, key, _) => if key == Some("") then None else key
    case _ => None
  }

  /** Argument checks made before any transaction starts. */
  predicate Accepted(op: Operation) {
    match op
    case ApplyGodCodeGrant(userId, _, _, credits) => 0 < userId && Safe(userId) && 0 <= credits && Safe(credits)
    case DeductCredits(_, amount) => amount > 0
    case AddCredits(_, amount, _, _) => amount > 0
    case _ => true
  }

  predicate Paying(s: Subscription, now: int) {
    && (s.status == "active" || s.status == "trialing")
    && s.currentPeriodEnd.Some? && s.currentPeriodEnd.value > now
    && (s.status == "trialing" ==> s.trialEnd.Some? && s.trialEnd.value > now)
  }

  /** What the operation does given the account row it reads; a row is created when its transaction starts. */
  function Evaluate(op: Operation, account: Account, latest: Option<int>, startedAt: int, now: int): Plan {
    match op
    case ApplyGodCodeGrant(userId, lifetime, owner, credits) =>
      if lifetime then
        if !owner then Throw
        else if account.unlimited && account.tier == "lifetime" then Skip
        else Change(Write(None, Some("lifetime"), Some(true), None,
                          Some(Entry(userId, 0, GodCodeGrant, None, startedAt))))
      else
        var balance := BalanceAfterMonthlyGrant(account.balance, credits);
        if balance.None? then Throw
        else if credits == 0 then Skip
        else Change(Write(balance, None, None, None, Some(Entry(userId, credits, GodCodeGrant, None, startedAt))))
    case RefillMonthlyCredits(userId, wanted, subscription) =>
      var tier := if subscription.Some? then subscription.value.tier else "free";
      if wanted.Some? && wanted.value != "" && wanted.value != tier then Skip
      else if subscription.None? || !Paying(subscription.value, now) then Skip
      else
        var refill := TierCreditRefill(tier);
        if refill.None? || refill.value == 0 then Skip
        else if now - account.lastRefillAt < 30 * DAY then Skip
        else
          var balance := BalanceAfterMonthlyGrant(account.balance, refill.value);
          if balance.None? then Throw
          else Change(Write(balance, Some(tier), None, Some(now),
                            Some(Entry(userId, refill.value, SubscriptionGrant, None, startedAt))))
    case DeductCredits(userId, amount) =>
      if account.unlimited || account.tier == "lifetime" then
        Change(Write(None, None, None, None, Some(Entry(userId, 0, BuildUsage, None, startedAt))))
      else if account.balance < amount then Throw
      else Change(Write(Some(account.balance - amount), None, None, None,
                        Some(Entry(userId, -amount, BuildUsage, None, startedAt))))
    case AddCredits(userId, amount, kind, ref) =>
      var balance := BalanceAfterMonthlyGrant(account.balance, amount);
      if balance.None? then Throw
      else Change(Write(balance, None, None, None, Some(Entry(userId, amount, kind, ref, startedAt))))
    case GrantPlanCredits(userId, tier, key, calledAt) =>
      var refill := TierCreditRefill(tier);
      if refill.Some? && latest.Some? && account.tier == tier && tier != "free" && calledAt - latest.value < 25 * DAY
      then Skip
      else if refill.None? then Change(Write(None, Some(tier), None, Some(calledAt), None))
      else
        var balance := BalanceAfterMonthlyGrant(account.balance, refill.value);
        if balance.None? then Throw
        else Change(Write(balance, Some(tier), None, Some(calledAt),
                          Some(Entry(userId, refill.value, SubscriptionGrant, key, startedAt))))
  }

  function Rewritten(account: Account, w: Write): Account {
    Account(Or(w.balance, account.balance), Or(w.tier, account.tier), Or(w.unlimited, account.unlimited),
            Or(w.lastRefillAt, account.lastRefillAt))
  }

  /** Column types, the CHECK on balances and the unique index on references. */
  predicate Admissible(db: Db, user: UserId, w: Write) {
    && user in db.accounts
    && (w.balance.Some? ==> 0 <= w.balance.value <= MAX_COLUMN)
    && (w.entry.Some? ==>
          && -MAX_COLUMN - 1 <= w.entry.value.amount <= MAX_COLUMN
          && (w.entry.value.ref.Some? ==> !HasRef(db.ledger, w.entry.value.ref.value)))
  }

  /** The database after the writes of one transaction are committed together. */
  function Committed(db: Db, user: UserId, w: Write): Db
    requires user in db.accounts
  {
    Db(db.accounts[user := Rewritten(db.accounts[user], w)],
       if w.entry.Some? then db.ledger + [w.entry.value] else db.ledger)
  }

  /** One operation run to its end with nobody in between. */
  function Execute(db: Db, op: Operation, startedAt: int, now: int): Db {
    var user := op.userId;
    if !Accepted(op) || (CheckedRef(op).Some? && HasRef(db.ledger, CheckedRef(op).value)) || user !in db.accounts
    then db
    else
      var plan := Evaluate(op, db.accounts[user], LatestGrant(db.ledger, user), startedAt, now);
      if plan.Change? && Admissible(db, user, plan.write) then Committed(db, user, plan.write) else db
  }

  /** `ensureUserCredits`, outside any lock: a new account is empty; an owner becomes unlimited. */
  function Ensured(db: Db, user: UserId, owner: bool, now: int): Db {
    if user !in db.accounts then db.(accounts := db.accounts[user := Account(0, "free", owner, now)])
    else if owner then db.(accounts := db.accounts[user := db.accounts[user].(unlimited := true)])
    else db
  }

  /** `syncTierFromSubscription` writes the cached tier, outside any lock. */
  function TierSynced(db: Db, user: UserId, tier: string): Db {
    if user !in db.accounts then db
    else db.(accounts := db.accounts[user := db.accounts[user].(tier := tier)])
  }

  // ----- concurrent transactions -----

  datatype Phase = Waiting | Locked | Checked | Ready(write: Write) | Ended

  datatype Tx = Tx(op: Operation, startedAt: int, phase: Phase)

  datatype State = State(db: Db, now: int, txs: map<int, Tx>)

  datatype Action =
    | Tick(elapsed: nat)
    | Ensure(userId: UserId, owner: bool)
    | SyncTier(userId: UserId, tier: string)
    | Begin(tx: int, op: Operation)
    | Lock(tx: int)
    | CheckRef(tx: int)
    | Read(tx: int)
    | Commit(tx: int)
    | Abort(tx: int)

  predicate Holds(t: Tx) {
    t.phase.Locked? || t.phase.Checked? || t.phase.Ready?
  }

  /** Nobody holds the user's advisory lock. */
  predicate LockFree(s: State, user: UserId) {
    forall id :: id in s.txs && Holds(s.txs[id]) ==> s.txs[id].op.userId != user
  }

  function Enter(s: State, tx: int, phase: Phase): State
    requires tx in s.txs
  {
    s.(txs := s.txs[tx := s.txs[tx].(phase := phase)])
  }

  predicate InPhase(s: State, tx: int, phase: Phase) {
    tx in s.txs && s.txs[tx].phase == phase
  }

  /** The calls that wrote a time before their transaction started did so in the past. */
  predicate Startable(op: Operation, now: int) {
    Accepted(op) && (op.GrantPlanCredits? ==> op.calledAt <= now)
  }

  function ReadStep(s: State, tx: int): State
    requires tx in s.txs
  {
    var t := s.txs[tx];
    var user := t.op.userId;
    if user !in s.db.accounts then Enter(s, tx, Ended)
    else
      var plan := Evaluate(t.op, s.db.accounts[user], LatestGrant(s.db.ledger, user), t.startedAt, s.now);
      Enter(s, tx, if plan.Change? then Ready(plan.write) else Ended)
  }

  function CommitStep(s: State, tx: int): State
    requires tx in s.txs && s.txs[tx].phase.Ready?
  {
    var user, w := s.txs[tx].op.userId, s.txs[tx].phase.write;
    if Admissible(s.db, user, w) then Enter(s, tx, Ended).(db := Committed(s.db, user, w)) else Enter(s, tx, Ended)
  }

  /** One step; a step that is not possible changes nothing. */
  function Step(s: State, a: Action): State {
    match a
    case Tick(elapsed) => s.(now := s.now + elapsed)
    case Ensure(user, owner) => s.(db := Ensured(s.db, user, owner, s.now))
    case SyncTier(user, tier) => s.(db := TierSynced(s.db, user, tier))
    case Begin(tx, op) =>
      if tx !in s.txs && Startable(op, s.now) then s.(txs := s.txs[tx := Tx(op, s.now, Waiting)]) else s
    case Lock(tx) => if InPhase(s, tx, Waiting) && LockFree(s, s.txs[tx].op.userId) then Enter(s, tx, Locked) else s
    case CheckRef(tx) =>
      if !InPhase(s, tx, Locked) then s
      else
        var ref := CheckedRef(s.txs[tx].op);
        Enter(s, tx, if ref.Some? && HasRef(s.db.ledger, ref.value) then Ended else Checked)
    case Read(tx) => if InPhase(s, tx, Checked) then ReadStep(s, tx) else s
    case Commit(tx) => if tx in s.txs && s.txs[tx].phase.Ready? then CommitStep(s, tx) else s
    case Abort(tx) => if tx in s.txs then Enter(s, tx, Ended) else s
  }

  function Run(s: State, actions: seq<Action>): State {
    if actions == [] then s else Step(Run(s, actions[..|actions| - 1]), actions[|actions| - 1])
  }

  function Fresh(now: int): State {
    State(Db(map[], []), now, map[])
  }

  // ----- conservation and uniqueness of references -----

  ghost predicate Conserved(db: Db) {
    && (forall user :: user in db.accounts ==>
          db.accounts[user].balance == Total(db.ledger, user) && 0 <= db.accounts[user].balance <= MAX_COLUMN)
    && (forall i :: 0 <= i < |db.ledger| ==> db.ledger[i].userId in db.accounts)
  }

  ghost predicate RefsUnique(ledger: seq<Entry>) {
    forall i, j :: 0 <= i < j < |ledger| && ledger[i].ref.Some? ==> ledger[i].ref != ledger[j].ref
  }

  /** The amount a write records in the ledger. */
  function Recorded(w: Write): int {
    if w.entry.Some? then w.entry.value.amount else 0
  }

  /** A write computed from the account as it still is. */
  predicate Current(db: Db, user: UserId, w: Write) {
    && user in db.accounts
    && (w.entry.Some? ==> w.entry.value.userId == user)
    && Or(w.balance, db.accounts[user].balance) == db.accounts[user].balance + Recorded(w)
  }

  ghost predicate WritesCurrent(s: State) {
    forall id :: id in s.txs && s.txs[id].phase.Ready? ==> Current(s.db, s.txs[id].op.userId, s.txs[id].phase.write)
  }

  predicate Exclusive(s: State) {
    forall id, other :: id in s.txs && other in s.txs && id != other && Holds(s.txs[id]) && Holds(s.txs[other]) ==>
      s.txs[id].op.userId != s.txs[other].op.userId
  }

  ghost predicate Inv(s: State) {
    Conserved(s.db) && RefsUnique(s.db.ledger) && WritesCurrent(s) && Exclusive(s)
  }

  /** What an operation decides changes the balance by exactly the amount it records. */
  lemma EvaluateBalances(op: Operation, account: Account, latest: Option<int>, startedAt: int, now: int)
    ensures var plan := Evaluate(op, account, latest, startedAt, now);
            plan.Change? ==>
              && Or(plan.write.balance, account.balance) == account.balance + Recorded(plan.write)
              && (plan.write.entry.Some? ==>
                    plan.write.entry.value.userId == op.userId && plan.write.entry.value.createdAt == startedAt)
  {
    hide BalanceAfterMonthlyGrant, TierCreditRefill, Paying;
  }

  lemma TotalAppend(ledger: seq<Entry>, e: Entry, user: UserId)
    ensures Total(ledger + [e], user) == Total(ledger, user) + if e.userId == user then e.amount else 0
  {
    assert (ledger + [e])[..|ledger|] == ledger;
  }

  lemma {:induction false} TotalOfNobody(ledger: seq<Entry>, user: UserId)
    requires forall i :: 0 <= i < |ledger| ==> ledger[i].userId != user
    ensures Total(ledger, user) == 0
  {
    if ledger != [] {
      TotalOfNobody(ledger[..|ledger| - 1], user);
    }
  }

  lemma CommittedConserves(db: Db, user: UserId, w: Write)
    requires Conserved(db) && RefsUnique(db.ledger) && Current(db, user, w) && Admissible(db, user, w)
    ensures Conserved(Committed(db, user, w)) && RefsUnique(Committed(db, user, w).ledger)
  {
    var next := Committed(db, user, w);
    if w.entry.Some? {
      forall other | other in next.accounts ensures next.accounts[other].balance == Total(next.ledger, other) {
        TotalAppend(db.ledger, w.entry.value, other);
      }
    }
  }

  lemma EnsuredConserves(db: Db, user: UserId, owner: bool, now: int)
    requires Conserved(db)
    ensures Conserved(Ensured(db, user, owner, now)) && Ensured(db, user, owner, now).ledger == db.ledger
  {
    if user !in db.accounts {
      TotalOfNobody(db.ledger, user);
    }
  }

  /** Serial execution keeps every balance equal to the sum of the user's ledger rows. */
  lemma ExecuteConserves(db: Db, op: Operation, startedAt: int, now: int)
    requires Conserved(db) && RefsUnique(db.ledger)
    ensures Conserved(Execute(db, op, startedAt, now)) && RefsUnique(Execute(db, op, startedAt, now).ledger)
  {
    hide Conserved, RefsUnique, Evaluate, Admissible, Committed, LatestGrant;
    var user := op.userId;
    if user in db.accounts {
      var plan := Evaluate(op, db.accounts[user], LatestGrant(db.ledger, user), startedAt, now);
      EvaluateBalances(op, db.accounts[user], LatestGrant(db.ledger, user), startedAt, now);
      if plan.Change? && Admissible(db, user, plan.write) {
        CommittedConserves(db, user, plan.write);
      }
    }
  }

  lemma OutsideInv(s: State, db: Db)
    requires Inv(s) && Conserved(db) && db.ledger == s.db.ledger
    requires forall user :: user in s.db.accounts ==>
               user in db.accounts && db.accounts[user].balance == s.db.accounts[user].balance
    ensures Inv(s.(db := db))
  {
    hide Conserved, RefsUnique;
  }

  lemma EnterInv(s: State, tx: int, phase: Phase)
    requires Inv(s) && tx in s.txs
    requires phase.Ready? ==> Current(s.db, s.txs[tx].op.userId, phase.write)
    requires Holds(s.txs[tx].(phase := phase)) ==> Holds(s.txs[tx]) || LockFree(s, s.txs[tx].op.userId)
    ensures Inv(Enter(s, tx, phase))
  {
    hide Conserved, RefsUnique, Current;
  }

  lemma BeginInv(s: State, tx: int, op: Operation)
    requires Inv(s) && tx !in s.txs
    ensures Inv(s.(txs := s.txs[tx := Tx(op, s.now, Waiting)]))
  {
    hide Conserved, RefsUnique, Current;
  }

  lemma ReadInv(s: State, tx: int)
    requires Inv(s) && InPhase(s, tx, Checked)
    ensures Inv(ReadStep(s, tx))
  {
    hide Inv, Evaluate, LatestGrant;
    var t := s.txs[tx];
    var user := t.op.userId;
    if user in s.db.accounts {
      EvaluateBalances(t.op, s.db.accounts[user], LatestGrant(s.db.ledger, user), t.startedAt, s.now);
      var plan := Evaluate(t.op, s.db.accounts[user], LatestGrant(s.db.ledger, user), t.startedAt, s.now);
      EnterInv(s, tx, if plan.Change? then Ready(plan.write) else Ended);
    } else {
      EnterInv(s, tx, Ended);
    }
  }

  lemma CommitInv(s: State, tx: int)
    requires Inv(s) && tx in s.txs && s.txs[tx].phase.Ready?
    ensures Inv(CommitStep(s, tx))
  {
    hide Conserved, RefsUnique, Admissible;
    var user, w := s.txs[tx].op.userId, s.txs[tx].phase.write;
    EnterInv(s, tx, Ended);
    if Admissible(s.db, user, w) {
      CommittedConserves(s.db, user, w);
      var next := CommitStep(s, tx);
      forall id | id in next.txs && next.txs[id].phase.Ready?
        ensures Current(next.db, next.txs[id].op.userId, next.txs[id].phase.write)
      {
        assert id != tx && Holds(s.txs[id]) && Holds(s.txs[tx]);
      }
    }
  }

  lemma SyncInv(s: State, user: UserId, tier: string)
    requires Inv(s)
    ensures Inv(s.(db := TierSynced(s.db, user, tier)))
  {
    hide WritesCurrent, RefsUnique, Exclusive, Inv;
    InvMeans(s);
    var db := TierSynced(s.db, user, tier);
    assert Conserved(db);
    OutsideInv(s, db);
  }

  lemma InvMeans(s: State)
    ensures Inv(s) <==> Conserved(s.db) && RefsUnique(s.db.ledger) && WritesCurrent(s) && Exclusive(s)
  {
    hide Conserved, RefsUnique, WritesCurrent, Exclusive;
  }

  lemma StepInv(s: State, a: Action)
    requires Inv(s)
    ensures Inv(Step(s, a))
  {
    hide Inv, ReadStep, CommitStep, Ensured, TierSynced, LockFree, Conserved;
    InvMeans(s);
    match a {
      case Tick(elapsed) =>
        InvMeans(s.(now := s.now + elapsed));
        TickKeeps(s, elapsed);
      case Ensure(user, owner) =>
        EnsuredConserves(s.db, user, owner, s.now);
        EnsuredBalances(s.db, user, owner, s.now);
        OutsideInv(s, Ensured(s.db, user, owner, s.now));
      case SyncTier(user, tier) =>
        SyncInv(s, user, tier);
      case Begin(tx, op) =>
        if tx !in s.txs {
          BeginInv(s, tx, op);
        }
      case Lock(tx) =>
        if InPhase(s, tx, Waiting) && LockFree(s, s.txs[tx].op.userId) {
          EnterInv(s, tx, Locked);
        }
      case CheckRef(tx) =>
        if InPhase(s, tx, Locked) {
          EnterInv(s, tx, Ended);
          EnterInv(s, tx, Checked);
        }
      case Read(tx) =>
        if InPhase(s, tx, Checked) {
          ReadInv(s, tx);
        }
      case Commit(tx) =>
        if tx in s.txs && s.txs[tx].phase.Ready? {
          CommitInv(s, tx);
        }
      case Abort(tx) =>
        if tx in s.txs {
          EnterInv(s, tx, Ended);
        }
    }
  }

  lemma TickKeeps(s: State, elapsed: nat)
    ensures WritesCurrent(s.(now := s.now + elapsed)) == WritesCurrent(s)
    ensures Exclusive(s.(now := s.now + elapsed)) == Exclusive(s)
  {
    hide Current;
  }

  lemma EnsuredBalances(db: Db, user: UserId, owner: bool, now: int)
    ensures var next := Ensured(db, user, owner, now);
            forall u :: u in db.accounts ==>
              u in next.accounts && next.accounts[u].balance == db.accounts[u].balance
  {
  }

  lemma {:induction false} RunInv(now: int, actions: seq<Action>)
    ensures Inv(Run(Fresh(now), actions))
  {
    hide Inv, Step;
    if actions == [] {
      FreshInv(now);
    } else {
      RunInv(now, actions[..|actions| - 1]);
      StepInv(Run(Fresh(now), actions[..|actions| - 1]), actions[|actions| - 1]);
    }
  }

  lemma FreshInv(now: int)
    ensures Inv(Fresh(now))
  {
  }

  /**
   In every state of every interleaving, aborts and unlimited accounts included, a user's balance
   is the sum of the user's ledger amounts and is not negative.
   */
  lemma CreditConservation(now: int, actions: seq<Action>, user: UserId)
    requires user in Run(Fresh(now), actions).db.accounts
    ensures var db := Run(Fresh(now), actions).db;
            db.accounts[user].balance == Total(db.ledger, user) >= 0
  {
    hide Run;
    RunInv(now, actions);
  }

  /** The increase all rows of one reference bring to all users together. */
  function RefTotal(ledger: seq<Entry>, ref: string): int {
    if ledger == [] then 0
    else
      var last := ledger[|ledger| - 1];
      RefTotal(ledger[..|ledger| - 1], ref) + if last.ref == Some(ref) then last.amount else 0
  }

  lemma {:induction false} RefTotalOfOne(ledger: seq<Entry>, ref: string, i: nat)
    requires i < |ledger| && ledger[i].ref == Some(ref)
    requires forall j :: 0 <= j < |ledger| && j != i ==> ledger[j].ref != Some(ref)
    ensures RefTotal(ledger, ref) == ledger[i].amount
  {
    var n := |ledger| - 1;
    if i < n {
      RefTotalOfOne(ledger[..n], ref, i);
    } else {
      RefTotalOfNone(ledger[..n], ref);
    }
  }

  lemma {:induction false} RefTotalOfNone(ledger: seq<Entry>, ref: string)
    requires forall j :: 0 <= j < |ledger| ==> ledger[j].ref != Some(ref)
    ensures RefTotal(ledger, ref) == 0
  {
    if ledger != [] {
      RefTotalOfNone(ledger[..|ledger| - 1], ref);
    }
  }

  /** However often and for whomever a Stripe reference is used, it credits one amount to one user. */
  lemma AtMostOnceCrediting(now: int, actions: seq<Action>, ref: string, i: nat)
    requires var ledger := Run(Fresh(now), actions).db.ledger; i < |ledger| && ledger[i].ref == Some(ref)
    ensures var ledger := Run(Fresh(now), actions).db.ledger;
            && (forall j :: 0 <= j < |ledger| && ledger[j].ref == Some(ref) ==> j == i)
            && RefTotal(ledger, ref) == ledger[i].amount
  {
    hide Run, RefTotal;
    RunInv(now, actions);
    RefTotalOfOne(Run(Fresh(now), actions).db.ledger, ref, i);
  }

  /** A transaction that runs without interruption does exactly what the serial operation does. */
  lemma UninterruptedIsSerial(s: State, tx: int, op: Operation)
    requires tx !in s.txs && Startable(op, s.now) && LockFree(s, op.userId)
    ensures Run(s, [Begin(tx, op), Lock(tx), CheckRef(tx), Read(tx), Commit(tx)]).db == Execute(s.db, op, s.now, s.now)
  {
    hide *;
    var a := [Begin(tx, op), Lock(tx), CheckRef(tx), Read(tx), Commit(tx)];
    assert a[..4][..3] == a[..3] && a[..3][..2] == a[..2] && a[..2][..1] == a[..1] && a[..1][..0] == [];
    RunOne(s, a[..1]);
    RunOne(s, a[..2]);
    RunOne(s, a[..3]);
    RunOne(s, a[..4]);
    RunOne(s, a);
    BeginAndLock(s, tx, op);
    var s3 := Step(Step(Step(s, a[0]), a[1]), a[2]);
    ReadAndCommit(s3, tx);
  }

  lemma RunOne(s: State, actions: seq<Action>)
    ensures Run(s, []) == s
    ensures actions != [] ==> Run(s, actions) == Step(Run(s, actions[..|actions| - 1]), actions[|actions| - 1])
  {
    hide Step;
  }

  lemma BeginAndLock(s: State, tx: int, op: Operation)
    requires tx !in s.txs && Startable(op, s.now) && LockFree(s, op.userId)
    ensures var s3 := Step(Step(Step(s, Begin(tx, op)), Lock(tx)), CheckRef(tx));
            var ref := CheckedRef(op);
            && s3.db == s.db && s3.now == s.now && tx in s3.txs
            && s3.txs[tx] == Tx(op, s.now, if ref.Some? && HasRef(s.db.ledger, ref.value) then Ended else Checked)
            && Accepted(op)
  {
    hide HasRef, CheckedRef, Accepted;
    var s1 := Step(s, Begin(tx, op));
    assert LockFree(s1, op.userId);
    var s2 := Step(s1, Lock(tx));
    assert InPhase(s2, tx, Locked) && s2.db == s.db;
  }

  lemma ReadAndCommit(s: State, tx: int)
    requires tx in s.txs && (s.txs[tx].phase == Ended || s.txs[tx].phase == Checked)
    requires var t := s.txs[tx];
             && Accepted(t.op) && t.startedAt == s.now
             && (t.phase == Ended <==> CheckedRef(t.op).Some? && HasRef(s.db.ledger, CheckedRef(t.op).value))
    ensures var t := s.txs[tx];
            Step(Step(s, Read(tx)), Commit(tx)).db == Execute(s.db, t.op, s.now, s.now)
  {
    hide Evaluate, Admissible, Committed, LatestGrant, HasRef, CheckedRef, Accepted;
  }

  // ----- how much each request moves -----

  /** What a request moves, by its arguments alone; usage of an account that pays nothing is free. */
  function Amount(op: Operation, free: bool): int {
    match op
    case ApplyGodCodeGrant(_, lifetime, _, credits) => if lifetime then 0 else credits
    case RefillMonthlyCredits(_, _, subscription) =>
      if subscription.None? then 0 else Or(TierCreditRefill(subscription.value.tier), 0)
    case DeductCredits(_, amount) => if free then 0 else -amount
    case AddCredits(_, amount, _, _) => amount
    case GrantPlanCredits(_, tier, _, _) => Or(TierCreditRefill(tier), 0)
  }

  /** An account whose usage is only logged. */
  predicate PaysNothing(account: Account) {
    account.unlimited || account.tier == "lifetime"
  }

  /** The step reads an account that pays nothing. */
  predicate FreeRead(s: State, a: Action) {
    && a.Read? && InPhase(s, a.tx, Checked) && s.txs[a.tx].op.userId in s.db.accounts
    && PaysNothing(s.db.accounts[s.txs[a.tx].op.userId])
  }

  /** The transactions that read so during a run. */
  function FreeReads(s: State, actions: seq<Action>): set<int> {
    if actions == [] then {}
    else
      var n := |actions| - 1;
      FreeReads(s, actions[..n]) + if FreeRead(Run(s, actions[..n]), actions[n]) then {actions[n].tx} else {}
  }

  /** The step commits the writes of a transaction of the user. */
  predicate Commits(s: State, a: Action, user: UserId) {
    && a.Commit? && a.tx in s.txs && s.txs[a.tx].phase.Ready? && s.txs[a.tx].op.userId == user
    && Admissible(s.db, user, s.txs[a.tx].phase.write)
  }

  /** What the user's committed requests of a run move together. */
  function Requested(s: State, actions: seq<Action>, user: UserId): int {
    if actions == [] then 0
    else
      var n := |actions| - 1;
      var before := Run(s, actions[..n]);
      Requested(s, actions[..n], user) +
      if Commits(before, actions[n], user)
      then Amount(before.txs[actions[n].tx].op, actions[n].tx in FreeReads(s, actions[..n])) else 0
  }

  /** Every pending write records what its request asks for. */
  ghost predicate PendingAmounts(s: State, free: set<int>) {
    && (forall id :: id in free ==> id in s.txs && ReadAlready(s.txs[id]))
    && (forall id :: id in s.txs && s.txs[id].phase.Ready? ==>
          Recorded(s.txs[id].phase.write) == Amount(s.txs[id].op, id in free))
  }

  lemma EvaluateAmount(op: Operation, account: Account, latest: Option<int>, startedAt: int, now: int)
    ensures var plan := Evaluate(op, account, latest, startedAt, now);
            plan.Change? ==> Recorded(plan.write) == Amount(op, PaysNothing(account))
  {
    hide BalanceAfterMonthlyGrant, Paying;
  }

  /** A transaction becomes ready only by reading, with what the operation decides then. */
  lemma ReadyByReading(s: State, a: Action, id: int)
    requires id in Step(s, a).txs && Step(s, a).txs[id].phase.Ready?
    requires !(id in s.txs && s.txs[id].phase.Ready?)
    ensures a == Read(id) && InPhase(s, id, Checked) && Step(s, a).txs[id].op == s.txs[id].op
    ensures s.txs[id].op.userId in s.db.accounts
    ensures var t, account := s.txs[id], s.db.accounts[s.txs[id].op.userId];
            Evaluate(t.op, account, LatestGrant(s.db.ledger, t.op.userId), t.startedAt, s.now)
            == Change(Step(s, a).txs[id].phase.write)
  {
    hide Evaluate, LatestGrant, Admissible, LockFree, Startable, Ensured, TierSynced, CheckedRef, HasRef, Committed;
  }

  lemma StepPendingAmounts(s: State, a: Action, free: set<int>)
    requires PendingAmounts(s, free)
    ensures PendingAmounts(Step(s, a), free + if FreeRead(s, a) then {a.tx} else {})
  {
    hide Step, Evaluate, LatestGrant, Amount, PaysNothing;
    var next := Step(s, a);
    forall id | id in free ensures id in next.txs && ReadAlready(next.txs[id]) {
      ReadOnce(s, a, id);
    }
    if FreeRead(s, a) {
      ReadIsOver(s, a.tx);
    }
    forall id | id in next.txs && next.txs[id].phase.Ready?
      ensures Recorded(next.txs[id].phase.write) ==
              Amount(next.txs[id].op, id in free || (FreeRead(s, a) && id == a.tx))
    {
      if id in s.txs && s.txs[id].phase.Ready? {
        ReadOnce(s, a, id);
      } else {
        ReadyByReading(s, a, id);
        var t := s.txs[id];
        EvaluateAmount(t.op, s.db.accounts[t.op.userId], LatestGrant(s.db.ledger, t.op.userId), t.startedAt, s.now);
      }
    }
  }

  lemma ReadIsOver(s: State, tx: int)
    requires InPhase(s, tx, Checked)
    ensures tx in Step(s, Read(tx)).txs && ReadAlready(Step(s, Read(tx)).txs[tx])
  {
    hide Evaluate, LatestGrant;
  }

  /** The ledger grows by a row only when a transaction commits. */
  lemma StepTotal(s: State, a: Action, user: UserId)
    requires WritesCurrent(s)
    ensures Total(Step(s, a).db.ledger, user) == Total(s.db.ledger, user) +
            if Commits(s, a, user) then Recorded(s.txs[a.tx].phase.write) else 0
  {
    hide Evaluate, LatestGrant, Admissible, LockFree, Startable, CheckedRef, HasRef, Rewritten;
    if a.Commit? && a.tx in s.txs && s.txs[a.tx].phase.Ready? && s.txs[a.tx].phase.write.entry.Some? {
      TotalAppend(s.db.ledger, s.txs[a.tx].phase.write.entry.value, user);
    }
  }

  lemma {:induction false} RunRequested(now: int, actions: seq<Action>, user: UserId)
    ensures PendingAmounts(Run(Fresh(now), actions), FreeReads(Fresh(now), actions))
    ensures Total(Run(Fresh(now), actions).db.ledger, user) == Requested(Fresh(now), actions, user)
  {
    hide Step, PendingAmounts, FreeRead, Amount, Admissible;
    if actions == [] {
      NothingPending(now);
    } else {
      var n := |actions| - 1;
      RunRequested(now, actions[..n], user);
      var before, free := Run(Fresh(now), actions[..n]), FreeReads(Fresh(now), actions[..n]);
      RunInv(now, actions[..n]);
      StepPendingAmounts(before, actions[n], free);
      StepTotal(before, actions[n], user);
      if Commits(before, actions[n], user) {
        PendingAmount(before, free, actions[n].tx);
      }
    }
  }

  lemma NothingPending(now: int)
    ensures PendingAmounts(Fresh(now), {})
  {
  }

  lemma PendingAmount(s: State, free: set<int>, id: int)
    requires PendingAmounts(s, free) && id in s.txs && s.txs[id].phase.Ready?
    ensures Recorded(s.txs[id].phase.write) == Amount(s.txs[id].op, id in free)
  {
    hide Amount;
  }

  /**
   In every state of every interleaving a user's balance is what the user's committed requests ask for,
   added up: deductions take their whole amount, except from accounts that paid nothing when read.
   */
  lemma BalanceIsRequested(now: int, actions: seq<Action>, user: UserId)
    requires user in Run(Fresh(now), actions).db.accounts
    ensures Run(Fresh(now), actions).db.accounts[user].balance == Requested(Fresh(now), actions, user)
  {
    hide Run, Requested;
    CreditConservation(now, actions, user);
    RunRequested(now, actions, user);
  }

  // ----- how often a subscription grant can be recorded -----

  /** The clock reading an operation is judged by was taken no later than this after its call. */
  function CalledAt(t: Tx): int {
    if t.op.GrantPlanCredits? then t.op.calledAt else t.startedAt
  }

  /** Subscription grants come from the two grant functions only, and reading is not long delayed. */
  predicate Prompt(s: State, a: Action, delay: nat) {
    && (a.Begin? && a.op.AddCredits? ==> a.op.kind != SubscriptionGrant)
    && (a.Read? && InPhase(s, a.tx, Checked) ==> s.now - CalledAt(s.txs[a.tx]) <= delay)
  }

  predicate PromptRun(s: State, actions: seq<Action>, delay: nat) {
    actions == [] ||
    (PromptRun(s, actions[..|actions| - 1], delay) &&
     Prompt(Run(s, actions[..|actions| - 1]), actions[|actions| - 1], delay))
  }

  predicate TierIs(s: State, user: UserId, tier: string) {
    user in s.db.accounts && s.db.accounts[user].tier == tier
  }

  /** The cached tier of the user is the same in every state of the run. */
  predicate TierStays(s: State, actions: seq<Action>, user: UserId, tier: string) {
    TierIs(Run(s, actions), user, tier) &&
    (actions == [] || TierStays(s, actions[..|actions| - 1], user, tier))
  }

  /** All grants of the user lie before the given time. */
  predicate GrantsBy(ledger: seq<Entry>, user: UserId, time: int) {
    forall i :: 0 <= i < |ledger| && IsGrantOf(ledger[i], user) ==> ledger[i].createdAt <= time
  }

  predicate EntriesPast(ledger: seq<Entry>, now: int) {
    forall i :: 0 <= i < |ledger| ==> ledger[i].createdAt <= now
  }

  /** What holds of one transaction and the clock. */
  predicate TxTimely(db: Db, now: int, t: Tx, delay: nat) {
    && t.startedAt <= now && CalledAt(t) <= t.startedAt
    && (t.op.AddCredits? ==> t.op.kind != SubscriptionGrant)
    && (t.phase.Ready? ==>
          var w := t.phase.write;
          && (w.entry.Some? ==> w.entry.value.createdAt == t.startedAt && w.entry.value.userId == t.op.userId)
          && (w.entry.Some? && w.entry.value.kind == SubscriptionGrant ==> w.lastRefillAt.Some? && w.tier.Some?)
          && (w.lastRefillAt.Some? ==>
                t.startedAt <= w.lastRefillAt.value + delay &&
                GrantsBy(db.ledger, t.op.userId, w.lastRefillAt.value + delay)))
  }

  ghost predicate Timely(s: State, delay: nat) {
    && EntriesPast(s.db.ledger, s.now)
    && (forall user :: user in s.db.accounts ==>
          GrantsBy(s.db.ledger, user, s.db.accounts[user].lastRefillAt + delay))
    && (forall i :: 0 <= i < |s.db.ledger| ==> s.db.ledger[i].userId in s.db.accounts)
    && (forall id :: id in s.txs ==> TxTimely(s.db, s.now, s.txs[id], delay))
  }

  lemma EntriesByNow(ledger: seq<Entry>, user: UserId, now: int, time: int)
    requires EntriesPast(ledger, now) && now <= time
    ensures GrantsBy(ledger, user, time)
  {
  }

  lemma EvaluateTimely(s: State, t: Tx, account: Account, latest: Option<int>, delay: nat)
    requires EntriesPast(s.db.ledger, s.now) && TxTimely(s.db, s.now, t, delay) && s.now - CalledAt(t) <= delay
    ensures var plan := Evaluate(t.op, account, latest, t.startedAt, s.now);
            TxTimely(s.db, s.now, t.(phase := if plan.Change? then Ready(plan.write) else Ended), delay)
  {
    hide BalanceAfterMonthlyGrant, TierCreditRefill, Paying, GrantsBy;
    EntriesByNow(s.db.ledger, t.op.userId, s.now, s.now + delay);
    EntriesByNow(s.db.ledger, t.op.userId, s.now, CalledAt(t) + delay);
  }

  lemma EnterTimely(s: State, tx: int, phase: Phase, delay: nat)
    requires Timely(s, delay) && tx in s.txs
    requires TxTimely(s.db, s.now, s.txs[tx].(phase := phase), delay)
    ensures Timely(Enter(s, tx, phase), delay)
  {
    hide TxTimely, GrantsBy, EntriesPast;
  }

  lemma EndTimely(s: State, tx: int, phase: Phase, delay: nat)
    requires Timely(s, delay) && tx in s.txs && !phase.Ready?
    ensures Timely(Enter(s, tx, phase), delay)
  {
    hide GrantsBy, EntriesPast;
    EnterTimely(s, tx, phase, delay);
  }

  lemma CommitTimely(s: State, tx: int, delay: nat)
    requires Inv(s) && Timely(s, delay) && tx in s.txs && s.txs[tx].phase.Ready?
    ensures Timely(CommitStep(s, tx), delay)
  {
    hide Conserved, RefsUnique, WritesCurrent, Admissible, GrantsBy, EntriesPast;
    var t := s.txs[tx];
    var user, w := t.op.userId, t.phase.write;
    EndTimely(s, tx, Ended, delay);
    if Admissible(s.db, user, w) {
      assert Admissible(s.db, user, w) ==> user in s.db.accounts by {
        AdmissibleUser(s.db, user, w);
      }
      CommittedTimely(s, tx, delay);
    }
  }

  lemma AdmissibleUser(db: Db, user: UserId, w: Write)
    requires Admissible(db, user, w)
    ensures user in db.accounts
  {
  }

  lemma CommittedTimely(s: State, tx: int, delay: nat)
    requires Exclusive(s) && Timely(s, delay) && tx in s.txs && s.txs[tx].phase.Ready?
    requires s.txs[tx].op.userId in s.db.accounts
    ensures Timely(Enter(s, tx, Ended).(db := Committed(s.db, s.txs[tx].op.userId, s.txs[tx].phase.write)), delay)
  {
    var t := s.txs[tx];
    var user, w := t.op.userId, t.phase.write;
    var next := Enter(s, tx, Ended).(db := Committed(s.db, user, w));
    forall other | other in next.db.accounts
      ensures GrantsBy(next.db.ledger, other, next.db.accounts[other].lastRefillAt + delay)
    {
      assert GrantsBy(s.db.ledger, other, s.db.accounts[other].lastRefillAt + delay);
      if other == user && w.entry.Some? {
        assert w.lastRefillAt.Some? || !IsGrantOf(w.entry.value, user);
      }
    }
    forall id | id in next.txs ensures TxTimely(next.db, next.now, next.txs[id], delay) {
      assert TxTimely(s.db, s.now, s.txs[id], delay);
      if id != tx && s.txs[id].phase.Ready? {
        assert Holds(s.txs[id]) && Holds(s.txs[tx]);
      }
    }
  }

  lemma OutsideTimely(s: State, db: Db, delay: nat)
    requires Timely(s, delay) && db.ledger == s.db.ledger
    requires forall user :: user in s.db.accounts ==>
               user in db.accounts && db.accounts[user].lastRefillAt == s.db.accounts[user].lastRefillAt
    requires forall user :: user in db.accounts && user !in s.db.accounts ==> db.accounts[user].lastRefillAt == s.now
    ensures Timely(s.(db := db), delay)
  {
    hide EntriesPast;
    forall user | user in db.accounts ensures GrantsBy(db.ledger, user, db.accounts[user].lastRefillAt + delay) {
      if user in s.db.accounts {
        assert GrantsBy(s.db.ledger, user, s.db.accounts[user].lastRefillAt + delay);
      }
    }
    forall id | id in s.txs ensures TxTimely(db, s.now, s.txs[id], delay) {
      assert TxTimely(s.db, s.now, s.txs[id], delay);
    }
  }

  lemma TickTimely(s: State, elapsed: nat, delay: nat)
    requires Timely(s, delay)
    ensures Timely(s.(now := s.now + elapsed), delay)
  {
    hide GrantsBy;
    forall id | id in s.txs ensures TxTimely(s.db, s.now + elapsed, s.txs[id], delay) {
      assert TxTimely(s.db, s.now, s.txs[id], delay);
    }
  }

  lemma BeginTimely(s: State, tx: int, op: Operation, delay: nat)
    requires Timely(s, delay) && tx !in s.txs && Startable(op, s.now)
    requires op.AddCredits? ==> op.kind != SubscriptionGrant
    ensures Timely(s.(txs := s.txs[tx := Tx(op, s.now, Waiting)]), delay)
  {
    hide GrantsBy, EntriesPast, Accepted;
    assert TxTimely(s.db, s.now, Tx(op, s.now, Waiting), delay);
    var next := s.(txs := s.txs[tx := Tx(op, s.now, Waiting)]);
    forall id | id in next.txs ensures TxTimely(next.db, next.now, next.txs[id], delay) {
      assert id != tx ==> TxTimely(s.db, s.now, s.txs[id], delay);
    }
  }

  lemma ReadTimely(s: State, tx: int, delay: nat)
    requires Timely(s, delay) && InPhase(s, tx, Checked) && s.now - CalledAt(s.txs[tx]) <= delay
    ensures Timely(ReadStep(s, tx), delay)
  {
    hide Evaluate, LatestGrant, GrantsBy, EntriesPast;
    var t := s.txs[tx];
    var user := t.op.userId;
    if user in s.db.accounts {
      var latest := LatestGrant(s.db.ledger, user);
      EvaluateTimely(s, t, s.db.accounts[user], latest, delay);
      var plan := Evaluate(t.op, s.db.accounts[user], latest, t.startedAt, s.now);
      EnterTimely(s, tx, if plan.Change? then Ready(plan.write) else Ended, delay);
    } else {
      EndTimely(s, tx, Ended, delay);
    }
  }

  lemma StepTimely(s: State, a: Action, delay: nat)
    requires Inv(s) && Timely(s, delay) && Prompt(s, a, delay)
    ensures Timely(Step(s, a), delay)
  {
    hide Inv, Timely, ReadStep, CommitStep, LockFree, Startable, CalledAt;
    match a {
      case Tick(elapsed) =>
        TickTimely(s, elapsed, delay);
      case Ensure(user, owner) =>
        OutsideTimely(s, Ensured(s.db, user, owner, s.now), delay);
      case SyncTier(user, tier) =>
        OutsideTimely(s, TierSynced(s.db, user, tier), delay);
      case Begin(tx, op) =>
        if tx !in s.txs && Startable(op, s.now) {
          BeginTimely(s, tx, op, delay);
        }
      case Lock(tx) =>
        if InPhase(s, tx, Waiting) {
          EndTimely(s, tx, Locked, delay);
        }
      case CheckRef(tx) =>
        if InPhase(s, tx, Locked) {
          EndTimely(s, tx, Ended, delay);
          EndTimely(s, tx, Checked, delay);
        }
      case Read(tx) =>
        if InPhase(s, tx, Checked) {
          ReadTimely(s, tx, delay);
        }
      case Commit(tx) =>
        if tx in s.txs && s.txs[tx].phase.Ready? {
          CommitTimely(s, tx, delay);
        }
      case Abort(tx) =>
        if tx in s.txs {
          EndTimely(s, tx, Ended, delay);
        }
    }
  }

  lemma {:induction false} RunTimely(s: State, actions: seq<Action>, delay: nat)
    requires Inv(s) && Timely(s, delay) && PromptRun(s, actions, delay)
    ensures Inv(Run(s, actions)) && Timely(Run(s, actions), delay)
  {
    hide Inv, Timely, Step, Prompt;
    if actions != [] {
      var n := |actions| - 1;
      RunTimely(s, actions[..n], delay);
      StepInv(Run(s, actions[..n]), actions[n]);
      StepTimely(Run(s, actions[..n]), actions[n], delay);
    }
  }

  lemma FreshTimely(now: int, delay: nat)
    ensures Timely(Fresh(now), delay)
  {
  }

  /** A grant row that comes 25 days or more after every grant of the user from the given row on. */
  predicate SpacedFrom(ledger: seq<Entry>, low: nat, user: UserId, e: Entry) {
    forall i :: low <= i < |ledger| && IsGrantOf(ledger[i], user) ==> ledger[i].createdAt + 25 * DAY <= e.createdAt
  }

  /**
   Grants from the second index on, but for the given rows, are spaced from all grants before them that
   come from the first index on.
   */
  ghost predicate Spaced(ledger: seq<Entry>, low: nat, from: nat, user: UserId, exempt: set<nat>) {
    forall i, j ::
      low <= i < j < |ledger| && from <= j && j !in exempt && IsGrantOf(ledger[i], user) && IsGrantOf(ledger[j], user)
      ==> ledger[i].createdAt + 25 * DAY <= ledger[j].createdAt
  }

  /** Grants to the user that are about to be written are spaced, but for those of the given transactions. */
  ghost predicate PendingSpaced(s: State, low: nat, user: UserId, exempt: set<int>) {
    forall id :: id in s.txs && s.txs[id].phase.Ready? && s.txs[id].op.userId == user && id !in exempt ==>
      WriteSpaced(s.db.ledger, low, user, s.txs[id].phase.write)
  }

  predicate WriteSpaced(ledger: seq<Entry>, low: nat, user: UserId, w: Write) {
    w.entry.Some? && IsGrantOf(w.entry.value, user) ==> SpacedFrom(ledger, low, user, w.entry.value)
  }

  /** A plan grant for another tier than the account's, or for the free one, soon after the latest grant. */
  predicate Switching(t: Tx, account: Account, latest: Option<int>) {
    && t.op.GrantPlanCredits? && (t.op.tier != account.tier || t.op.tier == "free")
    && latest.Some? && t.startedAt < latest.value + 25 * DAY
  }

  /** The step reads the account for such a grant to the user. */
  predicate SwitchRead(s: State, a: Action, user: UserId) {
    && a.Read? && InPhase(s, a.tx, Checked) && s.txs[a.tx].op.userId == user && user in s.db.accounts
    && Switching(s.txs[a.tx], s.db.accounts[user], LatestGrant(s.db.ledger, user))
  }

  /** The transactions that read so during a run. */
  function Switched(s: State, actions: seq<Action>, user: UserId): set<int> {
    if actions == [] then {}
    else
      var n := |actions| - 1;
      Switched(s, actions[..n], user)
      + if SwitchRead(Run(s, actions[..n]), actions[n], user) then {actions[n].tx} else {}
  }

  /** The step adds a row to the ledger for one of the given transactions. */
  predicate Records(s: State, a: Action, switched: set<int>) {
    a.Commit? && a.tx in switched && |Step(s, a).db.ledger| > |s.db.ledger|
  }

  /** The ledger rows that these transactions added during the run. */
  function SwitchRows(s: State, actions: seq<Action>, user: UserId): set<nat> {
    if actions == [] then {}
    else
      var n := |actions| - 1;
      var before := Run(s, actions[..n]);
      SwitchRows(s, actions[..n], user)
      + if Records(before, actions[n], Switched(s, actions[..n], user)) then {|before.db.ledger|} else {}
  }

  lemma EvaluateSpaced(s: State, t: Tx, low: nat, user: UserId, delay: nat)
    requires Timely(s, delay) && TxTimely(s.db, s.now, t, delay) && s.now - CalledAt(t) <= delay
    requires 2 * delay <= 5 * DAY && user in s.db.accounts && t.op.userId == user
    requires !Switching(t, s.db.accounts[user], LatestGrant(s.db.ledger, user))
    ensures var plan := Evaluate(t.op, s.db.accounts[user], LatestGrant(s.db.ledger, user), t.startedAt, s.now);
            plan.Change? ==> WriteSpaced(s.db.ledger, low, user, plan.write)
  {
    hide TierCreditRefill, BalanceAfterMonthlyGrant, Paying, LatestGrant;
    assert GrantsBy(s.db.ledger, user, s.db.accounts[user].lastRefillAt + delay);
  }

  lemma StepPendingSpaced(s: State, a: Action, low: nat, user: UserId, exempt: set<int>, delay: nat)
    requires Inv(s) && Timely(s, delay) && Prompt(s, a, delay) && 2 * delay <= 5 * DAY
    requires PendingSpaced(s, low, user, exempt)
    ensures PendingSpaced(Step(s, a), low, user, exempt + if SwitchRead(s, a, user) then {a.tx} else {})
  {
    hide WriteSpaced, Evaluate, LatestGrant, Admissible, LockFree, Startable, Ensured, TierSynced, CheckedRef, HasRef,
      Conserved, RefsUnique, WritesCurrent, Switching, EntriesPast, GrantsBy, IsGrantOf;
    match a {
      case Read(tx) =>
        if InPhase(s, tx, Checked) && s.txs[tx].op.userId == user && user in s.db.accounts &&
           !SwitchRead(s, a, user) {
          EvaluateSpaced(s, s.txs[tx], low, user, delay);
        }
      case Commit(tx) =>
        if tx in s.txs && s.txs[tx].phase.Ready? {
          CommitPendingSpaced(s, tx, low, user, exempt);
        }
      case Ensure(u, owner) =>
        EnsuredLedger(s.db, u, owner, s.now);
      case SyncTier(u, t) =>
        SyncedLedger(s.db, u, t);
      case _ =>
    }
  }

  lemma EnsuredLedger(db: Db, user: UserId, owner: bool, now: int)
    ensures Ensured(db, user, owner, now).ledger == db.ledger
  {
  }

  lemma SyncedLedger(db: Db, user: UserId, tier: string)
    ensures TierSynced(db, user, tier).ledger == db.ledger
  {
  }

  lemma CommitPendingSpaced(s: State, tx: int, low: nat, user: UserId, exempt: set<int>)
    requires Inv(s) && PendingSpaced(s, low, user, exempt) && tx in s.txs && s.txs[tx].phase.Ready?
    ensures PendingSpaced(CommitStep(s, tx), low, user, exempt)
  {
    hide Conserved, RefsUnique, Admissible;
    var next := CommitStep(s, tx);
    forall id | id in next.txs && next.txs[id].phase.Ready? && next.txs[id].op.userId == user && id !in exempt
      ensures WriteSpaced(next.db.ledger, low, user, next.txs[id].phase.write)
    {
      assert id != tx && Holds(s.txs[id]) && Holds(s.txs[tx]);
      assert WriteSpaced(s.db.ledger, low, user, s.txs[id].phase.write);
    }
  }

  lemma StepSpaced(
    s: State, a: Action, low: nat, from: nat, user: UserId, exempt: set<int>, rows: set<nat>, delay: nat)
    requires Timely(s, delay) && PendingSpaced(s, low, user, exempt) && Spaced(s.db.ledger, low, from, user, rows)
    ensures Spaced(Step(s, a).db.ledger, low, from, user,
                   rows + if Records(s, a, exempt) then {|s.db.ledger|} else {})
    ensures s.db.ledger <= Step(s, a).db.ledger
  {
    hide Evaluate, LatestGrant, Admissible, LockFree, Startable, CheckedRef, HasRef;
    if a.Commit? && a.tx in s.txs && s.txs[a.tx].phase.Ready? {
      var t := s.txs[a.tx];
      if t.op.userId == user && a.tx !in exempt {
        assert WriteSpaced(s.db.ledger, low, user, t.phase.write);
      }
      assert TxTimely(s.db, s.now, t, delay);
    }
  }

  /** From a state on, all grants are spaced but those of a plan grant that read another tier. */
  lemma {:induction false} WindowSpaced(s: State, actions: seq<Action>, low: nat, user: UserId, delay: nat)
    requires Inv(s) && Timely(s, delay) && PendingSpaced(s, low, user, {}) && PromptRun(s, actions, delay)
    requires 2 * delay <= 5 * DAY
    ensures PendingSpaced(Run(s, actions), low, user, Switched(s, actions, user))
    ensures s.db.ledger <= Run(s, actions).db.ledger
    ensures Spaced(Run(s, actions).db.ledger, low, |s.db.ledger|, user, SwitchRows(s, actions, user))
  {
    hide Inv, Timely, Step, Prompt, PendingSpaced, Spaced, SwitchRead, Records;
    if actions == [] {
      NothingNew(s.db.ledger, low, user);
    } else {
      var n := |actions| - 1;
      WindowSpaced(s, actions[..n], low, user, delay);
      RunTimely(s, actions[..n], delay);
      var before, switched := Run(s, actions[..n]), Switched(s, actions[..n], user);
      StepPendingSpaced(before, actions[n], low, user, switched, delay);
      StepSpaced(before, actions[n], low, |s.db.ledger|, user, switched, SwitchRows(s, actions[..n], user), delay);
    }
  }

  lemma NothingNew(ledger: seq<Entry>, low: nat, user: UserId)
    ensures Spaced(ledger, low, |ledger|, user, {})
  {
  }

  // ----- grants that follow a change of tier -----

  /** An earlier grant of the user lies less than 25 days before the row. */
  predicate IsClose(ledger: seq<Entry>, user: UserId, j: nat)
    requires j < |ledger|
  {
    exists i :: 0 <= i < j && IsGrantOf(ledger[i], user) && ledger[j].createdAt < ledger[i].createdAt + 25 * DAY
  }

  /** The write records a grant less than 25 days after one of the user, if it records anything. */
  predicate WriteClose(ledger: seq<Entry>, user: UserId, w: Write) {
    w.entry.Some? ==>
      && IsGrantOf(w.entry.value, user)
      && exists i :: 0 <= i < |ledger| && IsGrantOf(ledger[i], user) &&
                     w.entry.value.createdAt < ledger[i].createdAt + 25 * DAY
  }

  predicate ReadAlready(t: Tx) {
    t.phase.Ready? || t.phase.Ended?
  }

  /** The given transactions have read, and what they are about to write is too close. */
  ghost predicate PendingClose(s: State, user: UserId, switched: set<int>) {
    forall id :: id in switched ==>
      id in s.txs && ReadAlready(s.txs[id]) &&
      (s.txs[id].phase.Ready? ==> WriteClose(s.db.ledger, user, s.txs[id].phase.write))
  }

  ghost predicate RowsClose(ledger: seq<Entry>, user: UserId, rows: set<nat>) {
    forall j :: j in rows ==> j < |ledger| && IsGrantOf(ledger[j], user) && IsClose(ledger, user, j)
  }

  lemma {:induction false} LatestIsThere(ledger: seq<Entry>, user: UserId) returns (i: nat)
    requires LatestGrant(ledger, user).Some?
    ensures i < |ledger| && IsGrantOf(ledger[i], user) && ledger[i].createdAt == LatestGrant(ledger, user).value
  {
    hide IsGrantOf;
    var n := |ledger| - 1;
    i := n;
    if LatestGrant(ledger[..n], user).Some? {
      var j := LatestIsThere(ledger[..n], user);
      if !IsGrantOf(ledger[n], user) || ledger[j].createdAt > ledger[n].createdAt {
        i := j;
      }
    }
  }

  lemma EvaluateClose(s: State, t: Tx, user: UserId)
    requires user in s.db.accounts && t.op.userId == user
    requires Switching(t, s.db.accounts[user], LatestGrant(s.db.ledger, user))
    ensures var plan := Evaluate(t.op, s.db.accounts[user], LatestGrant(s.db.ledger, user), t.startedAt, s.now);
            plan.Change? ==> WriteClose(s.db.ledger, user, plan.write) && plan.write.tier == Some(t.op.tier)
  {
    hide TierCreditRefill, BalanceAfterMonthlyGrant, LatestGrant;
    var i := LatestIsThere(s.db.ledger, user);
  }

  /** A transaction that has read does not read again, and keeps what it is about to write. */
  lemma ReadOnce(s: State, a: Action, id: int)
    requires id in s.txs && ReadAlready(s.txs[id])
    ensures id in Step(s, a).txs && ReadAlready(Step(s, a).txs[id]) && Step(s, a).txs[id].op == s.txs[id].op
    ensures Step(s, a).txs[id].phase.Ready? ==> Step(s, a).txs[id] == s.txs[id] && a != Commit(id)
  {
    hide Evaluate, LatestGrant, Admissible, LockFree, Startable, Ensured, TierSynced, CheckedRef, HasRef, Committed;
  }

  lemma LedgerGrows(s: State, a: Action)
    ensures s.db.ledger <= Step(s, a).db.ledger
  {
    hide Evaluate, LatestGrant, Admissible, LockFree, Startable, CheckedRef, HasRef, Rewritten;
  }

  /** The state of a transaction after a switching read. */
  lemma SwitchReadGives(s: State, a: Action, user: UserId)
    requires SwitchRead(s, a, user)
    ensures Step(s, a).db == s.db && a.tx in Step(s, a).txs
    ensures var t := Step(s, a).txs[a.tx];
            && t.op == s.txs[a.tx].op && t.op.GrantPlanCredits? && ReadAlready(t)
            && (t.phase.Ready? ==>
                  WriteClose(s.db.ledger, user, t.phase.write) && t.phase.write.tier == Some(t.op.tier))
  {
    hide Evaluate, LatestGrant, WriteClose;
    EvaluateClose(s, s.txs[a.tx], user);
  }

  lemma StillClose(ledger: seq<Entry>, longer: seq<Entry>, user: UserId, w: Write)
    requires WriteClose(ledger, user, w) && ledger <= longer
    ensures WriteClose(longer, user, w)
  {
    if w.entry.Some? {
      var i :| 0 <= i < |ledger| && IsGrantOf(ledger[i], user) &&
               w.entry.value.createdAt < ledger[i].createdAt + 25 * DAY;
      assert longer[i] == ledger[i];
    }
  }

  lemma StepPendingClose(s: State, a: Action, user: UserId, switched: set<int>)
    requires PendingClose(s, user, switched)
    ensures PendingClose(Step(s, a), user, switched + if SwitchRead(s, a, user) then {a.tx} else {})
  {
    hide Step, WriteClose, ReadAlready, SwitchRead;
    var next := Step(s, a);
    LedgerGrows(s, a);
    forall id | id in switched
      ensures id in next.txs && ReadAlready(next.txs[id])
      ensures next.txs[id].phase.Ready? ==> WriteClose(next.db.ledger, user, next.txs[id].phase.write)
    {
      ReadOnce(s, a, id);
      if next.txs[id].phase.Ready? {
        StillClose(s.db.ledger, next.db.ledger, user, s.txs[id].phase.write);
      }
    }
    if SwitchRead(s, a, user) {
      SwitchReadGives(s, a, user);
    }
  }

  lemma StepRowsClose(s: State, a: Action, user: UserId, switched: set<int>, rows: set<nat>)
    requires PendingClose(s, user, switched) && RowsClose(s.db.ledger, user, rows)
    ensures RowsClose(Step(s, a).db.ledger, user, rows + if Records(s, a, switched) then {|s.db.ledger|} else {})
  {
    hide Step, IsGrantOf;
    var ledger, next := s.db.ledger, Step(s, a).db.ledger;
    LedgerGrows(s, a);
    forall j | j in rows ensures j < |next| && IsGrantOf(next[j], user) && IsClose(next, user, j) {
      var i :| 0 <= i < j && IsGrantOf(ledger[i], user) && ledger[j].createdAt < ledger[i].createdAt + 25 * DAY;
      assert next[i] == ledger[i] && next[j] == ledger[j];
    }
    if Records(s, a, switched) {
      RecordedRow(s, a.tx);
      var w := s.txs[a.tx].phase.write;
      var i :| 0 <= i < |ledger| && IsGrantOf(ledger[i], user) &&
               w.entry.value.createdAt < ledger[i].createdAt + 25 * DAY;
      assert next[i] == ledger[i] && next[|ledger|] == w.entry.value;
    }
  }

  lemma RecordedRow(s: State, tx: int)
    requires |Step(s, Commit(tx)).db.ledger| > |s.db.ledger|
    ensures tx in s.txs && s.txs[tx].phase.Ready? && s.txs[tx].phase.write.entry.Some?
    ensures Step(s, Commit(tx)).db.ledger == s.db.ledger + [s.txs[tx].phase.write.entry.value]
    ensures s.txs[tx].op.userId in s.db.accounts
    ensures Step(s, Commit(tx)).db == Committed(s.db, s.txs[tx].op.userId, s.txs[tx].phase.write)
  {
    hide HasRef, Rewritten;
  }

  lemma {:induction false} RunClose(s: State, actions: seq<Action>, user: UserId)
    ensures PendingClose(Run(s, actions), user, Switched(s, actions, user))
    ensures RowsClose(Run(s, actions).db.ledger, user, SwitchRows(s, actions, user))
  {
    hide Step, SwitchRead, Records, PendingClose, RowsClose;
    if actions == [] {
      NothingClose(s, user);
    } else {
      var n := |actions| - 1;
      RunClose(s, actions[..n], user);
      var before, switched := Run(s, actions[..n]), Switched(s, actions[..n], user);
      StepPendingClose(before, actions[n], user, switched);
      StepRowsClose(before, actions[n], user, switched, SwitchRows(s, actions[..n], user));
    }
  }

  lemma NothingClose(s: State, user: UserId)
    ensures PendingClose(s, user, {}) && RowsClose(s.db.ledger, user, {})
  {
  }

  /** A run from fresh accounts in which no call is delayed by more than the given time. */
  ghost predicate PromptFromFresh(now: int, before: seq<Action>, after: seq<Action>, delay: nat) {
    PromptRun(Fresh(now), before, delay) && PromptRun(Run(Fresh(now), before), after, delay)
  }

  lemma FromFresh(now: int, before: seq<Action>, delay: nat)
    requires PromptRun(Fresh(now), before, delay)
    ensures Inv(Run(Fresh(now), before)) && Timely(Run(Fresh(now), before), delay)
  {
    hide Run, Inv, Timely, PromptRun;
    FreshInv(now);
    FreshTimely(now, delay);
    RunTimely(Fresh(now), before, delay);
  }

  lemma FreshSpaced(now: int, actions: seq<Action>, user: UserId, delay: nat)
    requires 2 * delay <= 5 * DAY && PromptRun(Fresh(now), actions, delay)
    ensures var s := Run(Fresh(now), actions);
            && PendingSpaced(s, 0, user, Switched(Fresh(now), actions, user))
            && Spaced(s.db.ledger, 0, 0, user, SwitchRows(Fresh(now), actions, user))
  {
    hide Run, Inv, Timely, PromptRun, Spaced, Switched, SwitchRows;
    FreshInv(now);
    FreshTimely(now, delay);
    WindowSpaced(Fresh(now), actions, 0, user, delay);
  }

  /**
   In every run from fresh accounts, with any operations, tiers and interleavings, in which no call is
   delayed by more than two and a half days: a grant row comes less than 25 days after an earlier one
   exactly when a plan grant wrote it that found the account on another tier, or grants the free one,
   and was begun less than 25 days after the latest grant it read.
   */
  lemma CloseIffSwitched(now: int, actions: seq<Action>, user: UserId, delay: nat, j: nat)
    requires 2 * delay <= 5 * DAY && PromptRun(Fresh(now), actions, delay)
    requires var ledger := Run(Fresh(now), actions).db.ledger; j < |ledger| && IsGrantOf(ledger[j], user)
    ensures IsClose(Run(Fresh(now), actions).db.ledger, user, j) <==> j in SwitchRows(Fresh(now), actions, user)
  {
    hide Run, PromptRun, IsGrantOf, SwitchRows, Switched, PendingSpaced;
    FreshSpaced(now, actions, user, delay);
    RunClose(Fresh(now), actions, user);
  }

  // ----- while the tier stays -----

  /** The given transactions have read, and are about to move the user to another tier if anywhere. */
  ghost predicate PendingElsewhere(s: State, user: UserId, tier: string, switched: set<int>) {
    forall id :: id in switched ==>
      id in s.txs && ReadAlready(s.txs[id]) && s.txs[id].op.userId == user &&
      (s.txs[id].phase.Ready? ==> s.txs[id].phase.write.tier.Some? && s.txs[id].phase.write.tier != Some(tier))
  }

  lemma StepPendingElsewhere(s: State, a: Action, user: UserId, tier: string, switched: set<int>)
    requires PendingElsewhere(s, user, tier, switched) && TierIs(s, user, tier) && tier != "free"
    ensures PendingElsewhere(Step(s, a), user, tier, switched + if SwitchRead(s, a, user) then {a.tx} else {})
  {
    hide Step, WriteClose, LatestGrant;
    forall id | id in switched
      ensures id in Step(s, a).txs && ReadAlready(Step(s, a).txs[id]) && Step(s, a).txs[id].op == s.txs[id].op
      ensures Step(s, a).txs[id].phase.Ready? ==> Step(s, a).txs[id] == s.txs[id]
    {
      ReadOnce(s, a, id);
    }
    if SwitchRead(s, a, user) {
      SwitchReadGives(s, a, user);
    }
  }

  lemma NoSwitchRecorded(s: State, a: Action, user: UserId, tier: string, switched: set<int>)
    requires PendingElsewhere(s, user, tier, switched) && TierIs(Step(s, a), user, tier)
    ensures !Records(s, a, switched)
  {
    hide Step;
    if Records(s, a, switched) {
      RecordedRow(s, a.tx);
    }
  }

  /** While the user's cached tier stays the same paid one, no grant for another tier is recorded. */
  lemma {:induction false} SameTierNeverSwitches(s: State, actions: seq<Action>, user: UserId, tier: string)
    requires TierStays(s, actions, user, tier) && tier != "free"
    ensures PendingElsewhere(Run(s, actions), user, tier, Switched(s, actions, user))
    ensures SwitchRows(s, actions, user) == {}
  {
    hide Step, SwitchRead, Records, PendingElsewhere, TierIs;
    if actions == [] {
      NothingElsewhere(s, user, tier);
    } else {
      var n := |actions| - 1;
      SameTierNeverSwitches(s, actions[..n], user, tier);
      StaysHere(s, actions[..n], user, tier);
      var before, switched := Run(s, actions[..n]), Switched(s, actions[..n], user);
      StepPendingElsewhere(before, actions[n], user, tier, switched);
      NoSwitchRecorded(before, actions[n], user, tier, switched);
    }
  }

  lemma NothingElsewhere(s: State, user: UserId, tier: string)
    ensures PendingElsewhere(s, user, tier, {})
  {
  }

  lemma StaysHere(s: State, actions: seq<Action>, user: UserId, tier: string)
    requires TierStays(s, actions, user, tier)
    ensures TierIs(Run(s, actions), user, tier)
  {
    hide Run, TierIs;
  }

  /**
   A prompt run from fresh accounts, cut in two, with the user's cached tier the same and not the free
   one in every state of the second part.
   */
  ghost predicate Window(
    now: int, before: seq<Action>, after: seq<Action>, user: UserId, tier: string, delay: nat)
  {
    tier != "free" && PromptFromFresh(now, before, after, delay)
    && TierStays(Run(Fresh(now), before), after, user, tier)
  }

  function LedgerAfter(now: int, before: seq<Action>, after: seq<Action>): seq<Entry> {
    Run(Run(Fresh(now), before), after).db.ledger
  }

  /** At the end of the run no grant that read another tier is waiting to be committed. */
  ghost predicate NoSwitchPending(now: int, before: seq<Action>, user: UserId) {
    var s := Run(Fresh(now), before);
    forall id :: id in Switched(Fresh(now), before, user) && id in s.txs ==> !s.txs[id].phase.Ready?
  }

  /**
   Two grants of the user, the later one recorded in the second part; the earlier one too, unless
   no grant that read another tier is pending when the second part starts.
   */
  ghost predicate TwoGrants(
    now: int, before: seq<Action>, after: seq<Action>, user: UserId, i: nat, j: nat)
  {
    var start, ledger := Run(Fresh(now), before), LedgerAfter(now, before, after);
    && i < j < |ledger| && |start.db.ledger| <= j && IsGrantOf(ledger[i], user) && IsGrantOf(ledger[j], user)
    && (|start.db.ledger| <= i || NoSwitchPending(now, before, user))
  }

  ghost predicate Apart(now: int, before: seq<Action>, after: seq<Action>, i: nat, j: nat) {
    var ledger := LedgerAfter(now, before, after);
    i < |ledger| && j < |ledger| && ledger[i].createdAt + 25 * DAY <= ledger[j].createdAt
  }

  /** Nothing is pending for rows that are still to come. */
  lemma NonePending(s: State, user: UserId)
    ensures PendingSpaced(s, |s.db.ledger|, user, {})
  {
  }

  lemma NoneExempt(now: int, before: seq<Action>, user: UserId)
    requires PendingSpaced(Run(Fresh(now), before), 0, user, Switched(Fresh(now), before, user))
    requires NoSwitchPending(now, before, user)
    ensures PendingSpaced(Run(Fresh(now), before), 0, user, {})
  {
    hide Run, Switched, WriteSpaced;
  }

  lemma WindowFacts(now: int, before: seq<Action>, after: seq<Action>, user: UserId, delay: nat, low: nat)
    requires 2 * delay <= 5 * DAY && PromptFromFresh(now, before, after, delay)
    requires low == |Run(Fresh(now), before).db.ledger| || (low == 0 && NoSwitchPending(now, before, user))
    ensures var start := Run(Fresh(now), before);
            && start.db.ledger <= LedgerAfter(now, before, after)
            && Spaced(LedgerAfter(now, before, after), low, |start.db.ledger|, user, SwitchRows(start, after, user))
  {
    hide Run, Inv, Timely, PromptRun, PendingSpaced, Spaced, Switched, SwitchRows, NoSwitchPending;
    FromFresh(now, before, delay);
    var s := Run(Fresh(now), before);
    if low == |s.db.ledger| {
      NonePending(s, user);
    } else {
      FreshSpaced(now, before, user, delay);
      NoneExempt(now, before, user);
    }
    WindowSpaced(s, after, low, user, delay);
  }

  /**
   While the cached tier stays at one tier that is not free, a new grant row lies at least 25 days after
   the rows before it, whichever function wrote it, when no call is delayed by more than two and a half days.
   */
  lemma GrantsAreSpaced(
    now: int, before: seq<Action>, after: seq<Action>, user: UserId, tier: string, delay: nat, i: nat, j: nat)
    requires 2 * delay <= 5 * DAY && Window(now, before, after, user, tier, delay)
    requires TwoGrants(now, before, after, user, i, j)
    ensures Apart(now, before, after, i, j)
  {
    hide Run, PromptFromFresh, TierStays, NoSwitchPending, LedgerAfter, IsGrantOf, SwitchRows;
    var start := Run(Fresh(now), before);
    WindowFacts(now, before, after, user, delay, if |start.db.ledger| <= i then |start.db.ledger| else 0);
    SameTierNeverSwitches(start, after, user, tier);
  }

  /** How many grants of the user, from the given row on and besides the given ones, fall into a period. */
  ghost function GrantsIn(
    ledger: seq<Entry>, from: nat, user: UserId, besides: set<nat>, start: int, end: int): nat
    requires from <= |ledger|
  {
    if from == |ledger| then 0
    else
      var n := |ledger| - 1;
      GrantsIn(ledger[..n], from, user, besides, start, end)
      + if n !in besides && IsGrantOf(ledger[n], user) && start <= ledger[n].createdAt <= end then 1 else 0
  }

  /** Spaced grants: the last of k of them comes k - 1 times 25 days after the start. */
  lemma {:induction false} SpacedCount(
    ledger: seq<Entry>, from: nat, user: UserId, besides: set<nat>, start: int, end: int)
    returns (i: nat)
    requires from <= |ledger| && Spaced(ledger, from, from, user, besides)
    requires GrantsIn(ledger, from, user, besides, start, end) > 0
    ensures from <= i < |ledger| && IsGrantOf(ledger[i], user) && ledger[i].createdAt <= end
    ensures start + (GrantsIn(ledger, from, user, besides, start, end) - 1) * (25 * DAY) <= ledger[i].createdAt
  {
    hide IsGrantOf;
    var n := |ledger| - 1;
    i := n;
    if GrantsIn(ledger[..n], from, user, besides, start, end) > 0 {
      var j := SpacedCount(ledger[..n], from, user, besides, start, end);
      if !(n !in besides && IsGrantOf(ledger[n], user) && start <= ledger[n].createdAt <= end) {
        i := j;
      }
    }
  }

  /**
   In any prompt run, besides the grants that read another tier, at most one more grant than 25 days
   fit into a period is recorded in it.
   */
  lemma GrantRateBesidesSwitches(
    now: int, before: seq<Action>, after: seq<Action>, user: UserId, delay: nat, start: int, length: nat)
    requires 2 * delay <= 5 * DAY && PromptFromFresh(now, before, after, delay)
    ensures var first, last := Run(Fresh(now), before), LedgerAfter(now, before, after);
            && first.db.ledger <= last
            && GrantsIn(last, |first.db.ledger|, user, SwitchRows(first, after, user), start, start + length)
               <= length / (25 * DAY) + 1
  {
    hide Run, PromptFromFresh, LedgerAfter, IsGrantOf, Spaced, GrantsIn, SwitchRows;
    var first, last := Run(Fresh(now), before), LedgerAfter(now, before, after);
    var rows := SwitchRows(first, after, user);
    WindowFacts(now, before, after, user, delay, |first.db.ledger|);
    var k := GrantsIn(last, |first.db.ledger|, user, rows, start, start + length);
    if k > 0 {
      var i := SpacedCount(last, |first.db.ledger|, user, rows, start, start + length);
      assert (k - 1) * (25 * DAY) <= length;
    }
  }

  /** While the tier stays, at most one more grant than 25 days fit into the period. */
  lemma GrantRateBound(
    now: int, before: seq<Action>, after: seq<Action>, user: UserId, tier: string, delay: nat, start: int, length: nat)
    requires 2 * delay <= 5 * DAY && Window(now, before, after, user, tier, delay)
    ensures var first, last := Run(Fresh(now), before).db.ledger, LedgerAfter(now, before, after);
            first <= last && GrantsIn(last, |first|, user, {}, start, start + length) <= length / (25 * DAY) + 1
  {
    hide Run, PromptFromFresh, TierStays, LedgerAfter, GrantsIn, SwitchRows;
    GrantRateBesidesSwitches(now, before, after, user, delay, start, length);
    SameTierNeverSwitches(Run(Fresh(now), before), after, user, tier);
  }

  // ----- the bound on delays is exact -----

  /** Grants recorded while the tier stays are 25 days apart in every run with these delays. */
  ghost predicate AlwaysApart(delay: nat) {
    forall now, before, after, user, tier, i, j ::
      Window(now, before, after, user, tier, delay) && TwoGrants(now, before, after, user, i, j)
      ==> Apart(now, before, after, i, j)
  }

  /** A prompt run, staying on the given tier if there is one, with the state it leads to. */
  ghost predicate OnCourse(start: State, actions: seq<Action>, s: State, delay: nat, tier: Option<string>) {
    PromptRun(start, actions, delay) && Run(start, actions) == s
    && (tier.Some? ==> TierStays(start, actions, 1, tier.value))
  }

  lemma Onward(
    start: State, actions: seq<Action>, s: State, a: Action, next: State, delay: nat, tier: Option<string>)
    requires OnCourse(start, actions, s, delay, tier) && Prompt(s, a, delay)
    requires Step(s, a) == next && (tier.Some? ==> TierIs(next, 1, tier.value))
    ensures OnCourse(start, actions + [a], next, delay, tier)
  {
    hide Step, Prompt, TierIs;
    assert (actions + [a])[..|actions|] == actions;
  }

  /** The least delay above two and a half days. */
  const TOO_LATE := 5 * DAY / 2 + 1

  const EARLY_GRANT := GrantPlanCredits(1, "starter", None, 0)
  const LATE_REFILL :=
    RefillMonthlyCredits(1, None, Some(Subscription("starter", "active", Some(60 * DAY), None)))

  const FIRST_ROW := Entry(1, 100, SubscriptionGrant, None, TOO_LATE)
  const SECOND_ROW := Entry(1, 100, SubscriptionGrant, None, 30 * DAY - TOO_LATE)

  const STARTER := State(Db(map[1 := Account(0, "starter", false, 0)], []), 0, map[])
  const GRANTED := State(
    Db(map[1 := Account(100, "starter", false, 0)], [FIRST_ROW]), TOO_LATE,
    map[0 := Tx(EARLY_GRANT, TOO_LATE, Ended)])
  const REFILLED := State(
    Db(map[1 := Account(200, "starter", false, 30 * DAY)], [FIRST_ROW, SECOND_ROW]), 30 * DAY,
    map[0 := Tx(EARLY_GRANT, TOO_LATE, Ended), 1 := Tx(LATE_REFILL, 30 * DAY - TOO_LATE, Ended)])

  /** A transaction that is begun, locked and read without a pause, up to its pending write. */
  lemma UpToRead(s: State, tx: int, op: Operation, startedAt: int, w: Write)
    requires tx in s.txs && s.txs[tx] == Tx(op, startedAt, Waiting) && LockFree(s, op.userId)
    requires CheckedRef(op).None? && op.userId in s.db.accounts
    requires Evaluate(op, s.db.accounts[op.userId], LatestGrant(s.db.ledger, op.userId), startedAt, s.now) == Change(w)
    ensures Step(s, Lock(tx)) == s.(txs := s.txs[tx := Tx(op, startedAt, Locked)])
    ensures Step(s.(txs := s.txs[tx := Tx(op, startedAt, Locked)]), CheckRef(tx)) ==
            s.(txs := s.txs[tx := Tx(op, startedAt, Checked)])
    ensures Step(s.(txs := s.txs[tx := Tx(op, startedAt, Checked)]), Read(tx)) ==
            s.(txs := s.txs[tx := Tx(op, startedAt, Ready(w))])
  {
    hide Evaluate, LatestGrant, HasRef, CheckedRef;
    var txs := s.txs;
    assert txs[tx := Tx(op, startedAt, Locked)][tx := Tx(op, startedAt, Checked)] ==
           txs[tx := Tx(op, startedAt, Checked)];
    assert txs[tx := Tx(op, startedAt, Checked)][tx := Tx(op, startedAt, Ready(w))] ==
           txs[tx := Tx(op, startedAt, Ready(w))];
  }

  lemma AndCommit(s: State, tx: int, op: Operation, startedAt: int, w: Write)
    requires op.userId in s.db.accounts && Admissible(s.db, op.userId, w)
    ensures Step(s.(txs := s.txs[tx := Tx(op, startedAt, Ready(w))]), Commit(tx)) ==
            s.(txs := s.txs[tx := Tx(op, startedAt, Ended)], db := Committed(s.db, op.userId, w))
  {
    hide Admissible, Committed;
    assert s.txs[tx := Tx(op, startedAt, Ready(w))][tx := Tx(op, startedAt, Ended)] ==
           s.txs[tx := Tx(op, startedAt, Ended)];
  }

  /** Locking, checking, reading and committing, with the read no later than allowed. */
  lemma FourSteps(
    start: State, actions: seq<Action>, s: State, tx: int, op: Operation, startedAt: int, w: Write, delay: nat,
    tier: Option<string>)
    returns (longer: seq<Action>)
    requires OnCourse(start, actions, s, delay, tier) && 1 in s.db.accounts
    requires tx in s.txs && s.txs[tx] == Tx(op, startedAt, Waiting) && op.userId == 1 && LockFree(s, 1)
    requires s.now - CalledAt(s.txs[tx]) <= delay && CheckedRef(op).None?
    requires Evaluate(op, s.db.accounts[1], LatestGrant(s.db.ledger, 1), startedAt, s.now) == Change(w)
    requires Admissible(s.db, 1, w)
    requires tier.Some? ==> TierIs(s, 1, tier.value) && Rewritten(s.db.accounts[1], w).tier == tier.value
    ensures OnCourse(
              start, longer, s.(txs := s.txs[tx := Tx(op, startedAt, Ended)], db := Committed(s.db, 1, w)), delay,
              tier)
  {
    hide Evaluate, LatestGrant, Admissible, Step, OnCourse, HasRef, CheckedRef, Rewritten;
    UpToRead(s, tx, op, startedAt, w);
    AndCommit(s, tx, op, startedAt, w);
    var locked := s.(txs := s.txs[tx := Tx(op, startedAt, Locked)]);
    var checked := s.(txs := s.txs[tx := Tx(op, startedAt, Checked)]);
    var ready := s.(txs := s.txs[tx := Tx(op, startedAt, Ready(w))]);
    Onward(start, actions, s, Lock(tx), locked, delay, tier);
    Onward(start, actions + [Lock(tx)], locked, CheckRef(tx), checked, delay, tier);
    Onward(start, actions + [Lock(tx)] + [CheckRef(tx)], checked, Read(tx), ready, delay, tier);
    longer := actions + [Lock(tx)] + [CheckRef(tx)] + [Read(tx)];
    Onward(start, longer, ready, Commit(tx),
           s.(txs := s.txs[tx := Tx(op, startedAt, Ended)], db := Committed(s.db, 1, w)), delay, tier);
    longer := longer + [Commit(tx)];
  }

  lemma StarterAccount()
    ensures Run(Fresh(0), [Ensure(1, false), SyncTier(1, "starter")]) == STARTER
    ensures PromptRun(Fresh(0), [Ensure(1, false), SyncTier(1, "starter")], TOO_LATE)
  {
    var a := [Ensure(1, false), SyncTier(1, "starter")];
    assert a[..1] == [Ensure(1, false)] && a[..1][..0] == [];
    RunOne(Fresh(0), a);
    RunOne(Fresh(0), a[..1]);
    var free := Account(0, "free", false, 0);
    var ensured := State(Db(map[1 := free], []), 0, map[]);
    assert Step(Fresh(0), a[0]) == ensured;
    assert map[1 := free][1 := free.(tier := "starter")] == map[1 := free.(tier := "starter")];
    assert Step(ensured, a[1]) == STARTER;
    assert PromptRun(Fresh(0), a[..1], TOO_LATE) by {
      assert PromptRun(Fresh(0), a[..1][..0], TOO_LATE);
    }
  }

  /** A grant called at the start whose transaction begins only after the delay. */
  lemma FirstGrantRun() returns (actions: seq<Action>)
    ensures OnCourse(STARTER, actions, GRANTED, TOO_LATE, Some("starter"))
  {
    hide Step, OnCourse, Evaluate, LatestGrant, TierCreditRefill, BalanceAfterMonthlyGrant;
    AtStart(STARTER, TOO_LATE, Some("starter"));
    var waited := STARTER.(now := TOO_LATE);
    var begun := waited.(txs := map[0 := Tx(EARLY_GRANT, TOO_LATE, Waiting)]);
    FirstSteps();
    Onward(STARTER, [], STARTER, Tick(TOO_LATE), waited, TOO_LATE, Some("starter"));
    Onward(STARTER, [] + [Tick(TOO_LATE)], waited, Begin(0, EARLY_GRANT), begun, TOO_LATE, Some("starter"));
    var w := Write(Some(100), Some("starter"), None, Some(0), Some(FIRST_ROW));
    actions := FourSteps(
      STARTER, [] + [Tick(TOO_LATE)] + [Begin(0, EARLY_GRANT)], begun, 0, EARLY_GRANT, TOO_LATE, w, TOO_LATE,
      Some("starter"));
    FirstCommit(begun, w);
  }

  lemma AtStart(start: State, delay: nat, tier: Option<string>)
    requires tier.Some? ==> TierIs(start, 1, tier.value)
    ensures OnCourse(start, [], start, delay, tier)
  {
  }

  lemma FirstSteps()
    ensures Step(STARTER, Tick(TOO_LATE)) == STARTER.(now := TOO_LATE)
    ensures Step(STARTER.(now := TOO_LATE), Begin(0, EARLY_GRANT)) ==
            STARTER.(now := TOO_LATE, txs := map[0 := Tx(EARLY_GRANT, TOO_LATE, Waiting)])
    ensures Evaluate(EARLY_GRANT, STARTER.db.accounts[1], LatestGrant([], 1), TOO_LATE, TOO_LATE) ==
            Change(Write(Some(100), Some("starter"), None, Some(0), Some(FIRST_ROW)))
  {
    assert LatestGrant([], 1) == None && TierCreditRefill("starter") == Some(100);
  }

  lemma FirstCommit(s: State, w: Write)
    requires s == STARTER.(now := TOO_LATE, txs := map[0 := Tx(EARLY_GRANT, TOO_LATE, Waiting)])
    requires w == Write(Some(100), Some("starter"), None, Some(0), Some(FIRST_ROW))
    ensures s.(txs := s.txs[0 := Tx(EARLY_GRANT, TOO_LATE, Ended)], db := Committed(s.db, 1, w)) == GRANTED
  {
    assert s.txs[0 := Tx(EARLY_GRANT, TOO_LATE, Ended)] == GRANTED.txs;
    assert s.db.accounts[1 := Account(100, "starter", false, 0)] == GRANTED.db.accounts;
    assert [] + [FIRST_ROW] == [FIRST_ROW];
  }

  /** A refill begun the delay before day 30 that reads on day 30. */
  lemma SecondGrantRun(before: seq<Action>) returns (actions: seq<Action>)
    requires OnCourse(STARTER, before, GRANTED, TOO_LATE, Some("starter"))
    ensures OnCourse(STARTER, actions, REFILLED, TOO_LATE, Some("starter"))
  {
    hide Step, OnCourse, Evaluate, LatestGrant, TierCreditRefill, BalanceAfterMonthlyGrant;
    var day, tier := 30 * DAY - TOO_LATE, Some("starter");
    var later := GRANTED.(now := day);
    var begun := later.(txs := GRANTED.txs[1 := Tx(LATE_REFILL, day, Waiting)]);
    var waited := begun.(now := 30 * DAY);
    SecondSteps();
    Onward(STARTER, before, GRANTED, Tick(day - TOO_LATE), later, TOO_LATE, tier);
    Onward(STARTER, before + [Tick(day - TOO_LATE)], later, Begin(1, LATE_REFILL), begun, TOO_LATE, tier);
    Onward(STARTER, before + [Tick(day - TOO_LATE)] + [Begin(1, LATE_REFILL)], begun, Tick(TOO_LATE), waited, TOO_LATE,
           tier);
    var w := Write(Some(200), Some("starter"), None, Some(30 * DAY), Some(SECOND_ROW));
    actions := FourSteps(
      STARTER, before + [Tick(day - TOO_LATE)] + [Begin(1, LATE_REFILL)] + [Tick(TOO_LATE)], waited, 1, LATE_REFILL,
      day, w, TOO_LATE, tier);
    SecondCommit(waited, w);
  }

  lemma SecondSteps()
    ensures var day := 30 * DAY - TOO_LATE;
            var later := GRANTED.(now := day);
            var begun := later.(txs := GRANTED.txs[1 := Tx(LATE_REFILL, day, Waiting)]);
            && Step(GRANTED, Tick(day - TOO_LATE)) == later
            && Step(later, Begin(1, LATE_REFILL)) == begun
            && Step(begun, Tick(TOO_LATE)) == begun.(now := 30 * DAY)
            && Evaluate(LATE_REFILL, GRANTED.db.accounts[1], LatestGrant([FIRST_ROW], 1), day, 30 * DAY) ==
               Change(Write(Some(200), Some("starter"), None, Some(30 * DAY), Some(SECOND_ROW)))
  {
    hide LatestGrant;
    assert TierCreditRefill("starter") == Some(100);
  }

  lemma SecondCommit(s: State, w: Write)
    requires var day := 30 * DAY - TOO_LATE;
             s == GRANTED.(now := 30 * DAY, txs := GRANTED.txs[1 := Tx(LATE_REFILL, day, Waiting)])
    requires w == Write(Some(200), Some("starter"), None, Some(30 * DAY), Some(SECOND_ROW))
    ensures s.(txs := s.txs[1 := Tx(LATE_REFILL, 30 * DAY - TOO_LATE, Ended)], db := Committed(s.db, 1, w)) == REFILLED
  {
    assert s.txs[1 := Tx(LATE_REFILL, 30 * DAY - TOO_LATE, Ended)] == REFILLED.txs;
    assert s.db.accounts[1 := Account(200, "starter", false, 30 * DAY)] == REFILLED.db.accounts;
    assert [FIRST_ROW] + [SECOND_ROW] == [FIRST_ROW, SECOND_ROW];
  }

  /** What is prompt for one bound is prompt for any larger one. */
  lemma {:induction false} PromptForLonger(s: State, actions: seq<Action>, delay: nat, longer: nat)
    requires PromptRun(s, actions, delay) && delay <= longer
    ensures PromptRun(s, actions, longer)
  {
    hide Run;
    if actions != [] {
      PromptForLonger(s, actions[..|actions| - 1], delay, longer);
    }
  }

  /** From a fresh account, a late grant and a late refill are recorded less than 25 days apart. */
  lemma LateRefillBreaksSpacing(delay: nat) returns (before: seq<Action>, after: seq<Action>)
    requires 2 * delay > 5 * DAY
    ensures Window(0, before, after, 1, "starter", delay)
    ensures TwoGrants(0, before, after, 1, 0, 1) && !Apart(0, before, after, 0, 1)
    ensures Run(Fresh(0), before) == STARTER
  {
    hide PromptRun, TierStays, Run, TwoGrants, Apart, Window, OnCourse;
    before := [Ensure(1, false), SyncTier(1, "starter")];
    StarterAccount();
    after := FirstGrantRun();
    after := SecondGrantRun(after);
    OnCourseMeans(after, REFILLED);
    PromptForLonger(Fresh(0), before, TOO_LATE, delay);
    PromptForLonger(STARTER, after, TOO_LATE, delay);
    WindowOf(before, after, delay);
    TooClose(before, after);
  }

  lemma OnCourseMeans(actions: seq<Action>, s: State)
    requires OnCourse(STARTER, actions, s, TOO_LATE, Some("starter"))
    ensures PromptRun(STARTER, actions, TOO_LATE) && TierStays(STARTER, actions, 1, "starter")
    ensures Run(STARTER, actions) == s
  {
    hide PromptRun, TierStays, Run;
  }

  lemma WindowOf(before: seq<Action>, after: seq<Action>, delay: nat)
    requires Run(Fresh(0), before) == STARTER && PromptRun(Fresh(0), before, delay)
    requires PromptRun(STARTER, after, delay) && TierStays(STARTER, after, 1, "starter")
    ensures Window(0, before, after, 1, "starter", delay)
  {
    hide PromptRun, TierStays, Run;
  }

  lemma TooClose(before: seq<Action>, after: seq<Action>)
    requires Run(Fresh(0), before) == STARTER && Run(STARTER, after) == REFILLED
    ensures TwoGrants(0, before, after, 1, 0, 1) && !Apart(0, before, after, 0, 1)
  {
    hide Run, NoSwitchPending;
    var ledger := LedgerAfter(0, before, after);
    assert ledger == [FIRST_ROW, SECOND_ROW];
    assert ledger[0] == FIRST_ROW && ledger[1] == SECOND_ROW;
  }

  /** The grants are always 25 days apart exactly when no call is delayed by more than two and a half days. */
  lemma ApartIffPrompt(delay: nat)
    ensures AlwaysApart(delay) <==> 2 * delay <= 5 * DAY
  {
    hide Window, TwoGrants, Apart;
    if 2 * delay <= 5 * DAY {
      forall now, before, after, user, tier, i, j
        | Window(now, before, after, user, tier, delay) && TwoGrants(now, before, after, user, i, j)
        ensures Apart(now, before, after, i, j)
      {
        GrantsAreSpaced(now, before, after, user, tier, delay, i, j);
      }
    } else {
      var before, after := LateRefillBreaksSpacing(delay);
    }
  }

  /**
   Of the grants recorded in any prompt run, whatever tiers the user moves through, only those that read
   another tier lie less than 25 days after an earlier one.
   */
  ghost predicate OnlySwitchesClose(delay: nat) {
    forall now, before, after, user, i, j ::
      PromptFromFresh(now, before, after, delay) && BothNew(now, before, after, user, i, j)
      && !Apart(now, before, after, i, j)
      ==> j in SwitchRows(Run(Fresh(now), before), after, user)
  }

  /** Two grants of the user recorded in the second part. */
  ghost predicate BothNew(now: int, before: seq<Action>, after: seq<Action>, user: UserId, i: nat, j: nat) {
    |Run(Fresh(now), before).db.ledger| <= i && TwoGrants(now, before, after, user, i, j)
  }

  /** The same bound on delays is exact for runs through any tiers. */
  lemma OnlySwitchesIffPrompt(delay: nat)
    ensures OnlySwitchesClose(delay) <==> 2 * delay <= 5 * DAY
  {
    hide PromptFromFresh, BothNew, Apart, SwitchRows, Run;
    if 2 * delay <= 5 * DAY {
      forall now, before, after, user, i, j
        | PromptFromFresh(now, before, after, delay) && BothNew(now, before, after, user, i, j)
          && !Apart(now, before, after, i, j)
        ensures j in SwitchRows(Run(Fresh(now), before), after, user)
      {
        NewAreSpaced(now, before, after, user, delay, i, j);
      }
    } else {
      var before, after := LateRefillBreaksSpacing(delay);
      LateIsNoSwitch(before, after, delay);
    }
  }

  lemma NewAreSpaced(
    now: int, before: seq<Action>, after: seq<Action>, user: UserId, delay: nat, i: nat, j: nat)
    requires 2 * delay <= 5 * DAY && PromptFromFresh(now, before, after, delay)
    requires BothNew(now, before, after, user, i, j)
    ensures Apart(now, before, after, i, j) || j in SwitchRows(Run(Fresh(now), before), after, user)
  {
    hide Run, PromptFromFresh, NoSwitchPending, LedgerAfter, IsGrantOf, SwitchRows;
    WindowFacts(now, before, after, user, delay, |Run(Fresh(now), before).db.ledger|);
  }

  lemma LateIsNoSwitch(before: seq<Action>, after: seq<Action>, delay: nat)
    requires Window(0, before, after, 1, "starter", delay) && Run(Fresh(0), before) == STARTER
    requires TwoGrants(0, before, after, 1, 0, 1)
    ensures PromptFromFresh(0, before, after, delay) && BothNew(0, before, after, 1, 0, 1)
    ensures SwitchRows(Run(Fresh(0), before), after, 1) == {}
  {
    hide Run, PromptFromFresh, TierStays, TwoGrants, SwitchRows;
    SameTierNeverSwitches(STARTER, after, 1, "starter");
  }

  // ----- a change of tier -----

  const UPGRADE := GrantPlanCredits(1, "builder", None, DAY)

  const STARTER_ROW := Entry(1, 100, SubscriptionGrant, None, 0)
  const BUILDER_ROW := Entry(1, 400, SubscriptionGrant, None, DAY)

  const FREE := State(Db(map[1 := Account(0, "free", false, 0)], []), 0, map[])
  const SUBSCRIBED := State(
    Db(map[1 := Account(100, "starter", false, 0)], [STARTER_ROW]), 0, map[0 := Tx(EARLY_GRANT, 0, Ended)])
  const UPGRADED := State(
    Db(map[1 := Account(500, "builder", false, DAY)], [STARTER_ROW, BUILDER_ROW]), DAY,
    map[0 := Tx(EARLY_GRANT, 0, Ended), 1 := Tx(UPGRADE, DAY, Ended)])

  /** A first plan grant, made without any delay. */
  lemma Subscribing() returns (actions: seq<Action>)
    ensures OnCourse(Fresh(0), actions, SUBSCRIBED, 0, None)
  {
    hide Step, OnCourse, Evaluate, LatestGrant, TierCreditRefill, BalanceAfterMonthlyGrant;
    AtStart(Fresh(0), 0, None);
    SubscribingSteps();
    Onward(Fresh(0), [], Fresh(0), Ensure(1, false), FREE, 0, None);
    var begun := FREE.(txs := map[0 := Tx(EARLY_GRANT, 0, Waiting)]);
    Onward(Fresh(0), [] + [Ensure(1, false)], FREE, Begin(0, EARLY_GRANT), begun, 0, None);
    var w := Write(Some(100), Some("starter"), None, Some(0), Some(STARTER_ROW));
    actions := FourSteps(
      Fresh(0), [] + [Ensure(1, false)] + [Begin(0, EARLY_GRANT)], begun, 0, EARLY_GRANT, 0, w, 0, None);
    assert begun.txs[0 := Tx(EARLY_GRANT, 0, Ended)] == SUBSCRIBED.txs;
    assert FREE.db.accounts[1 := Account(100, "starter", false, 0)] == SUBSCRIBED.db.accounts;
    assert [] + [STARTER_ROW] == [STARTER_ROW];
  }

  lemma SubscribingSteps()
    ensures Step(Fresh(0), Ensure(1, false)) == FREE
    ensures Step(FREE, Begin(0, EARLY_GRANT)) == FREE.(txs := map[0 := Tx(EARLY_GRANT, 0, Waiting)])
    ensures Evaluate(EARLY_GRANT, FREE.db.accounts[1], LatestGrant([], 1), 0, 0) ==
            Change(Write(Some(100), Some("starter"), None, Some(0), Some(STARTER_ROW)))
  {
    assert LatestGrant([], 1) == None && TierCreditRefill("starter") == Some(100);
  }

  /** The next day the same user subscribes to another plan. */
  lemma Upgrading(before: seq<Action>) returns (actions: seq<Action>)
    requires OnCourse(Fresh(0), before, SUBSCRIBED, 0, None)
    ensures OnCourse(Fresh(0), actions, UPGRADED, 0, None)
  {
    hide Step, OnCourse, Evaluate, LatestGrant, TierCreditRefill, BalanceAfterMonthlyGrant;
    var later := SUBSCRIBED.(now := DAY);
    var begun := later.(txs := SUBSCRIBED.txs[1 := Tx(UPGRADE, DAY, Waiting)]);
    UpgradingSteps();
    Onward(Fresh(0), before, SUBSCRIBED, Tick(DAY), later, 0, None);
    Onward(Fresh(0), before + [Tick(DAY)], later, Begin(1, UPGRADE), begun, 0, None);
    var w := Write(Some(500), Some("builder"), None, Some(DAY), Some(BUILDER_ROW));
    actions := FourSteps(
      Fresh(0), before + [Tick(DAY)] + [Begin(1, UPGRADE)], begun, 1, UPGRADE, DAY, w, 0, None);
    assert begun.txs[1 := Tx(UPGRADE, DAY, Ended)] == UPGRADED.txs;
    assert SUBSCRIBED.db.accounts[1 := Account(500, "builder", false, DAY)] == UPGRADED.db.accounts;
    assert [STARTER_ROW] + [BUILDER_ROW] == [STARTER_ROW, BUILDER_ROW];
  }

  lemma UpgradingSteps()
    ensures var later := SUBSCRIBED.(now := DAY);
            && Step(SUBSCRIBED, Tick(DAY)) == later
            && Step(later, Begin(1, UPGRADE)) == later.(txs := SUBSCRIBED.txs[1 := Tx(UPGRADE, DAY, Waiting)])
            && Evaluate(UPGRADE, SUBSCRIBED.db.accounts[1], LatestGrant([STARTER_ROW], 1), DAY, DAY) ==
               Change(Write(Some(500), Some("builder"), None, Some(DAY), Some(BUILDER_ROW)))
  {
    hide LatestGrant;
    assert TierCreditRefill("builder") == Some(400);
  }

  /** From a fresh account and without any delay, two plans bought a day apart are both granted in full. */
  lemma TierSwitchBreaksSpacing() returns (actions: seq<Action>)
    ensures PromptRun(Fresh(0), actions, 0) && Run(Fresh(0), actions) == UPGRADED
    ensures IsGrantOf(UPGRADED.db.ledger[1], 1) && IsClose(UPGRADED.db.ledger, 1, 1)
    ensures SwitchRows(Fresh(0), actions, 1) == {1}
  {
    hide Run, PromptRun, SwitchRows, Switched;
    actions := Subscribing();
    actions := Upgrading(actions);
    assert UPGRADED.db.ledger[0] == STARTER_ROW && UPGRADED.db.ledger[1] == BUILDER_ROW;
    CloseIffSwitched(0, actions, 1, 0, 0);
    CloseIffSwitched(0, actions, 1, 0, 1);
    RunClose(Fresh(0), actions, 1);
  }

  /** A tier whose refill is a number of credits and that is not the free one. */
  predicate PaidTier(tier: string) {
    tier != "free" && TierCreditRefill(tier).Some?
  }

  /**
   A plan grant within 25 days of the latest one, with a fresh reference and an admissible balance,
   is recorded exactly when it moves the account to another tier.
   */
  lemma RecentGrantIffTierChanges(
    db: Db, user: UserId, tier: string, key: Option<string>, calledAt: int, startedAt: int)
    requires user in db.accounts && PaidTier(tier)
    requires key.Some? ==> !HasRef(db.ledger, key.value)
    requires 0 <= db.accounts[user].balance && db.accounts[user].balance + TierCreditRefill(tier).value <= MAX_COLUMN
    requires LatestGrant(db.ledger, user).Some? && calledAt < LatestGrant(db.ledger, user).value + 25 * DAY
    ensures var account := db.accounts[user];
            var after := Execute(db, GrantPlanCredits(user, tier, key, calledAt), startedAt, startedAt);
            && (account.tier == tier ==> after == db)
            && (account.tier != tier ==>
                  && |after.ledger| == |db.ledger| + 1 && IsGrantOf(after.ledger[|db.ledger|], user)
                  && user in after.accounts && after.accounts[user].tier == tier
                  && after.accounts[user].balance == account.balance + TierCreditRefill(tier).value)
  {
    hide HasRef, LatestGrant;
  }

  // ----- references -----

  /** What an operation adds to the ledger carries the reference it looked up. */
  lemma AddsItsReference(db: Db, op: Operation, startedAt: int, now: int)
    requires CheckedRef(op).Some? && |Execute(db, op, startedAt, now).ledger| > |db.ledger|
    ensures HasRef(Execute(db, op, startedAt, now).ledger, CheckedRef(op).value)
  {
    hide TierCreditRefill, BalanceAfterMonthlyGrant, LatestGrant;
    var after := Execute(db, op, startedAt, now).ledger;
    assert after[|db.ledger|].ref == CheckedRef(op);
  }

  /** Once a reference was credited, using it again, for anyone and by either function, changes nothing. */
  lemma RetryChangesNothing(db: Db, op: Operation, startedAt: int, now: int, retry: Operation, again: int, later: int)
    requires CheckedRef(op).Some? && CheckedRef(retry) == CheckedRef(op)
    requires |Execute(db, op, startedAt, now).ledger| > |db.ledger|
    ensures Execute(Execute(db, op, startedAt, now), retry, again, later) == Execute(db, op, startedAt, now)
  {
    hide Evaluate, LatestGrant, Admissible, HasRef, CheckedRef;
    AddsItsReference(db, op, startedAt, now);
  }

  // ----- the operations statement by statement -----

  /** The user has a grant less than 25 days before the given time. */
  predicate GrantedWithin(ledger: seq<Entry>, user: UserId, time: int) {
    exists i :: 0 <= i < |ledger| && IsGrantOf(ledger[i], user) && time < ledger[i].createdAt + 25 * DAY
  }

  lemma GrantedWithinMeans(ledger: seq<Entry>, user: UserId, time: int)
    ensures GrantedWithin(ledger, user, time) <==>
              LatestGrant(ledger, user).Some? && time < LatestGrant(ledger, user).value + 25 * DAY
  {
    hide LatestGrant;
    if LatestGrant(ledger, user).Some? {
      var i := LatestIsThere(ledger, user);
    }
  }

  lemma AdmissibleMeans(db: Db, user: UserId, w: Write)
    ensures Admissible(db, user, w) <==>
              && user in db.accounts
              && (w.balance.Some? ==> 0 <= w.balance.value <= MAX_COLUMN)
              && (w.entry.Some? ==>
                    && -MAX_COLUMN - 1 <= w.entry.value.amount <= MAX_COLUMN
                    && (w.entry.value.ref.None? || !HasRef(db.ledger, w.entry.value.ref.value)))
  {
    hide HasRef;
  }

  /** The two tables, as one transaction at a time sees them. */
  class CreditTables {
    var accounts: map<UserId, Account>
    var ledger: seq<Entry>

    ghost function Contents(): Db
      reads this
    {
      Db(accounts, ledger)
    }

    constructor ()
      ensures Contents() == Db(map[], [])
    {
      accounts := map[];
      ledger := [];
    }

    method EnsureUserCredits(user: UserId, owner: bool, now: int)
      modifies this
      ensures Contents() == Ensured(old(Contents()), user, owner, now)
      ensures ledger == old(ledger)
      ensures user !in old(accounts) ==> accounts == old(accounts)[user := Account(0, "free", owner, now)]
      ensures user in old(accounts) ==>
                var a := old(accounts)[user];
                accounts == old(accounts)[user := a.(unlimited := a.unlimited || owner)]
    {
      if user in accounts {
        if owner && !accounts[user].unlimited {
          accounts := accounts[user := accounts[user].(unlimited := true)];
        }
        assert accounts == Ensured(old(Contents()), user, owner, now).accounts;
        return;
      }
      accounts := accounts[user := Account(0, "free", owner, now)];
    }

    /** Updates the account row and inserts the ledger row, or neither if a constraint forbids it. */
    method Save(user: UserId, w: Write) returns (ok: bool)
      requires user in accounts
      modifies this
      ensures ok <==> Admissible(old(Contents()), user, w)
      ensures Contents() == if ok then Committed(old(Contents()), user, w) else old(Contents())
    {
      if w.balance.Some? && !(0 <= w.balance.value <= MAX_COLUMN) {
        return false;
      }
      var before := accounts;
      accounts := accounts[user := Rewritten(accounts[user], w)];
      if w.entry.Some? {
        var e := w.entry.value;
        if !(-MAX_COLUMN - 1 <= e.amount <= MAX_COLUMN) || (e.ref.Some? && HasRef(ledger, e.ref.value)) {
          accounts := before;
          return false;
        }
        ledger := ledger + [e];
      }
      return true;
    }

    method ApplyGodCodeGrantTo(
      user: UserId, lifetime: bool, owner: bool, credits: int, startedAt: int) returns (r: Option<(int, bool)>)
      modifies this
      ensures Contents() ==
              Execute(old(Contents()), ApplyGodCodeGrant(user, lifetime, owner, credits), startedAt, startedAt)
      ensures r.Some? ==> user in old(accounts) && 0 < user && 0 <= credits && (lifetime ==> owner)
      ensures r.None? ==> Contents() == old(Contents())
      ensures r.Some? ==>
                var a := old(accounts)[user];
                var b := if lifetime then a.(unlimited := true, tier := "lifetime")
                         else a.(balance := a.balance + credits);
                && accounts == old(accounts)[user := b] && r.value == (b.balance, b.unlimited)
                && ledger == (if lifetime && b != a then old(ledger) + [Entry(user, 0, GodCodeGrant, None, startedAt)]
                              else if !lifetime && credits > 0
                              then old(ledger) + [Entry(user, credits, GodCodeGrant, None, startedAt)]
                              else old(ledger))
      ensures lifetime && owner && user in old(accounts) && 0 < user && Safe(user) && 0 <= credits && Safe(credits)
              ==> r.Some?
      ensures !lifetime && user in old(accounts) && 0 < user && Safe(user) && 0 <= credits
              && 0 <= old(accounts)[user].balance && old(accounts)[user].balance + credits <= MAX_COLUMN
              ==> r.Some?
    {
      hide Admissible, HasRef, LatestGrant;
      if !(Safe(user) && user > 0 && Safe(credits) && credits >= 0) || user !in accounts {
        return None;
      }
      var row := accounts[user];
      if lifetime {
        if !owner {
          return None;
        }
        if !row.unlimited || row.tier != "lifetime" {
          var w := Write(None, Some("lifetime"), Some(true), None,
            Some(Entry(user, 0, GodCodeGrant, None, startedAt)));
          AdmissibleMeans(Contents(), user, w);
          var ok := Save(user, w);
          if !ok {
            return None;
          }
        }
        return Some((row.balance, true));
      }
      var newBalance := BalanceAfterMonthlyGrant(row.balance, credits);
      if newBalance.None? {
        return None;
      }
      if credits > 0 {
        var w := Write(newBalance, None, None, None,
          Some(Entry(user, credits, GodCodeGrant, None, startedAt)));
        AdmissibleMeans(Contents(), user, w);
        var ok := Save(user, w);
        if !ok {
          return None;
        }
      }
      return Some((newBalance.value, row.unlimited));
    }

    method Refill(
      user: UserId, wanted: Option<string>, subscription: Option<Subscription>, startedAt: int, now: int)
      modifies this
      ensures Contents() == Execute(old(Contents()), RefillMonthlyCredits(user, wanted, subscription), startedAt, now)
      ensures Contents() != old(Contents()) <==>
                && user in old(accounts) && subscription.Some?
                && var s, a := subscription.value, old(accounts)[user];
                   var refill := TierCreditRefill(s.tier);
                   && (wanted.None? || wanted.value == "" || wanted.value == s.tier)
                   && (s.status == "active" || (s.status == "trialing" && s.trialEnd.Some? && now < s.trialEnd.value))
                   && s.currentPeriodEnd.Some? && now < s.currentPeriodEnd.value
                   && a.lastRefillAt + 30 * DAY <= now
                   && refill.Some? && 0 < refill.value
                   && 0 <= a.balance && a.balance + refill.value <= MAX_COLUMN
      ensures Contents() != old(Contents()) ==>
                var a, tier := old(accounts)[user], subscription.value.tier;
                var refill := Or(TierCreditRefill(tier), 0);
                && accounts == old(accounts)[user :=
                     a.(balance := a.balance + refill, tier := tier, lastRefillAt := now)]
                && ledger == old(ledger) + [Entry(user, refill, SubscriptionGrant, None, startedAt)]
    {
      hide Admissible, HasRef, LatestGrant, TierCreditRefill;
      if user !in accounts {
        return;
      }
      var credits := accounts[user];
      var effectiveTier := if subscription.Some? then subscription.value.tier else "free";
      if wanted.Some? && wanted.value != "" && wanted.value != effectiveTier {
        return;
      }
      if subscription.None? || !Paying(subscription.value, now) {
        return;
      }
      var refillAmount := TierCreditRefill(effectiveTier);
      if refillAmount.None? || refillAmount.value <= 0 {
        return;
      }
      if now - credits.lastRefillAt < 30 * DAY {
        return;
      }
      var newBalance := BalanceAfterMonthlyGrant(credits.balance, refillAmount.value);
      if newBalance.Some? {
        var w := Write(newBalance, Some(effectiveTier), None, Some(now),
          Some(Entry(user, refillAmount.value, SubscriptionGrant, None, startedAt)));
        AdmissibleMeans(Contents(), user, w);
        var _ := Save(user, w);
      }
    }

    method Deduct(user: UserId, amount: int, startedAt: int) returns (r: Option<int>)
      modifies this
      ensures Contents() == Execute(old(Contents()), DeductCredits(user, amount), startedAt, startedAt)
      ensures r.Some? <==>
                && 0 < amount && user in old(accounts)
                && var a := old(accounts)[user];
                   a.unlimited || a.tier == "lifetime"
                   || (amount <= MAX_COLUMN + 1 && 0 <= a.balance - amount <= MAX_COLUMN)
      ensures r.Some? ==>
                var a := old(accounts)[user];
                var paid := if a.unlimited || a.tier == "lifetime" then 0 else amount;
                && accounts == old(accounts)[user := a.(balance := a.balance - paid)]
                && ledger == old(ledger) + [Entry(user, -paid, BuildUsage, None, startedAt)]
                && r.value == a.balance - paid
      ensures r.None? ==> Contents() == old(Contents())
    {
      hide Admissible, HasRef, LatestGrant;
      if amount <= 0 || user !in accounts {
        return None;
      }
      var credits := accounts[user];
      if credits.unlimited || credits.tier == "lifetime" {
        var w := Write(None, None, None, None, Some(Entry(user, 0, BuildUsage, None, startedAt)));
        AdmissibleMeans(Contents(), user, w);
        var logged := Save(user, w);
        return if logged then Some(credits.balance) else None;
      }
      if credits.balance < amount {
        return None;
      }
      var newBalance := credits.balance - amount;
      var w := Write(Some(newBalance), None, None, None,
        Some(Entry(user, -amount, BuildUsage, None, startedAt)));
      AdmissibleMeans(Contents(), user, w);
      var ok := Save(user, w);
      return if ok then Some(newBalance) else None;
    }

    method Add(user: UserId, amount: int, kind: Kind, ref: Option<string>, startedAt: int)
      returns (r: Option<(int, bool)>)
      modifies this
      ensures Contents() == Execute(old(Contents()), AddCredits(user, amount, kind, ref), startedAt, startedAt)
      ensures r.Some? ==> r.value.0 == if user in accounts then accounts[user].balance else 0
      ensures r.Some? && r.value.1 ==> Contents() == old(Contents())
      ensures r.Some? && r.value.1 <==>
                0 < amount && ref.Some? && ref.value != "" && HasRef(old(ledger), ref.value)
      ensures r.Some? && !r.value.1 ==>
                && user in old(accounts)
                && var a := old(accounts)[user];
                   && accounts == old(accounts)[user := a.(balance := a.balance + amount)]
                   && ledger == old(ledger) + [Entry(user, amount, kind, ref, startedAt)]
      ensures r.None? ==> Contents() == old(Contents())
      ensures 0 < amount && user in old(accounts) && (ref.None? || !HasRef(old(ledger), ref.value))
              && 0 <= old(accounts)[user].balance && old(accounts)[user].balance + amount <= MAX_COLUMN
              ==> r.Some?
    {
      hide Admissible, HasRef, LatestGrant;
      if amount <= 0 {
        return None;
      }
      if ref.Some? && ref.value != "" && HasRef(ledger, ref.value) {
        return Some((if user in accounts then accounts[user].balance else 0, true));
      }
      if user !in accounts {
        return None;
      }
      var newBalance := BalanceAfterMonthlyGrant(accounts[user].balance, amount);
      if newBalance.None? {
        return None;
      }
      var w := Write(newBalance, None, None, None, Some(Entry(user, amount, kind, ref, startedAt)));
      AdmissibleMeans(Contents(), user, w);
      var ok := Save(user, w);
      return if ok then Some((newBalance.value, false)) else None;
    }

    method GrantPlan(user: UserId, tier: string, key: Option<string>, calledAt: int, startedAt: int)
      returns (r: Option<(int, bool)>)
      modifies this
      ensures Contents() == Execute(old(Contents()), GrantPlanCredits(user, tier, key, calledAt), startedAt, startedAt)
      ensures r.Some? && r.value.1 ==> Contents() == old(Contents()) && r.value.0 == 0
      ensures r.Some? && !r.value.1 ==>
                && user in old(accounts) && r.value.0 == Or(TierCreditRefill(tier), 0)
                && var a := old(accounts)[user];
                   && accounts == old(accounts)[user :=
                        a.(balance := a.balance + r.value.0, tier := tier, lastRefillAt := calledAt)]
                   && ledger == (if TierCreditRefill(tier).None? then old(ledger)
                                 else old(ledger) + [Entry(user, r.value.0, SubscriptionGrant, key, startedAt)])
      ensures r.None? ==> Contents() == old(Contents())
      ensures r.Some? && r.value.1 <==>
                || user !in old(accounts)
                || (key.Some? && key.value != "" && HasRef(old(ledger), key.value))
                || (TierCreditRefill(tier).Some? && tier != "free" && old(accounts)[user].tier == tier
                    && GrantedWithin(old(ledger), user, calledAt))
      ensures user in old(accounts) && (key.None? || !HasRef(old(ledger), key.value))
              && 0 <= old(accounts)[user].balance
              && old(accounts)[user].balance + Or(TierCreditRefill(tier), 0) <= MAX_COLUMN
              ==> r.Some?
    {
      hide Admissible, HasRef, LatestGrant, TierCreditRefill, GrantedWithin, BalanceAfterMonthlyGrant;
      var refillAmount := TierCreditRefill(tier);
      if key.Some? && key.value != "" && HasRef(ledger, key.value) {
        return Some((0, true));
      }
      if user !in accounts {
        return Some((0, true));
      }
      var credits := accounts[user];
      var recentGrant := LatestGrant(ledger, user);
      GrantedWithinMeans(ledger, user, calledAt);
      if recentGrant.Some? && refillAmount.Some? {
        var samePaidTier := credits.tier == tier && tier != "free";
        if samePaidTier && calledAt - recentGrant.value < 25 * DAY {
          return Some((0, true));
        }
      }
      if refillAmount.None? {
        var w := Write(None, Some(tier), None, Some(calledAt), None);
        AdmissibleMeans(Contents(), user, w);
        var moved := Save(user, w);
        return if moved then Some((0, false)) else None;
      }
      var newBalance := BalanceAfterMonthlyGrant(credits.balance, refillAmount.value);
      if newBalance.None? {
        return None;
      }
      var w := Write(newBalance, Some(tier), None, Some(calledAt),
        Some(Entry(user, refillAmount.value, SubscriptionGrant, key, startedAt)));
      AdmissibleMeans(Contents(), user, w);
      var ok := Save(user, w);
      return if ok then Some((refillAmount.value, false)) else None;
    }
  }
}
