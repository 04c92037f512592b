/**
 The lease protocol of `processBillingEventOnce`, the module text emitted by
 src/lib/billingScaffoldTemplates.ts: claim, heartbeat, takeover, finalize or fail one row.
 */
module BillingEventLease {
  import opened Wrappers

  /** Milliseconds; a claim is taken over only once it is strictly older. */
  const BILLING_EVENT_LEASE_MS := 5 * 60 * 1000

  /** One call of `processBillingEventOnce`, named by its random claim owner. */
  type Worker = nat

  datatype Status = Processing | Processed | Failed

  datatype Row = Row(status: Status, owner: Option<Worker>, updatedAt: int)

  // ----- the four statements, as functions of the row -----

  predicate Claimable(row: Option<Row>, at: int) {
    || row.None?
    || row.value.status == Failed
    || (row.value.status == Processing && row.value.updatedAt < at - BILLING_EVENT_LEASE_MS)
  }

  predicate HeldBy(row: Option<Row>, w: Worker) {
    row.Some? && row.value.owner == Some(w) && row.value.status == Processing
  }

  function AfterClaim(row: Option<Row>, w: Worker, at: int): Option<Row> {
    if Claimable(row, at) then Some(Row(Processing, Some(w), at)) else row
  }

  function AfterRenew(row: Option<Row>, w: Worker, at: int): Option<Row> {
    if HeldBy(row, w) then Some(row.value.(updatedAt := at)) else row
  }

  function AfterEnd(row: Option<Row>, w: Worker, at: int, status: Status): Option<Row> {
    if HeldBy(row, w) then Some(Row(status, None, at)) else row
  }

  datatype Outcome = Duplicate | Completed | Threw

  /** The row of one event id and the statements that touch it. */
  class BillingEvent {
    var row: Option<Row>

    constructor ()
      ensures row == None
    {
      row := None;
    }

    method Claim(owner: Worker, at: int) returns (claimed: bool)
      modifies this
      ensures row == AfterClaim(old(row), owner, at)
      ensures claimed <==> Claimable(old(row), at)
      ensures claimed <==>
                || old(row).None? || old(row).value.status == Failed
                || (old(row).value.status == Processing && old(row).value.updatedAt + BILLING_EVENT_LEASE_MS < at)
      ensures row == if claimed then Some(Row(Processing, Some(owner), at)) else old(row)
    {
      if row == None {
        row := Some(Row(Processing, Some(owner), at));
        return true;
      }
      var found := row.value;
      if found.status == Failed || (found.status == Processing && found.updatedAt < at - BILLING_EVENT_LEASE_MS) {
        row := Some(found.(status := Processing, owner := Some(owner), updatedAt := at));
        return true;
      }
      return false;
    }

    method RenewLease(owner: Worker, at: int)
      modifies this
      ensures row == AfterRenew(old(row), owner, at)
      ensures row == if old(row).Some? && old(row).value.status == Processing && old(row).value.owner == Some(owner)
                     then Some(Row(Processing, Some(owner), at)) else old(row)
    {
      if row.Some? && row.value.owner == Some(owner) && row.value.status == Processing {
        row := Some(row.value.(updatedAt := at));
      }
    }

    /** `UPDATE ... RETURNING id` with the final status. */
    method End(owner: Worker, at: int, status: Status) returns (found: bool)
      modifies this
      ensures row == AfterEnd(old(row), owner, at, status)
      ensures found <==> HeldBy(old(row), owner)
      ensures found <==>
                old(row).Some? && old(row).value.status == Processing && old(row).value.owner == Some(owner)
      ensures row == if found then Some(Row(status, None, at)) else old(row)
    {
      found := row.Some? && row.value.owner == Some(owner) && row.value.status == Processing;
      if found {
        row := Some(row.value.(status := status, owner := None, updatedAt := at));
      }
    }

    /**
     One call from start to end. Other calls may leave any row behind while the handler runs;
     that row is a parameter, like the handler's outcome and the database clock of each statement.
     */
    method ProcessBillingEventOnce(
      owner: Worker, claimedAt: int, handlerOk: bool, meanwhile: Option<Row>, endedAt: int)
      returns (outcome: Outcome)
      modifies this
      ensures outcome == Duplicate <==> !Claimable(old(row), claimedAt)
      ensures outcome == Duplicate ==> row == old(row)
      ensures outcome == Completed <==> Claimable(old(row), claimedAt) && handlerOk && HeldBy(meanwhile, owner)
      ensures outcome == Completed ==> row == Some(Row(Processed, None, endedAt))
      ensures outcome == Threw ==>
                row == if HeldBy(meanwhile, owner) then Some(Row(Failed, None, endedAt)) else meanwhile
    {
      var claimed := Claim(owner, claimedAt);
      if !claimed {
        return Duplicate;
      }
      row := meanwhile;
      if handlerOk {
        var finalized := End(owner, endedAt, Processed);
        if finalized {
          return Completed;
        }
      }
      var _ := End(owner, endedAt, Failed);
      return Threw;
    }
  }

  // ----- many calls at once -----

  datatype Phase =
    | Idle
    | Claimed
    | Handling
    | Finalizing
    | Failing
    | Returned(duplicate: bool)
    | Thrown
    | Crashed

  /** `renewed` holds the clock each worker last wrote to the row; `finished` whose handler returned. */
  datatype State = State(
    row: Option<Row>, now: int, phases: map<Worker, Phase>, renewed: map<Worker, int>, finished: set<Worker>)

  /**
   A statement reads the clock when its transaction starts, so `at` may lie in the past. A lost
   statement took effect but its reply did not arrive; an unsent one had no effect.
   */
  datatype Action =
    | Tick(elapsed: nat)
    | Claim(worker: Worker, at: int, lost: bool)
    | Start(worker: Worker)
    | HandlerReturns(worker: Worker)
    | HandlerThrows(worker: Worker)
    | Renew(worker: Worker, at: int)
    | Finalize(worker: Worker, at: int, lost: bool)
    | FinalizeUnsent(worker: Worker)
    | Fail(worker: Worker, at: int)
    | FailUnsent(worker: Worker)
    | Crash(worker: Worker)

  function PhaseOf(s: State, w: Worker): Phase {
    if w in s.phases then s.phases[w] else Idle
  }

  function Enter(s: State, w: Worker, phase: Phase): State {
    s.(phases := s.phases[w := phase])
  }

  predicate Enabled(s: State, a: Action) {
    match a
    case Tick(_) => true
    case Claim(w, at, _) => PhaseOf(s, w) == Idle && at <= s.now
    case Start(w) => PhaseOf(s, w) == Claimed
    case HandlerReturns(w) => PhaseOf(s, w) == Handling
    case HandlerThrows(w) => PhaseOf(s, w) == Handling
    case Renew(w, at) => PhaseOf(s, w) != Idle && at <= s.now
    case Finalize(w, at, _) => PhaseOf(s, w) == Finalizing && at <= s.now
    case FinalizeUnsent(w) => PhaseOf(s, w) == Finalizing
    case Fail(w, at) => PhaseOf(s, w) == Failing && at <= s.now
    case FailUnsent(w) => PhaseOf(s, w) == Failing
    case Crash(w) => PhaseOf(s, w) != Idle
  }

  function Step(s: State, a: Action): State {
    if !Enabled(s, a) then s
    else
      match a
      case Tick(elapsed) => s.(now := s.now + elapsed)
      case Claim(w, at, lost) =>
        if Claimable(s.row, at) then
          Enter(s, w, if lost then Thrown else Claimed).(row := AfterClaim(s.row, w, at), renewed := s.renewed[w := at])
        else
          Enter(s, w, if lost then Thrown else Returned(true))
      case Start(w) => Enter(s, w, Handling)
      case HandlerReturns(w) => Enter(s, w, Finalizing).(finished := s.finished + {w})
      case HandlerThrows(w) => Enter(s, w, Failing)
      case Renew(w, at) =>
        s.(row := AfterRenew(s.row, w, at), renewed := if HeldBy(s.row, w) then s.renewed[w := at] else s.renewed)
      case Finalize(w, at, lost) =>
        Enter(s, w, if HeldBy(s.row, w) && !lost then Returned(false) else Failing)
        .(row := AfterEnd(s.row, w, at, Processed))
      case FinalizeUnsent(w) => Enter(s, w, Failing)
      case Fail(w, at) => Enter(s, w, Thrown).(row := AfterEnd(s.row, w, at, Failed))
      case FailUnsent(w) => Enter(s, w, Thrown)
      case Crash(w) => Enter(s, w, Crashed)
  }

  function Run(s: State, actions: seq<Action>): State {
    if actions == [] then s else Step(Run(s, actions[..|actions| - 1]), actions[|actions| - 1])
  }

  function Fresh(now: int): State {
    State(None, now, map[], map[], {})
  }

  // ----- the invariant -----

  /** The handler of a worker runs or is about to run. */
  predicate Inside(phase: Phase) {
    phase == Claimed || phase == Handling
  }

  predicate Overdue(s: State, w: Worker) {
    w in s.renewed && s.renewed[w] < s.now - BILLING_EVENT_LEASE_MS
  }

  predicate RowOk(s: State) {
    s.row.Some? ==>
      && (s.row.value.status == Processing <==> s.row.value.owner.Some?)
      && (s.row.value.owner.Some? ==>
            var w := s.row.value.owner.value;
            PhaseOf(s, w) != Idle && w in s.renewed && s.renewed[w] == s.row.value.updatedAt)
      && (s.row.value.status == Processed ==> s.finished != {})
  }

  ghost predicate WorkersOk(s: State) {
    && (forall w :: w in s.phases && Inside(s.phases[w]) && !HeldBy(s.row, w) ==> Overdue(s, w))
    && (forall w :: w in s.phases && s.phases[w] == Finalizing ==> w in s.finished)
    && (forall w :: w in s.phases && s.phases[w] == Returned(false) ==>
          w in s.finished && s.row.Some? && s.row.value.status == Processed)
    && (forall v, w ::
          v in s.phases && w in s.phases && s.phases[v] == Returned(false) && s.phases[w] == Returned(false) ==>
            v == w)
  }

  ghost predicate Inv(s: State) {
    RowOk(s) && WorkersOk(s)
  }

  lemma StepRowOk(s: State, a: Action)
    requires Inv(s)
    ensures RowOk(Step(s, a))
  {
    if a.Finalize? && Enabled(s, a) && HeldBy(s.row, a.worker) {
      assert a.worker in s.finished;
    }
  }

  /** A call inside its handler that does not hold the row is overdue. */
  predicate OverdueOk(s: State, w: Worker) {
    Inside(PhaseOf(s, w)) && !HeldBy(s.row, w) ==> Overdue(s, w)
  }

  lemma StepOverdue(s: State, a: Action, w: Worker)
    requires RowOk(s) && OverdueOk(s, w)
    ensures OverdueOk(Step(s, a), w)
  {
  }

  lemma StepFinished(s: State, a: Action, w: Worker)
    requires Inv(s) && w in Step(s, a).phases
    ensures Step(s, a).phases[w] == Finalizing ==> w in Step(s, a).finished
    ensures Step(s, a).phases[w] == Returned(false) ==>
              && w in Step(s, a).finished && Step(s, a).row.Some? && Step(s, a).row.value.status == Processed
              && ((w in s.phases && s.phases[w] == Returned(false))
                  || (a.Finalize? && a.worker == w && HeldBy(s.row, w)))
  {
    if w in s.phases && s.phases[w] == Returned(false) {
      StepProcessed(s, a);
    }
  }

  lemma StepInv(s: State, a: Action)
    requires Inv(s)
    ensures Inv(Step(s, a))
  {
    hide RowOk, Step, Overdue;
    var s' := Step(s, a);
    StepRowOk(s, a);
    forall w | w in s'.phases && Inside(s'.phases[w]) && !HeldBy(s'.row, w) ensures Overdue(s', w) {
      StepOverdue(s, a, w);
    }
    forall w | w in s'.phases
      ensures s'.phases[w] == Finalizing ==> w in s'.finished
      ensures s'.phases[w] == Returned(false) ==>
                && w in s'.finished && s'.row.Some? && s'.row.value.status == Processed
                && ((w in s.phases && s.phases[w] == Returned(false))
                    || (a.Finalize? && a.worker == w && HeldBy(s.row, w)))
    {
      StepFinished(s, a, w);
    }
  }

  lemma {:induction false} RunInv(now: int, actions: seq<Action>)
    ensures Inv(Run(Fresh(now), actions))
  {
    hide Inv, Step;
    if actions == [] {
      FreshInv(now);
    } else {
      RunInv(now, actions[..|actions| - 1]);
      StepInv(Run(Fresh(now), actions[..|actions| - 1]), actions[|actions| - 1]);
    }
  }

  lemma FreshInv(now: int)
    ensures Inv(Fresh(now))
  {
  }

  // ----- exactly one completion, whatever the timing -----

  /** A claim owner is recorded exactly while the event is being processed. */
  lemma {:induction false} OwnerIffProcessing(now: int, actions: seq<Action>)
    ensures var s := Run(Fresh(now), actions);
            s.row.Some? ==> (s.row.value.owner.Some? <==> s.row.value.status == Processing)
  {
    hide Run;
    RunInv(now, actions);
  }

  lemma StepProcessed(s: State, a: Action)
    requires s.row.Some? && s.row.value.status == Processed
    ensures Step(s, a).row == s.row
  {
  }

  /** Once processed, the row never changes again. */
  lemma {:induction false} ProcessedIsAbsorbing(s: State, actions: seq<Action>)
    requires s.row.Some? && s.row.value.status == Processed
    ensures Run(s, actions).row == s.row
  {
    hide Step;
    if actions != [] {
      ProcessedIsAbsorbing(s, actions[..|actions| - 1]);
      StepProcessed(Run(s, actions[..|actions| - 1]), actions[|actions| - 1]);
    }
  }

  /**
   At most one call reports the event as newly processed, only after its own handler returned,
   and then the row says so; a processed row always had a handler that returned.
   */
  lemma AtMostOneCompletes(now: int, actions: seq<Action>, v: Worker, w: Worker)
    ensures var s := Run(Fresh(now), actions);
            && (PhaseOf(s, v) == Returned(false) ==>
                  v in s.finished && s.row.Some? && s.row.value.status == Processed)
            && (PhaseOf(s, v) == Returned(false) && PhaseOf(s, w) == Returned(false) ==> v == w)
            && (s.row.Some? && s.row.value.status == Processed ==> s.finished != {})
  {
    hide Run;
    RunInv(now, actions);
  }

  lemma StepWithoutClaim(s: State, a: Action, w: Worker)
    requires PhaseOf(s, w) != Idle && !HeldBy(s.row, w)
    ensures PhaseOf(Step(s, a), w) != Idle && !HeldBy(Step(s, a).row, w)
    ensures !a.Tick? && a.worker == w ==> Step(s, a).row == s.row
  {
  }

  /** A call that lost its claim never holds the row again and none of its statements changes it. */
  lemma {:induction false} LostForGood(s: State, w: Worker, actions: seq<Action>, a: Action)
    requires PhaseOf(s, w) != Idle && !HeldBy(s.row, w)
    ensures var later := Run(s, actions);
            && PhaseOf(later, w) != Idle && !HeldBy(later.row, w)
            && (!a.Tick? && a.worker == w ==> Step(later, a).row == later.row)
  {
    hide Step;
    if actions != [] {
      LostForGood(s, w, actions[..|actions| - 1], a);
      StepWithoutClaim(Run(s, actions[..|actions| - 1]), actions[|actions| - 1], w);
    }
    StepWithoutClaim(Run(s, actions), a, w);
  }

  // ----- mutual exclusion within the lease -----

  /** Every call inside its handler has renewed within the lease. */
  ghost predicate AllTimely(s: State) {
    forall w :: w in s.phases && s.phases[w] == Handling ==> !Overdue(s, w)
  }

  /**
   In every state of every interleaving, a call inside its handler holds the row unless it is
   overdue; so while all of them renew within the lease, no two are inside at once.
   */
  lemma MutualExclusion(now: int, actions: seq<Action>, v: Worker, w: Worker)
    ensures var s := Run(Fresh(now), actions);
            && (PhaseOf(s, w) == Handling ==> HeldBy(s.row, w) || Overdue(s, w))
            && (AllTimely(s) && PhaseOf(s, v) == Handling && PhaseOf(s, w) == Handling ==> v == w)
  {
    hide Run, RowOk, Overdue;
    RunInv(now, actions);
    var s := Run(Fresh(now), actions);
    if PhaseOf(s, w) == Handling {
      assert Inside(s.phases[w]);
    }
    if PhaseOf(s, v) == Handling {
      assert Inside(s.phases[v]);
    }
  }

  /** The row of a running call can be claimed by another only when that call is overdue. */
  lemma TakeoverOnlyWhenOverdue(now: int, actions: seq<Action>, w: Worker, at: int)
    requires var s := Run(Fresh(now), actions);
             && at <= s.now && s.row.Some? && s.row.value.status == Processing && s.row.value.owner != Some(w)
             && Claimable(s.row, at)
    ensures var s := Run(Fresh(now), actions);
            s.row.value.owner.Some? && Overdue(s, s.row.value.owner.value)
  {
    hide Run;
    RunInv(now, actions);
  }

  /** Without timely heartbeats two handlers do overlap. */
  lemma OverlapWithoutHeartbeats()
    ensures var s := Run(Fresh(0), [Claim(0, 0, false), Start(0), Tick(BILLING_EVENT_LEASE_MS + 1),
                                    Claim(1, BILLING_EVENT_LEASE_MS + 1, false), Start(1)]);
            PhaseOf(s, 0) == Handling && PhaseOf(s, 1) == Handling
  {
    var a := [Claim(0, 0, false), Start(0), Tick(BILLING_EVENT_LEASE_MS + 1),
              Claim(1, BILLING_EVENT_LEASE_MS + 1, false), Start(1)];
    var s0 := Fresh(0);
    assert a[..4][..3] == a[..3] && a[..3][..2] == a[..2] && a[..2][..1] == a[..1] && a[..1][..0] == [];
    assert Run(s0, a[..1]) == Step(s0, a[0]);
    assert Run(s0, a[..2]) == Step(Run(s0, a[..1]), a[1]);
    assert Run(s0, a[..3]) == Step(Run(s0, a[..2]), a[2]);
    assert Run(s0, a[..4]) == Step(Run(s0, a[..3]), a[3]);
    assert Run(s0, a) == Step(Run(s0, a[..4]), a[4]);
  }

  // ----- what a call achieves -----

  /** A call alone: it claims, and its handler decides how the event ends. */
  lemma CallAlone(s: State, w: Worker, handlerOk: bool)
    requires PhaseOf(s, w) == Idle
    requires s.row.None? || s.row.value.status == Failed
             || (s.row.value.status == Processing && s.row.value.updatedAt + BILLING_EVENT_LEASE_MS < s.now)
    ensures var t := if handlerOk
                     then Run(s, [Claim(w, s.now, false), Start(w), HandlerReturns(w), Finalize(w, s.now, false)])
                     else Run(s, [Claim(w, s.now, false), Start(w), HandlerThrows(w), Fail(w, s.now)]);
            && PhaseOf(t, w) == (if handlerOk then Returned(false) else Thrown)
            && t.row == Some(Row(if handlerOk then Processed else Failed, None, s.now))
  {
    hide Run, Step;
    var third := if handlerOk then HandlerReturns(w) else HandlerThrows(w);
    var fourth := if handlerOk then Finalize(w, s.now, false) else Fail(w, s.now);
    var a := [Claim(w, s.now, false), Start(w), third, fourth];
    assert a[..3][..2] == a[..2] && a[..2][..1] == a[..1] && a[..1][..0] == [];
    RunSnoc(s, a[..1]);
    RunSnoc(s, a[..2]);
    RunSnoc(s, a[..3]);
    RunSnoc(s, a);
    AloneSteps(s, w, handlerOk);
  }

  lemma RunSnoc(s: State, actions: seq<Action>)
    ensures Run(s, []) == s
    ensures actions != [] ==> Run(s, actions) == Step(Run(s, actions[..|actions| - 1]), actions[|actions| - 1])
  {
    hide Step;
  }

  lemma AloneSteps(s: State, w: Worker, handlerOk: bool)
    requires PhaseOf(s, w) == Idle && Claimable(s.row, s.now)
    ensures var handling := Step(Step(s, Claim(w, s.now, false)), Start(w));
            var t := if handlerOk then Step(Step(handling, HandlerReturns(w)), Finalize(w, s.now, false))
                     else Step(Step(handling, HandlerThrows(w)), Fail(w, s.now));
            && PhaseOf(t, w) == (if handlerOk then Returned(false) else Thrown)
            && t.row == Some(Row(if handlerOk then Processed else Failed, None, s.now))
  {
  }

  /** The clock a worker last wrote by renewing, or the row's when the run begins. */
  function LastBeat(s: State, actions: seq<Action>, w: Worker): int
    requires s.row.Some?
  {
    if actions == [] then s.row.value.updatedAt
    else
      var n := |actions| - 1;
      if actions[n].Renew? && actions[n].worker == w && actions[n].at <= Run(s, actions[..n]).now then actions[n].at
      else LastBeat(s, actions[..n], w)
  }

  /** The worker neither ends its claim nor lets a lease pass without renewing it. */
  predicate Beats(s: State, actions: seq<Action>, w: Worker)
    requires s.row.Some?
  {
    && Run(s, actions).now <= LastBeat(s, actions, w) + BILLING_EVENT_LEASE_MS
    && (actions == [] ||
        (Beats(s, actions[..|actions| - 1], w) &&
         !(actions[|actions| - 1].Finalize? && actions[|actions| - 1].worker == w) &&
         !(actions[|actions| - 1].Fail? && actions[|actions| - 1].worker == w)))
  }

  lemma StepKeepsClaim(s: State, a: Action, w: Worker)
    requires PhaseOf(s, w) != Idle && HeldBy(s.row, w) && s.now <= s.row.value.updatedAt + BILLING_EVENT_LEASE_MS
    requires !(a.Finalize? && a.worker == w) && !(a.Fail? && a.worker == w)
    ensures PhaseOf(Step(s, a), w) != Idle && HeldBy(Step(s, a).row, w)
    ensures Step(s, a).row.value.updatedAt ==
            if a.Renew? && a.worker == w && a.at <= s.now then a.at else s.row.value.updatedAt
  {
  }

  /** A call that renews in time keeps its claim, whatever all others do. */
  lemma {:induction false} HeartbeatKeepsClaim(s: State, w: Worker, actions: seq<Action>)
    requires PhaseOf(s, w) != Idle && HeldBy(s.row, w) && Beats(s, actions, w)
    ensures var t := Run(s, actions);
            PhaseOf(t, w) != Idle && HeldBy(t.row, w) && t.row.value.updatedAt == LastBeat(s, actions, w)
  {
    HeldMeans(s.row, w);
    hide Step, PhaseOf, HeldBy;
    if actions == [] {
    } else {
      var n := |actions| - 1;
      HeartbeatKeepsClaim(s, w, actions[..n]);
      HeldMeans(Run(s, actions[..n]).row, w);
      BeatsNow(s, actions[..n], w);
      StepKeepsClaim(Run(s, actions[..n]), actions[n], w);
    }
  }

  lemma BeatsNow(s: State, actions: seq<Action>, w: Worker)
    requires s.row.Some? && Beats(s, actions, w)
    ensures Run(s, actions).now <= LastBeat(s, actions, w) + BILLING_EVENT_LEASE_MS
  {
    hide Run, LastBeat;
  }

  lemma HeldMeans(row: Option<Row>, w: Worker)
    requires HeldBy(row, w)
    ensures row.Some?
  {
  }

  /** A new call that claims after waiting for some time. */
  predicate ClaimsAfter(s: State, w: Worker, wait: nat) {
    PhaseOf(Step(Step(s, Tick(wait)), Claim(w, s.now + wait, false)), w) == Claimed
  }

  /** How long a new call has to wait: not at all, or until the lease of the last renewal has passed. */
  lemma ClaimsExactly(s: State, w: Worker, wait: nat)
    requires PhaseOf(s, w) == Idle
    ensures ClaimsAfter(s, w, wait) <==>
              || s.row.None? || s.row.value.status == Failed
              || (s.row.value.status == Processing
                  && s.row.value.updatedAt + BILLING_EVENT_LEASE_MS < s.now + wait)
  {
  }

  /** An event is never stuck: a new call can claim it, now or later, exactly when it is not processed. */
  lemma ClaimableAgainIffNotProcessed(s: State, w: Worker)
    requires PhaseOf(s, w) == Idle
    ensures (exists wait: nat :: ClaimsAfter(s, w, wait)) <==>
              s.row.None? || s.row.value.status != Processed
  {
    if s.row.None? || s.row.value.status != Processed {
      var wait := if s.row.Some? && s.row.value.updatedAt >= s.now
                  then s.row.value.updatedAt - s.now + BILLING_EVENT_LEASE_MS + 1
                  else BILLING_EVENT_LEASE_MS + 1;
      assert ClaimsAfter(s, w, wait);
    }
  }
}
