/**
 * Phase 2 of the decision engine: any number of executions of a recommendation or of a manual
 * intervention, interleaved at every await, over the shared lock, sent and budget keys.
 *
 * An execution is numbered by its place in `execs`, and that number serves as its lock token:
 * tokens are random UUIDs, drawn once per execution, so no two executions share one.
 */
module Orchestrator {
  import opened Clock
  import opened Options
  import opened Redis
  import L = LockService
  import B = BudgetService

  /** `executeRecommendation`, or `manualDecide` with or without `overrideCooldown`. */
  datatype Kind = Auto | Manual(overrideCooldown: bool)

  datatype Outcome = Skipped | AlreadySent | LockContention | BudgetExhausted | Completed | Failed | Crashed

  datatype Pc =
    | Begin                     // before the sent guard
    | Guarded                   // the sent guard let it pass
    | Locked                    // holds a token, heartbeat started
    | Reserving(calledAt: int)  // budget script under way, its date already read
    | Reserved
    | Refused                   // automatic path: heartbeat cleared, release still to come
    | Dispatched                // outbound delivery done
    | Marked                    // sent marker written
    | Ended(outcome: Outcome)

  datatype Exec = Exec(
    kind: Kind, user: L.User, storeId: int, value: real, limit: real,
    pc: Pc, granted: bool, heartbeat: bool,
    leaseUntil: int,              // when the lease it was last told it holds runs out
    budgetDate: Option<int>,      // the date its reservation was approved for
    dispatched: bool)
  {
    predicate InPhase2() {
      pc.Locked? || pc.Reserving? || pc.Reserved? || pc.Refused? || pc.Dispatched? || pc.Marked?
    }

    predicate Leased(now: int) {
      granted && now < leaseUntil
    }

    function Request(now: int): B.Request
      requires pc.Reserving?
    {
      B.Request(storeId, value, limit, pc.calledAt, now)
    }

    /** What its approved reservation takes from budget counter `key`. */
    function Charge(key: B.Key): real {
      if budgetDate == Some(key.date) && storeId == key.storeId && value > 0.0 then value else 0.0
    }

    function Delivered(key: B.Key): real {
      if dispatched then Charge(key) else 0.0
    }
  }

  datatype State = State(now: int, keys: L.Keys, counters: B.Counters, execs: seq<Exec>)

  datatype Action =
    | Tick(dt: nat)
    | Purchase(user: L.User)
    | Start(kind: Kind, user: L.User, storeId: int, value: real, limit: real)
    | GiveUp(e: nat)       // recommendation missing, settled or expired, or a cooldown is active
    | ReadSent(e: nat)
    | SkipGuard(e: nat)    // manual override: neither cooldown nor marker is read
    | TryLock(e: nat)
    | CallReserve(e: nat)
    | RunReserve(e: nat)
    | DropRefused(e: nat)
    | Dispatch(e: nat)
    | MarkSent(e: nat)
    | Finish(e: nat)
    | Heartbeat(e: nat)
    | Throw(e: nat)
    | Crash(e: nat)

  predicate OfExec(a: Action) {
    !a.Tick? && !a.Purchase? && !a.Start?
  }

  predicate Enabled(s: State, a: Action) {
    if !OfExec(a) then true
    else a.e < |s.execs| && ExecEnabled(s.execs[a.e], a)
  }

  predicate ExecEnabled(x: Exec, a: Action)
    requires OfExec(a)
  {
    match a
    case GiveUp(_) => x.pc.Begin? && x.kind != Manual(true)
    case ReadSent(_) => x.pc.Begin? && x.kind != Manual(true)
    case SkipGuard(_) => x.pc.Begin? && x.kind == Manual(true)
    case TryLock(_) => x.pc.Guarded?
    case CallReserve(_) => x.pc.Locked?
    case RunReserve(_) => x.pc.Reserving?
    case DropRefused(_) => x.pc.Refused?
    case Dispatch(_) => x.pc.Reserved?
    case MarkSent(_) => x.pc.Dispatched?
    case Finish(_) => x.pc.Marked?
    case Heartbeat(_) => x.heartbeat
    case Throw(_) =>
      || x.pc.Begin? || x.pc.Reserved? || x.pc.Dispatched?
      || (x.pc.Locked? && x.kind.Manual?) || (x.pc.Marked? && x.kind.Auto?)
    case Crash(_) => true
  }

  function Apply(s: State, a: Action): State
    requires Enabled(s, a)
  {
    match a
    case Tick(dt) => s.(now := s.now + dt)
    case Purchase(user) => s.(keys := L.ClearUserSent(s.keys, user))
    case Start(kind, user, storeId, value, limit) =>
      s.(execs := s.execs + [Exec(kind, user, storeId, value, limit, Begin, false, false, s.now, None, false)])
    case _ =>
      var x := s.execs[a.e];
      ApplyExec(s, a, x)
  }

  function With(s: State, e: nat, x: Exec): State
    requires e < |s.execs|
  {
    s.(execs := s.execs[e := x])
  }

  /** Runs the release script for the execution's own user. */
  function Unlock(s: State, e: nat, x: Exec): State
    requires e < |s.execs|
  {
    With(s, e, x.(heartbeat := false, leaseUntil := s.now)).(keys := L.Release(s.keys, x.user, e, s.now))
  }

  function ApplyExec(s: State, a: Action, x: Exec): State
    requires OfExec(a) && a.e < |s.execs| && s.execs[a.e] == x && ExecEnabled(x, a)
  {
    match a
    case GiveUp(e) => With(s, e, x.(pc := Ended(Skipped)))
    case ReadSent(e) =>
      With(s, e, x.(pc := if L.IsSent(s.keys, x.user, s.now) then Ended(AlreadySent) else Guarded))
    case SkipGuard(e) => With(s, e, x.(pc := Guarded))
    case TryLock(e) =>
      if L.Holder(s.keys, x.user, s.now).Some? then With(s, e, x.(pc := Ended(LockContention)))
      else
        With(s, e, x.(pc := Locked, granted := true, heartbeat := true, leaseUntil := s.now + L.USER_LOCK_TTL))
          .(keys := L.Acquire(s.keys, x.user, e, s.now))
    case CallReserve(e) => With(s, e, x.(pc := Reserving(s.now)))
    case RunReserve(e) =>
      var r := x.Request(s.now);
      var x' :=
        if B.Approved(s.counters, r) then x.(pc := Reserved, budgetDate := Some(B.UtcDate(r.calledAt)))
        else if x.kind.Auto? then x.(pc := Refused, heartbeat := false)
        else x.(pc := Ended(BudgetExhausted));
      With(s, e, x').(counters := B.After(s.counters, r))
    case DropRefused(e) => Unlock(s, e, x.(pc := Ended(BudgetExhausted)))
    case Dispatch(e) => With(s, e, x.(pc := Dispatched, dispatched := true))
    case MarkSent(e) => With(s, e, x.(pc := Marked)).(keys := L.MarkSent(s.keys, x.user, s.now))
    case Finish(e) => Unlock(s, e, x.(pc := Ended(Completed)))
    case Heartbeat(e) =>
      if L.Holder(s.keys, x.user, s.now) == Some(e)
      then With(s, e, x.(leaseUntil := s.now + L.USER_LOCK_TTL)).(keys := L.Renew(s.keys, x.user, e, s.now))
      else s   // the loss is logged, nothing more
    case Throw(e) =>
      if !x.granted then With(s, e, x.(pc := Ended(Failed)))
      else if x.kind.Manual? then Unlock(s, e, x.(pc := Ended(Failed)))
      else // the automatic path releases user -1 whoever the user is
        var s' := With(s, e, x.(pc := Ended(Failed), heartbeat := false,
                                leaseUntil := if x.user == -1 then s.now else x.leaseUntil));
        s'.(keys := L.Release(s.keys, -1, e, s.now))
    case Crash(e) => With(s, e, x.(heartbeat := false, pc := if x.pc.Ended? then x.pc else Ended(Crashed)))
  }

  predicate Init(s: State) {
    s.keys == L.Keys(map[], map[]) && s.counters == map[] && s.execs == []
  }

  predicate Connected(ss: seq<State>, acts: seq<Action>) {
    && |ss| == |acts| + 1
    && forall i | 0 <= i < |acts| :: Enabled(ss[i], acts[i]) && ss[i + 1] == Apply(ss[i], acts[i])
  }

  predicate IsRun(ss: seq<State>, acts: seq<Action>) {
    Connected(ss, acts) && Init(ss[0])
  }

  // ----- The lease -----

  ghost predicate LeaseInv(s: State) {
    && (forall i | 0 <= i < |s.execs| :: LeaseInvExec(s, i))
    && (forall u | u in s.keys.lock :: LeaseInvKey(s, u))
  }

  ghost predicate LeaseInvExec(s: State, i: nat)
    requires i < |s.execs|
  {
    var x := s.execs[i];
    && (x.pc.Begin? || x.pc.Guarded? ==> !x.granted)
    && (x.heartbeat ==> x.granted)
    && (x.InPhase2() ==> x.granted)
    && (x.Leased(s.now) ==> x.user in s.keys.lock && s.keys.lock[x.user] == Timed(i, x.leaseUntil))
  }

  ghost predicate LeaseInvKey(s: State, u: L.User)
    requires u in s.keys.lock
  {
    var t := s.keys.lock[u];
    && t.value < |s.execs|
    && s.execs[t.value].user == u
    && s.execs[t.value].granted
    && t.deadline <= s.execs[t.value].leaseUntil
  }

  /** Only its own holder's step changes a live key. */
  lemma OthersLeaveALiveKey(s: State, a: Action, u: L.User)
    requires Enabled(s, a) && u in s.keys.lock && s.now < s.keys.lock[u].deadline
    requires OfExec(a) ==> a.e != s.keys.lock[u].value
    ensures u in Apply(s, a).keys.lock && Apply(s, a).keys.lock[u] == s.keys.lock[u]
  {
  }

  lemma OwnStepKeepsLeaseInv(s: State, a: Action)
    requires OfExec(a) && Enabled(s, a) && LeaseInvExec(s, a.e)
    ensures a.e < |Apply(s, a).execs| && LeaseInvExec(Apply(s, a), a.e)
  {
  }

  lemma OthersStayTheSame(s: State, a: Action, i: nat)
    requires Enabled(s, a) && i < |s.execs| && (OfExec(a) ==> a.e != i)
    ensures |s.execs| <= |Apply(s, a).execs| && Apply(s, a).execs[i] == s.execs[i] && s.now <= Apply(s, a).now
  {
  }

  lemma LeaseInvExecKept(s: State, a: Action, i: nat)
    requires Enabled(s, a) && i < |Apply(s, a).execs|
    requires i < |s.execs| ==> LeaseInvExec(s, i)
    ensures LeaseInvExec(Apply(s, a), i)
  {
    if OfExec(a) && a.e == i {
      OwnStepKeepsLeaseInv(s, a);
    } else if i < |s.execs| {
      var x := s.execs[i];
      OthersStayTheSame(s, a, i);
      if x.Leased(s.now) {
        OthersLeaveALiveKey(s, a, x.user);
      }
    }
  }

  /** A key after a step is as it was, or belongs to the execution that took the step. */
  lemma KeyIsOldOrOwn(s: State, a: Action, u: L.User)
    requires Enabled(s, a) && u in Apply(s, a).keys.lock
    ensures (u in s.keys.lock && Apply(s, a).keys.lock[u] == s.keys.lock[u])
         || (OfExec(a) && Apply(s, a).keys.lock[u].value == a.e)
  {
  }

  lemma OwnKeyIsRecorded(s: State, a: Action, u: L.User)
    requires OfExec(a) && Enabled(s, a) && LeaseInvExec(s, a.e) && u in Apply(s, a).keys.lock
    requires Apply(s, a).keys.lock[u].value == a.e
    requires u in s.keys.lock ==> LeaseInvKey(s, u)
    ensures LeaseInvKey(Apply(s, a), u)
  {
    if a.TryLock? {
      LockTakenIsRecorded(s, a, u);
    } else if a.Heartbeat? {
      RenewedKeyIsRecorded(s, a, u);
    } else {
      KeptKeyIsRecorded(s, a, u);
    }
  }

  lemma LockTakenIsRecorded(s: State, a: Action, u: L.User)
    requires a.TryLock? && Enabled(s, a) && LeaseInvExec(s, a.e) && u in Apply(s, a).keys.lock
    requires Apply(s, a).keys.lock[u].value == a.e
    requires u in s.keys.lock ==> LeaseInvKey(s, u)
    ensures LeaseInvKey(Apply(s, a), u)
  {
  }

  lemma RenewedKeyIsRecorded(s: State, a: Action, u: L.User)
    requires a.Heartbeat? && Enabled(s, a) && LeaseInvExec(s, a.e) && u in Apply(s, a).keys.lock
    requires Apply(s, a).keys.lock[u].value == a.e
    requires u in s.keys.lock ==> LeaseInvKey(s, u)
    ensures LeaseInvKey(Apply(s, a), u)
  {
  }

  lemma KeptKeyIsRecorded(s: State, a: Action, u: L.User)
    requires OfExec(a) && !a.TryLock? && !a.Heartbeat? && Enabled(s, a) && LeaseInvExec(s, a.e)
    requires u in Apply(s, a).keys.lock && Apply(s, a).keys.lock[u].value == a.e
    requires u in s.keys.lock ==> LeaseInvKey(s, u)
    ensures LeaseInvKey(Apply(s, a), u)
  {
  }

  lemma LeaseInvKeyKept(s: State, a: Action, u: L.User)
    requires Enabled(s, a) && u in Apply(s, a).keys.lock
    requires u in s.keys.lock ==> LeaseInvKey(s, u)
    requires OfExec(a) ==> LeaseInvExec(s, a.e)
    ensures LeaseInvKey(Apply(s, a), u)
  {
    KeyIsOldOrOwn(s, a, u);
    if OfExec(a) && Apply(s, a).keys.lock[u].value == a.e {
      OwnKeyIsRecorded(s, a, u);
    } else {
      OthersStayTheSame(s, a, s.keys.lock[u].value);
    }
  }

  lemma LeaseInvKept(s: State, a: Action)
    requires LeaseInv(s) && Enabled(s, a)
    ensures LeaseInv(Apply(s, a))
  {
    var s' := Apply(s, a);
    forall i | 0 <= i < |s'.execs| ensures LeaseInvExec(s', i) {
      LeaseInvExecKept(s, a, i);
    }
    forall u | u in s'.keys.lock ensures LeaseInvKey(s', u) {
      LeaseInvKeyKept(s, a, u);
    }
  }

  lemma {:induction false} LeaseInvHolds(ss: seq<State>, acts: seq<Action>, n: nat)
    requires IsRun(ss, acts) && n < |ss|
    ensures LeaseInv(ss[n])
  {
    if n > 0 {
      LeaseInvHolds(ss, acts, n - 1);
      LeaseInvKept(ss[n - 1], acts[n - 1]);
    }
  }

  /** In every reachable state an execution's own view of its lease is the truth in Redis. */
  lemma LeaseIsTheHeldKey(ss: seq<State>, acts: seq<Action>, n: nat, e: nat)
    requires IsRun(ss, acts) && n < |ss| && e < |ss[n].execs|
    ensures var s, x := ss[n], ss[n].execs[e];
      x.Leased(s.now) <==> L.Holder(s.keys, x.user, s.now) == Some(e)
  {
    LeaseInvHolds(ss, acts, n);
    assert LeaseInvExec(ss[n], e);
    var u := ss[n].execs[e].user;
    if u in ss[n].keys.lock {
      assert LeaseInvKey(ss[n], u);
    }
  }

  /** Two executions for one user are never both under an unexpired lease, in Phase 2 or out of it. */
  lemma LeasesExcludeEachOther(ss: seq<State>, acts: seq<Action>, n: nat, d: nat, e: nat)
    requires IsRun(ss, acts) && n < |ss| && d < |ss[n].execs| && e < |ss[n].execs|
    requires ss[n].execs[d].user == ss[n].execs[e].user
    requires ss[n].execs[d].Leased(ss[n].now) && ss[n].execs[e].Leased(ss[n].now)
    ensures d == e
  {
    LeaseIsTheHeldKey(ss, acts, n, d);
    LeaseIsTheHeldKey(ss, acts, n, e);
  }

  /** What no step changes, and what no step takes back. */
  ghost predicate Extends(x: Exec, x': Exec) {
    && (x'.kind, x'.user, x'.storeId, x'.value, x'.limit) == (x.kind, x.user, x.storeId, x.value, x.limit)
    && (x.granted ==> x'.granted)
    && (x.dispatched ==> x'.dispatched)
    && (x.budgetDate.Some? ==> x'.budgetDate == x.budgetDate)
    && (x.pc.Ended? ==> x'.pc == x.pc && x'.dispatched == x.dispatched)
  }

  ghost predicate DispatchInv(s: State) {
    forall i | 0 <= i < |s.execs| :: DispatchInvExec(s.execs[i], s.now)
  }

  ghost predicate DispatchInvExec(x: Exec, now: int) {
    && (x.pc.Reserved? || x.pc.Dispatched? || x.pc.Marked? ==> x.budgetDate.Some?)
    && (x.pc.Begin? || x.pc.Guarded? || x.pc.Locked? || x.pc.Reserving? || x.pc.Refused? ==>
          x.budgetDate == None && !x.dispatched)
    && (x.pc.Reserved? ==> !x.dispatched)
    && (x.dispatched ==> x.budgetDate.Some?)
    && (x.pc.Reserving? ==> x.pc.calledAt <= now)
  }

  lemma ExecExtends(s: State, a: Action, i: nat)
    requires Enabled(s, a) && i < |s.execs| && DispatchInvExec(s.execs[i], s.now)
    ensures i < |Apply(s, a).execs| && Extends(s.execs[i], Apply(s, a).execs[i])
  {
    if OfExec(a) && a.e == i {
      OwnStepExtends(s, a);
    } else {
      OthersStayTheSame(s, a, i);
    }
  }

  lemma OwnStepExtends(s: State, a: Action)
    requires OfExec(a) && Enabled(s, a) && DispatchInvExec(s.execs[a.e], s.now)
    ensures a.e < |Apply(s, a).execs| && Extends(s.execs[a.e], Apply(s, a).execs[a.e])
  {
  }

  lemma DispatchInvKept(s: State, a: Action, i: nat)
    requires Enabled(s, a) && i < |Apply(s, a).execs| && (i < |s.execs| ==> DispatchInvExec(s.execs[i], s.now))
    ensures DispatchInvExec(Apply(s, a).execs[i], Apply(s, a).now)
  {
    if OfExec(a) && a.e == i {
      OwnStepKeepsDispatchInv(s, a);
    } else if i < |s.execs| {
      OthersStayTheSame(s, a, i);
    }
  }

  lemma OwnStepKeepsDispatchInv(s: State, a: Action)
    requires OfExec(a) && Enabled(s, a) && DispatchInvExec(s.execs[a.e], s.now)
    ensures a.e < |Apply(s, a).execs| && DispatchInvExec(Apply(s, a).execs[a.e], Apply(s, a).now)
  {
    if a.RunReserve? {
      ReservationKeepsDispatchInv(s, a);
    }
  }

  lemma ReservationKeepsDispatchInv(s: State, a: Action)
    requires a.RunReserve? && Enabled(s, a) && DispatchInvExec(s.execs[a.e], s.now)
    ensures a.e < |Apply(s, a).execs| && DispatchInvExec(Apply(s, a).execs[a.e], Apply(s, a).now)
  {
  }

  lemma StepExtends(s: State, a: Action)
    requires DispatchInv(s) && Enabled(s, a)
    ensures DispatchInv(Apply(s, a))
    ensures s.now <= Apply(s, a).now && |s.execs| <= |Apply(s, a).execs|
    ensures forall i | 0 <= i < |s.execs| :: Extends(s.execs[i], Apply(s, a).execs[i])
  {
    var s' := Apply(s, a);
    forall i | 0 <= i < |s'.execs| ensures DispatchInvExec(s'.execs[i], s'.now) {
      assert i < |s.execs| ==> DispatchInvExec(s.execs[i], s.now);
      DispatchInvKept(s, a, i);
    }
    forall i | 0 <= i < |s.execs| ensures i < |s'.execs| && Extends(s.execs[i], s'.execs[i]) {
      assert DispatchInvExec(s.execs[i], s.now);
      ExecExtends(s, a, i);
    }
  }

  lemma {:induction false} RunExtends(ss: seq<State>, acts: seq<Action>, m: nat, n: nat)
    requires IsRun(ss, acts) && m <= n < |ss|
    ensures DispatchInv(ss[n])
    ensures ss[m].now <= ss[n].now && |ss[m].execs| <= |ss[n].execs|
    ensures forall i | 0 <= i < |ss[m].execs| :: Extends(ss[m].execs[i], ss[n].execs[i])
    decreases n
  {
    if n > 0 {
      RunExtends(ss, acts, if m < n then m else n - 1, n - 1);
      StepExtends(ss[n - 1], acts[n - 1]);
    }
  }

  lemma LapsedStep(s: State, a: Action, e: nat)
    requires Enabled(s, a) && e < |s.execs| && LeaseInvExec(s, e)
    requires s.execs[e].granted && !s.execs[e].Leased(s.now)
    requires L.Holder(s.keys, s.execs[e].user, s.now) != Some(e)
    ensures !Apply(s, a).execs[e].Leased(Apply(s, a).now)
  {
  }

  lemma LapsedEffect(s: State, a: Action, e: nat)
    requires Enabled(s, a) && e < |s.execs| && s.execs[e].granted
    requires L.Holder(s.keys, s.execs[e].user, s.now) != Some(e)
    requires L.Holder(s.keys, -1, s.now) != Some(e)
    ensures a == Heartbeat(e) ==> Apply(s, a) == s
    ensures a in {DropRefused(e), Finish(e), Throw(e)} ==> Apply(s, a).keys.lock == s.keys.lock
  {
  }

  /**
   * A lost lease is never regained: from then on the execution never holds the key again, each of
   * its heartbeats changes nothing, and ending it leaves everybody's lock alone.
   */
  lemma {:induction false} LostLeaseStaysLost(ss: seq<State>, acts: seq<Action>, m: nat, n: nat, e: nat)
    requires IsRun(ss, acts) && m <= n < |ss| && e < |ss[m].execs|
    requires ss[m].execs[e].granted && !ss[m].execs[e].Leased(ss[m].now)
    ensures e < |ss[n].execs| && ss[n].execs[e].granted
    ensures !ss[n].execs[e].Leased(ss[n].now)
    ensures L.Holder(ss[n].keys, ss[n].execs[e].user, ss[n].now) != Some(e)
    ensures n < |acts| && acts[n] == Heartbeat(e) ==> ss[n + 1] == ss[n]
    ensures n < |acts| && acts[n] in {DropRefused(e), Finish(e), Throw(e)} ==> ss[n + 1].keys.lock == ss[n].keys.lock
    decreases n
  {
    RunExtends(ss, acts, m, n);
    assert Extends(ss[m].execs[e], ss[n].execs[e]);
    if m < n {
      LostLeaseStaysLost(ss, acts, m, n - 1, e);
      LeaseInvHolds(ss, acts, n - 1);
      LapsedStep(ss[n - 1], acts[n - 1], e);
    }
    LeaseIsTheHeldKey(ss, acts, n, e);
    if n < |acts| {
      HolderIsOfUser(ss, acts, n, e, -1);
      LapsedEffect(ss[n], acts[n], e);
    }
  }

  lemma HolderIsOfUser(ss: seq<State>, acts: seq<Action>, n: nat, e: nat, u: L.User)
    requires IsRun(ss, acts) && n < |ss| && e < |ss[n].execs|
    requires L.Holder(ss[n].keys, ss[n].execs[e].user, ss[n].now) != Some(e)
    ensures L.Holder(ss[n].keys, u, ss[n].now) != Some(e)
  {
    LeaseInvHolds(ss, acts, n);
    if u in ss[n].keys.lock {
      assert LeaseInvKey(ss[n], u);
    }
  }

  lemma EndingStep(s: State, a: Action, e: nat)
    requires Enabled(s, a) && e < |s.execs| && LeaseInvExec(s, e) && s.execs[e].Leased(s.now)
    requires !s.execs[e].pc.Ended? && Apply(s, a).execs[e].pc.Ended?
    ensures var x := s.execs[e];
      L.Holder(Apply(s, a).keys, x.user, Apply(s, a).now) == Some(e) <==>
        || a == Crash(e)
        || (a == Throw(e) && x.kind.Auto? && x.user != -1)
        || (a == RunReserve(e) && x.kind.Manual?)
  {
  }

  /**
   * Which endings leave the lock held. An execution that ends while it holds the key keeps it
   * exactly when the process crashed, when the automatic path threw for a real user, or when the
   * manual path was refused by the budget.
   */
  lemma EndingKeepsTheLockExactlyWhen(ss: seq<State>, acts: seq<Action>, n: nat, e: nat)
    requires IsRun(ss, acts) && n < |acts| && e < |ss[n].execs|
    requires !ss[n].execs[e].pc.Ended? && e < |ss[n + 1].execs| && ss[n + 1].execs[e].pc.Ended?
    requires L.Holder(ss[n].keys, ss[n].execs[e].user, ss[n].now) == Some(e)
    ensures var x := ss[n].execs[e];
      L.Holder(ss[n + 1].keys, x.user, ss[n + 1].now) == Some(e) <==>
        || acts[n] == Crash(e)
        || (acts[n] == Throw(e) && x.kind.Auto? && x.user != -1)
        || (acts[n] == RunReserve(e) && x.kind.Manual?)
  {
    LeaseIsTheHeldKey(ss, acts, n, e);
    LeaseInvHolds(ss, acts, n);
    EndingStep(ss[n], acts[n], e);
  }

  /** A manual intervention the budget refused: it has returned, and its heartbeat still runs. */
  predicate Leaked(x: Exec) {
    x.kind.Manual? && x.pc == Ended(BudgetExhausted) && x.heartbeat
  }

  predicate NoCrashOf(acts: seq<Action>, e: nat) {
    forall i | 0 <= i < |acts| :: acts[i] != Crash(e)
  }

  lemma RefusedManualLeaks(s: State, e: nat)
    requires LeaseInv(s) && Enabled(s, RunReserve(e))
    requires s.execs[e].kind.Manual? && s.execs[e].heartbeat
    requires !B.Approved(s.counters, s.execs[e].Request(s.now))
    ensures Leaked(Apply(s, RunReserve(e)).execs[e])
    ensures Apply(s, RunReserve(e)).keys == s.keys
  {
  }

  /** When the lease of `e` was last refreshed before step `n`, counting from step `m`. */
  function LastBeat(ss: seq<State>, acts: seq<Action>, m: nat, n: nat, e: nat): int
    requires |ss| == |acts| + 1 && m <= n < |ss| && e < |ss[m].execs|
    decreases n
  {
    if n == m then ss[m].execs[e].leaseUntil - L.USER_LOCK_TTL
    else if acts[n - 1] == Heartbeat(e) then ss[n - 1].now
    else LastBeat(ss, acts, m, n - 1, e)
  }

  lemma LeakStep(s: State, a: Action, e: nat)
    requires Enabled(s, a) && e < |s.execs| && Leaked(s.execs[e]) && a != Crash(e)
    requires L.Holder(s.keys, s.execs[e].user, s.now) == Some(e)
    ensures Leaked(Apply(s, a).execs[e])
    ensures Apply(s, a).execs[e].leaseUntil ==
            if a == Heartbeat(e) then s.now + L.USER_LOCK_TTL else s.execs[e].leaseUntil
    ensures a.TryLock? && s.execs[a.e].user == s.execs[e].user ==>
              Apply(s, a).execs[a.e].pc == Ended(LockContention)
  {
  }

  ghost predicate InTime(ss: seq<State>, acts: seq<Action>, m: nat, n: nat, e: nat)
    requires |ss| == |acts| + 1 && m <= n < |ss| && e < |ss[m].execs|
  {
    ss[n].now < LastBeat(ss, acts, m, n, e) + L.USER_LOCK_TTL
  }

  /** The forgotten heartbeat of `e` beats at least once per lease from step `m` to step `n`. */
  ghost predicate Beating(ss: seq<State>, acts: seq<Action>, m: nat, n: nat, e: nat)
    requires |ss| == |acts| + 1 && n < |ss| && m < |ss| && e < |ss[m].execs|
  {
    forall i | m <= i <= n :: InTime(ss, acts, m, i, e)
  }

  ghost predicate StillLeaked(ss: seq<State>, acts: seq<Action>, m: nat, n: nat, e: nat)
    requires |ss| == |acts| + 1 && m <= n < |ss| && e < |ss[m].execs|
  {
    && e < |ss[n].execs| && Leaked(ss[n].execs[e])
    && ss[n].execs[e].leaseUntil == LastBeat(ss, acts, m, n, e) + L.USER_LOCK_TTL
  }

  /** A step from a leaked state with a live lease leads to one whose lease runs on, or from the beat. */
  ghost predicate CarriesLeak(ss: seq<State>, acts: seq<Action>, i: nat, e: nat)
    requires |ss| == |acts| + 1 && i < |acts|
  {
    && e < |ss[i].execs| <= |ss[i + 1].execs|
    && (Leaked(ss[i].execs[e]) && ss[i].now < ss[i].execs[e].leaseUntil ==>
          && Leaked(ss[i + 1].execs[e])
          && ss[i + 1].execs[e].leaseUntil ==
               if acts[i] == Heartbeat(e) then ss[i].now + L.USER_LOCK_TTL else ss[i].execs[e].leaseUntil)
  }

  lemma {:induction false} LeakIsCarried(ss: seq<State>, acts: seq<Action>, m: nat, n: nat, e: nat)
    requires |ss| == |acts| + 1 && m <= n < |ss| && e < |ss[m].execs| && Leaked(ss[m].execs[e])
    requires forall i | m <= i < n :: CarriesLeak(ss, acts, i, e)
    requires Beating(ss, acts, m, n, e)
    ensures StillLeaked(ss, acts, m, n, e)
    decreases n
  {
    if m < n {
      assert Beating(ss, acts, m, n - 1, e) && InTime(ss, acts, m, n - 1, e);
      LeakIsCarried(ss, acts, m, n - 1, e);
      assert CarriesLeak(ss, acts, n - 1, e);
      StillLeakedStep(ss, acts, m, n, e);
    }
  }

  lemma LeakLasts(ss: seq<State>, acts: seq<Action>, m: nat, n: nat, e: nat)
    requires IsRun(ss, acts) && m <= n < |ss| && e < |ss[m].execs|
    requires Leaked(ss[m].execs[e]) && NoCrashOf(acts, e) && Beating(ss, acts, m, n, e)
    ensures StillLeaked(ss, acts, m, n, e)
  {
    forall i | m <= i < n ensures CarriesLeak(ss, acts, i, e) {
      RunExtends(ss, acts, m, i);
      RunExtends(ss, acts, i, i + 1);
      if Leaked(ss[i].execs[e]) && ss[i].now < ss[i].execs[e].leaseUntil {
        LeakAfter(ss, acts, i, e, ss[i].execs[e].leaseUntil);
      }
    }
    LeakIsCarried(ss, acts, m, n, e);
  }

  lemma StillLeakedStep(ss: seq<State>, acts: seq<Action>, m: nat, n: nat, e: nat)
    requires |ss| == |acts| + 1 && m < n < |ss| && e < |ss[m].execs| && e < |ss[n].execs|
    requires StillLeaked(ss, acts, m, n - 1, e) && Leaked(ss[n].execs[e])
    requires ss[n].execs[e].leaseUntil ==
             if acts[n - 1] == Heartbeat(e) then ss[n - 1].now + L.USER_LOCK_TTL else ss[n - 1].execs[e].leaseUntil
    ensures StillLeaked(ss, acts, m, n, e)
  {
    LastBeatStep(ss, acts, m, n, e);
  }

  lemma LastBeatStep(ss: seq<State>, acts: seq<Action>, m: nat, n: nat, e: nat)
    requires |ss| == |acts| + 1 && m < n < |ss| && e < |ss[m].execs|
    ensures LastBeat(ss, acts, m, n, e) ==
            if acts[n - 1] == Heartbeat(e) then ss[n - 1].now else LastBeat(ss, acts, m, n - 1, e)
  {
  }

  lemma LeakAfter(ss: seq<State>, acts: seq<Action>, n: nat, e: nat, until: int)
    requires IsRun(ss, acts) && n < |acts| && e < |ss[n].execs| && NoCrashOf(acts, e)
    requires Leaked(ss[n].execs[e]) && ss[n].now < ss[n].execs[e].leaseUntil == until
    ensures e < |ss[n + 1].execs| && Leaked(ss[n + 1].execs[e])
    ensures ss[n + 1].execs[e].leaseUntil == if acts[n] == Heartbeat(e) then ss[n].now + L.USER_LOCK_TTL else until
  {
    LeakHoldsTheLock(ss, acts, n, e, until);
    LeakStep(ss[n], acts[n], e);
  }

  lemma LeakHoldsTheLock(ss: seq<State>, acts: seq<Action>, n: nat, e: nat, until: int)
    requires IsRun(ss, acts) && n < |ss| && e < |ss[n].execs|
    requires Leaked(ss[n].execs[e]) && ss[n].now < ss[n].execs[e].leaseUntil == until
    ensures L.Holder(ss[n].keys, ss[n].execs[e].user, ss[n].now) == Some(e)
  {
    LeaseInvHolds(ss, acts, n);
    assert LeaseInvExec(ss[n], e);
  }

  /**
   * While the process lives and the forgotten heartbeat of a leaked intervention beats at least once
   * per lease, the user stays locked: no other execution for that user is ever granted the lock.
   */
  lemma LeakedHeartbeatLocksTheUserOut(ss: seq<State>, acts: seq<Action>, m: nat, n: nat, e: nat)
    requires IsRun(ss, acts) && m <= n < |acts| && e < |ss[m].execs|
    requires Leaked(ss[m].execs[e]) && NoCrashOf(acts, e) && Beating(ss, acts, m, n, e)
    ensures e < |ss[n].execs| && L.Holder(ss[n].keys, ss[n].execs[e].user, ss[n].now) == Some(e)
    ensures acts[n].TryLock? && ss[n].execs[acts[n].e].user == ss[n].execs[e].user ==>
              ss[n + 1].execs[acts[n].e].pc == Ended(LockContention)
  {
    LeakLasts(ss, acts, m, n, e);
    assert InTime(ss, acts, m, n, e);
    LeakHoldsTheLock(ss, acts, n, e, LastBeat(ss, acts, m, n, e) + L.USER_LOCK_TTL);
    LeakStep(ss[n], acts[n], e);
  }

  // ----- When Phase 2 runs under its lease -----

  /** Step `m` granted the lock to `e`. */
  predicate GrantedAt(ss: seq<State>, acts: seq<Action>, m: nat, e: nat)
    requires |ss| == |acts| + 1 && m < |acts|
  {
    acts[m] == TryLock(e) && e < |ss[m + 1].execs| && ss[m + 1].execs[e].pc.Locked?
  }

  lemma EntersByTheLock(s: State, a: Action, e: nat)
    requires Enabled(s, a) && e < |Apply(s, a).execs| && Apply(s, a).execs[e].InPhase2()
    ensures e < |s.execs| && (s.execs[e].InPhase2() || (a == TryLock(e) && Apply(s, a).execs[e].pc.Locked?))
  {
  }

  /** Every execution in Phase 2 was granted the lock at some step. */
  lemma {:induction false} Phase2WasGranted(ss: seq<State>, acts: seq<Action>, n: nat, e: nat) returns (m: nat)
    requires IsRun(ss, acts) && n < |ss| && e < |ss[n].execs| && ss[n].execs[e].InPhase2()
    ensures m < n && GrantedAt(ss, acts, m, e)
  {
    EntersByTheLock(ss[n - 1], acts[n - 1], e);
    if ss[n - 1].execs[e].InPhase2() {
      m := Phase2WasGranted(ss, acts, n - 1, e);
    } else {
      m := n - 1;
    }
  }

  /** Between its grant and a moment in Phase 2 an execution is in Phase 2. */
  lemma Phase2Since(ss: seq<State>, acts: seq<Action>, m: nat, i: nat, n: nat, e: nat)
    requires IsRun(ss, acts) && m < i <= n < |ss| && GrantedAt(ss, acts, m, e)
    requires e < |ss[n].execs| && ss[n].execs[e].InPhase2()
    ensures e < |ss[i].execs| && ss[i].execs[e].InPhase2()
  {
    LeaseInvHolds(ss, acts, m + 1);
    LeaseInvHolds(ss, acts, i);
    assert LeaseInvExec(ss[m + 1], e);
    RunExtends(ss, acts, m + 1, i);
    assert Extends(ss[m + 1].execs[e], ss[i].execs[e]);
    assert LeaseInvExec(ss[i], e);
    RunExtends(ss, acts, i, n);
    assert Extends(ss[i].execs[e], ss[n].execs[e]);
  }

  lemma HeldStep(s: State, a: Action, e: nat)
    requires Enabled(s, a) && e < |s.execs| && s.execs[e].InPhase2()
    requires L.Holder(s.keys, s.execs[e].user, s.now) == Some(e) && Apply(s, a).execs[e].InPhase2()
    ensures Apply(s, a).execs[e].leaseUntil ==
            if a == Heartbeat(e) then s.now + L.USER_LOCK_TTL else s.execs[e].leaseUntil
  {
  }

  ghost predicate FollowsBeats(ss: seq<State>, acts: seq<Action>, m: nat, n: nat, e: nat)
    requires |ss| == |acts| + 1 && m <= n < |ss| && e < |ss[m].execs|
  {
    e < |ss[n].execs| && ss[n].execs[e].leaseUntil == LastBeat(ss, acts, m, n, e) + L.USER_LOCK_TTL
  }

  lemma FollowsBeatsStep(ss: seq<State>, acts: seq<Action>, m: nat, n: nat, e: nat)
    requires |ss| == |acts| + 1 && m < n < |ss| && e < |ss[m].execs| && e < |ss[n].execs|
    requires FollowsBeats(ss, acts, m, n - 1, e)
    requires ss[n].execs[e].leaseUntil ==
             if acts[n - 1] == Heartbeat(e) then ss[n - 1].now + L.USER_LOCK_TTL else ss[n - 1].execs[e].leaseUntil
    ensures FollowsBeats(ss, acts, m, n, e)
  {
    LastBeatStep(ss, acts, m, n, e);
  }

  /** A step with a live lease leaves a lease that runs on, or from the beat. */
  ghost predicate CarriesLease(ss: seq<State>, acts: seq<Action>, i: nat, e: nat)
    requires |ss| == |acts| + 1 && i < |acts|
  {
    && e < |ss[i].execs| && e < |ss[i + 1].execs|
    && (ss[i].now < ss[i].execs[e].leaseUntil ==>
          ss[i + 1].execs[e].leaseUntil ==
            if acts[i] == Heartbeat(e) then ss[i].now + L.USER_LOCK_TTL else ss[i].execs[e].leaseUntil)
  }

  lemma {:induction false} LeaseIsCarried(ss: seq<State>, acts: seq<Action>, g: nat, n: nat, e: nat)
    requires |ss| == |acts| + 1 && g <= n < |ss| && e < |ss[g].execs|
    requires forall i | g <= i < n :: CarriesLease(ss, acts, i, e)
    requires n > g ==> Beating(ss, acts, g, n - 1, e)
    ensures FollowsBeats(ss, acts, g, n, e)
    decreases n
  {
    if n > g {
      assert InTime(ss, acts, g, n - 1, e);
      BeatingBefore(ss, acts, g, n - 1, e);
      LeaseIsCarried(ss, acts, g, n - 1, e);
      assert CarriesLease(ss, acts, n - 1, e);
      FollowsBeatsStep(ss, acts, g, n, e);
    }
  }

  /** While the heartbeats were in time, the lease runs from the latest of them. */
  lemma LeaseFollowsBeats(ss: seq<State>, acts: seq<Action>, m: nat, n: nat, e: nat)
    requires IsRun(ss, acts) && m < n < |ss| && GrantedAt(ss, acts, m, e)
    requires e < |ss[n].execs| && ss[n].execs[e].InPhase2()
    requires n > m + 1 ==> Beating(ss, acts, m + 1, n - 1, e)
    ensures FollowsBeats(ss, acts, m + 1, n, e)
  {
    forall i | m + 1 <= i < n ensures CarriesLease(ss, acts, i, e) {
      Phase2Since(ss, acts, m, i, n, e);
      Phase2Since(ss, acts, m, i + 1, n, e);
      if ss[i].now < ss[i].execs[e].leaseUntil {
        LeaseAfterStep(ss, acts, i, e, ss[i].execs[e].leaseUntil);
      }
    }
    LeaseIsCarried(ss, acts, m + 1, n, e);
  }

  lemma BeatingBefore(ss: seq<State>, acts: seq<Action>, m: nat, n: nat, e: nat)
    requires |ss| == |acts| + 1 && m <= n < |ss| && e < |ss[m].execs| && Beating(ss, acts, m, n, e)
    ensures n > m ==> Beating(ss, acts, m, n - 1, e)
  {
  }

  lemma LeaseAfterStep(ss: seq<State>, acts: seq<Action>, n: nat, e: nat, until: int)
    requires IsRun(ss, acts) && n < |acts| && e < |ss[n].execs| && e < |ss[n + 1].execs|
    requires ss[n].execs[e].InPhase2() && ss[n + 1].execs[e].InPhase2()
    requires ss[n].now < ss[n].execs[e].leaseUntil == until
    ensures ss[n + 1].execs[e].leaseUntil == if acts[n] == Heartbeat(e) then ss[n].now + L.USER_LOCK_TTL else until
  {
    LeaseInvHolds(ss, acts, n);
    assert LeaseInvExec(ss[n], e);
    LeaseIsTheHeldKey(ss, acts, n, e);
    HeldStep(ss[n], acts[n], e);
  }

  /** A lease that is alive at `n` was renewed in time at every step since the grant. */
  lemma {:induction false} LeasedWasInTime(ss: seq<State>, acts: seq<Action>, m: nat, i: nat, n: nat, e: nat)
    requires IsRun(ss, acts) && m < i <= n < |ss| && GrantedAt(ss, acts, m, e)
    requires e < |ss[n].execs| && ss[n].execs[e].InPhase2() && ss[n].execs[e].Leased(ss[n].now)
    ensures Beating(ss, acts, m + 1, i, e)
    decreases i
  {
    if i > m + 1 {
      LeasedWasInTime(ss, acts, m, i - 1, n, e);
    }
    Phase2Since(ss, acts, m, i, n, e);
    LeaseFollowsBeats(ss, acts, m, i, e);
    assert InTime(ss, acts, m + 1, i, e) by {
      LeaseInvHolds(ss, acts, i);
      assert LeaseInvExec(ss[i], e);
      if ss[i].now >= ss[i].execs[e].leaseUntil {
        LostLeaseStaysLost(ss, acts, i, n, e);
      }
    }
  }

  /** Since the lock was granted to `e`, its heartbeat has been in time at every step. */
  ghost predicate BeatsSinceGrant(ss: seq<State>, acts: seq<Action>, n: nat, e: nat)
    requires |ss| == |acts| + 1 && n < |ss|
  {
    forall m | 0 <= m < n && GrantedAt(ss, acts, m, e) :: Beating(ss, acts, m + 1, n, e)
  }

  /**
   * An execution in Phase 2 is under its lease exactly when, at every step since the lock was granted
   * to it, less than a lease had passed since the grant or its latest heartbeat.
   */
  lemma Phase2IsLeasedExactlyWhen(ss: seq<State>, acts: seq<Action>, n: nat, e: nat)
    requires IsRun(ss, acts) && n < |ss| && e < |ss[n].execs| && ss[n].execs[e].InPhase2()
    ensures ss[n].execs[e].Leased(ss[n].now) <==> BeatsSinceGrant(ss, acts, n, e)
  {
    var m := Phase2WasGranted(ss, acts, n, e);
    if BeatsSinceGrant(ss, acts, n, e) {
      assert Beating(ss, acts, m + 1, n, e);
      BeatingBefore(ss, acts, m + 1, n, e);
      LeaseFollowsBeats(ss, acts, m, n, e);
      assert InTime(ss, acts, m + 1, n, e);
      LeaseInvHolds(ss, acts, n);
      assert LeaseInvExec(ss[n], e);
    }
    if ss[n].execs[e].Leased(ss[n].now) {
      forall k | 0 <= k < n && GrantedAt(ss, acts, k, e) ensures Beating(ss, acts, k + 1, n, e) {
        LeasedWasInTime(ss, acts, k, n, n, e);
      }
    }
  }

  /** With timely heartbeats two executions for one user are never both in Phase 2. */
  lemma TimelyHeartbeatsExcludeEachOther(ss: seq<State>, acts: seq<Action>, n: nat, d: nat, e: nat)
    requires IsRun(ss, acts) && n < |ss| && d < |ss[n].execs| && e < |ss[n].execs|
    requires ss[n].execs[d].user == ss[n].execs[e].user
    requires ss[n].execs[d].InPhase2() && BeatsSinceGrant(ss, acts, n, d)
    requires ss[n].execs[e].InPhase2() && BeatsSinceGrant(ss, acts, n, e)
    ensures d == e
  {
    Phase2IsLeasedExactlyWhen(ss, acts, n, d);
    Phase2IsLeasedExactlyWhen(ss, acts, n, e);
    LeasesExcludeEachOther(ss, acts, n, d, e);
  }

  // ----- The sent marker -----

  ghost predicate MarkedUntil(s: State, user: L.User, until: int) {
    user in s.keys.sent && until <= s.keys.sent[user].deadline
  }

  predicate NoPurchase(acts: seq<Action>, m: nat, n: nat, user: L.User)
    requires n <= |acts|
  {
    forall i | m <= i < n :: acts[i] != Purchase(user)
  }

  lemma {:induction false} MarkLasts(ss: seq<State>, acts: seq<Action>, m: nat, n: nat, user: L.User, until: int)
    requires IsRun(ss, acts) && m <= n < |ss| && NoPurchase(acts, m, n, user)
    requires MarkedUntil(ss[m], user, until) && until <= ss[m].now + L.SENT_TTL
    ensures MarkedUntil(ss[n], user, until)
    decreases n
  {
    if m < n {
      MarkLasts(ss, acts, m, n - 1, user, until);
      RunExtends(ss, acts, m, n - 1);
    }
  }

  /** Step `i` is a mark by an execution for `user`. */
  predicate MarksAt(ss: seq<State>, acts: seq<Action>, i: nat, user: L.User)
    requires |ss| == |acts| + 1 && i < |acts|
  {
    acts[i].MarkSent? && acts[i].e < |ss[i].execs| && ss[i].execs[acts[i].e].user == user
  }

  /** That mark is in force in state `n`: no purchase has cleared it and 600 seconds have not passed. */
  predicate InForce(ss: seq<State>, acts: seq<Action>, i: nat, n: nat, user: L.User)
    requires |ss| == |acts| + 1 && i < n < |ss|
  {
    MarksAt(ss, acts, i, user) && NoPurchase(acts, i, n, user) && ss[n].now < ss[i].now + L.SENT_TTL
  }

  lemma MarkerStep(s: State, a: Action, user: L.User)
    requires Enabled(s, a) && user in Apply(s, a).keys.sent && a != Purchase(user)
    ensures (user in s.keys.sent && Apply(s, a).keys.sent[user] == s.keys.sent[user])
         || (a.MarkSent? && s.execs[a.e].user == user
             && Apply(s, a).keys.sent[user].deadline == s.now + L.SENT_TTL)
  {
  }

  lemma PurchaseClears(s: State, user: L.User)
    ensures user !in Apply(s, Purchase(user)).keys.sent
  {
  }

  /** A marker was written by some mark that no purchase has cleared since, and its deadline is that mark's. */
  lemma {:induction false} MarkerWasWritten(ss: seq<State>, acts: seq<Action>, n: nat, user: L.User) returns (i: nat)
    requires IsRun(ss, acts) && n < |ss| && user in ss[n].keys.sent
    ensures i < n && MarksAt(ss, acts, i, user) && NoPurchase(acts, i, n, user)
    ensures ss[n].keys.sent[user].deadline == ss[i].now + L.SENT_TTL
  {
    if acts[n - 1] == Purchase(user) {
      PurchaseClears(ss[n - 1], user);
    }
    MarkerStep(ss[n - 1], acts[n - 1], user);
    if MarksAt(ss, acts, n - 1, user) && ss[n].keys.sent[user].deadline == ss[n - 1].now + L.SENT_TTL {
      i := n - 1;
    } else {
      i := MarkerWasWritten(ss, acts, n - 1, user);
    }
  }

  lemma MarkIsSeen(ss: seq<State>, acts: seq<Action>, i: nat, n: nat, user: L.User)
    requires IsRun(ss, acts) && i < n < |ss| && InForce(ss, acts, i, n, user)
    ensures L.IsSent(ss[n].keys, user, ss[n].now)
  {
    MarkLasts(ss, acts, i + 1, n, user, ss[i].now + L.SENT_TTL);
  }

  /** Over every interleaving the marker reads as set exactly when some mark is in force. */
  lemma SentExactlyWhenMarked(ss: seq<State>, acts: seq<Action>, n: nat, user: L.User)
    requires IsRun(ss, acts) && n < |ss|
    ensures L.IsSent(ss[n].keys, user, ss[n].now) <==> exists i | 0 <= i < n :: InForce(ss, acts, i, n, user)
  {
    if L.IsSent(ss[n].keys, user, ss[n].now) {
      var i := MarkerWasWritten(ss, acts, n, user);
      assert InForce(ss, acts, i, n, user);
    }
    if i: nat :| i < n && InForce(ss, acts, i, n, user) {
      MarkIsSeen(ss, acts, i, n, user);
    }
  }

  lemma ReadStep(s: State, e: nat)
    requires Enabled(s, ReadSent(e))
    ensures e < |s.execs| && |Apply(s, ReadSent(e)).execs| == |s.execs|
    ensures Apply(s, ReadSent(e)).execs[e].pc ==
            if L.IsSent(s.keys, s.execs[e].user, s.now) then Ended(AlreadySent) else Guarded
  {
  }

  /**
   * The guard stops an execution exactly when, at its read, some mark for the user is in force: written
   * less than 600 seconds before with no purchase since. Otherwise it always lets it through.
   */
  lemma GuardStopsExactlyWhen(ss: seq<State>, acts: seq<Action>, j: nat, e: nat)
    requires IsRun(ss, acts) && j < |acts| && acts[j] == ReadSent(e)
    ensures e < |ss[j].execs| && e < |ss[j + 1].execs|
    ensures var marked := exists i | 0 <= i < j :: InForce(ss, acts, i, j, ss[j].execs[e].user);
      && (ss[j + 1].execs[e].pc == Ended(AlreadySent) <==> marked)
      && (ss[j + 1].execs[e].pc == Guarded <==> !marked)
  {
    ReadStep(ss[j], e);
    SentExactlyWhenMarked(ss, acts, j, ss[j].execs[e].user);
  }

  /**
   * After a mark that no purchase clears, an execution that reads the marker within the next 600
   * seconds ends without dispatching, and never dispatches later.
   */
  lemma MarkBlocksLaterReads(ss: seq<State>, acts: seq<Action>, i: nat, j: nat, n: nat, d: nat, e: nat)
    requires IsRun(ss, acts) && i < j < n < |ss|
    requires acts[i] == MarkSent(d) && acts[j] == ReadSent(e)
    requires ss[i].execs[d].user == ss[j].execs[e].user
    requires NoPurchase(acts, i, j, ss[i].execs[d].user)
    requires ss[j].now < ss[i].now + L.SENT_TTL
    ensures e < |ss[n].execs| && ss[n].execs[e].pc == Ended(AlreadySent) && !ss[n].execs[e].dispatched
  {
    assert InForce(ss, acts, i, j, ss[j].execs[e].user);
    GuardStopsExactlyWhen(ss, acts, j, e);
    RunExtends(ss, acts, j, j);
    assert DispatchInvExec(ss[j].execs[e], ss[j].now);
    RunExtends(ss, acts, j + 1, n);
    assert Extends(ss[j + 1].execs[e], ss[n].execs[e]);
  }

  lemma GuardStep(s: State, a: Action, e: nat)
    requires Enabled(s, a) && e < |Apply(s, a).execs| && Apply(s, a).execs[e].kind != Manual(true)
    requires Apply(s, a).execs[e].pc.Guarded? || Apply(s, a).execs[e].InPhase2()
    ensures e < |s.execs| && s.execs[e].kind != Manual(true)
    ensures var x := s.execs[e];
      x.pc.Guarded? || x.InPhase2() || (a == ReadSent(e) && !L.IsSent(s.keys, x.user, s.now))
  {
  }

  /** An execution without override has read the marker on its way to any later program counter. */
  lemma {:induction false} GuardWasRead(ss: seq<State>, acts: seq<Action>, n: nat, e: nat) returns (j: nat)
    requires IsRun(ss, acts) && n < |ss| && e < |ss[n].execs|
    requires ss[n].execs[e].kind != Manual(true)
    requires ss[n].execs[e].pc.Guarded? || ss[n].execs[e].InPhase2()
    ensures j < n && acts[j] == ReadSent(e) && !L.IsSent(ss[j].keys, ss[n].execs[e].user, ss[j].now)
    ensures ss[j].execs[e].user == ss[n].execs[e].user
  {
    GuardStep(ss[n - 1], acts[n - 1], e);
    RunExtends(ss, acts, n - 1, n);
    var x := ss[n - 1].execs[e];
    assert Extends(x, ss[n].execs[e]);
    if x.pc.Guarded? || x.InPhase2() {
      j := GuardWasRead(ss, acts, n - 1, e);
    } else {
      j := n - 1;
    }
  }

  lemma UnmarkedStep(s: State, a: Action, d: nat)
    requires Enabled(s, a) && d < |s.execs| && Unmarked(s.execs[d].pc) && a != MarkSent(d)
    ensures Unmarked(Apply(s, a).execs[d].pc)
  {
  }

  /** Where an execution is that has dispatched but not marked. */
  predicate Unmarked(pc: Pc) {
    pc.Dispatched? || pc == Ended(Failed) || pc == Ended(Crashed)
  }

  /** After its dispatch, and until it marks, an execution stands at its mark or has failed or crashed. */
  lemma {:induction false} DispatchedIsUnmarked(ss: seq<State>, acts: seq<Action>, m: nat, j: nat, d: nat)
    requires IsRun(ss, acts) && m < j < |ss| && m < |acts| && acts[m] == Dispatch(d)
    requires forall i | m < i < j :: acts[i] != MarkSent(d)
    ensures d < |ss[j].execs| && Unmarked(ss[j].execs[d].pc)
    decreases j
  {
    if m + 1 < j {
      DispatchedIsUnmarked(ss, acts, m, j - 1, d);
      UnmarkedStep(ss[j - 1], acts[j - 1], d);
    }
  }

  /** When the later of two close dispatches read the marker, the earlier one had not written it. */
  lemma LaterReadBeforeTheMark(ss: seq<State>, acts: seq<Action>, m: nat, n: nat, d: nat, e: nat) returns (j: nat)
    requires IsRun(ss, acts) && m < n < |acts|
    requires acts[m] == Dispatch(d) && acts[n] == Dispatch(e)
    requires ss[m].execs[d].user == ss[n].execs[e].user && ss[n].execs[e].kind != Manual(true)
    requires NoPurchase(acts, m, n, ss[m].execs[d].user)
    requires ss[n].now < ss[m].now + L.SENT_TTL
    ensures j < n && acts[j] == ReadSent(e)
    ensures forall i | 0 <= i <= j :: acts[i] != MarkSent(d)
  {
    j := GuardWasRead(ss, acts, n, e);
    SentExactlyWhenMarked(ss, acts, j, ss[j].execs[e].user);
    RunExtends(ss, acts, j, n);
    forall i | 0 <= i <= j ensures acts[i] != MarkSent(d) {
      if i < m {
        NoMarkBeforeDispatch(ss, acts, i, m, d);
      } else {
        RunExtends(ss, acts, m, i);
        assert Extends(ss[m].execs[d], ss[i].execs[d]);
        assert i < j ==> !InForce(ss, acts, i, j, ss[j].execs[e].user);
      }
    }
  }

  lemma NoMarkBeforeDispatch(ss: seq<State>, acts: seq<Action>, i: nat, m: nat, d: nat)
    requires IsRun(ss, acts) && i < m < |acts| && acts[m] == Dispatch(d)
    ensures acts[i] != MarkSent(d)
  {
    if acts[i] == MarkSent(d) {
      MarkedNeverReserves(ss, acts, i + 1, m, d);
    }
  }

  /**
   * Of two dispatches to one user less than 600 seconds apart, with no purchase between, the later
   * one, unless it overrides the guard, read the marker before the earlier one dispatched, or while
   * the earlier one stood between its dispatch and its mark, or after the earlier one had failed or
   * crashed there. So either the two overlapped or the earlier one never marked.
   */
  lemma CloseDispatchesOverlap(ss: seq<State>, acts: seq<Action>, m: nat, n: nat, d: nat, e: nat) returns (j: nat)
    requires IsRun(ss, acts) && m < n < |acts|
    requires acts[m] == Dispatch(d) && acts[n] == Dispatch(e)
    requires ss[m].execs[d].user == ss[n].execs[e].user && ss[n].execs[e].kind != Manual(true)
    requires NoPurchase(acts, m, n, ss[m].execs[d].user)
    requires ss[n].now < ss[m].now + L.SENT_TTL
    ensures j < n && acts[j] == ReadSent(e)
    ensures forall i | 0 <= i <= j :: acts[i] != MarkSent(d)
    ensures j < m || (d < |ss[j].execs| && Unmarked(ss[j].execs[d].pc))
    ensures j > m && ss[j].execs[d].pc.Ended? ==> forall i | 0 <= i < |acts| :: acts[i] != MarkSent(d)
  {
    j := LaterReadBeforeTheMark(ss, acts, m, n, d, e);
    if m < j {
      DispatchedIsUnmarked(ss, acts, m, j, d);
      if ss[j].execs[d].pc.Ended? {
        forall i | j < i < |acts| ensures acts[i] != MarkSent(d) {
          RunExtends(ss, acts, j, i);
          assert Extends(ss[j].execs[d], ss[i].execs[d]);
        }
      }
    }
  }

  lemma MarkedStep(s: State, a: Action, e: nat)
    requires Enabled(s, a) && e < |s.execs| && (s.execs[e].pc.Marked? || s.execs[e].pc.Ended?)
    ensures e < |Apply(s, a).execs| && (Apply(s, a).execs[e].pc.Marked? || Apply(s, a).execs[e].pc.Ended?)
  {
  }

  /** Once past the marker an execution never returns to the point before its dispatch. */
  lemma {:induction false} MarkedNeverReserves(ss: seq<State>, acts: seq<Action>, m: nat, n: nat, e: nat)
    requires IsRun(ss, acts) && m <= n < |ss| && e < |ss[m].execs|
    requires ss[m].execs[e].pc.Marked? || ss[m].execs[e].pc.Ended?
    ensures e < |ss[n].execs| && (ss[n].execs[e].pc.Marked? || ss[n].execs[e].pc.Ended?)
    decreases n
  {
    if m < n {
      MarkedNeverReserves(ss, acts, m, n - 1, e);
      MarkedStep(ss[n - 1], acts[n - 1], e);
    }
  }

  // ----- What the guards do not prevent -----

  const FRESH: State := State(0, L.Keys(map[], map[]), map[], [])

  /** An automatic execution of a free offer for user 7, at some point of its life. */
  function FreeOffer(
    pc: Pc, granted: bool, heartbeat: bool, leaseUntil: int, budgetDate: Option<int>, dispatched: bool): Exec
  {
    Exec(Auto, 7, 1, 0.0, 100.0, pc, granted, heartbeat, leaseUntil, budgetDate, dispatched)
  }

  function StateOf(
    now: int, lock: map<L.User, Timed<L.Token>>, sent: map<L.User, Timed<string>>, xs: seq<Exec>): State
  {
    State(now, L.Keys(lock, sent), map[], xs)
  }

  lemma OneMore(ss: seq<State>, acts: seq<Action>, a: Action, s: State)
    requires IsRun(ss, acts)
    requires Enabled(ss[|acts|], a) && Apply(ss[|acts|], a) == s
    ensures IsRun(ss + [s], acts + [a])
    ensures (ss + [s])[|acts| + 1] == s
  {
  }

  /** Some run ends in state `s`. */
  ghost predicate Reachable(s: State) {
    exists ss: seq<State>, acts: seq<Action> :: IsRun(ss, acts) && ss[|acts|] == s
  }

  lemma FreshIsReachable()
    ensures Reachable(FRESH)
  {
    var acts: seq<Action> := [];
    assert IsRun([FRESH], acts) && [FRESH][|acts|] == FRESH;
  }

  lemma NextIsReachable(s: State, a: Action, s': State)
    requires Reachable(s) && Enabled(s, a) && Apply(s, a) == s'
    ensures Reachable(s')
  {
    var ss, acts :| IsRun(ss, acts) && ss[|acts|] == s;
    OneMore(ss, acts, a, s');
    assert IsRun(ss + [s'], acts + [a]) && (ss + [s'])[|acts + [a]|] == s';
  }

  /** Two executions for user 7 that have both read the marker, at time 0. */
  lemma BothReadTheGuard() returns (s: State)
    ensures Reachable(s)
    ensures s == StateOf(0, map[], map[], [FreeOffer(Guarded, false, false, 0, None, false),
                                           FreeOffer(Guarded, false, false, 0, None, false)])
  {
    FreshIsReachable();
    var begin := FreeOffer(Begin, false, false, 0, None, false);
    var guarded := FreeOffer(Guarded, false, false, 0, None, false);
    var s1 := StateOf(0, map[], map[], [begin]);
    NextIsReachable(FRESH, Start(Auto, 7, 1, 0.0, 100.0), s1);
    var s2 := StateOf(0, map[], map[], [begin, begin]);
    NextIsReachable(s1, Start(Auto, 7, 1, 0.0, 100.0), s2);
    var s3 := StateOf(0, map[], map[], [guarded, begin]);
    NextIsReachable(s2, ReadSent(0), s3);
    s := StateOf(0, map[], map[], [guarded, guarded]);
    NextIsReachable(s3, ReadSent(1), s);
  }

  /** Takes execution `e` from the guard to just before its dispatch. */
  lemma UpToDispatch(s: State, e: nat) returns (s': State)
    requires Reachable(s) && e < |s.execs| && 0 <= s.now < DAY
    requires s.execs[e] == FreeOffer(Guarded, false, false, s.execs[e].leaseUntil, None, false)
    requires L.Holder(s.keys, 7, s.now) == None
    ensures Reachable(s')
    ensures var until := s.now + L.USER_LOCK_TTL;
      s' == s.(keys := s.keys.(lock := s.keys.lock[7 := Timed(e, until)]),
               execs := s.execs[e := FreeOffer(Reserved, true, true, until, Some(0), false)])
  {
    var until := s.now + L.USER_LOCK_TTL;
    var locked := s.keys.(lock := s.keys.lock[7 := Timed(e, until)]);
    var s1 := s.(keys := locked, execs := s.execs[e := FreeOffer(Locked, true, true, until, None, false)]);
    NextIsReachable(s, TryLock(e), s1);
    var s2 := s.(keys := locked, execs := s.execs[e := FreeOffer(Reserving(s.now), true, true, until, None, false)]);
    NextIsReachable(s1, CallReserve(e), s2);
    s' := s.(keys := locked, execs := s.execs[e := FreeOffer(Reserved, true, true, until, Some(0), false)]);
    NextIsReachable(s2, RunReserve(e), s');
  }

  lemma DispatchStep(s: State, e: nat) returns (s': State)
    requires Reachable(s) && e < |s.execs| && s.execs[e].pc.Reserved?
    ensures Reachable(s') && s' == With(s, e, s.execs[e].(pc := Dispatched, dispatched := true))
  {
    s' := With(s, e, s.execs[e].(pc := Dispatched, dispatched := true));
    NextIsReachable(s, Dispatch(e), s');
  }

  /** The marker is written and the lock released. */
  lemma MarkAndFinish(s: State, e: nat) returns (s': State)
    requires Reachable(s) && e < |s.execs| && s.execs[e].pc.Dispatched?
    requires s.execs[e].user == 7 && L.Holder(s.keys, 7, s.now) == Some(e)
    ensures Reachable(s')
    ensures s' == s.(keys := L.Keys(s.keys.lock - {7}, s.keys.sent[7 := Timed("1", s.now + L.SENT_TTL)]),
                     execs := s.execs[e := s.execs[e].(
                       pc := Ended(Completed), heartbeat := false, leaseUntil := s.now)])
  {
    var s1 := With(s, e, s.execs[e].(pc := Marked)).(keys := L.MarkSent(s.keys, 7, s.now));
    NextIsReachable(s, MarkSent(e), s1);
    s' := Apply(s1, Finish(e));
    NextIsReachable(s1, Finish(e), s');
  }

  /** The first of the two runs to its end at time 0; the other has only read the marker. */
  lemma FirstCompletes() returns (s: State)
    ensures Reachable(s)
    ensures s == StateOf(0, map[], map[7 := Timed("1", L.SENT_TTL)],
                         [FreeOffer(Ended(Completed), true, false, 0, Some(0), true),
                          FreeOffer(Guarded, false, false, 0, None, false)])
  {
    var s0 := BothReadTheGuard();
    s0 := UpToDispatch(s0, 0);
    s0 := DispatchStep(s0, 0);
    s := MarkAndFinish(s0, 0);
    assert s.keys.lock == map[];
  }

  /**
   * The marker is read before the lock is taken, so a user can be sent two interventions at one
   * instant although every lock and marker operation works: both read it, then they take turns.
   */
  lemma GuardBeforeLockAllowsTwoDispatches()
    ensures exists s ::
      && Reachable(s) && s.now == 0 && |s.execs| == 2 && L.IsSent(s.keys, 7, s.now)
      && s.execs[0].user == 7 && s.execs[0].dispatched && s.execs[0].pc == Ended(Completed)
      && s.execs[1].user == 7 && s.execs[1].dispatched && s.execs[1].Leased(s.now)
  {
    var s := FirstCompletes();
    s := UpToDispatch(s, 1);
    s := DispatchStep(s, 1);
  }

  /** The first pauses before its dispatch until its lease runs out and the second takes the lock. */
  lemma SecondTakesOver() returns (s: State)
    ensures Reachable(s)
    ensures var until := L.USER_LOCK_TTL;
      s == StateOf(until, map[7 := Timed(1, until + L.USER_LOCK_TTL)], map[],
                   [FreeOffer(Reserved, true, true, until, Some(0), false),
                    FreeOffer(Reserved, true, true, until + L.USER_LOCK_TTL, Some(0), false)])
  {
    var s0 := BothReadTheGuard();
    s0 := UpToDispatch(s0, 0);
    var s1 := s0.(now := L.USER_LOCK_TTL);
    NextIsReachable(s0, Tick(L.USER_LOCK_TTL), s1);
    s := UpToDispatch(s1, 1);
  }

  /**
   * Losing the lease does not stop Phase 2: the failed renewal is only logged, so a holder paused
   * beyond its lease dispatches beside the new holder.
   */
  lemma LostLeaseStillDispatches()
    ensures exists s ::
      && Reachable(s) && |s.execs| == 2
      && s.execs[0].user == 7 && s.execs[0].InPhase2() && s.execs[0].dispatched && !s.execs[0].Leased(s.now)
      && s.execs[1].user == 7 && s.execs[1].InPhase2() && s.execs[1].dispatched && s.execs[1].Leased(s.now)
  {
    var s := SecondTakesOver();
    s := DispatchStep(s, 1);
    NextIsReachable(s, Heartbeat(0), s);
    s := DispatchStep(s, 0);
  }

  /** An execution that dispatched and crashed before its mark, and one that starts after the lock ran out. */
  lemma CrashBeforeTheMark() returns (s: State)
    ensures Reachable(s)
    ensures var until := L.USER_LOCK_TTL;
      s == StateOf(until, map[7 := Timed(0, until)], map[],
                   [FreeOffer(Ended(Crashed), true, false, until, Some(0), true),
                    FreeOffer(Begin, false, false, until, None, false)])
  {
    FreshIsReachable();
    var until := L.USER_LOCK_TTL;
    var begin := FreeOffer(Begin, false, false, 0, None, false);
    var guarded := FreeOffer(Guarded, false, false, 0, None, false);
    var s1 := StateOf(0, map[], map[], [begin]);
    NextIsReachable(FRESH, Start(Auto, 7, 1, 0.0, 100.0), s1);
    var s2 := StateOf(0, map[], map[], [guarded]);
    NextIsReachable(s1, ReadSent(0), s2);
    var s3 := UpToDispatch(s2, 0);
    s3 := DispatchStep(s3, 0);
    var crashed := FreeOffer(Ended(Crashed), true, false, until, Some(0), true);
    var s4 := StateOf(0, map[7 := Timed(0, until)], map[], [crashed]);
    NextIsReachable(s3, Crash(0), s4);
    var s5 := StateOf(until, map[7 := Timed(0, until)], map[], [crashed]);
    NextIsReachable(s4, Tick(until), s5);
    s := StateOf(until, map[7 := Timed(0, until)], map[],
                 [crashed, FreeOffer(Begin, false, false, until, None, false)]);
    NextIsReachable(s5, Start(Auto, 7, 1, 0.0, 100.0), s);
  }

  /** Takes execution `e`, begun now, from its start to just after its dispatch. */
  lemma FromStartToDispatch(s: State, e: nat) returns (s': State)
    requires Reachable(s) && e < |s.execs| && 0 <= s.now < DAY
    requires s.execs[e] == FreeOffer(Begin, false, false, s.now, None, false)
    requires !L.IsSent(s.keys, 7, s.now) && L.Holder(s.keys, 7, s.now) == None
    ensures Reachable(s') && s'.now == s.now
    ensures s'.execs == s.execs[e := FreeOffer(Dispatched, true, true, s.now + L.USER_LOCK_TTL, Some(0), true)]
    ensures L.Holder(s'.keys, 7, s.now) == Some(e)
  {
    var s1 := With(s, e, s.execs[e].(pc := Guarded));
    NextIsReachable(s, ReadSent(e), s1);
    s' := UpToDispatch(s1, e);
    s' := DispatchStep(s', e);
  }

  /**
   * Close dispatches need not overlap: an execution that crashes between its dispatch and its mark
   * leaves no marker, and one that starts when its lock has run out dispatches again.
   */
  lemma CrashBeforeTheMarkAllowsASecondDispatch()
    ensures exists s ::
      && Reachable(s) && |s.execs| == 2 && s.now == L.USER_LOCK_TTL
      && s.execs[0].user == 7 && s.execs[0].dispatched && s.execs[0].pc == Ended(Crashed)
      && s.execs[1].user == 7 && s.execs[1].dispatched && s.execs[1].Leased(s.now)
  {
    var s := CrashBeforeTheMark();
    s := FromStartToDispatch(s, 1);
  }

  /** A manual intervention of 150 against a limit of 100. */
  function TooDear(pc: Pc, granted: bool, heartbeat: bool, leaseUntil: int): Exec {
    Exec(Manual(false), 7, 1, 150.0, 100.0, pc, granted, heartbeat, leaseUntil, None, false)
  }

  /** It holds the lock and is about to reserve. */
  lemma TooDearIsLocked() returns (s: State)
    ensures Reachable(s)
    ensures s == StateOf(0, map[7 := Timed(0, L.USER_LOCK_TTL)], map[], [TooDear(Locked, true, true, L.USER_LOCK_TTL)])
  {
    FreshIsReachable();
    var s1 := StateOf(0, map[], map[], [TooDear(Begin, false, false, 0)]);
    NextIsReachable(FRESH, Start(Manual(false), 7, 1, 150.0, 100.0), s1);
    var s2 := StateOf(0, map[], map[], [TooDear(Guarded, false, false, 0)]);
    NextIsReachable(s1, ReadSent(0), s2);
    s := StateOf(0, map[7 := Timed(0, L.USER_LOCK_TTL)], map[], [TooDear(Locked, true, true, L.USER_LOCK_TTL)]);
    NextIsReachable(s2, TryLock(0), s);
  }

  /** A manual intervention that the budget refuses is left with its heartbeat running and the user's lock held. */
  lemma RefusedManualLeavesALeak()
    ensures exists s ::
      Reachable(s) && |s.execs| == 1 && Leaked(s.execs[0]) && L.Holder(s.keys, s.execs[0].user, s.now) == Some(0)
  {
    var s3 := TooDearIsLocked();
    var s4 := s3.(execs := [TooDear(Reserving(0), true, true, L.USER_LOCK_TTL)]);
    NextIsReachable(s3, CallReserve(0), s4);
    RefusedManualLeaks(s4, 0);
    var s5 := Apply(s4, RunReserve(0));
    NextIsReachable(s4, RunReserve(0), s5);
    assert |s5.execs| == 1;
  }

  // ----- The budget -----

  function Charged(xs: seq<Exec>, key: B.Key): real {
    if xs == [] then 0.0 else xs[0].Charge(key) + Charged(xs[1..], key)
  }

  function TotalDelivered(xs: seq<Exec>, key: B.Key): real {
    if xs == [] then 0.0 else xs[0].Delivered(key) + TotalDelivered(xs[1..], key)
  }

  lemma {:induction false} ChargedAfterUpdate(xs: seq<Exec>, e: nat, x: Exec, key: B.Key)
    requires e < |xs|
    ensures Charged(xs[e := x], key) == Charged(xs, key) - xs[e].Charge(key) + x.Charge(key)
  {
    if e == 0 {
      assert xs[0 := x][1..] == xs[1..];
    } else {
      assert xs[e := x][1..] == xs[1..][e - 1 := x];
      ChargedAfterUpdate(xs[1..], e - 1, x, key);
    }
  }

  lemma {:induction false} ChargedAfterStart(xs: seq<Exec>, x: Exec, key: B.Key)
    ensures Charged(xs + [x], key) == Charged(xs, key) + x.Charge(key)
  {
    if xs == [] {
      assert xs + [x] == [x];
    } else {
      assert (xs + [x])[1..] == xs[1..] + [x];
      ChargedAfterStart(xs[1..], x, key);
    }
  }

  lemma DeliveredWithinCharged(xs: seq<Exec>, key: B.Key)
    ensures TotalDelivered(xs, key) <= Charged(xs, key)
  {
  }

  /** Every budget script of the run answers before its counter can have expired. */
  predicate Prompt(ss: seq<State>, acts: seq<Action>)
    requires Connected(ss, acts)
  {
    forall i | 0 <= i < |acts| && acts[i].RunReserve? :: ss[i].execs[acts[i].e].Request(ss[i].now).OnTime()
  }

  /** The limit in force for a store is whatever its policy said when each execution read it. */
  predicate LimitsAtMost(xs: seq<Exec>, key: B.Key, limit: real) {
    forall i | 0 <= i < |xs| && xs[i].storeId == key.storeId :: xs[i].limit <= limit
  }

  /** What a step takes from counter `key`. */
  function Taken(s: State, a: Action, key: B.Key): real
    requires Enabled(s, a)
  {
    if a.RunReserve? && B.Approved(s.counters, s.execs[a.e].Request(s.now))
    then s.execs[a.e].Request(s.now).Charge(key)
    else 0.0
  }

  lemma ChargeStep(s: State, a: Action, key: B.Key)
    requires OfExec(a) && Enabled(s, a) && DispatchInvExec(s.execs[a.e], s.now)
    ensures Apply(s, a).execs == s.execs[a.e := Apply(s, a).execs[a.e]]
    ensures Apply(s, a).execs[a.e].Charge(key) == s.execs[a.e].Charge(key) + Taken(s, a, key)
  {
  }

  lemma CountersStep(s: State, a: Action)
    requires Enabled(s, a)
    ensures Apply(s, a).counters ==
            if a.RunReserve? then B.After(s.counters, s.execs[a.e].Request(s.now)) else s.counters
  {
  }

  lemma ChargedStep(s: State, a: Action, key: B.Key)
    requires DispatchInv(s) && Enabled(s, a)
    ensures Charged(Apply(s, a).execs, key) == Charged(s.execs, key) + Taken(s, a, key)
  {
    var s' := Apply(s, a);
    if OfExec(a) {
      assert DispatchInvExec(s.execs[a.e], s.now);
      ChargeStep(s, a, key);
      ChargedAfterUpdate(s.execs, a.e, s'.execs[a.e], key);
    } else if a.Start? {
      ChargedAfterStart(s.execs, s'.execs[|s.execs|], key);
    }
  }

  lemma BudgetStep(s: State, a: Action, key: B.Key, limit: real)
    requires DispatchInv(s) && Enabled(s, a)
    requires a.RunReserve? ==> s.execs[a.e].Request(s.now).OnTime()
    requires B.Backed(s.counters, key, Charged(s.execs, key)) && Charged(s.execs, key) <= limit
    requires LimitsAtMost(s.execs, key, limit)
    ensures var s' := Apply(s, a);
      B.Backed(s'.counters, key, Charged(s'.execs, key)) && Charged(s'.execs, key) <= limit
  {
    ChargedStep(s, a, key);
    CountersStep(s, a);
    if a.RunReserve? {
      B.ReserveKeepsBacking(s.counters, s.execs[a.e].Request(s.now), key, Charged(s.execs, key));
    }
  }

  lemma {:induction false} BudgetHolds(ss: seq<State>, acts: seq<Action>, n: nat, key: B.Key, limit: real)
    requires IsRun(ss, acts) && Prompt(ss, acts) && n < |ss|
    requires 0.0 <= limit && LimitsAtMost(ss[n].execs, key, limit)
    ensures B.Backed(ss[n].counters, key, Charged(ss[n].execs, key)) && Charged(ss[n].execs, key) <= limit
  {
    if n > 0 {
      RunExtends(ss, acts, n - 1, n);
      var xs := ss[n - 1].execs;
      forall i | 0 <= i < |xs| && xs[i].storeId == key.storeId ensures xs[i].limit <= limit {
        assert Extends(xs[i], ss[n].execs[i]);
      }
      RunExtends(ss, acts, n - 1, n - 1);
      BudgetHolds(ss, acts, n - 1, key, limit);
      BudgetStep(ss[n - 1], acts[n - 1], key, limit);
    }
  }

  /**
   * What automatic and manual executions together have delivered against a store and date is
   * covered by approved reservations, and these stay within the largest limit any of them saw.
   */
  lemma DeliveredStaysWithinBudget(ss: seq<State>, acts: seq<Action>, n: nat, key: B.Key, limit: real)
    requires IsRun(ss, acts) && Prompt(ss, acts) && n < |ss|
    requires 0.0 <= limit && LimitsAtMost(ss[n].execs, key, limit)
    ensures TotalDelivered(ss[n].execs, key) <= Charged(ss[n].execs, key) <= limit
    ensures forall i | 0 <= i < |ss[n].execs| :: ss[n].execs[i].dispatched ==> ss[n].execs[i].budgetDate.Some?
  {
    BudgetHolds(ss, acts, n, key, limit);
    DeliveredWithinCharged(ss[n].execs, key);
    RunExtends(ss, acts, n, n);
    forall i | 0 <= i < |ss[n].execs| ensures ss[n].execs[i].dispatched ==> ss[n].execs[i].budgetDate.Some? {
      assert DispatchInvExec(ss[n].execs[i], ss[n].now);
    }
  }
}
