/**
 * The daily budget of a store: an atomic check-and-increment on one counter per store and UTC date.
 *
 * The client computes the date, then the script runs some time later; a late script is the only
 * thing that can meet a counter that has already expired.
 */
module BudgetService {
  import opened Clock
  import opened Options
  import opened Redis

  const BUDGET_TTL: int := 172800 * SECOND

  /** `budget:{storeId}:{date}`; a date is its number of days since the epoch. */
  datatype Key = Key(storeId: int, date: int)

  type Counters = map<Key, Timed<real>>

  function UtcDate(now: int): int {
    now / DAY
  }

  function Opened(c: Counters, key: Key, now: int): (o: Counters)
    ensures key in o && now < o[key].deadline
  {
    SetNxEx(c, key, 0.0, BUDGET_TTL, now)
  }

  predicate Fits(c: Counters, key: Key, amount: real, limit: real, now: int) {
    Opened(c, key, now)[key].value + amount <= limit
  }

  /** The reserve script. `INCRBYFLOAT` keeps the deadline. */
  function Reserve(c: Counters, key: Key, amount: real, limit: real, now: int): Counters {
    var o := Opened(c, key, now);
    if Fits(c, key, amount, limit, now)
    then o[key := o[key].(value := o[key].value + amount)]
    else o
  }

  class Service {
    var counters: Counters

    constructor ()
      ensures counters == map[]
    {
      counters := map[];
    }

    method RunReserveScript(key: Key, amount: real, limit: real, now: int) returns (code: int)
      modifies this
      ensures counters == Reserve(old(counters), key, amount, limit, now)
      ensures code == if Fits(old(counters), key, amount, limit, now) then 1 else 0
    {
      if !(key in counters && now < counters[key].deadline) {
        counters := counters[key := Timed(0.0, now + BUDGET_TTL)];
      }
      var current := counters[key].value;
      if current + amount > limit {
        return 0;
      }
      counters := counters[key := Timed(current + amount, counters[key].deadline)];
      return 1;
    }

    method CheckAndReserve(r: Request) returns (approved: bool)
      modifies this
      ensures counters == After(old(counters), r)
      ensures approved <==> Approved(old(counters), r)
    {
      if r.amount <= 0.0 {
        return true;
      }
      var key := Key(r.storeId, UtcDate(r.calledAt));
      var code := RunReserveScript(key, r.amount, r.limit, r.ranAt);
      approved := code == 1;
    }

    method CheckAvailable(storeId: int, amount: real, limit: real, now: int) returns (ok: bool)
      ensures ok <==> Approved(counters, Request(storeId, amount, limit, now, now))
    {
      if amount <= 0.0 {
        return true;
      }
      var key := Key(storeId, UtcDate(now));
      var current := if key in counters && now < counters[key].deadline then counters[key].value else 0.0;
      ok := current + amount <= limit;
    }
  }

  // ----- Runs of reservations by any number of clients -----

  /** A call of `checkAndReserve`: the date is read at `calledAt`, the script runs at `ranAt`. */
  datatype Request = Request(storeId: int, amount: real, limit: real, calledAt: int, ranAt: int) {
    function Counter(): Key {
      Key(storeId, UtcDate(calledAt))
    }

    /** The script runs after the date was read and before two days after that date began. */
    predicate OnTime() {
      calledAt <= ranAt < (UtcDate(calledAt) + 2) * DAY
    }

    /** What an approval of this request takes from counter `key`. */
    function Charge(key: Key): real {
      if Counter() == key && amount > 0.0 then amount else 0.0
    }
  }

  /** A script that answers within a day is on time, whatever the time of day it was called. */
  lemma AnswerWithinADayIsOnTime(r: Request)
    requires r.calledAt <= r.ranAt <= r.calledAt + DAY
    ensures r.OnTime()
  {
    assert r.calledAt < (UtcDate(r.calledAt) + 1) * DAY;
  }

  function After(c: Counters, r: Request): Counters {
    if r.amount <= 0.0 then c else Reserve(c, r.Counter(), r.amount, r.limit, r.ranAt)
  }

  predicate Approved(c: Counters, r: Request) {
    r.amount <= 0.0 || Fits(c, r.Counter(), r.amount, r.limit, r.ranAt)
  }

  function AfterAll(c: Counters, rs: seq<Request>): Counters
    decreases |rs|
  {
    if rs == [] then c else AfterAll(After(c, rs[0]), rs[1..])
  }

  /** The total of the positive amounts approved for `key`. */
  function Spent(c: Counters, rs: seq<Request>, key: Key): real
    decreases |rs|
  {
    if rs == [] then 0.0
    else (if Approved(c, rs[0]) then rs[0].Charge(key) else 0.0) + Spent(After(c, rs[0]), rs[1..], key)
  }

  predicate Timely(rs: seq<Request>, since: int) {
    rs == [] || (since <= rs[0].ranAt && rs[0].OnTime() && Timely(rs[1..], rs[0].ranAt))
  }

  /** The counter of `key` stands for exactly `spent` and outlives the last on-time request. */
  ghost predicate Backed(c: Counters, key: Key, spent: real) {
    if key in c then c[key].value == spent && (key.date + 2) * DAY <= c[key].deadline else spent == 0.0
  }

  lemma ReserveKeepsBacking(c: Counters, r: Request, key: Key, spent: real)
    requires Backed(c, key, spent) && r.OnTime()
    ensures Backed(After(c, r), key, spent + if Approved(c, r) then r.Charge(key) else 0.0)
    ensures r.Counter() == key ==> (Approved(c, r) <==> r.amount <= 0.0 || spent + r.amount <= r.limit)
  {
    if r.Counter() == key && r.amount > 0.0 {
      assert key.date * DAY <= r.calledAt;
    }
  }

  /**
   * Key expiry is unobservable: after any on-time run, a request is approved exactly when what has
   * been approved for its own store and date so far leaves room for it.
   */
  lemma {:induction false} ApprovedExactlyWhenItFits(rs: seq<Request>, r: Request, since: int)
    requires Timely(rs, since) && r.OnTime()
    ensures Approved(AfterAll(map[], rs), r) <==>
            r.amount <= 0.0 || Spent(map[], rs, r.Counter()) + r.amount <= r.limit
  {
    RunKeepsBacking(map[], rs, r.Counter(), 0.0, since);
    ReserveKeepsBacking(AfterAll(map[], rs), r, r.Counter(), Spent(map[], rs, r.Counter()));
  }

  lemma {:induction false} RunKeepsBacking(c: Counters, rs: seq<Request>, key: Key, spent: real, since: int)
    requires Backed(c, key, spent) && Timely(rs, since)
    ensures Backed(AfterAll(c, rs), key, spent + Spent(c, rs, key))
    decreases |rs|
  {
    if rs != [] {
      ReserveKeepsBacking(c, rs[0], key, spent);
      var charged := if Approved(c, rs[0]) then rs[0].Charge(key) else 0.0;
      RunKeepsBacking(After(c, rs[0]), rs[1..], key, spent + charged, rs[0].ranAt);
      assert spent + Spent(c, rs, key) == spent + charged + Spent(After(c, rs[0]), rs[1..], key);
    }
  }

  /** However limits vary between requests, no store and date ever spends more than the largest one. */
  lemma {:induction false} SpentStaysWithinLimit(rs: seq<Request>, key: Key, limit: real, since: int)
    requires Timely(rs, since)
    requires 0.0 <= limit && forall i | 0 <= i < |rs| && rs[i].Counter() == key :: rs[i].limit <= limit
    ensures Spent(map[], rs, key) <= limit
  {
    SpentFromStaysWithinLimit(map[], rs, key, 0.0, limit, since);
  }

  lemma {:induction false} SpentFromStaysWithinLimit(
    c: Counters, rs: seq<Request>, key: Key, spent: real, limit: real, since: int)
    requires Backed(c, key, spent) && Timely(rs, since)
    requires spent <= limit && forall i | 0 <= i < |rs| && rs[i].Counter() == key :: rs[i].limit <= limit
    ensures spent + Spent(c, rs, key) <= limit
    decreases |rs|
  {
    if rs != [] {
      ReserveKeepsBacking(c, rs[0], key, spent);
      var charged := if Approved(c, rs[0]) then rs[0].Charge(key) else 0.0;
      forall i | 0 <= i < |rs[1..]| && rs[1..][i].Counter() == key
        ensures rs[1..][i].limit <= limit
      {
        assert rs[1..][i] == rs[i + 1];
      }
      SpentFromStaysWithinLimit(After(c, rs[0]), rs[1..], key, spent + charged, limit, rs[0].ranAt);
      assert spent + Spent(c, rs, key) == spent + charged + Spent(After(c, rs[0]), rs[1..], key);
    }
  }

  // ----- How late a script may answer -----

  predicate RunInOrder(rs: seq<Request>, since: int) {
    rs == [] || (since <= rs[0].ranAt && RunInOrder(rs[1..], rs[0].ranAt))
  }

  /** Every script answers after its date was read, by at most `late`. */
  predicate AnswerWithin(rs: seq<Request>, late: int) {
    forall i | 0 <= i < |rs| :: rs[i].calledAt <= rs[i].ranAt <= rs[i].calledAt + late
  }

  /** On every run with that lateness no store and date spends more than the largest limit asked with. */
  ghost predicate LateIsSafe(late: int) {
    forall rs: seq<Request>, key: Key, limit: real, since: int |
      && RunInOrder(rs, since) && AnswerWithin(rs, late)
      && 0.0 <= limit && LimitsAtMost(rs, key, limit) :: Spent(map[], rs, key) <= limit
  }

  ghost predicate LimitsAtMost(rs: seq<Request>, key: Key, limit: real) {
    forall i | 0 <= i < |rs| && rs[i].Counter() == key :: rs[i].limit <= limit
  }

  lemma {:induction false} InOrderWithinADayIsTimely(rs: seq<Request>, since: int)
    requires RunInOrder(rs, since) && AnswerWithin(rs, DAY)
    ensures Timely(rs, since)
    decreases |rs|
  {
    if rs != [] {
      AnswerWithinADayIsOnTime(rs[0]);
      assert forall i | 0 <= i < |rs[1..]| :: rs[1..][i] == rs[i + 1];
      InOrderWithinADayIsTimely(rs[1..], rs[0].ranAt);
    }
  }

  /** The 48 h lifetime keeps every run within its limits exactly when scripts answer within a day. */
  lemma LateIsSafeExactlyUpToADay(late: int)
    ensures LateIsSafe(late) <==> late <= DAY
  {
    if late <= DAY {
      forall rs: seq<Request>, key: Key, limit: real, since: int |
        && RunInOrder(rs, since) && AnswerWithin(rs, late)
        && 0.0 <= limit && LimitsAtMost(rs, key, limit)
        ensures Spent(map[], rs, key) <= limit
      {
        assert AnswerWithin(rs, DAY);
        InOrderWithinADayIsTimely(rs, since);
        SpentStaysWithinLimit(rs, key, limit, since);
      }
    } else {
      LateRequestOverspends();
      var rs: seq<Request> :| OverspendsByADayAndAMoment(rs);
      assert rs == [rs[0]] + [rs[1]] && rs[1..] == [rs[1]] && rs[1..][1..] == [];
      assert RunInOrder(rs, 0) && AnswerWithin(rs, late) && LimitsAtMost(rs, Key(1, 0), 100.0);
    }
  }

  ghost predicate OverspendsByADayAndAMoment(rs: seq<Request>) {
    && |rs| == 2
    && (forall i | 0 <= i < |rs| :: rs[i].Counter() == Key(1, 0) && rs[i].limit == 100.0)
    && rs[0].ranAt == rs[0].calledAt == 0
    && 0 <= rs[1].ranAt == rs[1].calledAt + DAY + 1
    && Spent(map[], rs, Key(1, 0)) == 120.0
  }

  /** A script that answers a day and a millisecond late can meet an expired counter and overspend. */
  lemma LateRequestOverspends()
    ensures exists rs :: OverspendsByADayAndAMoment(rs)
  {
    var r := Request(1, 60.0, 100.0, 0, 0);
    var late := Request(1, 60.0, 100.0, DAY - 1, 2 * DAY);
    var rs := [r, late];
    assert rs[1..] == [late] && [late][1..] == [];
    assert Spent(map[], rs, Key(1, 0)) == 60.0 + Spent(After(map[], r), [late], Key(1, 0));
    assert rs[0] == r && rs[1] == late;
    assert OverspendsByADayAndAMoment(rs);
  }
}
