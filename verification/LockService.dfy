/**
 * The per-user intervention lease and the "already sent" marker.
 *
 * Each Lua script of the lock service is one function on the two key families it owns, and one
 * method of the class that updates them in place.
 */
module LockService {
  import opened Clock
  import opened Options
  import opened Redis

  const USER_LOCK_TTL: int := 30 * SECOND
  const SENT_TTL: int := 600 * SECOND

  type User = int
  type Token = nat

  /** `lock:user:{id}` and `sent:user:{id}`. */
  datatype Keys = Keys(lock: map<User, Timed<Token>>, sent: map<User, Timed<string>>)

  function Holder(k: Keys, user: User, now: int): Option<Token> {
    Get(k.lock, user, now)
  }

  function Acquire(k: Keys, user: User, token: Token, now: int): Keys {
    k.(lock := SetNxEx(k.lock, user, token, USER_LOCK_TTL, now))
  }

  function Renew(k: Keys, user: User, token: Token, now: int): Keys {
    if Holder(k, user, now) == Some(token)
    then k.(lock := Expire(k.lock, user, USER_LOCK_TTL, now))
    else k
  }

  function Release(k: Keys, user: User, token: Token, now: int): Keys {
    if Holder(k, user, now) == Some(token) then k.(lock := Del(k.lock, user)) else k
  }

  predicate IsSent(k: Keys, user: User, now: int) {
    Get(k.sent, user, now).Some?
  }

  function MarkSent(k: Keys, user: User, now: int): Keys {
    k.(sent := SetEx(k.sent, user, "1", SENT_TTL, now))
  }

  function ClearUserSent(k: Keys, user: User): Keys {
    k.(sent := Del(k.sent, user))
  }

  /** The service as the source has it: methods that run one script each against shared keys. */
  class Service {
    var lock: map<User, Timed<Token>>
    var sent: map<User, Timed<string>>

    function State(): Keys
      reads this
    {
      Keys(lock, sent)
    }

    constructor ()
      ensures State() == Keys(map[], map[])
    {
      lock, sent := map[], map[];
    }

    /** `token` is the fresh UUID drawn by the caller. */
    method AcquireUserLock(user: User, token: Token, now: int) returns (result: Option<Token>)
      modifies this`lock
      ensures State() == Acquire(old(State()), user, token, now)
      ensures result == if old(Holder(State(), user, now)) == None then Some(token) else None
      ensures Holder(State(), user, now).Some?
      ensures result.Some? ==> lock[user] == Timed(token, now + USER_LOCK_TTL)
    {
      if user in lock && now < lock[user].deadline {
        result := None;
      } else {
        lock := lock[user := Timed(token, now + USER_LOCK_TTL)];
        result := Some(token);
      }
    }

    method RenewUserLock(user: User, token: Token, now: int) returns (stillHeld: bool)
      modifies this`lock
      ensures State() == Renew(old(State()), user, token, now)
      ensures stillHeld <==> old(Holder(State(), user, now)) == Some(token)
      ensures stillHeld ==> lock[user] == Timed(token, now + USER_LOCK_TTL)
    {
      if user in lock && now < lock[user].deadline && lock[user].value == token {
        lock := lock[user := Timed(token, now + USER_LOCK_TTL)];
        stillHeld := true;
      } else {
        stillHeld := false;
      }
    }

    method ReleaseUserLock(user: User, token: Token, now: int)
      modifies this`lock
      ensures State() == Release(old(State()), user, token, now)
      ensures Holder(State(), user, now) != Some(token)
      ensures forall u: User | u != user :: Holder(State(), u, now) == old(Holder(State(), u, now))
    {
      if user in lock && now < lock[user].deadline && lock[user].value == token {
        lock := lock - {user};
      }
    }

    method CheckSent(user: User, now: int) returns (result: bool)
      ensures result <==> IsSent(State(), user, now)
    {
      result := user in sent && now < sent[user].deadline;
    }

    method RecordSent(user: User, now: int)
      modifies this`sent
      ensures State() == MarkSent(old(State()), user, now)
      ensures forall t: int :: IsSent(State(), user, t) <==> t < now + SENT_TTL
    {
      sent := sent[user := Timed("1", now + SENT_TTL)];
    }

    method ClearSent(user: User)
      modifies this`sent
      ensures State() == ClearUserSent(old(State()), user)
      ensures forall t: int :: !IsSent(State(), user, t)
    {
      sent := sent - {user};
    }
  }

  // ----- Runs of lock scripts by any number of clients -----

  datatype Op =
    | TryAcquire(user: User, token: Token)
    | TryRenew(user: User, token: Token)
    | TryRelease(user: User, token: Token)

  datatype Call = Call(at: int, op: Op)

  function Perform(k: Keys, c: Call): Keys {
    match c.op
    case TryAcquire(user, token) => Acquire(k, user, token, c.at)
    case TryRenew(user, token) => Renew(k, user, token, c.at)
    case TryRelease(user, token) => Release(k, user, token, c.at)
  }

  /** What the script answers: granted, still held, or deleted. */
  predicate Answer(k: Keys, c: Call) {
    match c.op
    case TryAcquire(user, token) => Holder(k, user, c.at) == None
    case TryRenew(user, token) => Holder(k, user, c.at) == Some(token)
    case TryRelease(user, token) => Holder(k, user, c.at) == Some(token)
  }

  function PerformAll(k: Keys, calls: seq<Call>): Keys
    decreases |calls|
  {
    if calls == [] then k else PerformAll(Perform(k, calls[0]), calls[1..])
  }

  /** Redis executes the calls in this order, so its clock does not run backwards along them. */
  predicate Ordered(calls: seq<Call>, since: int) {
    calls == [] || (since <= calls[0].at && Ordered(calls[1..], calls[0].at))
  }

  function EndOf(calls: seq<Call>, since: int): int {
    if calls == [] then since else EndOf(calls[1..], calls[0].at)
  }

  /** The moment `token` last refreshed its lease on `user`, having last done so at `since`. */
  function LastRefresh(calls: seq<Call>, user: User, token: Token, since: int): int {
    if calls == [] then since
    else LastRefresh(calls[1..], user, token, if calls[0].op == TryRenew(user, token) then calls[0].at else since)
  }

  /**
   * Every call happens less than a lease after the latest renewal by `token` before it, so
   * consecutive renewals are less than a lease apart; `token` neither releases nor re-acquires.
   */
  predicate Covered(calls: seq<Call>, user: User, token: Token, since: int) {
    calls == [] || (
      && calls[0].at < since + USER_LOCK_TTL
      && calls[0].op != TryRelease(user, token)
      && calls[0].op != TryAcquire(user, token)
      && Covered(calls[1..], user, token, if calls[0].op == TryRenew(user, token) then calls[0].at else since))
  }

  /** Renewing often enough keeps the lease, whatever the other clients do meanwhile. */
  lemma {:induction false} RenewalsKeepTheLease(
    k: Keys, calls: seq<Call>, user: User, token: Token, since: int, now: int)
    requires user in k.lock && k.lock[user] == Timed(token, since + USER_LOCK_TTL)
    requires since <= now && Ordered(calls, now) && Covered(calls, user, token, since)
    ensures var k' := PerformAll(k, calls);
      user in k'.lock && k'.lock[user] == Timed(token, LastRefresh(calls, user, token, since) + USER_LOCK_TTL)
    ensures forall i | 0 <= i < |calls| && calls[i].op.TryAcquire? && calls[i].op.user == user ::
      !Answer(PerformAll(k, calls[..i]), calls[i])
    decreases |calls|
  {
    if calls != [] {
      var c, rest := calls[0], calls[1..];
      var since' := if c.op == TryRenew(user, token) then c.at else since;
      RenewalsKeepTheLease(Perform(k, c), rest, user, token, since', c.at);
      forall i | 0 <= i < |calls| && calls[i].op.TryAcquire? && calls[i].op.user == user
        ensures !Answer(PerformAll(k, calls[..i]), calls[i])
      {
        if i > 0 {
          assert calls[..i][1..] == rest[..i - 1] && calls[..i][0] == c;
          assert calls[i] == rest[i - 1];
        }
      }
    }
  }

  predicate NeverReacquires(calls: seq<Call>, token: Token) {
    forall i :: 0 <= i < |calls| ==> !(calls[i].op.TryAcquire? && calls[i].op.token == token)
  }

  /**
   * A token that has lost its lease has lost it for good: it never holds the key again, all its
   * renewals answer no, and its renewals and releases leave every key as they found it.
   */
  lemma {:induction false} LostForever(k: Keys, calls: seq<Call>, user: User, token: Token, now: int)
    requires Holder(k, user, now) != Some(token)
    requires Ordered(calls, now) && NeverReacquires(calls, token)
    ensures forall t :: EndOf(calls, now) <= t ==> Holder(PerformAll(k, calls), user, t) != Some(token)
    ensures forall i | 0 <= i < |calls| && calls[i].op in {TryRenew(user, token), TryRelease(user, token)} ::
      var before := PerformAll(k, calls[..i]);
      !Answer(before, calls[i]) && Perform(before, calls[i]) == before
    decreases |calls|
  {
    if calls != [] {
      var c, rest := calls[0], calls[1..];
      assert NeverReacquires(rest, token) by {
        assert forall i :: 0 <= i < |rest| ==> rest[i] == calls[i + 1];
      }
      LostForever(Perform(k, c), rest, user, token, c.at);
      forall i | 0 <= i < |calls| && calls[i].op in {TryRenew(user, token), TryRelease(user, token)}
        ensures var before := PerformAll(k, calls[..i]);
          !Answer(before, calls[i]) && Perform(before, calls[i]) == before
      {
        if i > 0 {
          assert calls[..i][1..] == rest[..i - 1] && calls[..i][0] == c;
          assert calls[i] == rest[i - 1];
        }
      }
    }
  }
}
