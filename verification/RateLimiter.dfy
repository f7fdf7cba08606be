/**
 * The distributed per-store limiter: a sliding window kept in one sorted set.
 *
 * Two clocks are involved: the replicas stamp requests, Redis expires the key. The stamps of one
 * store reach Redis in order; how far the Redis clock may gain on them is an explicit hypothesis.
 */
module RateLimiter {
  import opened SortedSets

  type Member = string

  /** The key, expiring on the Redis clock. */
  type Window = Zset<Member>

  const NO_KEY: Window := NoKey()

  datatype Limits = Limits(win: nat, limit: nat)

  datatype Request = Request(now: int, redisNow: int, member: Member)

  /** What the script counts: the key as it stands after the trim. */
  function Trimmed(w: Window, l: Limits, r: Request): map<Member, int> {
    RemoveUpTo(LiveScores(w, r.redisNow), r.now - l.win)
  }

  predicate Limited(w: Window, l: Limits, r: Request) {
    l.limit <= |Trimmed(w, l, r)|
  }

  /** The script. A refused request trims too, and leaves the deadline alone. */
  function Slide(w: Window, l: Limits, r: Request): Window {
    var z := Trimmed(w, l, r);
    if Limited(w, l, r) then Zset(z, w.deadline)
    else Zset(z[r.member := r.now], r.redisNow + l.win + 1000)
  }

  /** Base-10 text of a number, for the member names. */
  function Decimal(n: nat): string {
    (if n < 10 then "" else Decimal(n / 10)) + [DIGITS[n % 10]]
  }

  const DIGITS: string := "0123456789"

  class DistributedStoreLimiter {
    const l: Limits
    const enabled: bool
    const dryRun: bool
    var requestSeq: nat
    var window: Window

    constructor (limit: nat, enabled: bool, dryRun: bool)
      ensures l == Limits(1000, limit) && this.enabled == enabled && this.dryRun == dryRun
      ensures requestSeq == 0 && window == NO_KEY
    {
      this.l := Limits(1000, limit);
      this.enabled, this.dryRun := enabled, dryRun;
      requestSeq := 0;
      window := NO_KEY;
    }

    method SlidingWindow(r: Request) returns (code: int)
      modifies this`window
      ensures window == Slide(old(window), l, r)
      ensures code == if Limited(old(window), l, r) then 1 else 0
    {
      var scores := if r.redisNow < window.deadline then window.scores else map[];
      scores := RemoveUpTo(scores, r.now - l.win);
      if |scores| < l.limit {
        window := Zset(scores[r.member := r.now], r.redisNow + l.win + 1000);
        return 0;
      } else {
        window := Zset(scores, window.deadline);
        return 1;
      }
    }

    method CheckRedis(now: nat, redisNow: int) returns (limited: bool)
      modifies this
      ensures requestSeq == old(requestSeq) + 1
      ensures var r := Request(now, redisNow, MemberOf(now, old(requestSeq)));
        window == Slide(old(window), l, r) && (limited <==> Limited(old(window), l, r))
    {
      var seqNo := requestSeq;
      requestSeq := requestSeq + 1;
      var code := SlidingWindow(Request(now, redisNow, MemberOf(now, seqNo)));
      limited := code == 1;
    }

    method IsLimited(now: nat, redisNow: int) returns (limited: bool)
      modifies this
      ensures limited <==>
        enabled && !dryRun && Limited(old(window), l, Request(now, redisNow, MemberOf(now, old(requestSeq))))
      ensures !enabled ==> window == old(window) && requestSeq == old(requestSeq)
      ensures enabled ==> window == Slide(old(window), l, Request(now, redisNow, MemberOf(now, old(requestSeq))))
    {
      if !enabled {
        return false;
      }
      limited := CheckRedis(now, redisNow);
      if limited && dryRun {
        return false;
      }
    }
  }

  function MemberOf(now: nat, seqNo: nat): Member {
    Decimal(now) + ":" + Decimal(seqNo)
  }

  // ----- Runs -----

  function SlideAll(w: Window, l: Limits, rs: seq<Request>): Window {
    if rs == [] then w else Slide(SlideAll(w, l, rs[..|rs| - 1]), l, rs[|rs| - 1])
  }

  /** The untrimmed history of admissions of a run from an absent key. */
  function Admitted(l: Limits, rs: seq<Request>): seq<Hit<Member>> {
    if rs == [] then []
    else
      var p, r := rs[..|rs| - 1], rs[|rs| - 1];
      NextHistory(l, Admitted(l, p), SlideAll(NO_KEY, l, p), r)
  }

  function NextHistory(l: Limits, h: seq<Hit<Member>>, w: Window, r: Request): seq<Hit<Member>> {
    if Limited(w, l, r) then h else h + [Hit(r.member, r.now)]
  }

  predicate Stamped(rs: seq<Request>) {
    forall i, j | 0 <= i < j < |rs| :: rs[i].now <= rs[j].now
  }

  /** Between two requests the Redis clock never gains more than a second on the stamps. */
  predicate BoundedDrift(rs: seq<Request>) {
    forall i, j | 0 <= i < j < |rs| :: (rs[j].redisNow - rs[i].redisNow) - (rs[j].now - rs[i].now) <= 1000
  }

  predicate DistinctMembers(rs: seq<Request>) {
    forall i, j | 0 <= i < j < |rs| :: rs[i].member != rs[j].member
  }

  /** Request `k` of the run was the last one admitted into `w`. */
  ghost predicate LastAdmission(l: Limits, rs: seq<Request>, h: seq<Hit<Member>>, w: Window, k: nat) {
    && k < |rs|
    && h != [] && h[|h| - 1] == Hit(rs[k].member, rs[k].now)
    && w.deadline == rs[k].redisNow + l.win + 1000
  }

  /** Every admission is one of the requests. */
  ghost predicate FromRequests(h: seq<Hit<Member>>, rs: seq<Request>) {
    forall i | 0 <= i < |h| :: exists k :: 0 <= k < |rs| && h[i] == Hit(rs[k].member, rs[k].now)
  }

  ghost predicate HasLast(l: Limits, rs: seq<Request>, h: seq<Hit<Member>>, w: Window) {
    h != [] ==> exists k :: LastAdmission(l, rs, h, w, k)
  }

  /** Above the window that ended at the latest request, the key shows the history. */
  ghost predicate ShowsLatest(l: Limits, rs: seq<Request>, h: seq<Hit<Member>>, w: Window) {
    if rs == [] then w == NO_KEY && h == [] else w.scores == View(h, rs[|rs| - 1].now - l.win)
  }

  ghost predicate RunInv(l: Limits, rs: seq<Request>, h: seq<Hit<Member>>, w: Window) {
    FromRequests(h, rs) && Ascending(h) && HasLast(l, rs, h, w) && ShowsLatest(l, rs, h, w)
  }

  lemma Unfold(l: Limits, p: seq<Request>, r: Request)
    ensures SlideAll(NO_KEY, l, p + [r]) == Slide(SlideAll(NO_KEY, l, p), l, r)
    ensures Admitted(l, p + [r]) == NextHistory(l, Admitted(l, p), SlideAll(NO_KEY, l, p), r)
  {
    assert (p + [r])[..|p|] == p;
  }

  lemma PrefixIsStamped(rs: seq<Request>, r: Request)
    requires Stamped(rs + [r]) && BoundedDrift(rs + [r])
    ensures Stamped(rs) && BoundedDrift(rs)
    ensures forall i | 0 <= i < |rs| ::
              rs[i].now <= r.now && (r.redisNow - rs[i].redisNow) - (r.now - rs[i].now) <= 1000
  {
    var all := rs + [r];
    assert all[|rs|] == r && forall i | 0 <= i < |rs| :: all[i] == rs[i];
  }

  lemma HistoryIsPast(rs: seq<Request>, h: seq<Hit<Member>>, now: int)
    requires FromRequests(h, rs) && forall i | 0 <= i < |rs| :: rs[i].now <= now
    ensures UpTo(h, now)
  {
  }

  /** Once Redis has expired the key, every admission is out of the window. */
  lemma ExpiredHistoryIsOld(l: Limits, rs: seq<Request>, h: seq<Hit<Member>>, w: Window, r: Request, k: nat)
    requires Stamped(rs + [r]) && BoundedDrift(rs + [r]) && LastAdmission(l, rs, h, w, k)
    requires Ascending(h) && w.deadline <= r.redisNow
    ensures UpTo(h, r.now - l.win)
  {
    PrefixIsStamped(rs, r);
  }

  /** At the next request, live or expired, the trimmed key shows the whole history. */
  lemma TrimmedShowsHistory(l: Limits, rs: seq<Request>, h: seq<Hit<Member>>, w: Window, r: Request)
    requires Stamped(rs + [r]) && BoundedDrift(rs + [r]) && Ascending(h)
    requires HasLast(l, rs, h, w) && ShowsLatest(l, rs, h, w)
    ensures Trimmed(w, l, r) == View(h, r.now - l.win)
  {
    PrefixIsStamped(rs, r);
    if rs != [] && r.redisNow < w.deadline {
      TrimOfView(h, rs[|rs| - 1].now - l.win, r.now - l.win);
    } else {
      if h != [] {
        var k :| LastAdmission(l, rs, h, w, k);
        ExpiredHistoryIsOld(l, rs, h, w, r, k);
      }
      ViewOfOld(h, r.now - l.win);
      assert Trimmed(w, l, r) == map[];
    }
  }

  lemma FromRequestsStep(h: seq<Hit<Member>>, rs: seq<Request>, r: Request)
    requires FromRequests(h, rs)
    ensures FromRequests(h, rs + [r]) && FromRequests(h + [Hit(r.member, r.now)], rs + [r])
  {
    var h', rs' := h + [Hit(r.member, r.now)], rs + [r];
    assert rs'[|rs|] == r;
    forall i | 0 <= i < |h'| ensures exists k :: 0 <= k < |rs'| && h'[i] == Hit(rs'[k].member, rs'[k].now) {
      if i < |h| {
        var k :| 0 <= k < |rs| && h[i] == Hit(rs[k].member, rs[k].now);
        assert rs'[k] == rs[k];
      } else {
        assert h'[i] == Hit(rs'[|rs|].member, rs'[|rs|].now);
      }
    }
    forall i | 0 <= i < |h| ensures exists k :: 0 <= k < |rs'| && h[i] == Hit(rs'[k].member, rs'[k].now) {
      assert h'[i] == h[i];
    }
  }

  lemma LastStep(l: Limits, p: seq<Request>, h: seq<Hit<Member>>, w: Window, r: Request)
    requires HasLast(l, p, h, w)
    ensures HasLast(l, p + [r], NextHistory(l, h, w, r), Slide(w, l, r))
  {
    if Limited(w, l, r) {
      if h != [] {
        var k :| LastAdmission(l, p, h, w, k);
        assert LastAdmission(l, p + [r], h, Slide(w, l, r), k);
      }
    } else {
      assert LastAdmission(l, p + [r], h + [Hit(r.member, r.now)], Slide(w, l, r), |p|);
    }
  }

  lemma ShowsStep(l: Limits, p: seq<Request>, h: seq<Hit<Member>>, w: Window, r: Request)
    requires 0 < l.win && Trimmed(w, l, r) == View(h, r.now - l.win)
    ensures ShowsLatest(l, p + [r], NextHistory(l, h, w, r), Slide(w, l, r))
  {
    if !Limited(w, l, r) {
      ViewAfterAdd(h, r.now - l.win, Hit(r.member, r.now));
    }
  }

  lemma RunInvStep(l: Limits, p: seq<Request>, h: seq<Hit<Member>>, w: Window, r: Request)
    requires 0 < l.win && Stamped(p + [r]) && BoundedDrift(p + [r])
    requires RunInv(l, p, h, w)
    ensures RunInv(l, p + [r], NextHistory(l, h, w, r), Slide(w, l, r))
  {
    PrefixIsStamped(p, r);
    HistoryIsPast(p, h, r.now);
    TrimmedShowsHistory(l, p, h, w, r);
    FromRequestsStep(h, p, r);
    AscendingStep(h, Hit(r.member, r.now));
    LastStep(l, p, h, w, r);
    ShowsStep(l, p, h, w, r);
  }

  lemma AscendingStep(h: seq<Hit<Member>>, x: Hit<Member>)
    requires Ascending(h) && UpTo(h, x.at)
    ensures Ascending(h + [x])
  {
  }

  lemma {:induction false} RunInvHolds(l: Limits, rs: seq<Request>)
    requires 0 < l.win && Stamped(rs) && BoundedDrift(rs)
    ensures RunInv(l, rs, Admitted(l, rs), SlideAll(NO_KEY, l, rs))
  {
    if rs != [] {
      var p, r := rs[..|rs| - 1], rs[|rs| - 1];
      assert p + [r] == rs;
      Unfold(l, p, r);
      PrefixIsStamped(p, r);
      RunInvHolds(l, p);
      RunInvStep(l, p, Admitted(l, p), SlideAll(NO_KEY, l, p), r);
    }
  }

  /**
   * Trimming and expiry are unobservable: a request is refused exactly when `limit` different members
   * were admitted, by the untrimmed history, in the window that ends at it.
   */
  lemma RefusedExactlyWhenWindowIsFull(l: Limits, rs: seq<Request>, r: Request)
    requires 0 < l.win && Stamped(rs + [r]) && BoundedDrift(rs + [r])
    ensures Limited(SlideAll(NO_KEY, l, rs), l, r) <==> l.limit <= |MembersAfter(Admitted(l, rs), r.now - l.win)|
    ensures UpTo(Admitted(l, rs), r.now)
  {
    PrefixIsStamped(rs, r);
    RunInvHolds(l, rs);
    TrimmedSize(l, rs, Admitted(l, rs), SlideAll(NO_KEY, l, rs), r);
  }

  lemma TrimmedSize(l: Limits, rs: seq<Request>, h: seq<Hit<Member>>, w: Window, r: Request)
    requires Stamped(rs + [r]) && BoundedDrift(rs + [r]) && RunInv(l, rs, h, w)
    ensures |Trimmed(w, l, r)| == |MembersAfter(h, r.now - l.win)| && UpTo(h, r.now)
  {
    PrefixIsStamped(rs, r);
    HistoryIsPast(rs, h, r.now);
    TrimmedShowsHistory(l, rs, h, w, r);
    ViewKeys(h, r.now - l.win);
  }

  /** With distinct members, what decides is the number of admissions in `(now - win, now]`. */
  lemma RefusedExactlyWhenCountReachesLimit(l: Limits, rs: seq<Request>, r: Request)
    requires 0 < l.win && Stamped(rs + [r]) && BoundedDrift(rs + [r]) && DistinctMembers(rs)
    ensures Limited(SlideAll(NO_KEY, l, rs), l, r) <==> l.limit <= CountWithin(Admitted(l, rs), r.now - l.win, r.now)
  {
    PrefixIsStamped(rs, r);
    RunInvHolds(l, rs);
    AdmittedAreDistinct(l, rs, r.now - l.win);
    CountDecides(l, rs, Admitted(l, rs), SlideAll(NO_KEY, l, rs), r);
  }

  lemma CountDecides(l: Limits, rs: seq<Request>, h: seq<Hit<Member>>, w: Window, r: Request)
    requires Stamped(rs + [r]) && BoundedDrift(rs + [r]) && RunInv(l, rs, h, w) && DistinctAfter(h, r.now - l.win)
    ensures Limited(w, l, r) <==> l.limit <= CountWithin(h, r.now - l.win, r.now)
  {
    TrimmedSize(l, rs, h, w, r);
    DistinctPastIsItsMembers(h, r.now - l.win, r.now);
  }

  lemma HitsStayDistinct(p: seq<Request>, r: Request, h: seq<Hit<Member>>, cutoff: int)
    requires DistinctMembers(p + [r]) && FromRequests(h, p) && DistinctAfter(h, cutoff)
    ensures DistinctAfter(h + [Hit(r.member, r.now)], cutoff)
  {
    forall i | 0 <= i < |h| ensures h[i].member != r.member {
      var k :| 0 <= k < |p| && h[i] == Hit(p[k].member, p[k].now);
      assert (p + [r])[k] == p[k] && (p + [r])[|p|] == r;
    }
  }

  lemma PrefixIsDistinct(p: seq<Request>, r: Request)
    requires DistinctMembers(p + [r])
    ensures DistinctMembers(p)
  {
    assert forall i | 0 <= i < |p| :: (p + [r])[i] == p[i];
  }

  lemma {:induction false} AdmittedAreDistinct(l: Limits, rs: seq<Request>, cutoff: int)
    requires DistinctMembers(rs)
    ensures FromRequests(Admitted(l, rs), rs) && DistinctAfter(Admitted(l, rs), cutoff)
  {
    if rs != [] {
      var p, r := rs[..|rs| - 1], rs[|rs| - 1];
      assert p + [r] == rs;
      PrefixIsDistinct(p, r);
      AdmittedAreDistinct(l, p, cutoff);
      Unfold(l, p, r);
      FromRequestsStep(Admitted(l, p), p, r);
      HitsStayDistinct(p, r, Admitted(l, p), cutoff);
    }
  }

  lemma WindowStep(win: nat, limit: nat, h: seq<Hit<Member>>, hit: Hit<Member>, x: int)
    requires UpTo(h, hit.at) && |MembersAfter(h, hit.at - win)| < limit
    requires |MembersWithin(h, x, x + win)| <= limit
    ensures |MembersWithin(h + [hit], x, x + win)| <= limit
  {
    MembersWithinLast(h, hit, x, x + win);
    if x < hit.at <= x + win {
      WithinIsAmongLater(h, x, x + win, hit.at - win);
      OneMoreMember(MembersWithin(h, x, x + win), hit.member);
    }
  }

  lemma NextWithinLimit(l: Limits, h: seq<Hit<Member>>, w: Window, r: Request, x: int)
    requires Limited(w, l, r) <==> l.limit <= |MembersAfter(h, r.now - l.win)|
    requires UpTo(h, r.now) && |MembersWithin(h, x, x + l.win)| <= l.limit
    ensures |MembersWithin(NextHistory(l, h, w, r), x, x + l.win)| <= l.limit
  {
    if !Limited(w, l, r) {
      WindowStep(l.win, l.limit, h, Hit(r.member, r.now), x);
    }
  }

  /** Wherever a window of `win` milliseconds is placed, at most `limit` members were admitted in it. */
  lemma {:induction false} WindowsAdmitAtMostLimitMembers(l: Limits, rs: seq<Request>, x: int)
    requires 0 < l.win && Stamped(rs) && BoundedDrift(rs)
    ensures |MembersWithin(Admitted(l, rs), x, x + l.win)| <= l.limit
  {
    if rs == [] {
      assert MembersWithin(Admitted(l, rs), x, x + l.win) == {};
    } else {
      var p, r := rs[..|rs| - 1], rs[|rs| - 1];
      assert p + [r] == rs;
      Unfold(l, p, r);
      PrefixIsStamped(p, r);
      WindowsAdmitAtMostLimitMembers(l, p, x);
      RefusedExactlyWhenWindowIsFull(l, p, r);
      NextWithinLimit(l, Admitted(l, p), SlideAll(NO_KEY, l, p), r, x);
    }
  }

  lemma WithinIsAmongLater(h: seq<Hit<Member>>, lo: int, hi: int, cutoff: int)
    requires cutoff <= lo
    ensures |MembersWithin(h, lo, hi)| <= |MembersAfter(h, cutoff)|
  {
    var a, b := MembersWithin(h, lo, hi), MembersAfter(h, cutoff);
    assert a <= b;
    assert b == a + (b - a);
  }

  lemma OneMoreMember(a: set<Member>, m: Member)
    ensures |a + {m}| <= |a| + 1
  {
    if m in a {
      assert a + {m} == a;
    }
  }

  /** With distinct members, no window of that width holds more than `limit` admitted requests. */
  lemma WindowsAdmitAtMostLimit(l: Limits, rs: seq<Request>, x: int)
    requires 0 < l.win && Stamped(rs) && BoundedDrift(rs) && DistinctMembers(rs)
    ensures CountWithin(Admitted(l, rs), x, x + l.win) <= l.limit
  {
    WindowsAdmitAtMostLimitMembers(l, rs, x);
    AdmittedAreDistinct(l, rs, x);
    DistinctHitsAreTheirMembers(Admitted(l, rs), x, x + l.win);
  }

  // ----- Which members are distinct -----

  predicate Digits(s: string) {
    forall c | c in s :: c in DIGITS
  }

  lemma {:induction false} DecimalIsDigits(n: nat)
    ensures Digits(Decimal(n)) && Decimal(n) != ""
  {
    if n >= 10 {
      DecimalIsDigits(n / 10);
    }
  }

  lemma {:induction false} DecimalIsInjective(m: nat, n: nat)
    requires Decimal(m) == Decimal(n)
    ensures m == n
  {
    var s := Decimal(m);
    assert s[|s| - 1] == DIGITS[m % 10] == DIGITS[n % 10];
    DecimalIsDigits(m / 10);
    DecimalIsDigits(n / 10);
    if m >= 10 && n >= 10 {
      assert Decimal(m / 10) == s[..|s| - 1] == Decimal(n / 10);
      DecimalIsInjective(m / 10, n / 10);
    } else {
      assert m < 10 ==> |s| == 1;
      assert m >= 10 ==> |s| > 1;
    }
  }

  /** A member names its stamp and its sequence number. */
  lemma MembersNameTheirNumbers(now: nat, seqNo: nat, now': nat, seqNo': nat)
    requires MemberOf(now, seqNo) == MemberOf(now', seqNo')
    ensures now == now' && seqNo == seqNo'
  {
    var m, a, a' := MemberOf(now, seqNo), Decimal(now), Decimal(now');
    DecimalIsDigits(now);
    DecimalIsDigits(now');
    assert forall i | 0 <= i < |a| :: m[i] == a[i] && a[i] in DIGITS;
    assert forall i | 0 <= i < |a'| :: m[i] == a'[i] && a'[i] in DIGITS;
    assert m[|a|] == ':' && m[|a'|] == ':' && ':' !in DIGITS;
    assert a == m[..|a|] == a';
    assert Decimal(seqNo) == m[|a| + 1..] == Decimal(seqNo');
    DecimalIsInjective(now, now');
    DecimalIsInjective(seqNo, seqNo');
  }

  /**
   * One process draws its numbers once each, over all the stores it serves, so the members it draws
   * for one store are distinct whatever its clock does.
   */
  lemma OneProcessHasDistinctMembers(rs: seq<Request>, seqNos: seq<nat>)
    requires |seqNos| == |rs| && forall i, j | 0 <= i < j < |seqNos| :: seqNos[i] != seqNos[j]
    requires forall i | 0 <= i < |rs| :: 0 <= rs[i].now && rs[i].member == MemberOf(rs[i].now, seqNos[i])
    ensures DistinctMembers(rs)
  {
    forall i, j | 0 <= i < j < |rs| ensures rs[i].member != rs[j].member {
      if rs[i].member == rs[j].member {
        MembersNameTheirNumbers(rs[i].now, seqNos[i], rs[j].now, seqNos[j]);
      }
    }
  }

  // ----- What exceeds the limit -----

  /** Requests of one instant. */
  function Burst(now: int, members: seq<Member>): (rs: seq<Request>)
    ensures |rs| == |members| && forall i | 0 <= i < |rs| :: rs[i] == Request(now, now, members[i])
  {
    seq(|members|, i requires 0 <= i < |members| => Request(now, now, members[i]))
  }

  function BurstHits(now: int, members: seq<Member>): (h: seq<Hit<Member>>)
    ensures |h| == |members| && forall i | 0 <= i < |h| :: h[i] == Hit(members[i], now)
  {
    seq(|members|, i requires 0 <= i < |members| => Hit(members[i], now))
  }

  function Names(members: seq<Member>): set<Member> {
    set m | m in members
  }

  /** The key after a burst has been admitted. */
  function BurstWindow(l: Limits, now: int, members: seq<Member>): Window {
    if members == [] then NO_KEY else Zset(map m | m in members :: now, now + l.win + 1000)
  }

  lemma NamesOfPrefix(members: seq<Member>)
    requires members != []
    ensures |Names(members[..|members| - 1])| <= |Names(members)| <= |Names(members[..|members| - 1])| + 1
  {
    var p, last := members[..|members| - 1], members[|members| - 1];
    assert members == p + [last];
    assert Names(members) == Names(p) + {last};
    if last in Names(p) {
      assert Names(members) == Names(p);
    }
  }

  lemma {:induction false} NoMoreNamesThanMembers(members: seq<Member>)
    ensures |Names(members)| <= |members|
  {
    if members == [] {
      assert Names(members) == {};
    } else {
      NamesOfPrefix(members);
      NoMoreNamesThanMembers(members[..|members| - 1]);
    }
  }

  lemma BurstStep(l: Limits, now: int, p: seq<Member>, last: Member)
    requires 0 < l.win && |Names(p)| < l.limit
    ensures var w, r := BurstWindow(l, now, p), Request(now, now, last);
      !Limited(w, l, r) && Slide(w, l, r) == BurstWindow(l, now, p + [last])
  {
    var w, r := BurstWindow(l, now, p), Request(now, now, last);
    assert Trimmed(w, l, r) == map m | m in p :: now;
    assert Trimmed(w, l, r).Keys == Names(p);
    assert |Trimmed(w, l, r)| == |Trimmed(w, l, r).Keys|;
    assert (map m | m in p :: now)[last := now] == map m | m in p + [last] :: now;
  }

  lemma BurstGrows(now: int, p: seq<Member>, last: Member)
    ensures Burst(now, p + [last]) == Burst(now, p) + [Request(now, now, last)]
    ensures BurstHits(now, p + [last]) == BurstHits(now, p) + [Hit(last, now)]
  {
  }

  /** The burst has been admitted whole. */
  ghost predicate BurstGotIn(l: Limits, now: int, members: seq<Member>) {
    && Admitted(l, Burst(now, members)) == BurstHits(now, members)
    && SlideAll(NO_KEY, l, Burst(now, members)) == BurstWindow(l, now, members)
  }

  lemma OneMoreGetsIn(l: Limits, now: int, p: seq<Member>, last: Member)
    requires 0 < l.win && |Names(p)| < l.limit && BurstGotIn(l, now, p)
    ensures BurstGotIn(l, now, p + [last])
  {
    BurstStep(l, now, p, last);
    BurstGrows(now, p, last);
    Unfold(l, Burst(now, p), Request(now, now, last));
  }

  /** A burst is admitted whole as long as fewer members than the limit come before its last request. */
  lemma {:induction false} BurstIsAdmitted(l: Limits, now: int, members: seq<Member>)
    requires 0 < l.win && (members != [] ==> |Names(members[..|members| - 1])| < l.limit)
    ensures BurstGotIn(l, now, members)
    decreases |members|
  {
    if members != [] {
      var p, last := members[..|members| - 1], members[|members| - 1];
      if p != [] {
        NamesOfPrefix(p);
      }
      BurstIsAdmitted(l, now, p);
      OneMoreGetsIn(l, now, p, last);
      assert p + [last] == members;
    }
  }

  lemma {:induction false} AllWithinAreCounted(h: seq<Hit<Member>>, lo: int, hi: int)
    requires forall i | 0 <= i < |h| :: lo < h[i].at <= hi
    ensures CountWithin(h, lo, hi) == |h|
  {
    if h != [] {
      AllWithinAreCounted(h[..|h| - 1], lo, hi);
    }
  }

  function Numbered(n: nat): (members: seq<Member>)
    ensures |members| == n && forall i | 0 <= i < n :: members[i] == Decimal(i)
  {
    seq(n, i requires 0 <= i < n => Decimal(i))
  }

  /** No more than the limit is admitted in the window after `x`. */
  predicate KeepsLimit(l: Limits, rs: seq<Request>, x: int) {
    CountWithin(Admitted(l, rs), x, x + l.win) <= l.limit
  }

  predicate DriftWithin(rs: seq<Request>, drift: int) {
    forall i, j | 0 <= i < j < |rs| :: (rs[j].redisNow - rs[i].redisNow) - (rs[j].now - rs[i].now) <= drift
  }

  /** On every run of distinct members whose Redis clock gains at most `drift`, every window keeps the limit. */
  ghost predicate DriftIsSafe(l: Limits, drift: int) {
    forall rs: seq<Request>, x: int | Stamped(rs) && DriftWithin(rs, drift) && DistinctMembers(rs) ::
      KeepsLimit(l, rs, x)
  }

  /** A full window, and a request at its end that meets the key just expired. */
  function FullWindowAndOneMore(l: Limits): seq<Request> {
    Burst(0, Numbered(l.limit)) + [Request(l.win - 1, l.win + 1000, Decimal(l.limit))]
  }

  lemma FullWindowIsDistinct(l: Limits)
    ensures DistinctMembers(FullWindowAndOneMore(l))
  {
    var rs := FullWindowAndOneMore(l);
    forall i, j | 0 <= i < j < |rs| ensures rs[i].member != rs[j].member {
      assert rs[i].member == Decimal(i) && rs[j].member == Decimal(j);
      if Decimal(i) == Decimal(j) {
        DecimalIsInjective(i, j);
      }
    }
  }

  lemma ExpiredKeyAdmits(l: Limits, w: Window, r: Request)
    requires 0 < l.limit && w.deadline <= r.redisNow
    ensures !Limited(w, l, r)
  {
    assert Trimmed(w, l, r) == map[];
  }

  lemma FullWindowDrifts(l: Limits)
    requires 0 < l.win
    ensures Stamped(FullWindowAndOneMore(l)) && DriftWithin(FullWindowAndOneMore(l), 1001)
  {
  }

  lemma OneMoreHit(l: Limits, rs: seq<Request>, h: seq<Hit<Member>>, w: Window, r: Request)
    requires Admitted(l, rs) == h && SlideAll(NO_KEY, l, rs) == w && !Limited(w, l, r)
    ensures Admitted(l, rs + [r]) == h + [Hit(r.member, r.now)]
  {
    Unfold(l, rs, r);
  }

  /** With a drift of a millisecond more than a second, a full window admits one more. */
  lemma DriftBeyondTheSlackAdmitsTooMany(l: Limits)
    requires 0 < l.win && 0 < l.limit
    ensures var rs := FullWindowAndOneMore(l);
      && Stamped(rs) && DriftWithin(rs, 1001) && DistinctMembers(rs)
      && CountWithin(Admitted(l, rs), -1, -1 + l.win) == l.limit + 1
  {
    FullWindowIsDistinct(l);
    FullWindowDrifts(l);
    FullWindowIsExceeded(l, Numbered(l.limit), Request(l.win - 1, l.win + 1000, Decimal(l.limit)));
  }

  lemma FullWindowIsExceeded(l: Limits, members: seq<Member>, last: Request)
    requires 0 < l.win && 0 < l.limit == |members| && last.now == l.win - 1 && last.redisNow == l.win + 1000
    ensures CountWithin(Admitted(l, Burst(0, members) + [last]), -1, -1 + l.win) == l.limit + 1
  {
    NoMoreNamesThanMembers(members[..|members| - 1]);
    BurstIsAdmitted(l, 0, members);
    ExpiredKeyAdmits(l, BurstWindow(l, 0, members), last);
    OneMoreHit(l, Burst(0, members), BurstHits(0, members), BurstWindow(l, 0, members), last);
    OneMoreIsCounted(BurstHits(0, members), Hit(last.member, last.now), l.win);
  }

  lemma OneMoreIsCounted(h: seq<Hit<Member>>, last: Hit<Member>, win: nat)
    requires 0 < win && last.at == win - 1 && forall i | 0 <= i < |h| :: h[i].at == 0
    ensures CountWithin(h + [last], -1, -1 + win) == |h| + 1
  {
    AllWithinAreCounted(h + [last], -1, -1 + win);
  }

  /** The extra second of lifetime is the exact slack: a drift is safe up to a second, and no more. */
  lemma DriftIsSafeExactlyUpToASecond(l: Limits, drift: int)
    requires 0 < l.win && 0 < l.limit
    ensures DriftIsSafe(l, drift) <==> drift <= 1000
  {
    if drift <= 1000 {
      forall rs: seq<Request>, x: int | Stamped(rs) && DriftWithin(rs, drift) && DistinctMembers(rs)
        ensures KeepsLimit(l, rs, x)
      {
        assert BoundedDrift(rs);
        WindowsAdmitAtMostLimit(l, rs, x);
      }
    } else {
      var rs := FullWindowAndOneMore(l);
      DriftBeyondTheSlackAdmitsTooMany(l);
      assert DriftWithin(rs, drift) && !KeepsLimit(l, rs, -1);
    }
  }

  /**
   * Members are numbered per process, so two replicas can draw the same one in the same millisecond;
   * each then overwrites the other, and with a limit of two or more all of them are admitted.
   */
  lemma CollidingMembersAreAllAdmitted(l: Limits, now: int, copies: seq<Member>)
    requires 0 < l.win && 2 <= l.limit && forall i, j | 0 <= i < j < |copies| :: copies[i] == copies[j]
    ensures Stamped(Burst(now, copies)) && BoundedDrift(Burst(now, copies))
    ensures CountWithin(Admitted(l, Burst(now, copies)), now - 1, now - 1 + l.win) == |copies|
  {
    CopiesHaveOneName(copies);
    BurstIsOnTime(now, copies);
    BurstIsCounted(l, now, copies);
  }

  lemma CopiesHaveOneName(copies: seq<Member>)
    requires forall i, j | 0 <= i < j < |copies| :: copies[i] == copies[j]
    ensures copies != [] ==> |Names(copies[..|copies| - 1])| <= 1
  {
    if copies != [] {
      var names := Names(copies[..|copies| - 1]);
      assert names <= {copies[0]};
      assert names == {} || names == {copies[0]};
    }
  }

  lemma BurstIsOnTime(now: int, members: seq<Member>)
    ensures Stamped(Burst(now, members)) && BoundedDrift(Burst(now, members))
  {
  }

  lemma BurstIsCounted(l: Limits, now: int, members: seq<Member>)
    requires 0 < l.win && (members != [] ==> |Names(members[..|members| - 1])| < l.limit)
    ensures CountWithin(Admitted(l, Burst(now, members)), now - 1, now - 1 + l.win) == |members|
  {
    BurstIsAdmitted(l, now, members);
    AllWithinAreCounted(BurstHits(now, members), now - 1, now - 1 + l.win);
  }

  lemma {:induction false} NoMembersNoHits(h: seq<Hit<Member>>, cutoff: int, lo: int, hi: int)
    requires MembersAfter(h, cutoff) == {} && cutoff <= lo
    ensures CountWithin(h, lo, hi) == 0
  {
    if h != [] {
      MembersAfterLast(h, cutoff);
      NoMembersNoHits(h[..|h| - 1], cutoff, lo, hi);
    }
  }

  lemma NextIsAloneInItsWindow(l: Limits, h: seq<Hit<Member>>, w: Window, r: Request, x: int)
    requires Limited(w, l, r) <==> l.limit <= |MembersAfter(h, r.now - l.win)|
    requires l.limit <= 1 && CountWithin(h, x, x + l.win) <= l.limit
    ensures CountWithin(NextHistory(l, h, w, r), x, x + l.win) <= l.limit
  {
    if !Limited(w, l, r) {
      assert (h + [Hit(r.member, r.now)])[..|h|] == h;
      assert MembersAfter(h, r.now - l.win) == {};
      if x < r.now <= x + l.win {
        NoMembersNoHits(h, r.now - l.win, x, x + l.win);
      }
    }
  }

  /** With a limit of at most one, repeated members do no harm. */
  lemma {:induction false} ALimitOfOneHoldsForAnyMembers(l: Limits, rs: seq<Request>, x: int)
    requires 0 < l.win && l.limit <= 1 && Stamped(rs) && BoundedDrift(rs)
    ensures CountWithin(Admitted(l, rs), x, x + l.win) <= l.limit
  {
    if rs != [] {
      var p, r := rs[..|rs| - 1], rs[|rs| - 1];
      assert p + [r] == rs;
      Unfold(l, p, r);
      PrefixIsStamped(p, r);
      ALimitOfOneHoldsForAnyMembers(l, p, x);
      RefusedExactlyWhenWindowIsFull(l, p, r);
      NextIsAloneInItsWindow(l, Admitted(l, p), SlideAll(NO_KEY, l, p), r, x);
    }
  }

  /** Whatever members the requests carry, every window keeps the limit. */
  ghost predicate AnyMembersAreSafe(l: Limits) {
    forall rs: seq<Request>, x: int | Stamped(rs) && BoundedDrift(rs) ::
      KeepsLimit(l, rs, x)
  }

  lemma AnyMembersAreSafeExactlyUpToOne(l: Limits)
    requires 0 < l.win
    ensures AnyMembersAreSafe(l) <==> l.limit <= 1
  {
    if l.limit <= 1 {
      forall rs: seq<Request>, x: int | Stamped(rs) && BoundedDrift(rs)
        ensures KeepsLimit(l, rs, x)
      {
        ALimitOfOneHoldsForAnyMembers(l, rs, x);
      }
    } else {
      var copies := seq(l.limit + 1, i => "0:0");
      CollidingMembersAreAllAdmitted(l, 0, copies);
      assert !KeepsLimit(l, Burst(0, copies), -1);
    }
  }
}
