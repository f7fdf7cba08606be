/**
 * The enrichment window script: idempotency, rolling counts, cart delta and checkout progress of a
 * session, computed from sorted sets and a hash that trim and expire.
 *
 * Time is in milliseconds on one clock; cart values are whole ten-thousandths, the precision in
 * which the client sends them. Keys are those of any number of sessions.
 */
module SessionWindow {
  import opened SortedSets

  type Sid = string
  type Eid = string

  datatype EventType = RageClick | Add | Remove | ExitIntent | CheckoutStep(step: nat) | Other

  datatype Event = Event(sid: Sid, eid: Eid, now: int, etype: EventType, cart: int)

  /** TTLs in seconds, from the service configuration. */
  datatype Config = Config(winTtl: int, sessTtl: int, idemTtl: int) {
    predicate Valid() {
      0 < winTtl && 0 < sessTtl && 0 < idemTtl
    }
  }

  /** The four sets of event ids; `session:window` takes every event, the others one type each. */
  datatype Kind = Main | Rage | Adds | Exits

  predicate Feeds(e: Event, kind: Kind) {
    match kind
    case Main => true
    case Rage => e.etype.RageClick?
    case Adds => e.etype.Add?
    case Exits => e.etype.ExitIntent?
  }

  /** How far back the count over a set reaches. */
  function Reach(kind: Kind): int {
    match kind
    case Main => 60000
    case Rage => 30000
    case Adds => 60000
    case Exits => 300000
  }

  const CART_TTL: int := 120
  const CART_REACH: int := 120000

  /** A member of the cart set: the signed value in front of the event id. */
  datatype CartMember = CartMember(value: int, eid: Eid)

  /** The session hash; zero stands for a timestamp that is not set, -1 for no checkout step. */
  datatype Hash = Hash(lastEventTs: int, firstEventTs: int, checkoutMax: int, currentStep: int, deadline: int)

  const NO_HASH: Hash := Hash(0, 0, -1, -1, 0)

  datatype Store = Store(
    seen: map<Eid, int>,               // session:seen:{eid}, by deadline
    windows: map<(Sid, Kind), Zset<Eid>>,
    carts: map<Sid, Zset<CartMember>>,
    hashes: map<Sid, Hash>)

  const EMPTY: Store := Store(map[], map[], map[], map[])

  function WindowAt(st: Store, sid: Sid, kind: Kind): Zset<Eid> {
    if (sid, kind) in st.windows then st.windows[(sid, kind)] else NoKey()
  }

  function CartAt(st: Store, sid: Sid): Zset<CartMember> {
    if sid in st.carts then st.carts[sid] else NoKey()
  }

  /** The hash as `HGET` shows it, expired fields reading as their defaults. */
  function HashAt(st: Store, sid: Sid, now: int): Hash {
    if sid in st.hashes && now < st.hashes[sid].deadline then st.hashes[sid] else NO_HASH
  }

  predicate Accepted(st: Store, e: Event) {
    !(e.eid in st.seen && e.now < st.seen[e.eid])
  }

  /** The trim cutoff counts whole seconds. */
  function Cutoff(cfg: Config, now: int): int {
    (now / 1000 - cfg.winTtl) * 1000
  }

  function NextWindow(cfg: Config, z: Zset<Eid>, e: Event, kind: Kind): Zset<Eid> {
    if Feeds(e, kind) then Touch(z, Hit(e.eid, e.now), cfg.winTtl * 1000, Cutoff(cfg, e.now)) else z
  }

  predicate FeedsCart(e: Event) {
    e.etype.Add? || e.etype.Remove?
  }

  function CartHit(e: Event): Hit<CartMember> {
    Hit(CartMember(if e.etype.Add? then e.cart else -e.cart, e.eid), e.now)
  }

  function NextCart(z: Zset<CartMember>, e: Event): Zset<CartMember> {
    if FeedsCart(e) then Touch(z, CartHit(e), CART_TTL * 1000, e.now - CART_REACH) else z
  }

  function NextHash(cfg: Config, h: Hash, e: Event): Hash {
    var step := if e.etype.CheckoutStep? then e.etype.step else -1;
    Hash(
      e.now,
      if h.firstEventTs == 0 then e.now else h.firstEventTs,
      if step >= 0 && step > h.checkoutMax then step else h.checkoutMax,
      if step >= 0 then step else h.currentStep,
      e.now + cfg.sessTtl * 1000)
  }

  function NextWindows(cfg: Config, st: Store, e: Event): map<(Sid, Kind), Zset<Eid>> {
    st.windows[(e.sid, Main) := NextWindow(cfg, WindowAt(st, e.sid, Main), e, Main)]
              [(e.sid, Rage) := NextWindow(cfg, WindowAt(st, e.sid, Rage), e, Rage)]
              [(e.sid, Adds) := NextWindow(cfg, WindowAt(st, e.sid, Adds), e, Adds)]
              [(e.sid, Exits) := NextWindow(cfg, WindowAt(st, e.sid, Exits), e, Exits)]
  }

  /** The keys after the script. A duplicate leaves them alone. */
  function Next(cfg: Config, st: Store, e: Event): Store {
    if !Accepted(st, e) then st
    else Store(
      st.seen[e.eid := e.now + cfg.idemTtl * 1000],
      NextWindows(cfg, st, e),
      st.carts[e.sid := NextCart(CartAt(st, e.sid), e)],
      st.hashes[e.sid := NextHash(cfg, HashAt(st, e.sid, e.now), e)])
  }

  /** `ZCOUNT` over the set of `kind`, after the script's updates. */
  function Count(st: Store, e: Event, kind: Kind): nat {
    CountFrom(LiveScores(WindowAt(st, e.sid, kind), e.now), e.now - Reach(kind))
  }

  /** The cart members the summing loop visits. */
  function CartEntries(st: Store, e: Event): set<CartMember> {
    RangeFrom(LiveScores(CartAt(st, e.sid), e.now), e.now - CART_REACH)
  }

  datatype Features = Features(
    rageClicks30s: nat, addToCart60s: nat, exitIntent5m: nat, eventsPerMinute: nat,
    cartDelta: int, timeOnSite: int, sinceLastEvent: int, checkoutMax: int, currentStep: int)

  datatype Reply = Duplicate | New(features: Features)

  /** The sum of the values of a set of members, in whatever order they are visited. */
  ghost function SumValues(s: set<CartMember>): int {
    if s == {} then 0
    else
      var m :| m in s;
      m.value + SumValues(s - {m})
  }

  lemma {:induction false} SumWithout(s: set<CartMember>, m: CartMember)
    requires m in s
    ensures SumValues(s) == m.value + SumValues(s - {m})
  {
    var p :| p in s && SumValues(s) == p.value + SumValues(s - {p});
    if p != m {
      SumWithout(s - {p}, m);
      SumWithout(s - {m}, p);
      assert s - {p} - {m} == s - {m} - {p};
    }
  }

  /** Seconds are reported in thousandths; -1 means there is nothing to measure from. */
  function Since(ts: int, now: int): int {
    if ts > 0 then now - ts else -1
  }

  class WindowService {
    const cfg: Config
    var seen: map<Eid, int>
    var windows: map<(Sid, Kind), Zset<Eid>>
    var carts: map<Sid, Zset<CartMember>>
    var hashes: map<Sid, Hash>

    function State(): Store
      reads this
    {
      Store(seen, windows, carts, hashes)
    }

    constructor (cfg: Config)
      ensures this.cfg == cfg && State() == EMPTY
    {
      this.cfg := cfg;
      seen, windows, carts, hashes := map[], map[], map[], map[];
    }

    method TouchWindow(e: Event, kind: Kind)
      modifies this`windows
      ensures windows == old(windows)[(e.sid, kind) := NextWindow(cfg, WindowAt(old(State()), e.sid, kind), e, kind)]
    {
      var z := if (e.sid, kind) in windows then windows[(e.sid, kind)] else NoKey();
      if Feeds(e, kind) {
        var scores := if e.now < z.deadline then z.scores else map[];
        scores := scores[e.eid := e.now];
        var deadline := e.now + cfg.winTtl * 1000;
        scores := RemoveUpTo(scores, (e.now / 1000 - cfg.winTtl) * 1000);
        z := Zset(scores, deadline);
      }
      windows := windows[(e.sid, kind) := z];
    }

    method TouchWindows(e: Event)
      modifies this`windows
      ensures windows == NextWindows(cfg, old(State()), e)
    {
      TouchWindow(e, Main);
      TouchWindow(e, Rage);
      TouchWindow(e, Adds);
      TouchWindow(e, Exits);
    }

    method TouchCart(e: Event) returns (delta: int)
      modifies this`carts
      ensures carts == old(carts)[e.sid := NextCart(CartAt(old(State()), e.sid), e)]
      ensures delta == SumValues(CartEntries(State(), e))
    {
      var cart := if e.sid in carts then carts[e.sid] else NoKey();
      if e.etype.Add? {
        cart := Touch(cart, Hit(CartMember(e.cart, e.eid), e.now), CART_TTL * 1000, e.now - CART_REACH);
      } else if e.etype.Remove? {
        cart := Touch(cart, Hit(CartMember(-e.cart, e.eid), e.now), CART_TTL * 1000, e.now - CART_REACH);
      }
      carts := carts[e.sid := cart];
      delta := SumCart(RangeFrom(LiveScores(cart, e.now), e.now - CART_REACH));
    }

    method TouchHash(e: Event) returns (timeOnSite: int, sinceLast: int, checkoutMax: int, currentStep: int)
      modifies this`hashes
      ensures hashes == old(hashes)[e.sid := NextHash(cfg, HashAt(old(State()), e.sid, e.now), e)]
      ensures timeOnSite == (e.now - hashes[e.sid].firstEventTs) / 1000
      ensures sinceLast == Since(HashAt(old(State()), e.sid, e.now).lastEventTs, e.now)
      ensures checkoutMax == hashes[e.sid].checkoutMax && currentStep == hashes[e.sid].currentStep
    {
      var hash := HashAt(State(), e.sid, e.now);
      sinceLast := -1;
      if hash.lastEventTs > 0 {
        sinceLast := e.now - hash.lastEventTs;
      }
      var first := hash.firstEventTs;
      if first == 0 {
        first := e.now;
      }
      timeOnSite := (e.now - first) / 1000;
      var step := if e.etype.CheckoutStep? then e.etype.step else -1;
      checkoutMax := hash.checkoutMax;
      if step >= 0 {
        if step > checkoutMax {
          checkoutMax := step;
        }
      }
      currentStep := hash.currentStep;
      if step >= 0 {
        currentStep := step;
      }
      hashes := hashes[e.sid := Hash(e.now, first, checkoutMax, currentStep, e.now + cfg.sessTtl * 1000)];
    }

    method SumCart(entries: set<CartMember>) returns (delta: int)
      ensures delta == SumValues(entries)
    {
      delta := 0;
      var rest := entries;
      while rest != {}
        invariant rest <= entries
        invariant delta + SumValues(rest) == SumValues(entries)
        decreases rest
      {
        var m :| m in rest;
        SumWithout(rest, m);
        delta := delta + m.value;
        rest := rest - {m};
      }
    }

    /** The updates of an event that is not a duplicate, and what they read on the way. */
    method UpdateKeys(e: Event)
      returns (delta: int, timeOnSite: int, sinceLast: int, checkoutMax: int, currentStep: int)
      requires Accepted(State(), e)
      modifies this
      ensures State() == Next(cfg, old(State()), e)
      ensures delta == SumValues(CartEntries(State(), e))
      ensures timeOnSite == (e.now - hashes[e.sid].firstEventTs) / 1000
      ensures sinceLast == Since(HashAt(old(State()), e.sid, e.now).lastEventTs, e.now)
      ensures checkoutMax == hashes[e.sid].checkoutMax && currentStep == hashes[e.sid].currentStep
    {
      seen := seen[e.eid := e.now + cfg.idemTtl * 1000];
      TouchWindows(e);
      timeOnSite, sinceLast, checkoutMax, currentStep := TouchHash(e);
      delta := TouchCart(e);
    }

    method Update(e: Event) returns (reply: Reply)
      modifies this
      ensures State() == Next(cfg, old(State()), e)
      ensures reply.Duplicate? <==> !Accepted(old(State()), e)
      ensures reply.New? ==> FeaturesAre(reply.features, cfg, old(State()), e)
    {
      if e.eid in seen && e.now < seen[e.eid] {
        return Duplicate;
      }
      var delta, timeOnSite, sinceLast, checkoutMax, currentStep := UpdateKeys(e);
      reply := New(Features(
        Count(State(), e, Rage), Count(State(), e, Adds), Count(State(), e, Exits), Count(State(), e, Main),
        delta, timeOnSite, sinceLast, checkoutMax, currentStep));
    }
  }

  /** What the script reports for `e` when it ran on `st`. */
  ghost predicate FeaturesAre(f: Features, cfg: Config, st: Store, e: Event)
    requires Accepted(st, e)
  {
    var st' := Next(cfg, st, e);
    && f.rageClicks30s == Count(st', e, Rage)
    && f.addToCart60s == Count(st', e, Adds)
    && f.exitIntent5m == Count(st', e, Exits)
    && f.eventsPerMinute == Count(st', e, Main)
    && f.cartDelta == SumValues(CartEntries(st', e))
    && (f.checkoutMax, f.currentStep) == (st'.hashes[e.sid].checkoutMax, st'.hashes[e.sid].currentStep)
    && f.timeOnSite == (e.now - st'.hashes[e.sid].firstEventTs) / 1000
    && f.sinceLastEvent == Since(HashAt(st, e.sid, e.now).lastEventTs, e.now)
  }

  // ----- Runs, and the full history of events that were not duplicates -----

  function RunAll(cfg: Config, es: seq<Event>): Store {
    if es == [] then EMPTY else Next(cfg, RunAll(cfg, es[..|es| - 1]), es[|es| - 1])
  }

  predicate Ordered(es: seq<Event>) {
    forall i, j | 0 <= i < j < |es| :: es[i].now <= es[j].now
  }

  function NextHits(st: Store, e: Event, sid: Sid, kind: Kind, h: seq<Hit<Eid>>): seq<Hit<Eid>> {
    if Accepted(st, e) && e.sid == sid && Feeds(e, kind) then h + [Hit(e.eid, e.now)] else h
  }

  function NextCartHits(st: Store, e: Event, sid: Sid, h: seq<Hit<CartMember>>): seq<Hit<CartMember>> {
    if Accepted(st, e) && e.sid == sid && FeedsCart(e) then h + [CartHit(e)] else h
  }

  /** Every event of the session that was not a duplicate and belongs to the kind. */
  function Hits(cfg: Config, es: seq<Event>, sid: Sid, kind: Kind): seq<Hit<Eid>> {
    if es == [] then []
    else
      var p, e := es[..|es| - 1], es[|es| - 1];
      NextHits(RunAll(cfg, p), e, sid, kind, Hits(cfg, p, sid, kind))
  }

  function CartHits(cfg: Config, es: seq<Event>, sid: Sid): seq<Hit<CartMember>> {
    if es == [] then []
    else
      var p, e := es[..|es| - 1], es[|es| - 1];
      NextCartHits(RunAll(cfg, p), e, sid, CartHits(cfg, p, sid))
  }

  lemma Unfold(cfg: Config, p: seq<Event>, e: Event, sid: Sid, kind: Kind)
    ensures RunAll(cfg, p + [e]) == Next(cfg, RunAll(cfg, p), e)
    ensures Hits(cfg, p + [e], sid, kind) == NextHits(RunAll(cfg, p), e, sid, kind, Hits(cfg, p, sid, kind))
    ensures CartHits(cfg, p + [e], sid) == NextCartHits(RunAll(cfg, p), e, sid, CartHits(cfg, p, sid))
  {
    assert (p + [e])[..|p|] == p;
  }

  lemma PrefixIsOrdered(p: seq<Event>, e: Event)
    requires Ordered(p + [e])
    ensures Ordered(p) && forall i | 0 <= i < |p| :: p[i].now <= e.now
  {
    var es := p + [e];
    assert es[|p|] == e && forall i | 0 <= i < |p| :: es[i] == p[i];
  }

  // ----- Idempotency keys keep repeats of an id apart -----

  /** A member hit again is hit at least `gap` later. */
  ghost predicate Spaced<M>(h: seq<Hit<M>>, gap: int) {
    forall i, j | 0 <= i < j < |h| && h[i].member == h[j].member :: h[i].at + gap <= h[j].at
  }

  /** The idempotency key of every past hit lasts at least its TTL. */
  ghost predicate Guarded(seen: map<Eid, int>, h: seq<Hit<Eid>>, gap: int) {
    forall i | 0 <= i < |h| :: h[i].member in seen && h[i].at + gap <= seen[h[i].member]
  }

  lemma GuardStep(seen: map<Eid, int>, h: seq<Hit<Eid>>, gap: int, eid: Eid, now: int)
    requires Spaced(h, gap) && Guarded(seen, h, gap) && UpTo(h, now)
    ensures Guarded(seen[eid := now + gap], h, gap)
    ensures !(eid in seen && now < seen[eid]) ==>
              Spaced(h + [Hit(eid, now)], gap) && Guarded(seen[eid := now + gap], h + [Hit(eid, now)], gap)
  {
  }

  lemma SpacedIsDistinct<M(!new)>(h: seq<Hit<M>>, gap: int, lo: int, hi: int)
    requires Spaced(h, gap) && UpTo(h, hi) && hi - lo <= gap
    ensures DistinctAfter(h, lo)
  {
  }

  // ----- The rolling counts -----

  ghost predicate WindowTracks(cfg: Config, st: Store, h: seq<Hit<Eid>>, sid: Sid, kind: Kind) {
    Tracks(WindowAt(st, sid, kind), h, cfg.winTtl * 1000)
  }

  /** The idempotency keys keep repeats of an id apart. */
  ghost predicate IdsApart(cfg: Config, st: Store, h: seq<Hit<Eid>>) {
    Spaced(h, cfg.idemTtl * 1000) && Guarded(st.seen, h, cfg.idemTtl * 1000)
  }

  lemma WindowAtNext(cfg: Config, st: Store, e: Event, sid: Sid, kind: Kind)
    ensures WindowAt(Next(cfg, st, e), sid, kind) ==
            if Accepted(st, e) && e.sid == sid then NextWindow(cfg, WindowAt(st, sid, kind), e, kind)
            else WindowAt(st, sid, kind)
    ensures Next(cfg, st, e).seen == if Accepted(st, e) then st.seen[e.eid := e.now + cfg.idemTtl * 1000] else st.seen
  {
  }

  lemma CutoffIsBeforeTheTtl(cfg: Config, now: int)
    ensures Cutoff(cfg, now) <= now - cfg.winTtl * 1000
  {
  }

  lemma TracksStep(cfg: Config, st: Store, h: seq<Hit<Eid>>, sid: Sid, kind: Kind, e: Event)
    requires cfg.Valid() && WindowTracks(cfg, st, h, sid, kind) && UpTo(h, e.now)
    ensures WindowTracks(cfg, Next(cfg, st, e), NextHits(st, e, sid, kind, h), sid, kind)
  {
    WindowAtNext(cfg, st, e, sid, kind);
    if Accepted(st, e) && e.sid == sid && Feeds(e, kind) {
      CutoffIsBeforeTheTtl(cfg, e.now);
      TouchTracks(WindowAt(st, sid, kind), h, Hit(e.eid, e.now), cfg.winTtl * 1000, Cutoff(cfg, e.now));
    }
  }

  lemma IdsStep(cfg: Config, st: Store, h: seq<Hit<Eid>>, sid: Sid, kind: Kind, e: Event)
    requires IdsApart(cfg, st, h) && UpTo(h, e.now)
    ensures IdsApart(cfg, Next(cfg, st, e), NextHits(st, e, sid, kind, h))
    ensures UpTo(NextHits(st, e, sid, kind, h), e.now)
  {
    WindowAtNext(cfg, st, e, sid, kind);
    GuardStep(st.seen, h, cfg.idemTtl * 1000, e.eid, e.now);
  }

  lemma {:induction false} WindowInvHolds(cfg: Config, es: seq<Event>, sid: Sid, kind: Kind)
    requires cfg.Valid() && Ordered(es)
    ensures WindowTracks(cfg, RunAll(cfg, es), Hits(cfg, es, sid, kind), sid, kind)
    ensures IdsApart(cfg, RunAll(cfg, es), Hits(cfg, es, sid, kind))
    ensures es != [] ==> UpTo(Hits(cfg, es, sid, kind), es[|es| - 1].now)
  {
    if es != [] {
      var p, e := es[..|es| - 1], es[|es| - 1];
      assert p + [e] == es;
      Unfold(cfg, p, e, sid, kind);
      PrefixIsOrdered(p, e);
      WindowInvHolds(cfg, p, sid, kind);
      TracksStep(cfg, RunAll(cfg, p), Hits(cfg, p, sid, kind), sid, kind, e);
      IdsStep(cfg, RunAll(cfg, p), Hits(cfg, p, sid, kind), sid, kind, e);
    }
  }

  /** The count the script reports for `e` after `es`, against the count over the whole history. */
  ghost predicate CountIsHistory(cfg: Config, es: seq<Event>, e: Event, kind: Kind) {
    Count(RunAll(cfg, es + [e]), e, kind) ==
    CountWithin(Hits(cfg, es + [e], e.sid, kind), e.now - Reach(kind) - 1, e.now)
  }

  predicate TtlsExceedReach(cfg: Config, kind: Kind) {
    Reach(kind) < cfg.winTtl * 1000 && Reach(kind) < cfg.idemTtl * 1000
  }

  /** With both TTLs longer than the reach, trimming, expiry and overwriting are unobservable. */
  lemma LongTtlsCountTheHistory(cfg: Config, es: seq<Event>, e: Event, kind: Kind)
    requires cfg.Valid() && Ordered(es + [e]) && TtlsExceedReach(cfg, kind)
    ensures CountIsHistory(cfg, es, e, kind)
  {
    WindowInvHolds(cfg, es + [e], e.sid, kind);
    LastOne(es, e);
    TrackedCount(cfg, RunAll(cfg, es + [e]), Hits(cfg, es + [e], e.sid, kind), e, kind);
  }

  lemma LastOne(es: seq<Event>, e: Event)
    ensures es + [e] != [] && (es + [e])[|es + [e]| - 1] == e
  {
  }

  lemma TrackedCount(cfg: Config, st: Store, h: seq<Hit<Eid>>, e: Event, kind: Kind)
    requires cfg.Valid() && TtlsExceedReach(cfg, kind)
    requires WindowTracks(cfg, st, h, e.sid, kind) && IdsApart(cfg, st, h) && UpTo(h, e.now)
    ensures Count(st, e, kind) == CountWithin(h, e.now - Reach(kind) - 1, e.now)
  {
    var lo := e.now - Reach(kind) - 1;
    TrackedRange(WindowAt(st, e.sid, kind), h, cfg.winTtl * 1000, e.now, lo + 1);
    SpacedIsDistinct(h, cfg.idemTtl * 1000, lo, e.now);
    DistinctPastIsItsMembers(h, lo, e.now);
  }

  function TypeOf(kind: Kind): EventType {
    match kind
    case Main => Other
    case Rage => RageClick
    case Adds => Add
    case Exits => ExitIntent
  }

  /** Two events of one kind exactly the reach apart, the second with the first one's id or another. */
  lemma SecondHitStandsAlone(cfg: Config, kind: Kind, a: Event, e: Event)
    requires cfg.Valid() && a.sid == e.sid && a.now == 1 && e.now == 1 + Reach(kind)
    requires Feeds(a, kind) && Feeds(e, kind)
    requires if a.eid == e.eid then cfg.idemTtl * 1000 <= Reach(kind) else cfg.winTtl * 1000 <= Reach(kind)
    ensures Accepted(RunAll(cfg, [a]), e) && Count(RunAll(cfg, [a] + [e]), e, kind) <= 1
    ensures Hits(cfg, [a] + [e], e.sid, kind) == [Hit(a.eid, a.now), Hit(e.eid, e.now)]
  {
    TwoSteps(cfg, a, e, kind);
    SecondHitAlone(cfg, kind, a, RunAll(cfg, [a]), e);
  }

  lemma TwoSteps(cfg: Config, a: Event, e: Event, kind: Kind)
    ensures var st := Next(cfg, EMPTY, a);
      && RunAll(cfg, [a]) == st && RunAll(cfg, [a] + [e]) == Next(cfg, st, e)
      && Hits(cfg, [a] + [e], e.sid, kind) == NextHits(st, e, e.sid, kind, NextHits(EMPTY, a, e.sid, kind, []))
      && CartHits(cfg, [a] + [e], e.sid) == NextCartHits(st, e, e.sid, NextCartHits(EMPTY, a, e.sid, []))
  {
    assert [] + [a] == [a];
    Unfold(cfg, [], a, e.sid, kind);
    Unfold(cfg, [a], e, e.sid, kind);
  }

  lemma SecondHitAlone(cfg: Config, kind: Kind, a: Event, st: Store, e: Event)
    requires cfg.Valid() && a.sid == e.sid && a.now == 1 && e.now == 1 + Reach(kind)
    requires Feeds(a, kind) && Feeds(e, kind) && st == Next(cfg, EMPTY, a)
    requires if a.eid == e.eid then cfg.idemTtl * 1000 <= Reach(kind) else cfg.winTtl * 1000 <= Reach(kind)
    ensures Accepted(st, e) && Count(Next(cfg, st, e), e, kind) <= 1
    ensures NextHits(st, e, e.sid, kind, NextHits(EMPTY, a, e.sid, kind, [])) == [Hit(a.eid, a.now), Hit(e.eid, e.now)]
  {
    WindowAtNext(cfg, EMPTY, a, e.sid, kind);
    WindowAtNext(cfg, st, e, e.sid, kind);
    var live := LiveScores(WindowAt(st, e.sid, kind), e.now);
    assert live.Keys <= {a.eid} && (a.eid != e.eid ==> live == map[]);
    OneAtMost(RangeFrom(LiveScores(WindowAt(Next(cfg, st, e), e.sid, kind), e.now), 1), e.eid);
  }

  /** With a TTL no longer than the reach, some run loses a hit that is exactly that old. */
  lemma ShortTtlMiscounts(cfg: Config, kind: Kind)
    requires cfg.Valid() && !TtlsExceedReach(cfg, kind)
    ensures exists es: seq<Event>, e: Event ::
      Ordered(es + [e]) && Accepted(RunAll(cfg, es), e) && !CountIsHistory(cfg, es, e, kind)
  {
    var a := Event("s", "a", 1, TypeOf(kind), 0);
    var e := Event("s", if cfg.winTtl * 1000 <= Reach(kind) then "b" else "a", 1 + Reach(kind), TypeOf(kind), 0);
    SecondHitStandsAlone(cfg, kind, a, e);
    TwoHitsCount(Hit(a.eid, a.now), Hit(e.eid, e.now));
    assert !CountIsHistory(cfg, [a], e, kind);
  }

  lemma TwoHitsCount(x: Hit<Eid>, y: Hit<Eid>)
    requires 0 < x.at <= y.at
    ensures CountWithin([x, y], 0, y.at) == 2
  {
    assert [x, y][..1] == [x] && [x][..0] == [];
    assert CountWithin([x], 0, y.at) == 1;
  }

  lemma OneAtMost<T>(s: set<T>, x: T)
    requires s <= {x}
    ensures |s| <= 1
  {
    assert s == {x} || s == {};
  }

  /** The counts are right on every run exactly when both TTLs are strictly longer than the reach. */
  lemma CountsAreExactExactlyWhen(cfg: Config, kind: Kind)
    requires cfg.Valid()
    ensures TtlsExceedReach(cfg, kind) <==>
      (forall es: seq<Event>, e: Event | Ordered(es + [e]) && Accepted(RunAll(cfg, es), e) ::
         CountIsHistory(cfg, es, e, kind))
  {
    if TtlsExceedReach(cfg, kind) {
      forall es: seq<Event>, e: Event | Ordered(es + [e]) && Accepted(RunAll(cfg, es), e)
        ensures CountIsHistory(cfg, es, e, kind)
      {
        LongTtlsCountTheHistory(cfg, es, e, kind);
      }
    } else {
      ShortTtlMiscounts(cfg, kind);
    }
  }

  /** The shipped defaults, 300 seconds for both TTLs, cover every count but the five-minute one. */
  lemma DefaultsMissTheFiveMinuteCount(cfg: Config)
    requires cfg.winTtl == 300 && cfg.idemTtl == 300 && cfg.Valid()
    ensures forall kind :: TtlsExceedReach(cfg, kind) <==> kind != Exits
    ensures exists es: seq<Event>, e: Event ::
      Ordered(es + [e]) && Accepted(RunAll(cfg, es), e) && !CountIsHistory(cfg, es, e, Exits)
  {
    ShortTtlMiscounts(cfg, Exits);
  }

  // ----- The cart delta -----

  /** The sum of the signed values in `(lo, hi]`. */
  function SumWithin(h: seq<Hit<CartMember>>, lo: int, hi: int): int {
    if h == [] then 0
    else
      var x := h[|h| - 1];
      SumWithin(h[..|h| - 1], lo, hi) + if lo < x.at <= hi then x.member.value else 0
  }

  lemma {:induction false} DistinctHitsSumAsMembers(h: seq<Hit<CartMember>>, lo: int, hi: int)
    requires DistinctAfter(h, lo) && UpTo(h, hi)
    ensures SumValues(MembersAfter(h, lo)) == SumWithin(h, lo, hi)
  {
    if h == [] {
      assert MembersAfter(h, lo) == {};
    } else {
      var p, x := h[..|h| - 1], h[|h| - 1];
      DistinctAfterLast(h, lo);
      DistinctHitsSumAsMembers(p, lo, hi);
      MembersAfterLast(h, lo);
      if lo < x.at {
        SumWithout(MembersAfter(h, lo), x.member);
        assert MembersAfter(h, lo) - {x.member} == MembersAfter(p, lo);
      } else {
        assert MembersAfter(h, lo) == MembersAfter(p, lo);
      }
    }
  }

  /** The event ids behind cart members. */
  function EidsOf(h: seq<Hit<CartMember>>): (r: seq<Hit<Eid>>)
    ensures |r| == |h| && forall i | 0 <= i < |h| :: r[i] == Hit(h[i].member.eid, h[i].at)
  {
    seq(|h|, i requires 0 <= i < |h| => Hit(h[i].member.eid, h[i].at))
  }

  ghost predicate CartOk(z: Zset<CartMember>, seen: map<Eid, int>, h: seq<Hit<CartMember>>, gap: int) {
    Tracks(z, h, CART_REACH) && TrimmedAtLast(z, h) && Spaced(EidsOf(h), gap) && Guarded(seen, EidsOf(h), gap)
  }

  /** The last cart event trimmed what was two minutes old by then. */
  ghost predicate TrimmedAtLast(z: Zset<CartMember>, h: seq<Hit<CartMember>>) {
    h != [] ==> forall m | m in z.scores :: h[|h| - 1].at - CART_REACH < z.scores[m]
  }

  ghost predicate CartInv(cfg: Config, st: Store, h: seq<Hit<CartMember>>, sid: Sid) {
    CartOk(CartAt(st, sid), st.seen, h, cfg.idemTtl * 1000)
  }

  lemma CartDistinct(h: seq<Hit<CartMember>>, gap: int, lo: int, hi: int)
    requires Spaced(EidsOf(h), gap) && UpTo(h, hi) && hi - lo <= gap
    ensures DistinctAfter(h, lo)
  {
    var r := EidsOf(h);
    forall i, j | 0 <= i < j < |h| && lo < h[i].at && lo < h[j].at ensures h[i].member != h[j].member {
      assert r[i] == Hit(h[i].member.eid, h[i].at) && r[j] == Hit(h[j].member.eid, h[j].at);
    }
  }

  lemma CartOkSeen(z: Zset<CartMember>, seen: map<Eid, int>, h: seq<Hit<CartMember>>, gap: int, e: Event)
    requires CartOk(z, seen, h, gap) && UpTo(h, e.now)
    ensures CartOk(z, seen[e.eid := e.now + gap], h, gap)
  {
    CartGuardStep(seen, h, gap, e);
  }

  lemma CartOkHit(z: Zset<CartMember>, seen: map<Eid, int>, h: seq<Hit<CartMember>>, gap: int, e: Event)
    requires CartOk(z, seen, h, gap) && UpTo(h, e.now) && !(e.eid in seen && e.now < seen[e.eid]) && FeedsCart(e)
    ensures CartOk(NextCart(z, e), seen[e.eid := e.now + gap], h + [CartHit(e)], gap)
    ensures UpTo(h + [CartHit(e)], e.now)
  {
    CartGuardStep(seen, h, gap, e);
    TouchTracks(z, h, CartHit(e), CART_REACH, e.now - CART_REACH);
  }

  lemma CartStep(cfg: Config, st: Store, h: seq<Hit<CartMember>>, sid: Sid, e: Event)
    requires cfg.Valid() && CartInv(cfg, st, h, sid) && UpTo(h, e.now)
    ensures CartInv(cfg, Next(cfg, st, e), NextCartHits(st, e, sid, h), sid)
    ensures UpTo(NextCartHits(st, e, sid, h), e.now)
  {
    if Accepted(st, e) {
      CartAtNext(cfg, st, e, sid);
      SeenNext(cfg, st, e);
      if e.sid == sid && FeedsCart(e) {
        CartHitStep(cfg, st, h, sid, e, Next(cfg, st, e));
      } else {
        CartQuietStep(cfg, st, h, sid, e, Next(cfg, st, e));
      }
    }
  }

  lemma SeenNext(cfg: Config, st: Store, e: Event)
    requires Accepted(st, e)
    ensures Next(cfg, st, e).seen == st.seen[e.eid := e.now + cfg.idemTtl * 1000]
  {
  }

  lemma CartHitStep(cfg: Config, st: Store, h: seq<Hit<CartMember>>, sid: Sid, e: Event, st': Store)
    requires Accepted(st, e) && FeedsCart(e) && CartInv(cfg, st, h, sid) && UpTo(h, e.now)
    requires CartAt(st', sid) == NextCart(CartAt(st, sid), e)
    requires st'.seen == st.seen[e.eid := e.now + cfg.idemTtl * 1000]
    ensures CartInv(cfg, st', h + [CartHit(e)], sid) && UpTo(h + [CartHit(e)], e.now)
  {
    CartOkHit(CartAt(st, sid), st.seen, h, cfg.idemTtl * 1000, e);
  }

  lemma CartQuietStep(cfg: Config, st: Store, h: seq<Hit<CartMember>>, sid: Sid, e: Event, st': Store)
    requires Accepted(st, e) && CartInv(cfg, st, h, sid) && UpTo(h, e.now)
    requires CartAt(st', sid) == CartAt(st, sid)
    requires st'.seen == st.seen[e.eid := e.now + cfg.idemTtl * 1000]
    ensures CartInv(cfg, st', h, sid)
  {
    CartOkSeen(CartAt(st, sid), st.seen, h, cfg.idemTtl * 1000, e);
  }

  lemma CartAtNext(cfg: Config, st: Store, e: Event, sid: Sid)
    ensures CartAt(Next(cfg, st, e), sid) ==
            if Accepted(st, e) && e.sid == sid then NextCart(CartAt(st, sid), e) else CartAt(st, sid)
  {
  }

  lemma CartGuardStep(seen: map<Eid, int>, h: seq<Hit<CartMember>>, gap: int, e: Event)
    requires Spaced(EidsOf(h), gap) && Guarded(seen, EidsOf(h), gap) && UpTo(h, e.now)
    ensures Guarded(seen[e.eid := e.now + gap], EidsOf(h), gap)
    ensures !(e.eid in seen && e.now < seen[e.eid]) ==>
              && Spaced(EidsOf(h + [CartHit(e)]), gap)
              && Guarded(seen[e.eid := e.now + gap], EidsOf(h + [CartHit(e)]), gap)
  {
    GuardStep(seen, EidsOf(h), gap, e.eid, e.now);
    assert EidsOf(h + [CartHit(e)]) == EidsOf(h) + [Hit(e.eid, e.now)];
  }

  lemma {:induction false} CartInvHolds(cfg: Config, es: seq<Event>, sid: Sid)
    requires cfg.Valid() && Ordered(es)
    ensures CartInv(cfg, RunAll(cfg, es), CartHits(cfg, es, sid), sid)
    ensures es != [] ==> UpTo(CartHits(cfg, es, sid), es[|es| - 1].now)
  {
    if es != [] {
      var p, e := es[..|es| - 1], es[|es| - 1];
      assert p + [e] == es;
      Unfold(cfg, p, e, sid, Main);
      PrefixIsOrdered(p, e);
      CartInvHolds(cfg, p, sid);
      CartStep(cfg, RunAll(cfg, p), CartHits(cfg, p, sid), sid, e);
    }
  }

  /** On an add or remove, the delta is the sum of the signed values of the last two minutes. */
  lemma CartDeltaIsHistory(cfg: Config, es: seq<Event>, e: Event)
    requires cfg.Valid() && CART_TTL <= cfg.idemTtl && Ordered(es + [e])
    requires FeedsCart(e) && Accepted(RunAll(cfg, es), e)
    ensures SumValues(CartEntries(RunAll(cfg, es + [e]), e)) ==
            SumWithin(CartHits(cfg, es + [e], e.sid), e.now - CART_REACH, e.now)
  {
    CartInvHolds(cfg, es + [e], e.sid);
    LastOne(es, e);
    Unfold(cfg, es, e, e.sid, Main);
    CartDeltaStep(cfg, RunAll(cfg, es), CartHits(cfg, es + [e], e.sid), e);
  }

  lemma CartDeltaStep(cfg: Config, st: Store, h: seq<Hit<CartMember>>, e: Event)
    requires CART_TTL <= cfg.idemTtl && FeedsCart(e) && Accepted(st, e)
    requires CartInv(cfg, Next(cfg, st, e), h, e.sid) && UpTo(h, e.now)
    ensures SumValues(CartEntries(Next(cfg, st, e), e)) == SumWithin(h, e.now - CART_REACH, e.now)
  {
    var st' := Next(cfg, st, e);
    CartAtNext(cfg, st, e, e.sid);
    TrimmedRange(NextCart(CartAt(st, e.sid), e), e);
    CartSum(CartAt(st', e.sid), h, st'.seen, cfg.idemTtl * 1000, e);
  }

  /** Every member that is left after the trim lies in the two minutes. */
  lemma TrimmedRange(z: Zset<CartMember>, e: Event)
    requires forall m | m in z.scores :: e.now - CART_REACH < z.scores[m]
    ensures var live, from := LiveScores(z, e.now), e.now - CART_REACH;
      RangeFrom(live, from) == RangeFrom(live, from + 1)
  {
  }

  lemma CartSum(z: Zset<CartMember>, h: seq<Hit<CartMember>>, seen: map<Eid, int>, gap: int, e: Event)
    requires CartOk(z, seen, h, gap) && UpTo(h, e.now) && CART_REACH <= gap
    ensures SumValues(RangeFrom(LiveScores(z, e.now), e.now - CART_REACH + 1)) ==
            SumWithin(h, e.now - CART_REACH, e.now)
  {
    var lo := e.now - CART_REACH;
    TrackedRange(z, h, CART_REACH, e.now, lo + 1);
    CartDistinct(h, gap, lo, e.now);
    DistinctHitsSumAsMembers(h, lo, e.now);
  }

  ghost predicate DeltaIsHistory(cfg: Config, es: seq<Event>, e: Event) {
    SumValues(CartEntries(RunAll(cfg, es + [e]), e)) ==
    SumWithin(CartHits(cfg, es + [e], e.sid), e.now - CART_REACH, e.now)
  }

  /** The same add again, as soon as its id is accepted again, overwrites the first. */
  lemma SecondAddStandsAlone(cfg: Config, a: Event, e: Event)
    requires cfg.Valid() && cfg.idemTtl < CART_TTL && a.etype == Add && a.now == 1
    requires e == a.(now := 1 + cfg.idemTtl * 1000)
    ensures Accepted(RunAll(cfg, [a]), e)
    ensures CartEntries(RunAll(cfg, [a] + [e]), e) <= {CartMember(a.cart, a.eid)}
    ensures CartHits(cfg, [a] + [e], e.sid) == [CartHit(a), CartHit(e)]
  {
    TwoSteps(cfg, a, e, Main);
    SecondAddAlone(cfg, a, RunAll(cfg, [a]), e);
  }

  lemma SecondAddAlone(cfg: Config, a: Event, st: Store, e: Event)
    requires cfg.Valid() && cfg.idemTtl < CART_TTL && a.etype == Add && a.now == 1
    requires e == a.(now := 1 + cfg.idemTtl * 1000) && st == Next(cfg, EMPTY, a)
    ensures Accepted(st, e)
    ensures CartEntries(Next(cfg, st, e), e) <= {CartMember(a.cart, a.eid)}
    ensures NextCartHits(st, e, e.sid, NextCartHits(EMPTY, a, e.sid, [])) == [CartHit(a), CartHit(e)]
  {
    CartAtNext(cfg, EMPTY, a, e.sid);
    CartAtNext(cfg, st, e, e.sid);
  }

  lemma TwoAddsSum(x: Hit<CartMember>, y: Hit<CartMember>, lo: int, hi: int)
    requires lo < x.at <= y.at <= hi
    ensures SumWithin([x, y], lo, hi) == x.member.value + y.member.value
  {
    assert [x, y][..1] == [x] && [x][..0] == [];
    assert SumWithin([x], lo, hi) == x.member.value;
  }

  lemma SumOfOne(s: set<CartMember>, m: CartMember)
    requires s <= {m}
    ensures SumValues(s) == 0 || SumValues(s) == m.value
  {
    if m in s {
      SumWithout(s, m);
      assert s - {m} == {};
    } else {
      assert s == {};
    }
  }

  /** On adds and removes the delta is right on every run exactly with an idempotency TTL of at least two minutes. */
  lemma CartDeltaIsExactExactlyWhen(cfg: Config)
    requires cfg.Valid()
    ensures CART_TTL <= cfg.idemTtl <==>
      (forall es: seq<Event>, e: Event | Ordered(es + [e]) && FeedsCart(e) && Accepted(RunAll(cfg, es), e) ::
         DeltaIsHistory(cfg, es, e))
  {
    if CART_TTL <= cfg.idemTtl {
      forall es: seq<Event>, e: Event | Ordered(es + [e]) && FeedsCart(e) && Accepted(RunAll(cfg, es), e)
        ensures DeltaIsHistory(cfg, es, e)
      {
        CartDeltaIsHistory(cfg, es, e);
      }
    } else {
      var a := Event("s", "a", 1, Add, 10000);
      var e := a.(now := 1 + cfg.idemTtl * 1000);
      SecondAddStandsAlone(cfg, a, e);
      SumOfOne(CartEntries(RunAll(cfg, [a] + [e]), e), CartMember(a.cart, a.eid));
      TwoAddsSum(CartHit(a), CartHit(e), e.now - CART_REACH, e.now);
      assert Ordered([a] + [e]) && FeedsCart(e) && !DeltaIsHistory(cfg, [a], e);
    }
  }

  /** The delta on an event that is neither an add nor a remove. */
  function SumBetween(h: seq<Hit<CartMember>>, now: int): int {
    if h == [] || h[|h| - 1].at <= now - CART_REACH then 0
    else SumWithin(h, if h[|h| - 1].at == now then now - CART_REACH else now - CART_REACH - 1, now)
  }

  /**
   * On any other event the script does not trim, so the member of exactly two minutes ago still
   * counts, unless it was the last one and its key has just expired, or a cart event of the same
   * millisecond has trimmed it.
   */
  lemma CartDeltaBetweenCartEvents(cfg: Config, es: seq<Event>, e: Event)
    requires cfg.Valid() && CART_TTL <= cfg.idemTtl && Ordered(es + [e]) && !FeedsCart(e)
    ensures SumValues(CartEntries(RunAll(cfg, es + [e]), e)) == SumBetween(CartHits(cfg, es, e.sid), e.now)
  {
    assert (es + [e])[|es|] == e;
    PrefixIsOrdered(es, e);
    CartInvHolds(cfg, es, e.sid);
    Unfold(cfg, es, e, e.sid, Main);
    CartBetweenStep(cfg, RunAll(cfg, es), CartHits(cfg, es, e.sid), e);
  }

  lemma CartBetweenStep(cfg: Config, st: Store, h: seq<Hit<CartMember>>, e: Event)
    requires CartInv(cfg, st, h, e.sid) && CART_TTL <= cfg.idemTtl && !FeedsCart(e) && UpTo(h, e.now)
    ensures SumValues(CartEntries(Next(cfg, st, e), e)) == SumBetween(h, e.now)
  {
    CartAtNext(cfg, st, e, e.sid);
    CartBetween(CartAt(st, e.sid), h, cfg.idemTtl * 1000, e.now);
  }

  lemma CartBetween(z: Zset<CartMember>, h: seq<Hit<CartMember>>, gap: int, now: int)
    requires Tracks(z, h, CART_REACH) && TrimmedAtLast(z, h) && Spaced(EidsOf(h), gap) && CART_REACH <= gap
    requires UpTo(h, now)
    ensures SumValues(RangeFrom(LiveScores(z, now), now - CART_REACH)) == SumBetween(h, now)
  {
    var from := now - CART_REACH;
    if h == [] || h[|h| - 1].at <= from {
      assert RangeFrom(LiveScores(z, now), from) == {};
    } else {
      var last := h[|h| - 1].at;
      var above := if last == now then from + 1 else from;
      RangeOfView(h, last - CART_REACH, above);
      assert RangeFrom(RemoveUpTo(z.scores, last - CART_REACH), above) == RangeFrom(z.scores, from);
      CartDistinct(h, gap, above - 1, last);
      DistinctHitsSumAsMembers(h, above - 1, now);
    }
  }

  /** The client reads the sentinel -1 as "no data", so a true delta of exactly -1 is reported as 0. */
  function ParseDelta(raw: int): int {
    if raw == -10000 then 0 else raw
  }

  /** What the client reports on an add or remove is the true delta, unless that is exactly -1. */
  lemma ReportedDeltaIsRightExactlyWhen(cfg: Config, es: seq<Event>, e: Event)
    requires cfg.Valid() && CART_TTL <= cfg.idemTtl && Ordered(es + [e])
    requires FeedsCart(e) && Accepted(RunAll(cfg, es), e)
    ensures var truth := SumWithin(CartHits(cfg, es + [e], e.sid), e.now - CART_REACH, e.now);
      ParseDelta(SumValues(CartEntries(RunAll(cfg, es + [e]), e))) == truth <==> truth != -10000
  {
    CartDeltaIsHistory(cfg, es, e);
  }

  // ----- The session hash -----

  /** The accepted events of a session since it was last idle for the session TTL. */
  function Episode(cfg: Config, es: seq<Event>, sid: Sid): seq<Event> {
    if es == [] then []
    else
      var p, e := es[..|es| - 1], es[|es| - 1];
      NextEpisode(cfg, RunAll(cfg, p), Episode(cfg, p, sid), sid, e)
  }

  function NextEpisode(cfg: Config, st: Store, h: seq<Event>, sid: Sid, e: Event): seq<Event> {
    if e.sid != sid || !Accepted(st, e) then h
    else if h != [] && h[|h| - 1].now + cfg.sessTtl * 1000 <= e.now then [e]
    else h + [e]
  }

  function MaxStep(h: seq<Event>): int {
    if h == [] then -1
    else
      var m, e := MaxStep(h[..|h| - 1]), h[|h| - 1];
      if e.etype.CheckoutStep? && m < e.etype.step then e.etype.step else m
  }

  function LastStep(h: seq<Event>): int {
    if h == [] then -1
    else if h[|h| - 1].etype.CheckoutStep? then h[|h| - 1].etype.step
    else LastStep(h[..|h| - 1])
  }

  ghost predicate Summarises(cfg: Config, hash: Hash, h: seq<Event>) {
    && h != []
    && hash == Hash(h[|h| - 1].now, h[0].now, MaxStep(h), LastStep(h), h[|h| - 1].now + cfg.sessTtl * 1000)
  }

  /** The hash is the summary of the current episode: first, last, highest and latest step. */
  lemma {:induction false} HashSummarisesTheEpisode(cfg: Config, es: seq<Event>, sid: Sid)
    requires cfg.Valid() && Ordered(es) && forall i | 0 <= i < |es| :: 0 < es[i].now
    ensures var h, st := Episode(cfg, es, sid), RunAll(cfg, es);
      if h == [] then sid !in st.hashes else sid in st.hashes && Summarises(cfg, st.hashes[sid], h)
    ensures forall i | 0 <= i < |Episode(cfg, es, sid)| :: 0 < Episode(cfg, es, sid)[i].now
  {
    if es != [] {
      var p, e := es[..|es| - 1], es[|es| - 1];
      assert p + [e] == es;
      Unfold(cfg, p, e, sid, Main);
      PrefixIsOrdered(p, e);
      HashSummarisesTheEpisode(cfg, p, sid);
      EpisodeStep(cfg, RunAll(cfg, p), Episode(cfg, p, sid), sid, e);
    }
  }

  lemma EpisodeStep(cfg: Config, st: Store, h: seq<Event>, sid: Sid, e: Event)
    requires cfg.Valid() && 0 < e.now && forall i | 0 <= i < |h| :: 0 < h[i].now
    requires if h == [] then sid !in st.hashes else sid in st.hashes && Summarises(cfg, st.hashes[sid], h)
    ensures var h', st' := NextEpisode(cfg, st, h, sid, e), Next(cfg, st, e);
      if h' == [] then sid !in st'.hashes else sid in st'.hashes && Summarises(cfg, st'.hashes[sid], h')
  {
    if e.sid == sid && Accepted(st, e) {
      var h' := NextEpisode(cfg, st, h, sid, e);
      assert h'[..|h'| - 1] == if |h'| == 1 then [] else h;
      assert MaxStep([]) == -1 && LastStep([]) == -1;
    }
  }
}
