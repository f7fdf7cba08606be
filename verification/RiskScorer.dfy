/**
 * The weighted aggregate of a user's session risks. Logarithm and exponential are arbitrary functions
 * with the signs the aggregate needs; risks, carts and weights are reals.
 */
module RiskScorer {
  import opened Options

  /** A session hash with its fields parsed; an absent or unreadable number is 0. */
  datatype Fields = Fields(cartValue: real, rageClicks: int, lastActivity: int, isFrustrated: bool)

  /** A session of the user's index, and its hash unless that is missing or empty. */
  datatype Session = Session(sid: string, hash: Option<Fields>)

  datatype Env = Env(log: real -> real, exp: real -> real, now: int)

  const SESSION_WEIGHT_CAP: real := 20.0
  /** How many sessions one of weight 1 needs beside it before the cap binds its share. */
  const CAP_LESS_ONE: real := 19.0

  /** The logarithm of at least one is not negative; an exponential is positive. */
  ghost predicate Signs(env: Env) {
    && (forall x | x >= 1.0 :: env.log(x) >= 0.0)
    && (forall x :: env.exp(x) > 0.0)
  }

  predicate Sound(session: Session) {
    session.hash.None? || (session.hash.value.cartValue >= 0.0 && session.hash.value.rageClicks >= 0)
  }

  ghost predicate AllSound(sessions: seq<Session>) {
    forall i | 0 <= i < |sessions| :: Sound(sessions[i])
  }

  function MinutesSinceActive(env: Env, f: Fields): real {
    if f.lastActivity > 0 then (env.now - f.lastActivity) as real / 60000.0 else 999.0
  }

  function Factors(env: Env, f: Fields): seq<real> {
    [ 1.0 + 0.5 * env.log(f.cartValue + 1.0),
      1.0 + 0.2 * f.rageClicks as real,
      1.0 + 0.5 * env.exp(-MinutesSinceActive(env, f) / 10.0) ]
  }

  function Product(xs: seq<real>): real {
    if xs == [] then 1.0 else Product(xs[..|xs| - 1]) * xs[|xs| - 1]
  }

  function RawWeight(env: Env, f: Fields): real {
    Product(Factors(env, f))
  }

  function Weight(env: Env, f: Fields): real {
    if RawWeight(env, f) < SESSION_WEIGHT_CAP then RawWeight(env, f) else SESSION_WEIGHT_CAP
  }

  function HeuristicRisk(isFrustrated: bool, rageClicks: int, cartValue: real): (r: real)
    ensures 0.35 <= r <= 0.85
  {
    if isFrustrated && rageClicks > 2 then 0.85
    else if isFrustrated then 0.7
    else if rageClicks > 2 then 0.65
    else if cartValue > 0.0 then 0.5
    else 0.35
  }

  /** No signal lowers the risk, and a frustrated session is always above one that is not. */
  lemma HeuristicRiskRisesWithSignals(
    frustrated: bool, clicks: int, cart: real, moreFrustrated: bool, moreClicks: int, moreCart: real)
    requires (frustrated ==> moreFrustrated) && clicks <= moreClicks && cart <= moreCart
    ensures HeuristicRisk(frustrated, clicks, cart) <= HeuristicRisk(moreFrustrated, moreClicks, moreCart)
    ensures HeuristicRisk(false, moreClicks, moreCart) < HeuristicRisk(true, clicks, cart)
  {
  }

  function SessionRisk(session: Session, triggerSid: string, triggerScore: real): real
    requires session.hash.Some?
  {
    var f := session.hash.value;
    if session.sid == triggerSid then triggerScore else HeuristicRisk(f.isFrustrated, f.rageClicks, f.cartValue)
  }

  /** A counted session: its weight, and its weight times its risk. */
  datatype Entry = Entry(sid: string, weight: real, weighted: real)

  function EntryOf(env: Env, session: Session, triggerSid: string, triggerScore: real): Entry
    requires session.hash.Some?
  {
    var weight := Weight(env, session.hash.value);
    Entry(session.sid, weight, weight * SessionRisk(session, triggerSid, triggerScore))
  }

  function EntriesOf(env: Env, session: Session, triggerSid: string, triggerScore: real): seq<Entry> {
    if session.hash.None? then [] else [EntryOf(env, session, triggerSid, triggerScore)]
  }

  /** The sessions that count: those whose hash is there. */
  function Entries(env: Env, sessions: seq<Session>, triggerSid: string, triggerScore: real): seq<Entry> {
    if sessions == [] then []
    else
      var last := sessions[|sessions| - 1];
      var before := Entries(env, sessions[..|sessions| - 1], triggerSid, triggerScore);
      before + EntriesOf(env, last, triggerSid, triggerScore)
  }

  function Total(es: seq<Entry>): real {
    if es == [] then 0.0 else Total(es[..|es| - 1]) + es[|es| - 1].weight
  }

  function WeightedSum(es: seq<Entry>): real {
    if es == [] then 0.0 else WeightedSum(es[..|es| - 1]) + es[|es| - 1].weighted
  }

  function Clamp(x: real): real {
    var below := if x < 1.0 then x else 1.0;
    if below > 0.0 then below else 0.0
  }

  /** The weighted mean of the risks, or the trigger score when nothing has weight. */
  function Mean(es: seq<Entry>, triggerScore: real): real {
    if Total(es) == 0.0 then triggerScore else Clamp(WeightedSum(es) / Total(es))
  }

  function AggregateRisk(env: Env, sessions: seq<Session>, triggerSid: string, triggerScore: real): real {
    Mean(Entries(env, sessions, triggerSid, triggerScore), triggerScore)
  }

  method ReadEntry(env: Env, session: Session, triggerSid: string, triggerScore: real) returns (e: Entry)
    requires session.hash.Some?
    ensures e == EntryOf(env, session, triggerSid, triggerScore)
  {
    var weight := RawWeight(env, session.hash.value);
    if weight >= SESSION_WEIGHT_CAP {
      weight := SESSION_WEIGHT_CAP;
    }
    e := Entry(session.sid, weight, weight * SessionRisk(session, triggerSid, triggerScore));
  }

  /** One pass of the accumulation loop. */
  method AddSession(env: Env, session: Session, triggerSid: string, triggerScore: real,
                    ghost es: seq<Entry>, weightedSum: real, totalWeight: real)
    returns (sum: real, total: real)
    requires weightedSum == WeightedSum(es) && totalWeight == Total(es)
    ensures sum == WeightedSum(es + EntriesOf(env, session, triggerSid, triggerScore))
    ensures total == Total(es + EntriesOf(env, session, triggerSid, triggerScore))
  {
    if session.hash.None? {
      assert es + [] == es;
      return weightedSum, totalWeight;
    }
    var entry := ReadEntry(env, session, triggerSid, triggerScore);
    assert (es + [entry])[..|es|] == es;
    return weightedSum + entry.weighted, totalWeight + entry.weight;
  }

  method SumSessions(env: Env, sessions: seq<Session>, triggerSid: string, triggerScore: real)
    returns (weightedSum: real, totalWeight: real)
    ensures weightedSum == WeightedSum(Entries(env, sessions, triggerSid, triggerScore))
    ensures totalWeight == Total(Entries(env, sessions, triggerSid, triggerScore))
  {
    weightedSum, totalWeight := 0.0, 0.0;
    ghost var es: seq<Entry> := [];
    for i := 0 to |sessions|
      invariant es == Entries(env, sessions[..i], triggerSid, triggerScore)
      invariant weightedSum == WeightedSum(es) && totalWeight == Total(es)
    {
      assert sessions[..i + 1][..i] == sessions[..i];
      weightedSum, totalWeight := AddSession(env, sessions[i], triggerSid, triggerScore, es, weightedSum, totalWeight);
      es := es + EntriesOf(env, sessions[i], triggerSid, triggerScore);
    }
    assert sessions[..|sessions|] == sessions;
  }

  /** What reading the sessions gave: a failure, or the sessions of the user's index. */
  method AggregateUserRisk(env: Env, index: Option<seq<Session>>, triggerSid: string, triggerScore: real)
    returns (risk: real)
    ensures risk == if index.Some? then AggregateRisk(env, index.value, triggerSid, triggerScore) else triggerScore
  {
    if index.None? || index.value == [] {
      return triggerScore;
    }
    var weightedSum, totalWeight := SumSessions(env, index.value, triggerSid, triggerScore);
    if totalWeight == 0.0 {
      return triggerScore;
    }
    return Clamp(weightedSum / totalWeight);
  }

  // ----- Weights -----

  lemma {:induction false} ProductAtLeastOne(xs: seq<real>)
    requires forall i | 0 <= i < |xs| :: xs[i] >= 1.0
    ensures Product(xs) >= 1.0
  {
    if xs != [] {
      ProductAtLeastOne(xs[..|xs| - 1]);
      NonNegativeProduct(Product(xs[..|xs| - 1]) - 1.0, xs[|xs| - 1] - 1.0);
    }
  }

  lemma {:induction false} ProductAtLeastAFactor(xs: seq<real>, i: nat)
    requires i < |xs| && forall j | 0 <= j < |xs| :: xs[j] >= 1.0
    ensures Product(xs) >= xs[i]
  {
    var p, x := xs[..|xs| - 1], xs[|xs| - 1];
    ProductAtLeastOne(p);
    if i == |xs| - 1 {
      NonNegativeProduct(Product(p) - 1.0, x);
    } else {
      ProductAtLeastAFactor(p, i);
      NonNegativeProduct(Product(p), x - 1.0);
    }
  }

  lemma NonNegativeProduct(a: real, b: real)
    requires a >= 0.0 && b >= 0.0
    ensures a * b >= 0.0
  {
  }

  lemma WeightInRange(env: Env, f: Fields)
    requires Signs(env) && f.cartValue >= 0.0 && f.rageClicks >= 0
    ensures 1.0 <= Weight(env, f) <= SESSION_WEIGHT_CAP
  {
    ProductAtLeastOne(Factors(env, f));
  }

  /** Each signal alone can bring a session to the cap: 95 rage clicks, or a logarithm of 38. */
  lemma OneSignalReachesTheCap(env: Env, f: Fields)
    requires Signs(env) && f.cartValue >= 0.0 && f.rageClicks >= 0
    requires f.rageClicks >= 95 || env.log(f.cartValue + 1.0) >= 38.0
    ensures Weight(env, f) == SESSION_WEIGHT_CAP
  {
    ProductAtLeastAFactor(Factors(env, f), if f.rageClicks >= 95 then 1 else 0);
  }

  /** With an increasing exponential a session active later never weighs less; never seen active is 999 minutes old. */
  lemma RecentActivityWeighsMore(env: Env, f: Fields, g: Fields)
    requires Signs(env) && f.cartValue >= 0.0 && f.rageClicks >= 0
    requires forall x, y | x <= y :: env.exp(x) <= env.exp(y)
    requires g == f.(lastActivity := g.lastActivity) && f.lastActivity <= g.lastActivity && 0 < g.lastActivity
    requires f.lastActivity > 0 || (env.now - g.lastActivity) <= 999 * 60000
    ensures Weight(env, f) <= Weight(env, g)
  {
    assert MinutesSinceActive(env, g) <= MinutesSinceActive(env, f) by {
      assert f.lastActivity <= 0 ==> (env.now - g.lastActivity) as real <= 999.0 * 60000.0;
    }
    var fs, gs := Factors(env, f), Factors(env, g);
    assert fs[..2] == gs[..2] && fs[2] <= gs[2];
    ProductAtLeastOne(fs[..2]);
    NonNegativeProduct(Product(fs[..2]), gs[2] - fs[2]);
  }

  ghost predicate InRange(es: seq<Entry>) {
    forall i | 0 <= i < |es| :: 1.0 <= es[i].weight <= SESSION_WEIGHT_CAP
  }

  /** Every counted session weighs between 1 and the cap. */
  lemma {:induction false} WeightsInRange(env: Env, sessions: seq<Session>, triggerSid: string, triggerScore: real)
    requires Signs(env) && AllSound(sessions)
    ensures InRange(Entries(env, sessions, triggerSid, triggerScore))
  {
    if sessions != [] {
      var last := sessions[|sessions| - 1];
      assert Sound(last);
      WeightsInRange(env, sessions[..|sessions| - 1], triggerSid, triggerScore);
      if last.hash.Some? {
        WeightInRange(env, last.hash.value);
      }
    }
  }

  lemma {:induction false} TotalIsAtLeastTheCount(es: seq<Entry>)
    requires InRange(es)
    ensures Total(es) >= |es| as real
  {
    if es != [] {
      TotalIsAtLeastTheCount(es[..|es| - 1]);
    }
  }

  /** Every other counted session weighs at least 1. */
  lemma {:induction false} TotalBesideOne(es: seq<Entry>, i: nat)
    requires InRange(es) && i < |es|
    ensures Total(es) >= es[i].weight + (|es| - 1) as real
  {
    if i == |es| - 1 {
      TotalIsAtLeastTheCount(es[..i]);
    } else {
      TotalBesideOne(es[..|es| - 1], i);
    }
  }

  lemma CrossMultiplied(a: real, b: real, c: real, d: real)
    requires b > 0.0 && d > 0.0 && a * d <= c * b
    ensures a / b <= c / d
  {
    var x := a / b;
    assert x * b == a;
    assert (x * d) * b <= c * b;
    assert x * d <= c;
    QuotientWithin(c, d, x, c / d);
  }

  lemma QuotientWithin(sum: real, total: real, lo: real, hi: real)
    requires total > 0.0 && lo * total <= sum <= hi * total
    ensures lo <= sum / total <= hi
  {
    var q := sum / total;
    assert q * total == sum;
  }

  /** Of `n` counted sessions none holds more than `20 / (n + 19)` of the weight. */
  lemma NoSessionHoldsMoreThanItsShare(es: seq<Entry>, i: nat)
    requires InRange(es) && i < |es|
    ensures Total(es) > 0.0
    ensures es[i].weight / Total(es) <= ShareBound(|es|)
  {
    TotalBesideOne(es, i);
    ShareOf(es[i].weight, Total(es), |es| as real);
  }

  lemma ShareOf(w: real, t: real, n: real)
    requires 1.0 <= w <= SESSION_WEIGHT_CAP && n >= 1.0 && t >= w + (n - 1.0)
    ensures w / t <= SESSION_WEIGHT_CAP / (n + CAP_LESS_ONE)
  {
    NonNegativeProduct(SESSION_WEIGHT_CAP - w, n - 1.0);
    assert w * (n + CAP_LESS_ONE) == w * (n - 1.0) + w * SESSION_WEIGHT_CAP;
    CrossMultiplied(w, t, SESSION_WEIGHT_CAP, n + CAP_LESS_ONE);
  }

  // ----- The aggregate -----

  /** The entry's risk is between the bounds. */
  ghost predicate RiskWithin(e: Entry, lo: real, hi: real) {
    lo * e.weight <= e.weighted <= hi * e.weight
  }

  ghost predicate AllRisksWithin(es: seq<Entry>, lo: real, hi: real) {
    forall i | 0 <= i < |es| :: RiskWithin(es[i], lo, hi)
  }

  lemma WithinStep(total: real, sum: real, weight: real, weighted: real, lo: real, hi: real)
    requires lo * total <= sum <= hi * total && lo * weight <= weighted <= hi * weight
    ensures lo * (total + weight) <= sum + weighted <= hi * (total + weight)
  {
    assert lo * (total + weight) == lo * total + lo * weight;
    assert hi * (total + weight) == hi * total + hi * weight;
  }

  lemma {:induction false} SumWithinRisks(es: seq<Entry>, lo: real, hi: real)
    requires AllRisksWithin(es, lo, hi)
    ensures lo * Total(es) <= WeightedSum(es) <= hi * Total(es)
  {
    if es != [] {
      var p, last := es[..|es| - 1], es[|es| - 1];
      SumWithinRisks(p, lo, hi);
      WithinStep(Total(p), WeightedSum(p), last.weight, last.weighted, lo, hi);
    }
  }

  lemma MeanWithinRisks(es: seq<Entry>, triggerScore: real, lo: real, hi: real)
    requires InRange(es) && es != [] && 0.0 <= lo <= hi <= 1.0
    requires AllRisksWithin(es, lo, hi)
    ensures lo <= Mean(es, triggerScore) <= hi
    ensures Total(es) > 0.0 && Mean(es, triggerScore) == WeightedSum(es) / Total(es)
  {
    TotalIsAtLeastTheCount(es);
    SumWithinRisks(es, lo, hi);
    MeanWithin(WeightedSum(es), Total(es), lo, hi);
  }

  lemma MeanWithin(sum: real, total: real, lo: real, hi: real)
    requires total > 0.0 && lo * total <= sum <= hi * total && 0.0 <= lo <= hi <= 1.0
    ensures lo <= sum / total <= hi && Clamp(sum / total) == sum / total
  {
    QuotientWithin(sum, total, lo, hi);
  }

  /**
   * The aggregate lies between any bounds of the counted sessions' risks that are within [0, 1], so
   * there the clamp changes nothing.
   */
  lemma AggregateWithinRisks(
    env: Env, sessions: seq<Session>, triggerSid: string, triggerScore: real, lo: real, hi: real)
    requires Signs(env) && AllSound(sessions) && 0.0 <= lo <= hi <= 1.0
    requires forall i | 0 <= i < |sessions| && sessions[i].hash.Some? ::
               lo <= SessionRisk(sessions[i], triggerSid, triggerScore) <= hi
    requires Entries(env, sessions, triggerSid, triggerScore) != []
    ensures lo <= AggregateRisk(env, sessions, triggerSid, triggerScore) <= hi
    ensures var es := Entries(env, sessions, triggerSid, triggerScore);
            Total(es) > 0.0 && AggregateRisk(env, sessions, triggerSid, triggerScore) == WeightedSum(es) / Total(es)
  {
    WeightsInRange(env, sessions, triggerSid, triggerScore);
    RisksWithin(env, sessions, triggerSid, triggerScore, lo, hi);
    MeanWithinRisks(Entries(env, sessions, triggerSid, triggerScore), triggerScore, lo, hi);
  }

  lemma {:induction false} RisksWithin(
    env: Env, sessions: seq<Session>, triggerSid: string, triggerScore: real, lo: real, hi: real)
    requires Signs(env) && AllSound(sessions)
    requires forall i | 0 <= i < |sessions| && sessions[i].hash.Some? ::
               lo <= SessionRisk(sessions[i], triggerSid, triggerScore) <= hi
    ensures AllRisksWithin(Entries(env, sessions, triggerSid, triggerScore), lo, hi)
  {
    if sessions != [] {
      var last := sessions[|sessions| - 1];
      assert Sound(last);
      RisksWithin(env, sessions[..|sessions| - 1], triggerSid, triggerScore, lo, hi);
      if last.hash.Some? {
        WeightInRange(env, last.hash.value);
        EntryWithin(EntryOf(env, last, triggerSid, triggerScore), SessionRisk(last, triggerSid, triggerScore), lo, hi);
      }
      AppendWithin(Entries(env, sessions[..|sessions| - 1], triggerSid, triggerScore),
                   EntriesOf(env, last, triggerSid, triggerScore), lo, hi);
    }
  }

  lemma AppendWithin(es: seq<Entry>, more: seq<Entry>, lo: real, hi: real)
    requires AllRisksWithin(es, lo, hi) && AllRisksWithin(more, lo, hi)
    ensures AllRisksWithin(es + more, lo, hi)
  {
  }

  lemma EntryWithin(e: Entry, risk: real, lo: real, hi: real)
    requires e.weighted == e.weight * risk && e.weight >= 0.0 && lo <= risk <= hi
    ensures RiskWithin(e, lo, hi)
  {
    ScaledBounds(e.weight, risk, lo, hi);
  }

  lemma ScaledBounds(w: real, risk: real, lo: real, hi: real)
    requires w >= 0.0 && lo <= risk <= hi
    ensures lo * w <= w * risk <= hi * w
  {
  }

  /** The same entries, but for the risk of those under the trigger's id, which rises. */
  ghost predicate Raised(es: seq<Entry>, fs: seq<Entry>, triggerSid: string, rise: real) {
    && |fs| == |es|
    && forall i | 0 <= i < |es| :: fs[i] == RaisedEntry(es[i], triggerSid, rise)
  }

  function RaisedEntry(e: Entry, triggerSid: string, rise: real): Entry {
    if e.sid == triggerSid then e.(weighted := e.weighted + rise * e.weight) else e
  }

  lemma EntryRises(env: Env, session: Session, triggerSid: string, low: real, high: real)
    requires session.hash.Some?
    ensures EntryOf(env, session, triggerSid, high) ==
            RaisedEntry(EntryOf(env, session, triggerSid, low), triggerSid, high - low)
  {
    var w := Weight(env, session.hash.value);
    assert w * high == w * low + (high - low) * w;
  }

  lemma {:induction false} ScoreRaisesEntries(
    env: Env, sessions: seq<Session>, triggerSid: string, low: real, high: real)
    ensures var es, fs := Entries(env, sessions, triggerSid, low), Entries(env, sessions, triggerSid, high);
      Raised(es, fs, triggerSid, high - low)
    decreases |sessions|
  {
    if sessions != [] {
      var last := sessions[|sessions| - 1];
      ScoreRaisesEntries(env, sessions[..|sessions| - 1], triggerSid, low, high);
      if last.hash.Some? {
        EntryRises(env, last, triggerSid, low, high);
      }
    }
  }

  /** When one entry changes and keeps its weight, the sum changes by as much. */
  lemma {:induction false} OneEntryChanges(es: seq<Entry>, fs: seq<Entry>, i: nat)
    requires |fs| == |es| && i < |es| && fs[i].weight == es[i].weight
    requires forall j | 0 <= j < |es| && j != i :: fs[j] == es[j]
    ensures Total(fs) == Total(es)
    ensures WeightedSum(fs) - WeightedSum(es) == fs[i].weighted - es[i].weighted
  {
    var n := |es| - 1;
    if i == n {
      assert fs[..n] == es[..n];
    } else {
      OneEntryChanges(es[..n], fs[..n], i);
    }
  }

  ghost predicate Distinct(sessions: seq<Session>) {
    forall i, j | 0 <= i < j < |sessions| :: sessions[i].sid != sessions[j].sid
  }

  ghost predicate DistinctEntries(es: seq<Entry>) {
    forall i, j | 0 <= i < j < |es| :: es[i].sid != es[j].sid
  }

  /** The entries are under the ids of sessions with a hash. */
  lemma {:induction false} EntriesAreOfSessions(
    env: Env, sessions: seq<Session>, triggerSid: string, triggerScore: real, sid: string)
    requires forall i | 0 <= i < |sessions| :: sessions[i].hash.None? || sessions[i].sid != sid
    ensures forall e | e in Entries(env, sessions, triggerSid, triggerScore) :: e.sid != sid
  {
    if sessions != [] {
      EntriesAreOfSessions(env, sessions[..|sessions| - 1], triggerSid, triggerScore, sid);
    }
  }

  lemma {:induction false} DistinctSessionsGiveDistinctEntries(
    env: Env, sessions: seq<Session>, triggerSid: string, triggerScore: real)
    requires Distinct(sessions)
    ensures DistinctEntries(Entries(env, sessions, triggerSid, triggerScore))
  {
    if sessions != [] {
      var p := sessions[..|sessions| - 1];
      DistinctSessionsGiveDistinctEntries(env, p, triggerSid, triggerScore);
      EntriesAreOfSessions(env, p, triggerSid, triggerScore, sessions[|sessions| - 1].sid);
    }
  }

  lemma QuotientMoves(s0: real, s1: real, t: real, rise: real, w: real, share: real)
    requires t > 0.0 && rise >= 0.0 && s1 - s0 == rise * w && w >= 0.0 && w / t <= share
    ensures 0.0 <= Clamp(s1 / t) - Clamp(s0 / t) <= rise * share
  {
    var q := w / t;
    assert q * t == w;
    assert s1 / t - s0 / t == rise * q by {
      QuotientWithin(s1, t, s0 / t + rise * q, s0 / t + rise * q);
    }
    ScaledBounds(rise, q, 0.0, share);
  }

  function ShareBound(n: nat): real {
    SESSION_WEIGHT_CAP / (n as real + CAP_LESS_ONE)
  }

  lemma OnlyTheTriggersEntryRises(es: seq<Entry>, fs: seq<Entry>, i: nat, triggerSid: string, rise: real)
    requires DistinctEntries(es) && i < |es| && es[i].sid == triggerSid && Raised(es, fs, triggerSid, rise)
    ensures forall j | 0 <= j < |es| && j != i :: fs[j] == es[j]
    ensures fs[i] == RaisedEntry(es[i], triggerSid, rise)
  {
    forall j | 0 <= j < |es| && j != i ensures fs[j] == es[j] {
      assert es[j].sid != triggerSid && fs[j] == RaisedEntry(es[j], triggerSid, rise);
    }
  }

  ghost predicate RisesByItsShare(before: real, after: real, change: real, share: real) {
    0.0 <= after - before <= change * share
  }

  lemma MeanOfMovedSum(es: seq<Entry>, fs: seq<Entry>, w: real, share: real, low: real, high: real)
    requires Total(es) > 0.0 && w >= 0.0 && w / Total(es) <= share && low <= high
    requires Total(fs) == Total(es) && WeightedSum(fs) - WeightedSum(es) == (high - low) * w
    ensures RisesByItsShare(Mean(es, low), Mean(fs, high), high - low, share)
  {
    QuotientMoves(WeightedSum(es), WeightedSum(fs), Total(es), high - low, w, share);
  }

  lemma MeanMoves(es: seq<Entry>, fs: seq<Entry>, i: nat, triggerSid: string, low: real, high: real)
    requires InRange(es) && DistinctEntries(es) && i < |es| && es[i].sid == triggerSid && low <= high
    requires Raised(es, fs, triggerSid, high - low)
    ensures RisesByItsShare(Mean(es, low), Mean(fs, high), high - low, ShareBound(|es|))
  {
    OnlyTheTriggersEntryRises(es, fs, i, triggerSid, high - low);
    OneEntryChanges(es, fs, i);
    NoSessionHoldsMoreThanItsShare(es, i);
    MeanOfMovedSum(es, fs, es[i].weight, ShareBound(|es|), low, high);
  }

  lemma MeanStays(es: seq<Entry>, fs: seq<Entry>, triggerSid: string, low: real, high: real)
    requires InRange(es) && es != [] && Raised(es, fs, triggerSid, high - low)
    requires forall e | e in es :: e.sid != triggerSid
    ensures Mean(fs, high) == Mean(es, low)
  {
    TotalIsAtLeastTheCount(es);
    assert forall j | 0 <= j < |es| :: fs[j] == RaisedEntry(es[j], triggerSid, high - low) && es[j] in es;
    assert fs == es;
  }

  lemma MeanMovesByItsShare(es: seq<Entry>, fs: seq<Entry>, triggerSid: string, low: real, high: real)
    requires InRange(es) && DistinctEntries(es) && es != [] && low <= high
    requires Raised(es, fs, triggerSid, high - low)
    ensures RisesByItsShare(Mean(es, low), Mean(fs, high), high - low, ShareBound(|es|))
  {
    if i: nat :| i < |es| && es[i].sid == triggerSid {
      MeanMoves(es, fs, i, triggerSid, low, high);
    } else {
      assert forall e | e in es :: e.sid != triggerSid;
      MeanStays(es, fs, triggerSid, low, high);
      NonNegativeProduct(high - low, ShareBound(|es|));
    }
  }

  /** A trigger whose own session is not counted does not move the aggregate, whatever its score. */
  lemma UncountedTriggerDoesNotMatter(env: Env, sessions: seq<Session>, triggerSid: string, low: real, high: real)
    requires Signs(env) && AllSound(sessions) && Entries(env, sessions, triggerSid, low) != []
    requires forall j | 0 <= j < |sessions| :: sessions[j].hash.None? || sessions[j].sid != triggerSid
    ensures AggregateRisk(env, sessions, triggerSid, high) == AggregateRisk(env, sessions, triggerSid, low)
  {
    WeightsInRange(env, sessions, triggerSid, low);
    ScoreRaisesEntries(env, sessions, triggerSid, low, high);
    EntriesAreOfSessions(env, sessions, triggerSid, low, triggerSid);
    MeanStays(Entries(env, sessions, triggerSid, low), Entries(env, sessions, triggerSid, high), triggerSid, low, high);
  }

  /**
   * A higher trigger score never lowers the aggregate, and with `n` counted sessions raises it by at
   * most `20 / (n + 19)` of its own rise.
   */
  lemma TriggerMovesTheAggregateByItsShare(env: Env, sessions: seq<Session>, triggerSid: string, low: real, high: real)
    requires Signs(env) && AllSound(sessions) && Distinct(sessions) && low <= high
    requires Entries(env, sessions, triggerSid, low) != []
    ensures RisesByItsShare(AggregateRisk(env, sessions, triggerSid, low),
                            AggregateRisk(env, sessions, triggerSid, high),
                            high - low, ShareBound(|Entries(env, sessions, triggerSid, low)|))
  {
    var es, fs := Entries(env, sessions, triggerSid, low), Entries(env, sessions, triggerSid, high);
    WeightsInRange(env, sessions, triggerSid, low);
    ScoreRaisesEntries(env, sessions, triggerSid, low, high);
    DistinctSessionsGiveDistinctEntries(env, sessions, triggerSid, low);
    MeanMovesByItsShare(es, fs, triggerSid, low, high);
  }
}
