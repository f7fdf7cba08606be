/**
 * The consumer of enriched events: a batch is processed by priority and resolved by partition order.
 *
 * A message is its offset and what the handler reads of its payload. Early breaks (shutdown, a
 * stopped runner, a stale batch) are a number of messages after which the loop stops.
 */
module DecisionConsumer {
  datatype Payload =
    | Unparsed                                          // no value, invalid JSON, or JSON null
    | Parsed(priority: Priority, customerKnown: bool, canonicalType: string)

  /** The `priority` field: absent, one of the three known names, or any other string. */
  datatype Priority = Absent | Critical | High | Normal | Unknown

  datatype Message = Message(offset: nat, payload: Payload)

  /** What the handler does with a message. Each of these ends with the message marked done. */
  datatype Effect = Dlq(reason: string) | Cleared | Ignored | Decided

  const TRIGGERS: set<string> := {"checkout_abandon", "exit_intent", "user_idle"}

  function PriorityRankOf(p: Priority): nat {
    match p
    case Critical => 0
    case High => 1
    case Normal => 2
    case Absent => 3
    case Unknown => 3
  }

  /** An unparsed message has no event, hence no priority. */
  function RankOf(m: Message): nat {
    if m.payload.Unparsed? then 3 else PriorityRankOf(m.payload.priority)
  }

  const RETRY_DELAYS: seq<nat> := [100, 200, 400]

  /** `failures` says how often deciding a message throws before it first succeeds. */
  function EffectOf(m: Message, failures: map<nat, nat>): Effect {
    match m.payload
    case Unparsed => Dlq("invalid_json")
    case Parsed(_, customerKnown, canonicalType) =>
      if !customerKnown then Dlq("missing_user_id")
      else if canonicalType == "purchase" then Cleared
      else if canonicalType !in TRIGGERS then Ignored
      else if m.offset in failures && failures[m.offset] > |RETRY_DELAYS| then Dlq("decision_failed")
      else Decided
  }

  // ----- The stable sort -----

  /** The messages of one rank, in order. */
  function OfRank(ms: seq<Message>, rank: nat): seq<Message> {
    if ms == [] then []
    else (if RankOf(ms[0]) == rank then [ms[0]] else []) + OfRank(ms[1..], rank)
  }

  function Insert(m: Message, ms: seq<Message>): seq<Message> {
    if ms == [] || RankOf(m) <= RankOf(ms[0]) then [m] + ms else [ms[0]] + Insert(m, ms[1..])
  }

  /** The batch in processing order. */
  function ByPriority(ms: seq<Message>): seq<Message> {
    if ms == [] then [] else Insert(ms[0], ByPriority(ms[1..]))
  }

  ghost predicate SortedByRank(ms: seq<Message>) {
    forall i, j | 0 <= i < j < |ms| :: RankOf(ms[i]) <= RankOf(ms[j])
  }

  /** Messages of equal rank keep their order. */
  ghost predicate SameByRank(a: seq<Message>, b: seq<Message>) {
    forall rank :: OfRank(a, rank) == OfRank(b, rank)
  }

  lemma {:induction false} InsertAdds(m: Message, ms: seq<Message>)
    ensures multiset(Insert(m, ms)) == multiset{m} + multiset(ms)
  {
    if ms != [] && RankOf(ms[0]) < RankOf(m) {
      InsertAdds(m, ms[1..]);
      assert ms == [ms[0]] + ms[1..];
    }
  }

  lemma {:induction false} InsertSorts(m: Message, ms: seq<Message>)
    requires SortedByRank(ms)
    ensures SortedByRank(Insert(m, ms))
    ensures forall x | x in Insert(m, ms) :: x == m || x in ms
  {
    if ms != [] && RankOf(ms[0]) < RankOf(m) {
      InsertSorts(m, ms[1..]);
      var t := Insert(m, ms[1..]);
      forall j | 0 <= j < |t| ensures RankOf(ms[0]) <= RankOf(t[j]) {
        assert t[j] == m || t[j] in ms[1..];
      }
    }
  }

  lemma {:induction false} InsertKeepsRanks(m: Message, ms: seq<Message>, rank: nat)
    ensures OfRank(Insert(m, ms), rank) == OfRank([m] + ms, rank)
  {
    assert ([m] + ms)[1..] == ms;
    if ms != [] && RankOf(ms[0]) < RankOf(m) {
      InsertKeepsRanks(m, ms[1..], rank);
      assert ([m] + ms[1..])[1..] == ms[1..];
      assert Insert(m, ms)[1..] == Insert(m, ms[1..]);
    }
  }

  /** Processing order is a stable, sorted permutation of the batch. */
  lemma {:induction false} SortIsStable(ms: seq<Message>)
    ensures SortedByRank(ByPriority(ms)) && SameByRank(ms, ByPriority(ms))
    ensures multiset(ByPriority(ms)) == multiset(ms) && |ByPriority(ms)| == |ms|
  {
    if ms != [] {
      SortIsStable(ms[1..]);
      var t := ByPriority(ms[1..]);
      InsertSorts(ms[0], t);
      InsertAdds(ms[0], t);
      assert ms == [ms[0]] + ms[1..];
      forall rank: nat ensures OfRank(ms, rank) == OfRank(ByPriority(ms), rank) {
        InsertKeepsRanks(ms[0], t, rank);
        assert ([ms[0]] + t)[1..] == t;
        assert OfRank(ms[1..], rank) == OfRank(t, rank);
      }
      assert |multiset(ByPriority(ms))| == |multiset(ms)|;
    }
  }

  lemma {:induction false} OfRankMembers(ms: seq<Message>, rank: nat)
    ensures forall i | 0 <= i < |OfRank(ms, rank)| :: RankOf(OfRank(ms, rank)[i]) == rank && OfRank(ms, rank)[i] in ms
    ensures forall i | 0 <= i < |ms| && RankOf(ms[i]) == rank :: ms[i] in OfRank(ms, rank)
  {
    if ms != [] {
      OfRankMembers(ms[1..], rank);
    }
  }

  lemma OfRankTail(ms: seq<Message>, rank: nat)
    requires ms != []
    ensures RankOf(ms[0]) == rank ==> OfRank(ms, rank) != []
    ensures OfRank(ms[1..], rank) == if RankOf(ms[0]) == rank then OfRank(ms, rank)[1..] else OfRank(ms, rank)
  {
  }

  /** There is only one such order, so any stable sort by rank gives it. */
  lemma {:induction false} StableOrderIsUnique(a: seq<Message>, b: seq<Message>)
    requires SortedByRank(a) && SortedByRank(b) && SameByRank(a, b)
    ensures a == b
  {
    assert a != [] ==> OfRank(a, RankOf(a[0])) == OfRank(b, RankOf(a[0]));
    assert b != [] ==> OfRank(a, RankOf(b[0])) == OfRank(b, RankOf(b[0]));
    if a != [] && b != [] {
      var r, q := RankOf(a[0]), RankOf(b[0]);
      OfRankMembers(a, r); OfRankMembers(b, r);
      OfRankMembers(a, q); OfRankMembers(b, q);
      assert OfRank(a, r) == OfRank(b, r) && OfRank(a, q) == OfRank(b, q);
      assert a[0] in OfRank(a, r) && b[0] in OfRank(b, q);
      assert r == q;
      assert OfRank(a, r)[0] == a[0] && OfRank(b, r)[0] == b[0];
      forall rank: nat ensures OfRank(a[1..], rank) == OfRank(b[1..], rank) {
        OfRankTail(a, rank);
        OfRankTail(b, rank);
        assert OfRank(a, rank) == OfRank(b, rank);
      }
      StableOrderIsUnique(a[1..], b[1..]);
    }
  }

  // ----- The handler -----

  predicate DistinctOffsets(ms: seq<Message>) {
    forall i, j | 0 <= i < j < |ms| :: ms[i].offset != ms[j].offset
  }

  function Offsets(ms: seq<Message>): (r: seq<nat>)
    ensures |r| == |ms| && forall i | 0 <= i < |ms| :: r[i] == ms[i].offset
  {
    seq(|ms|, i requires 0 <= i < |ms| => ms[i].offset)
  }

  /** What one run of the loop leaves behind, message by message in processing order. */
  function EffectsOf(ms: seq<Message>, failures: map<nat, nat>): (r: seq<(nat, Effect)>)
    ensures |r| == |ms| && forall i | 0 <= i < |ms| :: r[i] == (ms[i].offset, EffectOf(ms[i], failures))
  {
    seq(|ms|, i requires 0 <= i < |ms| => (ms[i].offset, EffectOf(ms[i], failures)))
  }

  function OffsetSet(ms: seq<Message>): set<nat> {
    set m | m in ms :: m.offset
  }

  function Upto(ordered: seq<Message>, n: nat): seq<Message> {
    if n < |ordered| then ordered[..n] else ordered
  }

  /** The messages processed before the loop breaks after `n` of them. */
  function Processed(batch: seq<Message>, n: nat): seq<Message> {
    Upto(ByPriority(batch), n)
  }

  /** `k` is the length of the longest prefix of the batch that lies within `done`. */
  ghost predicate LongestDonePrefix(batch: seq<Message>, done: set<nat>, k: nat) {
    && k <= |batch|
    && (forall i | 0 <= i < k :: batch[i].offset in done)
    && (k < |batch| ==> batch[k].offset !in done)
  }

  class Handler {
    var effects: seq<(nat, Effect)>

    constructor ()
      ensures effects == []
    {
      effects := [];
    }

    /** Runs an operation that throws `failures` times before it succeeds. */
    static method WithRetry(failures: nat) returns (ok: bool, attempts: nat)
      ensures ok <==> failures <= |RETRY_DELAYS|
      ensures attempts == if ok then failures + 1 else |RETRY_DELAYS| + 1
    {
      attempts := 0;
      ok := false;
      for attempt := 0 to |RETRY_DELAYS| + 1
        invariant attempts == attempt <= failures
      {
        attempts := attempts + 1;
        if failures <= attempt {
          return true, attempts;
        }
      }
    }

    method Handle(m: Message, failures: map<nat, nat>)
      modifies this
      ensures effects == old(effects) + [(m.offset, EffectOf(m, failures))]
    {
      if m.payload.Unparsed? {
        effects := effects + [(m.offset, Dlq("invalid_json"))];
        return;
      }
      if !m.payload.customerKnown {
        effects := effects + [(m.offset, Dlq("missing_user_id"))];
        return;
      }
      if m.payload.canonicalType == "purchase" {
        effects := effects + [(m.offset, Cleared)];
        return;
      }
      if m.payload.canonicalType !in TRIGGERS {
        effects := effects + [(m.offset, Ignored)];
        return;
      }
      var ok, _ := WithRetry(if m.offset in failures then failures[m.offset] else 0);
      if !ok {
        effects := effects + [(m.offset, Dlq("decision_failed"))];
        return;
      }
      effects := effects + [(m.offset, Decided)];
    }

    /** Processes in priority order until the loop breaks. */
    method ProcessInOrder(ordered: seq<Message>, stopAfter: nat, failures: map<nat, nat>) returns (done: set<nat>)
      modifies this
      ensures effects == old(effects) + EffectsOf(Upto(ordered, stopAfter), failures)
      ensures done == OffsetSet(Upto(ordered, stopAfter))
    {
      done := {};
      var n := 0;
      assert effects + [] == effects;
      while n < |ordered| && n < stopAfter
        invariant n <= |ordered| && n <= stopAfter
        invariant done == OffsetSet(ordered[..n])
        invariant effects == old(effects) + EffectsOf(ordered[..n], failures)
      {
        Handle(ordered[n], failures);
        done := done + {ordered[n].offset};
        OneMoreHandled(ordered, n, failures);
        n := n + 1;
      }
      assert Upto(ordered, stopAfter) == ordered[..n];
    }

    /** Resolves in partition order, stopping at the first message that was not processed. */
    method ResolvePrefix(batch: seq<Message>, done: set<nat>) returns (resolved: seq<nat>)
      ensures LongestDonePrefix(batch, done, |resolved|)
      ensures resolved == Offsets(batch)[..|resolved|]
    {
      resolved := [];
      var i := 0;
      while i < |batch|
        invariant i <= |batch| && resolved == Offsets(batch)[..i]
        invariant forall j | 0 <= j < i :: batch[j].offset in done
      {
        if batch[i].offset !in done {
          break;
        }
        resolved := resolved + [batch[i].offset];
        i := i + 1;
      }
    }

    /** The batch handler; the loop breaks once it has processed `stopAfter` messages. */
    method EachBatch(batch: seq<Message>, stopAfter: nat, failures: map<nat, nat>) returns (resolved: seq<nat>)
      modifies this
      ensures effects == old(effects) + EffectsOf(Processed(batch, stopAfter), failures)
      ensures LongestDonePrefix(batch, OffsetSet(Processed(batch, stopAfter)), |resolved|)
      ensures resolved == Offsets(batch)[..|resolved|]
    {
      var done := ProcessInOrder(ByPriority(batch), stopAfter, failures);
      resolved := ResolvePrefix(batch, done);
    }
  }

  lemma OneMoreHandled(ordered: seq<Message>, n: nat, failures: map<nat, nat>)
    requires n < |ordered|
    ensures OffsetSet(ordered[..n + 1]) == OffsetSet(ordered[..n]) + {ordered[n].offset}
    ensures EffectsOf(ordered[..n + 1], failures) ==
            EffectsOf(ordered[..n], failures) + [(ordered[n].offset, EffectOf(ordered[n], failures))]
  {
    assert ordered[..n + 1] == ordered[..n] + [ordered[n]];
    assert forall m | m in ordered[..n + 1] :: m in ordered[..n] || m == ordered[n];
    assert forall m | m in ordered[..n] :: m in ordered[..n + 1];
    assert ordered[n] in ordered[..n + 1];
  }

  lemma {:induction false} OfRankConcat(a: seq<Message>, b: seq<Message>, rank: nat)
    ensures OfRank(a + b, rank) == OfRank(a, rank) + OfRank(b, rank)
  {
    if a == [] {
      assert a + b == b;
    } else {
      assert (a + b)[1..] == a[1..] + b && (a + b)[0] == a[0];
      OfRankConcat(a[1..], b, rank);
    }
  }

  lemma BetterRankIsProcessedFirst(batch: seq<Message>, n: nat, a: Message, b: Message)
    requires a in batch && b in Processed(batch, n) && RankOf(a) < RankOf(b)
    ensures a in Processed(batch, n)
  {
    var ordered, done := ByPriority(batch), Processed(batch, n);
    SortIsStable(batch);
    assert a in multiset(batch);
    var k :| 0 <= k < |ordered| && ordered[k] == a;
    var l :| 0 <= l < |done| && done[l] == b;
    assert ordered[l] == b;
    assert k < l ==> done[k] == a;
  }

  lemma EarlierOfRankIsProcessedFirst(before: seq<Message>, b: Message, after: seq<Message>, n: nat, a: Message)
    requires a in before && b !in before && RankOf(a) == RankOf(b)
    requires b in Processed(before + ([b] + after), n)
    ensures a in Processed(before + ([b] + after), n)
  {
    var r, batch := RankOf(b), before + ([b] + after);
    var ordered, done := ByPriority(batch), Processed(batch, n);
    SortIsStable(batch);
    assert OfRank(batch, r) == OfRank(ordered, r);
    assert ordered == done + ordered[|done|..];
    OfRankConcat(done, ordered[|done|..], r);
    OfRankConcat(before, [b] + after, r);
    OfRankMembers(done, r);
    OfRankMembers(before, r);
    PrefixWithExtra(OfRank(done, r), OfRank(ordered[|done|..], r), OfRank(before, r), OfRank([b] + after, r), b);
  }

  /**
   * At whatever message the loop breaks, a processed message implies that every message of better
   * rank, and every earlier message of its own rank, has been processed too.
   */
  lemma ProcessedIsClosedUnderPriority(batch: seq<Message>, n: nat, i: nat, j: nat)
    requires DistinctOffsets(batch) && i < |batch| && j < |batch|
    requires batch[j] in Processed(batch, n)
    requires RankOf(batch[i]) < RankOf(batch[j]) || (RankOf(batch[i]) == RankOf(batch[j]) && i < j)
    ensures batch[i] in Processed(batch, n)
  {
    if RankOf(batch[i]) < RankOf(batch[j]) {
      BetterRankIsProcessedFirst(batch, n, batch[i], batch[j]);
    } else {
      assert batch == batch[..j] + ([batch[j]] + batch[j + 1..]);
      assert batch[..j][i] == batch[i];
      EarlierOfRankIsProcessedFirst(batch[..j], batch[j], batch[j + 1..], n, batch[i]);
    }
  }

  /**
   * A message without a known priority is not a peer of the normal ones: wherever it stands in the
   * batch, it is processed only after all of them.
   */
  lemma UnknownPriorityComesAfterNormal(batch: seq<Message>, n: nat, i: nat, j: nat)
    requires DistinctOffsets(batch) && i < |batch| && j < |batch|
    requires batch[i].payload.Parsed? && batch[i].payload.priority == Normal
    requires batch[j].payload.Unparsed? || batch[j].payload.priority in {Absent, Unknown}
    requires batch[j] in Processed(batch, n)
    ensures batch[i] in Processed(batch, n)
  {
    ProcessedIsClosedUnderPriority(batch, n, i, j);
  }

  /** Of two prefixes of one sequence, the one with an element the other lacks is the longer. */
  lemma PrefixWithExtra(p: seq<Message>, u: seq<Message>, y: seq<Message>, v: seq<Message>, m: Message)
    requires p + u == y + v && m in p && m !in y
    ensures y <= p
  {
    var k :| 0 <= k < |p| && p[k] == m;
    assert forall i | 0 <= i < |p| && i < |y| :: p[i] == (p + u)[i] == (y + v)[i] == y[i];
  }

  // ----- A partition, over batches, breaks, crashes and redeliveries -----

  /**
   * `position` is the next message to fetch, `committed` the next to fetch after a restart, both
   * as indices into the log. `autoResolve` is the client's option of resolving the last offset of a
   * batch by itself once the handler returns.
   */
  datatype Partition = Partition(
    log: seq<Message>, position: nat, committed: nat, processed: set<nat>, autoResolve: bool)

  datatype Step =
    | Produce(m: Message)
    | Batch(len: nat, stopAfter: nat, commits: bool)   // the handler returns; the client may find a commit due
    | CrashIn(len: nat, stopAfter: nat)                // it dies or throws after so many messages
    | Restart                                          // rebalance or restart: fetch again from the commit

  function Fetched(p: Partition, len: nat): seq<Message> {
    if p.position <= |p.log| && p.position + len <= |p.log| then p.log[p.position..p.position + len] else []
  }

  function DonePrefix(batch: seq<Message>, done: set<nat>): (k: nat)
    ensures LongestDonePrefix(batch, done, k)
  {
    if batch == [] || batch[0].offset !in done then 0
    else
      var k := DonePrefix(batch[1..], done);
      assert forall i | 0 < i < |batch| :: batch[i] == batch[1..][i - 1];
      k + 1
  }

  function Apply(p: Partition, s: Step): Partition {
    match s
    case Produce(m) => if m.offset in OffsetSet(p.log) then p else p.(log := p.log + [m])
    case Batch(len, stopAfter, commits) =>
      var batch := Fetched(p, len);
      var done := OffsetSet(Processed(batch, stopAfter));
      var resolved := p.position + DonePrefix(batch, done);
      var next := if p.autoResolve then p.position + |batch| else resolved;
      p.(processed := p.processed + done, committed := if commits then resolved else p.committed, position := next)
    case CrashIn(len, stopAfter) =>
      var done := OffsetSet(Processed(Fetched(p, len), stopAfter));
      p.(processed := p.processed + done, position := p.committed)
    case Restart => p.(position := p.committed)
  }

  function ApplyAll(p: Partition, steps: seq<Step>): Partition {
    if steps == [] then p else Apply(ApplyAll(p, steps[..|steps| - 1]), steps[|steps| - 1])
  }

  function NewPartition(autoResolve: bool): Partition {
    Partition([], 0, 0, {}, autoResolve)
  }

  ghost predicate Shape(p: Partition) {
    p.committed <= p.position <= |p.log| && DistinctOffsets(p.log)
  }

  /** Everything below index `n` has been processed at least once. */
  ghost predicate ProcessedBelow(p: Partition, n: nat) {
    forall i | 0 <= i < n && i < |p.log| :: p.log[i].offset in p.processed
  }

  lemma StepKeepsOrder(p: Partition, s: Step)
    requires Shape(p) && !p.autoResolve && ProcessedBelow(p, p.position)
    ensures Shape(Apply(p, s)) && ProcessedBelow(Apply(p, s), Apply(p, s).position)
  {
    var p' := Apply(p, s);
    if s.Batch? {
      var batch := Fetched(p, s.len);
      forall i | 0 <= i < p'.position ensures p'.log[i].offset in p'.processed {
        assert i >= p.position ==> batch[i - p.position] == p.log[i];
      }
    } else {
      assert p'.position <= p.position && p.processed <= p'.processed && p.log <= p'.log;
      assert forall i | 0 <= i < p'.position :: p'.log[i] == p.log[i];
    }
  }

  /**
   * With the client left to resolve only what the handler does, every message below the committed
   * offset has been processed, whatever breaks, crashes, restarts and redeliveries happened.
   */
  lemma {:induction false} CommittedWasProcessed(steps: seq<Step>)
    ensures var p := ApplyAll(NewPartition(false), steps);
      Shape(p) && !p.autoResolve && ProcessedBelow(p, p.position) && ProcessedBelow(p, p.committed)
  {
    if steps != [] {
      var before := ApplyAll(NewPartition(false), steps[..|steps| - 1]);
      CommittedWasProcessed(steps[..|steps| - 1]);
      StepKeepsOrder(before, steps[|steps| - 1]);
    }
  }

  /** On every run, every message below the committed offset has been processed. */
  ghost predicate CommitsAreProcessed(autoResolve: bool) {
    forall steps: seq<Step> ::
      var p := ApplyAll(NewPartition(autoResolve), steps); ProcessedBelow(p, p.committed)
  }

  const FIRST: Message := Message(0, Unparsed)
  const SECOND: Message := Message(1, Unparsed)

  lemma OneMoreStep(p: Partition, steps: seq<Step>, s: Step)
    ensures ApplyAll(p, steps + [s]) == Apply(ApplyAll(p, steps), s)
  {
    assert (steps + [s])[..|steps|] == steps;
  }

  /** A batch of the first message is broken off at once; the client resolves it all the same. */
  lemma FirstIsSkipped()
    ensures Apply(Partition([FIRST, SECOND], 0, 0, {}, true), Batch(1, 0, true)) ==
            Partition([FIRST, SECOND], 1, 0, {}, true)
  {
    var batch := Fetched(Partition([FIRST, SECOND], 0, 0, {}, true), 1);
    assert batch == [FIRST] && Processed(batch, 0) == [];
  }

  /** The batch of the second message is processed and commits both. */
  lemma SecondIsCommitted()
    ensures var p := Apply(Partition([FIRST, SECOND], 1, 0, {}, true), Batch(1, 1, true));
      p.log == [FIRST, SECOND] && p.committed == 2 && p.processed == {1}
  {
    var batch := Fetched(Partition([FIRST, SECOND], 1, 0, {}, true), 1);
    assert batch == [SECOND];
    assert batch[1..] == [] && ByPriority(batch) == Insert(SECOND, []) == [SECOND] + [];
    assert Processed(batch, 1) == [SECOND];
    assert OffsetSet([SECOND]) == {1};
  }

  lemma AutoResolveCommitsUnprocessed() returns (steps: seq<Step>)
    ensures var p := ApplyAll(NewPartition(true), steps); !ProcessedBelow(p, p.committed)
  {
    var p := NewPartition(true);
    OneMoreStep(p, [], Produce(FIRST));
    OneMoreStep(p, [] + [Produce(FIRST)], Produce(SECOND));
    OneMoreStep(p, [] + [Produce(FIRST)] + [Produce(SECOND)], Batch(1, 0, true));
    steps := [] + [Produce(FIRST)] + [Produce(SECOND)] + [Batch(1, 0, true)];
    assert Apply(Apply(p, Produce(FIRST)), Produce(SECOND)) == Partition([FIRST, SECOND], 0, 0, {}, true);
    FirstIsSkipped();
    OneMoreStep(p, steps, Batch(1, 1, true));
    SecondIsCommitted();
    steps := steps + [Batch(1, 1, true)];
    assert ApplyAll(p, steps).log[0].offset == 0;
  }

  /** At-least-once processing holds on every run exactly when the client leaves resolving to the handler. */
  lemma CommitsAreProcessedExactlyWhen(autoResolve: bool)
    ensures CommitsAreProcessed(autoResolve) <==> !autoResolve
  {
    if autoResolve {
      var steps := AutoResolveCommitsUnprocessed();
      var p := ApplyAll(NewPartition(autoResolve), steps);
      assert !ProcessedBelow(p, p.committed);
    } else {
      forall steps: seq<Step>
        ensures var p := ApplyAll(NewPartition(autoResolve), steps); ProcessedBelow(p, p.committed)
      {
        CommittedWasProcessed(steps);
      }
    }
  }

  lemma ProcessedAreOfBatch(batch: seq<Message>, n: nat)
    ensures forall m | m in Processed(batch, n) :: m in batch
    ensures n < |batch| ==> |Processed(batch, n)| == n
    ensures |batch| <= n ==> OffsetSet(Processed(batch, n)) == OffsetSet(batch)
  {
    SortIsStable(batch);
    forall m | m in ByPriority(batch) ensures m in batch {
      assert m in multiset(batch);
    }
    forall m | m in batch ensures m in ByPriority(batch) {
      assert m in multiset(ByPriority(batch));
    }
  }

  /**
   * An early break that leaves a message of its batch unprocessed: the next fetch starts beyond an
   * unprocessed message exactly when the client also resolves batches by itself.
   */
  lemma EarlyBreakSkipsExactlyWhenAutoResolved(p: Partition, len: nat, stopAfter: nat, commits: bool, i: nat)
    requires Shape(p) && ProcessedBelow(p, p.position)
    requires p.position <= i < p.position + len <= |p.log|
    requires p.log[i].offset !in p.processed && p.log[i] !in Processed(Fetched(p, len), stopAfter)
    ensures var p' := Apply(p, Batch(len, stopAfter, commits));
      !ProcessedBelow(p', p'.position) <==> p.autoResolve
  {
    var batch := Fetched(p, len);
    var done := OffsetSet(Processed(batch, stopAfter));
    ProcessedAreOfBatch(batch, stopAfter);
    assert forall k | 0 <= k < |batch| :: batch[k] == p.log[p.position + k];
    forall m | m in Processed(batch, stopAfter) ensures m.offset != p.log[i].offset {
      var k :| 0 <= k < |batch| && batch[k] == m;
      assert p.log[p.position + k] == m;
    }
    var p' := Apply(p, Batch(len, stopAfter, commits));
    assert p'.log[i].offset !in p'.processed;
    if !p.autoResolve {
      StepKeepsOrder(p, Batch(len, stopAfter, commits));
    }
  }

  /** A batch that is not broken off is resolved to its end. */
  lemma UnbrokenBatchIsResolved(p: Partition, len: nat, stopAfter: nat)
    requires Shape(p) && p.position + len <= |p.log| && len <= stopAfter
    ensures Apply(p, Batch(len, stopAfter, true)).committed == p.position + len
  {
    var batch := Fetched(p, len);
    ProcessedAreOfBatch(batch, stopAfter);
    assert forall i | 0 <= i < |batch| :: batch[i].offset in OffsetSet(batch);
  }
}
