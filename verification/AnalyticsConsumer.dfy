/**
 * The analytics consumer: two row buffers kept across batches, flushed on size or time, rolled back
 * on shutdown and discarded when the partition is revoked.
 *
 * Outcomes of the outside world come with the input: what the runner says at each loop head, the
 * clock, what the duplicate filter answers, how each attempt to store a batch turns out, which
 * dead letters arrive, and where a metric, a heartbeat or a commit throws.
 */
module AnalyticsConsumer {
  import opened Batcher
  import opened Options

  type Eid = string

  datatype Content =
    | Unparseable
    | Event(eid: Eid, duplicate: bool)
    | Lifecycle(eid: Eid, duplicate: bool, hasInterventionId: bool)

  datatype Message = Message(offset: nat, content: Content)

  datatype Signal = Go | Stopping | Stale

  /** Where something throws in the turn of a message, if anywhere: before its offset is resolved, or at its end. */
  datatype Interrupt = Unbroken | BeforeResolve | AtHeartbeat

  /**
   * One `batchInsert` call: the client counts a failed insert in its result and still returns, so
   * whether the rows were stored and whether the call threw are independent.
   */
  datatype Attempt = Attempt(stored: bool, threw: bool)

  /** Where something throws after the insert, if anywhere: before the commit took effect, or after it. */
  datatype Late = Never | BeforeCommit | AfterCommit

  /**
   * How a flush turns out. Should it take its dead-letter branch, `arrives` are the rows whose dead
   * letter arrives (a failed send is logged and passed over), `throwsAfter` is the number of sends
   * after which a metric throws out of the branch, and `commitOk` is whether its commit succeeds.
   */
  datatype Plan = Plan(attempts: seq<Attempt>, late: Late, arrives: set<nat>, throwsAfter: Option<nat>, commitOk: bool)

  /** `arrives` is whether the dead letter of a message that does not parse arrives. */
  datatype Item = Item(message: Message, signal: Signal, now: int, plan: Plan, arrives: bool, interrupt: Interrupt)

  datatype Ending = Ending(now: int, eventPlan: Plan, lifecyclePlan: Plan)

  datatype Config = Config(batchSize: nat, batchTimeoutMs: int, maxRetries: nat, enableDedup: bool)

  /** A buffered row and the offset it came from. */
  datatype Entry = Entry(eid: Eid, offset: nat)

  /** One of the two flows of rows: its buffer, what was drained from it, and where that went. */
  datatype Lane = Lane(
    buffered: seq<Entry>, added: nat, lastDrainAt: int,
    drained: seq<Entry>, table: seq<Entry>, dlq: seq<Entry>)

  datatype World = World(
    events: Lane, lifecycle: Lane,
    parseErrors: seq<nat>, lostParseErrors: seq<nat>,   // by whether the dead letter arrived
    duplicates: seq<nat>, dropped: seq<nat>,
    resolved: seq<nat>,   // offsets handed to resolveOffset
    committed: nat,       // how many of them the last commit covered
    threw: bool)          // the call of the handler has thrown

  // ----- Storing a batch -----

  /** `executeWithRetry` over `batchInsert`: how many attempts stored the rows, and whether it threw. */
  datatype Insert = Insert(copies: nat, threw: bool)

  /** Attempts beyond those given throw without storing. */
  function InsertFrom(attempts: seq<Attempt>, retriesLeft: nat): Insert {
    if retriesLeft == 0 then Insert(0, true)
    else if attempts == [] then Insert(0, true)
    else
      var a := attempts[0];
      var copies := if a.stored then 1 else 0;
      if !a.threw then Insert(copies, false)
      else
        var rest := InsertFrom(attempts[1..], retriesLeft - 1);
        Insert(copies + rest.copies, rest.threw)
  }

  function Copies(rows: seq<Entry>, n: nat): seq<Entry> {
    if n == 0 then [] else Copies(rows, n - 1) + rows
  }

  /** Whether the flush takes its dead-letter branch. */
  predicate GoesToDlq(cfg: Config, plan: Plan) {
    InsertFrom(plan.attempts, cfg.maxRetries).threw || plan.late != Never
  }

  /** Whether a flush of `n` rows throws out of that branch. */
  predicate Throws(cfg: Config, plan: Plan, n: nat) {
    GoesToDlq(cfg, plan) && plan.throwsAfter.Some? && plan.throwsAfter.value <= n
  }

  /** The dead letter of row `i` was sent and arrived. */
  predicate Arrives(plan: Plan, i: nat) {
    (plan.throwsAfter.Some? ==> i < plan.throwsAfter.value) && i in plan.arrives
  }

  /** The rows whose dead letters arrive once the branch is taken. */
  function DeadLetters(rows: seq<Entry>, plan: Plan): seq<Entry> {
    if rows == [] then []
    else
      var n := |rows| - 1;
      DeadLetters(rows[..n], plan) + if Arrives(plan, n) then [rows[n]] else []
  }

  /** Whether a flush of `n` rows commits, in either branch. */
  predicate Commits(cfg: Config, plan: Plan, n: nat) {
    || (!InsertFrom(plan.attempts, cfg.maxRetries).threw && plan.late != BeforeCommit)
    || (!Throws(cfg, plan, n) && plan.commitOk)
  }

  function FlushLane(lane: Lane, cfg: Config, plan: Plan, now: int): Lane {
    var rows := lane.buffered;
    lane.(
      buffered := [], added := 0, lastDrainAt := now,
      drained := lane.drained + rows,
      table := lane.table + Copies(rows, InsertFrom(plan.attempts, cfg.maxRetries).copies),
      dlq := lane.dlq + if GoesToDlq(cfg, plan) then DeadLetters(rows, plan) else [])
  }

  function FlushEvents(w: World, cfg: Config, plan: Plan, now: int): World {
    var n := |w.events.buffered|;
    w.(events := FlushLane(w.events, cfg, plan, now),
       committed := if Commits(cfg, plan, n) then |w.resolved| else w.committed,
       threw := w.threw || Throws(cfg, plan, n))
  }

  function FlushLifecycle(w: World, cfg: Config, plan: Plan, now: int): World {
    var n := |w.lifecycle.buffered|;
    w.(lifecycle := FlushLane(w.lifecycle, cfg, plan, now),
       committed := if Commits(cfg, plan, n) then |w.resolved| else w.committed,
       threw := w.threw || Throws(cfg, plan, n))
  }

  function AddToLane(lane: Lane, e: Entry): Lane {
    lane.(buffered := lane.buffered + [e], added := lane.added + 1)
  }

  function RollbackLane(lane: Lane): Lane {
    lane.(buffered := lane.buffered[..|lane.buffered| - Min(lane.added, |lane.buffered|)])
  }

  function DiscardLane(lane: Lane, now: int): Lane {
    lane.(buffered := [], lastDrainAt := now)
  }

  predicate Expired(lane: Lane, cfg: Config, now: int) {
    lane.buffered != [] && now - lane.lastDrainAt >= cfg.batchTimeoutMs
  }

  // ----- One message -----

  datatype Fate = ParseError(arrives: bool) | Duplicate | Dropped | ToEvents(e: Entry) | ToLifecycle(e: Entry)

  function FateOf(cfg: Config, it: Item): Fate {
    match it.message.content
    case Unparseable => ParseError(it.arrives)
    case Event(eid, duplicate) =>
      if cfg.enableDedup && duplicate then Duplicate else ToEvents(Entry(eid, it.message.offset))
    case Lifecycle(eid, duplicate, hasInterventionId) =>
      if cfg.enableDedup && duplicate then Duplicate
      else if !hasInterventionId then Dropped
      else ToLifecycle(Entry(eid, it.message.offset))
  }

  predicate Full(lane: Lane, cfg: Config) {
    |lane.buffered| >= cfg.batchSize
  }

  /** The dead letter of a message that does not parse goes out before anything else can throw. */
  function Report(w: World, it: Item): World {
    if it.arrives then w.(parseErrors := w.parseErrors + [it.message.offset])
    else w.(lostParseErrors := w.lostParseErrors + [it.message.offset])
  }

  function Take(w: World, cfg: Config, it: Item): World {
    var fate := FateOf(cfg, it);
    var w0 := if fate.ParseError? then Report(w, it) else w;
    if it.interrupt.BeforeResolve? then w0.(threw := true)
    else
      var w1 := w0.(resolved := w.resolved + [it.message.offset], threw := w.threw || it.interrupt.AtHeartbeat?);
      match fate
      case ParseError(_) => w1
      case Duplicate => w1.(duplicates := w.duplicates + [it.message.offset])
      case Dropped => w1.(dropped := w.dropped + [it.message.offset])
      case ToEvents(e) =>
        var w2 := w1.(events := AddToLane(w.events, e));
        if Full(w2.events, cfg) then FlushEvents(w2, cfg, it.plan, it.now) else w2
      case ToLifecycle(e) =>
        var w2 := w1.(lifecycle := AddToLane(w.lifecycle, e));
        if Full(w2.lifecycle, cfg) then FlushLifecycle(w2, cfg, it.plan, it.now) else w2
  }

  function RollbackBoth(w: World): World {
    w.(events := RollbackLane(w.events), lifecycle := RollbackLane(w.lifecycle))
  }

  function Loop(w: World, cfg: Config, items: seq<Item>): World
    decreases |items|
  {
    if items == [] || w.threw then w
    else
      match items[0].signal
      case Stopping => RollbackBoth(w)
      case Stale =>
        w.(events := DiscardLane(w.events, items[0].now), lifecycle := DiscardLane(w.lifecycle, items[0].now))
      case Go => Loop(Take(w, cfg, items[0]), cfg, items[1..])
  }

  function EndFlush(w: World, cfg: Config, end: Ending): World {
    if w.threw then w
    else
      var w1 := if Expired(w.events, cfg, end.now) then FlushEvents(w, cfg, end.eventPlan, end.now) else w;
      if !w1.threw && Expired(w1.lifecycle, cfg, end.now)
      then FlushLifecycle(w1, cfg, end.lifecyclePlan, end.now)
      else w1
  }

  function Begin(w: World): World {
    w.(events := w.events.(added := 0), lifecycle := w.lifecycle.(added := 0), threw := false)
  }

  function EachBatch(w: World, cfg: Config, items: seq<Item>, end: Ending): World {
    EndFlush(Loop(Begin(w), cfg, items), cfg, end)
  }

  // ----- The consumer -----

  function Zip(rows: seq<Eid>, offsets: seq<BatchOffset>): (r: seq<Entry>)
    requires |rows| == |offsets|
    ensures |r| == |rows| && forall i | 0 <= i < |r| :: r[i] == Entry(rows[i], offsets[i].offset)
  {
    seq(|rows|, i requires 0 <= i < |rows| => Entry(rows[i], offsets[i].offset))
  }

  /** What became of the rows of one flow: a table, and the dead-letter records that name its rows. */
  datatype Sink = Sink(drained: seq<Entry>, table: seq<Entry>, dlq: seq<Entry>)

  class Consumer {
    const cfg: Config
    const batcher: Batcher<Eid>
    const interventionBatcher: Batcher<Eid>
    var eventSink: Sink
    var lifecycleSink: Sink
    var parseErrors: seq<nat>
    var lostParseErrors: seq<nat>
    var duplicates: seq<nat>
    var dropped: seq<nat>
    var resolved: seq<nat>
    var committed: nat

    ghost predicate Valid()
      reads this, batcher, interventionBatcher
    {
      && batcher != interventionBatcher && batcher.Valid() && interventionBatcher.Valid()
      && batcher.batchSize == interventionBatcher.batchSize == cfg.batchSize
      && batcher.batchTimeoutMs == interventionBatcher.batchTimeoutMs == cfg.batchTimeoutMs
    }

    ghost function LaneOf(b: Batcher<Eid>, sink: Sink, added: nat): Lane
      requires b.Valid()
      reads b
    {
      Lane(Zip(b.rows, b.offsets), added, b.lastDrainAt, sink.drained, sink.table, sink.dlq)
    }

    /** The state, given what is local to a call of the handler: its two counters and whether it threw. */
    ghost function State(added: nat, lifecycleAdded: nat, threw: bool): World
      requires Valid()
      reads this, batcher, interventionBatcher
    {
      World(LaneOf(batcher, eventSink, added), LaneOf(interventionBatcher, lifecycleSink, lifecycleAdded),
            parseErrors, lostParseErrors, duplicates, dropped, resolved, committed, threw)
    }

    constructor (cfg: Config, now: int)
      ensures Valid() && this.cfg == cfg && fresh(batcher) && fresh(interventionBatcher)
      ensures State(0, 0, false) == Fresh(now)
    {
      this.cfg := cfg;
      batcher := new Batcher<Eid>(cfg.batchSize, cfg.batchTimeoutMs, now);
      interventionBatcher := new Batcher<Eid>(cfg.batchSize, cfg.batchTimeoutMs, now);
      eventSink, lifecycleSink := Sink([], [], []), Sink([], [], []);
      parseErrors, lostParseErrors, duplicates, dropped, resolved, committed := [], [], [], [], [], 0;
    }

    method InsertWithRetry(attempts: seq<Attempt>) returns (copies: nat, threw: bool)
      ensures Insert(copies, threw) == InsertFrom(attempts, cfg.maxRetries)
    {
      copies := 0;
      var attempt := 0;
      while attempt < cfg.maxRetries
        invariant attempt <= cfg.maxRetries && attempt <= |attempts|
        invariant var rest := InsertFrom(attempts[attempt..], cfg.maxRetries - attempt);
          InsertFrom(attempts, cfg.maxRetries) == Insert(copies + rest.copies, rest.threw)
      {
        if attempt == |attempts| {
          return copies, true;
        }
        var a := attempts[attempt];
        assert attempts[attempt..][1..] == attempts[attempt + 1..];
        if a.stored {
          copies := copies + 1;
        }
        if !a.threw {
          return copies, false;
        }
        attempt := attempt + 1;
      }
      threw := true;
    }

    /** The dead-letter branch: one send per row, passing over those that fail, until a metric throws. */
    method SendToDlq(rows: seq<Eid>, offsets: seq<BatchOffset>, plan: Plan) returns (sent: seq<Entry>, threw: bool)
      requires |rows| == |offsets|
      ensures sent == DeadLetters(Zip(rows, offsets), plan)
      ensures threw <==> plan.throwsAfter.Some? && plan.throwsAfter.value <= |rows|
    {
      ghost var entries := Zip(rows, offsets);
      sent := [];
      if plan.throwsAfter == Some(0) {
        NoLettersAfterThrow(entries, plan, 0);
        return sent, true;
      }
      for i := 0 to |rows|
        invariant sent == DeadLetters(entries[..i], plan)
        invariant plan.throwsAfter.Some? ==> i < plan.throwsAfter.value
      {
        assert entries[..i + 1][..i] == entries[..i];
        if i in plan.arrives {
          sent := sent + [Entry(rows[i], offsets[i].offset)];
        }
        if plan.throwsAfter == Some(i + 1) {
          NoLettersAfterThrow(entries, plan, i + 1);
          return sent, true;
        }
      }
      assert entries[..|rows|] == entries;
      threw := false;
    }

    /** Stores drained rows and commits, or sends them to the dead-letter topic one by one and commits. */
    method Flush(rows: seq<Eid>, offsets: seq<BatchOffset>, plan: Plan, sink: Sink) returns (after: Sink, threw: bool)
      requires |rows| == |offsets|
      modifies this`committed
      ensures committed == if Commits(cfg, plan, |rows|) then |resolved| else old(committed)
      ensures threw <==> Throws(cfg, plan, |rows|)
      ensures var entries := Zip(rows, offsets);
        after == Sink(
          sink.drained + entries,
          sink.table + Copies(entries, InsertFrom(plan.attempts, cfg.maxRetries).copies),
          sink.dlq + if GoesToDlq(cfg, plan) then DeadLetters(entries, plan) else [])
    {
      var entries := Zip(rows, offsets);
      var copies, insertThrew := InsertWithRetry(plan.attempts);
      var table := sink.table;
      for c := 0 to copies
        invariant table == sink.table + Copies(entries, c)
      {
        table := table + entries;
      }
      if !insertThrew && plan.late != BeforeCommit {
        committed := |resolved|;
      }
      if !insertThrew && plan.late == Never {
        assert sink.dlq + [] == sink.dlq;
        return Sink(sink.drained + entries, table, sink.dlq), false;
      }
      var sent;
      sent, threw := SendToDlq(rows, offsets, plan);
      if !threw && plan.commitOk {
        committed := |resolved|;
      }
      after := Sink(sink.drained + entries, table, sink.dlq + sent);
    }

    /** What taking a row leaves of a lane, of the commit and of the call. */
    ghost predicate TookRow(lane: Lane, now: Lane, it: Item, wasCommitted: nat, threw: bool)
      reads this
    {
      if Full(lane, cfg) then
        && now == FlushLane(lane, cfg, it.plan, it.now)
        && committed == (if Commits(cfg, it.plan, |lane.buffered|) then |resolved| else wasCommitted)
        && (threw <==> Throws(cfg, it.plan, |lane.buffered|))
      else
        now == lane && committed == wasCommitted && !threw
    }

    method TakeEvent(e: Entry, topic: string, partition: int, it: Item, added: nat) returns (added': nat, threw: bool)
      requires Valid()
      modifies this`eventSink, this`resolved, this`committed, batcher
      ensures Valid() && resolved == old(resolved) + [e.offset]
      ensures var lane := AddToLane(old(LaneOf(batcher, eventSink, added)), e);
        TookRow(lane, LaneOf(batcher, eventSink, added'), it, old(committed), threw)
    {
      batcher.Add(e.eid, e.offset, partition, topic);
      added' := added + 1;
      resolved := resolved + [e.offset];
      threw := false;
      ghost var lane := AddToLane(old(LaneOf(batcher, eventSink, added)), e);
      assert Zip(batcher.rows, batcher.offsets) == lane.buffered;
      if batcher.IsSizeFull() {
        var rows, offsets := batcher.Drain(it.now);
        added' := 0;
        eventSink, threw := Flush(rows, offsets, it.plan, eventSink);
      }
    }

    method TakeLifecycle(e: Entry, topic: string, partition: int, it: Item, added: nat)
      returns (added': nat, threw: bool)
      requires Valid()
      modifies this`lifecycleSink, this`resolved, this`committed, interventionBatcher
      ensures Valid() && resolved == old(resolved) + [e.offset]
      ensures var lane := AddToLane(old(LaneOf(interventionBatcher, lifecycleSink, added)), e);
        TookRow(lane, LaneOf(interventionBatcher, lifecycleSink, added'), it, old(committed), threw)
    {
      interventionBatcher.Add(e.eid, e.offset, partition, topic);
      added' := added + 1;
      resolved := resolved + [e.offset];
      threw := false;
      ghost var lane := AddToLane(old(LaneOf(interventionBatcher, lifecycleSink, added)), e);
      assert Zip(interventionBatcher.rows, interventionBatcher.offsets) == lane.buffered;
      if interventionBatcher.IsSizeFull() {
        var rows, offsets := interventionBatcher.Drain(it.now);
        added' := 0;
        lifecycleSink, threw := Flush(rows, offsets, it.plan, lifecycleSink);
      }
    }

    method TakeRow(it: Item, topic: string, partition: int, added: nat, lifecycleAdded: nat)
      returns (added': nat, lifecycleAdded': nat, threw: bool)
      requires Valid() && !it.interrupt.BeforeResolve?
      requires var f := FateOf(cfg, it); f.ToEvents? || f.ToLifecycle?
      modifies this, batcher, interventionBatcher
      ensures Valid()
      ensures State(added', lifecycleAdded', threw) == Take(old(State(added, lifecycleAdded, false)), cfg, it)
    {
      added', lifecycleAdded' := added, lifecycleAdded;
      var m := it.message;
      if m.content.Lifecycle? {
        var e := Entry(m.content.eid, m.offset);
        lifecycleAdded', threw := TakeLifecycle(e, topic, partition, it, lifecycleAdded);
      } else {
        added', threw := TakeEvent(Entry(m.content.eid, m.offset), topic, partition, it, added);
      }
      threw := threw || it.interrupt.AtHeartbeat?;
    }

    method TakeMessage(it: Item, topic: string, partition: int, added: nat, lifecycleAdded: nat)
      returns (added': nat, lifecycleAdded': nat, threw: bool)
      requires Valid()
      modifies this, batcher, interventionBatcher
      ensures Valid()
      ensures State(added', lifecycleAdded', threw) == Take(old(State(added, lifecycleAdded, false)), cfg, it)
    {
      added', lifecycleAdded' := added, lifecycleAdded;
      var m := it.message;
      if m.content.Unparseable? {
        if it.arrives {
          parseErrors := parseErrors + [m.offset];
        } else {
          lostParseErrors := lostParseErrors + [m.offset];
        }
      }
      if it.interrupt.BeforeResolve? {
        return added, lifecycleAdded, true;
      }
      threw := it.interrupt.AtHeartbeat?;
      if m.content.Unparseable? {
        resolved := resolved + [m.offset];
        return;
      }
      if cfg.enableDedup && m.content.duplicate {
        duplicates := duplicates + [m.offset];
        resolved := resolved + [m.offset];
        return;
      }
      if m.content.Lifecycle? && !m.content.hasInterventionId {
        dropped := dropped + [m.offset];
        resolved := resolved + [m.offset];
        return;
      }
      added', lifecycleAdded', threw := TakeRow(it, topic, partition, added, lifecycleAdded);
    }

    method RollBack(added: nat, lifecycleAdded: nat)
      requires Valid()
      modifies batcher, interventionBatcher
      ensures Valid()
      ensures State(added, lifecycleAdded, false) == RollbackBoth(old(State(added, lifecycleAdded, false)))
    {
      ghost var w := State(added, lifecycleAdded, false);
      batcher.Rollback(added);
      interventionBatcher.Rollback(lifecycleAdded);
      assert Zip(batcher.rows, batcher.offsets) == RollbackLane(w.events).buffered;
      assert Zip(interventionBatcher.rows, interventionBatcher.offsets) == RollbackLane(w.lifecycle).buffered;
    }

    method Discard(now: int, ghost added: nat, ghost lifecycleAdded: nat)
      requires Valid()
      modifies batcher, interventionBatcher
      ensures Valid()
      ensures var w := old(State(added, lifecycleAdded, false));
        State(added, lifecycleAdded, false) ==
          w.(events := DiscardLane(w.events, now), lifecycle := DiscardLane(w.lifecycle, now))
    {
      var _, _ := batcher.Drain(now);
      var _, _ := interventionBatcher.Drain(now);
    }

    method RunLoop(items: seq<Item>, topic: string, partition: int) returns (threw: bool)
      requires Valid()
      modifies this, batcher, interventionBatcher
      ensures Valid()
      ensures exists a, b :: State(a, b, threw) == Loop(old(State(0, 0, false)), cfg, items)
    {
      var added, lifecycleAdded := 0, 0;
      threw := false;
      var i := 0;
      while i < |items| && !threw
        invariant i <= |items| && Valid()
        invariant Loop(old(State(0, 0, false)), cfg, items) ==
                  Loop(State(added, lifecycleAdded, threw), cfg, items[i..])
      {
        if items[i].signal.Stopping? {
          RollBack(added, lifecycleAdded);
          return;
        }
        if items[i].signal.Stale? {
          Discard(items[i].now, added, lifecycleAdded);
          return;
        }
        added, lifecycleAdded, threw := TakeMessage(items[i], topic, partition, added, lifecycleAdded);
        assert items[i..][1..] == items[i + 1..];
        i := i + 1;
      }
    }

    method FlushExpired(end: Ending, ghost added: nat, ghost lifecycleAdded: nat) returns (threw: bool)
      requires Valid()
      modifies this, batcher, interventionBatcher
      ensures Valid()
      ensures threw == EndFlush(old(State(added, lifecycleAdded, false)), cfg, end).threw
      ensures State(0, 0, false) == Begin(EndFlush(old(State(added, lifecycleAdded, false)), cfg, end))
    {
      threw := false;
      ghost var w := State(added, lifecycleAdded, false);
      if !batcher.IsEmpty() && batcher.IsTimeExpired(end.now) {
        var rows, offsets := batcher.Drain(end.now);
        eventSink, threw := Flush(rows, offsets, end.eventPlan, eventSink);
        w := FlushEvents(w, cfg, end.eventPlan, end.now);
        if threw {
          return;
        }
      }
      assert Begin(w) == State(0, 0, false) && !w.threw && w.lifecycle.added == lifecycleAdded;
      if !interventionBatcher.IsEmpty() && interventionBatcher.IsTimeExpired(end.now) {
        var rows, offsets := interventionBatcher.Drain(end.now);
        lifecycleSink, threw := Flush(rows, offsets, end.lifecyclePlan, lifecycleSink);
      }
    }

    /** The batch handler. Its two counters start at zero and are gone when it returns or throws. */
    method HandleBatch(items: seq<Item>, topic: string, partition: int, end: Ending) returns (threw: bool)
      requires Valid()
      modifies this, batcher, interventionBatcher
      ensures Valid()
      ensures threw == EachBatch(old(State(0, 0, false)), cfg, items, end).threw
      ensures State(0, 0, false) == Begin(EachBatch(old(State(0, 0, false)), cfg, items, end))
    {
      assert State(0, 0, false) == Begin(State(0, 0, false));
      threw := RunLoop(items, topic, partition);
      ghost var a, b :| State(a, b, threw) == Loop(old(State(0, 0, false)), cfg, items);
      if !threw {
        threw := FlushExpired(end, a, b);
      }
    }
  }

  /** Nothing arrives from the row on after which the branch was left. */
  lemma {:induction false} NoLettersAfterThrow(rows: seq<Entry>, plan: Plan, k: nat)
    requires plan.throwsAfter == Some(k) && k <= |rows|
    ensures DeadLetters(rows, plan) == DeadLetters(rows[..k], plan)
    decreases |rows|
  {
    if k < |rows| {
      NoLettersAfterThrow(rows[..|rows| - 1], plan, k);
      assert rows[..|rows| - 1][..k] == rows[..k];
    } else {
      assert rows[..k] == rows;
    }
  }

  function Fresh(now: int): World {
    World(Lane([], 0, now, [], [], []), Lane([], 0, now, [], [], []), [], [], [], [], [], 0, false)
  }

  // ----- What a flush does with its rows -----

  lemma {:induction false} CopiesHold(rows: seq<Entry>, n: nat)
    ensures |Copies(rows, n)| == n * |rows|
    ensures forall e :: e in Copies(rows, n) <==> n > 0 && e in rows
  {
    if n > 0 {
      CopiesHold(rows, n - 1);
    }
  }

  /** Attempt `j` is made: every one before it threw, and retries are left. */
  ghost predicate Made(attempts: seq<Attempt>, retries: nat, j: nat) {
    j < |attempts| && j < retries && forall i | 0 <= i < j :: attempts[i].threw
  }

  ghost predicate NothingStored(attempts: seq<Attempt>, retries: nat) {
    forall j | 0 <= j < |attempts| && Made(attempts, retries, j) :: !attempts[j].stored
  }

  ghost predicate AllThrew(attempts: seq<Attempt>, retries: nat) {
    forall j | 0 <= j < |attempts| && Made(attempts, retries, j) :: attempts[j].threw
  }

  lemma MadeLater(attempts: seq<Attempt>, retries: nat, j: nat)
    requires attempts != [] && retries > 0 && attempts[0].threw
    ensures Made(attempts, retries, j + 1) <==> Made(attempts[1..], retries - 1, j)
  {
    var rest := attempts[1..];
    if Made(rest, retries - 1, j) {
      forall i | 0 <= i < j + 1 ensures attempts[i].threw {
        assert i > 0 ==> rest[i - 1] == attempts[i];
      }
    }
    if Made(attempts, retries, j + 1) {
      assert forall i | 0 <= i < j :: rest[i] == attempts[i + 1];
    }
  }

  /** In closed form, what the retries come to. */
  lemma {:induction false} InsertOutcome(attempts: seq<Attempt>, retries: nat)
    ensures InsertFrom(attempts, retries).copies == 0 <==> NothingStored(attempts, retries)
    ensures InsertFrom(attempts, retries).threw <==> AllThrew(attempts, retries)
  {
    if attempts != [] && retries > 0 {
      var rest := attempts[1..];
      assert Made(attempts, retries, 0);
      if attempts[0].threw {
        InsertOutcome(rest, retries - 1);
        forall j | 0 <= j < |rest| && Made(rest, retries - 1, j)
          ensures NothingStored(attempts, retries) ==> !rest[j].stored
          ensures AllThrew(attempts, retries) ==> rest[j].threw
        {
          MadeLater(attempts, retries, j);
          assert rest[j] == attempts[j + 1] && Made(attempts, retries, j + 1);
        }
        forall j | 0 <= j < |attempts| && Made(attempts, retries, j)
          ensures NothingStored(rest, retries - 1) && !attempts[0].stored ==> !attempts[j].stored
          ensures AllThrew(rest, retries - 1) ==> attempts[j].threw
        {
          if j > 0 {
            MadeLater(attempts, retries, j - 1);
            assert Made(rest, retries - 1, j - 1) && rest[j - 1] == attempts[j];
          }
        }
      } else {
        assert forall j | 0 <= j < |attempts| && Made(attempts, retries, j) :: j > 0 ==> attempts[0].threw;
      }
    }
  }

  /** Attempt `k` is the first to return, and nothing was stored up to and including it. */
  ghost predicate SilentAt(attempts: seq<Attempt>, retries: nat, k: nat) {
    Made(attempts, retries, k) && !attempts[k].threw && forall j | 0 <= j <= k :: !attempts[j].stored
  }

  /** The insert reports success with nothing stored exactly when its first attempt to return does, storing nothing. */
  lemma SilentFailureMeans(attempts: seq<Attempt>, retries: nat)
    ensures InsertFrom(attempts, retries) == Insert(0, false) <==> exists k :: SilentAt(attempts, retries, k)
  {
    InsertOutcome(attempts, retries);
    if NothingStored(attempts, retries) && !AllThrew(attempts, retries) {
      var k: nat :| k < |attempts| && Made(attempts, retries, k) && !attempts[k].threw;
      assert forall j | 0 <= j <= k :: Made(attempts, retries, j);
      assert SilentAt(attempts, retries, k);
    }
    if k: nat :| SilentAt(attempts, retries, k) {
      assert forall j | 0 <= j < |attempts| && Made(attempts, retries, j) :: j <= k;
    }
  }

  lemma {:induction false} LettersHold(rows: seq<Entry>, plan: Plan, e: Entry)
    ensures e in DeadLetters(rows, plan) <==> exists i | 0 <= i < |rows| :: rows[i] == e && Arrives(plan, i)
  {
    if rows != [] {
      var n := |rows| - 1;
      var p := rows[..n];
      LettersHold(p, plan, e);
      if i :| 0 <= i < |p| && p[i] == e && Arrives(plan, i) {
        assert rows[i] == e && Arrives(plan, i);
      }
      if i :| 0 <= i < |rows| && rows[i] == e && Arrives(plan, i) {
        assert i < n ==> p[i] == e && Arrives(plan, i);
      }
    }
  }

  /** Neither the insert nor anything after it threw. */
  ghost predicate NothingThrew(cfg: Config, plan: Plan) {
    !AllThrew(plan.attempts, cfg.maxRetries) && plan.late == Never
  }

  /**
   * The batch client swallows failed inserts and the dead-letter sender swallows failed sends, so a
   * flush can lose rows. A drained row reaches neither the table nor the dead-letter topic exactly
   * when no attempt stored the batch and either nothing threw, so that no dead letter was due, or the
   * row's own dead letter failed or was never reached.
   */
  lemma FlushLosesRowsExactlyWhen(lane: Lane, cfg: Config, plan: Plan, now: int, e: Entry)
    requires e in lane.buffered
    ensures var after := FlushLane(lane, cfg, plan, now);
      && after.drained == lane.drained + lane.buffered && after.buffered == []
      && lane.table <= after.table && lane.dlq <= after.dlq
      && (e !in after.table[|lane.table|..] && e !in after.dlq[|lane.dlq|..] <==>
            && NothingStored(plan.attempts, cfg.maxRetries)
            && (NothingThrew(cfg, plan) ||
                !exists i | 0 <= i < |lane.buffered| :: lane.buffered[i] == e && Arrives(plan, i)))
  {
    var insert := InsertFrom(plan.attempts, cfg.maxRetries);
    InsertOutcome(plan.attempts, cfg.maxRetries);
    CopiesHold(lane.buffered, insert.copies);
    LettersHold(lane.buffered, plan, e);
    var after := FlushLane(lane, cfg, plan, now);
    assert after.table[|lane.table|..] == Copies(lane.buffered, insert.copies);
    assert after.dlq[|lane.dlq|..] == if GoesToDlq(cfg, plan) then DeadLetters(lane.buffered, plan) else [];
  }

  // ----- Where the messages of a call go -----

  predicate AllGo(items: seq<Item>) {
    forall i | 0 <= i < |items| :: items[i].signal.Go?
  }

  function OffsetsOf(items: seq<Item>): seq<nat> {
    if items == [] then [] else OffsetsOf(items[..|items| - 1]) + [items[|items| - 1].message.offset]
  }

  /** The offsets of the messages with a given fate. */
  function OffsetsWith(cfg: Config, items: seq<Item>, fate: Fate): seq<nat> {
    if items == [] then []
    else
      var it := items[|items| - 1];
      OffsetsWith(cfg, items[..|items| - 1], fate) + if FateOf(cfg, it) == fate then [it.message.offset] else []
  }

  /** The two flows of rows. */
  datatype Flow = Events | Lifecycles

  function LaneOf(w: World, flow: Flow): Lane {
    if flow.Events? then w.events else w.lifecycle
  }

  /** The row a message gives to a flow, if any. */
  function RowOf(cfg: Config, it: Item, flow: Flow): seq<Entry> {
    var f := FateOf(cfg, it);
    if (if flow.Events? then f.ToEvents? else f.ToLifecycle?) then [f.e] else []
  }

  function RowsOf(cfg: Config, items: seq<Item>, flow: Flow): seq<Entry> {
    if items == [] then [] else RowsOf(cfg, items[..|items| - 1], flow) + RowOf(cfg, items[|items| - 1], flow)
  }

  lemma {:induction false} LoopSplits(w: World, cfg: Config, items: seq<Item>, rest: seq<Item>)
    requires AllGo(items)
    ensures Loop(w, cfg, items + rest) == Loop(Loop(w, cfg, items), cfg, rest)
    decreases |items|
  {
    if items == [] {
      assert items + rest == rest;
    } else if !w.threw {
      assert (items + rest)[1..] == items[1..] + rest;
      LoopSplits(Take(w, cfg, items[0]), cfg, items[1..], rest);
    }
  }

  /** `w` after taking the messages of `items` one by one. */
  lemma LoopByLast(w: World, cfg: Config, items: seq<Item>)
    requires AllGo(items) && items != []
    ensures AllGo(items[..|items| - 1])
    ensures var before := Loop(w, cfg, items[..|items| - 1]);
      Loop(w, cfg, items) == if before.threw then before else Take(before, cfg, items[|items| - 1])
  {
    var p, it := items[..|items| - 1], items[|items| - 1];
    assert items == p + [it];
    LoopSplits(w, cfg, p, [it]);
    assert [it][1..] == [];
    assert it.signal.Go?;
  }

  /** A call that throws has taken every message before some message `k`, and threw in the turn of `k`. */
  lemma {:induction false} ThrowStopsTheLoop(w: World, cfg: Config, items: seq<Item>) returns (k: nat)
    requires AllGo(items) && !w.threw && Loop(w, cfg, items).threw
    ensures k < |items| && AllGo(items[..k]) && !Loop(w, cfg, items[..k]).threw
    ensures Loop(w, cfg, items) == Take(Loop(w, cfg, items[..k]), cfg, items[k])
  {
    var n := |items| - 1;
    LoopByLast(w, cfg, items);
    if Loop(w, cfg, items[..n]).threw {
      k := ThrowStopsTheLoop(w, cfg, items[..n]);
      assert items[..n][..k] == items[..k];
    } else {
      k := n;
    }
  }

  /** Everything a lane has ever been given that was not rolled back or discarded, in order. */
  function Given(lane: Lane): seq<Entry> {
    lane.drained + lane.buffered
  }

  /** Rows given to each flow, and the offsets resolved and of each outcome without a row. */
  datatype Tally = Tally(
    events: seq<Entry>, lifecycle: seq<Entry>, resolved: seq<nat>,
    parseErrors: seq<nat>, lostParseErrors: seq<nat>, duplicates: seq<nat>, dropped: seq<nat>)

  function TallyOf(w: World): Tally {
    Tally(Given(w.events), Given(w.lifecycle), w.resolved, w.parseErrors, w.lostParseErrors, w.duplicates, w.dropped)
  }

  /** What the fates of the messages say. */
  function Fated(cfg: Config, items: seq<Item>): Tally {
    Tally(RowsOf(cfg, items, Events), RowsOf(cfg, items, Lifecycles), OffsetsOf(items),
          OffsetsWith(cfg, items, ParseError(true)), OffsetsWith(cfg, items, ParseError(false)),
          OffsetsWith(cfg, items, Duplicate), OffsetsWith(cfg, items, Dropped))
  }

  function Plus(a: Tally, b: Tally): Tally {
    Tally(a.events + b.events, a.lifecycle + b.lifecycle, a.resolved + b.resolved,
          a.parseErrors + b.parseErrors, a.lostParseErrors + b.lostParseErrors,
          a.duplicates + b.duplicates, a.dropped + b.dropped)
  }

  /** From `w` to `w'`, each message of `items` went to the one place its fate names, in order, and nothing else did. */
  ghost predicate Accounts(w: World, cfg: Config, items: seq<Item>, w': World) {
    TallyOf(w') == Plus(TallyOf(w), Fated(cfg, items))
  }

  lemma PlusAssociates(a: Tally, b: Tally, c: Tally)
    ensures Plus(Plus(a, b), c) == Plus(a, Plus(b, c))
  {
  }

  lemma {:induction false} RowsConcat(cfg: Config, a: seq<Item>, b: seq<Item>, flow: Flow)
    ensures RowsOf(cfg, a + b, flow) == RowsOf(cfg, a, flow) + RowsOf(cfg, b, flow)
    decreases |b|
  {
    if b == [] {
      assert a + b == a;
    } else {
      var p := b[..|b| - 1];
      assert (a + b)[..|a + b| - 1] == a + p;
      RowsConcat(cfg, a, p, flow);
    }
  }

  lemma {:induction false} OffsetsConcat(cfg: Config, a: seq<Item>, b: seq<Item>, fate: Fate)
    ensures OffsetsWith(cfg, a + b, fate) == OffsetsWith(cfg, a, fate) + OffsetsWith(cfg, b, fate)
    decreases |b|
  {
    if b == [] {
      assert a + b == a;
    } else {
      var p := b[..|b| - 1];
      assert (a + b)[..|a + b| - 1] == a + p;
      OffsetsConcat(cfg, a, p, fate);
    }
  }

  lemma {:induction false} AllOffsetsConcat(a: seq<Item>, b: seq<Item>)
    ensures OffsetsOf(a + b) == OffsetsOf(a) + OffsetsOf(b)
    decreases |b|
  {
    if b == [] {
      assert a + b == a;
    } else {
      var p := b[..|b| - 1];
      assert (a + b)[..|a + b| - 1] == a + p;
      AllOffsetsConcat(a, p);
    }
  }

  lemma FatedConcat(cfg: Config, a: seq<Item>, b: seq<Item>)
    ensures Fated(cfg, a + b) == Plus(Fated(cfg, a), Fated(cfg, b))
  {
    RowsConcat(cfg, a, b, Events);
    RowsConcat(cfg, a, b, Lifecycles);
    AllOffsetsConcat(a, b);
    OffsetsConcat(cfg, a, b, ParseError(true));
    OffsetsConcat(cfg, a, b, ParseError(false));
    OffsetsConcat(cfg, a, b, Duplicate);
    OffsetsConcat(cfg, a, b, Dropped);
  }

  lemma AccountsCompose(w: World, cfg: Config, a: seq<Item>, w1: World, b: seq<Item>, w2: World)
    requires Accounts(w, cfg, a, w1) && Accounts(w1, cfg, b, w2)
    ensures Accounts(w, cfg, a + b, w2)
  {
    FatedConcat(cfg, a, b);
    PlusAssociates(TallyOf(w), Fated(cfg, a), Fated(cfg, b));
  }

  /** No message of the loop was cut short; the last one may have thrown once its offset was resolved. */
  ghost predicate Landed(w: World, cfg: Config, items: seq<Item>) {
    && AllGo(items)
    && (items != [] ==>
          !Loop(w, cfg, items[..|items| - 1]).threw && !items[|items| - 1].interrupt.BeforeResolve?)
  }

  /**
   * Conservation: each message taken lands in exactly one place, the one its fate names, in order;
   * rows pass from the buffer to a flush without loss, duplication or reordering, also when the flush throws.
   */
  lemma {:induction false} MessagesLandByFate(w: World, cfg: Config, items: seq<Item>)
    requires Landed(w, cfg, items)
    ensures Accounts(w, cfg, items, Loop(w, cfg, items))
  {
    if items != [] {
      var p, it := items[..|items| - 1], items[|items| - 1];
      LandedByLast(w, cfg, items);
      MessagesLandByFate(w, cfg, p);
      LandsNext(w, cfg, p, Loop(w, cfg, p), it);
      assert p + [it] == items;
    }
  }

  lemma LandedByLast(w: World, cfg: Config, items: seq<Item>)
    requires Landed(w, cfg, items) && items != []
    ensures var p, it := items[..|items| - 1], items[|items| - 1];
      && Landed(w, cfg, p) && !it.interrupt.BeforeResolve?
      && Loop(w, cfg, items) == Take(Loop(w, cfg, p), cfg, it)
  {
    var p := items[..|items| - 1];
    LoopByLast(w, cfg, items);
    if p != [] {
      LoopByLast(w, cfg, p);
    }
  }

  lemma LandsNext(w: World, cfg: Config, p: seq<Item>, before: World, it: Item)
    requires Accounts(w, cfg, p, before) && !it.interrupt.BeforeResolve?
    ensures Accounts(w, cfg, p + [it], Take(before, cfg, it))
  {
    TakeAccounts(before, cfg, it);
    AccountsCompose(w, cfg, p, before, [it], Take(before, cfg, it));
  }

  lemma TakeLands(w: World, cfg: Config, it: Item)
    requires !it.interrupt.BeforeResolve?
    ensures var w', f := Take(w, cfg, it), FateOf(cfg, it);
      && Given(w'.events) == Given(w.events) + (if f.ToEvents? then [f.e] else [])
      && Given(w'.lifecycle) == Given(w.lifecycle) + (if f.ToLifecycle? then [f.e] else [])
      && w'.resolved == w.resolved + [it.message.offset]
  {
  }

  /** A list of offsets grows by the message exactly when its fate names the list. */
  predicate Grows(before: seq<nat>, after: seq<nat>, it: Item, grows: bool) {
    after == before + if grows then [it.message.offset] else []
  }

  lemma TakeCounts(w: World, cfg: Config, it: Item)
    requires !it.interrupt.BeforeResolve?
    ensures var w', f := Take(w, cfg, it), FateOf(cfg, it);
      && Grows(w.parseErrors, w'.parseErrors, it, f == ParseError(true))
      && Grows(w.lostParseErrors, w'.lostParseErrors, it, f == ParseError(false))
      && Grows(w.duplicates, w'.duplicates, it, f == Duplicate)
      && Grows(w.dropped, w'.dropped, it, f == Dropped)
  {
  }

  lemma RowsOfOne(cfg: Config, it: Item, flow: Flow)
    ensures RowsOf(cfg, [it], flow) == RowOf(cfg, it, flow)
  {
    assert [it][..|[it]| - 1] == [];
  }

  lemma OffsetsOfOne(cfg: Config, it: Item, fate: Fate)
    ensures OffsetsWith(cfg, [it], fate) == if FateOf(cfg, it) == fate then [it.message.offset] else []
  {
    assert [it][..|[it]| - 1] == [];
  }

  lemma FateOfOne(cfg: Config, it: Item)
    ensures var f, one := FateOf(cfg, it), [it.message.offset];
      Fated(cfg, [it]) == Tally(
        RowOf(cfg, it, Events), RowOf(cfg, it, Lifecycles), one,
        if f == ParseError(true) then one else [], if f == ParseError(false) then one else [],
        if f == Duplicate then one else [], if f == Dropped then one else [])
  {
    RowsOfOne(cfg, it, Events);
    RowsOfOne(cfg, it, Lifecycles);
    OffsetsOfOne(cfg, it, ParseError(true));
    OffsetsOfOne(cfg, it, ParseError(false));
    OffsetsOfOne(cfg, it, Duplicate);
    OffsetsOfOne(cfg, it, Dropped);
    assert [it][..|[it]| - 1] == [];
    assert OffsetsOf([it]) == [it.message.offset];
  }

  lemma TakeAccounts(w: World, cfg: Config, it: Item)
    requires !it.interrupt.BeforeResolve?
    ensures Accounts(w, cfg, [it], Take(w, cfg, it))
  {
    TakeLands(w, cfg, it);
    TakeCounts(w, cfg, it);
    FateOfOne(cfg, it);
  }

  // ----- Conservation over calls -----

  /** The messages the loop takes to their places: those before it halts, but for one cut short before its resolve. */
  function Took(w: World, cfg: Config, items: seq<Item>): seq<Item>
    decreases |items|
  {
    if items == [] || w.threw || !items[0].signal.Go? then []
    else
      var rest := Took(Take(w, cfg, items[0]), cfg, items[1..]);
      if items[0].interrupt.BeforeResolve? then rest else [items[0]] + rest
  }

  /** The state in which the loop halts, before it rolls back or discards, and the signal that halts it, if any. */
  datatype Halt = Halt(w: World, signal: Signal)

  function HaltOf(w: World, cfg: Config, items: seq<Item>): Halt
    decreases |items|
  {
    if items == [] || w.threw then Halt(w, Go)
    else if items[0].signal.Go? then HaltOf(Take(w, cfg, items[0]), cfg, items[1..])
    else Halt(w, items[0].signal)
  }

  function OwnTail(lane: Lane): seq<Entry> {
    lane.buffered[|lane.buffered| - Min(lane.added, |lane.buffered|)..]
  }

  function RolledBackBy(h: Halt, flow: Flow): seq<Entry> {
    if h.signal.Stopping? then OwnTail(LaneOf(h.w, flow)) else []
  }

  function DiscardedBy(h: Halt, flow: Flow): seq<Entry> {
    if h.signal.Stale? then LaneOf(h.w, flow).buffered else []
  }

  /** A tally without the parse errors, which a message cut short before its resolve may have reported already. */
  function Settled(t: Tally): Tally {
    t.(parseErrors := [], lostParseErrors := [])
  }

  ghost predicate Settles(w: World, cfg: Config, items: seq<Item>, w': World) {
    Settled(TallyOf(w')) == Plus(Settled(TallyOf(w)), Settled(Fated(cfg, items)))
  }

  lemma NothingSettles(w: World, cfg: Config)
    ensures Settles(w, cfg, [], w)
  {
  }

  lemma SettledPlus(a: Tally, b: Tally)
    ensures Settled(Plus(a, b)) == Plus(Settled(a), Settled(b))
  {
  }

  lemma SettlesFirst(w: World, cfg: Config, a: seq<Item>, w1: World, b: seq<Item>, w2: World)
    requires Accounts(w, cfg, a, w1) && Settles(w1, cfg, b, w2)
    ensures Settles(w, cfg, a + b, w2)
  {
    FatedConcat(cfg, a, b);
    SettledPlus(TallyOf(w), Fated(cfg, a));
    SettledPlus(Fated(cfg, a), Fated(cfg, b));
    PlusAssociates(Settled(TallyOf(w)), Settled(Fated(cfg, a)), Settled(Fated(cfg, b)));
  }

  /** A message cut short before its resolve changes nothing but the parse errors. */
  lemma CutShortSettles(w: World, cfg: Config, it: Item)
    requires it.interrupt.BeforeResolve?
    ensures Take(w, cfg, it).threw && Settled(TallyOf(Take(w, cfg, it))) == Settled(TallyOf(w))
  {
  }

  /** Up to where the loop halts, what it took went to its places. */
  lemma {:induction false} HaltSettles(w: World, cfg: Config, items: seq<Item>)
    ensures Settles(w, cfg, Took(w, cfg, items), HaltOf(w, cfg, items).w)
    decreases |items|
  {
    if items != [] && !w.threw && items[0].signal.Go? {
      var it, w1 := items[0], Take(w, cfg, items[0]);
      HaltSettles(w1, cfg, items[1..]);
      if it.interrupt.BeforeResolve? {
        CutShortSettles(w, cfg, it);
      } else {
        TakeAccounts(w, cfg, it);
        SettlesFirst(w, cfg, [it], w1, Took(w1, cfg, items[1..]), HaltOf(w1, cfg, items[1..]).w);
      }
    } else {
      NothingSettles(w, cfg);
    }
  }

  /** What halting leaves is what was there, less what is rolled back or discarded. */
  ghost predicate Leaves(h: Halt, flow: Flow, lane: Lane) {
    && lane.drained == LaneOf(h.w, flow).drained
    && lane.buffered + RolledBackBy(h, flow) + DiscardedBy(h, flow) == LaneOf(h.w, flow).buffered
  }

  lemma {:induction false} LoopIsHalt(w: World, cfg: Config, items: seq<Item>, flow: Flow)
    ensures Leaves(HaltOf(w, cfg, items), flow, LaneOf(Loop(w, cfg, items), flow))
    decreases |items|
  {
    if items != [] && !w.threw {
      if items[0].signal.Go? {
        LoopIsHalt(Take(w, cfg, items[0]), cfg, items[1..], flow);
      } else {
        HaltedLane(LaneOf(w, flow), items[0].now);
      }
    }
  }

  lemma HaltedLane(lane: Lane, now: int)
    ensures RollbackLane(lane).buffered + OwnTail(lane) + [] == lane.buffered
    ensures DiscardLane(lane, now).buffered + [] + lane.buffered == lane.buffered
  {
  }

  /** Where every row ever taken is. */
  datatype Ledger = Ledger(took: seq<Item>, rolledBack: seq<Entry>, discarded: seq<Entry>)

  function CallsLedger(cfg: Config, now: int, cs: seq<Call>, flow: Flow): Ledger {
    if cs == [] then Ledger([], [], [])
    else
      var p, items := CallsLedger(cfg, now, cs[..|cs| - 1], flow), cs[|cs| - 1].items;
      var w := Begin(Calls(Fresh(now), cfg, cs[..|cs| - 1]));
      var h := HaltOf(w, cfg, items);
      Ledger(p.took + Took(w, cfg, items), p.rolledBack + RolledBackBy(h, flow), p.discarded + DiscardedBy(h, flow))
  }

  function Rows(lane: Lane): multiset<Entry> {
    multiset(lane.drained) + multiset(lane.buffered)
  }

  /** Each row taken is drained, buffered, rolled back or discarded, and is exactly one of these. */
  ghost predicate Conserved(cfg: Config, lane: Lane, l: Ledger, flow: Flow) {
    multiset(RowsOf(cfg, l.took, flow)) == Rows(lane) + multiset(l.rolledBack) + multiset(l.discarded)
  }

  lemma EndFlushKeepsRows(w: World, cfg: Config, end: Ending, flow: Flow)
    ensures Given(LaneOf(EndFlush(w, cfg, end), flow)) == Given(LaneOf(w, flow))
  {
  }

  lemma SumOfParts(a: seq<Entry>, b: seq<Entry>)
    ensures multiset(a + b) == multiset(a) + multiset(b)
  {
  }

  lemma SumOfTail(a: seq<Entry>, b: seq<Entry>, c: seq<Entry>, whole: seq<Entry>)
    requires a + b + c == whole
    ensures multiset(whole) == multiset(a) + multiset(b) + multiset(c)
  {
    SumOfParts(a + b, c);
    SumOfParts(a, b);
  }

  lemma SameRows(a: Lane, b: Lane)
    requires Given(a) == Given(b)
    ensures Rows(a) == Rows(b)
  {
    SumOfParts(a.drained, a.buffered);
    SumOfParts(b.drained, b.buffered);
  }

  lemma MoreRows(before: Lane, rows: seq<Entry>, after: Lane)
    requires Given(after) == Given(before) + rows
    ensures Rows(after) == Rows(before) + multiset(rows)
  {
    SumOfParts(Given(before), rows);
    SumOfParts(before.drained, before.buffered);
    SumOfParts(after.drained, after.buffered);
  }

  lemma Balance(taken: multiset<Entry>, before: Lane, l: Ledger, more: multiset<Entry>, halted: Lane, left: Lane,
                after: Lane, rolled: multiset<Entry>, discarded: multiset<Entry>)
    requires taken == Rows(before) + multiset(l.rolledBack) + multiset(l.discarded)
    requires Rows(halted) == Rows(before) + more
    requires halted.drained == left.drained
    requires multiset(halted.buffered) == multiset(left.buffered) + rolled + discarded
    requires Rows(after) == Rows(left)
    ensures taken + more == Rows(after) + (multiset(l.rolledBack) + rolled) + (multiset(l.discarded) + discarded)
  {
    forall e: Entry
      ensures (taken + more)[e] ==
              (Rows(after) + (multiset(l.rolledBack) + rolled) + (multiset(l.discarded) + discarded))[e]
    {
      assert Rows(halted)[e] == Rows(left)[e] + rolled[e] + discarded[e];
    }
  }

  lemma ConservedStep(
    cfg: Config, l: Ledger, flow: Flow, before: Lane, took: seq<Item>, h: Halt, left: Lane, after: Lane)
    requires Conserved(cfg, before, l, flow) && Leaves(h, flow, left) && Given(after) == Given(left)
    requires Given(LaneOf(h.w, flow)) == Given(before) + RowsOf(cfg, took, flow)
    ensures Conserved(cfg, after,
      Ledger(l.took + took, l.rolledBack + RolledBackBy(h, flow), l.discarded + DiscardedBy(h, flow)), flow)
  {
    var rolled, discarded := RolledBackBy(h, flow), DiscardedBy(h, flow);
    RowsConcat(cfg, l.took, took, flow);
    SumOfParts(RowsOf(cfg, l.took, flow), RowsOf(cfg, took, flow));
    MoreRows(before, RowsOf(cfg, took, flow), LaneOf(h.w, flow));
    SumOfTail(left.buffered, rolled, discarded, LaneOf(h.w, flow).buffered);
    SameRows(after, left);
    SumOfParts(l.rolledBack, rolled);
    SumOfParts(l.discarded, discarded);
    Balance(multiset(RowsOf(cfg, l.took, flow)), before, l, multiset(RowsOf(cfg, took, flow)), LaneOf(h.w, flow),
            left, after, multiset(rolled), multiset(discarded));
  }

  /**
   * Conservation over any calls, stopped, stale and thrown ones among them: in each flow, the rows of
   * the messages taken so far are those drained, buffered, rolled back and discarded, each of them once.
   */
  lemma {:induction false} RowsAreConserved(cfg: Config, now: int, cs: seq<Call>, flow: Flow)
    ensures Conserved(cfg, LaneOf(Calls(Fresh(now), cfg, cs), flow), CallsLedger(cfg, now, cs, flow), flow)
  {
    if cs != [] {
      var p, c := cs[..|cs| - 1], cs[|cs| - 1];
      RowsAreConserved(cfg, now, p, flow);
      ConservedCall(cfg, Calls(Fresh(now), cfg, p), CallsLedger(cfg, now, p, flow), c, flow);
    }
  }

  lemma ConservedCall(cfg: Config, w: World, l: Ledger, c: Call, flow: Flow)
    requires Conserved(cfg, LaneOf(w, flow), l, flow)
    ensures var h := HaltOf(Begin(w), cfg, c.items);
      Conserved(cfg, LaneOf(EachBatch(w, cfg, c.items, c.end), flow),
        Ledger(l.took + Took(Begin(w), cfg, c.items),
               l.rolledBack + RolledBackBy(h, flow), l.discarded + DiscardedBy(h, flow)), flow)
  {
    var h, w1 := HaltOf(Begin(w), cfg, c.items), Loop(Begin(w), cfg, c.items);
    HaltSettles(Begin(w), cfg, c.items);
    LoopIsHalt(Begin(w), cfg, c.items, flow);
    EndFlushKeepsRows(w1, cfg, c.end, flow);
    ConservedStep(cfg, l, flow, LaneOf(w, flow), Took(Begin(w), cfg, c.items), h, LaneOf(w1, flow),
                  LaneOf(EachBatch(w, cfg, c.items, c.end), flow));
  }

  function CountsOf(t: Tally): (seq<nat>, seq<nat>, seq<nat>) {
    (t.resolved, t.duplicates, t.dropped)
  }

  lemma EndFlushKeepsCounts(w: World, cfg: Config, end: Ending)
    ensures CountsOf(TallyOf(EndFlush(w, cfg, end))) == CountsOf(TallyOf(w))
  {
  }

  lemma {:induction false} LoopCountsAsHalt(w: World, cfg: Config, items: seq<Item>)
    ensures CountsOf(TallyOf(Loop(w, cfg, items))) == CountsOf(TallyOf(HaltOf(w, cfg, items).w))
    decreases |items|
  {
    if items != [] && !w.threw && items[0].signal.Go? {
      LoopCountsAsHalt(Take(w, cfg, items[0]), cfg, items[1..]);
    }
  }

  lemma CountsAdd(a: Tally, b: Tally, c: Tally, d: Tally)
    requires CountsOf(a) == CountsOf(b) && Settled(c) == Plus(Settled(a), Settled(d))
    ensures CountsOf(c) == CountsOf(Plus(b, d))
  {
  }

  /** Over any calls, the messages taken are the resolved ones, and the duplicates and drops are those of that fate. */
  lemma {:induction false} MessagesAreConserved(cfg: Config, now: int, cs: seq<Call>, flow: Flow)
    ensures CountsOf(TallyOf(Calls(Fresh(now), cfg, cs))) ==
            CountsOf(Fated(cfg, CallsLedger(cfg, now, cs, flow).took))
  {
    if cs != [] {
      var p, c := cs[..|cs| - 1], cs[|cs| - 1];
      var w := Begin(Calls(Fresh(now), cfg, p));
      var before, took := CallsLedger(cfg, now, p, flow).took, Took(w, cfg, c.items);
      MessagesAreConserved(cfg, now, p, flow);
      HaltSettles(w, cfg, c.items);
      CountsAdd(TallyOf(w), Fated(cfg, before), TallyOf(HaltOf(w, cfg, c.items).w), Fated(cfg, took));
      LoopCountsAsHalt(w, cfg, c.items);
      EndFlushKeepsCounts(Loop(w, cfg, c.items), cfg, c.end);
      FatedConcat(cfg, before, took);
    }
  }

  // ----- Buffers across calls -----

  ghost predicate Bounded(w: World, cfg: Config) {
    |w.events.buffered| < cfg.batchSize && |w.lifecycle.buffered| < cfg.batchSize
  }

  lemma {:induction false} LoopKeepsBounds(w: World, cfg: Config, items: seq<Item>)
    requires 0 < cfg.batchSize && Bounded(w, cfg)
    ensures Bounded(Loop(w, cfg, items), cfg)
    decreases |items|
  {
    if items != [] && !w.threw && items[0].signal.Go? {
      LoopKeepsBounds(Take(w, cfg, items[0]), cfg, items[1..]);
    }
  }

  /** One call of the handler and what it was told. */
  datatype Call = Call(items: seq<Item>, end: Ending)

  function Calls(w: World, cfg: Config, cs: seq<Call>): World {
    if cs == [] then w
    else EachBatch(Calls(w, cfg, cs[..|cs| - 1]), cfg, cs[|cs| - 1].items, cs[|cs| - 1].end)
  }

  /** Over any calls, thrown ones among them, at every loop head both buffers hold fewer rows than a batch. */
  lemma {:induction false} BuffersStayBelowBatchSize(cfg: Config, now: int, cs: seq<Call>, items: seq<Item>)
    requires 0 < cfg.batchSize
    ensures Bounded(Calls(Fresh(now), cfg, cs), cfg)
    ensures Bounded(Loop(Begin(Calls(Fresh(now), cfg, cs)), cfg, items), cfg)
  {
    if cs != [] {
      var c, p := cs[|cs| - 1], cs[..|cs| - 1];
      BuffersStayBelowBatchSize(cfg, now, p, c.items);
    }
    LoopKeepsBounds(Begin(Calls(Fresh(now), cfg, cs)), cfg, items);
  }

  lemma {:induction false} LoopCommitsWhatIsResolved(w: World, cfg: Config, items: seq<Item>)
    requires w.committed <= |w.resolved|
    ensures Loop(w, cfg, items).committed <= |Loop(w, cfg, items).resolved|
    decreases |items|
  {
    if items != [] && !w.threw && items[0].signal.Go? {
      LoopCommitsWhatIsResolved(Take(w, cfg, items[0]), cfg, items[1..]);
    }
  }

  /** Over any calls, a commit covers no more than what has been resolved. */
  lemma {:induction false} CommitsWhatIsResolved(cfg: Config, now: int, cs: seq<Call>)
    ensures var w := Calls(Fresh(now), cfg, cs); w.committed <= |w.resolved|
  {
    if cs != [] {
      var c, p := cs[|cs| - 1], cs[..|cs| - 1];
      CommitsWhatIsResolved(cfg, now, p);
      LoopCommitsWhatIsResolved(Begin(Calls(Fresh(now), cfg, p)), cfg, c.items);
    }
  }

  /** The rows of the call are the tail of the buffer; before them is what earlier calls left. */
  ghost predicate OwnRows(lane: Lane, before: Lane) {
    && before.drained <= lane.drained
    && lane.added <= |lane.buffered|
    && lane.buffered[..|lane.buffered| - lane.added] ==
         if lane.drained == before.drained then before.buffered else []
  }

  lemma {:induction false} LoopTracksOwnRows(w: World, cfg: Config, items: seq<Item>)
    requires AllGo(items)
    ensures var w' := Loop(Begin(w), cfg, items);
      OwnRows(w'.events, w.events) && OwnRows(w'.lifecycle, w.lifecycle)
  {
    if items != [] {
      var it, w1 := items[|items| - 1], Loop(Begin(w), cfg, items[..|items| - 1]);
      LoopByLast(Begin(w), cfg, items);
      LoopTracksOwnRows(w, cfg, items[..|items| - 1]);
      var f := FateOf(cfg, it);
      if f.ToEvents? {
        OwnRowsStep(w1.events, w.events, f.e, cfg, it);
      } else if f.ToLifecycle? {
        OwnRowsStep(w1.lifecycle, w.lifecycle, f.e, cfg, it);
      }
    }
  }

  lemma OwnRowsStep(lane: Lane, before: Lane, e: Entry, cfg: Config, it: Item)
    requires OwnRows(lane, before)
    ensures OwnRows(AddToLane(lane, e), before)
    ensures OwnRows(FlushLane(AddToLane(lane, e), cfg, it.plan, it.now), before)
  {
    var l := AddToLane(lane, e);
    assert l.buffered[..|l.buffered| - l.added] == lane.buffered[..|lane.buffered| - lane.added];
    var f := FlushLane(l, cfg, it.plan, it.now);
    assert |f.drained| > |before.drained|;
  }

  /**
   * A call interrupted by shutdown takes back exactly its own rows: a buffer that was not flushed
   * during the call is as the call found it, one that was is empty, and nothing else is undone.
   */
  lemma RollbackRemovesExactlyOwnRows(w: World, cfg: Config, items: seq<Item>, stop: Item, rest: seq<Item>)
    requires AllGo(items) && stop.signal.Stopping? && !Loop(Begin(w), cfg, items).threw
    ensures var w1, w2 := Loop(Begin(w), cfg, items), Loop(Begin(w), cfg, items + ([stop] + rest));
      && w2 == RollbackBoth(w1)
      && w2.events.buffered == (if w1.events.drained == w.events.drained then w.events.buffered else [])
      && w2.lifecycle.buffered == (if w1.lifecycle.drained == w.lifecycle.drained then w.lifecycle.buffered else [])
  {
    LoopSplits(Begin(w), cfg, items, [stop] + rest);
    LoopTracksOwnRows(w, cfg, items);
  }

  // ----- Which rolled-back rows are committed -----

  /** The state before the turn of message `j`. */
  function Before(w: World, cfg: Config, items: seq<Item>, j: nat): World
    requires j <= |items|
  {
    Loop(Begin(w), cfg, items[..j])
  }

  /** The row of message `j` fills its buffer, which is flushed. */
  predicate FlushesAt(w: World, cfg: Config, items: seq<Item>, j: nat)
    requires j < |items|
  {
    match FateOf(cfg, items[j])
    case ToEvents(e) => Full(AddToLane(Before(w, cfg, items, j).events, e), cfg)
    case ToLifecycle(e) => Full(AddToLane(Before(w, cfg, items, j).lifecycle, e), cfg)
    case _ => false
  }

  /** The flush in the turn of message `j` commits. */
  predicate CommitsAt(w: World, cfg: Config, items: seq<Item>, j: nat)
    requires j < |items|
  {
    && FlushesAt(w, cfg, items, j)
    && var v := Before(w, cfg, items, j);
       var lane := if FateOf(cfg, items[j]).ToEvents? then v.events else v.lifecycle;
       Commits(cfg, items[j].plan, |lane.buffered| + 1)
  }

  /** Some buffer is due when the call ends, and its flush is reached and commits. */
  predicate EndCommits(w: World, cfg: Config, end: Ending) {
    var n := |w.events.buffered|;
    var eventsDue := Expired(w.events, cfg, end.now);
    || (eventsDue && Commits(cfg, end.eventPlan, n))
    || (!(eventsDue && Throws(cfg, end.eventPlan, n))
        && Expired(w.lifecycle, cfg, end.now) && Commits(cfg, end.lifecyclePlan, |w.lifecycle.buffered|))
  }

  /** If the turn of message `j` flushes at all, it is not the buffer of rows with fate `f`. */
  predicate Spares(w: World, cfg: Config, items: seq<Item>, f: Fate, j: nat)
    requires j < |items|
  {
    FlushesAt(w, cfg, items, j) ==>
      if f.ToEvents? then FateOf(cfg, items[j]).ToLifecycle? else FateOf(cfg, items[j]).ToEvents?
  }

  /** The row of message `i` is still buffered when the loop stops: no later turn flushed its buffer. */
  predicate Unflushed(w: World, cfg: Config, items: seq<Item>, i: nat)
    requires i < |items|
  {
    var f := FateOf(cfg, items[i]);
    && (f.ToEvents? || f.ToLifecycle?)
    && forall j | i <= j < |items| :: Spares(w, cfg, items, f, j)
  }

  lemma {:induction false} NoThrowSoFar(w: World, cfg: Config, items: seq<Item>, j: nat)
    requires AllGo(items) && !Loop(w, cfg, items).threw && j < |items|
    ensures AllGo(items[..j]) && AllGo(items[..j + 1]) && !Loop(w, cfg, items[..j + 1]).threw
    ensures !Loop(w, cfg, items[..j]).threw && !items[j].interrupt.BeforeResolve?
    ensures Loop(w, cfg, items[..j + 1]) == Take(Loop(w, cfg, items[..j]), cfg, items[j])
    decreases |items|
  {
    var n := |items| - 1;
    LoopByLast(w, cfg, items);
    if j < n {
      NoThrowSoFar(w, cfg, items[..n], j);
      assert items[..n][..j] == items[..j] && items[..n][..j + 1] == items[..j + 1];
    } else {
      assert items[..j + 1] == items;
    }
  }

  /** A loop that does not throw resolves every message it takes. */
  lemma {:induction false} EachIsResolved(w: World, cfg: Config, items: seq<Item>, n: nat)
    requires AllGo(items) && !Loop(Begin(w), cfg, items).threw && n <= |items|
    ensures |Before(w, cfg, items, n).resolved| == |w.resolved| + n
    decreases n
  {
    if n > 0 {
      EachIsResolved(w, cfg, items, n - 1);
      NoThrowSoFar(Begin(w), cfg, items, n - 1);
      TakeLands(Before(w, cfg, items, n - 1), cfg, items[n - 1]);
    }
  }

  lemma CommitStep(w: World, cfg: Config, items: seq<Item>, j: nat)
    requires AllGo(items) && !Loop(Begin(w), cfg, items).threw && j < |items|
    ensures var v, v' := Before(w, cfg, items, j), Before(w, cfg, items, j + 1);
      v'.committed == if CommitsAt(w, cfg, items, j) then |v'.resolved| else v.committed
  {
    NoThrowSoFar(Begin(w), cfg, items, j);
  }

  /** Offset `i` of the call is committed in the loop exactly when a flush at or after it commits. */
  lemma {:induction false} CommittedInLoop(w: World, cfg: Config, items: seq<Item>, i: nat, n: nat)
    requires AllGo(items) && !Loop(Begin(w), cfg, items).threw && w.committed <= |w.resolved|
    requires i <= n <= |items|
    ensures |w.resolved| + i < Before(w, cfg, items, n).committed <==>
            exists j | i <= j < n :: CommitsAt(w, cfg, items, j)
    ensures Before(w, cfg, items, n).committed <= |w.resolved| + n
    decreases n
  {
    EachIsResolved(w, cfg, items, n);
    if n > 0 {
      CommitStep(w, cfg, items, n - 1);
      if i < n {
        CommittedInLoop(w, cfg, items, i, n - 1);
      } else {
        CommittedInLoop(w, cfg, items, n - 1, n - 1);
      }
    }
  }

  ghost predicate InOwnTail(lane: Lane, e: Entry) {
    lane.added <= |lane.buffered| && e in lane.buffered[|lane.buffered| - lane.added..]
  }

  lemma TailStep(lane: Lane, e: Entry, next: Entry)
    requires lane.added <= |lane.buffered|
    ensures InOwnTail(AddToLane(lane, next), next)
    ensures InOwnTail(lane, e) ==> InOwnTail(AddToLane(lane, next), e)
  {
    var l := AddToLane(lane, next);
    var tail := l.buffered[|l.buffered| - l.added..];
    assert tail[|tail| - 1] == next;
    assert tail == lane.buffered[|lane.buffered| - lane.added..] + [next];
  }

  lemma EventTailStep(v: World, cfg: Config, it: Item, e: Entry)
    requires !it.interrupt.BeforeResolve? && v.events.added <= |v.events.buffered|
    requires var g := FateOf(cfg, it); g.ToEvents? ==> !Full(AddToLane(v.events, g.e), cfg)
    ensures InOwnTail(v.events, e) || FateOf(cfg, it) == ToEvents(e) ==> InOwnTail(Take(v, cfg, it).events, e)
  {
    var g := FateOf(cfg, it);
    if g.ToEvents? {
      TailStep(v.events, e, g.e);
    }
  }

  lemma LifecycleTailStep(v: World, cfg: Config, it: Item, e: Entry)
    requires !it.interrupt.BeforeResolve? && v.lifecycle.added <= |v.lifecycle.buffered|
    requires var g := FateOf(cfg, it); g.ToLifecycle? ==> !Full(AddToLane(v.lifecycle, g.e), cfg)
    ensures InOwnTail(v.lifecycle, e) || FateOf(cfg, it) == ToLifecycle(e) ==> InOwnTail(Take(v, cfg, it).lifecycle, e)
  {
    var g := FateOf(cfg, it);
    if g.ToLifecycle? {
      TailStep(v.lifecycle, e, g.e);
    }
  }

  ghost predicate RowInTail(w: World, f: Fate) {
    if f.ToEvents? then InOwnTail(w.events, f.e) else f.ToLifecycle? && InOwnTail(w.lifecycle, f.e)
  }

  lemma RowStaysInTail(v: World, cfg: Config, it: Item, f: Fate, own: bool, flushes: bool)
    requires !it.interrupt.BeforeResolve?
    requires v.events.added <= |v.events.buffered| && v.lifecycle.added <= |v.lifecycle.buffered|
    requires (f.ToEvents? || f.ToLifecycle?) && if own then FateOf(cfg, it) == f else RowInTail(v, f)
    requires var g := FateOf(cfg, it); g.ToEvents? ==> (flushes <==> Full(AddToLane(v.events, g.e), cfg))
    requires var g := FateOf(cfg, it); g.ToLifecycle? ==> (flushes <==> Full(AddToLane(v.lifecycle, g.e), cfg))
    requires flushes ==> if f.ToEvents? then FateOf(cfg, it).ToLifecycle? else FateOf(cfg, it).ToEvents?
    ensures RowInTail(Take(v, cfg, it), f)
  {
    if f.ToEvents? {
      EventTailStep(v, cfg, it, f.e);
    } else {
      LifecycleTailStep(v, cfg, it, f.e);
    }
  }

  lemma TailAfterTurn(w: World, cfg: Config, items: seq<Item>, f: Fate, own: bool, j: nat)
    requires AllGo(items) && !Loop(Begin(w), cfg, items).threw && j < |items|
    requires (f.ToEvents? || f.ToLifecycle?) && Spares(w, cfg, items, f, j)
    requires if own then FateOf(cfg, items[j]) == f else RowInTail(Before(w, cfg, items, j), f)
    ensures RowInTail(Before(w, cfg, items, j + 1), f)
  {
    NoThrowSoFar(Begin(w), cfg, items, j);
    LoopTracksOwnRows(w, cfg, items[..j]);
    RowStaysInTail(Before(w, cfg, items, j), cfg, items[j], f, own, FlushesAt(w, cfg, items, j));
  }

  /** A row that no later turn flushed is among the rows the rollback takes. */
  lemma {:induction false} RolledBackRowIsInTheTail(w: World, cfg: Config, items: seq<Item>, i: nat, n: nat)
    requires AllGo(items) && !Loop(Begin(w), cfg, items).threw && i < n <= |items| && Unflushed(w, cfg, items, i)
    ensures RowInTail(Before(w, cfg, items, n), FateOf(cfg, items[i]))
    decreases n
  {
    if i < n - 1 {
      RolledBackRowIsInTheTail(w, cfg, items, i, n - 1);
    }
    assert Spares(w, cfg, items, FateOf(cfg, items[i]), n - 1);
    TailAfterTurn(w, cfg, items, FateOf(cfg, items[i]), i == n - 1, n - 1);
  }

  /** A flush at the end commits everything, or nothing more is committed. */
  lemma EndFlushCommits(w: World, cfg: Config, end: Ending, k: nat)
    requires !w.threw && k < |w.resolved|
    ensures EndFlush(w, cfg, end).resolved == w.resolved
    ensures k < EndFlush(w, cfg, end).committed <==> k < w.committed || EndCommits(w, cfg, end)
  {
    var w1 := if Expired(w.events, cfg, end.now) then FlushEvents(w, cfg, end.eventPlan, end.now) else w;
    assert w1.lifecycle == w.lifecycle && w1.resolved == w.resolved;
  }

  /**
   * The rolled-back rows stay resolved. Whatever message of the call a rolled-back row came from, and
   * whichever buffer it was in, its offset is committed by the same call exactly when a flush in or
   * after its turn, which can only be one of the other buffer, commits, or the call ends with the
   * committing flush of a buffer that earlier calls left due.
   */
  lemma RolledBackRowIsCommittedExactlyWhen(
    w: World, cfg: Config, items: seq<Item>, i: nat, stop: Item, rest: seq<Item>, end: Ending)
    requires AllGo(items) && !Loop(Begin(w), cfg, items).threw && stop.signal.Stopping?
    requires w.committed <= |w.resolved| && i < |items| && Unflushed(w, cfg, items, i)
    ensures var w1, all := Loop(Begin(w), cfg, items), items + ([stop] + rest);
      var w2, w' := Loop(Begin(w), cfg, all), EachBatch(w, cfg, all, end);
      && w2 == RollbackBoth(w1) && RowInTail(w1, FateOf(cfg, items[i]))
      && w'.resolved == w.resolved + OffsetsOf(items)
      && (|w.resolved| + i < w'.committed <==>
            (exists j | i <= j < |items| :: CommitsAt(w, cfg, items, j)) || EndCommits(w2, cfg, end))
  {
    assert items[..|items|] == items;
    RollbackRemovesExactlyOwnRows(w, cfg, items, stop, rest);
    RolledBackRowIsInTheTail(w, cfg, items, i, |items|);
    CommittedInLoop(w, cfg, items, i, |items|);
    ResolvedAre(w, cfg, items);
    var w2 := RollbackBoth(Loop(Begin(w), cfg, items));
    EndFlushCommits(w2, cfg, end, |w.resolved| + i);
  }

  lemma ResolvedAre(w: World, cfg: Config, items: seq<Item>)
    requires AllGo(items) && !Loop(Begin(w), cfg, items).threw && items != []
    ensures Loop(Begin(w), cfg, items).resolved == w.resolved + OffsetsOf(items)
    ensures |Loop(Begin(w), cfg, items).resolved| == |w.resolved| + |items|
  {
    assert items[..|items|] == items;
    NoThrowSoFar(Begin(w), cfg, items, |items| - 1);
    MessagesLandByFate(Begin(w), cfg, items);
    EachIsResolved(w, cfg, items, |items|);
  }

  // ----- Which discarded rows are committed -----

  /** A revoked partition empties both buffers, so nothing is left to flush when the call ends. */
  lemma DiscardEmptiesBoth(w: World, cfg: Config, items: seq<Item>, stale: Item, rest: seq<Item>, end: Ending)
    requires AllGo(items) && !Loop(Begin(w), cfg, items).threw && stale.signal.Stale?
    ensures var w1, w' := Loop(Begin(w), cfg, items), EachBatch(w, cfg, items + ([stale] + rest), end);
      && w'.events.buffered == [] && w'.lifecycle.buffered == []
      && (w'.resolved, w'.committed, w'.threw) == (w1.resolved, w1.committed, false)
      && (w'.events.drained, w'.lifecycle.drained) == (w1.events.drained, w1.lifecycle.drained)
  {
    LoopSplits(Begin(w), cfg, items, [stale] + rest);
  }

  /**
   * Discarded rows stay resolved. A row of this call that no turn flushed is discarded, and its offset
   * is committed by the call exactly when a flush in or after its turn, of the other buffer, commits.
   */
  lemma DiscardedRowIsCommittedExactlyWhen(
    w: World, cfg: Config, items: seq<Item>, i: nat, stale: Item, rest: seq<Item>, end: Ending)
    requires AllGo(items) && !Loop(Begin(w), cfg, items).threw && stale.signal.Stale?
    requires w.committed <= |w.resolved| && i < |items| && Unflushed(w, cfg, items, i)
    ensures var w1, w' := Loop(Begin(w), cfg, items), EachBatch(w, cfg, items + ([stale] + rest), end);
      && RowInTail(w1, FateOf(cfg, items[i])) && w'.events.buffered == [] && w'.lifecycle.buffered == []
      && w'.resolved == w.resolved + OffsetsOf(items)
      && (|w.resolved| + i < w'.committed <==> exists j | i <= j < |items| :: CommitsAt(w, cfg, items, j))
  {
    assert items[..|items|] == items;
    DiscardEmptiesBoth(w, cfg, items, stale, rest, end);
    RolledBackRowIsInTheTail(w, cfg, items, i, |items|);
    CommittedInLoop(w, cfg, items, i, |items|);
    ResolvedAre(w, cfg, items);
  }

  /** An offset resolved before the call is committed in it exactly when any of its flushes commits. */
  lemma {:induction false} EarlierCommittedInLoop(w: World, cfg: Config, items: seq<Item>, k: nat, n: nat)
    requires AllGo(items) && !Loop(Begin(w), cfg, items).threw && k < |w.resolved| && n <= |items|
    ensures k < Before(w, cfg, items, n).committed <==>
            k < w.committed || exists j | 0 <= j < n :: CommitsAt(w, cfg, items, j)
    decreases n
  {
    if n > 0 {
      EachIsResolved(w, cfg, items, n);
      CommitStep(w, cfg, items, n - 1);
      EarlierCommittedInLoop(w, cfg, items, k, n - 1);
    }
  }

  /**
   * A row that earlier calls left in a buffer the call does not flush is discarded too. Its offset,
   * resolved `k`-th, is committed after the call exactly when it was before or some flush of the call,
   * of the other buffer, commits.
   */
  lemma DiscardedEarlierRowIsCommittedExactlyWhen(
    w: World, cfg: Config, items: seq<Item>, flow: Flow, e: Entry, k: nat, stale: Item, rest: seq<Item>, end: Ending)
    requires AllGo(items) && !Loop(Begin(w), cfg, items).threw && stale.signal.Stale?
    requires k < |w.resolved| && e in LaneOf(w, flow).buffered && w.resolved[k] == e.offset
    requires LaneOf(Loop(Begin(w), cfg, items), flow).drained == LaneOf(w, flow).drained
    ensures var w1, w' := Loop(Begin(w), cfg, items), EachBatch(w, cfg, items + ([stale] + rest), end);
      && e in LaneOf(w1, flow).buffered && LaneOf(w', flow).buffered == []
      && LaneOf(w', flow).drained == LaneOf(w, flow).drained
      && (k < w'.committed <==> k < w.committed || exists j | 0 <= j < |items| :: CommitsAt(w, cfg, items, j))
  {
    assert items[..|items|] == items;
    DiscardEmptiesBoth(w, cfg, items, stale, rest, end);
    LoopTracksOwnRows(w, cfg, items);
    var lane := LaneOf(Loop(Begin(w), cfg, items), flow);
    assert lane.buffered[..|lane.buffered| - lane.added] == LaneOf(w, flow).buffered;
    EarlierCommittedInLoop(w, cfg, items, k, |items|);
  }

  ghost predicate BufferedAreResolved(w: World) {
    && (forall e | e in w.events.buffered :: e.offset in w.resolved)
    && (forall e | e in w.lifecycle.buffered :: e.offset in w.resolved)
  }

  lemma {:induction false} LoopBuffersResolved(w: World, cfg: Config, items: seq<Item>)
    requires BufferedAreResolved(w)
    ensures BufferedAreResolved(Loop(w, cfg, items))
    decreases |items|
  {
    if items != [] && !w.threw && items[0].signal.Go? {
      TakeBuffersResolved(w, cfg, items[0]);
      LoopBuffersResolved(Take(w, cfg, items[0]), cfg, items[1..]);
    }
  }

  lemma TakeBuffersResolved(w: World, cfg: Config, it: Item)
    requires BufferedAreResolved(w)
    ensures BufferedAreResolved(Take(w, cfg, it))
  {
  }

  /** Over any calls, every buffered row has its offset resolved already. */
  lemma {:induction false} BufferedRowsAreResolved(cfg: Config, now: int, cs: seq<Call>)
    ensures BufferedAreResolved(Calls(Fresh(now), cfg, cs))
  {
    if cs != [] {
      var c, p := cs[|cs| - 1], cs[..|cs| - 1];
      BufferedRowsAreResolved(cfg, now, p);
      LoopBuffersResolved(Begin(Calls(Fresh(now), cfg, p)), cfg, c.items);
    }
  }
}
