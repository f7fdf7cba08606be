/**
 * The ingestion pipeline in batch-deduplication mode: each event of an envelope gets one outcome,
 * and only events that were produced enter the duplicate filter.
 *
 * What the limiter, quota and restriction stores answer and whether a send succeeds come with each
 * event; the text of messages, headers and payloads is left out, their routing is not.
 */
module Pipeline {
  import opened Clock
  import opened Options
  import B = BloomWindow

  type Eid = B.Eid

  datatype Event = Event(
    eid: Eid, eidIsUuid: bool, name: string, sid: string, anon: string, uid: Option<string>,
    ts: int, schemaV: Option<nat>, disableSkewCorrection: bool, illegalId: bool)

  /** What the world answers while one event is processed. */
  datatype Env = Env(quotaExceeded: bool, restricted: bool, serializes: bool, bytes: nat, hotKey: bool, sendOk: bool)

  datatype Config = Config(maxEventBytes: nat, historicalEnabled: bool, historicalThresholdMs: int)

  datatype Outcome = Ok | Drop | Warning | Retry

  // ----- Classification -----

  datatype DataType = Analytics | Error | Identify | Checkout

  datatype QuotaBucket = Events | Exceptions | CheckoutBucket

  const HIGH_VALUE_CART_ACTIONS: set<string> :=
    {"add", "remove", "purchase", "checkout_complete", "checkout_abandon", "coupon_applied", "coupon_failed"}

  predicate StartsWith(s: string, prefix: string) {
    prefix <= s
  }

  predicate IsCheckoutEventType(name: string) {
    || StartsWith(name, "$checkout_") || StartsWith(name, "order_")
    || name == "purchase" || name == "checkout_started"
    || (StartsWith(name, "$cart_") && name[|"$cart_"|..] in HIGH_VALUE_CART_ACTIONS)
  }

  function Classify(name: string): DataType {
    if name == "$exception" then Error
    else if name in {"$identify", "$alias", "$create_alias"} then Identify
    else if IsCheckoutEventType(name) then Checkout
    else Analytics
  }

  function BucketOf(name: string): QuotaBucket {
    if name == "$exception" then Exceptions
    else if IsCheckoutEventType(name) then CheckoutBucket
    else Events
  }

  /** Topic routing and quota accounting agree on what is commerce and what is an exception. */
  lemma BucketsAgreeWithTopics(name: string)
    ensures BucketOf(name) == CheckoutBucket <==> Classify(name) == Checkout
    ensures BucketOf(name) == Exceptions <==> Classify(name) == Error
  {
    if name in {"$identify", "$alias", "$create_alias"} {
      assert name[0] == '$' && name[1] in {'i', 'a', 'c'};
      if name == "$create_alias" {
        assert name[2] == 'r';
      }
      assert "$checkout_"[2] == 'h' && "order_"[0] == 'o' && "$cart_"[2] == 'a';
    }
  }

  // ----- One event -----

  datatype Topic = DlqTopic | Historical | Overflow | ForType(dt: DataType)

  datatype Send = Send(topic: Topic, key: string, eid: Eid, ok: bool)

  datatype Entry = Entry(eid: Eid, outcome: Outcome, details: Option<string>)

  const MAX_LEN: nat := 200

  predicate IsValid(e: Event) {
    && (e.schemaV.Some? ==> e.schemaV.value == 1)
    && e.eid != "" && e.eidIsUuid && e.name != "" && e.sid != "" && e.anon != ""
    && |e.name| <= MAX_LEN && |e.anon| <= MAX_LEN && (e.uid.Some? ==> |e.uid.value| <= MAX_LEN)
    && 946_684_800_000 <= e.ts
  }

  function Clamp(x: int, lo: int, hi: int): int {
    if x < lo then lo else if hi < x then hi else x
  }

  function AdjustedTs(e: Event, receivedAt: int, sentAt: int): int {
    if e.disableSkewCorrection then e.ts else e.ts + Clamp(receivedAt - sentAt, -1_800_000, 1_800_000)
  }

  /**
   * The correction moves a timestamp by at most half an hour; within that, how far the client's clock
   * is off does not matter.
   */
  lemma ClientClockDoesNotMatter(e: Event, receivedAt: int, sentAt: int, offset: int)
    ensures -1_800_000 <= AdjustedTs(e, receivedAt, sentAt) - e.ts <= 1_800_000
    ensures
      && !e.disableSkewCorrection
      && -1_800_000 <= receivedAt - sentAt <= 1_800_000
      && -1_800_000 <= receivedAt - (sentAt + offset) <= 1_800_000
      ==> AdjustedTs(e.(ts := e.ts + offset), receivedAt, sentAt + offset) == AdjustedTs(e, receivedAt, sentAt)
  {
  }

  predicate IsHistorical(cfg: Config, e: Event, receivedAt: int, sentAt: int) {
    cfg.historicalEnabled && receivedAt - AdjustedTs(e, receivedAt, sentAt) > cfg.historicalThresholdMs
  }

  datatype Request = Request(cfg: Config, receivedAt: int, sentAt: int, duplicates: set<Eid>)

  /** How an event leaves the pipeline. */
  datatype Verdict = Verdict(entry: Entry, sends: seq<Send>) | Abort

  function Judge(r: Request, e: Event, env: Env): Verdict {
    if !IsValid(e) then
      Verdict(Entry(e.eid, Drop, Some("validation_failed")), [Send(DlqTopic, e.eid, e.eid, env.sendOk)])
    else if e.eid in r.duplicates then Verdict(Entry(e.eid, Drop, Some("duplicate")), [])
    else if env.quotaExceeded then Verdict(Entry(e.eid, Drop, Some("quota_exceeded")), [])
    else if env.restricted then Verdict(Entry(e.eid, Drop, Some("restricted")), [])
    else if !env.serializes then Abort
    else if env.bytes > r.cfg.maxEventBytes then
      Verdict(Entry(e.eid, Drop, Some("too_big")), [Send(DlqTopic, e.sid, e.eid, env.sendOk)])
    else
      var (topic, key) := Route(r, e, env);
      var sends := [Send(topic, key, e.eid, env.sendOk)];
      if !env.sendOk then Verdict(Entry(e.eid, Retry, Some("not_persisted")), sends)
      else if e.illegalId then Verdict(Entry(e.eid, Warning, Some("illegal_id")), sends)
      else Verdict(Entry(e.eid, Ok, None), sends)
  }

  function Route(r: Request, e: Event, env: Env): (Topic, string) {
    if IsHistorical(r.cfg, e, r.receivedAt, r.sentAt) then (Historical, e.sid)
    else if env.hotKey then (Overflow, "")
    else (ForType(Classify(e.name)), e.sid)
  }

  // ----- An envelope -----

  /** The batch result of the response module. */
  class BatchResult {
    var entries: seq<Entry>
    var hasRetry: bool

    constructor ()
      ensures entries == [] && !hasRetry
    {
      entries, hasRetry := [], false;
    }

    method Push(eid: Eid, outcome: Outcome, details: Option<string>)
      modifies this
      ensures entries == old(entries) + [Entry(eid, outcome, details)]
      ensures hasRetry <==> old(hasRetry) || outcome == Retry
    {
      if outcome == Retry {
        hasRetry := true;
      }
      entries := entries + [Entry(eid, outcome, details)];
    }
  }

  predicate Accepted(entry: Entry) {
    entry.outcome == Ok || entry.outcome == Warning
  }

  function AcceptedEids(entries: seq<Entry>): seq<Eid> {
    if entries == [] then []
    else AcceptedEids(entries[..|entries| - 1]) +
         if Accepted(entries[|entries| - 1]) then [entries[|entries| - 1].eid] else []
  }

  /** The retry flag that pushing these entries leaves behind. */
  predicate AnyRetry(entries: seq<Entry>) {
    entries != [] && (AnyRetry(entries[..|entries| - 1]) || entries[|entries| - 1].outcome == Retry)
  }

  lemma {:induction false} AnyRetryMeans(entries: seq<Entry>)
    ensures AnyRetry(entries) <==> exists i :: 0 <= i < |entries| && entries[i].outcome == Retry
  {
    if entries != [] {
      var n := |entries| - 1;
      var p := entries[..n];
      AnyRetryMeans(p);
      if i :| 0 <= i < |entries| && entries[i].outcome == Retry {
        assert i < n ==> p[i].outcome == Retry;
      }
      if i :| 0 <= i < n && p[i].outcome == Retry {
        assert entries[i].outcome == Retry;
      }
    }
  }

  lemma PushedEntry(entries: seq<Entry>, x: Entry)
    ensures AnyRetry(entries + [x]) <==> AnyRetry(entries) || x.outcome == Retry
    ensures AcceptedEids(entries + [x]) == AcceptedEids(entries) + if Accepted(x) then [x.eid] else []
  {
    assert (entries + [x])[..|entries|] == entries;
  }

  /** What an envelope has left behind; an abort stops it where it is. */
  datatype Progress = Progress(entries: seq<Entry>, sends: seq<Send>, aborted: bool)

  function Advance(q: Progress, v: Verdict): Progress {
    if q.aborted then q
    else if v.Abort? then q.(aborted := true)
    else q.(entries := q.entries + [v.entry], sends := q.sends + v.sends)
  }

  function Run(r: Request, events: seq<Event>, envs: seq<Env>): Progress
    requires |events| == |envs|
  {
    if events == [] then Progress([], [], false)
    else
      var n := |events| - 1;
      Advance(Run(r, events[..n], envs[..n]), Judge(r, events[n], envs[n]))
  }

  lemma RunOneMore(r: Request, events: seq<Event>, envs: seq<Env>, i: nat)
    requires |events| == |envs| && i < |events|
    ensures Run(r, events[..i + 1], envs[..i + 1]) ==
            Advance(Run(r, events[..i], envs[..i]), Judge(r, events[i], envs[i]))
  {
    assert events[..i + 1][..i] == events[..i] && envs[..i + 1][..i] == envs[..i];
  }

  lemma {:induction false} AbortIsFinal(r: Request, events: seq<Event>, envs: seq<Env>, i: nat)
    requires |events| == |envs| && i <= |events| && Run(r, events[..i], envs[..i]).aborted
    ensures Run(r, events, envs) == Run(r, events[..i], envs[..i])
    decreases |events| - i
  {
    if i < |events| {
      RunOneMore(r, events, envs, i);
      AbortIsFinal(r, events, envs, i + 1);
    } else {
      assert events[..i] == events && envs[..i] == envs;
    }
  }

  /** An envelope that does not abort has one entry per event, in order, and the sends of each. */
  lemma {:induction false} OneEntryPerEvent(r: Request, events: seq<Event>, envs: seq<Env>)
    requires |events| == |envs| && !Run(r, events, envs).aborted
    ensures |Run(r, events, envs).entries| == |events|
    ensures forall i | 0 <= i < |events| ::
              && Judge(r, events[i], envs[i]).Verdict?
              && Run(r, events, envs).entries[i] == Judge(r, events[i], envs[i]).entry
  {
    if events != [] {
      var n := |events| - 1;
      OneEntryPerEvent(r, events[..n], envs[..n]);
      forall i | 0 <= i < |events|
        ensures Judge(r, events[i], envs[i]).Verdict? &&
                Run(r, events, envs).entries[i] == Judge(r, events[i], envs[i]).entry
      {
        if i < n {
          assert events[..n][i] == events[i] && envs[..n][i] == envs[i];
        }
      }
    }
  }

  lemma Extended<T>(a: seq<T>, p: seq<T>, q: seq<T>)
    requires p <= q
    ensures a + p + q[|p|..] == a + q
  {
  }

  class Service {
    const cfg: Config
    const filter: B.Filter
    var sends: seq<Send>

    constructor (cfg: Config)
      ensures this.cfg == cfg && sends == [] && filter.filters == map[] && fresh(filter)
    {
      this.cfg := cfg;
      filter := new B.Filter();
      sends := [];
    }

    /** Sends to a topic; the world says whether the send succeeds. */
    method SinkSend(topic: Topic, key: string, eid: Eid, ok: bool) returns (result: bool)
      modifies this`sends
      ensures sends == old(sends) + [Send(topic, key, eid, ok)] && result == ok
    {
      sends := sends + [Send(topic, key, eid, ok)];
      result := ok;
    }

    method ProcessEvent(r: Request, e: Event, env: Env, result: BatchResult) returns (aborted: bool, produced: bool)
      requires r.cfg == cfg
      modifies this`sends, result
      ensures var v := Judge(r, e, env);
        && (aborted <==> v.Abort?)
        && (aborted ==> sends == old(sends) && unchanged(result) && !produced)
        && (!aborted ==>
              && sends == old(sends) + v.sends
              && result.entries == old(result.entries) + [v.entry]
              && (result.hasRetry <==> old(result.hasRetry) || v.entry.outcome == Retry)
              && (produced <==> Accepted(v.entry)))
    {
      aborted, produced := false, false;
      if !IsValid(e) {
        var _ := SinkSend(DlqTopic, e.eid, e.eid, env.sendOk);
        result.Push(e.eid, Drop, Some("validation_failed"));
        return;
      }
      if e.eid in r.duplicates {
        result.Push(e.eid, Drop, Some("duplicate"));
        return;
      }
      if env.quotaExceeded {
        result.Push(e.eid, Drop, Some("quota_exceeded"));
        return;
      }
      if env.restricted {
        result.Push(e.eid, Drop, Some("restricted"));
        return;
      }
      if !env.serializes {
        return true, false;
      }
      if env.bytes > cfg.maxEventBytes {
        var _ := SinkSend(DlqTopic, e.sid, e.eid, env.sendOk);
        result.Push(e.eid, Drop, Some("too_big"));
        return;
      }
      var isHistorical := IsHistorical(cfg, e, r.receivedAt, r.sentAt);
      var isOverflow := !isHistorical && env.hotKey;
      var topic, key := ForType(Classify(e.name)), e.sid;
      if isHistorical {
        topic, key := Historical, e.sid;
      } else if isOverflow {
        topic, key := Overflow, "";
      }
      var ok := SinkSend(topic, key, e.eid, env.sendOk);
      if ok {
        produced := true;
        if e.illegalId {
          result.Push(e.eid, Warning, Some("illegal_id"));
        } else {
          result.Push(e.eid, Ok, None);
        }
      } else {
        result.Push(e.eid, Retry, Some("not_persisted"));
      }
    }

    /** One turn of the loop, after `q`: the batch result and the sends advance by the event's verdict. */
    method ProcessNext(ghost q: Progress, r: Request, e: Event, env: Env, result: BatchResult, produced: seq<Eid>)
      returns (aborted: bool, produced': seq<Eid>, ghost q': Progress)
      requires r.cfg == cfg && !q.aborted && q.entries == result.entries
      requires result.hasRetry == AnyRetry(result.entries) && produced == AcceptedEids(result.entries)
      modifies this`sends, result
      ensures q' == Advance(q, Judge(r, e, env)) && q'.aborted == aborted
      ensures q'.entries == result.entries && q.sends <= q'.sends
      ensures sends == old(sends) + q'.sends[|q.sends|..]
      ensures result.hasRetry == AnyRetry(result.entries) && produced' == AcceptedEids(result.entries)
    {
      q' := Advance(q, Judge(r, e, env));
      produced' := produced;
      var ok;
      aborted, ok := ProcessEvent(r, e, env, result);
      if !aborted {
        PushedEntry(q.entries, Judge(r, e, env).entry);
        if ok {
          produced' := produced + [e.eid];
        }
      }
    }

    method ProcessEvents(r: Request, events: seq<Event>, envs: seq<Env>)
      returns (result: BatchResult, aborted: bool, produced: seq<Eid>)
      requires |events| == |envs| && r.cfg == cfg
      modifies this`sends
      ensures fresh(result) && old(sends) <= sends
      ensures Run(r, events, envs) == Progress(result.entries, sends[|old(sends)|..], aborted)
      ensures result.hasRetry == AnyRetry(result.entries) && produced == AcceptedEids(result.entries)
    {
      result := new BatchResult();
      produced := [];
      aborted := false;
      ghost var q := Progress([], [], false);
      var i := 0;
      while i < |events| && !aborted
        invariant i <= |events| && fresh(result)
        invariant q == Run(r, events[..i], envs[..i]) && q.aborted == aborted
        invariant sends == old(sends) + q.sends && q.entries == result.entries
        invariant result.hasRetry == AnyRetry(result.entries) && produced == AcceptedEids(result.entries)
      {
        ghost var before := q;
        aborted, produced, q := ProcessNext(q, r, events[i], envs[i], result, produced);
        RunOneMore(r, events, envs, i);
        Extended(old(sends), before.sends, q.sends);
        i := i + 1;
      }
      if aborted {
        AbortIsFinal(r, events, envs, i);
      }
      assert i == |events| ==> events[..i] == events && envs[..i] == envs;
    }

    /**
     * The part of an envelope before the filter is written: the filter is checked at `at`, a failed
     * check is no duplicates. An abort is the error return of a failed serialization.
     */
    method CheckAndProcess(v: Envelope, at: int, ok: bool)
      returns (result: BatchResult, aborted: bool, produced: seq<Eid>)
      requires v.Valid()
      modifies this`sends
      ensures fresh(result) && old(sends) <= sends
      ensures Run(RequestOf(cfg, filter.filters, v, at, ok), v.events, v.envs) ==
              Progress(result.entries, sends[|old(sends)|..], aborted)
      ensures result.hasRetry <==> exists i :: 0 <= i < |result.entries| && result.entries[i].outcome == Retry
      ensures produced == AcceptedEids(result.entries)
    {
      var duplicates: set<Eid> := {};
      if ok {
        var allEids := seq(|v.events|, i requires 0 <= i < |v.events| => v.events[i].eid);
        duplicates := filter.CheckBloom(allEids, at);
        SameDuplicates(filter.filters, v.events, allEids, at, duplicates);
      }
      var r := Request(cfg, v.receivedAt, v.sentAt, duplicates);
      result, aborted, produced := ProcessEvents(r, v.events, v.envs);
      AnyRetryMeans(result.entries);
    }

    /** The write that ends an envelope; a failed write is no write. */
    method RecordProduced(ghost entries: seq<Entry>, produced: seq<Eid>, at: int, ok: bool)
      requires produced == AcceptedEids(entries)
      modifies filter
      ensures filter.filters == Recorded(old(filter.filters), entries, at, ok)
    {
      if produced != [] && ok {
        filter.RecordBloom(produced, at);
      }
    }

    /** One envelope that no other overlaps: a check and a record step of a run. */
    method ProcessEnvelope(v: Envelope, checkAt: int, checkOk: bool, recordAt: int, recordOk: bool)
      returns (result: BatchResult, aborted: bool)
      requires v.Valid()
      modifies this`sends, filter
      ensures fresh(result) && old(sends) <= sends
      ensures Run(RequestOf(cfg, old(filter.filters), v, checkAt, checkOk), v.events, v.envs) ==
              Progress(result.entries, sends[|old(sends)|..], aborted)
      ensures result.hasRetry <==> exists i :: 0 <= i < |result.entries| && result.entries[i].outcome == Retry
      ensures var checked := Apply(cfg, Store(old(filter.filters), []), Check(v, checkAt, checkOk));
        && (!aborted ==> checked.results == [result.entries])
        && filter.filters == Apply(cfg, checked, Record(0, recordAt, recordOk)).filters
    {
      var produced;
      result, aborted, produced := CheckAndProcess(v, checkAt, checkOk);
      if !aborted {
        RecordProduced(result.entries, produced, recordAt, recordOk);
      }
    }
  }

  function DuplicatesOf(f: B.Filters, events: seq<Event>, checkAt: int, checkOk: bool): set<Eid> {
    if checkOk then set i | 0 <= i < |events| && B.IsDuplicate(f, events[i].eid, checkAt) :: events[i].eid else {}
  }

  lemma SameDuplicates(f: B.Filters, events: seq<Event>, eids: seq<Eid>, checkAt: int, duplicates: set<Eid>)
    requires |eids| == |events| && forall i | 0 <= i < |events| :: eids[i] == events[i].eid
    requires forall eid :: eid in duplicates <==> eid in eids && B.IsDuplicate(f, eid, checkAt)
    ensures duplicates == DuplicatesOf(f, events, checkAt, true)
  {
    forall eid | eid in duplicates ensures eid in DuplicatesOf(f, events, checkAt, true) {
      var i :| 0 <= i < |eids| && eids[i] == eid;
      assert events[i].eid == eid;
    }
    forall eid | eid in DuplicatesOf(f, events, checkAt, true) ensures eid in duplicates {
      var i :| 0 <= i < |events| && B.IsDuplicate(f, events[i].eid, checkAt) && events[i].eid == eid;
      assert eids[i] == eid;
    }
  }

  function Recorded(f: B.Filters, entries: seq<Entry>, recordAt: int, recordOk: bool): B.Filters {
    if recordOk then B.Record(f, B.Members(AcceptedEids(entries)), recordAt) else f
  }

  // ----- What an outcome means -----

  /** The sends of an event that are not dead letters. */
  function RealSends(sends: seq<Send>): seq<Send> {
    if sends == [] then []
    else (if sends[0].topic != DlqTopic then [sends[0]] else []) + RealSends(sends[1..])
  }

  lemma {:induction false} RealSendsConcat(a: seq<Send>, b: seq<Send>)
    ensures RealSends(a + b) == RealSends(a) + RealSends(b)
  {
    if a == [] {
      assert a + b == b;
    } else {
      assert (a + b)[1..] == a[1..] + b;
      RealSendsConcat(a[1..], b);
    }
  }

  /**
   * Accepted means produced. At most one send of an event is not a dead letter; the event is
   * accepted exactly when that send succeeded, and told to retry exactly when it failed.
   */
  lemma OutcomeTellsTheSend(r: Request, e: Event, env: Env)
    requires !Judge(r, e, env).Abort?
    ensures var v := Judge(r, e, env);
      var kept := RealSends(v.sends);
      && v.entry.eid == e.eid && |v.sends| <= 1 && (forall s | s in v.sends :: s.eid == e.eid)
      && (Accepted(v.entry) <==> |kept| == 1 && kept[0].ok)
      && (v.entry.outcome == Retry <==> |kept| == 1 && !kept[0].ok)
      && (v.entry.outcome == Drop <==> kept == [])
      && (v.entry.outcome == Warning ==> e.illegalId)
  {
  }

  /** Where an accepted or retried event was sent: age wins over heat, heat over type. */
  lemma RouteOfAnEvent(r: Request, e: Event, env: Env)
    requires !Judge(r, e, env).Abort? && Judge(r, e, env).entry.outcome != Drop
    ensures var kept := RealSends(Judge(r, e, env).sends);
      && |kept| == 1
      && (kept[0].topic == Historical <==> IsHistorical(r.cfg, e, r.receivedAt, r.sentAt))
      && (kept[0].topic == Overflow <==> !IsHistorical(r.cfg, e, r.receivedAt, r.sentAt) && env.hotKey)
      && (kept[0].key == e.sid || (kept[0].topic == Overflow && kept[0].key == ""))
      && (kept[0].topic.ForType? ==> (kept[0].topic.dt == Checkout <==> BucketOf(e.name) == CheckoutBucket))
  {
    BucketsAgreeWithTopics(e.name);
  }

  // ----- Runs of envelopes that overlap -----

  datatype Envelope = Envelope(receivedAt: int, sentAt: int, events: seq<Event>, envs: seq<Env>) {
    predicate Valid() {
      |events| == |envs|
    }
  }

  function RequestOf(cfg: Config, f: B.Filters, v: Envelope, at: int, ok: bool): Request {
    Request(cfg, v.receivedAt, v.sentAt, DuplicatesOf(f, v.events, at, ok))
  }

  /** The entries of an envelope; none when it was answered with an error. */
  function EntriesOf(cfg: Config, f: B.Filters, v: Envelope, at: int, ok: bool): seq<Entry>
    requires v.Valid()
  {
    var q := Run(RequestOf(cfg, f, v, at, ok), v.events, v.envs);
    if q.aborted then [] else q.entries
  }

  /**
   * What envelopes do to the filter, in the order Redis sees it. Envelopes are numbered by their checks;
   * any others can check and record between the check of one and its record.
   */
  datatype Step =
    | Check(v: Envelope, at: int, ok: bool)
    | Record(i: nat, at: int, ok: bool)
  {
    predicate Valid() {
      Check? ==> v.Valid()
    }
  }

  /** The filter, and the entries of each envelope checked so far. */
  datatype Store = Store(filters: B.Filters, results: seq<seq<Entry>>)

  function Apply(cfg: Config, st: Store, s: Step): Store
    requires s.Valid()
  {
    match s
    case Check(v, at, ok) => st.(results := st.results + [EntriesOf(cfg, st.filters, v, at, ok)])
    case Record(i, at, ok) =>
      if i < |st.results| then st.(filters := Recorded(st.filters, st.results[i], at, ok)) else st
  }

  predicate AllValid(steps: seq<Step>) {
    forall i | 0 <= i < |steps| :: steps[i].Valid()
  }

  function After(cfg: Config, steps: seq<Step>): Store
    requires AllValid(steps)
  {
    if steps == [] then Store(map[], [])
    else Apply(cfg, After(cfg, steps[..|steps| - 1]), steps[|steps| - 1])
  }

  predicate InOrder(steps: seq<Step>, now: int) {
    steps == [] || (steps[|steps| - 1].at <= now && InOrder(steps[..|steps| - 1], steps[|steps| - 1].at))
  }

  predicate AcceptedBy(st: Store, i: nat, eid: Eid) {
    i < |st.results| && eid in AcceptedEids(st.results[i])
  }

  /** Step `k` records `eid`, which its envelope accepted. */
  predicate RecordedAt(cfg: Config, steps: seq<Step>, k: nat, eid: Eid)
    requires AllValid(steps) && k < |steps|
  {
    steps[k].Record? && steps[k].ok && AcceptedBy(After(cfg, steps[..k]), steps[k].i, eid)
  }

  function WriteOf(st: Store, s: Step): B.Write {
    B.Write(
      if s.Record? && s.ok && s.i < |st.results| then B.Members(AcceptedEids(st.results[s.i])) else {},
      s.at)
  }

  function Writes(cfg: Config, steps: seq<Step>): (ws: seq<B.Write>)
    requires AllValid(steps)
    ensures |ws| == |steps|
  {
    if steps == [] then []
    else
      var p := steps[..|steps| - 1];
      Writes(cfg, p) + [WriteOf(After(cfg, p), steps[|steps| - 1])]
  }

  /** The filter of a run is what its writes make of it, in order. */
  lemma {:induction false} FilterIsItsWrites(cfg: Config, steps: seq<Step>, now: int)
    requires AllValid(steps) && InOrder(steps, now)
    ensures After(cfg, steps).filters == B.RecordAll(Writes(cfg, steps)) && B.Ordered(Writes(cfg, steps), now)
  {
    if steps != [] {
      var p, s := steps[..|steps| - 1], steps[|steps| - 1];
      FilterIsItsWrites(cfg, p, s.at);
      var ws := Writes(cfg, steps);
      assert ws[..|ws| - 1] == Writes(cfg, p) && ws[|ws| - 1] == WriteOf(After(cfg, p), s);
    }
  }

  /** What a step writes is what its envelope accepted, if the write succeeds; a check writes nothing. */
  lemma {:induction false} WriteIsWhatWasAccepted(cfg: Config, steps: seq<Step>, k: nat, eid: Eid)
    requires AllValid(steps) && k < |steps|
    ensures Writes(cfg, steps)[k].at == steps[k].at
    ensures eid in Writes(cfg, steps)[k].eids <==> RecordedAt(cfg, steps, k, eid)
    decreases |steps|
  {
    var n := |steps| - 1;
    if k < n {
      assert steps[..n][..k] == steps[..k];
      WriteIsWhatWasAccepted(cfg, steps[..n], k, eid);
    }
  }

  ghost predicate RecordedOn(cfg: Config, steps: seq<Step>, eid: Eid, day: int)
    requires AllValid(steps)
  {
    exists k | 0 <= k < |steps| :: RecordedAt(cfg, steps, k, eid) && B.Day(steps[k].at) == day
  }

  lemma RecordedOnIsWrittenOn(cfg: Config, steps: seq<Step>, eid: Eid, day: int)
    requires AllValid(steps)
    ensures RecordedOn(cfg, steps, eid, day) <==> eid in B.WrittenOn(Writes(cfg, steps), day)
  {
    var ws := Writes(cfg, steps);
    B.WrittenOnMeans(ws, day, eid);
    forall k | 0 <= k < |steps|
      ensures ws[k].at == steps[k].at && (eid in ws[k].eids <==> RecordedAt(cfg, steps, k, eid))
    {
      WriteIsWhatWasAccepted(cfg, steps, k, eid);
    }
  }

  /** However envelopes overlap, a duplicate is an id whose record step was on this UTC day or the one before. */
  lemma DuplicateExactlyWhenRecorded(cfg: Config, steps: seq<Step>, now: int, eid: Eid)
    requires AllValid(steps) && InOrder(steps, now)
    ensures B.IsDuplicate(After(cfg, steps).filters, eid, now) <==>
            RecordedOn(cfg, steps, eid, B.Day(now)) || RecordedOn(cfg, steps, eid, B.Day(now) - 1)
  {
    FilterIsItsWrites(cfg, steps, now);
    B.DuplicateExactlyWhenWrittenTodayOrYesterday(Writes(cfg, steps), now, eid);
    RecordedOnIsWrittenOn(cfg, steps, eid, B.Day(now));
    RecordedOnIsWrittenOn(cfg, steps, eid, B.Day(now) - 1);
  }

  lemma {:induction false} ResultsStay(cfg: Config, steps: seq<Step>, k: nat)
    requires AllValid(steps) && k <= |steps|
    ensures After(cfg, steps[..k]).results <= After(cfg, steps).results
    decreases |steps|
  {
    if k < |steps| {
      assert steps[..|steps| - 1][..k] == steps[..k];
      ResultsStay(cfg, steps[..|steps| - 1], k);
    } else {
      assert steps[..k] == steps;
    }
  }

  /** Nothing is recorded that no envelope accepted. */
  lemma UnacceptedIsUnrecorded(cfg: Config, steps: seq<Step>, eid: Eid)
    requires AllValid(steps)
    requires forall i | 0 <= i < |After(cfg, steps).results| :: !AcceptedBy(After(cfg, steps), i, eid)
    ensures forall k | 0 <= k < |steps| :: !RecordedAt(cfg, steps, k, eid)
  {
    forall k | 0 <= k < |steps| ensures !RecordedAt(cfg, steps, k, eid) {
      ResultsStay(cfg, steps, k);
      var before, after := After(cfg, steps[..k]), After(cfg, steps);
      assert steps[k].Record? && AcceptedBy(before, steps[k].i, eid) ==> AcceptedBy(after, steps[k].i, eid);
    }
  }

  /**
   * A valid event of an envelope that is not answered with an error is dropped as a duplicate exactly
   * when the check works and its id was recorded, by whatever envelope, on this UTC day or the one before.
   */
  lemma DroppedAsDuplicateExactlyWhen(cfg: Config, steps: seq<Step>, v: Envelope, at: int, ok: bool, j: nat)
    requires AllValid(steps) && InOrder(steps, at) && v.Valid() && j < |v.events| && IsValid(v.events[j])
    requires EntriesOf(cfg, After(cfg, steps).filters, v, at, ok) != []
    ensures var entries, eid := EntriesOf(cfg, After(cfg, steps).filters, v, at, ok), v.events[j].eid;
      && |entries| == |v.events|
      && (entries[j] == Entry(eid, Drop, Some("duplicate")) <==>
            ok && (RecordedOn(cfg, steps, eid, B.Day(at)) || RecordedOn(cfg, steps, eid, B.Day(at) - 1)))
  {
    var f := After(cfg, steps).filters;
    OneEntryPerEvent(RequestOf(cfg, f, v, at, ok), v.events, v.envs);
    DuplicateExactlyWhenRecorded(cfg, steps, at, v.events[j].eid);
    assert ok && B.IsDuplicate(f, v.events[j].eid, at) ==> v.events[j].eid in DuplicatesOf(f, v.events, at, ok);
  }

  /**
   * However envelopes overlap, an id that was never accepted is in no filter, so an event told to retry
   * and sent again is never dropped as a duplicate.
   */
  lemma UnacceptedIsNeverDuplicate(cfg: Config, steps: seq<Step>, v: Envelope, at: int, ok: bool, j: nat)
    requires AllValid(steps) && InOrder(steps, at) && v.Valid() && j < |v.events|
    requires forall i | 0 <= i < |After(cfg, steps).results| :: !AcceptedBy(After(cfg, steps), i, v.events[j].eid)
    ensures !B.IsDuplicate(After(cfg, steps).filters, v.events[j].eid, at)
    ensures var entries := EntriesOf(cfg, After(cfg, steps).filters, v, at, ok);
      entries != [] ==> |entries| == |v.events| && entries[j].details != Some("duplicate")
  {
    UnacceptedIsUnrecorded(cfg, steps, v.events[j].eid);
    DuplicateExactlyWhenRecorded(cfg, steps, at, v.events[j].eid);
    if EntriesOf(cfg, After(cfg, steps).filters, v, at, ok) != [] {
      OneEntryPerEvent(RequestOf(cfg, After(cfg, steps).filters, v, at, ok), v.events, v.envs);
    }
  }

  /**
   * However envelopes overlap, an accepted and recorded event sent again before the end of the next UTC
   * day, so for at least a day, is dropped as a duplicate whenever it is still valid and the check works.
   */
  lemma AcceptedIsDuplicateForADay(cfg: Config, steps: seq<Step>, k: nat, v: Envelope, at: int, j: nat)
    requires AllValid(steps) && InOrder(steps, at) && v.Valid() && k < |steps| && j < |v.events|
    requires RecordedAt(cfg, steps, k, v.events[j].eid) && at < (B.Day(steps[k].at) + 2) * DAY
    requires IsValid(v.events[j])
    ensures var entries := EntriesOf(cfg, After(cfg, steps).filters, v, at, true);
      entries != [] ==> |entries| == |v.events| && entries[j] == Entry(v.events[j].eid, Drop, Some("duplicate"))
  {
    StepsAreBefore(steps, k, at);
    assert B.Day(steps[k].at) <= B.Day(at) <= B.Day(steps[k].at) + 1;
    assert RecordedOn(cfg, steps, v.events[j].eid, B.Day(steps[k].at));
    if EntriesOf(cfg, After(cfg, steps).filters, v, at, true) != [] {
      DroppedAsDuplicateExactlyWhen(cfg, steps, v, at, true, j);
    }
  }

  lemma {:induction false} StepsAreBefore(steps: seq<Step>, k: nat, now: int)
    requires InOrder(steps, now) && k < |steps|
    ensures steps[k].at <= now
    decreases |steps|
  {
    if k < |steps| - 1 {
      StepsAreBefore(steps[..|steps| - 1], k, steps[|steps| - 1].at);
    }
  }

  /**
   * An envelope sent again before the first copy is recorded gets the same outcomes: whatever the first
   * copy produced, the second produces too.
   */
  lemma OverlappingCopiesBothProduce(
    cfg: Config, steps: seq<Step>, v: Envelope, at: int, ok: bool, laterAt: int, laterOk: bool)
    requires AllValid(steps) && v.Valid() && InOrder(steps, at) && at <= laterAt
    requires forall j, k | 0 <= j < |v.events| && 0 <= k < |steps| :: !RecordedAt(cfg, steps, k, v.events[j].eid)
    ensures var all := steps + [Check(v, at, ok)] + [Check(v, laterAt, laterOk)];
      AllValid(all) && InOrder(all, laterAt) &&
      var results := After(cfg, all).results;
      |results| >= 2 && results[|results| - 1] == results[|results| - 2]
                     == EntriesOf(cfg, After(cfg, steps).filters, v, at, ok)
  {
    var one := steps + [Check(v, at, ok)];
    OneMoreStep(cfg, steps, Check(v, at, ok), at);
    OneMoreStep(cfg, one, Check(v, laterAt, laterOk), laterAt);
    InOrderLater(steps, at, laterAt);
    NothingRecordedNoDuplicates(cfg, steps, v, at, ok);
    NothingRecordedNoDuplicates(cfg, steps, v, laterAt, laterOk);
    CheckedTwice(cfg, After(cfg, steps), v, at, ok, laterAt, laterOk);
  }

  lemma OneMoreStep(cfg: Config, steps: seq<Step>, s: Step, now: int)
    requires AllValid(steps) && s.Valid() && s.at <= now && InOrder(steps, s.at)
    ensures AllValid(steps + [s]) && After(cfg, steps + [s]) == Apply(cfg, After(cfg, steps), s)
    ensures InOrder(steps + [s], now)
  {
    assert (steps + [s])[..|steps|] == steps;
  }

  /** Neither check finds a duplicate, and no record is between them. */
  lemma CheckedTwice(cfg: Config, st: Store, v: Envelope, at: int, ok: bool, laterAt: int, laterOk: bool)
    requires v.Valid()
    requires DuplicatesOf(st.filters, v.events, at, ok) == DuplicatesOf(st.filters, v.events, laterAt, laterOk)
    ensures var entries := EntriesOf(cfg, st.filters, v, at, ok);
      Apply(cfg, Apply(cfg, st, Check(v, at, ok)), Check(v, laterAt, laterOk)).results ==
        st.results + [entries] + [entries]
  {
  }

  lemma NothingRecordedNoDuplicates(cfg: Config, steps: seq<Step>, v: Envelope, at: int, ok: bool)
    requires AllValid(steps) && InOrder(steps, at)
    requires forall j, k | 0 <= j < |v.events| && 0 <= k < |steps| :: !RecordedAt(cfg, steps, k, v.events[j].eid)
    ensures DuplicatesOf(After(cfg, steps).filters, v.events, at, ok) == {}
  {
    forall j | 0 <= j < |v.events| ensures !B.IsDuplicate(After(cfg, steps).filters, v.events[j].eid, at) {
      DuplicateExactlyWhenRecorded(cfg, steps, at, v.events[j].eid);
    }
  }

  lemma InOrderLater(steps: seq<Step>, now: int, later: int)
    requires InOrder(steps, now) && now <= later
    ensures InOrder(steps, later)
  {
  }

  // ----- The response -----

  /** The response body: a map by event id, so the last entry of a repeated id wins. */
  function Body(entries: seq<Entry>): map<Eid, Entry> {
    if entries == [] then map[]
    else Body(entries[..|entries| - 1])[entries[|entries| - 1].eid := entries[|entries| - 1]]
  }

  ghost function EidsOf(entries: seq<Entry>): set<Eid> {
    set i | 0 <= i < |entries| :: entries[i].eid
  }

  lemma EidsOfLast(entries: seq<Entry>)
    requires entries != []
    ensures EidsOf(entries) == EidsOf(entries[..|entries| - 1]) + {entries[|entries| - 1].eid}
  {
    var n := |entries| - 1;
    forall eid | eid in EidsOf(entries) ensures eid in EidsOf(entries[..n]) + {entries[n].eid} {
      var i :| 0 <= i <= n && entries[i].eid == eid;
      assert i < n ==> entries[..n][i].eid == eid;
    }
    forall eid | eid in EidsOf(entries[..n]) ensures eid in EidsOf(entries) {
      var i :| 0 <= i < n && entries[..n][i].eid == eid;
      assert entries[i].eid == eid;
    }
  }

  /** The body holds the last entry of each id. */
  lemma {:induction false} BodyHoldsLastEntries(entries: seq<Entry>)
    ensures Body(entries).Keys == EidsOf(entries)
    ensures forall eid | eid in Body(entries) :: exists i | 0 <= i < |entries| ::
              entries[i] == Body(entries)[eid] && entries[i].eid == eid
  {
    if entries != [] {
      var n := |entries| - 1;
      var p := entries[..n];
      BodyHoldsLastEntries(p);
      EidsOfLast(entries);
      forall eid | eid in Body(entries)
        ensures exists i | 0 <= i < |entries| :: entries[i] == Body(entries)[eid] && entries[i].eid == eid
      {
        if eid == entries[n].eid {
          assert entries[n] == Body(entries)[eid];
        } else {
          var i :| 0 <= i < |p| && p[i] == Body(p)[eid] && p[i].eid == eid;
          assert entries[i] == Body(entries)[eid];
        }
      }
    }
  }

  /** The response body reports every entry exactly when entries that share an id are the same. */
  lemma BodyReportsEveryEntry(entries: seq<Entry>)
    ensures Body(entries).Keys == EidsOf(entries)
    ensures (forall i | 0 <= i < |entries| :: Reports(Body(entries), entries[i])) <==>
            (forall i, j | 0 <= i < |entries| && 0 <= j < |entries| && entries[i].eid == entries[j].eid ::
               entries[i] == entries[j])
  {
    BodyHoldsLastEntries(entries);
    var body := Body(entries);
    forall i | 0 <= i < |entries| ensures entries[i].eid in body {
      assert entries[i].eid in EidsOf(entries);
    }
    if forall i | 0 <= i < |entries| :: Reports(body, entries[i]) {
      forall i, j | 0 <= i < |entries| && 0 <= j < |entries| && entries[i].eid == entries[j].eid
        ensures entries[i] == entries[j]
      {
        assert Reports(body, entries[i]) && Reports(body, entries[j]);
      }
    }
  }

  predicate Reports(body: map<Eid, Entry>, entry: Entry) {
    entry.eid in body && body[entry.eid] == entry
  }

  // ----- What an envelope produces -----

  /** The ids of the sends that succeeded and are not dead letters. */
  function Produced(sends: seq<Send>): seq<Eid> {
    if sends == [] then []
    else
      var p, last := Produced(sends[..|sends| - 1]), sends[|sends| - 1];
      p + if last.ok && last.topic != DlqTopic then [last.eid] else []
  }

  lemma ProducedOneMore(sends: seq<Send>, x: Send)
    ensures Produced(sends + [x]) == Produced(sends) + if x.ok && x.topic != DlqTopic then [x.eid] else []
  {
    assert (sends + [x])[..|sends|] == sends;
  }

  /** One event produces its id exactly when it is accepted. */
  lemma VerdictProduces(r: Request, e: Event, env: Env, sends: seq<Send>)
    requires !Judge(r, e, env).Abort?
    ensures var v := Judge(r, e, env);
      Produced(sends + v.sends) == Produced(sends) + if Accepted(v.entry) then [v.entry.eid] else []
  {
    var v := Judge(r, e, env);
    if v.sends == [] {
      assert sends + [] == sends;
    } else {
      assert v.sends == [v.sends[0]];
      ProducedOneMore(sends, v.sends[0]);
    }
  }

  /** What an envelope produces, aborted or not, is the ids of its accepted entries, in order. */
  lemma {:induction false} ProducedIsAccepted(r: Request, events: seq<Event>, envs: seq<Env>)
    requires |events| == |envs|
    ensures Produced(Run(r, events, envs).sends) == AcceptedEids(Run(r, events, envs).entries)
  {
    if events != [] {
      var n := |events| - 1;
      var q, v := Run(r, events[..n], envs[..n]), Judge(r, events[n], envs[n]);
      ProducedIsAccepted(r, events[..n], envs[..n]);
      if !q.aborted && v.Verdict? {
        VerdictProduces(r, events[n], envs[n], q.sends);
        PushedEntry(q.entries, v.entry);
      }
    }
  }

  predicate AcceptedAt(entries: seq<Entry>, i: nat, eid: Eid) {
    i < |entries| && entries[i].eid == eid && Accepted(entries[i])
  }

  ghost predicate AcceptedOnce(entries: seq<Entry>, eid: Eid) {
    exists i | 0 <= i < |entries| :: AcceptedAt(entries, i, eid)
  }

  ghost predicate AcceptedTwice(entries: seq<Entry>, eid: Eid) {
    exists i, j | 0 <= i < j < |entries| :: AcceptedAt(entries, i, eid) && AcceptedAt(entries, j, eid)
  }

  lemma AcceptedByLast(entries: seq<Entry>, eid: Eid)
    requires entries != []
    ensures var p, last := entries[..|entries| - 1], AcceptedAt(entries, |entries| - 1, eid);
      && (AcceptedOnce(entries, eid) <==> AcceptedOnce(p, eid) || last)
      && (AcceptedTwice(entries, eid) <==> AcceptedTwice(p, eid) || (AcceptedOnce(p, eid) && last))
  {
    var n := |entries| - 1;
    var p := entries[..n];
    assert forall i: nat | i < n :: AcceptedAt(p, i, eid) <==> AcceptedAt(entries, i, eid);
    if i: nat :| i < |entries| && AcceptedAt(entries, i, eid) {
      assert i < n ==> AcceptedAt(p, i, eid);
    }
    if AcceptedTwice(entries, eid) {
      var i, j :| 0 <= i < j < |entries| && AcceptedAt(entries, i, eid) && AcceptedAt(entries, j, eid);
      assert AcceptedAt(p, i, eid);
      assert j < n ==> AcceptedAt(p, j, eid);
    }
    if AcceptedTwice(p, eid) {
      var i, j :| 0 <= i < j < n && AcceptedAt(p, i, eid) && AcceptedAt(p, j, eid);
      assert AcceptedAt(entries, i, eid) && AcceptedAt(entries, j, eid);
    }
    if i: nat :| i < n && AcceptedAt(p, i, eid) {
      assert AcceptedAt(entries, i, eid);
    }
  }

  lemma CountOneMore(eids: seq<Eid>, more: seq<Eid>, eid: Eid)
    ensures multiset(eids + more)[eid] == multiset(eids)[eid] + multiset(more)[eid]
  {
  }

  lemma {:induction false} AcceptedTwiceMeans(entries: seq<Entry>, eid: Eid)
    ensures multiset(AcceptedEids(entries))[eid] >= 1 <==> AcceptedOnce(entries, eid)
    ensures multiset(AcceptedEids(entries))[eid] >= 2 <==> AcceptedTwice(entries, eid)
  {
    if entries != [] {
      var p, last := entries[..|entries| - 1], entries[|entries| - 1];
      AcceptedTwiceMeans(p, eid);
      AcceptedByLast(entries, eid);
      CountOneMore(AcceptedEids(p), if Accepted(last) then [last.eid] else [], eid);
    }
  }

  /** An id is produced more than once by one envelope exactly when two of its accepted entries share it. */
  lemma ProducedTwiceExactlyWhen(r: Request, events: seq<Event>, envs: seq<Env>, eid: Eid)
    requires |events| == |envs|
    ensures var q := Run(r, events, envs);
      multiset(Produced(q.sends))[eid] >= 2 <==> AcceptedTwice(q.entries, eid)
  {
    ProducedIsAccepted(r, events, envs);
    AcceptedTwiceMeans(Run(r, events, envs).entries, eid);
  }

  /** Nothing stands in the way of the event. */
  predicate Clear(cfg: Config, env: Env) {
    !env.quotaExceeded && !env.restricted && env.serializes && env.bytes <= cfg.maxEventBytes && env.sendOk
  }

  /**
   * Duplicates are looked up before the loop, so a new id repeated inside one envelope is produced each
   * time.
   */
  lemma TwinsAreBothProduced(cfg: Config, f: B.Filters, v: Envelope, at: int, ok: bool)
    requires v.Valid() && |v.events| == 2 && v.events[0].eid == v.events[1].eid
    requires IsValid(v.events[0]) && IsValid(v.events[1]) && Clear(cfg, v.envs[0]) && Clear(cfg, v.envs[1])
    requires !B.IsDuplicate(f, v.events[0].eid, at)
    ensures var q, eid := Run(RequestOf(cfg, f, v, at, ok), v.events, v.envs), v.events[0].eid;
      && !q.aborted && |q.entries| == 2 && Accepted(q.entries[0]) && Accepted(q.entries[1])
      && Produced(q.sends) == [eid, eid]
  {
    var r := RequestOf(cfg, f, v, at, ok);
    ClearIsAccepted(r, v.events[0], v.envs[0]);
    ClearIsAccepted(r, v.events[1], v.envs[1]);
    RunOfTwo(r, v.events, v.envs);
    ProducedIsAccepted(r, v.events, v.envs);
    AcceptedOfTwo(Judge(r, v.events[0], v.envs[0]).entry, Judge(r, v.events[1], v.envs[1]).entry);
  }

  lemma ClearIsAccepted(r: Request, e: Event, env: Env)
    requires IsValid(e) && e.eid !in r.duplicates && Clear(r.cfg, env)
    ensures Judge(r, e, env).Verdict? && Accepted(Judge(r, e, env).entry) && Judge(r, e, env).entry.eid == e.eid
  {
  }

  lemma AcceptedOfTwo(x: Entry, y: Entry)
    requires Accepted(x) && Accepted(y)
    ensures AcceptedEids([x, y]) == [x.eid, y.eid]
  {
    assert [x, y][..1] == [x] && [x][..0] == [];
    assert AcceptedEids([x]) == [x.eid];
  }

  /** When the second send of such an id fails, the body reports the retry and hides that the first was accepted. */
  lemma SecondOutcomeHidesTheFirst(cfg: Config, f: B.Filters, v: Envelope, at: int, ok: bool)
    requires v.Valid() && |v.events| == 2 && v.events[0] == v.events[1]
    requires EntriesOf(cfg, f, v, at, ok) != [] && Accepted(EntriesOf(cfg, f, v, at, ok)[0])
    requires v.envs[1] == v.envs[0].(sendOk := false)
    ensures var q := Run(RequestOf(cfg, f, v, at, ok), v.events, v.envs);
      && |q.entries| == 2 && q.entries[1].outcome == Retry && Produced(q.sends) == [v.events[0].eid]
      && Body(q.entries) == map[v.events[0].eid := q.entries[1]]
  {
    var r := RequestOf(cfg, f, v, at, ok);
    var x, y := Judge(r, v.events[0], v.envs[0]), Judge(r, v.events[1], v.envs[1]);
    OneEntryPerEvent(r, v.events, v.envs);
    FailedCopyRetries(r, v.events[0], v.envs[0]);
    RunOfTwo(r, v.events, v.envs);
    ProducedIsAccepted(r, v.events, v.envs);
    EntriesOfTwo(Progress([], [], false), x, y);
    AcceptedThenNot(x.entry, y.entry);
    BodyOfTwo(x.entry, y.entry);
  }

  lemma EntriesOfTwo(q: Progress, x: Verdict, y: Verdict)
    requires q.entries == [] && !q.aborted && x.Verdict? && y.Verdict?
    ensures Advance(Advance(q, x), y).entries == [x.entry, y.entry]
  {
  }

  lemma AcceptedThenNot(x: Entry, y: Entry)
    requires Accepted(x) && !Accepted(y)
    ensures AcceptedEids([x, y]) == [x.eid]
  {
    assert [x, y][..1] == [x] && [x][..0] == [];
    assert AcceptedEids([x]) == [x.eid];
  }

  lemma FailedCopyRetries(r: Request, e: Event, env: Env)
    requires Judge(r, e, env).Verdict? && Accepted(Judge(r, e, env).entry)
    ensures Judge(r, e, env).entry.eid == e.eid
    ensures Judge(r, e, env.(sendOk := false)).Verdict?
    ensures Judge(r, e, env.(sendOk := false)).entry == Entry(e.eid, Retry, Some("not_persisted"))
  {
  }

  lemma RunOfTwo(r: Request, events: seq<Event>, envs: seq<Env>)
    requires |events| == |envs| == 2
    ensures var first := Advance(Progress([], [], false), Judge(r, events[0], envs[0]));
      Run(r, events, envs) == Advance(first, Judge(r, events[1], envs[1]))
  {
    RunOneMore(r, events, envs, 0);
    RunOneMore(r, events, envs, 1);
    assert events[..2] == events && envs[..2] == envs;
  }

  lemma BodyOfTwo(x: Entry, y: Entry)
    requires x.eid == y.eid
    ensures Body([x, y]) == map[x.eid := y]
  {
    assert [x, y][..1] == [x] && [x][..0] == [];
    assert Body([x]) == map[x.eid := x];
  }
}
