/**
 * The duplicate filter of ingestion: one set of event ids per UTC day, kept for 48 hours after its
 * last write; a check looks at today and yesterday. The probabilistic filter is an exact set here.
 */
module BloomWindow {
  import opened Clock
  import opened Options
  import opened Redis

  type Eid = string

  const KEY_TTL: int := 48 * 60 * 60 * SECOND

  /** `{prefix}:{YYYYMMDD}`, with days counted from the epoch. */
  type Filters = map<int, Timed<set<Eid>>>

  function Day(now: int): int {
    now / DAY
  }

  function WindowKeys(now: int): (int, int) {
    (Day(now), Day(now - DAY))
  }

  function Items(f: Filters, day: int, now: int): set<Eid> {
    match Get(f, day, now)
    case Some(items) => items
    case None => {}
  }

  predicate IsDuplicate(f: Filters, eid: Eid, now: int) {
    var (today, yesterday) := WindowKeys(now);
    eid in Items(f, today, now) || eid in Items(f, yesterday, now)
  }

  /** `BF.INSERT` into today's key, then `EXPIRE`; nothing at all for an empty list. */
  function Record(f: Filters, eids: set<Eid>, now: int): Filters {
    if eids == {} then f
    else f[Day(now) := Timed(Items(f, Day(now), now) + eids, now + KEY_TTL)]
  }

  function Members(eids: seq<Eid>): set<Eid> {
    set e | e in eids
  }

  class Filter {
    var filters: Filters

    constructor ()
      ensures filters == map[]
    {
      filters := map[];
    }

    method CheckBloom(eids: seq<Eid>, now: int) returns (duplicates: set<Eid>)
      ensures forall eid :: eid in duplicates <==> eid in eids && IsDuplicate(filters, eid, now)
    {
      duplicates := {};
      if eids == [] {
        return;
      }
      var today, yesterday := now / DAY, (now - DAY) / DAY;
      // One pipeline round trip: two answers per id.
      var results: seq<bool> := [];
      for i := 0 to |eids|
        invariant |results| == 2 * i
        invariant forall j | 0 <= j < i ::
          results[2 * j] == (eids[j] in Items(filters, today, now)) &&
          results[2 * j + 1] == (eids[j] in Items(filters, yesterday, now))
      {
        results := results + [eids[i] in Items(filters, today, now), eids[i] in Items(filters, yesterday, now)];
      }
      for i := 0 to |eids|
        invariant forall eid :: eid in duplicates <==> eid in eids[..i] && IsDuplicate(filters, eid, now)
      {
        if results[i * 2] || results[i * 2 + 1] {
          duplicates := duplicates + {eids[i]};
        }
        assert eids[..i + 1] == eids[..i] + [eids[i]];
      }
      assert eids[..|eids|] == eids;
    }

    method RecordBloom(eids: seq<Eid>, now: int)
      modifies this
      ensures filters == Record(old(filters), Members(eids), now)
    {
      if eids == [] {
        return;
      }
      var today := now / DAY;
      var items := if today in filters && now < filters[today].deadline then filters[today].value else {};
      assert eids[0] in Members(eids);
      filters := filters[today := Timed(items + Members(eids), now + KEY_TTL)];
    }
  }

  // ----- Runs -----

  datatype Write = Write(eids: set<Eid>, at: int)

  function RecordAll(ws: seq<Write>): Filters {
    if ws == [] then map[] else Record(RecordAll(ws[..|ws| - 1]), ws[|ws| - 1].eids, ws[|ws| - 1].at)
  }

  /** Everything ever written on a given day. */
  function WrittenOn(ws: seq<Write>, day: int): set<Eid> {
    if ws == [] then {}
    else WrittenOn(ws[..|ws| - 1], day) + if Day(ws[|ws| - 1].at) == day then ws[|ws| - 1].eids else {}
  }

  predicate Ordered(ws: seq<Write>, now: int) {
    ws == [] || (ws[|ws| - 1].at <= now && Ordered(ws[..|ws| - 1], ws[|ws| - 1].at))
  }

  /** The key of a day holds all that was written on it and outlives the next day. */
  ghost predicate DayInv(f: Filters, written: set<Eid>, day: int) {
    if written == {} then day !in f
    else day in f && f[day].value == written && (day + 2) * DAY <= f[day].deadline
  }

  lemma {:induction false} EachDayIsKept(ws: seq<Write>, now: int, day: int)
    requires Ordered(ws, now)
    ensures DayInv(RecordAll(ws), WrittenOn(ws, day), day)
  {
    if ws != [] {
      var w := ws[|ws| - 1];
      EachDayIsKept(ws[..|ws| - 1], w.at, day);
      assert Day(w.at) * DAY <= w.at < (Day(w.at) + 1) * DAY;
    }
  }

  lemma DaysFollow(now: int)
    ensures Day(now) * DAY <= now < (Day(now) + 1) * DAY && Day(now - DAY) == Day(now) - 1
  {
  }

  /** Before it can expire, the key of a day shows what was written on it. */
  lemma KeyShowsItsDay(ws: seq<Write>, now: int, day: int)
    requires Ordered(ws, now) && now < (day + 2) * DAY
    ensures Items(RecordAll(ws), day, now) == WrittenOn(ws, day)
  {
    EachDayIsKept(ws, now, day);
  }

  /**
   * Expiry is unobservable: at any moment an id is reported as a duplicate exactly when it was
   * written on the current UTC day or on the one before.
   */
  lemma DuplicateExactlyWhenWrittenTodayOrYesterday(ws: seq<Write>, now: int, eid: Eid)
    requires Ordered(ws, now)
    ensures IsDuplicate(RecordAll(ws), eid, now) <==>
            eid in WrittenOn(ws, Day(now)) || eid in WrittenOn(ws, Day(now) - 1)
  {
    DaysFollow(now);
    KeyShowsItsDay(ws, now, Day(now));
    KeyShowsItsDay(ws, now, Day(now) - 1);
  }

  lemma {:induction false} WritesAreKept(ws: seq<Write>, i: nat, eid: Eid)
    requires i < |ws| && eid in ws[i].eids
    ensures eid in WrittenOn(ws, Day(ws[i].at))
  {
    if i < |ws| - 1 {
      WritesAreKept(ws[..|ws| - 1], i, eid);
    }
  }

  lemma {:induction false} WrittenOnMeans(ws: seq<Write>, day: int, eid: Eid)
    ensures eid in WrittenOn(ws, day) <==> exists i | 0 <= i < |ws| :: eid in ws[i].eids && Day(ws[i].at) == day
  {
    if ws != [] {
      var n := |ws| - 1;
      WrittenOnMeans(ws[..n], day, eid);
      if i :| 0 <= i < n && eid in ws[..n][i].eids && Day(ws[..n][i].at) == day {
        assert eid in ws[i].eids && Day(ws[i].at) == day;
      }
      if i :| 0 <= i < |ws| && eid in ws[i].eids && Day(ws[i].at) == day {
        assert i < n ==> eid in ws[..n][i].eids;
      }
    }
  }

  /** So a written id is recognised through the end of the next day, hence for at least 24 hours. */
  lemma WrittenIdIsRecognisedForADay(ws: seq<Write>, now: int, i: nat, eid: Eid)
    requires Ordered(ws, now) && i < |ws| && eid in ws[i].eids && ws[i].at <= now
    requires now < (Day(ws[i].at) + 2) * DAY
    ensures IsDuplicate(RecordAll(ws), eid, now)
    ensures ws[i].at + DAY <= (Day(ws[i].at) + 2) * DAY
  {
    WritesAreKept(ws, i, eid);
    DuplicateExactlyWhenWrittenTodayOrYesterday(ws, now, eid);
    assert Day(ws[i].at) <= Day(now) <= Day(ws[i].at) + 1;
  }
}
