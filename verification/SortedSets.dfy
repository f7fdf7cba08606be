/**
 * Redis sorted sets against the history that filled them.
 *
 * A window keeps, per member, its last score, and forgets what is old enough. `View` is what the
 * whole history shows above a cutoff; the lemmas carry it through the commands and into counts.
 */
module SortedSets {
  datatype Hit<M> = Hit(member: M, at: int)

  // ----- Commands -----

  /** `ZREMRANGEBYSCORE key -inf cutoff`. */
  function RemoveUpTo<M(!new)>(z: map<M, int>, cutoff: int): map<M, int> {
    map m | m in z && cutoff < z[m] :: z[m]
  }

  /** The members `ZRANGEBYSCORE key from +inf` returns. */
  function RangeFrom<M(!new)>(z: map<M, int>, from: int): set<M> {
    set m | m in z && from <= z[m]
  }

  /** `ZCOUNT key from +inf`. */
  function CountFrom<M(!new)>(z: map<M, int>, from: int): nat {
    |RangeFrom(z, from)|
  }

  // ----- Histories -----

  /** The members hit later than `cutoff`. */
  ghost function MembersAfter<M(!new)>(h: seq<Hit<M>>, cutoff: int): set<M> {
    set i | 0 <= i < |h| && cutoff < h[i].at :: h[i].member
  }

  /** The members hit in `(lo, hi]`. */
  ghost function MembersWithin<M(!new)>(h: seq<Hit<M>>, lo: int, hi: int): set<M> {
    set i | 0 <= i < |h| && lo < h[i].at <= hi :: h[i].member
  }

  /** How many hits lie in `(lo, hi]`. */
  function CountWithin<M>(h: seq<Hit<M>>, lo: int, hi: int): nat {
    if h == [] then 0
    else CountWithin(h[..|h| - 1], lo, hi) + if lo < h[|h| - 1].at <= hi then 1 else 0
  }

  /** The members hit after `cutoff`, each with its latest hit. */
  function View<M>(h: seq<Hit<M>>, cutoff: int): map<M, int> {
    if h == [] then map[]
    else
      var p, x := View(h[..|h| - 1], cutoff), h[|h| - 1];
      if cutoff < x.at then p[x.member := x.at] else p
  }

  ghost predicate Ascending<M>(h: seq<Hit<M>>) {
    forall i, j | 0 <= i < j < |h| :: h[i].at <= h[j].at
  }

  ghost predicate UpTo<M>(h: seq<Hit<M>>, now: int) {
    forall i | 0 <= i < |h| :: h[i].at <= now
  }

  /** No member is hit twice after `cutoff`. */
  ghost predicate DistinctAfter<M>(h: seq<Hit<M>>, cutoff: int) {
    forall i, j | 0 <= i < j < |h| && cutoff < h[i].at && cutoff < h[j].at :: h[i].member != h[j].member
  }

  lemma MembersAfterLast<M(!new)>(h: seq<Hit<M>>, cutoff: int)
    requires h != []
    ensures MembersAfter(h, cutoff) ==
            MembersAfter(h[..|h| - 1], cutoff) + if cutoff < h[|h| - 1].at then {h[|h| - 1].member} else {}
  {
    var p, x := h[..|h| - 1], h[|h| - 1];
    forall m | m in MembersAfter(h, cutoff)
      ensures m in MembersAfter(p, cutoff) || (cutoff < x.at && m == x.member)
    {
      var i :| 0 <= i < |h| && cutoff < h[i].at && h[i].member == m;
      if i < |p| {
        assert p[i] == h[i];
      }
    }
    forall m | m in MembersAfter(p, cutoff) ensures m in MembersAfter(h, cutoff) {
      var i :| 0 <= i < |p| && cutoff < p[i].at && p[i].member == m;
      assert h[i] == p[i];
    }
  }

  lemma MembersWithinLast<M(!new)>(p: seq<Hit<M>>, x: Hit<M>, lo: int, hi: int)
    ensures MembersWithin(p + [x], lo, hi) == MembersWithin(p, lo, hi) + if lo < x.at <= hi then {x.member} else {}
  {
    var h := p + [x];
    forall m | m in MembersWithin(p, lo, hi) ensures m in MembersWithin(h, lo, hi) {
      var i :| 0 <= i < |p| && lo < p[i].at <= hi && p[i].member == m;
      assert h[i] == p[i];
    }
    if lo < x.at <= hi {
      assert h[|p|] == x;
    }
  }

  lemma DistinctAfterLast<M(!new)>(h: seq<Hit<M>>, cutoff: int)
    requires h != [] && DistinctAfter(h, cutoff)
    ensures var p, x := h[..|h| - 1], h[|h| - 1];
      DistinctAfter(p, cutoff) && (cutoff < x.at ==> x.member !in MembersAfter(p, cutoff))
  {
    var n := |h| - 1;
    var p := h[..n];
    forall i, j | 0 <= i < j < n && cutoff < p[i].at && cutoff < p[j].at ensures p[i].member != p[j].member {
      assert h[i] == p[i] && h[j] == p[j];
    }
    forall i | 0 <= i < n && cutoff < p[i].at && cutoff < h[n].at ensures p[i].member != h[n].member {
      assert h[i] == p[i];
    }
  }

  // ----- The view through the commands -----

  lemma {:induction false} ViewKeys<M(!new)>(h: seq<Hit<M>>, cutoff: int)
    ensures View(h, cutoff).Keys == MembersAfter(h, cutoff)
    ensures |View(h, cutoff)| == |MembersAfter(h, cutoff)|
  {
    if h != [] {
      ViewKeys(h[..|h| - 1], cutoff);
      MembersAfterLast(h, cutoff);
    }
  }

  /** An expired key shows the history as long as every hit is old by then. */
  lemma {:induction false} ViewOfOld<M>(h: seq<Hit<M>>, cutoff: int)
    requires UpTo(h, cutoff)
    ensures View(h, cutoff) == map[]
  {
    if h != [] {
      ViewOfOld(h[..|h| - 1], cutoff);
    }
  }

  lemma ViewAfterAdd<M>(h: seq<Hit<M>>, cutoff: int, x: Hit<M>)
    requires cutoff < x.at
    ensures View(h + [x], cutoff) == View(h, cutoff)[x.member := x.at]
  {
    assert (h + [x])[..|h|] == h;
  }

  lemma {:induction false} ViewUpTo<M>(h: seq<Hit<M>>, cutoff: int, now: int)
    requires UpTo(h, now)
    ensures forall m | m in View(h, cutoff) :: cutoff < View(h, cutoff)[m] <= now
  {
    if h != [] {
      ViewUpTo(h[..|h| - 1], cutoff, now);
    }
  }

  /** Trimming the view gives the view at the later cutoff. */
  lemma {:induction false} TrimOfView<M(!new)>(h: seq<Hit<M>>, cutoff: int, cutoff': int)
    requires Ascending(h) && cutoff <= cutoff'
    ensures RemoveUpTo(View(h, cutoff), cutoff') == View(h, cutoff')
  {
    if h == [] {
      assert RemoveUpTo<M>(map[], cutoff') == map[];
    } else {
      var p, x := h[..|h| - 1], h[|h| - 1];
      TrimOfView(p, cutoff, cutoff');
      if cutoff' < x.at {
        assert RemoveUpTo(View(h, cutoff), cutoff') == RemoveUpTo(View(p, cutoff), cutoff')[x.member := x.at];
      } else {
        assert UpTo(h, cutoff');
        ViewOfOld(h, cutoff');
        ViewUpTo(h, cutoff, cutoff');
        assert RemoveUpTo(View(h, cutoff), cutoff') == map[];
      }
    }
  }

  /** What a range query returns is what the history says, above the cutoff. */
  lemma RangeOfView<M(!new)>(h: seq<Hit<M>>, cutoff: int, from: int)
    requires Ascending(h) && cutoff < from
    ensures RangeFrom(View(h, cutoff), from) == MembersAfter(h, from - 1)
  {
    TrimOfView(h, cutoff, from - 1);
    ViewKeys(h, from - 1);
    assert RangeFrom(View(h, cutoff), from) == RemoveUpTo(View(h, cutoff), from - 1).Keys;
  }

  /** Without repeated members, hits are counted by their members. */
  lemma {:induction false} DistinctHitsAreTheirMembers<M(!new)>(h: seq<Hit<M>>, lo: int, hi: int)
    requires DistinctAfter(h, lo)
    ensures CountWithin(h, lo, hi) == |MembersWithin(h, lo, hi)|
  {
    if h == [] {
      assert MembersWithin(h, lo, hi) == {};
    } else {
      var n := |h| - 1;
      var p, x := h[..n], h[n];
      DistinctAfterLast(h, lo);
      DistinctHitsAreTheirMembers(p, lo, hi);
      MembersWithinLast(p, x, lo, hi);
      assert p + [x] == h;
      assert MembersWithin(p, lo, hi) <= MembersAfter(p, lo);
    }
  }

  lemma DistinctPastIsItsMembers<M(!new)>(h: seq<Hit<M>>, lo: int, now: int)
    requires UpTo(h, now) && DistinctAfter(h, lo)
    ensures CountWithin(h, lo, now) == |MembersAfter(h, lo)|
  {
    DistinctHitsAreTheirMembers(h, lo, now);
    assert MembersWithin(h, lo, now) == MembersAfter(h, lo);
  }

  // ----- Keys that expire -----

  /** A sorted set under a key; an expired key reads as empty. */
  datatype Zset<!M> = Zset(scores: map<M, int>, deadline: int)

  function NoKey<M>(): Zset<M> {
    Zset(map[], 0)
  }

  function LiveScores<M>(z: Zset<M>, now: int): map<M, int> {
    if now < z.deadline then z.scores else map[]
  }

  /** `ZADD`, `EXPIRE`, `ZREMRANGEBYSCORE`, in this order. */
  function Touch<M(!new)>(z: Zset<M>, x: Hit<M>, ttl: int, trim: int): Zset<M> {
    Zset(RemoveUpTo(LiveScores(z, x.at)[x.member := x.at], trim), x.at + ttl)
  }

  /** The key was filled by touches at the hits of `h`, none trimming closer than `ttl`. */
  ghost predicate Tracks<M(!new)>(z: Zset<M>, h: seq<Hit<M>>, ttl: int) {
    if h == [] then z == NoKey()
    else
      var last := h[|h| - 1].at;
      && Ascending(h)
      && z.deadline == last + ttl
      && RemoveUpTo(z.scores, last - ttl) == View(h, last - ttl)
  }

  lemma TouchTracks<M(!new)>(z: Zset<M>, h: seq<Hit<M>>, x: Hit<M>, ttl: int, trim: int)
    requires Tracks(z, h, ttl) && UpTo(h, x.at) && 0 < ttl && trim <= x.at - ttl
    ensures Tracks(Touch(z, x, ttl, trim), h + [x], ttl)
  {
    var cut := x.at - ttl;
    LiveShows(z, h, ttl, x.at);
    ViewAfterAdd(h, cut, x);
    assert RemoveUpTo(Touch(z, x, ttl, trim).scores, cut) == RemoveUpTo(LiveScores(z, x.at), cut)[x.member := x.at];
  }

  /** Live or expired, above `now - ttl` the key shows the history. */
  lemma LiveShows<M(!new)>(z: Zset<M>, h: seq<Hit<M>>, ttl: int, now: int)
    requires Tracks(z, h, ttl) && UpTo(h, now)
    ensures RemoveUpTo(LiveScores(z, now), now - ttl) == View(h, now - ttl)
  {
    if h != [] && now < z.deadline {
      var cut := h[|h| - 1].at - ttl;
      TrimOfView(h, cut, now - ttl);
      assert RemoveUpTo(RemoveUpTo(z.scores, cut), now - ttl) == RemoveUpTo(z.scores, now - ttl);
    } else {
      ViewOfOld(h, now - ttl);
      assert RemoveUpTo(LiveScores(z, now), now - ttl) == map[];
    }
  }

  /** A range query that reaches back less than `ttl` sees exactly the history. */
  lemma TrackedRange<M(!new)>(z: Zset<M>, h: seq<Hit<M>>, ttl: int, now: int, from: int)
    requires Tracks(z, h, ttl) && UpTo(h, now) && now - ttl < from
    ensures RangeFrom(LiveScores(z, now), from) == MembersAfter(h, from - 1)
  {
    LiveShows(z, h, ttl, now);
    if h != [] {
      RangeOfView(h, now - ttl, from);
    }
    assert RangeFrom(LiveScores(z, now), from) == RangeFrom(RemoveUpTo(LiveScores(z, now), now - ttl), from);
  }
}
