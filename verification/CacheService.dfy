/**
 * The multi-level cache. A level is a map that may lose entries at any time; a level that is not
 * enabled is skipped, and one that throws during a call is passed over.
 */
module CacheService {
  import opened Options

  /** What a caller passes to `set`. */
  datatype Data<+V> = Undefined | Null | Val(v: V) {
    function Stored(): Option<V> {
      if Val? then Some(v) else None
    }
  }

  /** A level; `None` in its store is a stored `null`. */
  datatype Level<+V> = Level(enabled: bool, store: map<string, Option<V>>)

  const MAX_KEY: nat := 512

  predicate IsValidKey(key: string) {
    key != "" && |key| <= MAX_KEY
  }

  /** A level answers `null` for a key it does not hold, and for a stored `null`. */
  function LevelGet<V>(l: Level<V>, key: string): Option<V> {
    if key in l.store then l.store[key] else None
  }

  /** A level answers a call when it is enabled and does not throw. */
  predicate Answers<V>(ls: seq<Level<V>>, throwing: set<nat>, i: nat)
    requires i < |ls|
  {
    ls[i].enabled && i !in throwing
  }

  predicate Holds<V>(ls: seq<Level<V>>, throwing: set<nat>, i: nat, key: string)
    requires i < |ls|
  {
    Answers(ls, throwing, i) && LevelGet(ls[i], key).Some?
  }

  /** The simple definition of a read: the first value in level order. */
  function Lookup<V>(ls: seq<Level<V>>, throwing: set<nat>, key: string): Option<V> {
    if ls == [] then None
    else
      var n := |ls| - 1;
      var before := Lookup(ls[..n], throwing, key);
      if before.None? && Answers(ls, throwing, n) then LevelGet(ls[n], key) else before
  }

  lemma {:induction false} LookupIsFirstHolder<V>(ls: seq<Level<V>>, throwing: set<nat>, key: string)
    ensures Lookup(ls, throwing, key) == None <==> forall i | 0 <= i < |ls| :: !Holds(ls, throwing, i, key)
    ensures forall i | 0 <= i < |ls| && FirstHolder(ls, throwing, i, key) ::
              Lookup(ls, throwing, key) == LevelGet(ls[i], key)
  {
    if ls != [] {
      var n := |ls| - 1;
      var p := ls[..n];
      LookupIsFirstHolder(p, throwing, key);
      assert forall i | 0 <= i < n :: Holds(p, throwing, i, key) == Holds(ls, throwing, i, key) && p[i] == ls[i];
      assert forall i | 0 <= i < n :: FirstHolder(p, throwing, i, key) == FirstHolder(ls, throwing, i, key);
      if Holds(ls, throwing, n, key) {
        assert exists i | 0 <= i < |ls| :: Holds(ls, throwing, i, key);
      }
    }
  }

  ghost predicate FirstHolder<V>(ls: seq<Level<V>>, throwing: set<nat>, i: nat, key: string)
    requires i < |ls|
  {
    Holds(ls, throwing, i, key) && forall j | 0 <= j < i :: !Holds(ls, throwing, j, key)
  }

  // ----- Writes -----

  /** The entries a write takes: those with a valid key and a defined value. */
  function Accepted<V>(entries: map<string, Data<V>>): map<string, Option<V>> {
    map k | k in entries && IsValidKey(k) && entries[k] != Undefined :: entries[k].Stored()
  }

  function Write<V>(l: Level<V>, updates: map<string, Option<V>>): Level<V> {
    l.(store := l.store + updates)
  }

  function Erase<V>(l: Level<V>, key: string): Level<V> {
    l.(store := l.store - {key})
  }

  function WriteAll<V>(ls: seq<Level<V>>, throwing: set<nat>, updates: map<string, Option<V>>): seq<Level<V>> {
    seq(|ls|, i requires 0 <= i < |ls| => if Answers(ls, throwing, i) then Write(ls[i], updates) else ls[i])
  }

  function EraseAll<V>(ls: seq<Level<V>>, throwing: set<nat>, key: string): seq<Level<V>> {
    seq(|ls|, i requires 0 <= i < |ls| => if Answers(ls, throwing, i) then Erase(ls[i], key) else ls[i])
  }

  // ----- Runs -----

  /** What can happen to the levels: three calls, and a level losing an entry. */
  datatype Op<V> =
    | Set(key: string, data: Data<V>)
    | MSet(entries: map<string, Data<V>>)
    | Invalidate(key: string)
    | Evict(level: nat, key: string)

  function Step<V>(ls: seq<Level<V>>, op: Op<V>): seq<Level<V>> {
    match op
    case Set(key, data) => WriteAll(ls, {}, Accepted(map[key := data]))
    case MSet(entries) => WriteAll(ls, {}, Accepted(entries))
    case Invalidate(key) => if IsValidKey(key) then EraseAll(ls, {}, key) else ls
    case Evict(i, key) => if i < |ls| then ls[i := Erase(ls[i], key)] else ls
  }

  function After<V>(ls: seq<Level<V>>, ops: seq<Op<V>>): seq<Level<V>> {
    if ops == [] then ls else Step(After(ls, ops[..|ops| - 1]), ops[|ops| - 1])
  }

  /** The single map the levels stand for: the last value set for each key since its last invalidation. */
  function Current<V>(ops: seq<Op<V>>): map<string, Option<V>> {
    if ops == [] then map[]
    else
      var m := Current(ops[..|ops| - 1]);
      match ops[|ops| - 1]
      case Set(key, data) => m + Accepted(map[key := data])
      case MSet(entries) => m + Accepted(entries)
      case Invalidate(key) => if IsValidKey(key) then m - {key} else m
      case Evict(_, _) => m
  }

  /** Whatever an enabled level holds is what the map holds. */
  ghost predicate Agrees<V>(ls: seq<Level<V>>, m: map<string, Option<V>>) {
    forall i, key | 0 <= i < |ls| && ls[i].enabled && key in ls[i].store :: key in m && ls[i].store[key] == m[key]
  }

  lemma WriteAgrees<V>(ls: seq<Level<V>>, m: map<string, Option<V>>, updates: map<string, Option<V>>)
    requires Agrees(ls, m)
    ensures Agrees(WriteAll(ls, {}, updates), m + updates)
  {
    var after := WriteAll(ls, {}, updates);
    forall i, key | 0 <= i < |after| && after[i].enabled && key in after[i].store
      ensures key in m + updates && after[i].store[key] == (m + updates)[key]
    {
      assert after[i] == Write(ls[i], updates);
    }
  }

  lemma EraseAgrees<V>(ls: seq<Level<V>>, m: map<string, Option<V>>, gone: string)
    requires Agrees(ls, m)
    ensures Agrees(EraseAll(ls, {}, gone), m - {gone})
  {
    var after := EraseAll(ls, {}, gone);
    forall i, key | 0 <= i < |after| && after[i].enabled && key in after[i].store
      ensures key in m - {gone} && after[i].store[key] == (m - {gone})[key]
    {
      assert after[i] == Erase(ls[i], gone);
    }
  }

  lemma EvictionAgrees<V>(ls: seq<Level<V>>, m: map<string, Option<V>>, n: nat, gone: string)
    requires Agrees(ls, m) && n < |ls|
    ensures Agrees(ls[n := Erase(ls[n], gone)], m)
  {
    var after := ls[n := Erase(ls[n], gone)];
    forall i, key | 0 <= i < |after| && after[i].enabled && key in after[i].store
      ensures key in m && after[i].store[key] == m[key]
    {
      assert ls[i].enabled && key in ls[i].store;
    }
  }

  lemma {:induction false} LevelsAgreeWithOneMap<V>(ls: seq<Level<V>>, ops: seq<Op<V>>)
    requires Agrees(ls, map[])
    ensures Agrees(After(ls, ops), Current(ops)) && |After(ls, ops)| == |ls|
  {
    if ops != [] {
      var p := ops[..|ops| - 1];
      LevelsAgreeWithOneMap(ls, p);
      match ops[|ops| - 1]
      case Set(key, data) => WriteAgrees(After(ls, p), Current(p), Accepted(map[key := data]));
      case MSet(entries) => WriteAgrees(After(ls, p), Current(p), Accepted(entries));
      case Invalidate(key) => EraseAgrees(After(ls, p), Current(p), key);
      case Evict(n, key) => if n < |ls| { EvictionAgrees(After(ls, p), Current(p), n, key); }
    }
  }

  /**
   * Over every run with evictions anywhere, enabled levels that hold a key hold the same value, and a
   * read, whichever levels fail it, is a miss or the last value set since the last invalidation.
   */
  lemma GetIsAMissOrTheCurrentValue<V>(ls: seq<Level<V>>, ops: seq<Op<V>>, throwing: set<nat>, key: string)
    requires Agrees(ls, map[])
    ensures var r := Lookup(After(ls, ops), throwing, key); r == None || (key in Current(ops) && r == Current(ops)[key])
    ensures forall i, j | 0 <= i < |ls| && 0 <= j < |ls| ::
              |After(ls, ops)| == |ls| && (HoldsKey(After(ls, ops)[i], key) && HoldsKey(After(ls, ops)[j], key) ==>
                After(ls, ops)[i].store[key] == After(ls, ops)[j].store[key])
  {
    var after := After(ls, ops);
    LevelsAgreeWithOneMap(ls, ops);
    ReadAgrees(after, Current(ops), throwing, key);
    forall i, j | 0 <= i < |ls| && 0 <= j < |ls|
      ensures |after| == |ls| && (HoldsKey(after[i], key) && HoldsKey(after[j], key) ==>
                after[i].store[key] == after[j].store[key])
    {
      HolderAgrees(after, Current(ops), i, key);
      HolderAgrees(after, Current(ops), j, key);
    }
  }

  lemma HolderAgrees<V>(ls: seq<Level<V>>, m: map<string, Option<V>>, i: nat, key: string)
    requires Agrees(ls, m) && i < |ls|
    ensures HoldsKey(ls[i], key) ==> key in m && ls[i].store[key] == m[key]
  {
  }

  predicate HoldsKey<V>(l: Level<V>, key: string) {
    l.enabled && key in l.store
  }

  lemma {:induction false} ReadAgrees<V>(ls: seq<Level<V>>, m: map<string, Option<V>>, throwing: set<nat>, key: string)
    requires Agrees(ls, m)
    ensures var r := Lookup(ls, throwing, key); r == None || (key in m && r == m[key])
  {
    if ls != [] {
      var n := |ls| - 1;
      assert Agrees(ls[..n], m) by {
        assert forall i | 0 <= i < n :: ls[..n][i] == ls[i];
      }
      ReadAgrees(ls[..n], m, throwing, key);
      if Holds(ls, throwing, n, key) {
        assert ls[n].enabled && key in ls[n].store;
      }
    }
  }

  /** A write that some levels fail keeps the levels in agreement exactly when no failing level holds another value. */
  lemma FailedWriteDisagreesExactlyWhen<V>(
    ls: seq<Level<V>>, m: map<string, Option<V>>, throwing: set<nat>, updates: map<string, Option<V>>)
    requires Agrees(ls, m)
    ensures Agrees(WriteAll(ls, throwing, updates), m + updates) <==>
            forall i, key | 0 <= i < |ls| && i in throwing && HoldsKey(ls[i], key) && key in updates ::
              ls[i].store[key] == updates[key]
  {
    var after := WriteAll(ls, throwing, updates);
    assert forall i | 0 <= i < |ls| && !Answers(ls, throwing, i) :: after[i] == ls[i];
    if Agrees(after, m + updates) {
      forall i, key | 0 <= i < |ls| && i in throwing && HoldsKey(ls[i], key) && key in updates
        ensures ls[i].store[key] == updates[key]
      {
        assert after[i] == ls[i] && after[i].enabled && key in after[i].store;
        assert after[i].store[key] == (m + updates)[key] == updates[key];
      }
    }
  }

  /**
   * The read after a set that some levels fail returns the new value exactly when some level stored it
   * and every enabled level before that one that failed has no value or the same one.
   */
  lemma ReadAfterFailedSetIsFreshExactlyWhen<V>(ls: seq<Level<V>>, throwing: set<nat>, key: string, v: V)
    ensures Lookup(WriteAll(ls, throwing, map[key := Some(v)]), {}, key) == Some(v) <==>
            exists i | 0 <= i < |ls| :: FreshAt(ls, throwing, key, v, i)
  {
    var after := WriteAll(ls, throwing, map[key := Some(v)]);
    LookupIsFirstHolder(after, {}, key);
    forall i | 0 <= i < |ls|
      ensures Holds(after, {}, i, key) <==> Answers(ls, throwing, i) || Holds(ls, {}, i, key)
      ensures Holds(after, {}, i, key) ==>
                LevelGet(after[i], key) == if Answers(ls, throwing, i) then Some(v) else LevelGet(ls[i], key)
    {
    }
    if i :| 0 <= i < |ls| && FreshAt(ls, throwing, key, v, i) {
      assert Holds(after, {}, i, key) && LevelGet(after[i], key) == Some(v);
      assert FirstHolder(after, {}, i, key);
    }
    if Lookup(after, {}, key) == Some(v) {
      var i := LeastHolder(after, key, |after|);
      assert FreshAt(ls, throwing, key, v, i);
    }
  }

  /** An invalidation that some levels fail keeps the agreement exactly when no failing level holds the key. */
  lemma FailedInvalidateDisagreesExactlyWhen<V>(
    ls: seq<Level<V>>, m: map<string, Option<V>>, throwing: set<nat>, gone: string)
    requires Agrees(ls, m)
    ensures Agrees(EraseAll(ls, throwing, gone), m - {gone}) <==>
            forall i | 0 <= i < |ls| && i in throwing :: !HoldsKey(ls[i], gone)
  {
    var after := EraseAll(ls, throwing, gone);
    assert forall i | 0 <= i < |ls| && !Answers(ls, throwing, i) :: after[i] == ls[i];
    if Agrees(after, m - {gone}) {
      forall i | 0 <= i < |ls| && i in throwing ensures !HoldsKey(ls[i], gone) {
        assert after[i] == ls[i];
        assert after[i].enabled && gone in after[i].store ==> gone in m - {gone};
      }
    }
  }

  /** The read after such an invalidation is a miss exactly when no level that failed it has a value. */
  lemma ReadAfterFailedInvalidateMissesExactlyWhen<V>(ls: seq<Level<V>>, throwing: set<nat>, key: string)
    ensures Lookup(EraseAll(ls, throwing, key), {}, key) == None <==>
            forall i | 0 <= i < |ls| && i in throwing :: !Holds(ls, {}, i, key)
  {
    var after := EraseAll(ls, throwing, key);
    LookupIsFirstHolder(after, {}, key);
    forall i | 0 <= i < |ls| ensures Holds(after, {}, i, key) <==> i in throwing && Holds(ls, {}, i, key) {
    }
  }

  /** After the set, level `i` has the value and no enabled level before it has any. */
  ghost predicate FreshAt<V>(ls: seq<Level<V>>, throwing: set<nat>, key: string, v: V, i: nat)
    requires i < |ls|
  {
    && (Answers(ls, throwing, i) || (ls[i].enabled && LevelGet(ls[i], key) == Some(v)))
    && forall j | 0 <= j < i && ls[j].enabled :: j in throwing && LevelGet(ls[j], key) == None
  }

  lemma {:induction false} LeastHolder<V>(ls: seq<Level<V>>, key: string, n: nat) returns (i: nat)
    requires n <= |ls| && exists j | 0 <= j < n :: Holds(ls, {}, j, key)
    ensures i < n && FirstHolder(ls, {}, i, key)
  {
    i := n - 1;
    if exists j | 0 <= j < n - 1 :: Holds(ls, {}, j, key) {
      i := LeastHolder(ls, key, n - 1);
    }
  }

  // ----- Batch reads -----

  function ValidKeys(keys: seq<string>): seq<string> {
    if keys == [] then []
    else ValidKeys(keys[..|keys| - 1]) + if IsValidKey(keys[|keys| - 1]) then [keys[|keys| - 1]] else []
  }

  /** One result per key asked for exactly when all the keys are valid; otherwise there are fewer. */
  lemma {:induction false} ResultsLineUpExactlyWhenKeysAreValid(keys: seq<string>)
    ensures |ValidKeys(keys)| <= |keys|
    ensures |ValidKeys(keys)| == |keys| <==> forall i | 0 <= i < |keys| :: IsValidKey(keys[i])
    ensures |ValidKeys(keys)| == |keys| ==> ValidKeys(keys) == keys
  {
    if keys != [] {
      var p := keys[..|keys| - 1];
      ResultsLineUpExactlyWhenKeysAreValid(p);
      assert keys == p + [keys[|keys| - 1]];
    }
  }

  function LookupEach<V>(ls: seq<Level<V>>, throwing: set<nat>, keys: seq<string>): seq<Option<V>> {
    seq(|keys|, i requires 0 <= i < |keys| => Lookup(ls, throwing, keys[i]))
  }

  /** The places below `n` whose keys the given levels do not have, in order. */
  function Missing<V>(ls: seq<Level<V>>, throwing: set<nat>, keys: seq<string>, n: nat): (r: seq<nat>)
    requires n <= |keys|
    ensures forall k | 0 <= k < |r| :: r[k] < n
    decreases n
  {
    if n == 0 then []
    else Missing(ls, throwing, keys, n - 1) + if Lookup(ls, throwing, keys[n - 1]).None? then [n - 1] else []
  }

  lemma {:induction false} MissingMeans<V>(ls: seq<Level<V>>, throwing: set<nat>, keys: seq<string>, n: nat)
    requires n <= |keys|
    ensures forall i: nat :: i in Missing(ls, throwing, keys, n) <==> i < n && Lookup(ls, throwing, keys[i]).None?
    ensures Increasing(Missing(ls, throwing, keys, n))
    decreases n
  {
    if n > 0 {
      MissingMeans(ls, throwing, keys, n - 1);
      PlaceAdded(Missing(ls, throwing, keys, n - 1), n - 1);
    }
  }

  lemma PlaceAdded(p: seq<nat>, last: nat)
    requires Increasing(p) && forall k | 0 <= k < |p| :: p[k] < last
    ensures Increasing(p + [last]) && p + [] == p
    ensures forall i: nat :: i in p + [last] <==> i in p || i == last
  {
    assert (p + [last])[|p|] == last;
  }

  predicate Increasing(places: seq<nat>) {
    forall a, b | 0 <= a < b < |places| :: places[a] < places[b]
  }

  function KeysAt(keys: seq<string>, places: seq<nat>): seq<string>
    requires forall k | 0 <= k < |places| :: places[k] < |keys|
  {
    seq(|places|, k requires 0 <= k < |places| => keys[places[k]])
  }

  /** What each level is asked for: the keys the levels before it lacked, until none is missing. */
  function Asked<V>(ls: seq<Level<V>>, throwing: set<nat>, keys: seq<string>): seq<(nat, seq<string>)> {
    if ls == [] then []
    else
      var n := |ls| - 1;
      Asked(ls[..n], throwing, keys) + AskedOf(ls[n], n, keys, Missing(ls[..n], throwing, keys, |keys|))
  }

  function AskedOf<V>(l: Level<V>, n: nat, keys: seq<string>, missing: seq<nat>): seq<(nat, seq<string>)>
    requires forall k | 0 <= k < |missing| :: missing[k] < |keys|
  {
    if missing != [] && l.enabled then [(n, KeysAt(keys, missing))] else []
  }

  /** The places still missing after a level answered `found` for them. */
  function NotFound<V>(missing: seq<nat>, found: seq<Option<V>>): seq<nat>
    requires |missing| == |found|
  {
    if missing == [] then []
    else
      var n := |missing| - 1;
      NotFound(missing[..n], found[..n]) + if found[n].Some? then [] else [missing[n]]
  }

  /** Where the batch read stands before level `c`. */
  ghost predicate ReadTo<V>(ls: seq<Level<V>>, throwing: set<nat>, keys: seq<string>, c: nat, missing: seq<nat>,
                            results: seq<Option<V>>, asked: seq<(nat, seq<string>)>) {
    && c <= |ls|
    && missing == Missing(ls[..c], throwing, keys, |keys|)
    && results == LookupEach(ls[..c], throwing, keys)
    && asked == Asked(ls[..c], throwing, keys)
  }

  /** What a read has after level `c`, given what it had before. */
  function AskNext<V>(ls: seq<Level<V>>, throwing: set<nat>, key: string, c: nat, before: Option<V>): Option<V>
    requires c < |ls|
  {
    if before.None? && Answers(ls, throwing, c) then LevelGet(ls[c], key) else before
  }

  lemma OneMoreLookup<V>(ls: seq<Level<V>>, throwing: set<nat>, key: string, c: nat)
    requires c < |ls|
    ensures var before := Lookup(ls[..c], throwing, key);
            Lookup(ls[..c + 1], throwing, key) == AskNext(ls, throwing, key, c, before)
  {
    assert ls[..c + 1][..c] == ls[..c];
  }

  lemma OneMoreLevel<V>(ls: seq<Level<V>>, throwing: set<nat>, keys: seq<string>, c: nat)
    requires c < |ls|
    ensures var before := Missing(ls[..c], throwing, keys, |keys|);
            Asked(ls[..c + 1], throwing, keys) == Asked(ls[..c], throwing, keys) + AskedOf(ls[c], c, keys, before)
    ensures forall key :: Lookup(ls[..c + 1], throwing, key) ==
              AskNext(ls, throwing, key, c, Lookup(ls[..c], throwing, key))
  {
    assert ls[..c + 1][..c] == ls[..c];
  }

  /** A level that finds nothing new leaves the same places missing. */
  lemma {:induction false} SameLookupsSameMissing<V>(
    ls: seq<Level<V>>, ms: seq<Level<V>>, throwing: set<nat>, keys: seq<string>, n: nat)
    requires n <= |keys| && LookupEach(ls, throwing, keys) == LookupEach(ms, throwing, keys)
    ensures Missing(ls, throwing, keys, n) == Missing(ms, throwing, keys, n)
    decreases n
  {
    if n > 0 {
      assert LookupEach(ls, throwing, keys)[n - 1] == LookupEach(ms, throwing, keys)[n - 1];
      SameLookupsSameMissing(ls, ms, throwing, keys, n - 1);
    }
  }

  lemma SilentLevel<V>(ls: seq<Level<V>>, throwing: set<nat>, keys: seq<string>, c: nat, missing: seq<nat>,
                       results: seq<Option<V>>, asked: seq<(nat, seq<string>)>)
    requires ReadTo(ls, throwing, keys, c, missing, results, asked) && c < |ls| && !Answers(ls, throwing, c)
    ensures ReadTo(ls, throwing, keys, c + 1, missing, results, asked + AskedOf(ls[c], c, keys, missing))
  {
    OneMoreLevel(ls, throwing, keys, c);
    assert LookupEach(ls[..c + 1], throwing, keys) == LookupEach(ls[..c], throwing, keys);
    SameLookupsSameMissing(ls[..c + 1], ls[..c], throwing, keys, |keys|);
  }

  lemma NothingLeft<V>(ls: seq<Level<V>>, throwing: set<nat>, keys: seq<string>, c: nat,
                       results: seq<Option<V>>, asked: seq<(nat, seq<string>)>)
    requires ReadTo(ls, throwing, keys, c, [], results, asked)
    ensures ReadTo(ls, throwing, keys, |ls|, [], results, asked)
    decreases |ls| - c
  {
    if c < |ls| {
      OneMoreLevel(ls, throwing, keys, c);
      MissingMeans(ls[..c], throwing, keys, |keys|);
      assert forall i: nat :: i !in Missing(ls[..c], throwing, keys, |keys|);
      assert LookupEach(ls[..c + 1], throwing, keys) == LookupEach(ls[..c], throwing, keys);
      SameLookupsSameMissing(ls[..c + 1], ls[..c], throwing, keys, |keys|);
      NothingLeft(ls, throwing, keys, c + 1, results, asked);
    }
  }

  /** What a level did not find is what remains missing with it. */
  lemma {:induction false} NotFoundIsMissing<V>(
    ls: seq<Level<V>>, throwing: set<nat>, keys: seq<string>, c: nat, missing: seq<nat>, found: seq<Option<V>>, n: nat)
    requires c < |ls| && Answers(ls, throwing, c) && n <= |keys|
    requires missing == Missing(ls[..c], throwing, keys, n) && |found| == |missing|
    requires forall k | 0 <= k < |missing| :: found[k] == LevelGet(ls[c], keys[missing[k]])
    ensures NotFound(missing, found) == Missing(ls[..c + 1], throwing, keys, n)
    decreases n
  {
    if n > 0 {
      var p := Missing(ls[..c], throwing, keys, n - 1);
      OneMoreLookup(ls, throwing, keys[n - 1], c);
      if Lookup(ls[..c], throwing, keys[n - 1]).None? {
        var m := |p|;
        assert missing == p + [n - 1] && missing[m] == n - 1;
        NotFoundIsMissing(ls, throwing, keys, c, p, found[..m], n - 1);
        NotFoundByLast(p, n - 1, found);
      } else {
        assert missing == p;
        NotFoundIsMissing(ls, throwing, keys, c, p, found, n - 1);
      }
    }
  }

  lemma NotFoundByLast<V>(missing: seq<nat>, last: nat, found: seq<Option<V>>)
    requires |found| == |missing| + 1
    ensures NotFound(missing + [last], found) ==
            NotFound(missing, found[..|missing|]) + if found[|missing|].Some? then [] else [last]
  {
    assert (missing + [last])[..|missing|] == missing;
  }

  lemma AnsweringLevel<V>(
    ls: seq<Level<V>>, throwing: set<nat>, keys: seq<string>, c: nat, missing: seq<nat>, found: seq<Option<V>>,
    results: seq<Option<V>>, filled: seq<Option<V>>, asked: seq<(nat, seq<string>)>)
    requires ReadTo(ls, throwing, keys, c, missing, results, asked) && c < |ls| && Answers(ls, throwing, c)
    requires |found| == |missing| && forall k | 0 <= k < |missing| :: found[k] == LevelGet(ls[c], keys[missing[k]])
    requires Filled(results, filled, missing, found)
    ensures ReadTo(ls, throwing, keys, c + 1, NotFound(missing, found), filled,
                   asked + AskedOf(ls[c], c, keys, missing))
  {
    OneMoreLevel(ls, throwing, keys, c);
    MissingMeans(ls[..c], throwing, keys, |keys|);
    NotFoundIsMissing(ls, throwing, keys, c, missing, found, |keys|);
    forall i | 0 <= i < |keys| ensures filled[i] == Lookup(ls[..c + 1], throwing, keys[i]) {
      assert results[i] == Lookup(ls[..c], throwing, keys[i]);
      if i in missing {
        var k :| 0 <= k < |missing| && missing[k] == i;
        assert filled[missing[k]] == found[k];
      }
    }
    assert filled == LookupEach(ls[..c + 1], throwing, keys);
  }

  /** The missing places take what was found there (they were empty before); the others keep their value. */
  ghost predicate Filled<V>(results: seq<Option<V>>, filled: seq<Option<V>>, missing: seq<nat>, found: seq<Option<V>>) {
    && |filled| == |results|
    && |found| == |missing|
    && (forall k | 0 <= k < |missing| :: missing[k] < |filled| && filled[missing[k]] == found[k])
    && (forall i: nat | i < |results| && i !in missing :: filled[i] == results[i])
  }

  lemma {:induction false} AllMissing<V>(throwing: set<nat>, keys: seq<string>, n: nat)
    requires n <= |keys|
    ensures Missing<V>([], throwing, keys, n) == seq(n, i => i)
    decreases n
  {
    if n > 0 {
      AllMissing<V>(throwing, keys, n - 1);
    }
  }

  lemma {:induction false} SomeStays<V>(ls: seq<Level<V>>, throwing: set<nat>, key: string, n: nat)
    requires n <= |ls| && Lookup(ls[..n], throwing, key).Some?
    ensures Lookup(ls, throwing, key) == Lookup(ls[..n], throwing, key)
    decreases |ls| - n
  {
    if n < |ls| {
      OneMoreLookup(ls, throwing, key, n);
      SomeStays(ls, throwing, key, n + 1);
    } else {
      assert ls[..n] == ls;
    }
  }

  class Service<V> {
    const levels: array<Level<V>>

    constructor (levels: array<Level<V>>)
      ensures this.levels == levels
    {
      this.levels := levels;
    }

    method Get(key: string, throwing: set<nat>) returns (data: Option<V>, source: Option<nat>)
      ensures data == if IsValidKey(key) then Lookup(levels[..], throwing, key) else None
      ensures source.Some? <==> data.Some?
      ensures source.Some? ==> source.value < levels.Length && FirstHolder(levels[..], throwing, source.value, key)
    {
      if !IsValidKey(key) {
        return None, None;
      }
      ghost var ls := levels[..];
      for idx := 0 to levels.Length
        invariant Lookup(ls[..idx], throwing, key) == None
        invariant forall j | 0 <= j < idx :: !Holds(ls, throwing, j, key)
      {
        OneMoreLookup(ls, throwing, key, idx);
        var cache := levels[idx];
        if cache.enabled && idx !in throwing {
          var result := LevelGet(cache, key);
          if result.Some? {
            SomeStays(ls, throwing, key, idx + 1);
            return result, Some(idx);
          }
        }
      }
      assert ls[..|ls|] == ls;
      return None, None;
    }

    /** Writes the updates at every level that answers. */
    method WriteLevels(updates: map<string, Option<V>>, throwing: set<nat>)
      modifies levels
      ensures levels[..] == WriteAll(old(levels[..]), throwing, updates)
    {
      ghost var was := levels[..];
      for idx := 0 to levels.Length
        invariant forall i | 0 <= i < idx :: levels[i] == WriteAll(was, throwing, updates)[i]
        invariant forall i | idx <= i < levels.Length :: levels[i] == was[i]
      {
        assert levels[idx] == was[idx];
        if levels[idx].enabled && idx !in throwing {
          levels[idx] := levels[idx].(store := levels[idx].store + updates);
        }
      }
    }

    method Set(key: string, data: Data<V>, throwing: set<nat>)
      modifies levels
      ensures levels[..] == WriteAll(old(levels[..]), throwing, Accepted(map[key := data]))
    {
      if !IsValidKey(key) || data.Undefined? {
        NoUpdate(levels[..], throwing);
        assert Accepted(map[key := data]) == map[];
        return;
      }
      assert Accepted(map[key := data]) == map[key := data.Stored()];
      WriteLevels(map[key := data.Stored()], throwing);
    }

    method MSet(entries: map<string, Data<V>>, throwing: set<nat>)
      modifies levels
      ensures levels[..] == WriteAll(old(levels[..]), throwing, Accepted(entries))
    {
      var validEntries := Accepted(entries);
      if validEntries == map[] {
        NoUpdate(levels[..], throwing);
        return;
      }
      WriteLevels(validEntries, throwing);
    }

    method Invalidate(key: string, throwing: set<nat>)
      modifies levels
      ensures levels[..] == if IsValidKey(key) then EraseAll(old(levels[..]), throwing, key) else old(levels[..])
    {
      if !IsValidKey(key) {
        return;
      }
      ghost var was := levels[..];
      for idx := 0 to levels.Length
        invariant forall i | 0 <= i < idx :: levels[i] == EraseAll(was, throwing, key)[i]
        invariant forall i | idx <= i < levels.Length :: levels[i] == was[i]
      {
        assert levels[idx] == was[idx];
        if levels[idx].enabled && idx !in throwing {
          levels[idx] := levels[idx].(store := levels[idx].store - {key});
        }
      }
    }

    /** Stores in place what a level found and returns the places still missing. */
    method Fill(results: array<Option<V>>, missing: seq<nat>, found: seq<Option<V>>) returns (stillMissing: seq<nat>)
      requires results != levels as object && |found| == |missing| && Increasing(missing)
      requires forall k | 0 <= k < |missing| :: missing[k] < results.Length && results[missing[k]].None?
      modifies results
      ensures Filled(old(results[..]), results[..], missing, found)
      ensures stillMissing == NotFound(missing, found)
    {
      stillMissing := [];
      for i := 0 to |missing|
        invariant forall j | 0 <= j < results.Length && j !in missing :: results[j] == old(results[j])
        invariant forall k | 0 <= k < i :: results[missing[k]] == found[k]
        invariant forall k | i <= k < |missing| :: results[missing[k]].None?
        invariant stillMissing == NotFound(missing[..i], found[..i])
      {
        assert missing[..i + 1][..i] == missing[..i] && found[..i + 1][..i] == found[..i];
        if found[i].Some? {
          results[missing[i]] := found[i];
        } else {
          stillMissing := stillMissing + [missing[i]];
        }
      }
      assert missing[..|missing|] == missing && found[..|missing|] == found;
    }

    /** One pass of the batch read's loop. */
    method AskLevel(keys: seq<string>, throwing: set<nat>, c: nat, missing: seq<nat>, results: array<Option<V>>,
                    ghost asked: seq<(nat, seq<string>)>)
      returns (stillMissing: seq<nat>)
      requires results != levels as object && c < levels.Length
      requires ReadTo(levels[..], throwing, keys, c, missing, results[..], asked)
      modifies results
      ensures ReadTo(levels[..], throwing, keys, c + 1, stillMissing, results[..],
                     asked + AskedOf(levels[c], c, keys, missing))
    {
      var cache := levels[c];
      if cache.enabled && c !in throwing {
        ghost var ls, was := levels[..], results[..];
        MissingMeans(ls[..c], throwing, keys, |keys|);
        assert forall k | 0 <= k < |missing| :: missing[k] in missing && was[missing[k]].None?;
        var keysToFetch := KeysAt(keys, missing);
        var found := seq(|keysToFetch|, i requires 0 <= i < |keysToFetch| => LevelGet(cache, keysToFetch[i]));
        stillMissing := Fill(results, missing, found);
        AnsweringLevel(ls, throwing, keys, c, missing, found, was, results[..], asked);
      } else {
        SilentLevel(levels[..], throwing, keys, c, missing, results[..], asked);
        stillMissing := missing;
      }
    }

    method MGet(keys: seq<string>, throwing: set<nat>)
      returns (results: array<Option<V>>, ghost asked: seq<(nat, seq<string>)>)
      ensures fresh(results)
      ensures results[..] == LookupEach(levels[..], throwing, ValidKeys(keys))
      ensures asked == Asked(levels[..], throwing, ValidKeys(keys))
    {
      var validKeys := FilterKeys(keys);
      results := new Option<V>[|validKeys|](_ => None);
      var missing: seq<nat> := seq(|validKeys|, i => i);
      ghost var ls := levels[..];
      asked := [];
      AllMissing<V>(throwing, validKeys, |validKeys|);
      assert ls[..0] == [];
      var c := 0;
      while c < levels.Length && |missing| > 0
        invariant fresh(results) && ls == levels[..]
        invariant ReadTo(ls, throwing, validKeys, c, missing, results[..], asked)
      {
        ghost var now := AskedOf(levels[c], c, validKeys, missing);
        missing := AskLevel(validKeys, throwing, c, missing, results, asked);
        asked := asked + now;
        c := c + 1;
      }
      if missing == [] {
        NothingLeft(ls, throwing, validKeys, c, results[..], asked);
      }
      assert ls[..|ls|] == ls;
    }

    method FilterKeys(keys: seq<string>) returns (valid: seq<string>)
      ensures valid == ValidKeys(keys)
    {
      valid := [];
      for i := 0 to |keys|
        invariant valid == ValidKeys(keys[..i])
      {
        assert keys[..i + 1][..i] == keys[..i];
        if IsValidKey(keys[i]) {
          valid := valid + [keys[i]];
        }
      }
      assert keys[..|keys|] == keys;
    }
  }

  lemma NoUpdate<V>(ls: seq<Level<V>>, throwing: set<nat>)
    ensures WriteAll(ls, throwing, map[]) == ls
  {
    assert forall l: Level<V> | l in ls :: Write(l, map[]) == l;
  }
}
