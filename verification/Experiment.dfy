/** Experiment assignment: the FNV-1a hash of a customer and the cumulative bucket loop. */
module Experiment {
  const WORD: nat := 0x1_0000_0000
  const OFFSET_BASIS: nat := 2166136261
  const PRIME: nat := 16777619
  /** `PRIME * PRIME_INVERSE` is 1 modulo `WORD`. */
  const PRIME_INVERSE: nat := 899433627

  /** A 32-bit word, and a UTF-16 code unit. */
  type Word = x: nat | x < WORD
  type Unit = x: nat | x < 0x1_0000

  // ----- The hash -----

  /** Bitwise exclusive or. */
  function Xor(a: nat, b: nat): nat
    decreases a + b
  {
    if a == 0 && b == 0 then 0 else 2 * Xor(a / 2, b / 2) + if a % 2 == b % 2 then 0 else 1
  }

  lemma {:induction false} XorUndoesItself(a: nat, b: nat)
    ensures Xor(Xor(a, b), b) == a && Xor(Xor(a, b), a) == b
    decreases a + b
  {
    if a != 0 || b != 0 {
      XorUndoesItself(a / 2, b / 2);
      var low := if a % 2 == b % 2 then 0 else 1;
      var x := Xor(a, b);
      assert x / 2 == Xor(a / 2, b / 2) && x % 2 == low;
    }
  }

  function Power2(k: nat): nat {
    if k == 0 then 1 else 2 * Power2(k - 1)
  }

  lemma {:induction false} XorFits(a: nat, b: nat, k: nat)
    requires a < Power2(k) && b < Power2(k)
    ensures Xor(a, b) < Power2(k)
    decreases k
  {
    if k > 0 {
      XorFits(a / 2, b / 2, k - 1);
    }
  }

  lemma XorIsAWord(a: Word, b: Word)
    ensures Xor(a, b) < WORD
  {
    assert Power2(8) == 256;
    assert Power2(16) == 65536;
    assert Power2(24) == 16777216;
    assert Power2(32) == WORD;
    XorFits(a, b, 32);
  }

  function Mix(hash: Word, unit: Unit): Word {
    Xor(hash, unit) * PRIME % WORD
  }

  function Hash(input: seq<Unit>): Word {
    if input == [] then OFFSET_BASIS else Mix(Hash(input[..|input| - 1]), input[|input| - 1])
  }

  method Fnv1a(input: seq<Unit>) returns (hash: Word)
    ensures hash == Hash(input)
  {
    hash := OFFSET_BASIS;
    for i := 0 to |input|
      invariant hash == Hash(input[..i])
    {
      assert input[..i + 1][..i] == input[..i];
      XorIsAWord(hash, input[i]);
      hash := Xor(hash, input[i]);
      hash := hash * PRIME % WORD;
    }
    assert input[..|input|] == input;
  }

  /** Multiplying by the inverse undoes a multiplication by the prime. */
  lemma PrimeIsInvertible(x: Word)
    ensures x * PRIME % WORD * PRIME_INVERSE % WORD == x
  {
    var q, r := x * PRIME / WORD, x * PRIME % WORD;
    var k := PRIME * PRIME_INVERSE / WORD;
    assert PRIME * PRIME_INVERSE == k * WORD + 1;
    assert r == x * PRIME - q * WORD;
    assert r * PRIME_INVERSE == (x * k - q * PRIME_INVERSE) * WORD + x by {
      assert r * PRIME_INVERSE == x * (PRIME * PRIME_INVERSE) - q * PRIME_INVERSE * WORD;
    }
    Remainder(x * k - q * PRIME_INVERSE, x);
  }

  lemma Remainder(m: int, x: Word)
    ensures (m * WORD + x) % WORD == x
  {
  }

  /** A step undone: the hash before it is recovered from the hash after it and the unit. */
  function Unmix(hash: Word, unit: Unit): nat {
    Xor(hash * PRIME_INVERSE % WORD, unit)
  }

  lemma StepIsInjective(hash: Word, unit: Unit)
    ensures Unmix(Mix(hash, unit), unit) == hash
    ensures Xor(Mix(hash, unit) * PRIME_INVERSE % WORD, hash) == unit
  {
    XorIsAWord(hash, unit);
    PrimeIsInvertible(Xor(hash, unit));
    XorUndoesItself(hash, unit);
  }

  lemma StepKeepsApart(hash: Word, other: Word, unit: Unit)
    ensures Mix(hash, unit) == Mix(other, unit) <==> hash == other
  {
    StepIsInjective(hash, unit);
    StepIsInjective(other, unit);
  }

  /** A common ending keeps hashes apart, or together. */
  lemma {:induction false} CommonEndingIsIrrelevant(a: seq<Unit>, b: seq<Unit>, ending: seq<Unit>)
    ensures Hash(a + ending) == Hash(b + ending) <==> Hash(a) == Hash(b)
    decreases |ending|
  {
    if ending == [] {
      assert a + ending == a && b + ending == b;
    } else {
      var n := |ending| - 1;
      CommonEndingIsIrrelevant(a, b, ending[..n]);
      assert (a + ending)[..|a| + n] == a + ending[..n] && (b + ending)[..|b| + n] == b + ending[..n];
      StepKeepsApart(Hash(a + ending[..n]), Hash(b + ending[..n]), ending[n]);
    }
  }

  /** Two strings of one length that differ in exactly one place never share a hash. */
  lemma OneDifferenceNeverCollides(a: seq<Unit>, b: seq<Unit>, i: nat)
    requires |a| == |b| && i < |a| && a[i] != b[i]
    requires forall j | 0 <= j < |a| && j != i :: a[j] == b[j]
    ensures Hash(a) != Hash(b)
  {
    var start, p, q := a[..i], a[..i + 1], b[..i + 1];
    assert p[..i] == start && q[..i] == start;
    StepIsInjective(Hash(start), a[i]);
    StepIsInjective(Hash(start), b[i]);
    assert Hash(p) != Hash(q);
    var ending := a[i + 1..];
    assert a == p + ending && b == q + ending;
    CommonEndingIsIrrelevant(p, q, ending);
  }

  lemma {:induction false} XorWithZero(a: nat)
    ensures Xor(a, 0) == a
  {
    if a > 0 {
      XorWithZero(a / 2);
    }
  }

  /** One more low bit on both sides. */
  lemma XorUp(a: nat, b: nat, high: nat, highB: nat, x: nat) returns (y: nat)
    requires a != 0 && a / 2 == high && b / 2 == highB && Xor(high, highB) == x
    ensures Xor(a, b) == y == 2 * x + if a % 2 == b % 2 then 0 else 1
  {
    y := Xor(a, b);
  }

  lemma XorOfBasisAndLetterA()
    ensures Xor(OFFSET_BASIS, 97) == 2166136228
  {
    var a, b := 16922939, 0;
    XorWithZero(a);
    var x := a;
    x := XorUp(33845879, 1, a, b, x);
    a, b := 33845879, 1;
    x := XorUp(67691758, 3, a, b, x);
    a, b := 67691758, 3;
    x := XorUp(135383516, 6, a, b, x);
    a, b := 135383516, 6;
    x := XorUp(270767032, 12, a, b, x);
    a, b := 270767032, 12;
    x := XorUp(541534065, 24, a, b, x);
    a, b := 541534065, 24;
    x := XorUp(1083068130, 48, a, b, x);
    a, b := 1083068130, 48;
    x := XorUp(2166136261, 97, a, b, x);
    a, b := 2166136261, 97;
  }

  lemma HashOfOneUnit(unit: Unit, x: nat)
    requires Xor(OFFSET_BASIS, unit) == x
    ensures Hash([unit]) == x * PRIME % WORD
  {
    assert [unit][..0] == [];
  }

  lemma LastProduct(x: nat)
    requires x == 2166136228
    ensures x * PRIME % WORD == 0xE40C_292C
  {
    assert x * PRIME == 8461672 * WORD + 0xE40C_292C;
  }

  /** The empty string and "a", whose code is 97, hash to the published FNV-1a values. */
  lemma PublishedValues(letterA: Unit)
    requires letterA == 97
    ensures Hash([]) == 0x811C_9DC5 && Hash([letterA]) == 0xE40C_292C
  {
    XorOfBasisAndLetterA();
    HashOfOneUnit(letterA, 2166136228);
    LastProduct(2166136228);
  }

  // ----- The key that is hashed -----

  const MINUS: Unit := 45
  const ZERO: Unit := 48
  const COLON: Unit := 58

  function Digits(n: nat): seq<Unit> {
    if n < 10 then [ZERO + n] else Digits(n / 10) + [ZERO + n % 10]
  }

  function Decimal(n: int): seq<Unit> {
    if n < 0 then [MINUS] + Digits(-n) else Digits(n)
  }

  function Key(customer: int, experiment: int): seq<Unit> {
    Decimal(customer) + [COLON] + Decimal(experiment)
  }

  lemma {:induction false} DigitsAreDigits(n: nat)
    ensures |Digits(n)| > 0 && forall i | 0 <= i < |Digits(n)| :: ZERO <= Digits(n)[i] < COLON
  {
    if n >= 10 {
      DigitsAreDigits(n / 10);
    }
  }

  lemma {:induction false} DigitsDetermineTheNumber(m: nat, n: nat)
    requires Digits(m) == Digits(n)
    ensures m == n
  {
    DigitsAreDigits(m / 10);
    DigitsAreDigits(n / 10);
    var last := |Digits(m)| - 1;
    assert Digits(m)[last] == ZERO + m % 10 && Digits(n)[last] == ZERO + n % 10;
    if m >= 10 && n >= 10 {
      assert Digits(m)[..last] == Digits(m / 10) && Digits(n)[..last] == Digits(n / 10);
      DigitsDetermineTheNumber(m / 10, n / 10);
    }
  }

  lemma DecimalDeterminesTheNumber(m: int, n: int)
    requires Decimal(m) == Decimal(n)
    ensures m == n
  {
    var a, b := if m < 0 then -m else m, if n < 0 then -n else n;
    DigitsAreDigits(a);
    DigitsAreDigits(b);
    assert Decimal(m)[0] == MINUS <==> m < 0;
    assert Decimal(n)[0] == MINUS <==> n < 0;
    assert m < 0 ==> Decimal(m)[1..] == Digits(a);
    assert n < 0 ==> Decimal(n)[1..] == Digits(b);
    DigitsDetermineTheNumber(a, b);
  }

  lemma NoColonInDecimal(n: int)
    ensures COLON !in Decimal(n)
  {
    DigitsAreDigits(if n < 0 then -n else n);
  }

  lemma ColonSplits(a: seq<Unit>, x: seq<Unit>, b: seq<Unit>, y: seq<Unit>)
    requires a + [COLON] + x == b + [COLON] + y && COLON !in a && COLON !in b
    ensures a == b && x == y
  {
    var key := a + [COLON] + x;
    assert key[|a|] == COLON && key[|b|] == COLON;
    assert forall i | 0 <= i < |a| :: key[i] == a[i] != COLON;
    assert forall i | 0 <= i < |b| :: key[i] == b[i] != COLON;
    assert |a| == |b|;
    assert a == key[..|a|] == b && x == key[|a| + 1..] == y;
  }

  /** Different customers, or different experiments, are hashed from different strings. */
  lemma KeysAreDistinct(customer: int, experiment: int, otherCustomer: int, otherExperiment: int)
    requires Key(customer, experiment) == Key(otherCustomer, otherExperiment)
    ensures customer == otherCustomer && experiment == otherExperiment
  {
    NoColonInDecimal(customer);
    NoColonInDecimal(otherCustomer);
    ColonSplits(Decimal(customer), Decimal(experiment), Decimal(otherCustomer), Decimal(otherExperiment));
    DecimalDeterminesTheNumber(customer, otherCustomer);
    DecimalDeterminesTheNumber(experiment, otherExperiment);
  }

  /** Customers whose numbers differ only in the last digit never share a hash in an experiment. */
  lemma NeighboursHashApart(customer: nat, other: nat, experiment: int)
    requires customer != other && customer / 10 == other / 10
    ensures Hash(Key(customer, experiment)) != Hash(Key(other, experiment))
  {
    var a, b := Key(customer, experiment), Key(other, experiment);
    var i := |Digits(customer)| - 1;
    assert |Digits(customer)| == |Digits(other)|;
    assert a[i] == ZERO + customer % 10 && b[i] == ZERO + other % 10;
    OneDifferenceNeverCollides(a, b, i);
  }

  // ----- Buckets -----

  datatype Variant = Variant(name: string, weight: int)

  /** What loading the store's experiment gave: an error, no active experiment, or one. */
  datatype Loaded = Failed | NoExperiment | Active(id: int, variants: seq<Variant>)

  const CONTROL := "control"

  function Cumulative(variants: seq<Variant>, k: nat): int
    requires k <= |variants|
  {
    if k == 0 then 0 else Cumulative(variants, k - 1) + variants[k - 1].weight
  }

  /** The first variant whose cumulative weight is above the bucket. */
  ghost predicate Selects(variants: seq<Variant>, bucket: int, i: nat) {
    && i < |variants|
    && bucket < Cumulative(variants, i + 1)
    && PassesFirst(variants, bucket, i)
  }

  ghost predicate SelectsNone(variants: seq<Variant>, bucket: int) {
    PassesFirst(variants, bucket, |variants|)
  }

  ghost predicate PassesFirst(variants: seq<Variant>, bucket: int, n: nat)
    requires n <= |variants|
  {
    forall k | 0 < k <= n :: Cumulative(variants, k) <= bucket
  }

  method PickVariant(variants: seq<Variant>, bucket: nat) returns (name: string)
    ensures
      || (SelectsNone(variants, bucket) && name == CONTROL)
      || exists i: nat :: Selects(variants, bucket, i) && name == variants[i].name
  {
    var cumulative := 0;
    for i := 0 to |variants|
      invariant cumulative == Cumulative(variants, i)
      invariant PassesFirst(variants, bucket, i)
    {
      cumulative := cumulative + variants[i].weight;
      if bucket < cumulative {
        assert Selects(variants, bucket, i);
        return variants[i].name;
      }
    }
    return CONTROL;
  }

  function BucketOf(customer: int, experiment: int): nat {
    Hash(Key(customer, experiment)) % 100
  }

  method GetVariant(customer: int, loaded: Loaded) returns (name: string)
    ensures !loaded.Active? ==> name == CONTROL
    ensures loaded.Active? ==>
      || (SelectsNone(loaded.variants, BucketOf(customer, loaded.id)) && name == CONTROL)
      || exists i: nat :: Selects(loaded.variants, BucketOf(customer, loaded.id), i) && name == loaded.variants[i].name
  {
    if !loaded.Active? {
      return CONTROL;
    }
    var hash := Fnv1a(Key(customer, loaded.id));
    name := PickVariant(loaded.variants, hash % 100);
  }

  /** The highest cumulative weight of the first `k` variants. */
  function Peak(variants: seq<Variant>, k: nat): nat
    requires k <= |variants|
  {
    if k == 0 then 0
    else
      var before, now := Peak(variants, k - 1), Cumulative(variants, k);
      if now > before then now else before
  }

  function Clip(x: nat): nat {
    if x < 100 then x else 100
  }

  ghost function Buckets(variants: seq<Variant>, i: nat): set<int> {
    set bucket | 0 <= bucket < 100 && Selects(variants, bucket, i)
  }

  lemma {:induction false} PeakBoundsCumulative(variants: seq<Variant>, k: nat, bucket: nat)
    requires k <= |variants|
    ensures Peak(variants, k) <= bucket <==> PassesFirst(variants, bucket, k)
  {
    if k > 0 {
      PeakBoundsCumulative(variants, k - 1, bucket);
      if Peak(variants, k) > bucket && Peak(variants, k - 1) <= bucket {
        assert Cumulative(variants, k) > bucket;
      }
    }
  }

  predicate Between(x: int, lo: int, hi: int) {
    lo <= x < hi
  }

  ghost function Range(lo: int, hi: int): set<int> {
    set x: int | lo <= x < hi && Between(x, lo, hi)
  }

  lemma {:induction false} RangeSize(lo: int, hi: int)
    requires lo <= hi
    ensures |Range(lo, hi)| == hi - lo
    decreases hi - lo
  {
    if lo < hi {
      RangeSize(lo, hi - 1);
      assert Range(lo, hi) == Range(lo, hi - 1) + {hi - 1};
    } else {
      assert Range(lo, hi) == {};
    }
  }

  /** Whatever the weights, a variant gets the buckets by which it raises the peak, up to the 100 there are. */
  lemma ShareIsTheRiseOfThePeak(variants: seq<Variant>, i: nat)
    requires i < |variants|
    ensures |Buckets(variants, i)| == Clip(Peak(variants, i + 1)) - Clip(Peak(variants, i))
  {
    var lo, hi := Clip(Peak(variants, i)), Clip(Peak(variants, i + 1));
    forall bucket: nat | bucket < 100 ensures Selects(variants, bucket, i) <==> Between(bucket, lo, hi) {
      PeakBoundsCumulative(variants, i, bucket);
      PeakBoundsCumulative(variants, i + 1, bucket);
    }
    assert Buckets(variants, i) == Range(lo, hi);
    RangeSize(lo, hi);
  }

  /** The buckets left to control are those above the peak. */
  lemma ControlGetsTheRest(variants: seq<Variant>)
    ensures |set bucket | 0 <= bucket < 100 && SelectsNone(variants, bucket)| == 100 - Clip(Peak(variants, |variants|))
  {
    var n := |variants|;
    var rest := set bucket | 0 <= bucket < 100 && SelectsNone(variants, bucket);
    forall bucket: nat | bucket < 100
      ensures SelectsNone(variants, bucket) <==> Between(bucket, Clip(Peak(variants, n)), 100)
    {
      PeakBoundsCumulative(variants, n, bucket);
    }
    assert rest == Range(Clip(Peak(variants, n)), 100);
    RangeSize(Clip(Peak(variants, n)), 100);
  }

  lemma {:induction false} PeakOfNonNegative(variants: seq<Variant>, k: nat)
    requires k <= |variants| && forall i | 0 <= i < k :: variants[i].weight >= 0
    ensures Peak(variants, k) == Cumulative(variants, k)
  {
    if k > 0 {
      PeakOfNonNegative(variants, k - 1);
    }
  }

  lemma {:induction false} CumulativeRises(variants: seq<Variant>, j: nat, k: nat)
    requires j <= k <= |variants| && forall i | 0 <= i < |variants| :: variants[i].weight >= 0
    ensures Cumulative(variants, j) <= Cumulative(variants, k)
    decreases k
  {
    if j < k {
      CumulativeRises(variants, j, k - 1);
    }
  }

  /** Every variant gets its weight of the buckets exactly when no weight is negative and they add to at most 100. */
  lemma SharesAreWeightsExactlyWhen(variants: seq<Variant>)
    ensures (forall i: nat | i < |variants| :: |Buckets(variants, i)| == variants[i].weight) <==>
            (forall i | 0 <= i < |variants| :: variants[i].weight >= 0) && Cumulative(variants, |variants|) <= 100
  {
    var n := |variants|;
    if (forall i | 0 <= i < n :: variants[i].weight >= 0) && Cumulative(variants, n) <= 100 {
      forall i: nat | i < n ensures |Buckets(variants, i)| == variants[i].weight {
        ShareIsTheRiseOfThePeak(variants, i);
        PeakOfNonNegative(variants, i);
        PeakOfNonNegative(variants, i + 1);
        CumulativeRises(variants, i + 1, n);
        CumulativeRises(variants, i, n);
      }
    }
    if forall i: nat | i < n :: |Buckets(variants, i)| == variants[i].weight {
      SharesAddToAtMost100(variants, n);
    }
  }

  lemma {:induction false} SharesAddToAtMost100(variants: seq<Variant>, k: nat)
    requires k <= |variants| && forall i: nat | i < |variants| :: |Buckets(variants, i)| == variants[i].weight
    ensures Cumulative(variants, k) == Clip(Peak(variants, k))
  {
    if k > 0 {
      SharesAddToAtMost100(variants, k - 1);
      ShareIsTheRiseOfThePeak(variants, k - 1);
    }
  }
}
