/** Absolute conversion of exact time to ticks under three rounding policies. */
module Adapter {
  import opened Wrappers
  import opened Bytes
  import opened Euclid
  import opened Rationals

  datatype RoundingPolicy = Floor | Ceil | NearestEven

  datatype AdapterUnit = Hns | Timescale(rate: u64) | Samples(rate: u64)

  datatype AdaptedTime = AdaptedTime(
    canonicalTime: Rational, unit: AdapterUnit, policy: RoundingPolicy, ticks: i64, error: Rational)

  function TicksPerSecond(unit: AdapterUnit): (r: Result<i64, TimeError>)
    ensures r.Ok? ==> r.value > 0
  {
    var rate := match unit
      case Hns => 10_000_000
      case Timescale(rate) => rate
      case Samples(rate) => rate;
    if rate == 0 then Err(InvalidUnit)
    else if FitsI64(rate) then Ok(rate)
    else Err(Overflow)
  }

  /** `div_euclid` and `rem_euclid` by a positive number are Dafny's `/` and `%`. */
  function RoundQuotient(numerator: i128, denominator: i128, policy: RoundingPolicy): (r: Result<int, TimeError>)
    requires denominator > 0
  {
    var quotient := numerator / denominator;
    var remainder := numerator % denominator;
    match policy
    case Floor => Ok(quotient)
    case Ceil => Ok(if remainder != 0 then quotient + 1 else quotient)
    case NearestEven =>
      var doubled := remainder * 2;
      if doubled >= 0x8000_0000_0000_0000_0000_0000_0000_0000 then Err(Overflow)
      else if doubled < denominator then Ok(quotient)
      else if doubled == denominator && quotient % 2 == 0 then Ok(quotient)
      else Ok(quotient + 1)
  }

  function ScaledTicks(time: Rational, rate: i64, policy: RoundingPolicy): (r: Result<int, TimeError>) {
    ProductBound(time.numerator, rate);
    RoundQuotient(time.numerator * rate, time.denominator, policy)
  }

  function AdaptAbsolute(time: Rational, unit: AdapterUnit, policy: RoundingPolicy)
    : (r: Result<AdaptedTime, TimeError>)
  {
    var rate :- TicksPerSecond(unit);
    var ticks :- ScaledTicks(time, rate, policy);
    if !FitsI64(ticks) then Err(Overflow) else
    var represented :- New(ticks, rate);
    var error :- CheckedSub(time, represented);
    Ok(AdaptedTime(time, unit, policy, ticks, error))
  }

  /** What each policy promises about the tick count `q` chosen for the exact position `x`. */
  predicate Rounds(x: real, q: int, policy: RoundingPolicy) {
    match policy
    case Floor => q as real <= x < q as real + 1.0
    case Ceil => q as real - 1.0 < x <= q as real
    case NearestEven =>
      && q as real - 0.5 <= x <= q as real + 0.5
      && ((x == q as real - 0.5 || x == q as real + 0.5) ==> q % 2 == 0)
  }

  lemma QuotientAndRemainder(n: int, d: int)
    requires d > 0
    ensures n as real / d as real == (n / d) as real + (n % d) as real / d as real
    ensures 0.0 <= (n % d) as real / d as real < 1.0
    ensures n % d == 0 <==> (n % d) as real / d as real == 0.0
    ensures n % d * 2 < d <==> (n % d) as real / d as real < 0.5
    ensures n % d * 2 == d <==> (n % d) as real / d as real == 0.5
  {
    var q, r := n / d, n % d;
    var f := r as real / d as real;
    assert f * d as real == r as real;
    assert n == q * d + r;
    RealProduct(q, d);
    QuotientIs(q as real + f, n, d);
    QuotientsOrdered(r, d, 1, 1);
    QuotientsOrdered(r, d, 0, 1);
    QuotientsOrdered(0, 1, r, d);
    QuotientsOrdered(r, d, 1, 2);
    QuotientsOrdered(1, 2, r, d);
  }

  lemma RoundQuotientRounds(n: i128, d: i128, policy: RoundingPolicy)
    requires d > 0
    ensures RoundQuotient(n, d, policy).Ok? ==> Rounds(n as real / d as real, RoundQuotient(n, d, policy).value, policy)
    ensures RoundQuotient(n, d, policy) == Err(Overflow) ==>
      policy.NearestEven? && n % d * 2 >= 0x8000_0000_0000_0000_0000_0000_0000_0000
  {
    QuotientAndRemainder(n, d);
  }

  /** Rounding preserves order, for negative positions too. */
  lemma RoundsIsMonotone(x: real, y: real, p: int, q: int, policy: RoundingPolicy)
    requires x <= y && Rounds(x, p, policy) && Rounds(y, q, policy)
    ensures p <= q
  {
    assert p > q ==> p as real >= q as real + 1.0;
  }

  lemma RoundsIsUnique(x: real, p: int, q: int, policy: RoundingPolicy)
    requires Rounds(x, p, policy) && Rounds(x, q, policy)
    ensures p == q
  {
    RoundsIsMonotone(x, x, p, q, policy);
    RoundsIsMonotone(x, x, q, p, policy);
  }

  /** The exact position of a time on the tick line. */
  function Position(time: Rational, unit: AdapterUnit): real
    requires TicksPerSecond(unit).Ok?
  {
    Value(time) * TicksPerSecond(unit).value as real
  }

  lemma RateIsPositive(unit: AdapterUnit)
    requires TicksPerSecond(unit).Ok?
    ensures TicksPerSecond(unit).value > 0
  {
  }

  lemma PositionUnfolds(time: Rational, unit: AdapterUnit)
    requires TicksPerSecond(unit).Ok?
    ensures Position(time, unit) == Value(time) * TicksPerSecond(unit).value as real
  {
  }

  lemma PositionIsQuotient(time: Rational, rate: i64)
    ensures Value(time) * rate as real == (time.numerator * rate) as real / time.denominator as real
  {
    RealProduct(time.numerator, rate);
    var v := Value(time);
    assert v * time.denominator as real == time.numerator as real;
    assert (v * rate as real) * time.denominator as real == (v * time.denominator as real) * rate as real;
    QuotientIs(v * rate as real, time.numerator * rate, time.denominator);
  }

  lemma ScaledTicksRound(time: Rational, rate: i64, policy: RoundingPolicy)
    ensures ScaledTicks(time, rate, policy).Ok?
    ensures Rounds(Value(time) * rate as real, ScaledTicks(time, rate, policy).value, policy)
  {
    ProductBound(time.numerator, rate);
    RoundQuotientRounds(time.numerator * rate, time.denominator, policy);
    PositionIsQuotient(time, rate);
  }

  /** A tick count over a positive rate is always representable. */
  lemma TickTimeIsRepresentable(ticks: i64, rate: i64)
    requires rate > 0
    ensures New(ticks, rate).Ok?
    ensures Value(New(ticks, rate).value) == ticks as real / rate as real
  {
    if ticks != 0 {
      var r := LowestTerms(ticks, rate);
      assert ticks > 0 ==> r.0 >= 0 by { assert ticks > 0 && r.0 < 0 ==> r.0 * rate < 0 && ticks * r.1 > 0; }
    }
    NewIsExact(ticks, rate);
  }

  lemma ErrorIsExact(time: Rational, ticks: i64, rate: i64)
    requires rate > 0
    ensures New(ticks, rate).Ok?
    ensures Exact(CheckedSub(time, New(ticks, rate).value), Value(time) - ticks as real / rate as real)
  {
    TickTimeIsRepresentable(ticks, rate);
    SubIsExact(time, New(ticks, rate).value);
  }

  /** `q` ticks and the error `e` are the policy's answer at position `x` and `rate` ticks a second. */
  ghost predicate AnswersAt(time: Rational, x: real, rate: real, policy: RoundingPolicy, q: int, e: Rational)
    requires rate > 0.0
  {
    Rounds(x, q, policy) && Value(e) == Value(time) - q as real / rate
  }

  /** The answer of a unit: rounded position, exact remainder. */
  ghost predicate Represents(time: Rational, unit: AdapterUnit, policy: RoundingPolicy, q: int, e: Rational)
    requires TicksPerSecond(unit).Ok?
  {
    AnswersAt(time, Position(time, unit), TicksPerSecond(unit).value as real, policy, q, e)
  }

  /** What a successful adaptation computed on its way. */
  lemma AdaptationComputes(time: Rational, unit: AdapterUnit, policy: RoundingPolicy)
    requires AdaptAbsolute(time, unit, policy).Ok?
    ensures TicksPerSecond(unit).Ok?
    ensures
      var a, rate := AdaptAbsolute(time, unit, policy).value, TicksPerSecond(unit).value;
      && a.canonicalTime == time && a.unit == unit && a.policy == policy
      && ScaledTicks(time, rate, policy) == Ok(a.ticks)
      && New(a.ticks, rate).Ok?
      && CheckedSub(time, New(a.ticks, rate).value) == Ok(a.error)
  {
    hide ScaledTicks, New, CheckedSub, TicksPerSecond, Canonical;
  }

  /** The tick count is the policy's rounding of the exact position, and the error completes it exactly. */
  lemma AdaptationIsExact(time: Rational, unit: AdapterUnit, policy: RoundingPolicy)
    requires AdaptAbsolute(time, unit, policy).Ok?
    ensures TicksPerSecond(unit).Ok?
    ensures
      var a := AdaptAbsolute(time, unit, policy).value;
      && a.canonicalTime == time && a.unit == unit && a.policy == policy
      && Represents(time, unit, policy, a.ticks, a.error) && Rounds(Position(time, unit), a.ticks, policy)
  {
    hide AdaptAbsolute, ScaledTicks, New, CheckedSub, Canonical, Value, Rounds, TicksPerSecond, Position;
    AdaptationComputes(time, unit, policy);
    RateIsPositive(unit);
    PositionUnfolds(time, unit);
    var rate := TicksPerSecond(unit).value;
    ScaledTicksRound(time, rate, policy);
    ErrorIsExact(time, ScaledTicks(time, rate, policy).value, rate);
  }

  lemma ScaleError(v: real, e: real, ticks: real, rate: real)
    requires rate > 0.0 && e == v - ticks / rate
    ensures e * rate == v * rate - ticks
  {
    var t := ticks / rate;
    assert t * rate == ticks;
  }

  lemma RepresentationInTicks(time: Rational, unit: AdapterUnit, policy: RoundingPolicy, q: int, e: Rational)
    requires TicksPerSecond(unit).Ok? && Represents(time, unit, policy, q, e)
    ensures Rounds(Position(time, unit), q, policy)
    ensures Value(e) * TicksPerSecond(unit).value as real == Position(time, unit) - q as real
  {
    hide Value, Canonical, Rounds, Position, TicksPerSecond;
    RateIsPositive(unit);
    PositionUnfolds(time, unit);
    ScaleError(Value(time), Value(e), q as real, TicksPerSecond(unit).value as real);
  }

  /** The error, measured in ticks, stays inside the interval its policy names. */
  lemma ErrorIsBounded(time: Rational, unit: AdapterUnit, policy: RoundingPolicy, q: int, e: Rational)
    requires TicksPerSecond(unit).Ok? && Represents(time, unit, policy, q, e)
    ensures ErrorInTicks(Value(e) * TicksPerSecond(unit).value as real, q, policy)
  {
    hide Represents, Value, Canonical, Rounds, ErrorInTicks, Position, TicksPerSecond;
    RepresentationInTicks(time, unit, policy, q, e);
    RoundingLeaves(Position(time, unit), q, policy, Value(e) * TicksPerSecond(unit).value as real);
  }

  predicate ErrorInTicks(error: real, q: int, policy: RoundingPolicy) {
    match policy
    case Floor => 0.0 <= error < 1.0
    case Ceil => -1.0 < error <= 0.0
    case NearestEven => -0.5 <= error <= 0.5 && (error == 0.5 || error == -0.5 ==> q % 2 == 0)
  }

  lemma RoundingLeaves(x: real, q: int, policy: RoundingPolicy, error: real)
    requires Rounds(x, q, policy) && error == x - q as real
    ensures ErrorInTicks(error, q, policy)
  {
  }

  /** Adaptation fails for a valid unit exactly when the tick count or the error fits no field. */
  lemma AdaptationFailsOnlyByOverflow(time: Rational, unit: AdapterUnit, policy: RoundingPolicy)
    requires TicksPerSecond(unit).Ok?
    ensures AdaptAbsolute(time, unit, policy).Ok? <==>
      exists q: i64, e: Rational :: Represents(time, unit, policy, q, e)
    ensures AdaptAbsolute(time, unit, policy).Err? ==> AdaptAbsolute(time, unit, policy).error == Overflow
  {
    hide ScaledTicks, New, CheckedSub, Canonical, Value, Rounds, Position;
    var rate := TicksPerSecond(unit).value;
    ScaledTicksRound(time, rate, policy);
    var ticks := ScaledTicks(time, rate, policy).value;
    assert Position(time, unit) == Value(time) * rate as real by { PositionUnfolds(time, unit); }
    if FitsI64(ticks) {
      ErrorIsExact(time, ticks, rate);
    }
    if AdaptAbsolute(time, unit, policy).Ok? {
      AdaptationIsExact(time, unit, policy);
      var a := AdaptAbsolute(time, unit, policy).value;
      assert Represents(time, unit, policy, a.ticks, a.error);
    } else {
      forall q: i64, e: Rational ensures !Represents(time, unit, policy, q, e) {
        if Represents(time, unit, policy, q, e) {
          RoundsIsUnique(Position(time, unit), q, ticks, policy);
        }
      }
    }
  }

  // The same in numbers: what one tick of each unit is.

  /** Adaptation to position `x` at `rate` ticks a second: the answer if one fits, and `Overflow` otherwise. */
  ghost predicate AdaptsAt(
    r: Result<AdaptedTime, TimeError>, time: Rational, x: real, rate: real, policy: RoundingPolicy)
    requires rate > 0.0
  {
    if r.Ok? then r.value.canonicalTime == time && AnswersAt(time, x, rate, policy, r.value.ticks, r.value.error)
    else r.error == Overflow && forall q: i64, e: Rational :: !AnswersAt(time, x, rate, policy, q, e)
  }

  lemma AdaptsAtPosition(time: Rational, unit: AdapterUnit, rate: real, policy: RoundingPolicy)
    requires TicksPerSecond(unit).Ok? && rate == TicksPerSecond(unit).value as real && rate > 0.0
    ensures AdaptsAt(AdaptAbsolute(time, unit, policy), time, Position(time, unit), rate, policy)
  {
    hide AdaptAbsolute, Value, Canonical, Rounds, AnswersAt, TicksPerSecond, Position;
    AdaptationFailsOnlyByOverflow(time, unit, policy);
    if AdaptAbsolute(time, unit, policy).Ok? {
      AdaptationIsExact(time, unit, policy);
    } else {
      forall q: i64, e: Rational ensures !AnswersAt(time, Position(time, unit), rate, policy, q, e) {
        assert !Represents(time, unit, policy, q, e);
      }
    }
  }

  /** Windows media time has ten million ticks a second. */
  lemma HnsIsTenMillion(time: Rational, policy: RoundingPolicy)
    ensures AdaptsAt(AdaptAbsolute(time, Hns, policy), time, Value(time) * 10_000_000.0, 10_000_000.0, policy)
  {
    hide AdaptAbsolute, AdaptsAt, Value;
    AdaptsAtPosition(time, Hns, 10_000_000.0, policy);
  }

  /** A timescale and a sample rate are the ticks of a second, if not zero and within a signed 64-bit number. */
  lemma RateIsTicksPerSecond(time: Rational, unit: AdapterUnit, n: u64, policy: RoundingPolicy)
    requires unit == Timescale(n) || unit == Samples(n)
    ensures AdaptAbsolute(time, unit, policy) == Err(InvalidUnit) <==> n == 0
    ensures n >= 0x8000_0000_0000_0000 ==> AdaptAbsolute(time, unit, policy) == Err(Overflow)
    ensures 0 < n < 0x8000_0000_0000_0000 ==>
      AdaptsAt(AdaptAbsolute(time, unit, policy), time, Value(time) * n as real, n as real, policy)
  {
    hide AdaptsAt, ScaledTicks, New, CheckedSub, Value, Represents, Position;
    if 0 < n < 0x8000_0000_0000_0000 {
      PositionAtRate(time, unit, n);
      AdaptsAtRate(time, unit, n, Value(time) * n as real, policy);
      AdaptationFailsOnlyByOverflow(time, unit, policy);
    }
  }

  lemma PositionAtRate(time: Rational, unit: AdapterUnit, n: i64)
    requires TicksPerSecond(unit) == Ok(n) && n > 0
    ensures Position(time, unit) == Value(time) * n as real
  {
    hide Value, TicksPerSecond;
  }

  lemma AdaptsAtRate(time: Rational, unit: AdapterUnit, n: i64, x: real, policy: RoundingPolicy)
    requires TicksPerSecond(unit) == Ok(n) && n > 0 && x == Position(time, unit)
    ensures AdaptsAt(AdaptAbsolute(time, unit, policy), time, x, n as real, policy)
  {
    hide AdaptAbsolute, AdaptsAt, Value, TicksPerSecond, Position;
    AdaptsAtPosition(time, unit, n as real, policy);
  }

  lemma PositionIsMonotone(s: Rational, t: Rational, unit: AdapterUnit)
    requires TicksPerSecond(unit).Ok? && Value(s) <= Value(t)
    ensures Position(s, unit) <= Position(t, unit)
  {
    var rate := TicksPerSecond(unit).value as real;
    assert (Value(t) - Value(s)) * rate >= 0.0;
  }

  /** Later times never get fewer ticks. */
  lemma AdaptationIsMonotone(s: Rational, t: Rational, unit: AdapterUnit, policy: RoundingPolicy)
    requires AdaptAbsolute(s, unit, policy).Ok? && AdaptAbsolute(t, unit, policy).Ok?
    requires Cmp(s, t) != Greater
    ensures AdaptAbsolute(s, unit, policy).value.ticks <= AdaptAbsolute(t, unit, policy).value.ticks
  {
    CmpOrdersValues(s, t);
    AdaptationIsExact(s, unit, policy);
    AdaptationIsExact(t, unit, policy);
    PositionIsMonotone(s, t, unit);
    RoundsIsMonotone(Position(s, unit), Position(t, unit),
      AdaptAbsolute(s, unit, policy).value.ticks, AdaptAbsolute(t, unit, policy).value.ticks, policy);
  }

  // Sequences.

  predicate Collapses(times: seq<Rational>, unit: AdapterUnit, policy: RoundingPolicy, i: nat)
    requires 0 < i < |times|
  {
    && AdaptAbsolute(times[i - 1], unit, policy).Ok? && AdaptAbsolute(times[i], unit, policy).Ok?
    && AdaptAbsolute(times[i], unit, policy).value.ticks <= AdaptAbsolute(times[i - 1], unit, policy).value.ticks
  }

  /** Element `i` follows its predecessor in time and in ticks and is itself adaptable. */
  predicate Accepted(times: seq<Rational>, unit: AdapterUnit, policy: RoundingPolicy, i: nat)
    requires i < |times|
  {
    && AdaptAbsolute(times[i], unit, policy).Ok?
    && (i > 0 ==> Cmp(times[i - 1], times[i]) == Ordering.Less && !Collapses(times, unit, policy, i))
  }

  /** The first element that is not accepted decides the error. */
  predicate Rejected(times: seq<Rational>, unit: AdapterUnit, policy: RoundingPolicy, i: nat, error: TimeError)
    requires i < |times|
  {
    if i > 0 && Cmp(times[i - 1], times[i]) != Ordering.Less then error == InvalidRange
    else if AdaptAbsolute(times[i], unit, policy).Err? then error == AdaptAbsolute(times[i], unit, policy).error
    else i > 0 && Collapses(times, unit, policy, i) && error == NonMonotonicAdaptedTicks
  }

  predicate FirstRejected(times: seq<Rational>, unit: AdapterUnit, policy: RoundingPolicy, i: nat, error: TimeError) {
    && i < |times| && Rejected(times, unit, policy, i, error)
    && forall j :: 0 <= j < i ==> Accepted(times, unit, policy, j)
  }

  /** Each time is adapted on its own, so no error accumulates however long the sequence is. */
  method AdaptAbsoluteSequence(times: seq<Rational>, unit: AdapterUnit, policy: RoundingPolicy)
    returns (r: Result<seq<AdaptedTime>, TimeError>)
    ensures r.Ok? <==> forall i :: 0 <= i < |times| ==> Accepted(times, unit, policy, i)
    ensures r.Ok? ==> |r.value| == |times|
    ensures r.Ok? ==> forall i :: 0 <= i < |times| ==> AdaptAbsolute(times[i], unit, policy) == Ok(r.value[i])
    ensures r.Ok? ==> forall i :: 0 < i < |times| ==>
      Value(times[i - 1]) < Value(times[i]) && r.value[i - 1].ticks < r.value[i].ticks
    ensures r.Err? ==> exists i :: FirstRejected(times, unit, policy, i, r.error)
  {
    hide AdaptAbsolute, Cmp, Canonical, Value;
    var adapted: seq<AdaptedTime> := [];
    for i := 0 to |times|
      invariant |adapted| == i
      invariant forall j :: 0 <= j < i ==> Accepted(times, unit, policy, j)
      invariant forall j :: 0 <= j < i ==> AdaptAbsolute(times[j], unit, policy) == Ok(adapted[j])
    {
      if i > 0 && Cmp(times[i], times[i - 1]) != Greater {
        CmpOrdersValues(times[i], times[i - 1]);
        CmpOrdersValues(times[i - 1], times[i]);
        assert FirstRejected(times, unit, policy, i, InvalidRange) && !Accepted(times, unit, policy, i);
        return Err(InvalidRange);
      }
      if i > 0 {
        CmpOrdersValues(times[i], times[i - 1]);
        CmpOrdersValues(times[i - 1], times[i]);
      }
      var next := AdaptAbsolute(times[i], unit, policy);
      if next.Err? {
        assert FirstRejected(times, unit, policy, i, next.error) && !Accepted(times, unit, policy, i);
        return Err(next.error);
      }
      if i > 0 && next.value.ticks <= adapted[i - 1].ticks {
        assert Accepted(times, unit, policy, i - 1);
        assert FirstRejected(times, unit, policy, i, NonMonotonicAdaptedTicks) && !Accepted(times, unit, policy, i);
        return Err(NonMonotonicAdaptedTicks);
      }
      adapted := adapted + [next.value];
    }
    forall i | 0 < i < |times|
      ensures Value(times[i - 1]) < Value(times[i]) && adapted[i - 1].ticks < adapted[i].ticks
    {
      assert Accepted(times, unit, policy, i);
      CmpOrdersValues(times[i - 1], times[i]);
    }
    r := Ok(adapted);
  }

  /**
   * The error is that of the first element in the way: not later than the one before it, not adaptable, or no
   * more ticks than the one before it; all elements before it are adaptable and grow in time and in ticks.
   */
  lemma FirstErrorInOrder(
      times: seq<Rational>, unit: AdapterUnit, policy: RoundingPolicy, i: nat, error: TimeError)
    requires FirstRejected(times, unit, policy, i, error)
    ensures i < |times| && forall j :: 0 <= j < i ==> AdaptAbsolute(times[j], unit, policy).Ok?
    ensures forall j :: 0 < j < i ==>
      && Value(times[j - 1]) < Value(times[j])
      && AdaptAbsolute(times[j - 1], unit, policy).value.ticks < AdaptAbsolute(times[j], unit, policy).value.ticks
    ensures
      var next := AdaptAbsolute(times[i], unit, policy);
      if i > 0 && Value(times[i]) <= Value(times[i - 1]) then error == InvalidRange
      else if next.Err? then error == next.error
      else
        && i > 0 && next.value.ticks <= AdaptAbsolute(times[i - 1], unit, policy).value.ticks
        && error == NonMonotonicAdaptedTicks
  {
    hide AdaptAbsolute, Cmp, Canonical, Value;
    forall j | 0 <= j < i
      ensures AdaptAbsolute(times[j], unit, policy).Ok?
      ensures j > 0 ==> Value(times[j - 1]) < Value(times[j]) && !Collapses(times, unit, policy, j)
    {
      assert Accepted(times, unit, policy, j);
      if j > 0 {
        CmpOrdersValues(times[j - 1], times[j]);
      }
    }
    if i > 0 {
      CmpOrdersValues(times[i - 1], times[i]);
    }
  }

  /** Far enough apart that rounding keeps two times apart. */
  predicate FarApart(s: Rational, t: Rational, unit: AdapterUnit, policy: RoundingPolicy)
    requires TicksPerSecond(unit).Ok?
  {
    if policy.NearestEven? then Position(t, unit) > Position(s, unit) + 1.0
    else Position(t, unit) >= Position(s, unit) + 1.0
  }

  /** Gaps of a tick (more than a tick for NearestEven) never collapse. */
  lemma FarApartNeverCollapses(times: seq<Rational>, unit: AdapterUnit, policy: RoundingPolicy, i: nat)
    requires TicksPerSecond(unit).Ok? && 0 < i < |times|
    requires FarApart(times[i - 1], times[i], unit, policy)
    ensures !Collapses(times, unit, policy, i)
    ensures !Rejected(times, unit, policy, i, NonMonotonicAdaptedTicks)
  {
    hide AdaptAbsolute, Position, Rounds, Value, Canonical, Represents;
    var s, t := times[i - 1], times[i];
    AdaptationFailsOnlyByOverflow(t, unit, policy);
    if AdaptAbsolute(s, unit, policy).Ok? && AdaptAbsolute(t, unit, policy).Ok? {
      AdaptationIsExact(s, unit, policy);
      AdaptationIsExact(t, unit, policy);
      FarRoundsAreStrict(Position(s, unit), Position(t, unit),
        AdaptAbsolute(s, unit, policy).value.ticks, AdaptAbsolute(t, unit, policy).value.ticks, policy);
    }
  }

  /** A sequence spaced that way is never refused for collapsed ticks. */
  lemma WellSpacedIsNeverNonMonotonic(times: seq<Rational>, unit: AdapterUnit, policy: RoundingPolicy, i: nat)
    requires TicksPerSecond(unit).Ok?
    requires forall j :: 0 < j < |times| ==> FarApart(times[j - 1], times[j], unit, policy)
    ensures !FirstRejected(times, unit, policy, i, NonMonotonicAdaptedTicks)
  {
    hide AdaptAbsolute, Canonical, Position, Value;
    if i == 0 && i < |times| {
      AdaptationFailsOnlyByOverflow(times[0], unit, policy);
    } else if i < |times| {
      FarApartNeverCollapses(times, unit, policy, i);
    }
  }

  lemma FarRoundsAreStrict(x: real, y: real, p: int, q: int, policy: RoundingPolicy)
    requires Rounds(x, p, policy) && Rounds(y, q, policy)
    requires if policy.NearestEven? then y > x + 1.0 else y >= x + 1.0
    ensures p < q
  {
    assert p >= q ==> p as real >= q as real;
  }

  predicate EvenInteger(x: real) {
    x == x.Floor as real && x.Floor % 2 == 0
  }

  /** Two times exactly one tick apart, half a tick below and above an even tick. */
  predicate AroundEvenTick(s: Rational, t: Rational, unit: AdapterUnit)
    requires TicksPerSecond(unit).Ok?
  {
    Position(t, unit) == Position(s, unit) + 1.0 && EvenInteger(Position(s, unit) + 0.5)
  }

  /** Positions a tick or more apart round to one tick only around an even tick, and there they always do. */
  lemma TickApartRounds(x: real, y: real, p: int, q: int, policy: RoundingPolicy)
    requires Rounds(x, p, policy) && Rounds(y, q, policy) && y >= x + 1.0
    ensures q <= p <==> policy.NearestEven? && y == x + 1.0 && EvenInteger(x + 0.5)
  {
    assert q <= p ==> q as real <= p as real;
    assert p < q ==> p as real + 1.0 <= q as real;
    if policy.NearestEven? && q <= p {
      assert x + 0.5 == p as real;
    }
    if policy.NearestEven? && y == x + 1.0 && EvenInteger(x + 0.5) {
      var n := (x + 0.5).Floor;
      assert p == n || p == n - 1;
      assert q == n || q == n + 1;
    }
  }

  /** A gap of at least one tick collapses exactly around an even tick under NearestEven. */
  lemma CollapsesExactlyAroundEvenTicks(times: seq<Rational>, unit: AdapterUnit, policy: RoundingPolicy, i: nat)
    requires TicksPerSecond(unit).Ok? && 0 < i < |times|
    requires AdaptAbsolute(times[i - 1], unit, policy).Ok? && AdaptAbsolute(times[i], unit, policy).Ok?
    requires Position(times[i], unit) >= Position(times[i - 1], unit) + 1.0
    ensures Collapses(times, unit, policy, i)
      <==> policy.NearestEven? && AroundEvenTick(times[i - 1], times[i], unit)
  {
    hide AdaptAbsolute, Position, Rounds, EvenInteger, Value, Canonical, Represents;
    var s, t := times[i - 1], times[i];
    AdaptationIsExact(s, unit, policy);
    AdaptationIsExact(t, unit, policy);
    TickApartRounds(Position(s, unit), Position(t, unit),
      AdaptAbsolute(s, unit, policy).value.ticks, AdaptAbsolute(t, unit, policy).value.ticks, policy);
  }

  /** Every time is adaptable on its own and at least one tick after the one before it. */
  predicate TickApart(times: seq<Rational>, unit: AdapterUnit, policy: RoundingPolicy)
    requires TicksPerSecond(unit).Ok?
  {
    && (forall i :: 0 <= i < |times| ==> AdaptAbsolute(times[i], unit, policy).Ok?)
    && (forall i :: 0 < i < |times| ==> Position(times[i], unit) >= Position(times[i - 1], unit) + 1.0)
  }

  predicate MeetsEvenTick(times: seq<Rational>, unit: AdapterUnit)
    requires TicksPerSecond(unit).Ok?
  {
    exists i :: 0 < i < |times| && AroundEvenTick(times[i - 1], times[i], unit)
  }

  lemma FartherIsLater(s: Rational, t: Rational, unit: AdapterUnit)
    requires TicksPerSecond(unit).Ok? && Position(t, unit) >= Position(s, unit) + 1.0
    ensures Cmp(s, t) == Ordering.Less
  {
    hide Position, Value, Canonical, Cmp;
    CmpOrdersValues(s, t);
    if Value(t) <= Value(s) {
      PositionIsMonotone(t, s, unit);
    }
  }

  /** A sequence at least one tick apart is accepted exactly if NearestEven never meets an even tick half-way. */
  lemma TickApartAcceptedExactly(times: seq<Rational>, unit: AdapterUnit, policy: RoundingPolicy)
    requires TicksPerSecond(unit).Ok? && TickApart(times, unit, policy)
    ensures (forall i :: 0 <= i < |times| ==> Accepted(times, unit, policy, i))
      <==> !(policy.NearestEven? && MeetsEvenTick(times, unit))
    ensures forall i, error :: FirstRejected(times, unit, policy, i, error) ==> error == NonMonotonicAdaptedTicks
  {
    hide AdaptAbsolute, Position, AroundEvenTick, Collapses, Cmp, Canonical;
    forall i | 0 < i < |times|
      ensures Cmp(times[i - 1], times[i]) == Ordering.Less
      ensures Collapses(times, unit, policy, i)
        <==> policy.NearestEven? && AroundEvenTick(times[i - 1], times[i], unit)
    {
      FartherIsLater(times[i - 1], times[i], unit);
      CollapsesExactlyAroundEvenTicks(times, unit, policy, i);
    }
    if policy.NearestEven? && MeetsEvenTick(times, unit) {
      var i :| 0 < i < |times| && AroundEvenTick(times[i - 1], times[i], unit);
      assert !Accepted(times, unit, policy, i);
    }
  }

  /** Whole and half seconds at one tick a second: a canonical form, a value, a rounding. */
  lemma HalvesAreCanonical()
    ensures Canonical(Fraction(3, 2)) && Canonical(Fraction(5, 2))
    ensures Canonical(Fraction(1, 2)) && Canonical(Fraction(-1, 2))
    ensures Value(Fraction(3, 2)) == 1.5 && Value(Fraction(5, 2)) == 2.5
  {
    assert GcdOf(3, 2) == GcdOf(2, 1) == GcdOf(1, 0) == 1;
    assert GcdOf(5, 2) == GcdOf(2, 1) == GcdOf(1, 0) == 1;
    assert GcdOf(1, 2) == GcdOf(2, 1) == GcdOf(1, 0) == 1;
  }

  lemma HalvesRepresent(s: Rational, q: i64, e: Rational)
    requires Value(s) == q as real + Value(e) && Rounds(Value(s), q, NearestEven)
    ensures AdaptAbsolute(s, Samples(1), NearestEven).Ok?
    ensures Position(s, Samples(1)) == Value(s)
  {
    hide AdaptAbsolute, Value, Canonical, Rounds;
    assert Represents(s, Samples(1), NearestEven, q, e);
    AdaptationFailsOnlyByOverflow(s, Samples(1), NearestEven);
  }

  /** One tick is not enough for NearestEven: 1.5 and 2.5 ticks both become 2. */
  lemma OneTickCanCollapse()
    ensures
      var s, t := Fraction(3, 2), Fraction(5, 2);
      && Canonical(s) && Canonical(t)
      && Position(t, Samples(1)) == Position(s, Samples(1)) + 1.0
      && Collapses([s, t], Samples(1), NearestEven, 1)
  {
    hide AdaptAbsolute, Position, Canonical;
    HalvesAreCanonical();
    var s: Rational, t: Rational := Fraction(3, 2), Fraction(5, 2);
    HalvesRepresent(s, 2, Fraction(-1, 2));
    HalvesRepresent(t, 2, Fraction(1, 2));
    CollapsesExactlyAroundEvenTicks([s, t], Samples(1), NearestEven, 1);
  }
}
