/** Dynamic attestation fees (contracts/attestation/src/dynamic_fees.rs): a base fee lowered by
    a tier discount and a volume discount, both in basis points.
 */
module DynamicFees {
  import opened Base

  const MAX_TIER: nat := 9
  const FULL_BPS: nat := 10_000
  const SCALE: nat := 100_000_000

  datatype FeeConfig = FeeConfig(token: Address, collector: Address, baseFee: int, enabled: bool)

  datatype Schedule = Schedule(
    config: Option<FeeConfig>,
    tierDiscounts: map<nat, nat>,
    tiers: map<Address, nat>,
    counts: map<Address, nat>,
    thresholds: seq<nat>,
    discounts: seq<nat>)
  {
    /** `discounts[i]` belongs to `thresholds[i]`; only equally long lists are ever stored. */
    predicate Paired() {
      |thresholds| == |discounts|
    }

    function TierDiscountOf(b: Address): nat {
      Get(tierDiscounts, Get(tiers, b, 0), 0)
    }

    function CountOf(b: Address): nat {
      Get(counts, b, 0)
    }
  }

  const Free := Schedule(None, map[], map[], map[], [], [])

  /* ---------- Specification ---------- */

  /** The discount of the last bracket whose threshold is reached; scans from the back. */
  function VolumeDiscount(thresholds: seq<nat>, discounts: seq<nat>, count: nat): nat
    requires |thresholds| == |discounts|
  {
    if thresholds == [] then 0
    else
      var n := |thresholds| - 1;
      if count >= thresholds[n] then discounts[n] else VolumeDiscount(thresholds[..n], discounts[..n], count)
  }

  /** Both multiplications are checked against the 128-bit range, and so is the result. */
  function ComputeFee(base: int, tierBps: nat, volumeBps: nat): Option<int> {
    var once := base * (FULL_BPS - tierBps);
    var twice := once * (FULL_BPS - volumeBps);
    if base < 0 || !FitsI128(once) || !FitsI128(twice) then None
    else
      var fee := TruncDiv(twice, SCALE);
      if 0 <= fee <= base then Some(fee) else None
  }

  function CalculateFee(s: Schedule, b: Address): Option<int>
    requires s.Paired()
  {
    match s.config
    case None => Some(0)
    case Some(c) =>
      if !c.enabled then Some(0)
      else ComputeFee(c.baseFee, s.TierDiscountOf(b), VolumeDiscount(s.thresholds, s.discounts, s.CountOf(b)))
  }

  predicate Ascending(thresholds: seq<nat>) {
    forall i, j :: 0 <= i < j < |thresholds| ==> thresholds[i] < thresholds[j]
  }

  predicate AtMostFull(discounts: seq<nat>) {
    forall i :: 0 <= i < |discounts| ==> discounts[i] <= FULL_BPS
  }

  datatype Call =
    | Configures(config: FeeConfig)
    | Enables(enabled: bool)
    | DiscountsTier(tier: nat, bps: nat)
    | AssignsTier(business: Address, tier: nat)
    | SetsBrackets(thresholds: seq<nat>, discounts: seq<nat>)
    | Counts(business: Address)

  function Attempt(s: Schedule, c: Call): Option<Schedule> {
    match c
    case Configures(config) =>
      if config.baseFee >= 0 then Some(s.(config := Some(config))) else None
    case Enables(enabled) =>
      if s.config.Some? then Some(s.(config := Some(s.config.value.(enabled := enabled)))) else Some(s)
    case DiscountsTier(tier, bps) =>
      if tier <= MAX_TIER && bps <= FULL_BPS then Some(s.(tierDiscounts := s.tierDiscounts[tier := bps])) else None
    case AssignsTier(b, tier) =>
      if tier <= MAX_TIER then Some(s.(tiers := s.tiers[b := tier])) else None
    case SetsBrackets(thresholds, discounts) =>
      if |thresholds| == |discounts| && Ascending(thresholds) && AtMostFull(discounts)
      then Some(s.(thresholds := thresholds, discounts := discounts)) else None
    case Counts(b) =>
      if s.CountOf(b) < U64_MAX then Some(s.(counts := s.counts[b := s.CountOf(b) + 1])) else None
  }

  function After(calls: seq<Call>): Schedule {
    if calls == [] then Free
    else
      var before := After(calls[..|calls| - 1]);
      Attempt(before, calls[|calls| - 1]).GetOr(before)
  }

  /** Only counting counts. */
  lemma SettersKeepCounts(s: Schedule, c: Call)
    requires !c.Counts? && Attempt(s, c).Some?
    ensures Attempt(s, c).value.counts == s.counts
    ensures s.Paired() ==> Attempt(s, c).value.Paired()
  {
  }

  /* ---------- The bracket that applies ---------- */

  /** Bracket `k` has the largest threshold that `count` reaches. */
  ghost predicate Applies(thresholds: seq<nat>, k: nat, count: nat) {
    && k < |thresholds|
    && thresholds[k] <= count
    && forall i :: 0 <= i < |thresholds| && thresholds[i] <= count ==> thresholds[i] <= thresholds[k]
  }

  /** The backward scan picks the discount of the largest threshold reached, or none. */
  lemma {:induction false} ScanPicksLargestThreshold(thresholds: seq<nat>, discounts: seq<nat>, count: nat)
    requires |thresholds| == |discounts| && Ascending(thresholds)
    ensures forall k: nat :: Applies(thresholds, k, count) ==>
              VolumeDiscount(thresholds, discounts, count) == discounts[k]
    ensures (forall k: nat :: !Applies(thresholds, k, count)) ==>
              && VolumeDiscount(thresholds, discounts, count) == 0
              && forall i :: 0 <= i < |thresholds| ==> thresholds[i] > count
  {
    if thresholds != [] {
      var n := |thresholds| - 1;
      if count >= thresholds[n] {
        assert Applies(thresholds, n, count);
      } else {
        ScanPicksLargestThreshold(thresholds[..n], discounts[..n], count);
        assert forall k: nat :: Applies(thresholds, k, count) <==> Applies(thresholds[..n], k, count);
      }
    }
  }

  lemma {:induction false} ScanStaysInRange(thresholds: seq<nat>, discounts: seq<nat>, count: nat)
    requires |thresholds| == |discounts| && AtMostFull(discounts)
    ensures VolumeDiscount(thresholds, discounts, count) <= FULL_BPS
  {
    if thresholds != [] {
      ScanStaysInRange(thresholds[..|thresholds| - 1], discounts[..|discounts| - 1], count);
    }
  }

  /* ---------- The arithmetic of one fee ---------- */

  /** Exactly when a fee exists: the two checked products must fit. The final range check on
      the result never fails. */
  lemma FeeExistsIff(base: int, tierBps: nat, volumeBps: nat)
    requires tierBps <= FULL_BPS && volumeBps <= FULL_BPS
    ensures ComputeFee(base, tierBps, volumeBps).Some? <==>
              && 0 <= base
              && base * (FULL_BPS - tierBps) <= I128_MAX
              && base * (FULL_BPS - tierBps) * (FULL_BPS - volumeBps) <= I128_MAX
  {
    var t, v := FULL_BPS - tierBps, FULL_BPS - volumeBps;
    if 0 <= base {
      ProductBounds(base, t, v);
      FloorBounds(base * t * v, base);
    }
  }

  lemma ProductBounds(base: int, t: nat, v: nat)
    requires 0 <= base && t <= FULL_BPS && v <= FULL_BPS
    ensures 0 <= base * t <= base * FULL_BPS
    ensures 0 <= base * t * v <= base * SCALE
  {
    assert base * t <= base * FULL_BPS by { MulMonotone(t, FULL_BPS, base); }
    MulMonotone(v, FULL_BPS, base * t);
    MulMonotone(base * t, base * FULL_BPS, FULL_BPS);
    assert base * t >= 0 && (base * t) * v >= 0;
  }

  lemma MulMonotone(a: int, b: int, c: int)
    requires a <= b && 0 <= c
    ensures a * c <= b * c && c * a <= c * b
  {
  }

  lemma FloorBounds(product: int, base: int)
    requires 0 <= product <= base * SCALE
    ensures 0 <= TruncDiv(product, SCALE) <= base
    ensures TruncDiv(product, SCALE) * SCALE <= product < (TruncDiv(product, SCALE) + 1) * SCALE
  {
  }

  /** A fee is the exact floor of the discounted base, and never leaves `[0, base]`. */
  lemma FeeIsExactFloor(base: int, tierBps: nat, volumeBps: nat)
    requires tierBps <= FULL_BPS && volumeBps <= FULL_BPS
    requires ComputeFee(base, tierBps, volumeBps).Some?
    ensures
      var fee := ComputeFee(base, tierBps, volumeBps).value;
      var product := base * (FULL_BPS - tierBps) * (FULL_BPS - volumeBps);
      0 <= fee <= base && fee * SCALE <= product < (fee + 1) * SCALE
  {
    ProductBounds(base, FULL_BPS - tierBps, FULL_BPS - volumeBps);
    FloorBounds(base * (FULL_BPS - tierBps) * (FULL_BPS - volumeBps), base);
  }

  /** No fee can overflow while the base stays within the 128-bit range divided by the scale. */
  lemma SmallBaseNeverOverflows(base: int, tierBps: nat, volumeBps: nat)
    requires 0 <= base <= I128_MAX / SCALE && tierBps <= FULL_BPS && volumeBps <= FULL_BPS
    ensures ComputeFee(base, tierBps, volumeBps).Some?
  {
    ProductBounds(base, FULL_BPS - tierBps, FULL_BPS - volumeBps);
    FeeExistsIff(base, tierBps, volumeBps);
  }

  lemma FloorIsMonotone(x: int, y: int)
    requires 0 <= x <= y
    ensures TruncDiv(x, SCALE) <= TruncDiv(y, SCALE)
  {
  }

  /** A larger base or a smaller discount never lowers the fee. */
  lemma FeeIsMonotone(base: int, tierBps: nat, volumeBps: nat, base2: int, tierBps2: nat, volumeBps2: nat)
    requires base <= base2 && tierBps2 <= tierBps <= FULL_BPS && volumeBps2 <= volumeBps <= FULL_BPS
    requires ComputeFee(base, tierBps, volumeBps).Some? && ComputeFee(base2, tierBps2, volumeBps2).Some?
    ensures ComputeFee(base, tierBps, volumeBps).value <= ComputeFee(base2, tierBps2, volumeBps2).value
  {
    var t, v, t2, v2 := FULL_BPS - tierBps, FULL_BPS - volumeBps, FULL_BPS - tierBps2, FULL_BPS - volumeBps2;
    ProductBounds(base, t, v);
    ProductBounds(base2, t2, v2);
    MulMonotone(base, base2, t);
    MulMonotone(t, t2, base2);
    assert base * t <= base2 * t2;
    MulMonotone(base * t, base2 * t2, v);
    MulMonotone(v, v2, base2 * t2);
    FloorIsMonotone(base * t * v, base2 * t2 * v2);
  }

  /** Charging with a full discount first multiplies by zero; charging with it last first
      multiplies the base by the other factor, which may not fit. */
  predicate OverflowsFirst(base: int, first: nat, second: nat) {
    second == FULL_BPS && base * (FULL_BPS - first) > I128_MAX
  }

  lemma FactorAtLeastOne(x: int, factor: nat)
    requires 0 <= x && factor >= 1
    ensures x <= x * factor
  {
  }

  /** Exactly when the two discounts commute, on every base there is: the checked products are
      taken in a fixed order, so the orders differ when one discount is full and the base times
      the other factor leaves the 128-bit range. */
  lemma DiscountsCommuteIff(base: int, tierBps: nat, volumeBps: nat)
    requires FitsI128(base) && tierBps <= FULL_BPS && volumeBps <= FULL_BPS
    ensures ComputeFee(base, tierBps, volumeBps) == ComputeFee(base, volumeBps, tierBps) <==>
              !OverflowsFirst(base, tierBps, volumeBps) && !OverflowsFirst(base, volumeBps, tierBps)
  {
    var t, v := FULL_BPS - tierBps, FULL_BPS - volumeBps;
    FeeExistsIff(base, tierBps, volumeBps);
    FeeExistsIff(base, volumeBps, tierBps);
    ProductsCommute(base, t, v);
    if base >= 0 {
      ProductBounds(base, t, v);
      ProductBounds(base, v, t);
      if v >= 1 {
        FactorAtLeastOne(base * t, v);
      }
      if t >= 1 {
        FactorAtLeastOne(base * v, t);
      }
    } else {
      MulMonotone(base, 0, t);
      MulMonotone(base, 0, v);
    }
  }

  lemma ProductsCommute(base: int, t: int, v: int)
    ensures base * t * v == base * v * t
  {
  }

  /** The documentation says the order never matters. Above a ten-thousandth of the range a
      full tier discount makes the attestation free, and a full volume discount aborts it. */
  lemma FullDiscountsDiffer(base: int)
    requires I128_MAX / FULL_BPS < base <= I128_MAX
    ensures ComputeFee(base, FULL_BPS, 0) == Some(0)
    ensures ComputeFee(base, 0, FULL_BPS) == None
  {
    assert base * FULL_BPS > I128_MAX;
    FeeExistsIff(base, 0, FULL_BPS);
    assert base * 0 * FULL_BPS == 0;
  }

  /** Splitting a base in two costs at most one unit of rounding. */
  lemma FeeIsAlmostAdditive(x: int, y: int, tierBps: nat, volumeBps: nat)
    requires 0 <= x && 0 <= y && tierBps <= FULL_BPS && volumeBps <= FULL_BPS
    requires ComputeFee(x + y, tierBps, volumeBps).Some?
    ensures ComputeFee(x, tierBps, volumeBps).Some? && ComputeFee(y, tierBps, volumeBps).Some?
    ensures
      var whole := ComputeFee(x + y, tierBps, volumeBps).value;
      var parts := ComputeFee(x, tierBps, volumeBps).value + ComputeFee(y, tierBps, volumeBps).value;
      parts <= whole <= parts + 1
  {
    var t, v := FULL_BPS - tierBps, FULL_BPS - volumeBps;
    Distributes(x, y, t, v);
    ProductBounds(x, t, v);
    ProductBounds(y, t, v);
    ProductBounds(x + y, t, v);
    FeeExistsIff(x + y, tierBps, volumeBps);
    FeeExistsIff(x, tierBps, volumeBps);
    FeeExistsIff(y, tierBps, volumeBps);
    FeeIsExactFloor(x, tierBps, volumeBps);
    FeeIsExactFloor(y, tierBps, volumeBps);
    FeeIsExactFloor(x + y, tierBps, volumeBps);
  }

  lemma Distributes(x: int, y: int, t: int, v: int)
    ensures (x + y) * t == x * t + y * t
    ensures (x + y) * t * v == x * t * v + y * t * v
  {
    assert (x + y) * t == x * t + y * t;
    assert (x * t + y * t) * v == x * t * v + y * t * v;
  }

  /* ---------- Every reachable schedule ---------- */

  ghost predicate Inv(s: Schedule) {
    && s.Paired() && Ascending(s.thresholds) && AtMostFull(s.discounts)
    && (s.config.Some? ==> s.config.value.baseFee >= 0)
    && (forall tier :: tier in s.tierDiscounts ==> s.tierDiscounts[tier] <= FULL_BPS)
  }

  lemma {:induction false} EveryScheduleIsValid(calls: seq<Call>)
    ensures Inv(After(calls))
  {
    if calls != [] {
      EveryScheduleIsValid(calls[..|calls| - 1]);
    }
  }

  /** In every reachable schedule a business is charged the exact floor of its discounted base
      fee; below the overflow bound charging can never abort. */
  lemma EveryFeeIsTheDiscountedFloor(calls: seq<Call>, b: Address)
    ensures
      var s := After(calls);
      s.Paired() && s.config.Some? && s.config.value.enabled ==>
        var base, bps := s.config.value.baseFee, VolumeDiscount(s.thresholds, s.discounts, s.CountOf(b));
        && s.TierDiscountOf(b) <= FULL_BPS && bps <= FULL_BPS
        && (base <= I128_MAX / SCALE ==> CalculateFee(s, b).Some?)
        && (CalculateFee(s, b).Some? ==>
              var fee, product := CalculateFee(s, b).value, base * (FULL_BPS - s.TierDiscountOf(b)) * (FULL_BPS - bps);
              0 <= fee <= base && fee * SCALE <= product < (fee + 1) * SCALE)
    ensures After(calls).Paired()
  {
    EveryScheduleIsValid(calls);
    var s := After(calls);
    if s.config.Some? && s.config.value.enabled {
      var base, bps := s.config.value.baseFee, VolumeDiscount(s.thresholds, s.discounts, s.CountOf(b));
      ScanStaysInRange(s.thresholds, s.discounts, s.CountOf(b));
      if base <= I128_MAX / SCALE {
        SmallBaseNeverOverflows(base, s.TierDiscountOf(b), bps);
      }
      if CalculateFee(s, b).Some? {
        FeeIsExactFloor(base, s.TierDiscountOf(b), bps);
      }
    }
  }

  /** Exactly when a business can be charged under an enabled configuration: the tier discount is
      taken first, then the volume discount, and each product must fit. */
  lemma CalculateFeeExistsIff(s: Schedule, b: Address)
    requires Inv(s) && s.config.Some? && s.config.value.enabled
    ensures
      var base, once := s.config.value.baseFee, s.config.value.baseFee * (FULL_BPS - s.TierDiscountOf(b));
      CalculateFee(s, b).Some? <==>
        && once <= I128_MAX
        && once * (FULL_BPS - VolumeDiscount(s.thresholds, s.discounts, s.CountOf(b))) <= I128_MAX
  {
    var volume := VolumeDiscount(s.thresholds, s.discounts, s.CountOf(b));
    ScanStaysInRange(s.thresholds, s.discounts, s.CountOf(b));
    FeeExistsIff(s.config.value.baseFee, s.TierDiscountOf(b), volume);
  }

  /* ---------- The settings in force ---------- */

  /** Exactly which calls are accepted. */
  lemma AttemptCommitsIff(s: Schedule, c: Call)
    ensures Attempt(s, c).Some? <==>
              match c
              case Configures(config) => 0 <= config.baseFee
              case Enables(_) => true
              case DiscountsTier(tier, bps) => tier <= 9 && bps <= 10_000
              case AssignsTier(_, tier) => tier <= 9
              case SetsBrackets(thresholds, discounts) =>
                && |thresholds| == |discounts|
                && (forall i :: 0 <= i < |thresholds| - 1 ==> thresholds[i] < thresholds[i + 1])
                && (forall i :: 0 <= i < |discounts| ==> discounts[i] <= 10_000)
              case Counts(b) => s.CountOf(b) < U64_MAX
  {
    if c.SetsBrackets? && forall i :: 0 <= i < |c.thresholds| - 1 ==> c.thresholds[i] < c.thresholds[i + 1] {
      NeighboursAscend(c.thresholds);
    }
  }

  lemma {:induction false} NeighboursAscend(xs: seq<nat>)
    requires forall i :: 0 <= i < |xs| - 1 ==> xs[i] < xs[i + 1]
    ensures Ascending(xs)
  {
    if |xs| >= 2 {
      var n := |xs| - 1;
      NeighboursAscend(xs[..n]);
      assert xs[n - 1] < xs[(n - 1) + 1];
      assert forall i :: 0 <= i < n ==> xs[i] == xs[..n][i];
    }
  }

  /** The configuration last accepted, with the switch thrown last since. */
  function FeeInForce(calls: seq<Call>): Option<FeeConfig> {
    if calls == [] then None
    else
      var before, last := FeeInForce(calls[..|calls| - 1]), calls[|calls| - 1];
      if last.Configures? && last.config.baseFee >= 0 then Some(last.config)
      else if last.Enables? && before.Some? then Some(before.value.(enabled := last.enabled))
      else before
  }

  function TierInForce(calls: seq<Call>, b: Address): nat {
    if calls == [] then 0
    else
      var last := calls[|calls| - 1];
      if last.AssignsTier? && last.business == b && last.tier <= 9 then last.tier
      else TierInForce(calls[..|calls| - 1], b)
  }

  function BpsInForce(calls: seq<Call>, tier: nat): nat {
    if calls == [] then 0
    else
      var last := calls[|calls| - 1];
      if last.DiscountsTier? && last.tier == tier && tier <= 9 && last.bps <= 10_000 then last.bps
      else BpsInForce(calls[..|calls| - 1], tier)
  }

  function TimesCounted(calls: seq<Call>, b: Address): nat {
    if calls == [] then 0
    else TimesCounted(calls[..|calls| - 1], b) + if calls[|calls| - 1] == Counts(b) then 1 else 0
  }

  lemma {:induction false} TiersAreTheLastSet(calls: seq<Call>, b: Address, tier: nat)
    ensures Get(After(calls).tiers, b, 0) == TierInForce(calls, b)
    ensures Get(After(calls).tierDiscounts, tier, 0) == BpsInForce(calls, tier)
  {
    if calls != [] {
      TiersAreTheLastSet(calls[..|calls| - 1], b, tier);
    }
  }

  lemma {:induction false} ConfigIsTheLastSet(calls: seq<Call>)
    ensures After(calls).config == FeeInForce(calls)
  {
    if calls != [] {
      ConfigIsTheLastSet(calls[..|calls| - 1]);
    }
  }

  lemma {:induction false} CountsAreExact(calls: seq<Call>, b: Address)
    ensures After(calls).CountOf(b) == Min(TimesCounted(calls, b), U64_MAX)
  {
    if calls != [] {
      CountsAreExact(calls[..|calls| - 1], b);
    }
  }

  /** In every run the fee configuration, the tier of a business and the discount of that tier are
      those last set, and its counter is how often it was counted. */
  lemma SettingsAreTheLastSet(calls: seq<Call>, b: Address)
    ensures After(calls).config == FeeInForce(calls)
    ensures After(calls).TierDiscountOf(b) == BpsInForce(calls, TierInForce(calls, b))
    ensures After(calls).CountOf(b) == Min(TimesCounted(calls, b), U64_MAX)
  {
    ConfigIsTheLastSet(calls);
    TiersAreTheLastSet(calls, b, TierInForce(calls, b));
    CountsAreExact(calls, b);
  }

  /** So are the volume brackets: an accepted pair of lists replaces them whole. */
  lemma BracketsAreReplaced(s: Schedule, c: Call)
    requires Attempt(s, c).Some?
    ensures
      var next := Attempt(s, c).value;
      if c.SetsBrackets? then next.thresholds == c.thresholds && next.discounts == c.discounts
      else next.thresholds == s.thresholds && next.discounts == s.discounts
  {
  }

  /* ---------- The contract ---------- */

  class FeeSchedule {
    var config: Option<FeeConfig>
    var tierDiscounts: map<nat, nat>
    var tiers: map<Address, nat>
    var counts: map<Address, nat>
    var thresholds: seq<nat>
    var discounts: seq<nat>

    function Model(): Schedule
      reads this
    {
      Schedule(config, tierDiscounts, tiers, counts, thresholds, discounts)
    }

    constructor ()
      ensures Model() == Free
    {
      config, tierDiscounts, tiers, counts, thresholds, discounts := None, map[], map[], map[], [], [];
    }

    /** Brings back the storage of an aborted transaction. */
    method Restore(to: Schedule)
      modifies this
      ensures Model() == to
    {
      config, tierDiscounts, tiers := to.config, to.tierDiscounts, to.tiers;
      counts, thresholds, discounts := to.counts, to.thresholds, to.discounts;
    }

    method ConfigureFees(c: FeeConfig) returns (ok: bool)
      modifies this
      ensures Tx(ok, Attempt(old(Model()), Configures(c)), old(Model()), Model())
    {
      if c.baseFee < 0 {
        return false;
      }
      config := Some(c);
      return true;
    }

    method SetFeeEnabled(enabled: bool)
      modifies this
      ensures Some(Model()) == Attempt(old(Model()), Enables(enabled))
    {
      if config.Some? {
        config := Some(config.value.(enabled := enabled));
      }
    }

    method SetTierDiscount(tier: nat, bps: nat) returns (ok: bool)
      modifies this
      ensures Tx(ok, Attempt(old(Model()), DiscountsTier(tier, bps)), old(Model()), Model())
    {
      ok := tier <= MAX_TIER && bps <= FULL_BPS;
      if ok {
        tierDiscounts := tierDiscounts[tier := bps];
      }
    }

    method SetBusinessTier(b: Address, tier: nat) returns (ok: bool)
      modifies this
      ensures Tx(ok, Attempt(old(Model()), AssignsTier(b, tier)), old(Model()), Model())
    {
      ok := tier <= MAX_TIER;
      if ok {
        tiers := tiers[b := tier];
      }
    }

    /** Compares neighbours only, which is enough for the whole list to ascend. */
    method SetVolumeBrackets(ts: seq<nat>, ds: seq<nat>) returns (ok: bool)
      modifies this
      ensures Tx(ok, Attempt(old(Model()), SetsBrackets(ts, ds)), old(Model()), Model())
    {
      if |ts| != |ds| {
        return false;
      }
      var i := 1;
      while i < |ts|
        invariant 1 <= i
        invariant i <= |ts| || |ts| == 0
        invariant Model() == old(Model())
        invariant forall x, y :: 0 <= x < y < i && y < |ts| ==> ts[x] < ts[y]
      {
        if ts[i] <= ts[i - 1] {
          assert !Ascending(ts);
          return false;
        }
        i := i + 1;
      }
      for k := 0 to |ds|
        invariant Model() == old(Model())
        invariant forall x :: 0 <= x < k ==> ds[x] <= FULL_BPS
      {
        if ds[k] > FULL_BPS {
          return false;
        }
      }
      thresholds, discounts := ts, ds;
      return true;
    }

    method VolumeDiscountForCount(count: nat) returns (bps: nat)
      requires Model().Paired()
      ensures bps == VolumeDiscount(thresholds, discounts, count)
    {
      var i := |thresholds|;
      assert thresholds[..i] == thresholds && discounts[..i] == discounts;
      while i > 0
        invariant i <= |thresholds|
        invariant VolumeDiscount(thresholds, discounts, count) == VolumeDiscount(thresholds[..i], discounts[..i], count)
      {
        i := i - 1;
        assert thresholds[..i + 1][..i] == thresholds[..i] && discounts[..i + 1][..i] == discounts[..i];
        if count >= thresholds[i] {
          return discounts[i];
        }
      }
      return 0;
    }

    method CalculateFeeFor(b: Address) returns (fee: Option<int>)
      requires Model().Paired()
      ensures fee == CalculateFee(Model(), b)
    {
      if config.None? || !config.value.enabled {
        return Some(0);
      }
      var tier := Get(tiers, b, 0);
      var bps := VolumeDiscountForCount(Get(counts, b, 0));
      return ComputeFee(config.value.baseFee, Get(tierDiscounts, tier, 0), bps);
    }

    method IncrementBusinessCount(b: Address) returns (ok: bool)
      modifies this
      ensures Tx(ok, Attempt(old(Model()), Counts(b)), old(Model()), Model())
    {
      var count := Get(counts, b, 0);
      ok := count < U64_MAX;
      if ok {
        counts := counts[b := count + 1];
      }
    }
  }
}
