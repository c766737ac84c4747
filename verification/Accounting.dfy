/** internal/accounting: the halving schedule, the era-based subsidy total, and
    one block's monetary facts. */
module Accounting {
  import opened Wrappers
  import opened Errors
  import opened Int64

  datatype SubsidySchedule = SubsidySchedule(initial: int64, interval: int64, maxHalvings: int64)

  const INITIAL_SUBSIDY: int64 := 100 * 100_000_000
  const MAX_HALVINGS: int64 := 64
  const MAINNET := SubsidySchedule(INITIAL_SUBSIDY, 500_000, MAX_HALVINGS)
  const REGTEST := SubsidySchedule(INITIAL_SUBSIDY, 150, MAX_HALVINGS)

  function ScheduleForNetwork(network: string): (r: Result<SubsidySchedule, Error>)
    ensures r.Ok? <==> network in {"main", "test", "signet", "regtest"}
    ensures r.Ok? ==> Sound(r.value) && r.value.initial == 10_000_000_000 && r.value.maxHalvings == 64
    ensures r.Ok? ==> r.value.interval == if network == "regtest" then 150 else 500_000
    ensures r.Err? ==> r.error == UnknownNetwork
  {
    match network
    case "main" => Ok(MAINNET)
    case "test" => Ok(MAINNET)
    case "signet" => Ok(MAINNET)
    case "regtest" => Ok(REGTEST)
    case _ => Err(UnknownNetwork)
  }

  /** What makes the era arithmetic stay inside int64; every network has it. */
  predicate Sound(sch: SubsidySchedule) {
    && sch.interval > 0
    && sch.initial >= 0
    && 0 <= sch.maxHalvings <= 64
    && sch.interval * 65 <= MAX_INT64
    && 2 * sch.interval * sch.initial <= MAX_INT64
  }

  function Pow2(n: nat): (r: nat)
    ensures r >= 1
  {
    if n == 0 then 1 else 2 * Pow2(n - 1)
  }

  lemma QuotientNonNegative(x: nat, p: nat)
    requires p >= 1
    ensures x / p >= 0
  {
  }

  /** Go's x >> n for a non-negative x. */
  function ShiftRight(x: nat, n: nat): nat {
    var p := Pow2(n);
    QuotientNonNegative(x, p);
    x / p
  }

  function BlockSubsidy(sch: SubsidySchedule, height: int64): Result<int64, Error>
    requires Sound(sch)
  {
    if height < 0 then Err(NegativeHeight)
    else
      var halvings := height / sch.interval;
      if halvings >= sch.maxHalvings then Ok(0)
      else
        ShiftBound(sch.initial, halvings);
        Ok(ShiftRight(sch.initial, halvings))
  }

  lemma ShiftBound(x: nat, n: nat)
    ensures 0 <= ShiftRight(x, n) <= x
  {
    DivBound(x, Pow2(n), 1);
  }

  lemma ShiftNext(x: nat, n: nat)
    ensures 2 * ShiftRight(x, n + 1) <= ShiftRight(x, n)
  {
    var p := Pow2(n);
    var b := x / (2 * p);
    DivBound(x, 2 * p, 1);
    assert x == b * (2 * p) + x % (2 * p);
    assert b * (2 * p) == (2 * b) * p;
    QuotientAtLeast(x, 2 * b, p);
  }

  lemma {:induction false} ShiftZeroStays(x: nat, m: nat, n: nat)
    requires m <= n && ShiftRight(x, m) == 0
    ensures ShiftRight(x, n) == 0
  {
    if m < n {
      ShiftZeroStays(x, m, n - 1);
      ShiftNext(x, n - 1);
    }
  }

  /** The subsidy as a total function of a height of any size. */
  function SubsidyAt(sch: SubsidySchedule, height: nat): nat
    requires Sound(sch)
  {
    var halvings := height / sch.interval;
    if halvings >= sch.maxHalvings then 0 else ShiftRight(sch.initial, halvings)
  }

  lemma {:induction false} Pow2Is(n: nat)
    requires n == 33 || n == 34
    ensures Pow2(n) == if n == 33 then 8_589_934_592 else 17_179_869_184
  {
    assert Pow2(11) == 2048;
    Pow2Adds(11, 11);
    Pow2Adds(22, 11);
    assert Pow2(34) == 2 * Pow2(33);
  }

  lemma {:induction false} Pow2Adds(m: nat, n: nat)
    ensures Pow2(m + n) == Pow2(m) * Pow2(n)
  {
    if n > 0 {
      Pow2Adds(m, n - 1);
      assert Pow2(m + n) == 2 * Pow2(m + n - 1);
    }
  }

  /** On every network the subsidy starts at 100 QOGE and runs out after 34 halvings, long
      before the 64 that Go's shift would allow. */
  lemma SubsidyRunsOut(network: string, height: nat)
    requires ScheduleForNetwork(network).Ok?
    ensures var sch := ScheduleForNetwork(network).value;
            && SubsidyAt(sch, 0) == 10_000_000_000
            && (SubsidyAt(sch, height) == 0 <==> height >= if network == "regtest" then 5_100 else 17_000_000)
  {
    var sch := ScheduleForNetwork(network).value;
    var halvings := height / sch.interval;
    assert SubsidyAt(sch, 0) == ShiftRight(10_000_000_000, 0);
    Pow2Is(33);
    Pow2Is(34);
    assert ShiftRight(10_000_000_000, 33) == 1 && ShiftRight(10_000_000_000, 34) == 0;
    if halvings >= 34 {
      ShiftZeroStays(10_000_000_000, 34, halvings);
    } else if ShiftRight(10_000_000_000, halvings) == 0 {
      ShiftZeroStays(10_000_000_000, halvings, 33);
    }
  }

  /** The slow definition: one term for every height below n. */
  ghost function SubsidySum(sch: SubsidySchedule, n: nat): nat
    requires Sound(sch)
  {
    if n == 0 then 0 else SubsidySum(sch, n - 1) + SubsidyAt(sch, n - 1)
  }

  lemma {:induction false} SubsidySumMonotone(sch: SubsidySchedule, m: nat, n: nat)
    requires Sound(sch) && m <= n
    ensures SubsidySum(sch, m) <= SubsidySum(sch, n)
  {
    if m < n {
      SubsidySumMonotone(sch, m, n - 1);
    }
  }

  lemma MulNonNegative(a: int, b: int)
    requires a >= 0 && b >= 0
    ensures a * b >= 0
  {
  }

  lemma MulStep(k: int, v: int)
    ensures (k + 1) * v == k * v + v
  {
  }

  lemma MultipleMagnitude(e: int, d: int)
    requires d > 0
    ensures e >= 1 ==> e * d >= d
    ensures e <= -1 ==> e * d <= -d
  {
    if e >= 1 {
      MulNonNegative(e - 1, d);
    } else if e <= -1 {
      MulNonNegative(-e - 1, d);
    }
  }

  lemma QuotientIs(h: int, q: int, d: int)
    requires d > 0 && q * d <= h < q * d + d
    ensures h / d == q
  {
    var p := h / d;
    assert h == p * d + h % d;
    var e := p - q;
    assert p * d == q * d + e * d;
    MultipleMagnitude(e, d);
  }

  lemma QuotientAtLeast(h: int, q: int, d: int)
    requires d > 0 && q * d <= h
    ensures h / d >= q
  {
    var p := h / d;
    assert h == p * d + h % d;
    var e := p - q;
    assert p * d == q * d + e * d;
    MultipleMagnitude(e, d);
  }

  /** A stretch of equal subsidies sums to a product. */
  lemma {:induction false} SumOfConstant(sch: SubsidySchedule, start: nat, k: nat, v: nat)
    requires Sound(sch)
    requires forall h: nat :: start <= h < start + k ==> SubsidyAt(sch, h) == v
    ensures SubsidySum(sch, start + k) == SubsidySum(sch, start) + k * v
  {
    if k > 0 {
      SumOfConstant(sch, start, k - 1, v);
      MulStep(k - 1, v);
    }
  }

  /** Inside one era every height contributes the same subsidy. */
  lemma SumWithinEra(sch: SubsidySchedule, era: nat, start: nat, k: nat)
    requires Sound(sch) && era < sch.maxHalvings && k <= sch.interval && start == era * sch.interval
    ensures SubsidySum(sch, start + k) == SubsidySum(sch, start) + k * ShiftRight(sch.initial, era)
  {
    forall h: nat | start <= h < start + k
      ensures SubsidyAt(sch, h) == ShiftRight(sch.initial, era)
    {
      QuotientIs(h, era, sch.interval);
    }
    SumOfConstant(sch, start, k, ShiftRight(sch.initial, era));
  }

  /** Once an era pays nothing, no later height pays anything. */
  lemma SumAfterExhaustion(sch: SubsidySchedule, era: nat, start: nat, n: nat)
    requires Sound(sch) && start == era * sch.interval && start <= n
    requires era >= sch.maxHalvings || ShiftRight(sch.initial, era) == 0
    ensures SubsidySum(sch, n) == SubsidySum(sch, start)
  {
    forall h: nat | start <= h < start + (n - start)
      ensures SubsidyAt(sch, h) == 0
    {
      QuotientAtLeast(h, era, sch.interval);
      if era < sch.maxHalvings {
        ShiftZeroStays(sch.initial, era, h / sch.interval);
      }
    }
    SumOfConstant(sch, start, n - start, 0);
  }

  lemma HalvingSaves(a: int, b: int, interval: int)
    requires 2 * b <= a && interval >= 0
    ensures interval * a + 2 * interval * b <= 2 * interval * a
  {
    MulNonNegative(interval, a - 2 * b);
    assert interval * (a - 2 * b) == interval * a - 2 * interval * b;
  }

  /** After `era` eras, what was paid and twice what one more era would pay still
      fit in twice the first era. */
  lemma {:induction false} EraBudget(sch: SubsidySchedule, era: nat, start: nat)
    requires Sound(sch) && era <= sch.maxHalvings && start == era * sch.interval
    ensures SubsidySum(sch, start) + 2 * sch.interval * ShiftRight(sch.initial, era)
            <= 2 * sch.interval * sch.initial
  {
    if era > 0 {
      MulStep(era - 1, sch.interval);
      var before := start - sch.interval;
      MulNonNegative(era - 1, sch.interval);
      EraBudget(sch, era - 1, before);
      SumWithinEra(sch, era - 1, before, sch.interval);
      ShiftNext(sch.initial, era - 1);
      HalvingSaves(ShiftRight(sch.initial, era - 1), ShiftRight(sch.initial, era), sch.interval);
    } else {
      assert ShiftRight(sch.initial, 0) == sch.initial;
    }
  }

  /** No chain, however long, is ever entitled to more than two first eras. */
  lemma SubsidyBound(sch: SubsidySchedule, n: nat)
    requires Sound(sch)
    ensures SubsidySum(sch, n) <= 2 * sch.interval * sch.initial
  {
    var last := sch.maxHalvings;
    MulNonNegative(last, sch.interval);
    var start := last * sch.interval;
    EraBudget(sch, last, start);
    MulNonNegative(2 * sch.interval, ShiftRight(sch.initial, last));
    if n <= start {
      SubsidySumMonotone(sch, n, start);
    } else {
      SumAfterExhaustion(sch, last, start, n);
    }
  }

  lemma EraStartFits(sch: SubsidySchedule, era: nat)
    requires Sound(sch) && era <= 65
    ensures 0 <= era * sch.interval <= MAX_INT64
  {
    MulNonNegative(era, sch.interval);
    MulNonNegative(65 - era, sch.interval);
    assert (65 - era) * sch.interval == 65 * sch.interval - era * sch.interval;
  }

  /** The era loop. It needs at most maxHalvings rounds whatever the height, never
      overflows, and computes the height-by-height sum. */
  method ScheduledSubsidyThroughHeight(sch: SubsidySchedule, height: int64) returns (r: Result<int64, Error>)
    requires Sound(sch)
    ensures height < 0 ==> r == Err(NegativeHeight)
    ensures height >= 0 ==> r.Ok? && r.value == SubsidySum(sch, height + 1)
    ensures height >= 0 ==> r.Ok? && r.value <= 2 * sch.interval * sch.initial
  {
    if height < 0 {
      return Err(NegativeHeight);
    }
    var total: int64 := 0;
    var era: int64 := 0;
    ghost var start: nat := 0;
    SubsidyBound(sch, height + 1);
    while era < sch.maxHalvings
      invariant 0 <= era <= sch.maxHalvings
      invariant start == era * sch.interval
      invariant total == SubsidySum(sch, if start <= height then start else height + 1)
      decreases sch.maxHalvings - era
    {
      EraStartFits(sch, era);
      EraStartFits(sch, era + 1);
      MulStep(era, sch.interval);
      var eraStart: int64 := era * sch.interval;
      if eraStart > height {
        return Ok(total);
      }
      var eraEndExclusive: int64 := eraStart + sch.interval;
      var blocksInEra: int64 := sch.interval;
      if height < eraEndExclusive - 1 {
        blocksInEra := height - eraStart + 1;
      }
      ShiftBound(sch.initial, era);
      var subsidy: int64 := ShiftRight(sch.initial, era);
      if subsidy == 0 {
        SumAfterExhaustion(sch, era, start, height + 1);
        return Ok(total);
      }
      EraTotals(sch, era, start, blocksInEra);
      var contribution := MulChecked(subsidy, blocksInEra);
      if contribution.None? {
        return Err(AmountOverflow);
      }
      var sum := AddChecked(total, contribution.value);
      if sum.None? {
        return Err(AmountOverflow);
      }
      total := sum.value;
      era := era + 1;
      start := start + sch.interval;
    }
    if start <= height {
      SumAfterExhaustion(sch, era, start, height + 1);
    }
    return Ok(total);
  }

  /** Neither checked operation of one loop round can fail. */
  lemma EraTotals(sch: SubsidySchedule, era: nat, start: nat, blocks: nat)
    requires Sound(sch) && era < sch.maxHalvings && start == era * sch.interval && blocks <= sch.interval
    ensures InRange(blocks) && InRange(ShiftRight(sch.initial, era))
    ensures MulChecked(ShiftRight(sch.initial, era), blocks)
            == Some(SubsidySum(sch, start + blocks) - SubsidySum(sch, start))
    ensures SubsidySum(sch, start + blocks) <= MAX_INT64
  {
    var v := ShiftRight(sch.initial, era);
    ShiftBound(sch.initial, era);
    SumWithinEra(sch, era, start, blocks);
    SubsidyBound(sch, start + blocks);
    MulNonNegative(blocks, v);
    MulCheckedExact(v, blocks);
    assert v * blocks == blocks * v;
  }

  // --- what one lookup means ---

  function Halved(x: nat, n: nat): nat {
    if n == 0 then x else Halved(x, n - 1) / 2
  }

  lemma HalfOfQuotient(x: nat, p: nat)
    requires p >= 1
    ensures x / (2 * p) == (x / p) / 2
  {
    var q, r := x / p, x % p;
    var t, u := q / 2, q % 2;
    assert x == q * p + r && q == 2 * t + u;
    assert q * p == (2 * t) * p + u * p;
    assert (2 * t) * p == t * (2 * p);
    assert u * p == if u == 0 then 0 else p;
    QuotientIs(x, t, 2 * p);
  }

  lemma {:induction false} ShiftIsHalving(x: nat, n: nat)
    ensures ShiftRight(x, n) == Halved(x, n)
  {
    if n > 0 {
      ShiftIsHalving(x, n - 1);
      HalfOfQuotient(x, Pow2(n - 1));
    }
  }

  /** Era e starts at height e * interval. Every block of it earns the initial subsidy
      halved e times, rounding down each time, and none from the first exhausted era on. */
  lemma SubsidyHalves(sch: SubsidySchedule, era: nat, d: nat)
    requires Sound(sch) && d < sch.interval && InRange(era * sch.interval + d)
    ensures BlockSubsidy(sch, era * sch.interval + d) == Ok(if era < sch.maxHalvings then Halved(sch.initial, era) else 0)
  {
    MulNonNegative(era, sch.interval);
    QuotientIs(era * sch.interval + d, era, sch.interval);
    ShiftIsHalving(sch.initial, era);
  }

  lemma {:induction false} HalvingFalls(x: nat, m: nat, n: nat)
    requires m <= n
    ensures Halved(x, n) <= Halved(x, m)
  {
    if m < n {
      HalvingFalls(x, m, n - 1);
    }
  }

  /** The subsidy never rises with height. */
  lemma SubsidyNeverRises(sch: SubsidySchedule, low: int64, high: int64)
    requires Sound(sch) && 0 <= low <= high
    ensures BlockSubsidy(sch, low).Ok? && BlockSubsidy(sch, high).Ok?
    ensures BlockSubsidy(sch, high).value <= BlockSubsidy(sch, low).value
  {
    var m, n := low / sch.interval, high / sch.interval;
    QuotientAtLeast(high, m, sch.interval);
    ShiftIsHalving(sch.initial, m);
    ShiftIsHalving(sch.initial, n);
    HalvingFalls(sch.initial, m, n);
  }

  /** One block_accounting row. */
  datatype BlockFacts = BlockFacts(subsidy: int64, fee: int64, coinbase: int64, unclaimed: int64)

  /** A block's facts exist exactly when its coinbase pays at most subsidy plus
      fees, and then every satoshi of that reward is paid or left unclaimed. */
  function ComputeBlockFacts(sch: SubsidySchedule, height: int64, fee: int64, coinbase: int64): (r: Result<BlockFacts, Error>)
    requires Sound(sch)
    ensures r.Ok? <==> fee >= 0 && coinbase >= 0 && height >= 0
                       && SubsidyAt(sch, height) + fee <= MAX_INT64
                       && coinbase <= SubsidyAt(sch, height) + fee
    ensures r.Ok? ==> && r.value.subsidy == SubsidyAt(sch, height)
                      && r.value.fee == fee && r.value.coinbase == coinbase
                      && r.value.unclaimed >= 0
                      && r.value.coinbase + r.value.unclaimed == r.value.subsidy + r.value.fee
    ensures r == Err(CoinbaseOverclaim) ==> height >= 0 && coinbase > SubsidyAt(sch, height) + fee
  {
    if fee < 0 then Err(NegativeAmount)
    else if coinbase < 0 then Err(NegativeAmount)
    else
      var subsidy :- BlockSubsidy(sch, height);
      var maxReward := AddChecked(subsidy, fee);
      if maxReward.None? then Err(AmountOverflow)
      else if coinbase > maxReward.value then Err(CoinbaseOverclaim)
      else Ok(BlockFacts(subsidy, fee, coinbase, maxReward.value - coinbase))
  }
}
