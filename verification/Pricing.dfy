/** Whole-microdollar pricing: the worst case a reservation is made for, and what the reported usage really cost. */
module Pricing {
  import opened Wrappers

  const MILLION := 1_000_000
  const MAX_SAFE_INTEGER := 0x1F_FFFF_FFFF_FFFF

  datatype PricingError = UnsafeInteger | CacheRateAboveInputRate | CacheTokensWithoutRate | UsageNotReported
                        | CacheUsageMissing | CacheUsageAboveInput

  datatype Projection = Projection(
    inputTokens: nat, cacheTokens: nat, outputTokens: nat, inputRate: nat, outputRate: nat, cacheRate: Option<nat>, fee: nat)

  datatype Usage = Usage(input: nat, output: nat, reasoning: nat, cacheRead: Option<nat>, reported: bool)

  /** The rates a reservation row keeps; an absent cache rate is stored as zero. */
  datatype Rates = Rates(input: nat, output: nat, cacheRead: nat, fee: nat)

  predicate Safe(n: int) {
    0 <= n <= MAX_SAFE_INTEGER
  }

  /** The cost of `tokens` at `rate` microdollars per million, rounded up. */
  function Component(tokens: nat, rate: nat): (cost: nat)
    ensures cost * MILLION >= tokens * rate
    ensures cost * MILLION < tokens * rate + MILLION
  {
    (tokens * rate + MILLION - 1) / MILLION
  }

  function ProjectedTotal(p: Projection): nat {
    Component(p.inputTokens, p.inputRate) + Component(p.outputTokens, p.outputRate)
    + Component(p.cacheTokens, p.cacheRate.GetOr(0)) + p.fee
  }

  /** `projectWorstCaseCostMicrousd` */
  function ProjectWorstCase(p: Projection): Result<nat, PricingError> {
    var guard := Need(Safe(p.inputTokens) && Safe(p.cacheTokens) && Safe(p.outputTokens) && p.outputTokens > 0
                      && Safe(p.inputRate) && Safe(p.outputRate) && Safe(p.cacheRate.GetOr(0)), UnsafeInteger);
    :- guard;
    :- Need(p.cacheRate.Some? ==> p.cacheRate.value <= p.inputRate, CacheRateAboveInputRate);
    :- Need(p.cacheRate.None? ==> p.cacheTokens == 0, CacheTokensWithoutRate);
    :- Need(Safe(p.fee), UnsafeInteger);
    :- Need(Safe(ProjectedTotal(p)), UnsafeInteger);
    Success(ProjectedTotal(p))
  }

  /** `actualHostPricedCostMicrousd` of the ledger, which re-prices a finish while reconciling. */
  function LedgerHostPrice(rates: Rates, usage: Usage): Result<nat, PricingError> {
    var guard := Need(usage.reported, UsageNotReported);
    :- guard;
    :- Need(rates.cacheRead > 0 ==> usage.cacheRead.Some?, CacheUsageMissing);
    var cacheRead := usage.cacheRead.GetOr(0);
    :- Need(cacheRead <= usage.input, CacheUsageAboveInput);
    var amount := Component(usage.input - cacheRead, rates.input) + Component(usage.output + usage.reasoning, rates.output)
                  + Component(cacheRead, rates.cacheRead) + rates.fee;
    :- Need(Safe(amount), UnsafeInteger);
    Success(amount)
  }

  /** `actualHostPricedCost` of the attempt unit of work, which prices a finish before it is committed. */
  function UnitHostPrice(rates: Rates, usage: Usage): Result<nat, PricingError> {
    var guard := Need(usage.reported, UsageNotReported);
    :- guard;
    :- Need(!(rates.cacheRead > 0 && usage.cacheRead.None?), CacheUsageMissing);
    var cacheRead := usage.cacheRead.GetOr(0);
    :- Need(!(cacheRead > usage.input), CacheUsageAboveInput);
    var uncachedInput := usage.input - cacheRead;
    var billableOutput := usage.output + usage.reasoning;
    var amount := Component(uncachedInput, rates.input) + Component(billableOutput, rates.output)
                  + Component(cacheRead, rates.cacheRead) + rates.fee;
    if amount > MAX_SAFE_INTEGER then Failure(UnsafeInteger) else Success(amount)
  }

  function RatesOf(p: Projection): Rates {
    Rates(p.inputRate, p.outputRate, p.cacheRate.GetOr(0), p.fee)
  }

  /** Usage within the estimate a reservation was made for. */
  predicate WithinEstimate(p: Projection, usage: Usage) {
    usage.input <= p.inputTokens && usage.output + usage.reasoning <= p.outputTokens
  }

  lemma ComponentIsMonotone(tokens: nat, more: nat, rate: nat)
    requires tokens <= more
    ensures Component(tokens, rate) <= Component(more, rate)
  {
    assert tokens * rate <= more * rate;
  }

  lemma ProductSplits(a: nat, b: nat, rate: nat, lower: nat)
    requires lower <= rate
    ensures a * rate + b * lower <= (a + b) * rate
  {
  }

  /** Splitting tokens over two rates costs at most one more microdollar than pricing them all at the higher rate. */
  lemma SplitCostsAtMostOne(uncached: nat, cached: nat, rate: nat, cacheRate: nat)
    requires cacheRate <= rate
    ensures Component(uncached, rate) + Component(cached, cacheRate) <= Component(uncached + cached, rate) + 1
  {
    ProductSplits(uncached, cached, rate, cacheRate);
    var whole, parts := Component(uncached + cached, rate), Component(uncached, rate) + Component(cached, cacheRate);
    assert parts * MILLION < whole * MILLION + 2 * MILLION;
  }

  lemma NothingCostsNothing(rate: nat)
    ensures Component(0, rate) == 0
  {
  }

  /** Pricing `cached` of the estimated input tokens at the cache rate costs no more than pricing all at the input rate. */
  predicate SplitFits(p: Projection, cached: nat)
    requires cached <= p.inputTokens
  {
    Component(p.inputTokens - cached, p.inputRate) + Component(cached, p.cacheRate.GetOr(0))
    <= Component(p.inputTokens, p.inputRate)
  }

  predicate AllSplitsFit(p: Projection) {
    forall cached :: 0 < cached <= p.inputTokens ==> SplitFits(p, cached)
  }

  /** What rounding adds to the price of all input tokens at the input rate, in millionths of a microdollar. */
  function RoundingSlack(p: Projection): (slack: nat)
    ensures slack < MILLION
  {
    Component(p.inputTokens, p.inputRate) * MILLION - p.inputTokens * p.inputRate
  }

  /** One of the two rates needs no rounding, or the rounding and the discount of one token make up for a second rounding. */
  predicate RatesRoundTogether(p: Projection) {
    var cacheRate := p.cacheRate.GetOr(0);
    || p.inputRate % MILLION == 0 || cacheRate % MILLION == 0
    || RoundingSlack(p) + p.inputRate - cacheRate >= MILLION - 1
  }

  lemma WholeRateIsExact(tokens: nat, rate: nat)
    requires rate % MILLION == 0
    ensures Component(tokens, rate) * MILLION == tokens * rate
  {
    var units := rate / MILLION;
    assert tokens * rate == tokens * units * MILLION;
    assert Component(tokens, rate) * MILLION >= tokens * rate;
  }

  lemma ProductGrows(count: nat, amount: nat)
    requires count > 0
    ensures count * amount >= amount
  {
  }

  /** Splitting saves at least the discount of one token. */
  lemma DiscountAddsUp(uncached: nat, cached: nat, cacheRate: nat, discount: nat)
    requires cached > 0
    ensures var rate := cacheRate + discount;
            uncached * rate + cached * cacheRate + discount <= (uncached + cached) * rate
  {
    var rate := cacheRate + discount;
    ProductGrows(cached, discount);
    assert (uncached + cached) * rate == uncached * rate + cached * rate;
    assert cached * rate == cached * cacheRate + cached * discount;
  }

  /** Rates that round together make every split fit, whatever is read from the cache. */
  lemma SplitsOfSuchRatesFit(p: Projection)
    requires p.cacheRate.GetOr(0) <= p.inputRate && RatesRoundTogether(p)
    ensures AllSplitsFit(p)
  {
    hide Component;
    forall cached | 0 < cached <= p.inputTokens ensures SplitFits(p, cached) {
      var uncached, cacheRate := p.inputTokens - cached, p.cacheRate.GetOr(0);
      DiscountAddsUp(uncached, cached, cacheRate, p.inputRate - cacheRate);
      if p.inputRate % MILLION == 0 {
        WholeRateIsExact(uncached, p.inputRate);
      } else if cacheRate % MILLION == 0 {
        WholeRateIsExact(cached, cacheRate);
      }
    }
  }

  /** What the usage costs, before the check that the amount is a safe integer. */
  function HostTotal(rates: Rates, usage: Usage): nat
    requires usage.cacheRead.GetOr(0) <= usage.input
  {
    var cached := usage.cacheRead.GetOr(0);
    Component(usage.input - cached, rates.input) + Component(usage.output + usage.reasoning, rates.output)
    + Component(cached, rates.cacheRead) + rates.fee
  }

  lemma TotalStaysNearReservation(p: Projection, usage: Usage)
    requires ProjectWorstCase(p).Success? && WithinEstimate(p, usage) && usage.cacheRead.GetOr(0) <= usage.input
    ensures var total, reserved := HostTotal(RatesOf(p), usage), ProjectWorstCase(p).value;
            && total <= reserved + 1
            && (usage.cacheRead.GetOr(0) == 0 || Component(p.cacheTokens, p.cacheRate.GetOr(0)) > 0 || AllSplitsFit(p)
                ==> total <= reserved)
  {
    hide Component;
    var cached := usage.cacheRead.GetOr(0);
    SplitCostsAtMostOne(usage.input - cached, cached, p.inputRate, p.cacheRate.GetOr(0));
    ComponentIsMonotone(usage.input, p.inputTokens, p.inputRate);
    ComponentIsMonotone(usage.input - cached, p.inputTokens - cached, p.inputRate);
    ComponentIsMonotone(usage.output + usage.reasoning, p.outputTokens, p.outputRate);
    NothingCostsNothing(p.cacheRate.GetOr(0));
    if cached > 0 && AllSplitsFit(p) {
      assert SplitFits(p, cached);
    }
  }

  /**
   * The host price of usage within the estimate exceeds the reservation by at most one microdollar, and not at all when
   * nothing was read from the cache or when the reservation holds a nonzero cache component.
   */
  lemma HostPriceStaysNearReservation(p: Projection, usage: Usage)
    requires ProjectWorstCase(p).Success? && WithinEstimate(p, usage)
    requires UnitHostPrice(RatesOf(p), usage).Success?
    ensures var cost, reserved := UnitHostPrice(RatesOf(p), usage).value, ProjectWorstCase(p).value;
            && cost <= reserved + 1
            && (usage.cacheRead.GetOr(0) == 0 || Component(p.cacheTokens, p.cacheRate.GetOr(0)) > 0 ==> cost <= reserved)
  {
    hide Component;
    TotalStaysNearReservation(p, usage);
  }

  /** The usage a provider can report for a reservation: complete, and with no more cache reads than input. */
  predicate Reportable(p: Projection, usage: Usage) {
    && usage.reported && (RatesOf(p).cacheRead > 0 ==> usage.cacheRead.Some?) && usage.cacheRead.GetOr(0) <= usage.input
  }

  /** Whatever usage within the estimate is reported, it is priced at no more than the reservation. */
  ghost predicate CoversEveryUsage(p: Projection)
    requires ProjectWorstCase(p).Success?
  {
    forall usage :: WithinEstimate(p, usage) && Reportable(p, usage) ==>
                      UnitHostPrice(RatesOf(p), usage).Success? && UnitHostPrice(RatesOf(p), usage).value <= ProjectWorstCase(p).value
  }

  /**
   * A reservation covers every usage within its estimate exactly when it holds a nonzero cache component, or when no way
   * of splitting its input tokens over the two rates rounds up to more than its input component.
   */
  lemma WhenReservationsCover(p: Projection)
    requires ProjectWorstCase(p).Success?
    ensures CoversEveryUsage(p) <==> Component(p.cacheTokens, p.cacheRate.GetOr(0)) > 0 || AllSplitsFit(p)
  {
    hide Component;
    if Component(p.cacheTokens, p.cacheRate.GetOr(0)) > 0 || AllSplitsFit(p) {
      forall usage | WithinEstimate(p, usage) && Reportable(p, usage)
        ensures UnitHostPrice(RatesOf(p), usage).Success? && UnitHostPrice(RatesOf(p), usage).value <= ProjectWorstCase(p).value
      {
        TotalStaysNearReservation(p, usage);
      }
    } else {
      var cached :| 0 < cached <= p.inputTokens && !SplitFits(p, cached);
      var usage := Usage(p.inputTokens, p.outputTokens, 0, Some(cached), true);
      assert WithinEstimate(p, usage) && Reportable(p, usage);
      assert HostTotal(RatesOf(p), usage) > ProjectWorstCase(p).value;
    }
  }

  /** So it is enough for a whole rate, or for a discount of a microdollar a token, to make every reservation cover. */
  lemma SuchRatesCover(p: Projection)
    requires ProjectWorstCase(p).Success? && RatesRoundTogether(p)
    ensures CoversEveryUsage(p)
  {
    hide Component, RatesRoundTogether, AllSplitsFit, CoversEveryUsage;
    SplitsOfSuchRatesFit(p);
    WhenReservationsCover(p);
  }

  /** The extra microdollar is real: one cached and one uncached token, each rounded up, against two tokens rounded once. */
  lemma HostPriceCanExceedReservation()
    ensures var p := Projection(2, 0, 1, 1, 1, Some(1), 0);
            var usage := Usage(2, 1, 0, Some(1), true);
            && WithinEstimate(p, usage) && ProjectWorstCase(p).Success? && UnitHostPrice(RatesOf(p), usage).Success?
            && UnitHostPrice(RatesOf(p), usage).value == ProjectWorstCase(p).value + 1
  {
    assert Component(1, 1) == 1 && Component(2, 1) == 1 && Component(0, 1) == 0;
  }

  /** What the reported tokens cost at the stored rates, in millionths of a microdollar, before any rounding. */
  function ExactHostCost(rates: Rates, usage: Usage): int {
    var cached := usage.cacheRead.GetOr(0);
    (usage.input - cached) * rates.input + (usage.output + usage.reasoning) * rates.output + cached * rates.cacheRead
    + rates.fee * MILLION
  }

  /** `price` is the exact cost with each of its three parts rounded up. */
  predicate RoundsUp(exact: int, price: int) {
    exact <= price * MILLION < exact + 3 * MILLION
  }

  lemma ComponentRounds(tokens: nat, rate: nat)
    ensures tokens * rate <= Component(tokens, rate) * MILLION < tokens * rate + MILLION
  {
  }

  lemma HostTotalRounds(rates: Rates, usage: Usage)
    requires usage.cacheRead.GetOr(0) <= usage.input
    ensures RoundsUp(ExactHostCost(rates, usage), HostTotal(rates, usage))
  {
    hide Component;
    var cached := usage.cacheRead.GetOr(0);
    ComponentRounds(usage.input - cached, rates.input);
    ComponentRounds(usage.output + usage.reasoning, rates.output);
    ComponentRounds(cached, rates.cacheRead);
  }

  /** Usage that can be priced: reported, with its cache reads where they have a rate, and no more of them than input. */
  predicate Priceable(rates: Rates, usage: Usage) {
    usage.reported && (rates.cacheRead > 0 ==> usage.cacheRead.Some?) && usage.cacheRead.GetOr(0) <= usage.input
  }

  /** `cost` is the least number of whole microdollars that pays `millionths`. */
  predicate PaysUp(cost: int, millionths: int) {
    millionths <= cost * MILLION < millionths + MILLION
  }

  lemma OneCostPaysUp(tokens: nat, rate: nat, cost: nat)
    requires PaysUp(cost, tokens * rate)
    ensures cost == Component(tokens, rate)
  {
    hide Component;
    ComponentRounds(tokens, rate);
  }

  /**
   * Both host prices bill every reported token at its stored rate: input that was not read from the cache, output and
   * reasoning alike, and cache reads. Each of the three parts is paid up to a whole microdollar, the fee is added, and
   * the sum is the price exactly if it is a safe integer.
   */
  lemma HostPricesAreBilled(rates: Rates, usage: Usage, input: nat, output: nat, cached: nat)
    requires Priceable(rates, usage)
    requires PaysUp(input, (usage.input - usage.cacheRead.GetOr(0)) * rates.input)
    requires PaysUp(output, (usage.output + usage.reasoning) * rates.output)
    requires PaysUp(cached, usage.cacheRead.GetOr(0) * rates.cacheRead)
    ensures var price := input + output + cached + rates.fee;
            && UnitHostPrice(rates, usage) == (if price <= MAX_SAFE_INTEGER then Success(price) else Failure(UnsafeInteger))
            && LedgerHostPrice(rates, usage) == UnitHostPrice(rates, usage)
  {
    OneCostPaysUp(usage.input - usage.cacheRead.GetOr(0), rates.input, input);
    OneCostPaysUp(usage.output + usage.reasoning, rates.output, output);
    OneCostPaysUp(usage.cacheRead.GetOr(0), rates.cacheRead, cached);
    hide Component, PaysUp;
  }

  /**
   * A host price is the exact cost of the reported tokens, rounded up by less than three microdollars; usage that cannot
   * be priced has none, and any other has one whenever the exact cost stays three microdollars below the integer limit.
   */
  lemma HostPricesAreExact(rates: Rates, usage: Usage)
    ensures UnitHostPrice(rates, usage).Success? ==> RoundsUp(ExactHostCost(rates, usage), UnitHostPrice(rates, usage).value)
    ensures LedgerHostPrice(rates, usage).Success? ==> RoundsUp(ExactHostCost(rates, usage), LedgerHostPrice(rates, usage).value)
    ensures !Priceable(rates, usage) ==> UnitHostPrice(rates, usage).Failure? && LedgerHostPrice(rates, usage).Failure?
    ensures Priceable(rates, usage) && ExactHostCost(rates, usage) <= (MAX_SAFE_INTEGER - 2) * MILLION ==>
              UnitHostPrice(rates, usage).Success? && LedgerHostPrice(rates, usage).Success?
  {
    hide Component, RoundsUp, ExactHostCost;
    if Priceable(rates, usage) {
      HostTotalRounds(rates, usage);
      RoundedIsSafe(rates, usage);
    }
  }

  lemma RoundedIsSafe(rates: Rates, usage: Usage)
    requires usage.cacheRead.GetOr(0) <= usage.input && RoundsUp(ExactHostCost(rates, usage), HostTotal(rates, usage))
    ensures ExactHostCost(rates, usage) <= (MAX_SAFE_INTEGER - 2) * MILLION ==> HostTotal(rates, usage) <= MAX_SAFE_INTEGER
  {
    hide HostTotal, ExactHostCost;
  }

  /** The same for a reservation: each part of the projection is paid up, and the sum is the price exactly if it is safe. */
  lemma ProjectionsAreBilled(p: Projection, input: nat, output: nat, cached: nat)
    requires Safe(p.inputTokens) && Safe(p.cacheTokens) && Safe(p.outputTokens) && p.outputTokens > 0
    requires Safe(p.inputRate) && Safe(p.outputRate) && Safe(p.fee)
    requires match p.cacheRate case None => p.cacheTokens == 0 case Some(rate) => rate <= p.inputRate
    requires PaysUp(input, p.inputTokens * p.inputRate) && PaysUp(output, p.outputTokens * p.outputRate)
    requires PaysUp(cached, p.cacheTokens * p.cacheRate.GetOr(0))
    ensures var price := input + output + cached + p.fee;
            ProjectWorstCase(p) == if price <= MAX_SAFE_INTEGER then Success(price) else Failure(UnsafeInteger)
  {
    OneCostPaysUp(p.inputTokens, p.inputRate, input);
    OneCostPaysUp(p.outputTokens, p.outputRate, output);
    OneCostPaysUp(p.cacheTokens, p.cacheRate.GetOr(0), cached);
    hide Component, PaysUp;
  }

  /** The two host-pricing functions agree on every input, failures included. */
  lemma HostPricesAgree(rates: Rates, usage: Usage)
    ensures LedgerHostPrice(rates, usage) == UnitHostPrice(rates, usage)
  {
    hide Component;
  }

  /** A stored reservation re-projects to the amount it was made for, with its absent cache rate read back as zero. */
  lemma StoredRatesReproject(p: Projection)
    requires ProjectWorstCase(p).Success?
    ensures ProjectWorstCase(p.(cacheRate := Some(p.cacheRate.GetOr(0)))) == ProjectWorstCase(p)
  {
    hide Component;
  }
}
