/**
 * Money arithmetic: quotes are micro-yuan per million tokens, every part is
 * rounded up, and 64-bit overflow is refused when reserving and saturated when
 * settling.
 */
module Pricing {
  import opened Base

  const MILLION: int := 1_000_000

  datatype Priced = Ok(value: int) | Overflow | BadQuote

  /** The least integer whose millionfold reaches `x`. */
  function Ceil(x: nat): (c: nat)
    ensures c * MILLION >= x && (c - 1) * MILLION < x
  {
    (x + 999_999) / MILLION
  }

  function Min(x: int, y: int): int { if x <= y then x else y }

  // ----- Reserving (the store) --------------------------------------------

  /** A quote scaled by a group multiplier in thousandths. */
  function PriceWithRate(price: int, rate: int): Priced {
    if price < 0 || rate <= 0 then BadQuote
    else if price > MAX_INT64 / rate then Overflow
    else Ok(price * rate / 1000)
  }

  function CeilPrice(tokens: int, price: int): Priced {
    if tokens < 0 || price < 0 then BadQuote
    else if tokens == 0 || price == 0 then Ok(0)
    else if tokens > (MAX_INT64 - 999_999) / price then Overflow
    else Ok((tokens * price + 999_999) / MILLION)
  }

  function ReserveAmount(inputTokens: int, outputTokens: int, inputPrice: int, outputPrice: int): Priced {
    var input := CeilPrice(inputTokens, inputPrice);
    if !input.Ok? then input
    else
      var output := CeilPrice(outputTokens, outputPrice);
      if !output.Ok? then output
      else if input.value > MAX_INT64 - output.value then Overflow
      else Ok(input.value + output.value)
  }

  // ----- Settling (the service) -------------------------------------------

  /** A missing price stays missing; a quote too large for the multiplier saturates. */
  function ApplyRate(price: Option<nat>, rate: int): Option<nat> {
    if price.None? || rate == 1000 then price
    else
      var r := if rate <= 0 then 1000 else rate;
      if price.value > MAX_INT64 / r then Some(MAX_INT64) else Some(price.value * r / 1000)
  }

  function PricePart(tokens: int, price: int): (part: nat)
    ensures part <= MAX_INT64
  {
    if tokens <= 0 || price <= 0 then 0
    else Min(MAX_INT64, Ceil(tokens * price))
  }

  datatype Prices = Prices(input: Option<nat>, output: Option<nat>, cached: Option<nat>)

  datatype Tokens = Tokens(prompt: int, completion: int, cached: int)

  function ValueOrZero(price: Option<nat>): nat { if price.None? then 0 else price.value }

  /** Cached prompt tokens are a part of the prompt. */
  function CachedPart(u: Tokens): int {
    var cached := if u.cached < 0 then 0 else u.cached;
    if cached > u.prompt then u.prompt else cached
  }

  function CachedPrice(p: Prices): nat {
    if p.cached.Some? then p.cached.value else ValueOrZero(p.input)
  }

  function ExactPart(tokens: int, price: int): nat {
    if tokens <= 0 || price <= 0 then 0 else Ceil(tokens * price)
  }

  /** The bill without any limit on the size of numbers. */
  function ExactBill(u: Tokens, p: Prices): nat {
    ExactPart(u.prompt - CachedPart(u), ValueOrZero(p.input))
    + ExactPart(CachedPart(u), CachedPrice(p))
    + ExactPart(u.completion, ValueOrZero(p.output))
  }

  function Sum(parts: seq<nat>): nat {
    if parts == [] then 0 else Sum(parts[..|parts| - 1]) + parts[|parts| - 1]
  }

  lemma {:induction false} SumGrows(parts: seq<nat>, i: nat)
    requires i <= |parts|
    ensures Sum(parts[..i]) <= Sum(parts)
    decreases |parts| - i
  {
    if i == |parts| {
      assert parts[..i] == parts;
    } else {
      assert parts[..i + 1][..i] == parts[..i];
      SumGrows(parts, i + 1);
    }
  }

  lemma SumOfThree(a: nat, b: nat, c: nat)
    ensures Sum([a, b, c]) == a + b + c
  {
    assert [a, b, c][..2] == [a, b] && [a, b][..1] == [a] && [a][..0] == [];
    assert Sum([a]) == a && Sum([a, b]) == a + b;
  }

  function Parts(u: Tokens, p: Prices): (parts: seq<nat>)
    ensures |parts| == 3
  {
    [PricePart(u.prompt - CachedPart(u), ValueOrZero(p.input)),
     PricePart(CachedPart(u), CachedPrice(p)),
     PricePart(u.completion, ValueOrZero(p.output))]
  }

  /** Cutting each part off first does not change the sum that is cut off at the end. */
  lemma SaturatingIsExact(u: Tokens, p: Prices)
    ensures Min(MAX_INT64, Sum(Parts(u, p))) == Min(MAX_INT64, ExactBill(u, p))
  {
    SumOfThree(Parts(u, p)[0], Parts(u, p)[1], Parts(u, p)[2]);
  }

  /** PriceUsage is the exact bill, cut off at the largest 64-bit integer. */
  method PriceUsage(u: Tokens, p: Prices) returns (total: nat)
    ensures total == Min(MAX_INT64, ExactBill(u, p))
  {
    var parts := Parts(u, p);
    SaturatingIsExact(u, p);
    total := 0;
    var i := 0;
    while i < |parts|
      invariant 0 <= i <= |parts|
      invariant total == Sum(parts[..i]) <= MAX_INT64
    {
      assert parts[..i + 1][..i] == parts[..i];
      if parts[i] > MAX_INT64 - total {
        SumGrows(parts, i + 1);
        return MAX_INT64;
      }
      total := total + parts[i];
      i := i + 1;
    }
    assert parts[..i] == parts;
  }

  // ----- What a reservation guarantees about its settlement ---------------

  /** Every accepted amount was computed without leaving the 64-bit range, and is the rounded-up price. */
  lemma CeilPriceIsExact(tokens: int, price: int)
    requires CeilPrice(tokens, price).Ok?
    ensures tokens >= 0 && price >= 0 && tokens * price >= 0
    ensures CeilPrice(tokens, price).value == Ceil(tokens * price) <= MAX_INT64
    ensures tokens > 0 && price > 0 ==> tokens * price + 999_999 <= MAX_INT64
  {
    if tokens > 0 && price > 0 {
      var q := (MAX_INT64 - 999_999) / price;
      ProductMonotone(tokens, q, price);
      assert q * price <= MAX_INT64 - 999_999;
    }
  }

  lemma ProductMonotone(x: int, y: int, z: int)
    requires x <= y && 0 <= z
    ensures x * z <= y * z
  {
  }

  lemma CeilMonotone(x: nat, y: nat)
    requires x <= y
    ensures Ceil(x) <= Ceil(y)
  {
  }

  lemma CeilSplits(x: nat, y: nat)
    ensures Ceil(x) + Ceil(y) <= Ceil(x + y) + 1
  {
  }

  /** The service scales an accepted quote exactly as the store did: no saturation. */
  lemma RatesAgree(price: nat, rate: int)
    requires PriceWithRate(price, rate).Ok?
    ensures ApplyRate(Some(price), rate) == Some(PriceWithRate(price, rate).value)
    ensures price * rate <= MAX_INT64
  {
    var q := MAX_INT64 / rate;
    ProductMonotone(price, q, rate);
    assert q * rate <= MAX_INT64;
  }

  lemma RateMonotone(low: nat, high: nat, rate: int)
    requires low <= high && PriceWithRate(high, rate).Ok?
    ensures PriceWithRate(low, rate).Ok? && 0 <= PriceWithRate(low, rate).value <= PriceWithRate(high, rate).value
  {
    ProductMonotone(low, high, rate);
    ProductMonotone(0, low, rate);
  }

  // ----- What the numbers are ---------------------------------------------

  /** The least number of micro-yuan that covers `x` millionths. */
  predicate Covers(amount: int, x: int) {
    (amount - 1) * MILLION < x <= amount * MILLION
  }

  /** A scaled quote is the product in whole thousandths, refused exactly if a factor is out of range or the product is. */
  lemma PriceWithRateMeans(price: int, rate: int)
    ensures PriceWithRate(price, rate) == BadQuote <==> price < 0 || rate <= 0
    ensures PriceWithRate(price, rate).Ok? <==> price >= 0 && rate > 0 && price * rate <= MAX_INT64
    ensures PriceWithRate(price, rate).Ok? ==>
              PriceWithRate(price, rate).value * 1000 <= price * rate < (PriceWithRate(price, rate).value + 1) * 1000
  {
    if price >= 0 && rate > 0 {
      FitsProduct(price, rate, MAX_INT64);
    }
  }

  lemma FitsProduct(x: nat, y: nat, max: nat)
    requires y > 0
    ensures x > max / y <==> x * y > max
  {
    var q := max / y;
    assert q * y <= max < (q + 1) * y;
    if x <= q {
      ProductMonotone(x, q, y);
    } else {
      ProductMonotone(q + 1, x, y);
    }
  }

  lemma CeilPriceMeans(tokens: nat, price: nat)
    ensures CeilPrice(tokens, price).Ok? <==> tokens * price == 0 || tokens * price + 999_999 <= MAX_INT64
    ensures CeilPrice(tokens, price).Ok? ==> Covers(CeilPrice(tokens, price).value, tokens * price)
    ensures CeilPrice(tokens, price) != BadQuote
  {
    if tokens > 0 && price > 0 {
      FitsProduct(tokens, price, MAX_INT64 - 999_999);
      ProductMonotone(1, tokens, price);
    }
  }

  /** A reserved amount covers the input at the input price and the output at the output price, each rounded up. */
  lemma ReserveAmountMeans(inputTokens: nat, outputTokens: nat, inputPrice: nat, outputPrice: nat, input: int, output: int)
    requires Covers(input, inputTokens * inputPrice) && Covers(output, outputTokens * outputPrice)
    ensures ReserveAmount(inputTokens, outputTokens, inputPrice, outputPrice) ==
            if (inputTokens * inputPrice == 0 || inputTokens * inputPrice + 999_999 <= MAX_INT64)
               && (outputTokens * outputPrice == 0 || outputTokens * outputPrice + 999_999 <= MAX_INT64)
               && input + output <= MAX_INT64
            then Ok(input + output) else Overflow
  {
    CeilPriceMeans(inputTokens, inputPrice);
    CeilPriceMeans(outputTokens, outputPrice);
  }

  /** The service's multiplier: thousandths, one if it is not positive; cut off at the 64-bit limit; a missing price stays missing. */
  lemma ApplyRateMeans(price: nat, rate: int)
    ensures ApplyRate(None, rate) == None
    ensures var r := if rate > 0 then rate else 1000;
            ApplyRate(Some(price), rate) ==
            if rate == 1000 then Some(price) else if price * r > MAX_INT64 then Some(MAX_INT64) else Some(price * r / 1000)
  {
    FitsProduct(price, if rate > 0 then rate else 1000, MAX_INT64);
  }

  /**
   * A bill: the uncached prompt at the input price, the cached prompt at its
   * own price or else at the input price, the completion at the output price,
   * each rounded up. Cached tokens are at least none and at most the prompt.
   */
  lemma BillMeans(u: Tokens, p: Prices, miss: int, hit: int, output: int)
    requires u.prompt >= 0 && u.completion >= 0
    requires var cached := if u.cached <= 0 then 0 else if u.cached >= u.prompt then u.prompt else u.cached;
             && Covers(miss, (u.prompt - cached) * (if p.input.Some? then p.input.value else 0))
             && Covers(hit, cached * (if p.cached.Some? then p.cached.value else if p.input.Some? then p.input.value else 0))
             && Covers(output, u.completion * (if p.output.Some? then p.output.value else 0))
    ensures ExactBill(u, p) == miss + hit + output
  {
    var cached := if u.cached <= 0 then 0 else if u.cached >= u.prompt then u.prompt else u.cached;
    assert cached == CachedPart(u);
    PartMeans(u.prompt - cached, ValueOrZero(p.input), miss);
    PartMeans(cached, CachedPrice(p), hit);
    PartMeans(u.completion, ValueOrZero(p.output), output);
  }

  lemma PartMeans(tokens: nat, price: nat, part: int)
    requires Covers(part, tokens * price)
    ensures ExactPart(tokens, price) == part
  {
    if tokens > 0 && price > 0 {
      ProductMonotone(1, tokens, price);
    }
  }

  /** A prompt billed in a cached and an uncached part costs at most one micro-yuan more than in one piece. */
  lemma PromptCost(prompt: nat, cached: nat, reserved: nat, price: nat, cachedPrice: nat)
    requires cached <= prompt <= reserved && cachedPrice <= price
    ensures 0 <= reserved * price
    ensures ExactPart(prompt - cached, price) + ExactPart(cached, cachedPrice) <= Ceil(reserved * price) + 1
  {
    ProductMonotone(0, reserved, price);
    ProductMonotone(0, prompt - cached, price);
    ProductMonotone(0, cached, cachedPrice);
    var miss: nat := (prompt - cached) * price;
    var hit: nat := cached * cachedPrice;
    ProductMonotone(cachedPrice, price, cached);
    ProductMonotone(prompt, reserved, price);
    assert miss + hit <= prompt * price <= reserved * price;
    CeilSplits(miss, hit);
    CeilMonotone(miss + hit, reserved * price);
    assert ExactPart(prompt - cached, price) <= Ceil(miss);
    assert ExactPart(cached, cachedPrice) <= Ceil(hit);
  }

  /** The quotes frozen in a reservation, before the group multiplier. */
  datatype Quote = Quote(input: nat, output: nat, cached: nat, rate: int)

  /** The checks ReserveRequest makes on the quotes, and the amount it then reserves. */
  predicate Accepted(q: Quote, inputTokens: nat, outputTokens: nat, amount: int) {
    && PriceWithRate(q.input, q.rate).Ok?
    && PriceWithRate(q.output, q.rate).Ok?
    && PriceWithRate(q.cached, q.rate).Ok?
    && ReserveAmount(inputTokens, outputTokens, PriceWithRate(q.input, q.rate).value, PriceWithRate(q.output, q.rate).value) == Ok(amount)
  }

  /** The price snapshot applied to the model when the lease is created. */
  function Effective(q: Quote): Prices {
    Prices(ApplyRate(Some(q.input), q.rate), ApplyRate(Some(q.output), q.rate), ApplyRate(Some(q.cached), q.rate))
  }

  /** After the multiplier a cached token costs no more than an uncached one; a cached quote no dearer than the input quote is enough. */
  predicate CacheIsCheaper(q: Quote)
    requires PriceWithRate(q.input, q.rate).Ok? && PriceWithRate(q.cached, q.rate).Ok?
  {
    PriceWithRate(q.cached, q.rate).value <= PriceWithRate(q.input, q.rate).value
  }

  lemma CheaperQuoteIsEnough(q: Quote)
    requires q.cached <= q.input && PriceWithRate(q.input, q.rate).Ok?
    ensures PriceWithRate(q.cached, q.rate).Ok? && CacheIsCheaper(q)
  {
    RateMonotone(q.cached, q.input, q.rate);
  }

  /**
   * If the upstream stays within the reserved token counts and cached tokens
   * are no dearer than uncached ones, settling costs at most one micro-yuan
   * more than was reserved.
   */
  lemma SettledWithinReserved(q: Quote, inputTokens: nat, outputTokens: nat, amount: int, u: Tokens)
    requires Accepted(q, inputTokens, outputTokens, amount)
    requires CacheIsCheaper(q)
    requires u.prompt <= inputTokens && u.completion <= outputTokens
    ensures Min(MAX_INT64, ExactBill(u, Effective(q))) <= amount + 1
  {
    RatesAgree(q.input, q.rate);
    RatesAgree(q.output, q.rate);
    RatesAgree(q.cached, q.rate);
    RateMonotone(0, q.cached, q.rate);
    RateMonotone(0, q.input, q.rate);
    RateMonotone(0, q.output, q.rate);
    var price: nat := PriceWithRate(q.input, q.rate).value;
    var cachedPrice: nat := PriceWithRate(q.cached, q.rate).value;
    var outputPrice: nat := PriceWithRate(q.output, q.rate).value;
    CeilPriceIsExact(inputTokens, price);
    CeilPriceIsExact(outputTokens, outputPrice);
    if u.prompt > 0 {
      PromptCost(u.prompt, CachedPart(u), inputTokens, price, cachedPrice);
    }
    if u.completion > 0 {
      ProductMonotone(u.completion, outputTokens, outputPrice);
      ProductMonotone(0, u.completion, outputPrice);
      CeilMonotone(u.completion * outputPrice, outputTokens * outputPrice);
    }
  }

  /** No reservation under this quote, with a positive output as ReserveRequest demands, is overrun by more than one micro-yuan. */
  ghost predicate BoundHolds(q: Quote) {
    forall inputTokens: nat, outputTokens: nat, amount: int, u: Tokens ::
      Accepted(q, inputTokens, outputTokens, amount) && outputTokens > 0 && u.prompt <= inputTokens && u.completion <= outputTokens ==>
        Min(MAX_INT64, ExactBill(u, Effective(q))) <= amount + 1
  }

  lemma RateIsSmall(price: nat, rate: int)
    requires PriceWithRate(price, rate).Ok?
    ensures 0 <= PriceWithRate(price, rate).value <= MAX_INT64 / 1000
  {
    RatesAgree(price, rate);
    ProductMonotone(0, price, rate);
  }

  lemma OneToken(price: nat)
    requires price <= MAX_INT64 / 1000
    ensures CeilPrice(1, price).Ok? && 0 <= CeilPrice(1, price).value <= price
  {
    if price > 0 {
      assert (MAX_INT64 - 999_999) / price >= 1;
    }
  }

  // ----- Exactly which quotes keep the bound ------------------------------

  /** The store can scale all three quotes; under any other no reservation is accepted. */
  predicate Quotable(q: Quote) {
    PriceWithRate(q.input, q.rate).Ok? && PriceWithRate(q.output, q.rate).Ok? && PriceWithRate(q.cached, q.rate).Ok?
  }

  function InputPrice(q: Quote): nat
    requires Quotable(q)
  {
    RateIsSmall(q.input, q.rate);
    PriceWithRate(q.input, q.rate).value
  }

  function HitPrice(q: Quote): nat
    requires Quotable(q)
  {
    RateIsSmall(q.cached, q.rate);
    PriceWithRate(q.cached, q.rate).value
  }

  function Cost(tokens: nat, price: nat): nat {
    ProductMonotone(0, tokens, price);
    tokens * price
  }

  /** What rounding up adds, in millionths of a micro-yuan. */
  function Slack(x: nat): nat { Ceil(x) * MILLION - x }

  /**
   * What billing a prompt with `hits` cached tokens adds to its exact cost at
   * the input price: the rounding of both parts, and the difference in price.
   */
  function Excess(price: nat, hitPrice: nat, tokens: nat, hits: nat): int
    requires hits <= tokens
  {
    Slack(Cost(tokens - hits, price)) + Slack(Cost(hits, hitPrice)) + hits * (hitPrice - price)
  }

  /** For no prompt that can be reserved does the excess make up two micro-yuan. */
  ghost predicate CacheIsHarmless(q: Quote)
    requires Quotable(q)
  {
    forall tokens: nat, hits: nat :: hits <= tokens && CeilPrice(tokens, InputPrice(q)).Ok? ==>
      Excess(InputPrice(q), HitPrice(q), tokens, hits) < 2 * MILLION
  }

  /** The two parts of a prompt cost two micro-yuan more than the whole exactly if the excess does. */
  lemma ExcessMeans(price: nat, hitPrice: nat, tokens: nat, hits: nat)
    requires hits <= tokens
    ensures ExactPart(tokens - hits, price) + ExactPart(hits, hitPrice) >= Ceil(Cost(tokens, price)) + 2 <==>
            Excess(price, hitPrice, tokens, hits) >= 2 * MILLION
  {
    var miss, hit := Cost(tokens - hits, price), Cost(hits, hitPrice);
    assert ExactPart(tokens - hits, price) == Ceil(miss) && ExactPart(hits, hitPrice) == Ceil(hit);
    assert tokens * price == (tokens - hits) * price + hits * price;
    assert hits * (hitPrice - price) == hits * hitPrice - hits * price;
    assert Excess(price, hitPrice, tokens, hits) == (Ceil(miss) + Ceil(hit)) * MILLION - Cost(tokens, price);
    CeilIsLeast(Cost(tokens, price), Ceil(miss) + Ceil(hit) - 2);
  }

  lemma CeilIsLeast(x: nat, c: int)
    ensures c >= Ceil(x) <==> c * MILLION >= x
  {
  }

  lemma CeilPriceMonotone(low: nat, high: nat, price: nat)
    requires low <= high && CeilPrice(high, price).Ok?
    ensures CeilPrice(low, price).Ok? && CeilPrice(low, price).value == Ceil(Cost(low, price)) <= Ceil(Cost(high, price)) == CeilPrice(high, price).value
  {
    CeilPriceIsExact(low, price);
    CeilPriceIsExact(high, price);
    ProductMonotone(low, high, price);
    CeilMonotone(Cost(low, price), Cost(high, price));
  }

  /** Under a harmless quote no reservation is overrun by more than one micro-yuan. */
  lemma HarmlessSettles(q: Quote, inputTokens: nat, outputTokens: nat, amount: int, u: Tokens)
    requires Accepted(q, inputTokens, outputTokens, amount) && CacheIsHarmless(q)
    requires u.prompt <= inputTokens && u.completion <= outputTokens
    ensures Min(MAX_INT64, ExactBill(u, Effective(q))) <= amount + 1
  {
    RatesAgree(q.input, q.rate);
    RatesAgree(q.output, q.rate);
    RatesAgree(q.cached, q.rate);
    RateIsSmall(q.output, q.rate);
    var price, hitPrice := InputPrice(q), HitPrice(q);
    var outputPrice: nat := PriceWithRate(q.output, q.rate).value;
    CeilPriceMonotone(0, inputTokens, price);
    if u.prompt > 0 {
      CeilPriceMonotone(u.prompt, inputTokens, price);
      assert Excess(price, hitPrice, u.prompt, CachedPart(u)) < 2 * MILLION;
      ExcessMeans(price, hitPrice, u.prompt, CachedPart(u));
    }
    CeilPriceMonotone(if u.completion > 0 then u.completion else 0, outputTokens, outputPrice);
  }

  /** Using a reservation up, with `hits` cached tokens, breaks the bound exactly if the excess allows and the amount is not cut off. */
  lemma UsedUpBreaksIff(q: Quote, inputTokens: nat, outputTokens: nat, amount: int, hits: nat)
    requires Accepted(q, inputTokens, outputTokens, amount) && hits <= inputTokens
    ensures Min(MAX_INT64, ExactBill(Tokens(inputTokens, outputTokens, hits), Effective(q))) > amount + 1 <==>
            amount + 1 < MAX_INT64 && Excess(InputPrice(q), HitPrice(q), inputTokens, hits) >= 2 * MILLION
  {
    RatesAgree(q.input, q.rate);
    RatesAgree(q.output, q.rate);
    RatesAgree(q.cached, q.rate);
    RateIsSmall(q.output, q.rate);
    var price, outputPrice: nat := InputPrice(q), PriceWithRate(q.output, q.rate).value;
    CeilPriceIsExact(inputTokens, price);
    CeilPriceIsExact(outputTokens, outputPrice);
    ExcessMeans(price, HitPrice(q), inputTokens, hits);
  }

  /** Using less of a reservation never costs more. */
  lemma LessCostsLess(q: Quote, inputTokens: nat, outputTokens: nat, amount: int, u: Tokens)
    requires Accepted(q, inputTokens, outputTokens, amount) && 0 <= u.prompt <= inputTokens && u.completion <= outputTokens
    ensures ExactBill(u, Effective(q)) <= ExactBill(Tokens(inputTokens, outputTokens, CachedPart(u)), Effective(q))
  {
    RatesAgree(q.input, q.rate);
    RatesAgree(q.output, q.rate);
    RatesAgree(q.cached, q.rate);
    RateIsSmall(q.output, q.rate);
    var price, outputPrice: nat := InputPrice(q), PriceWithRate(q.output, q.rate).value;
    PartMonotone(u.prompt - CachedPart(u), inputTokens - CachedPart(u), price);
    PartMonotone(u.completion, outputTokens, outputPrice);
  }

  lemma PartMonotone(low: int, high: nat, price: nat)
    requires low <= high
    ensures ExactPart(low, price) <= ExactPart(high, price)
  {
    if low > 0 && price > 0 {
      ProductMonotone(low, high, price);
      CeilMonotone(low * price, high * price);
    }
  }

  /**
   * The exact condition on one reservation: some usage within its counts costs
   * more than the amount and one micro-yuan if and only if the whole prompt, for
   * some number of cached tokens, has an excess of two micro-yuan and the amount
   * is not at the very top of the 64-bit range, where the bill is cut off.
   */
  lemma ReservationBreaksIff(q: Quote, inputTokens: nat, outputTokens: nat, amount: int)
    requires Accepted(q, inputTokens, outputTokens, amount)
    ensures (exists u: Tokens :: u.prompt <= inputTokens && u.completion <= outputTokens && Min(MAX_INT64, ExactBill(u, Effective(q))) > amount + 1) <==>
            (amount + 1 < MAX_INT64
             && exists hits: nat :: hits <= inputTokens && Excess(InputPrice(q), HitPrice(q), inputTokens, hits) >= 2 * MILLION)
  {
    if exists hits: nat :: hits <= inputTokens && Excess(InputPrice(q), HitPrice(q), inputTokens, hits) >= 2 * MILLION {
      var hits: nat :| hits <= inputTokens && Excess(InputPrice(q), HitPrice(q), inputTokens, hits) >= 2 * MILLION;
      UsedUpBreaksIff(q, inputTokens, outputTokens, amount, hits);
      var u := Tokens(inputTokens, outputTokens, hits);
      assert amount + 1 < MAX_INT64 ==> Min(MAX_INT64, ExactBill(u, Effective(q))) > amount + 1;
    }
    forall u: Tokens | u.prompt <= inputTokens && u.completion <= outputTokens && Min(MAX_INT64, ExactBill(u, Effective(q))) > amount + 1
      ensures amount + 1 < MAX_INT64
      ensures exists hits: nat :: hits <= inputTokens && Excess(InputPrice(q), HitPrice(q), inputTokens, hits) >= 2 * MILLION
    {
      var v := if u.prompt < 0 then Tokens(0, u.completion, 0) else u;
      NoPromptCostsNothing(q, u, v);
      LessCostsLess(q, inputTokens, outputTokens, amount, v);
      UsedUpBreaksIff(q, inputTokens, outputTokens, amount, CachedPart(v));
    }
  }

  /** A negative prompt is billed like none. */
  lemma NoPromptCostsNothing(q: Quote, u: Tokens, v: Tokens)
    requires v == if u.prompt < 0 then Tokens(0, u.completion, 0) else u
    ensures ExactBill(u, Effective(q)) == ExactBill(v, Effective(q))
  {
  }

  /** A whole reservation used up, with every prompt token served from the cache. */
  function AllCached(inputTokens: nat, outputTokens: nat): Tokens { Tokens(inputTokens, outputTokens, inputTokens) }

  /** Where cached tokens are dearer by two micro-yuan or more over the reserved prompt, using it up from the cache is such a usage. */
  lemma DearCacheBreaksTheBound(q: Quote, inputTokens: nat, outputTokens: nat, amount: int)
    requires Accepted(q, inputTokens, outputTokens, amount)
    requires inputTokens * (PriceWithRate(q.cached, q.rate).value - PriceWithRate(q.input, q.rate).value) >= 2 * MILLION
    ensures Min(MAX_INT64, ExactBill(AllCached(inputTokens, outputTokens), Effective(q))) > amount + 1 <==> amount + 1 < MAX_INT64
  {
    UsedUpBreaksIff(q, inputTokens, outputTokens, amount, inputTokens);
  }

  /** A harmful prompt can be reserved, and used as it says it breaks the bound. */
  lemma HarmfulBreaks(q: Quote, tokens: nat, hits: nat) returns (amount: int)
    requires Quotable(q) && hits <= tokens && CeilPrice(tokens, InputPrice(q)).Ok?
    requires Excess(InputPrice(q), HitPrice(q), tokens, hits) >= 2 * MILLION
    ensures Accepted(q, tokens, 1, amount) && Min(MAX_INT64, ExactBill(Tokens(tokens, 1, hits), Effective(q))) > amount + 1
  {
    RateIsSmall(q.output, q.rate);
    var price, outputPrice: nat := InputPrice(q), PriceWithRate(q.output, q.rate).value;
    OneToken(outputPrice);
    InputIsSmall(tokens, price);
    amount := CeilPrice(tokens, price).value + CeilPrice(1, outputPrice).value;
    UsedUpBreaksIff(q, tokens, 1, amount, hits);
  }

  lemma InputIsSmall(tokens: nat, price: nat)
    requires CeilPrice(tokens, price).Ok?
    ensures 0 <= CeilPrice(tokens, price).value <= MAX_INT64 / MILLION + 1
  {
    CeilPriceIsExact(tokens, price);
  }

  /**
   * The exact condition, for every quote: all reservations under it settle for
   * at most one micro-yuan more than they reserved if and only if none can be
   * made, or no prompt that can be reserved has an excess of two micro-yuan.
   */
  lemma BoundHoldsIff(q: Quote)
    ensures BoundHolds(q) <==> (Quotable(q) ==> CacheIsHarmless(q))
  {
    if Quotable(q) && !CacheIsHarmless(q) {
      var tokens: nat, hits: nat :| hits <= tokens && CeilPrice(tokens, InputPrice(q)).Ok? &&
        Excess(InputPrice(q), HitPrice(q), tokens, hits) >= 2 * MILLION;
      var amount := HarmfulBreaks(q, tokens, hits);
      assert ExactBill(Tokens(tokens, 1, hits), Effective(q)) > amount + 1;
    } else {
      forall inputTokens: nat, outputTokens: nat, amount: int, u: Tokens
        | Accepted(q, inputTokens, outputTokens, amount) && outputTokens > 0 && u.prompt <= inputTokens && u.completion <= outputTokens
        ensures Min(MAX_INT64, ExactBill(u, Effective(q))) <= amount + 1
      {
        HarmlessSettles(q, inputTokens, outputTokens, amount, u);
      }
    }
  }

  /** A cached token no dearer than an uncached one does no harm ... */
  lemma CheaperIsHarmless(q: Quote)
    requires Quotable(q) && CacheIsCheaper(q)
    ensures CacheIsHarmless(q)
  {
    forall tokens: nat, hits: nat | hits <= tokens
      ensures Excess(InputPrice(q), HitPrice(q), tokens, hits) < 2 * MILLION
    {
      SmallExcess(InputPrice(q), HitPrice(q), tokens, hits);
    }
  }

  lemma SlackIsSmall(x: nat)
    ensures Slack(x) < MILLION
  {
  }

  lemma SmallExcess(price: nat, hitPrice: nat, tokens: nat, hits: nat)
    requires hits <= tokens && hitPrice <= price
    ensures Excess(price, hitPrice, tokens, hits) < 2 * MILLION
  {
    SlackIsSmall(Cost(tokens - hits, price));
    SlackIsSmall(Cost(hits, hitPrice));
    ProductMonotone(hitPrice - price, 0, hits);
  }

  /** ... and where a prompt of two million tokens can be reserved, only such a one. */
  lemma DearerIsHarmful(q: Quote)
    requires Quotable(q) && !CacheIsCheaper(q) && CeilPrice(2 * MILLION, InputPrice(q)).Ok?
    ensures Excess(InputPrice(q), HitPrice(q), 2 * MILLION, 2 * MILLION) >= 2 * MILLION && !CacheIsHarmless(q)
  {
    ProductMonotone(1, HitPrice(q) - InputPrice(q), 2 * MILLION);
  }
}
