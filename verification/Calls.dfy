/**
 A call to a model and what it costs (scripts/misura_m14_3.py, the numbers), with the price list it
 reads (src/ela/providers/anthropic/pricing.py and models.py). Dollars are exact reals.
 */
module Calls {
  import opened Options

  const OPUS_5_5 := "claude-opus-5-5"
  const SONNET_5_5 := "claude-sonnet-5-5"
  const HAIKU_5_5 := "claude-haiku-5-5"
  const HAIKU_4_5 := "claude-haiku-4-5-20251001"

  const OUTPUT_TOKENS: nat := 8192
  const HAIKU_5_5_BOUND: nat := 100_000
  const HAIKU_5_5_WINDOW: nat := 1_000_000
  const CAP_USD: real := 1.0

  /** Dollars per million tokens. */
  datatype Rates = Rates(input: real, output: real, cacheRead: real, write5m: real, write1h: real)

  const HAIKU_5_5_LOW := Rates(0.10, 0.50, 0.01, 0.125, 0.20)
  const HAIKU_5_5_HIGH := Rates(0.50, 2.50, 0.05, 0.625, 1.0)

  datatype Price = Price(input: real, output: real, cacheRead: real)

  /** The price list: what a model's short prompt costs. */
  function PriceOf(model: string): Option<Price> {
    if model == OPUS_5_5 then Some(Price(4.0, 20.0, 0.2))
    else if model == SONNET_5_5 then Some(Price(2.0, 10.0, 0.1))
    else if model == HAIKU_5_5 then Some(Price(0.10, 0.50, 0.01))
    else if model == HAIKU_4_5 then Some(Price(1.0, 5.0, 0.1))
    else None
  }

  /** The context window of a model: input and output of one call together. */
  function WindowOf(model: string): Option<nat> {
    if model == OPUS_5_5 || model == SONNET_5_5 || model == HAIKU_5_5 then Some(1_000_000)
    else if model == HAIKU_4_5 then Some(200_000)
    else None
  }

  /** `rates`: the price of a call fed with that many tokens; Haiku 5.5 is priced by the length. */
  function RatesFor(model: Option<string>, fed: nat): Option<Rates> {
    if model == Some(HAIKU_5_5) then
      Some(if fed <= HAIKU_5_5_BOUND then HAIKU_5_5_LOW else HAIKU_5_5_HIGH)
    else
      match PriceOf(if model.Some? then model.value else "")
      case None => None
      case Some(price) =>
        Some(Rates(price.input, price.output, price.cacheRead, price.input * 1.25, price.input * 2.0))
  }

  /** The rates of each model, written out, with the cache writes at 1.25 and 2 times the input. */
  lemma RatesAreListed(fed: nat)
    ensures RatesFor(Some("claude-opus-5-5"), fed) == Some(Rates(4.0, 20.0, 0.2, 5.0, 8.0))
    ensures RatesFor(Some("claude-sonnet-5-5"), fed) == Some(Rates(2.0, 10.0, 0.1, 2.5, 4.0))
    ensures RatesFor(Some("claude-haiku-4-5-20251001"), fed) == Some(Rates(1.0, 5.0, 0.1, 1.25, 2.0))
    ensures fed <= 100_000 ==> RatesFor(Some("claude-haiku-5-5"), fed) == Some(Rates(0.10, 0.50, 0.01, 0.125, 0.20))
    ensures fed > 100_000 ==> RatesFor(Some("claude-haiku-5-5"), fed) == Some(Rates(0.50, 2.50, 0.05, 0.625, 1.0))
    ensures RatesFor(None, fed) == None
  {
    NamesDiffer();
  }

  lemma NamesDiffer()
    ensures |OPUS_5_5| == 15 && |SONNET_5_5| == 17 && |HAIKU_5_5| == 16 && |HAIKU_4_5| == 25
  {
  }

  /** What a call spent, as far as the answers have said. */
  datatype Call = Call(
    forwarded: bool, model: Option<string>, maxTokens: Option<nat>,
    inputTokens: nat, outputTokens: nat, cacheWrite5m: nat, cacheWrite1h: nat, cacheRead: nat,
    stopReason: Option<string>, complete: bool, errorType: Option<string>, toolUses: seq<string>)

  function Fed(call: Call): nat {
    call.inputTokens + call.cacheWrite5m + call.cacheWrite1h + call.cacheRead
  }

  function PerMillion(cost: real): real {
    cost / 1_000_000.0
  }

  function FullPrice(price: Rates, fed: nat, output: nat): real {
    PerMillion(price.input * fed as real + price.output * output as real)
  }

  function CachedPrice(price: Rates, call: Call): real {
    PerMillion(
      price.input * call.inputTokens as real
      + price.write5m * call.cacheWrite5m as real
      + price.write1h * call.cacheWrite1h as real
      + price.cacheRead * call.cacheRead as real
      + price.output * call.outputTokens as real)
  }

  /** `nocache`: every input token at the full price. */
  function Nocache(call: Call): Option<real> {
    var price := RatesFor(call.model, Fed(call));
    if price.None? || !call.forwarded then None
    else Some(FullPrice(price.value, Fed(call), call.outputTokens))
  }

  /** `billed`: the cache as the answer declares it. */
  function Billed(call: Call): Option<real> {
    var price := RatesFor(call.model, Fed(call));
    if price.None? || !call.forwarded then None else Some(CachedPrice(price.value, call))
  }

  function Max(a: real, b: real): real {
    if a < b then b else a
  }

  /** The tokens an unfinished answer may still bring: up to `max_tokens`. */
  function Missing(call: Call): nat {
    var most := if call.maxTokens.Some? then call.maxTokens.value else 0;
    if most > call.outputTokens then most - call.outputTokens else 0
  }

  /** `counted`: what the cap counts, the dearer of the two costs; a call without its end is counted
      with its output at `max_tokens`. */
  function Counted(call: Call): real {
    if !call.forwarded then 0.0
    else
      var known := match (Nocache(call), Billed(call))
                   case (Some(n), Some(b)) => Max(n, b)
                   case _ => 0.0;
      var price := RatesFor(call.model, Fed(call));
      if call.complete || price.None? then known
      else known + PerMillion(price.value.output * Missing(call) as real)
  }

  /** Rounded up to the eighth decimal. */
  function UpToEighth(x: real): (r: real)
    ensures x <= r < x + 0.00000001
  {
    var scaled := x * 100_000_000.0;
    var up := if scaled == scaled.Floor as real then scaled.Floor else scaled.Floor + 1;
    up as real / 100_000_000.0
  }

  /** `worst_of`: the window full of input up to the output budget, and the budget full of output. */
  function WorstOf(model: string): Option<real> {
    if model == HAIKU_5_5 then Some(FullPrice(HAIKU_5_5_HIGH, HAIKU_5_5_WINDOW - OUTPUT_TOKENS, OUTPUT_TOKENS))
    else
      match (PriceOf(model), WindowOf(model))
      case (Some(price), Some(window)) =>
        Some(UpToEighth(PerMillion(price.input * (window - OUTPUT_TOKENS) as real
                                   + price.output * OUTPUT_TOKENS as real)))
      case _ => None
  }

  // ------------------------------------------------------------------------------------------
  // Bounds
  // ------------------------------------------------------------------------------------------

  lemma Proportional(rate: real, a: nat, b: nat)
    requires rate >= 0.0 && a <= b
    ensures 0.0 <= rate * a as real <= rate * b as real
  {
    assert rate * (b - a) as real >= 0.0;
    assert rate * b as real == rate * a as real + rate * (b - a) as real;
  }

  lemma Split(input: real, output: real, window: real, budget: real, fed: real, out: real)
    requires 0.0 <= input <= output && fed + out <= window && out <= budget
    ensures input * fed + output * out <= input * (window - budget) + output * budget
  {
    var spare, left := window - fed - out, budget - out;
    assert input * spare >= 0.0 && (output - input) * left >= 0.0;
    assert input * (window - budget) + output * budget
        == input * fed + output * out + input * spare + (output - input) * left;
  }

  /** A window full at any split costs at most what the dearest split costs. */
  lemma FullWindow(price: Rates, window: nat, budget: nat, fed: nat, output: nat)
    requires 0.0 <= price.input <= price.output
    requires fed + output <= window && output <= budget <= window
    ensures FullPrice(price, fed, output) <= FullPrice(price, window - budget, budget)
  {
    Split(price.input, price.output, window as real, budget as real, fed as real, output as real);
  }

  /** A dearer tier costs more, token by token. */
  lemma DearerTier(low: Rates, high: Rates, fed: nat, output: nat)
    requires 0.0 <= low.input <= high.input && 0.0 <= low.output <= high.output
    ensures FullPrice(low, fed, output) <= FullPrice(high, fed, output)
  {
    assert (high.input - low.input) * fed as real >= 0.0;
    assert (high.output - low.output) * output as real >= 0.0;
    assert high.input * fed as real == low.input * fed as real + (high.input - low.input) * fed as real;
    assert high.output * output as real == low.output * output as real + (high.output - low.output) * output as real;
  }

  /** No call inside its model's window, with an output inside the budget, costs more at the list
      price than the worst case, on either side of the tier. */
  lemma WorstIsABound(model: string, call: Call)
    requires call.forwarded && call.model == Some(model) && WindowOf(model).Some?
    requires Fed(call) + call.outputTokens <= WindowOf(model).value && call.outputTokens <= OUTPUT_TOKENS
    ensures WorstOf(model).Some? && Nocache(call).Some? && Nocache(call).value <= WorstOf(model).value
  {
    var fed, window := Fed(call), WindowOf(model).value;
    if model == HAIKU_5_5 {
      FullWindow(HAIKU_5_5_HIGH, window, OUTPUT_TOKENS, fed, call.outputTokens);
      DearerTier(HAIKU_5_5_LOW, HAIKU_5_5_HIGH, fed, call.outputTokens);
    } else {
      FullWindow(RatesFor(Some(model), fed).value, window, OUTPUT_TOKENS, fed, call.outputTokens);
    }
  }

  /** The bound is met: a call that fills the window costs it, up to the rounding of the price list. */
  lemma WorstIsReached(model: string, call: Call)
    requires call.forwarded && call.model == Some(model) && WindowOf(model).Some?
    requires Fed(call) == WindowOf(model).value - OUTPUT_TOKENS && call.outputTokens == OUTPUT_TOKENS
    ensures Nocache(call).Some? && WorstOf(model).Some?
    ensures Nocache(call).value <= WorstOf(model).value < Nocache(call).value + 0.00000001
  {
  }

  predicate SameInput(a: Call, b: Call) {
    && a.forwarded == b.forwarded && a.model == b.model
    && a.inputTokens == b.inputTokens && a.cacheWrite5m == b.cacheWrite5m
    && a.cacheWrite1h == b.cacheWrite1h && a.cacheRead == b.cacheRead
  }

  /** More output costs more by exactly its price, in both costs. */
  lemma OutputAdds(price: Rates, a: Call, b: Call)
    requires SameInput(a, b) && a.outputTokens <= b.outputTokens
    ensures FullPrice(price, Fed(b), b.outputTokens)
         == FullPrice(price, Fed(a), a.outputTokens)
          + PerMillion(price.output * (b.outputTokens - a.outputTokens) as real)
    ensures CachedPrice(price, b)
         == CachedPrice(price, a) + PerMillion(price.output * (b.outputTokens - a.outputTokens) as real)
  {
    assert price.output * b.outputTokens as real
        == price.output * a.outputTokens as real + price.output * (b.outputTokens - a.outputTokens) as real;
  }

  lemma PricesArePositive(model: Option<string>, fed: nat)
    requires RatesFor(model, fed).Some?
    ensures var price := RatesFor(model, fed).value;
            && 0.0 < price.input < price.output && 0.0 < price.cacheRead < price.input
            && price.input < price.write5m < price.write1h
  {
  }

  lemma OfASum(rate: real, a: nat, b: nat)
    ensures rate * (a + b) as real == rate * a as real + rate * b as real
  {
  }

  /** Every token is charged at the rate of its own kind, and nothing else is. */
  lemma EveryTokenAtItsRate(price: Rates, call: Call, n: nat)
    ensures CachedPrice(price, call.(inputTokens := call.inputTokens + n))
         == CachedPrice(price, call) + price.input * n as real / 1_000_000.0
    ensures CachedPrice(price, call.(outputTokens := call.outputTokens + n))
         == CachedPrice(price, call) + price.output * n as real / 1_000_000.0
    ensures CachedPrice(price, call.(cacheRead := call.cacheRead + n))
         == CachedPrice(price, call) + price.cacheRead * n as real / 1_000_000.0
    ensures CachedPrice(price, call.(cacheWrite5m := call.cacheWrite5m + n))
         == CachedPrice(price, call) + price.write5m * n as real / 1_000_000.0
    ensures CachedPrice(price, call.(cacheWrite1h := call.cacheWrite1h + n))
         == CachedPrice(price, call) + price.write1h * n as real / 1_000_000.0
  {
    var a, b, c := price.input * call.inputTokens as real, price.write5m * call.cacheWrite5m as real,
                   price.write1h * call.cacheWrite1h as real;
    var d, e := price.cacheRead * call.cacheRead as real, price.output * call.outputTokens as real;
    OfASum(price.input, call.inputTokens, n);
    InPart(a, b, c, d, e, price.input * n as real);
    OfASum(price.write5m, call.cacheWrite5m, n);
    InPart(a, b, c, d, e, price.write5m * n as real);
    OfASum(price.write1h, call.cacheWrite1h, n);
    InPart(a, b, c, d, e, price.write1h * n as real);
    OfASum(price.cacheRead, call.cacheRead, n);
    InPart(a, b, c, d, e, price.cacheRead * n as real);
    OfASum(price.output, call.outputTokens, n);
    InPart(a, b, c, d, e, price.output * n as real);
  }

  lemma InPart(a: real, b: real, c: real, d: real, e: real, more: real)
    ensures PerMillion(a + more + b + c + d + e) == PerMillion(a + b + c + d + e) + more / 1_000_000.0
    ensures PerMillion(a + (b + more) + c + d + e) == PerMillion(a + b + c + d + e) + more / 1_000_000.0
    ensures PerMillion(a + b + (c + more) + d + e) == PerMillion(a + b + c + d + e) + more / 1_000_000.0
    ensures PerMillion(a + b + c + (d + more) + e) == PerMillion(a + b + c + d + e) + more / 1_000_000.0
    ensures PerMillion(a + b + c + d + (e + more)) == PerMillion(a + b + c + d + e) + more / 1_000_000.0
  {
  }

  lemma NoTokensCostNothing(price: Rates, call: Call)
    requires Fed(call) == 0 && call.outputTokens == 0
    ensures CachedPrice(price, call) == 0.0 && FullPrice(price, Fed(call), call.outputTokens) == 0.0
  {
    OfNone(price.input, call.inputTokens);
    OfNone(price.input, Fed(call));
    OfNone(price.write5m, call.cacheWrite5m);
    OfNone(price.write1h, call.cacheWrite1h);
    OfNone(price.cacheRead, call.cacheRead);
    OfNone(price.output, call.outputTokens);
  }

  lemma OfNone(rate: real, n: nat)
    requires n == 0
    ensures rate * n as real == 0.0
  {
  }

  /** Without the cache, every token the model was fed is charged as one of input, of whatever kind it was. */
  lemma EveryTokenInFull(price: Rates, call: Call, n: nat)
    ensures Fed(call.(inputTokens := call.inputTokens + n)) == Fed(call) + n
    ensures Fed(call.(cacheRead := call.cacheRead + n)) == Fed(call) + n
    ensures Fed(call.(cacheWrite5m := call.cacheWrite5m + n)) == Fed(call) + n
    ensures Fed(call.(cacheWrite1h := call.cacheWrite1h + n)) == Fed(call) + n
    ensures Fed(call.(outputTokens := call.outputTokens + n)) == Fed(call)
    ensures Fed(call.(inputTokens := 0, cacheRead := 0, cacheWrite5m := 0, cacheWrite1h := 0)) == 0
    ensures FullPrice(price, Fed(call) + n, call.outputTokens)
         == FullPrice(price, Fed(call), call.outputTokens) + price.input * n as real / 1_000_000.0
    ensures FullPrice(price, Fed(call), call.outputTokens + n)
         == FullPrice(price, Fed(call), call.outputTokens) + price.output * n as real / 1_000_000.0
  {
    OfASum(price.input, Fed(call), n);
    OfASum(price.output, call.outputTokens, n);
  }

  /** What is counted of a call that has its end is the dearer of its two costs; a call that was not
      forwarded, or has no price, counts nothing. */
  lemma TheDearerIsCounted(call: Call)
    ensures !call.forwarded || RatesFor(call.model, Fed(call)).None? ==> Counted(call) == 0.0
    ensures call.forwarded && RatesFor(call.model, Fed(call)).Some? ==>
              && Nocache(call) == Some(FullPrice(RatesFor(call.model, Fed(call)).value, Fed(call), call.outputTokens))
              && Billed(call) == Some(CachedPrice(RatesFor(call.model, Fed(call)).value, call))
    ensures call.forwarded && RatesFor(call.model, Fed(call)).Some? && call.complete ==>
              && (Counted(call) == Nocache(call).value || Counted(call) == Billed(call).value)
              && Counted(call) >= Nocache(call).value && Counted(call) >= Billed(call).value
  {
  }

  lemma CoversUpToMissing(call: Call, done: Call)
    requires call.forwarded && !call.complete && done.complete
    requires SameInput(call, done) && call.outputTokens <= done.outputTokens
    requires RatesFor(call.model, Fed(call)).Some?
    ensures Counted(done) <= Counted(call) <==> done.outputTokens <= call.outputTokens + Missing(call)
  {
    var price := RatesFor(call.model, Fed(call)).value;
    PricesArePositive(call.model, Fed(call));
    OutputAdds(price, call, done);
    var more, missing := done.outputTokens - call.outputTokens, Missing(call);
    assert Counted(done) == Max(Nocache(call).value, Billed(call).value) + PerMillion(price.output * more as real);
    assert Counted(call) == Max(Nocache(call).value, Billed(call).value) + PerMillion(price.output * missing as real);
    if more <= missing {
      Proportional(price.output, more, missing);
    } else {
      Proportional(price.output, missing + 1, more);
      assert price.output * (missing + 1) as real == price.output * missing as real + price.output;
    }
  }

  /** What the cap counts for a call without its end covers a way it could have ended, with the input
      it had declared, exactly when that way brings no more than `max_tokens`. */
  lemma UnfinishedCoversItsEnd(call: Call, done: Call)
    requires call.forwarded && !call.complete && done.complete
    requires SameInput(call, done) && call.outputTokens <= done.outputTokens
    requires RatesFor(call.model, Fed(call)).Some?
    ensures Counted(done) <= Counted(call)
       <==> || done.outputTokens == call.outputTokens
            || (call.maxTokens.Some? && done.outputTokens <= call.maxTokens.value)
  {
    CoversUpToMissing(call, done);
  }

  /** The output a call is counted with: what it had, or `max_tokens` when it has no end. */
  function CountedOutput(call: Call): nat {
    call.outputTokens + if call.complete then 0 else Missing(call)
  }

  /** A call its model can hold, within the output budget, that asked for no cache to be written. */
  predicate IsWithinBounds(call: Call) {
    && call.model.Some? && WindowOf(call.model.value).Some?
    && call.cacheWrite5m == 0 && call.cacheWrite1h == 0
    && CountedOutput(call) <= OUTPUT_TOKENS
    && Fed(call) + CountedOutput(call) <= WindowOf(call.model.value).value
  }

  /** With no cache written, the price with the cache is never above the full price. */
  lemma CacheIsNotDearer(call: Call)
    requires call.forwarded && call.cacheWrite5m == 0 && call.cacheWrite1h == 0
    requires RatesFor(call.model, Fed(call)).Some?
    ensures Billed(call).value <= Nocache(call).value
  {
    var price := RatesFor(call.model, Fed(call)).value;
    PricesArePositive(call.model, Fed(call));
    var read := call.cacheRead as real;
    assert (price.input - price.cacheRead) * read >= 0.0;
    assert price.input * Fed(call) as real == price.input * call.inputTokens as real + price.input * read;
    assert price.input * read == price.cacheRead * read + (price.input - price.cacheRead) * read;
  }

  /** What is counted for a call is the dearer cost it would have whole, with its output at `max_tokens` when
      that is more and the call has no end. */
  lemma CountedAsWhole(call: Call)
    requires call.forwarded && RatesFor(call.model, Fed(call)).Some?
    ensures CountedOutput(call) >= call.outputTokens
    ensures CountedOutput(call)
         == if !call.complete && call.maxTokens.Some? && call.maxTokens.value > call.outputTokens
            then call.maxTokens.value else call.outputTokens
    ensures var whole := call.(outputTokens := CountedOutput(call), complete := true);
            Counted(call) == Counted(whole) == Max(Nocache(whole).value, Billed(whole).value)
  {
    WithItsWholeOutput(call);
  }

  lemma WithItsWholeOutput(call: Call)
    requires call.forwarded && RatesFor(call.model, Fed(call)).Some?
    ensures var whole := call.(outputTokens := CountedOutput(call), complete := true);
            Counted(call) == Max(Nocache(whole).value, Billed(whole).value)
  {
    var price := RatesFor(call.model, Fed(call)).value;
    var whole := call.(outputTokens := CountedOutput(call), complete := true);
    if call.complete {
      assert whole == call;
    } else {
      var missing := PerMillion(price.output * Missing(call) as real);
      OutputAdds(price, call, whole);
      assert Nocache(whole).value == Nocache(call).value + missing;
      assert Billed(whole).value == Billed(call).value + missing;
      assert Counted(call) == Max(Nocache(call).value, Billed(call).value) + missing;
    }
  }

  /** So what the cap counts for a call within its bounds, whole or not, is at most the worst case of its
      model. */
  lemma WorstBoundsWhatIsCounted(call: Call)
    requires call.forwarded && IsWithinBounds(call)
    ensures WorstOf(call.model.value).Some? && Counted(call) <= WorstOf(call.model.value).value
  {
    var whole := call.(outputTokens := CountedOutput(call), complete := true);
    WorstIsABound(call.model.value, whole);
    CountedAsWhole(call);
    CacheIsNotDearer(whole);
  }

  lemma CountedIsNotNegative(call: Call)
    ensures Counted(call) >= 0.0
  {
    var price := RatesFor(call.model, Fed(call));
    if price.Some? {
      PricesArePositive(call.model, Fed(call));
      Proportional(price.value.input, 0, Fed(call));
      Proportional(price.value.output, 0, call.outputTokens);
      Proportional(price.value.output, 0, Missing(call));
    }
  }
}
