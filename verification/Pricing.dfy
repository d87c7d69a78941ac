/**
 LLM pricing (`pricing.py`).  Costs are in units of 0.0001 CZK, the quantum amounts are rounded to.
 */
module Pricing {
  import opened Options
  import opened Rounding

  /** USD per million input and output tokens. */
  datatype ModelPricing = ModelPricing(input: real, output: real)

  function PriceOf(model: string): Option<ModelPricing> {
    match model
    case "claude-sonnet-4-20250514" => Some(ModelPricing(3.0, 15.0))
    case "claude-sonnet-4-6" => Some(ModelPricing(3.0, 15.0))
    case "claude-opus-4-7" => Some(ModelPricing(15.0, 75.0))
    case "claude-haiku-4-5-20251001" => Some(ModelPricing(1.0, 5.0))
    case _ => None
  }

  function ResolveModel(name: string): string {
    match name
    case "sonnet" => "claude-sonnet-4-20250514"
    case "haiku" => "claude-haiku-4-5-20251001"
    case "opus" => "claude-opus-4-7"
    case _ => name
  }

  /** An alias stands for a model with a price, and a resolved name resolves to itself. */
  lemma AliasesArePriced(name: string)
    ensures ResolveModel(name) != name ==> PriceOf(ResolveModel(name)).Some?
    ensures ResolveModel(ResolveModel(name)) == ResolveModel(name)
  {
  }

  /** The unrounded cost, in units; a model without a price costs nothing. */
  function ExactCost(model: string, rate: real, inTokens: nat, outTokens: nat): real {
    match PriceOf(model)
    case None => 0.0
    case Some(p) => (p.input * inTokens as real + p.output * outTokens as real) / 1000000.0 * rate * 10000.0
  }

  /** `compute_cost_czk`, in units. */
  function Cost(model: string, rate: real, inTokens: nat, outTokens: nat): int {
    HalfEven(ExactCost(model, rate, inTokens, outTokens))
  }

  /** What one token costs, in units. */
  function PerToken(usdPerMillion: real, rate: real): real { usdPerMillion * rate / 100.0 }

  lemma ExactIsLinear(model: string, rate: real, inTokens: nat, outTokens: nat)
    ensures ExactCost(model, rate, inTokens, outTokens) ==
            match PriceOf(model)
            case None => 0.0
            case Some(p) => PerToken(p.input, rate) * inTokens as real + PerToken(p.output, rate) * outTokens as real
  {
    if PriceOf(model).Some? {
      var p := PriceOf(model).value;
      var a, b := inTokens as real, outTokens as real;
      assert (p.input * a + p.output * b) / 1000000.0 * rate * 10000.0 == (p.input * a + p.output * b) * rate / 100.0;
      assert (p.input * a + p.output * b) * rate == (p.input * rate) * a + (p.output * rate) * b;
    }
  }

  /** Which models have a price; any other costs nothing. */
  lemma PricedModels(model: string, rate: real, inTokens: nat, outTokens: nat)
    ensures PriceOf(model).Some? <==>
            model in {ResolveModel("haiku"), ResolveModel("sonnet"), "claude-sonnet-4-6", ResolveModel("opus")}
    ensures PriceOf(model).None? ==> Cost(model, rate, inTokens, outTokens) == 0
  {
    if PriceOf(model).None? { HalfEvenIsNearest(0.0, 0); }
  }

  /** How prices relate: a million input tokens of haiku cost a dollar, sonnet costs three times and opus
      fifteen times as much as haiku, and everywhere an output token costs as much as five input tokens. */
  lemma PricesRelate(model: string, rate: real, inTokens: nat, outTokens: nat)
    ensures ExactCost(ResolveModel("haiku"), rate, 1_000_000, 0) == 10000.0 * rate
    ensures var haiku := ExactCost(ResolveModel("haiku"), rate, inTokens, outTokens);
            && ExactCost(ResolveModel("sonnet"), rate, inTokens, outTokens) == 3.0 * haiku
            && ExactCost("claude-sonnet-4-6", rate, inTokens, outTokens) == 3.0 * haiku
            && ExactCost(ResolveModel("opus"), rate, inTokens, outTokens) == 15.0 * haiku
    ensures ExactCost(model, rate, inTokens, outTokens) == ExactCost(model, rate, inTokens + 5 * outTokens, 0)
  {
    ExactIsLinear(ResolveModel("haiku"), rate, inTokens, outTokens);
    ExactIsLinear(ResolveModel("haiku"), rate, 1_000_000, 0);
    ExactIsLinear(ResolveModel("sonnet"), rate, inTokens, outTokens);
    ExactIsLinear("claude-sonnet-4-6", rate, inTokens, outTokens);
    ExactIsLinear(ResolveModel("opus"), rate, inTokens, outTokens);
    PerTokenScales(rate, inTokens, outTokens);
    OutputIsFiveInputs(model, rate, inTokens, outTokens);
  }

  lemma PerTokenScales(rate: real, inTokens: nat, outTokens: nat)
    ensures PerToken(3.0, rate) == 3.0 * PerToken(1.0, rate) && PerToken(15.0, rate) == 15.0 * PerToken(1.0, rate)
    ensures PerToken(5.0, rate) == 5.0 * PerToken(1.0, rate) && PerToken(75.0, rate) == 75.0 * PerToken(1.0, rate)
    ensures PerToken(1.0, rate) * 1000000.0 == 10000.0 * rate
  {
  }

  lemma OutputIsFiveInputs(model: string, rate: real, inTokens: nat, outTokens: nat)
    ensures ExactCost(model, rate, inTokens, outTokens) == ExactCost(model, rate, inTokens + 5 * outTokens, 0)
  {
    ExactIsLinear(model, rate, inTokens, outTokens);
    ExactIsLinear(model, rate, inTokens + 5 * outTokens, 0);
    if PriceOf(model).Some? {
      var p := PriceOf(model).value;
      assert p.output == 5.0 * p.input;
      assert PerToken(p.output, rate) == 5.0 * PerToken(p.input, rate);
      FiveTimes(PerToken(p.input, rate), inTokens, outTokens);
    }
  }

  lemma FiveTimes(price: real, inTokens: nat, outTokens: nat)
    ensures price * (inTokens + 5 * outTokens) as real == price * inTokens as real + 5.0 * price * outTokens as real
  {
    assert (inTokens + 5 * outTokens) as real == inTokens as real + 5.0 * outTokens as real;
  }

  lemma ExactAdds(model: string, rate: real, in1: nat, out1: nat, in2: nat, out2: nat)
    ensures ExactCost(model, rate, in1 + in2, out1 + out2)
            == ExactCost(model, rate, in1, out1) + ExactCost(model, rate, in2, out2)
  {
    ExactIsLinear(model, rate, in1 + in2, out1 + out2);
    ExactIsLinear(model, rate, in1, out1);
    ExactIsLinear(model, rate, in2, out2);
  }

  /** A call never costs less than nothing, and more tokens never cost less. */
  lemma CostMonotone(model: string, rate: real, in1: nat, out1: nat, in2: nat, out2: nat)
    requires rate >= 0.0 && in1 <= in2 && out1 <= out2
    ensures 0 <= Cost(model, rate, in1, out1) <= Cost(model, rate, in2, out2)
  {
    ExactNonNegative(model, rate, in1, out1);
    ExactNonNegative(model, rate, in2 - in1, out2 - out1);
    ExactAdds(model, rate, in1, out1, in2 - in1, out2 - out1);
    HalfEvenMonotone(0.0, ExactCost(model, rate, in1, out1));
    HalfEvenMonotone(ExactCost(model, rate, in1, out1), ExactCost(model, rate, in2, out2));
  }

  lemma ExactNonNegative(model: string, rate: real, inTokens: nat, outTokens: nat)
    requires rate >= 0.0
    ensures ExactCost(model, rate, inTokens, outTokens) >= 0.0
  {
    ExactIsLinear(model, rate, inTokens, outTokens);
  }
}
