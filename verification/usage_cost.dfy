/**
 What events cost, and why costs re-derived from the aggregates add up to the cost of
 the single events.
 */
module Cost {
  import opened Wrappers
  import opened Ledger

  /** Per 1,000,000 tokens, except `request`, a flat fee per successful request. */
  datatype Price = Price(input: real, output: real, request: real, cacheRead: real, cacheWrite: real)

  type Pricing = map<string, Price>

  const MILLION: real := 1000000.0

  // ---------------------------------------------------------------- price of a model

  /** The longest prefix of the model, of at most n and at least one character, that is priced. */
  function LongestPrefix(pricing: Pricing, model: string, n: nat): Option<Price>
    requires n <= |model|
  {
    if n == 0 then None
    else if model[..n] in pricing then Some(pricing[model[..n]])
    else LongestPrefix(pricing, model, n - 1)
  }

  /** An exact match wins, otherwise the longest priced prefix. */
  function PriceFor(pricing: Pricing, model: string): Option<Price> {
    if model in pricing then Some(pricing[model]) else LongestPrefix(pricing, model, |model|)
  }

  lemma {:induction false} LongestPrefixIs(pricing: Pricing, model: string, n: nat, best: string)
    requires n <= |model| && best <= model && |best| <= n
    requires best != "" ==> best in pricing
    requires forall k :: k in pricing && k <= model && |best| < |k| <= n ==> false
    ensures LongestPrefix(pricing, model, n) == if best == "" then None else Some(pricing[best])
  {
    if n > |best| {
      assert model[..n] <= model;
      LongestPrefixIs(pricing, model, n - 1, best);
    } else {
      assert best == model[..n];
    }
  }

  /** The keys are visited in no particular order; the result does not depend on it. */
  method FindPrice(pricing: Pricing, model: string) returns (p: Option<Price>)
    ensures p == PriceFor(pricing, model)
  {
    if model in pricing {
      return Some(pricing[model]);
    }
    var best := "";
    var todo := pricing.Keys;
    while todo != {}
      invariant todo <= pricing.Keys
      invariant best <= model && (best != "" ==> best in pricing)
      invariant forall k :: k in pricing && k !in todo && k <= model ==> |k| <= |best|
      decreases todo
    {
      var k :| k in todo;
      todo := todo - {k};
      if |k| > |best| && k <= model {
        best := k;
      }
    }
    LongestPrefixIs(pricing, model, |model|, best);
    if best == "" {
      return None;
    }
    return Some(pricing[best]);
  }

  // ---------------------------------------------------------------- cost of tokens

  function ClampRead(s: Stat): int {
    var read := if s.cacheRead < 0 then 0 else s.cacheRead;
    if read > s.input then s.input else read
  }

  function ClampWrite(s: Stat): int {
    var write := if s.cacheWrite < 0 then 0 else s.cacheWrite;
    if write > s.input - ClampRead(s) then s.input - ClampRead(s) else write
  }

  function ReadRate(p: Price): real { if p.cacheRead == 0.0 then p.input * 0.1 else p.cacheRead }
  function WriteRate(p: Price): real { if p.cacheWrite == 0.0 then p.input * 1.25 else p.cacheWrite }

  /** Cache reads and writes at their own rates, the remainder at the plain input rate. */
  function InputCost(p: Price, s: Stat): real {
    var read, write := ClampRead(s), ClampWrite(s);
    ((s.input - read - write) as real * p.input + read as real * ReadRate(p) + write as real * WriteRate(p)) / MILLION
  }

  /** Tokens times pricing; an unpriced model is free. */
  function TokenCost(price: Option<Price>, s: Stat): real {
    match price
    case None => 0.0
    case Some(p) => InputCost(p, s) + s.output as real / MILLION * p.output
  }

  function ModelCost(pricing: Pricing, model: string, s: Stat): real {
    TokenCost(PriceFor(pricing, model), s) + s.extra
  }

  function EventStat(e: Event): Stat {
    ZERO.(input := e.input, output := e.output, cacheRead := e.cacheRead, cacheWrite := e.cacheWrite)
  }

  /** The upstream's own figure if it reports one, else tokens plus the fee of a successful request. */
  function EventCost(pricing: Pricing, e: Event): real {
    if e.reported > 0.0 then e.reported
    else
      ModelCost(pricing, e.model, EventStat(e)) +
      match PriceFor(pricing, e.model) { case Some(p) => if e.isError then 0.0 else p.request case None => 0.0 }
  }

  /** What Record stores beside the tokens. */
  function ExtraCost(pricing: Pricing, e: Event): real {
    EventCost(pricing, e) - ModelCost(pricing, e.model, EventStat(e))
  }

  predicate WellFormedSplit(s: Stat) {
    0 <= s.cacheRead && 0 <= s.cacheWrite && s.cacheRead + s.cacheWrite <= s.input
  }

  lemma Scale(x: int, y: int, rate: real)
    ensures (x + y) as real * rate == x as real * rate + y as real * rate
  {}

  /** A sum keeps what is charged at the cache rates. */
  predicate ClampsAdd(a: Stat, b: Stat) {
    ClampRead(Add(a, b)) == ClampRead(a) + ClampRead(b) && ClampWrite(Add(a, b)) == ClampWrite(a) + ClampWrite(b)
  }

  /** With well-formed cache splits pricing is additive, so it may be applied to a sum. */
  lemma TokenCostAdds(price: Option<Price>, a: Stat, b: Stat)
    requires WellFormedSplit(a) && WellFormedSplit(b)
    ensures WellFormedSplit(Add(a, b))
    ensures TokenCost(price, Add(a, b)) == TokenCost(price, a) + TokenCost(price, b)
  {
    hide TokenCost;
    assert ClampsAdd(a, b);
    PricingAdds(price, a, b);
  }

  lemma PricingAdds(price: Option<Price>, a: Stat, b: Stat)
    requires ClampsAdd(a, b)
    ensures TokenCost(price, Add(a, b)) == TokenCost(price, a) + TokenCost(price, b)
  {
    hide ClampRead, ClampWrite;
    if price.Some? {
      var p := price.value;
      InputCostAdds(p, a, b);
      OutputCostAdds(a.output, b.output, p.output);
    }
  }

  lemma OutputCostAdds(x: int, y: int, rate: real)
    ensures (x + y) as real / MILLION * rate == x as real / MILLION * rate + y as real / MILLION * rate
  {
    assert (x + y) as real / MILLION == x as real / MILLION + y as real / MILLION;
  }

  lemma InputCostAdds(p: Price, a: Stat, b: Stat)
    requires ClampsAdd(a, b)
    ensures InputCost(p, Add(a, b)) == InputCost(p, a) + InputCost(p, b)
  {
    hide ClampRead, ClampWrite;
    var s := Add(a, b);
    var fa, fb := a.input - ClampRead(a) - ClampWrite(a), b.input - ClampRead(b) - ClampWrite(b);
    assert s.input - ClampRead(s) - ClampWrite(s) == fa + fb;
    Scale(fa, fb, p.input);
    Scale(ClampRead(a), ClampRead(b), ReadRate(p));
    Scale(ClampWrite(a), ClampWrite(b), WriteRate(p));
  }

  /** A price for cache reads alone, and one for cache writes alone: what they charge for. */
  lemma CacheAlone(s: Stat)
    ensures TokenCost(Some(Price(0.0, 0.0, 0.0, MILLION, 0.0)), s) == ClampRead(s) as real
    ensures TokenCost(Some(Price(0.0, 0.0, 0.0, 0.0, MILLION)), s) == ClampWrite(s) as real
  {}

  predicate SameSide(x: int, y: int) { (x >= 0 && y >= 0) || (x <= 0 && y <= 0) }

  /**
   Exactly when a sum is priced as its parts, at any price: when the same is charged at the cache
   rates. For counts that are not negative that is, when both splits or neither claim more reads
   than input, and likewise more reads and writes than input.
   */
  lemma PricingAddsIff(a: Stat, b: Stat)
    ensures (forall price :: TokenCost(price, Add(a, b)) == TokenCost(price, a) + TokenCost(price, b)) <==>
              ClampsAdd(a, b)
    ensures a.cacheRead >= 0 && a.cacheWrite >= 0 && b.cacheRead >= 0 && b.cacheWrite >= 0 ==>
              (ClampsAdd(a, b) <==>
                && SameSide(a.input - a.cacheRead, b.input - b.cacheRead)
                && SameSide(a.input - a.cacheRead - a.cacheWrite, b.input - b.cacheRead - b.cacheWrite))
  {
    hide TokenCost;
    if ClampsAdd(a, b) {
      forall price ensures TokenCost(price, Add(a, b)) == TokenCost(price, a) + TokenCost(price, b) {
        PricingAdds(price, a, b);
      }
    }
    CacheAlone(a);
    CacheAlone(b);
    CacheAlone(Add(a, b));
  }

  // ---------------------------------------------------------------- aggregates against the log

  /**
   An event without a model is priced as model "" when recorded but listed, and so re-priced,
   as "unknown". This is the difference; it is zero for every event that names its model.
   */
  function Drift(pricing: Pricing, e: Event): real {
    if e.model != "" then 0.0
    else TokenCost(PriceFor(pricing, "unknown"), EventStat(e)) - TokenCost(PriceFor(pricing, ""), EventStat(e))
  }

  function Billed(pricing: Pricing, e: Event): real { EventCost(pricing, e) + Drift(pricing, e) }

  /** The cost of all selected events, as the aggregates bill them. */
  function LogBill(log: seq<Rec>, sel: Sel, pricing: Pricing): real
    decreases |log|
  {
    if log == [] then 0.0
    else
      LogBill(log[..|log| - 1], sel, pricing) +
      if Selected(log[|log| - 1], sel) then Billed(pricing, log[|log| - 1].e) else 0.0
  }

  /** The sum of EventCost over the selected events. */
  function LogCost(log: seq<Rec>, sel: Sel, pricing: Pricing): real
    decreases |log|
  {
    if log == [] then 0.0
    else
      LogCost(log[..|log| - 1], sel, pricing) +
      if Selected(log[|log| - 1], sel) then EventCost(pricing, log[|log| - 1].e) else 0.0
  }

  function LogDrift(log: seq<Rec>, sel: Sel, pricing: Pricing): real
    decreases |log|
  {
    if log == [] then 0.0
    else
      LogDrift(log[..|log| - 1], sel, pricing) +
      if Selected(log[|log| - 1], sel) then Drift(pricing, log[|log| - 1].e) else 0.0
  }

  /** Recorded under this pricing, with well-formed cache splits. */
  ghost predicate Priced(log: seq<Rec>, pricing: Pricing) {
    forall i :: 0 <= i < |log| ==> PricedRec(log[i], pricing)
  }

  predicate PricedRec(r: Rec, pricing: Pricing) {
    r.extra == ExtraCost(pricing, r.e) && WellFormedSplit(EventStat(r.e))
  }

  lemma BillOfOne(r: Rec, pricing: Pricing)
    requires PricedRec(r, pricing)
    ensures WellFormedSplit(StatOf(r))
    ensures ModelCost(pricing, ModelKey(r.e), StatOf(r)) == Billed(pricing, r.e)
  {
    hide PriceFor;
    var own, key := PriceFor(pricing, r.e.model), PriceFor(pricing, ModelKey(r.e));
    assert TokenCost(key, StatOf(r)) == TokenCost(key, EventStat(r.e));
    assert r.extra == EventCost(pricing, r.e) - TokenCost(own, EventStat(r.e));
  }

  /** One model's cost, derived from its summed figures, is the bill of its events. */
  lemma {:induction false} ModelCostIsBill(log: seq<Rec>, sel: Sel, model: string, pricing: Pricing)
    requires Priced(log, pricing)
    ensures var one := Narrow(sel, ByModel, {model});
            && WellFormedSplit(Sum(log, one))
            && ModelCost(pricing, model, Sum(log, one)) == LogBill(log, one, pricing)
    decreases |log|
  {
    var one := Narrow(sel, ByModel, {model});
    if log == [] {
      NothingCostsNothing(pricing, model);
    } else {
      hide PriceFor, TokenCost, Billed, ExtraCost, StatOf;
      var front, r := log[..|log| - 1], log[|log| - 1];
      ModelCostIsBill(front, sel, model, pricing);
      if Selected(r, one) {
        assert ModelKey(r.e) == model;
        BillOfOne(r, pricing);
        TokenCostAdds(PriceFor(pricing, model), Sum(front, one), StatOf(r));
      }
    }
  }

  lemma NothingCostsNothing(pricing: Pricing, model: string)
    ensures WellFormedSplit(ZERO) && ModelCost(pricing, model, ZERO) == 0.0
  {
    hide PriceFor;
    var price := PriceFor(pricing, model);
    if price.Some? {
      assert ClampRead(ZERO) == 0 && ClampWrite(ZERO) == 0;
    }
  }

  lemma {:induction false} BillSplit(log: seq<Rec>, whole: Sel, a: Sel, b: Sel, pricing: Pricing)
    requires Splits(whole, a, b)
    ensures LogBill(log, whole, pricing) == LogBill(log, a, pricing) + LogBill(log, b, pricing)
    decreases |log|
  {
    hide Billed, Selected;
    if log != [] {
      var r := log[|log| - 1];
      assert SplitsAt(r, whole, a, b);
      hide Splits;
      BillSplit(log[..|log| - 1], whole, a, b, pricing);
    }
  }

  lemma {:induction false} BillOfNone(log: seq<Rec>, sel: Sel, pricing: Pricing)
    requires sel.models == Some({})
    ensures LogBill(log, sel, pricing) == 0.0
    decreases |log|
  {
    hide Billed;
    if log != [] { BillOfNone(log[..|log| - 1], sel, pricing); }
  }

  lemma {:induction false} BillSame(log: seq<Rec>, a: Sel, b: Sel, pricing: Pricing)
    requires forall i :: 0 <= i < |log| ==> Selected(log[i], a) == Selected(log[i], b)
    ensures LogBill(log, a, pricing) == LogBill(log, b, pricing)
    decreases |log|
  {
    hide Billed, Selected;
    if log != [] { BillSame(log[..|log| - 1], a, b, pricing); }
  }

  lemma {:induction false} BillIsCostPlusDrift(log: seq<Rec>, sel: Sel, pricing: Pricing)
    ensures LogBill(log, sel, pricing) == LogCost(log, sel, pricing) + LogDrift(log, sel, pricing)
    decreases |log|
  {
    hide EventCost, Drift, Selected;
    if log != [] { BillIsCostPlusDrift(log[..|log| - 1], sel, pricing); }
  }

  function SumCosts(es: seq<Entry>): real {
    if es == [] then 0.0 else SumCosts(es[..|es| - 1]) + es[|es| - 1].cost
  }

  /** Every entry carries the cost of its own figures. */
  ghost predicate Costed(es: seq<Entry>, pricing: Pricing) {
    forall i :: 0 <= i < |es| ==> es[i].cost == ModelCost(pricing, es[i].name, es[i].stat)
  }

  lemma {:induction false} CostsSumPart(es: seq<Entry>, log: seq<Rec>, sel: Sel, pricing: Pricing)
    requires DistinctNames(es) && sel.models.None? && Priced(log, pricing) && Costed(es, pricing)
    requires forall i :: 0 <= i < |es| ==> es[i].stat == Sum(log, Narrow(sel, ByModel, {es[i].name}))
    ensures SumCosts(es) == LogBill(log, Narrow(sel, ByModel, NamesOf(es)), pricing)
    decreases |es|
  {
    hide Splits, Selected, Sum, LogBill, ModelCost, Priced;
    if es == [] {
      assert NamesOf(es) == {};
      BillOfNone(log, Narrow(sel, ByModel, {}), pricing);
    } else {
      var front, e := es[..|es| - 1], es[|es| - 1];
      CostsSumPart(front, log, sel, pricing);
      assert es == front + [e];
      assert NamesOf(es) == NamesOf(front) + {e.name} && e.name !in NamesOf(front);
      NarrowSplits(sel, ByModel, NamesOf(front), e.name);
      BillSplit(log, Narrow(sel, ByModel, NamesOf(es)), Narrow(sel, ByModel, NamesOf(front)),
                Narrow(sel, ByModel, {e.name}), pricing);
      ModelCostIsBill(log, sel, e.name, pricing);
    }
  }

  /**
   Costs derived from the per-model aggregates add up to the cost of the single events,
   including reported costs and per-request fees, up to the drift of events without a model.
   */
  lemma CostsAddUp(es: seq<Entry>, log: seq<Rec>, sel: Sel, pricing: Pricing)
    requires Lists(es, log, sel, ByModel) && sel.models.None? && Priced(log, pricing) && Costed(es, pricing)
    ensures SumCosts(es) == LogCost(log, sel, pricing) + LogDrift(log, sel, pricing)
  {
    hide Sum, LogBill, LogCost, LogDrift, ModelCost, Priced;
    CostsSumPart(es, log, sel, pricing);
    forall i | 0 <= i < |log| ensures Selected(log[i], sel) == Selected(log[i], Narrow(sel, ByModel, NamesOf(es))) {
      assert Selected(log[i], sel) ==> Key(ByModel, log[i]) in Names(log, sel, ByModel);
    }
    BillSame(log, sel, Narrow(sel, ByModel, NamesOf(es)), pricing);
    BillIsCostPlusDrift(log, sel, pricing);
  }

  /** What a price charges per 1,000,000 tokens of each kind; without a price, nothing. */
  datatype Rates = Rates(input: real, output: real, cacheRead: real, cacheWrite: real)

  function RatesOf(price: Option<Price>): Rates {
    match price
    case None => Rates(0.0, 0.0, 0.0, 0.0)
    case Some(p) => Rates(p.input, p.output, ReadRate(p), WriteRate(p))
  }

  /** Events without a model are charged alike under "" and under "unknown". Request fees do not matter. */
  predicate SameUnnamed(pricing: Pricing) { RatesOf(PriceFor(pricing, "unknown")) == RatesOf(PriceFor(pricing, "")) }

  lemma CostByRates(price: Option<Price>, s: Stat)
    ensures var (r, read, write) := (RatesOf(price), ClampRead(s), ClampWrite(s));
            TokenCost(price, s) ==
            ((s.input - read - write) as real * r.input + read as real * r.cacheRead +
             write as real * r.cacheWrite) / MILLION + s.output as real / MILLION * r.output
  {
    hide ClampRead, ClampWrite;
    if price.None? {
      var (read, write) := (ClampRead(s), ClampWrite(s));
      assert (s.input - read - write) as real * 0.0 == 0.0 && s.output as real / MILLION * 0.0 == 0.0;
      assert read as real * 0.0 == 0.0 && write as real * 0.0 == 0.0;
    }
  }

  /** An event that names no model, a million tokens of one kind: what it costs is the rate of that kind. */
  function Unnamed(input: int, output: int, cacheRead: int, cacheWrite: int): Event {
    Event("", "", "", false, input, output, cacheRead, cacheWrite, 0.0)
  }

  lemma MillionOfEach(price: Option<Price>)
    ensures var r := RatesOf(price);
            && TokenCost(price, EventStat(Unnamed(1000000, 0, 0, 0))) == r.input
            && TokenCost(price, EventStat(Unnamed(0, 1000000, 0, 0))) == r.output
            && TokenCost(price, EventStat(Unnamed(1000000, 0, 1000000, 0))) == r.cacheRead
            && TokenCost(price, EventStat(Unnamed(1000000, 0, 0, 1000000))) == r.cacheWrite
  {
    CostByRates(price, EventStat(Unnamed(1000000, 0, 0, 0)));
    CostByRates(price, EventStat(Unnamed(0, 1000000, 0, 0)));
    CostByRates(price, EventStat(Unnamed(1000000, 0, 1000000, 0)));
    CostByRates(price, EventStat(Unnamed(1000000, 0, 0, 1000000)));
  }

  /** Exactly when no event can drift: the two names are charged at the same rates. */
  lemma NoDriftIff(pricing: Pricing)
    ensures (forall e: Event :: Drift(pricing, e) == 0.0) <==> SameUnnamed(pricing)
  {
    hide PriceFor, TokenCost, RatesOf;
    if SameUnnamed(pricing) {
      forall e: Event ensures Drift(pricing, e) == 0.0 { SameRatesNoDrift(pricing, e); }
    }
    if forall e: Event :: Drift(pricing, e) == 0.0 {
      MillionOfEach(PriceFor(pricing, "unknown"));
      MillionOfEach(PriceFor(pricing, ""));
      assert Drift(pricing, Unnamed(1000000, 0, 0, 0)) == 0.0 && Drift(pricing, Unnamed(0, 1000000, 0, 0)) == 0.0;
      assert Drift(pricing, Unnamed(1000000, 0, 1000000, 0)) == 0.0
          && Drift(pricing, Unnamed(1000000, 0, 0, 1000000)) == 0.0;
    }
  }

  lemma SameRatesNoDrift(pricing: Pricing, e: Event)
    requires SameUnnamed(pricing)
    ensures Drift(pricing, e) == 0.0
  {
    hide PriceFor, TokenCost, RatesOf;
    CostByRates(PriceFor(pricing, "unknown"), EventStat(e));
    CostByRates(PriceFor(pricing, ""), EventStat(e));
  }

  /** A whole log does not drift when every event names its model, or the two names are charged alike. */
  lemma {:induction false} NoDrift(log: seq<Rec>, sel: Sel, pricing: Pricing)
    requires || SameUnnamed(pricing)
             || forall i :: 0 <= i < |log| ==> log[i].e.model != ""
    ensures LogDrift(log, sel, pricing) == 0.0
    decreases |log|
  {
    hide PriceFor, TokenCost, Selected, SameUnnamed, ExtraCost;
    if log != [] {
      NoDrift(log[..|log| - 1], sel, pricing);
      var r := log[|log| - 1];
      if r.e.model == "" { SameRatesNoDrift(pricing, r.e); }
    }
  }

  /** Otherwise the totals really are off: "unknown" priced, one event without a model. */
  lemma DriftExample() returns (pricing: Pricing, e: Event)
    ensures EventCost(pricing, e) == 0.0 && Drift(pricing, e) == 1.0 && WellFormedSplit(EventStat(e))
  {
    pricing := map["unknown" := Price(1.0, 0.0, 0.0, 0.0, 0.0)];
    e := Event("", "", "", false, 1000000, 0, 0, 0, 0.0);
    assert PriceFor(pricing, "") == None;
    assert PriceFor(pricing, "unknown") == Some(pricing["unknown"]);
    assert ClampRead(EventStat(e)) == 0 && ClampWrite(EventStat(e)) == 0;
  }

  /** Pricing need not be additive when a split claims more cache tokens than there was input. */
  lemma MalformedSplitExample() returns (p: Price, a: Stat, b: Stat)
    ensures !WellFormedSplit(a) && InputCost(p, Add(a, b)) != InputCost(p, a) + InputCost(p, b)
  {
    p := Price(1.0, 0.0, 0.0, 0.5, 0.5);
    a := ZERO.(cacheRead := 1000000);
    b := ZERO.(input := 1000000);
    assert ClampRead(a) == 0 && ClampWrite(a) == 0 && ClampRead(b) == 0 && ClampWrite(b) == 0;
    assert ClampRead(Add(a, b)) == 1000000 && ClampWrite(Add(a, b)) == 0;
  }
}
