/**
 From a stream to the bill: usage folded out of Anthropic streams, recorded and re-priced from
 the aggregates, costs exactly what the single responses cost.
 */
module Billing {
  import opened Wrappers
  import AnthropicEvents
  import AnthropicStream
  import opened Cost
  import opened Ledger
  import opened Tracker

  /** anthropicEvent: the event of one response, from the usage objects its stream carried. */
  function AnthropicEvent(credential: string, model: string, seen: seq<AnthropicStream.Counts>): Event {
    var t := AnthropicStream.Folded(seen);
    Event(credential, "", model, false, t.input, t.output, t.cacheRead, t.cacheWrite, 0.0)
  }

  /** What is billed for a response: its credential and model, its total input, its output and its cache counts. */
  lemma AnthropicEventMeans(credential: string, model: string, seen: seq<AnthropicStream.Counts>)
    ensures var e := AnthropicEvent(credential, model, seen);
            && e.credential == credential && e.model == model && e.client == "" && !e.isError && e.reported == 0.0
            && AnthropicEvents.IsLastPositive(e.output, seen, (c: AnthropicStream.Counts) => c.output)
            && AnthropicEvents.IsLastPositive(e.cacheRead, seen, (c: AnthropicStream.Counts) => c.cacheRead)
            && AnthropicEvents.IsLastPositive(e.cacheWrite, seen, (c: AnthropicStream.Counts) => c.cacheWrite)
            && AnthropicEvents.IsLastPositive(e.input - e.cacheRead - e.cacheWrite, seen,
                                              (c: AnthropicStream.Counts) => c.input)
  {
    AnthropicEvents.FoldedMeans(seen);
  }

  /** Folding establishes the well-formed split that exact pricing needs. */
  lemma FoldedUsageIsWellFormed(credential: string, model: string, seen: seq<AnthropicStream.Counts>)
    ensures WellFormedSplit(EventStat(AnthropicEvent(credential, model, seen)))
  {
    var none := AnthropicStream.Counts(0, 0, 0, 0);
    AnthropicStream.LastPositiveAppend(seen, none, AnthropicStream.Input);
    AnthropicStream.LastPositiveAppend(seen, none, AnthropicStream.CacheRead);
    AnthropicStream.LastPositiveAppend(seen, none, AnthropicStream.CacheWrite);
  }

  /** A record of a streamed response, for some client, under this pricing. */
  ghost predicate Streamed(r: Rec, pricing: Pricing) {
    && r.extra == ExtraCost(pricing, r.e) && r.e.model != ""
    && exists seen :: r.e == AnthropicEvent(r.e.credential, r.e.model, seen).(client := r.e.client)
  }

  /** A report over streamed responses, whole or windowed, bills their cost to the cent, in all and per client. */
  lemma StreamsAreBilledExactly(r: Report, log: seq<Rec>, sel: Sel, pricing: Pricing)
    requires Reports(r, log, sel, pricing) && sel.models.None?
    requires forall i :: 0 <= i < |log| ==> Streamed(log[i], pricing)
    ensures r.totalCost == LogCost(log, sel, pricing)
    ensures forall i :: 0 <= i < |r.clients| ==>
        r.clients[i].cost == LogCost(log, ForClient(sel, r.clients[i].name), pricing)
  {
    hide Reports, ExtraCost, EventCost, LogCost, LogDrift;
    forall i | 0 <= i < |log| ensures PricedRec(log[i], pricing) && log[i].e.model != "" {
      var e := log[i].e;
      var seen :| e == AnthropicEvent(e.credential, e.model, seen).(client := e.client);
      FoldedUsageIsWellFormed(e.credential, e.model, seen);
    }
    ReportCostsAddUp(r, log, sel, pricing);
    NoDrift(log, sel, pricing);
    forall i | 0 <= i < |r.clients|
      ensures r.clients[i].cost == LogCost(log, ForClient(sel, r.clients[i].name), pricing)
    {
      NoDrift(log, ForClient(sel, r.clients[i].name), pricing);
    }
  }
}
