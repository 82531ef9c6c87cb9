/**
 What a usage report says, in terms of the recorded events alone: which events a window holds, and
 that every figure is a plain sum over them.
 */
module UsageReport {
  import opened Wrappers
  import opened Ledger
  import opened Cost
  import opened Tracker

  // ---------------------------------------------------------------- plain sums

  function Total(log: seq<Rec>, keep: Rec -> bool, figure: Rec -> int): int {
    if log == [] then 0
    else
      var r := log[|log| - 1];
      Total(log[..|log| - 1], keep, figure) + if keep(r) then figure(r) else 0
  }

  function Money(log: seq<Rec>, keep: Rec -> bool, amount: Rec -> real): real {
    if log == [] then 0.0
    else
      var r := log[|log| - 1];
      Money(log[..|log| - 1], keep, amount) + if keep(r) then amount(r) else 0.0
  }

  /** The figures of exactly the kept records. */
  ghost predicate Figures(s: Stat, log: seq<Rec>, keep: Rec -> bool) {
    && s.requests == Total(log, keep, (r: Rec) => 1)
    && s.errors == Total(log, keep, (r: Rec) => if r.e.isError then 1 else 0)
    && s.input == Total(log, keep, (r: Rec) => r.e.input)
    && s.output == Total(log, keep, (r: Rec) => r.e.output)
    && s.cacheRead == Total(log, keep, (r: Rec) => r.e.cacheRead)
    && s.cacheWrite == Total(log, keep, (r: Rec) => r.e.cacheWrite)
    && s.extra == Money(log, keep, (r: Rec) => r.extra)
    && (forall r :: r in log && keep(r) ==> r.at <= s.lastUsed)
    && (s.lastUsed > 0 ==> exists r :: r in log && keep(r) && r.at == s.lastUsed)
  }

  ghost predicate Keeps(log: seq<Rec>, keep: Rec -> bool, sel: Sel) {
    forall r :: r in log ==> (keep(r) <==> Selected(r, sel))
  }

  /** Any figure that adds up from one record to the next is its plain sum. */
  lemma {:induction false} FigureIsTotal(log: seq<Rec>, keep: Rec -> bool, sel: Sel, shown: Stat -> int,
                                         figure: Rec -> int)
    requires Keeps(log, keep, sel) && shown(ZERO) == 0
    requires forall s: Stat, r: Rec :: shown(Add(s, StatOf(r))) == shown(s) + figure(r)
    ensures shown(Sum(log, sel)) == Total(log, keep, figure)
    decreases |log|
  {
    hide Add, StatOf, Selected;
    if log != [] { FigureIsTotal(log[..|log| - 1], keep, sel, shown, figure); }
  }

  lemma {:induction false} ExtraIsMoney(log: seq<Rec>, keep: Rec -> bool, sel: Sel, amount: Rec -> real)
    requires Keeps(log, keep, sel) && forall r: Rec :: amount(r) == r.extra
    ensures Sum(log, sel).extra == Money(log, keep, amount)
    decreases |log|
  {
    hide Selected;
    if log != [] { ExtraIsMoney(log[..|log| - 1], keep, sel, amount); }
  }

  lemma {:induction false} LastUsedIsLatest(log: seq<Rec>, keep: Rec -> bool, sel: Sel)
    requires Keeps(log, keep, sel)
    ensures forall r :: r in log && keep(r) ==> r.at <= Sum(log, sel).lastUsed
    ensures Sum(log, sel).lastUsed > 0 ==> exists r :: r in log && keep(r) && r.at == Sum(log, sel).lastUsed
    decreases |log|
  {
    hide Selected, Plus;
    if log != [] {
      var (front, r) := (log[..|log| - 1], log[|log| - 1]);
      LastUsedIsLatest(front, keep, sel);
      assert forall x :: x in log <==> x in front || x == r;
    }
  }

  lemma SumFigures(log: seq<Rec>, keep: Rec -> bool, sel: Sel)
    requires Keeps(log, keep, sel)
    ensures Figures(Sum(log, sel), log, keep)
  {
    FigureIsTotal(log, keep, sel, (s: Stat) => s.requests, (r: Rec) => 1);
    FigureIsTotal(log, keep, sel, (s: Stat) => s.errors, (r: Rec) => if r.e.isError then 1 else 0);
    FigureIsTotal(log, keep, sel, (s: Stat) => s.input, (r: Rec) => r.e.input);
    FigureIsTotal(log, keep, sel, (s: Stat) => s.output, (r: Rec) => r.e.output);
    FigureIsTotal(log, keep, sel, (s: Stat) => s.cacheRead, (r: Rec) => r.e.cacheRead);
    FigureIsTotal(log, keep, sel, (s: Stat) => s.cacheWrite, (r: Rec) => r.e.cacheWrite);
    ExtraIsMoney(log, keep, sel, (r: Rec) => r.extra);
    LastUsedIsLatest(log, keep, sel);
  }

  // ---------------------------------------------------------------- windows

  predicate StartsHourOf(h: int, at: nat) { h % 3600 == 0 && h <= at / 1_000_000_000 < h + 3600 }

  /** The hour an event is filed under is the start of the hour it falls in. */
  lemma HourStarts(at: nat)
    ensures forall h :: StartsHourOf(h, at) <==> h == HourOf(at)
  {
    assert StartsHourOf(HourOf(at), at);
  }

  /** Everything for no window or one of 30 days and more, else the events whose hour starts inside it. */
  ghost predicate InWindow(r: Rec, window: int, now: nat) {
    || window <= 0 || window >= 30 * 24 * 3600 * 1_000_000_000
    || exists h :: StartsHourOf(h, r.at) && (now - window) / 1_000_000_000 <= h
  }

  lemma WindowMeans(r: Rec, window: int, now: nat)
    ensures Selected(r, Window(window, now)) <==> InWindow(r, window, now)
  {
    HourStarts(r.at);
    assert StartsHourOf(HourOf(r.at), r.at);
  }

  // ---------------------------------------------------------------- reports

  function OrUnknown(name: string): string { if name == "" then "unknown" else name }

  function Having(keep: Rec -> bool, key: Rec -> string, name: string): Rec -> bool {
    r => keep(r) && key(r) == name
  }

  function OfClient(keep: Rec -> bool, name: string): Rec -> bool { r => keep(r) && r.e.client == name }

  ghost predicate Occurs(log: seq<Rec>, keep: Rec -> bool) { exists r :: r in log && keep(r) }

  ghost predicate Listed(es: seq<Entry>, name: string) { exists i :: 0 <= i < |es| && es[i].name == name }

  /** A line for the kept records with this key, of which there are some. */
  ghost predicate Line(e: Entry, log: seq<Rec>, keep: Rec -> bool, key: Rec -> string) {
    Occurs(log, Having(keep, key, e.name)) && Figures(e.stat, log, Having(keep, key, e.name))
  }

  /** One line for every key among the kept records, with the figures of the records that have it. */
  ghost predicate Listing(es: seq<Entry>, log: seq<Rec>, keep: Rec -> bool, key: Rec -> string) {
    && DistinctNames(es)
    && (forall i :: 0 <= i < |es| ==> Line(es[i], log, keep, key))
    && (forall r :: r in log && keep(r) ==> Listed(es, key(r)))
  }

  lemma ListsLine(es: seq<Entry>, log: seq<Rec>, sel: Sel, dim: Dim, keep: Rec -> bool, key: Rec -> string, i: nat)
    requires Lists(es, log, sel, dim) && Open(sel, dim) && Keeps(log, keep, sel)
    requires (forall r :: r in log ==> key(r) == Key(dim, r)) && i < |es|
    ensures Line(es[i], log, keep, key)
  {
    hide Figures;
    SumFigures(log, Having(keep, key, es[i].name), Narrow(sel, dim, {es[i].name}));
    assert es[i].name in NamesOf(es);
    var r :| r in log && Selected(r, sel) && Key(dim, r) == es[i].name;
    assert Having(keep, key, es[i].name)(r);
  }

  lemma ListsListing(es: seq<Entry>, log: seq<Rec>, sel: Sel, dim: Dim, keep: Rec -> bool, key: Rec -> string)
    requires Lists(es, log, sel, dim) && Open(sel, dim) && Keeps(log, keep, sel)
    requires forall r :: r in log ==> key(r) == Key(dim, r)
    ensures Listing(es, log, keep, key)
  {
    hide Line;
    forall i | 0 <= i < |es| ensures Line(es[i], log, keep, key) {
      ListsLine(es, log, sel, dim, keep, key, i);
    }
    forall r | r in log && keep(r) ensures Listed(es, key(r)) {
      assert key(r) in Names(log, sel, dim);
      var e :| e in es && e.name == key(r);
    }
  }

  /** One report for every client among the kept records, with its own figures and models. */
  ghost predicate ClientListing(cs: seq<ClientReport>, log: seq<Rec>, keep: Rec -> bool) {
    && (forall i, j :: 0 <= i < j < |cs| ==> cs[i].name != cs[j].name)
    && (forall i :: 0 <= i < |cs| ==>
          var own := OfClient(keep, cs[i].name);
          && cs[i].name != ""
          && Figures(cs[i].stat, log, own)
          && Listing(cs[i].models, log, own, (r: Rec) => OrUnknown(r.e.model)))
    && (forall r :: r in log && keep(r) && r.e.client != "" ==> exists i :: 0 <= i < |cs| && cs[i].name == r.e.client)
  }

  lemma ClientLines(c: ClientReport, log: seq<Rec>, sel: Sel, pricing: Pricing, keep: Rec -> bool)
    requires ClientFigures(c, log, sel, pricing) && c.name != "" && Keeps(log, keep, sel)
    requires sel.clients.None? && sel.models.None?
    ensures var own := OfClient(keep, c.name);
            Figures(c.stat, log, own) && Listing(c.models, log, own, (r: Rec) => OrUnknown(r.e.model))
  {
    hide Figures, Listing, Lists;
    var own := OfClient(keep, c.name);
    SumFigures(log, own, ForClient(sel, c.name));
    ListsListing(c.models, log, ForClient(sel, c.name), ByModel, own, (r: Rec) => OrUnknown(r.e.model));
  }

  lemma ClientsListing(cs: seq<ClientReport>, log: seq<Rec>, sel: Sel, pricing: Pricing, keep: Rec -> bool)
    requires forall i :: 0 <= i < |cs| ==> ClientFigures(cs[i], log, sel, pricing)
    requires forall i, j :: 0 <= i < j < |cs| ==> cs[i].name != cs[j].name
    requires ClientNames(cs) == Clients(log, sel) && Keeps(log, keep, sel)
    requires sel.clients.None? && sel.models.None?
    ensures ClientListing(cs, log, keep)
  {
    hide ClientFigures, Figures, Listing;
    forall i | 0 <= i < |cs|
      ensures var own := OfClient(keep, cs[i].name);
              cs[i].name != "" && Figures(cs[i].stat, log, own) &&
              Listing(cs[i].models, log, own, (r: Rec) => OrUnknown(r.e.model))
    {
      assert cs[i].name in ClientNames(cs);
      ClientLines(cs[i], log, sel, pricing, keep);
    }
    forall r | r in log && keep(r) && r.e.client != "" ensures exists i :: 0 <= i < |cs| && cs[i].name == r.e.client {
      assert r.e.client in Clients(log, sel);
      var c :| c in cs && c.name == r.e.client;
    }
  }

  /**
   What a report for a window says: its totals, credentials, models and clients are the plain sums over
   the events in that window, and these are found by the clock alone.
   */
  lemma ReportMeans(r: Report, log: seq<Rec>, window: int, now: nat, pricing: Pricing)
    requires Reports(r, log, Window(window, now), pricing)
    ensures var within := (x: Rec) => InWindow(x, window, now);
            && Figures(r.totals, log, within)
            && Listing(r.credentials, log, within, (x: Rec) => OrUnknown(x.e.credential))
            && Listing(r.models, log, within, (x: Rec) => OrUnknown(x.e.model))
            && ClientListing(r.clients, log, within)
  {
    var (sel, within) := (Window(window, now), (x: Rec) => InWindow(x, window, now));
    forall x | x in log ensures within(x) <==> Selected(x, sel) { WindowMeans(x, window, now); }
    hide Figures, Listing, ClientListing, Lists, Selected, InWindow, ClientFigures;
    SumFigures(log, within, sel);
    ListsListing(r.credentials, log, sel, ByCred, within, (x: Rec) => OrUnknown(x.e.credential));
    ListsListing(r.models, log, sel, ByModel, within, (x: Rec) => OrUnknown(x.e.model));
    ClientsListing(r.clients, log, sel, pricing, within);
  }

  // ---------------------------------------------------------------- costs

  lemma {:induction false} CostIsMoney(log: seq<Rec>, sel: Sel, pricing: Pricing, keep: Rec -> bool)
    requires Keeps(log, keep, sel)
    ensures LogCost(log, sel, pricing) == Money(log, keep, (r: Rec) => EventCost(pricing, r.e))
    ensures LogDrift(log, sel, pricing) == Money(log, keep, (r: Rec) => Drift(pricing, r.e))
    decreases |log|
  {
    hide Selected, EventCost, Drift;
    if log != [] { CostIsMoney(log[..|log| - 1], sel, pricing, keep); }
  }

  /** The costs of the report are the costs of the events in the window, and their drift. */
  lemma ReportCosts(r: Report, log: seq<Rec>, window: int, now: nat, pricing: Pricing)
    requires Reports(r, log, Window(window, now), pricing) && Priced(log, pricing)
    ensures r.totalCost == Money(log, (x: Rec) => InWindow(x, window, now), (x: Rec) => EventCost(pricing, x.e)) +
                           Money(log, (x: Rec) => InWindow(x, window, now), (x: Rec) => Drift(pricing, x.e))
  {
    var (sel, within) := (Window(window, now), (x: Rec) => InWindow(x, window, now));
    forall x | x in log ensures within(x) <==> Selected(x, sel) { WindowMeans(x, window, now); }
    hide Reports, LogCost, LogDrift, EventCost, Drift, InWindow;
    ReportCostsAddUp(r, log, sel, pricing);
    CostIsMoney(log, sel, pricing, within);
  }

  // ---------------------------------------------------------------- what one event costs

  /** At these rates per million tokens: the plain input, the cache reads and writes, the output and the fee. */
  function Charge(plain: int, read: int, written: int, output: int, rate: real, readRate: real, writeRate: real,
                  outputRate: real, fee: real): real
  {
    (plain as real * rate + read as real * readRate + written as real * writeRate) / 1000000.0 +
    output as real / 1000000.0 * outputRate + fee
  }

  /**
   What an event costs: the upstream's own figure if it gives one, nothing without a price, else its
   tokens by kind and, for a success, the fee. Without rates of their own cache reads cost a tenth of
   the input rate and cache writes a quarter more than it.
   */
  lemma EventCostMeans(pricing: Pricing, e: Event)
    requires 0 <= e.cacheRead && 0 <= e.cacheWrite && e.cacheRead + e.cacheWrite <= e.input
    ensures e.reported > 0.0 ==> EventCost(pricing, e) == e.reported
    ensures e.reported <= 0.0 && PriceFor(pricing, e.model) == None ==> EventCost(pricing, e) == 0.0
    ensures e.reported <= 0.0 && PriceFor(pricing, e.model).Some? ==>
              var p := PriceFor(pricing, e.model).value;
              EventCost(pricing, e) ==
              Charge(e.input - e.cacheRead - e.cacheWrite, e.cacheRead, e.cacheWrite, e.output,
                     p.input, if p.cacheRead == 0.0 then p.input * 0.1 else p.cacheRead,
                     if p.cacheWrite == 0.0 then p.input * 1.25 else p.cacheWrite,
                     p.output, if e.isError then 0.0 else p.request)
  {
    hide PriceFor;
    var s := EventStat(e);
    assert ClampRead(s) == e.cacheRead && ClampWrite(s) == e.cacheWrite;
  }

  /** A split that claims too much is cut: first the reads to the input, then the writes to what is left. */
  lemma ClampsMean(s: Stat)
    requires s.input >= 0
    ensures 0 <= ClampRead(s) <= s.input && 0 <= ClampWrite(s) <= s.input - ClampRead(s)
    ensures s.cacheRead <= s.input ==> ClampRead(s) == if s.cacheRead < 0 then 0 else s.cacheRead
    ensures s.cacheRead > s.input ==> ClampRead(s) == s.input
    ensures s.cacheWrite <= s.input - ClampRead(s) ==> ClampWrite(s) == if s.cacheWrite < 0 then 0 else s.cacheWrite
    ensures s.cacheWrite > s.input - ClampRead(s) ==> ClampWrite(s) == s.input - ClampRead(s)
  {}

  /** The longest priced prefix of the model among those of 1 to n characters. */
  ghost predicate IsLongest(pricing: Pricing, model: string, n: nat, best: string) {
    && best in pricing && best != "" && best <= model && |best| <= n
    && forall k :: k in pricing && k <= model && |k| <= n ==> |k| <= |best|
  }

  /** The price of a model: its own, else that of its longest prefix that has one, else none. */
  lemma PriceMeans(pricing: Pricing, model: string)
    ensures var p := PriceFor(pricing, model);
            && (model in pricing ==> p == Some(pricing[model]))
            && (model !in pricing && p.Some? ==>
                  exists best :: IsLongest(pricing, model, |model|, best) && p == Some(pricing[best]))
            && (p.None? ==> model !in pricing && forall k :: k in pricing && k <= model ==> k == "")
  {
    PrefixMeans(pricing, model, |model|);
  }

  lemma {:induction false} PrefixMeans(pricing: Pricing, model: string, n: nat)
    requires n <= |model|
    ensures var p := LongestPrefix(pricing, model, n);
            && (p.Some? ==> exists best :: IsLongest(pricing, model, n, best) && p == Some(pricing[best]))
            && (p.None? ==> forall k :: k in pricing && k <= model && |k| <= n ==> k == "")
  {
    if n > 0 {
      var whole := model[..n];
      assert forall k | k <= model && |k| == n :: k == whole;
      if whole in pricing {
        assert IsLongest(pricing, model, n, whole);
      } else {
        PrefixMeans(pricing, model, n - 1);
        if LongestPrefix(pricing, model, n).Some? {
          var best :| IsLongest(pricing, model, n - 1, best) && LongestPrefix(pricing, model, n) == Some(pricing[best]);
          assert IsLongest(pricing, model, n, best);
        }
      }
    }
  }
}
