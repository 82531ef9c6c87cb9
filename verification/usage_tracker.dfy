/**
 The usage tracker itself. Its seven aggregates are maps that Record updates and
 pruning trims; `log` is the plain event log they must agree with.
 */
module Tracker {
  import opened Wrappers
  import opened Ledger
  import opened Cost

  type Table = map<string, Stat>

  // ---------------------------------------------------------------- apply and merge

  /** apply: adds one event and stamps the time. */
  function Applied(s: Stat, r: Rec): Stat {
    Stat(s.requests + 1, if r.e.isError then s.errors + 1 else s.errors, s.input + r.e.input, s.output + r.e.output,
         s.cacheRead + r.e.cacheRead, s.cacheWrite + r.e.cacheWrite, s.extra + r.extra, r.at)
  }

  function Update(m: Table, k: string, r: Rec): Table { m[k := Applied(Get(m, k), r)] }

  lemma AppliedIsAdd(s: Stat, r: Rec)
    requires s.lastUsed <= r.at
    ensures Applied(s, r) == Add(s, StatOf(r))
  {}

  /** Under a monotone clock stamping the time is taking the latest. */
  lemma UpdateIsBump(m: Table, log: seq<Rec>, sel: Sel, dim: Dim, k: string, r: Rec)
    requires Tallies(m, log, sel, dim) && Open(sel, dim) && NotAfter(log, r.at)
    ensures Update(m, k, r) == Bump(m, k, r)
  {
    GetIsSum(m, log, sel, dim, k);
    SumNotLater(log, Narrow(sel, dim, {k}), r.at);
    AppliedIsAdd(Get(m, k), r);
  }

  ghost predicate NotAfter(log: seq<Rec>, now: nat) {
    forall r :: r in log ==> r.at <= now
  }

  lemma TalliesUpdated(m: Table, log: seq<Rec>, r: Rec, sel: Sel, dim: Dim)
    requires Tallies(m, log, sel, dim) && Open(sel, dim) && NotAfter(log, r.at) && Selected(r, sel)
    ensures Tallies(Update(m, Key(dim, r), r), log + [r], sel, dim)
  {
    UpdateIsBump(m, log, sel, dim, Key(dim, r), r);
    TalliesAfter(m, log, r, sel, dim);
  }

  function TableOf(m: map<string, Table>, c: string): Table { if c in m then m[c] else map[] }

  function UpdateClient(m: map<string, Table>, r: Rec): map<string, Table> {
    if r.e.client == "" then m else m[r.e.client := Update(TableOf(m, r.e.client), ModelKey(r.e), r)]
  }

  lemma ClientsUpdated(m: map<string, Table>, log: seq<Rec>, r: Rec, sel: Sel)
    requires ClientTallies(m, log, sel) && sel.clients.None? && sel.models.None? && NotAfter(log, r.at)
    ensures ClientTallies(if Selected(r, sel) then UpdateClient(m, r) else m, log + [r], sel)
  {
    hide Tallies, Applied, Add;
    var c := r.e.client;
    if c != "" {
      if c !in m { MissingClient(m, log, sel, c); }
      UpdateIsBump(TableOf(m, c), log, ForClient(sel, c), ByModel, ModelKey(r.e), r);
    }
    ClientTalliesAfter(m, log, r, sel);
  }

  // ---------------------------------------------------------------- hourly tables

  /** Hours that still have a bucket: those with events, at or after the prune horizon. */
  predicate Kept(log: seq<Rec>, horizon: int, h: int) { h in HoursOf(log) && h >= horizon }

  ghost predicate HourStats(t: map<int, Stat>, log: seq<Rec>, horizon: int) {
    && (forall h :: h in t <==> Kept(log, horizon, h))
    && (forall h :: h in t ==> t[h] == Sum(log, InHour(h)))
  }

  ghost predicate HourTables(t: map<int, Table>, log: seq<Rec>, horizon: int, dim: Dim) {
    && (forall h :: h in t <==> Kept(log, horizon, h))
    && (forall h :: h in t ==> Tallies(t[h], log, InHour(h), dim))
  }

  ghost predicate HourClients(t: map<int, map<string, Table>>, log: seq<Rec>, horizon: int) {
    && (forall h :: h in t <==> Kept(log, horizon, h) && Clients(log, InHour(h)) != {})
    && (forall h :: h in t ==> ClientTallies(t[h], log, InHour(h)))
  }

  function DropBefore<V>(t: map<int, V>, cutoff: int): map<int, V> { map h | h in t && h >= cutoff :: t[h] }

  function BucketOf(t: map<int, Stat>, h: int): Stat { if h in t then t[h] else ZERO }
  function HourTable(t: map<int, Table>, h: int): Table { if h in t then t[h] else map[] }
  function HourClientTable(t: map<int, map<string, Table>>, h: int): map<string, Table> {
    if h in t then t[h] else map[]
  }

  lemma NotInHour(log: seq<Rec>, h: int)
    requires h !in HoursOf(log)
    ensures forall r :: r in log ==> !Selected(r, InHour(h))
    ensures Sum(log, InHour(h)) == ZERO
    ensures Names(log, InHour(h), ByCred) == {} && Names(log, InHour(h), ByModel) == {} && Clients(log, InHour(h)) == {}
  {
    forall r | r in log ensures !Selected(r, InHour(h)) {
      assert HourOf(r.at) in HoursOf(log);
    }
    SumNone(log, InHour(h));
  }

  lemma HourStatsAfter(t: map<int, Stat>, log: seq<Rec>, horizon: int, r: Rec)
    requires HourStats(t, log, horizon) && NotAfter(log, r.at) && HourOf(r.at) >= horizon
    ensures HourStats(t[HourOf(r.at) := Applied(BucketOf(t, HourOf(r.at)), r)], log + [r], horizon)
  {
    var h0 := HourOf(r.at);
    HoursAfter(log, r);
    if h0 !in t { NotInHour(log, h0); }
    SumNotLater(log, InHour(h0), r.at);
    AppliedIsAdd(BucketOf(t, h0), r);
    forall h | h in t || h == h0
      ensures Sum(log + [r], InHour(h)) == if h == h0 then Add(Sum(log, InHour(h)), StatOf(r)) else Sum(log, InHour(h))
    {
      SumAfter(log, r, InHour(h));
    }
  }

  lemma HourTableNow(t: map<int, Table>, log: seq<Rec>, horizon: int, dim: Dim, h: int)
    requires HourTables(t, log, horizon, dim) && h >= horizon
    ensures Tallies(HourTable(t, h), log, InHour(h), dim)
  {
    if h !in t { NotInHour(log, h); }
  }

  lemma HourTableAt(t: map<int, Table>, log: seq<Rec>, horizon: int, r: Rec, dim: Dim, h: int)
    requires HourTables(t, log, horizon, dim) && NotAfter(log, r.at) && h >= horizon
    ensures var m := HourTable(t, h);
            Tallies(if h == HourOf(r.at) then Update(m, Key(dim, r), r) else m, log + [r], InHour(h), dim)
  {
    HourTableNow(t, log, horizon, dim, h);
    hide Tallies, Update, NotAfter, Key;
    if h == HourOf(r.at) {
      TalliesUpdated(HourTable(t, h), log, r, InHour(h), dim);
    } else {
      TalliesAfter(HourTable(t, h), log, r, InHour(h), dim);
    }
  }

  lemma HourTablesAfter(t: map<int, Table>, log: seq<Rec>, horizon: int, r: Rec, dim: Dim)
    requires HourTables(t, log, horizon, dim) && NotAfter(log, r.at) && HourOf(r.at) >= horizon
    ensures HourTables(t[HourOf(r.at) := Update(HourTable(t, HourOf(r.at)), Key(dim, r), r)], log + [r], horizon, dim)
  {
    var h0 := HourOf(r.at);
    HoursAfter(log, r);
    hide Tallies, Update, NotAfter, Key, HoursOf, HourOf;
    forall h | h in t || h == h0
      ensures Tallies(if h == h0 then Update(HourTable(t, h), Key(dim, r), r) else HourTable(t, h),
                      log + [r], InHour(h), dim)
    {
      HourTableAt(t, log, horizon, r, dim, h);
    }
  }

  lemma HourClientsNow(t: map<int, map<string, Table>>, log: seq<Rec>, horizon: int, h: int)
    requires HourClients(t, log, horizon) && h >= horizon
    ensures ClientTallies(HourClientTable(t, h), log, InHour(h))
  {
    if h !in t {
      if h !in HoursOf(log) { NotInHour(log, h); }
      assert Clients(log, InHour(h)) == {};
    }
  }

  lemma HourClientAt(t: map<int, map<string, Table>>, log: seq<Rec>, horizon: int, r: Rec, h: int)
    requires HourClients(t, log, horizon) && NotAfter(log, r.at) && h >= horizon
    ensures var m := HourClientTable(t, h);
            && ClientTallies(if h == HourOf(r.at) then UpdateClient(m, r) else m, log + [r], InHour(h))
            && (Kept(log + [r], horizon, h) <==> Kept(log, horizon, h) || h == HourOf(r.at))
            && Clients(log + [r], InHour(h)) ==
               Clients(log, InHour(h)) + if h == HourOf(r.at) && r.e.client != "" then {r.e.client} else {}
  {
    HoursAfter(log, r);
    ClientsAfter(log, r, InHour(h));
    HourClientsNow(t, log, horizon, h);
    hide ClientTallies, HourClients, Clients;
    ClientsUpdated(HourClientTable(t, h), log, r, InHour(h));
  }

  lemma HourClientsAfter(t: map<int, map<string, Table>>, log: seq<Rec>, horizon: int, r: Rec)
    requires HourClients(t, log, horizon) && NotAfter(log, r.at) && HourOf(r.at) >= horizon
    ensures HourClients(
              if r.e.client == "" then t else t[HourOf(r.at) := UpdateClient(HourClientTable(t, HourOf(r.at)), r)],
              log + [r], horizon)
  {
    var h0 := HourOf(r.at);
    var t' := if r.e.client == "" then t else t[h0 := UpdateClient(HourClientTable(t, h0), r)];
    forall h | h >= horizon
      ensures h in t' <==> Kept(log + [r], horizon, h) && Clients(log + [r], InHour(h)) != {}
      ensures h in t' ==> ClientTallies(t'[h], log + [r], InHour(h))
    {
      HourClientAt(t, log, horizon, r, h);
      hide ClientTallies, Clients, HoursOf;
      if h == h0 && r.e.client != "" {
        assert r.e.client in Clients(log + [r], InHour(h));
      }
    }
  }

  // ---------------------------------------------------------------- merging tables

  /** apply2 for every key of b. */
  function Merged(a: Table, b: Table): Table {
    map k | k in a.Keys + b.Keys :: Add(Get(a, k), Get(b, k))
  }

  lemma NarrowedSplit(whole: Sel, selA: Sel, selB: Sel, dim: Dim, ks: set<string>)
    requires Splits(whole, selA, selB) && Open(whole, dim) && Open(selA, dim) && Open(selB, dim)
    ensures Splits(Narrow(whole, dim, ks), Narrow(selA, dim, ks), Narrow(selB, dim, ks))
  {
    forall r: Rec ensures SplitsAt(r, Narrow(whole, dim, ks), Narrow(selA, dim, ks), Narrow(selB, dim, ks)) {
      assert SplitsAt(r, whole, selA, selB);
    }
  }

  lemma NamesSplit(log: seq<Rec>, whole: Sel, selA: Sel, selB: Sel, dim: Dim)
    requires Splits(whole, selA, selB)
    ensures Names(log, whole, dim) == Names(log, selA, dim) + Names(log, selB, dim)
    ensures Clients(log, whole) == Clients(log, selA) + Clients(log, selB)
  {
    hide Selected, Key;
    assert forall r :: r in log ==> SplitsAt(r, whole, selA, selB);
  }

  lemma MergedTallies(a: Table, b: Table, log: seq<Rec>, whole: Sel, selA: Sel, selB: Sel, dim: Dim)
    requires Tallies(a, log, selA, dim) && Tallies(b, log, selB, dim) && Splits(whole, selA, selB)
    requires Open(whole, dim) && Open(selA, dim) && Open(selB, dim)
    ensures Tallies(Merged(a, b), log, whole, dim)
  {
    var m := Merged(a, b);
    NamesSplit(log, whole, selA, selB, dim);
    hide Splits, Sum, Names, Narrow, Get, Open;
    forall k | k in m ensures m[k] == Sum(log, Narrow(whole, dim, {k})) {
      GetIsSum(a, log, selA, dim, k);
      GetIsSum(b, log, selB, dim, k);
      NarrowedSplit(whole, selA, selB, dim, {k});
      SumSplit(log, Narrow(whole, dim, {k}), Narrow(selA, dim, {k}), Narrow(selB, dim, {k}));
    }
  }

  /** Go visits map entries in no particular order; so does this loop. */
  method Merge(a: Table, b: Table) returns (m: Table)
    ensures m == Merged(a, b)
  {
    hide Add;
    m := a;
    var todo := b.Keys;
    while todo != {}
      invariant todo <= b.Keys
      invariant m.Keys == a.Keys + (b.Keys - todo)
      invariant forall k :: k in m ==> m[k] == if k in b && k !in todo then Add(Get(a, k), b[k]) else Get(a, k)
      decreases todo
    {
      var k :| k in todo;
      todo := todo - {k};
      m := m[k := Add(Get(m, k), b[k])];
    }
    forall k | k in m ensures m[k] == Merged(a, b)[k] {
      AddZero(Get(a, k));
    }
  }

  function MergedClients(a: map<string, Table>, b: map<string, Table>): map<string, Table> {
    map c | c in a.Keys + b.Keys :: Merged(TableOf(a, c), TableOf(b, c))
  }

  lemma TableOfTallies(m: map<string, Table>, log: seq<Rec>, sel: Sel, c: string)
    requires ClientTallies(m, log, sel) && sel.clients.None?
    ensures Tallies(TableOf(m, c), log, ForClient(sel, c), ByModel)
  {
    if c !in m { MissingClient(m, log, sel, c); }
  }

  lemma ClientSplit(whole: Sel, selA: Sel, selB: Sel, c: string)
    requires Splits(whole, selA, selB) && whole.clients.None? && selA.clients.None? && selB.clients.None?
    ensures Splits(ForClient(whole, c), ForClient(selA, c), ForClient(selB, c))
  {
    forall r: Rec ensures SplitsAt(r, ForClient(whole, c), ForClient(selA, c), ForClient(selB, c)) {
      assert SplitsAt(r, whole, selA, selB);
    }
  }

  lemma MergedClientTallies(a: map<string, Table>, b: map<string, Table>, log: seq<Rec>, whole: Sel, selA: Sel,
      selB: Sel)
    requires ClientTallies(a, log, selA) && ClientTallies(b, log, selB) && Splits(whole, selA, selB)
    requires whole.models.None? && selA.models.None? && selB.models.None?
    requires whole.clients.None? && selA.clients.None? && selB.clients.None?
    requires whole.creds == selA.creds == selB.creds
    ensures ClientTallies(MergedClients(a, b), log, whole)
  {
    var m := MergedClients(a, b);
    NamesSplit(log, whole, selA, selB, ByModel);
    hide Splits, Tallies, Clients, Merged, TableOf;
    forall c | c in m ensures Tallies(m[c], log, ForClient(whole, c), ByModel) {
      TableOfTallies(a, log, selA, c);
      TableOfTallies(b, log, selB, c);
      ClientSplit(whole, selA, selB, c);
      MergedTallies(TableOf(a, c), TableOf(b, c), log, ForClient(whole, c), ForClient(selA, c), ForClient(selB, c),
          ByModel);
    }
  }

  lemma MergedNothing(a: Table)
    ensures Merged(a, map[]) == a
  {
    forall k | k in a ensures Add(Get(a, k), ZERO) == a[k] { AddZero(a[k]); }
  }

  method MergeClients(a: map<string, Table>, b: map<string, Table>) returns (m: map<string, Table>)
    ensures m == MergedClients(a, b)
  {
    hide Merged, Get;
    m := a;
    var todo := b.Keys;
    while todo != {}
      invariant todo <= b.Keys
      invariant m.Keys == a.Keys + (b.Keys - todo)
      invariant forall c :: c in m ==>
                  m[c] == if c in b && c !in todo then Merged(TableOf(a, c), b[c]) else TableOf(a, c)
      decreases todo
    {
      var c :| c in todo;
      todo := todo - {c};
      var merged := Merge(TableOf(m, c), b[c]);
      m := m[c := merged];
    }
    forall c | c in m ensures m[c] == MergedClients(a, b)[c] {
      MergedNothing(TableOf(a, c));
    }
  }

  // ---------------------------------------------------------------- windows

  function Hrs(hs: set<int>): Sel { ALL.(hours := Within(hs)) }

  lemma HoursSplit(done: set<int>, h: int)
    requires h !in done
    ensures Splits(Hrs(done + {h}), Hrs(done), InHour(h))
  {}

  /**
   Why pruning is invisible: the hours kept at or after a cutoff that is itself not before
   the horizon hold every event since that cutoff.
   */
  lemma KeptHoursSuffice(log: seq<Rec>, horizon: int, cutoff: int, hs: set<int>)
    requires horizon <= cutoff && forall h :: h in hs <==> Kept(log, horizon, h) && h >= cutoff
    ensures forall r :: r in log ==> Selected(r, Hrs(hs)) == Selected(r, ALL.(hours := Since(cutoff)))
  {
    forall r | r in log ensures HourOf(r.at) in HoursOf(log) {}
  }

  lemma TalliesSame(m: Table, log: seq<Rec>, a: Sel, b: Sel, dim: Dim)
    requires Tallies(m, log, a, dim) && Open(a, dim) && Open(b, dim)
    requires forall r :: r in log ==> Selected(r, a) == Selected(r, b)
    ensures Tallies(m, log, b, dim)
  {
    forall k | k in m ensures m[k] == Sum(log, Narrow(b, dim, {k})) {
      SumSame(log, Narrow(a, dim, {k}), Narrow(b, dim, {k}));
    }
  }

  lemma NothingWithin(log: seq<Rec>)
    ensures Sum(log, Hrs({})) == ZERO
    ensures Tallies(map[], log, Hrs({}), ByCred) && Tallies(map[], log, Hrs({}), ByModel)
    ensures ClientTallies(map[], log, Hrs({}))
  {
    SumNone(log, Hrs({}));
  }

  lemma EmptyOrNot(hs: set<int>)
    ensures (forall h :: h !in hs) ==> hs == {}
  {
    if forall h :: h !in hs {
      var none: set<int> := {};
      forall h ensures h in hs <==> h in none {}
    }
  }

  lemma SomeHour(hs: set<int>)
    requires hs != {}
    ensures exists h :: h in hs
  {
    EmptyOrNot(hs);
  }

  /** Sums the hourly tables of the window, in any order. */
  method SumWindowedBuckets(t: map<int, Table>, cutoff: int, ghost log: seq<Rec>, ghost horizon: int, ghost dim: Dim)
    returns (sums: Table)
    requires HourTables(t, log, horizon, dim) && horizon <= cutoff
    ensures Tallies(sums, log, ALL.(hours := Since(cutoff)), dim)
  {
    hide Tallies, Splits, SplitsAt, Merged;
    NothingWithin(log);
    sums := map[];
    ghost var done: set<int> := {};
    var todo := t.Keys;
    while todo != {}
      invariant todo <= t.Keys
      invariant forall h :: h in done <==> h in t && h !in todo && h >= cutoff
      invariant Tallies(sums, log, Hrs(done), dim)
      decreases todo
    {
      SomeHour(todo);
      var h :| h in todo;
      todo := todo - {h};
      if h < cutoff {
        continue;
      }
      ghost var before := sums;
      sums := Merge(sums, t[h]);
      HoursSplit(done, h);
      MergedTallies(before, t[h], log, Hrs(done + {h}), Hrs(done), InHour(h), dim);
      done := done + {h};
    }
    KeptHoursSuffice(log, horizon, cutoff, done);
    TalliesSame(sums, log, Hrs(done), ALL.(hours := Since(cutoff)), dim);
  }

  method SumWindowedClients(t: map<int, map<string, Table>>, cutoff: int, ghost log: seq<Rec>, ghost horizon: int)
    returns (sums: map<string, Table>)
    requires HourClients(t, log, horizon) && horizon <= cutoff
    ensures ClientTallies(sums, log, ALL.(hours := Since(cutoff)))
  {
    hide ClientTallies, Splits, MergedClients;
    NothingWithin(log);
    sums := map[];
    ghost var done: set<int> := {};
    var todo := t.Keys;
    while todo != {}
      invariant todo <= t.Keys
      invariant forall h :: h in done <==> h in t && h !in todo && h >= cutoff
      invariant ClientTallies(sums, log, Hrs(done))
      decreases todo
    {
      SomeHour(todo);
      var h :| h in todo;
      todo := todo - {h};
      if h < cutoff {
        continue;
      }
      ghost var before := sums;
      sums := MergeClients(sums, t[h]);
      HoursSplit(done, h);
      MergedClientTallies(before, t[h], log, Hrs(done + {h}), Hrs(done), InHour(h));
      done := done + {h};
    }
    forall r | r in log
      ensures Selected(r, Hrs(done)) == Selected(r, ALL.(hours := Since(cutoff))) || r.e.client == ""
    {
      ClientHourKept(t, log, horizon, cutoff, done, r);
    }
    ClientTalliesSameAttributed(sums, log, Hrs(done), ALL.(hours := Since(cutoff)));
  }

  /** An attributed event's hour is in the client table unless it was pruned. */
  lemma ClientHourKept(t: map<int, map<string, Table>>, log: seq<Rec>, horizon: int, cutoff: int, done: set<int>,
      r: Rec)
    requires HourClients(t, log, horizon) && horizon <= cutoff && r in log
    requires forall h :: h in done <==> h in t && h >= cutoff
    ensures Selected(r, Hrs(done)) == Selected(r, ALL.(hours := Since(cutoff))) || r.e.client == ""
  {
    var h := HourOf(r.at);
    if h >= cutoff && r.e.client != "" {
      assert Selected(r, InHour(h));
      assert r.e.client in Clients(log, InHour(h));
      assert Kept(log, horizon, h);
    }
  }

  lemma ClientTalliesSameAttributed(m: map<string, Table>, log: seq<Rec>, a: Sel, b: Sel)
    requires ClientTallies(m, log, a) && a.models.None? && b.models.None? && a.clients.None? && b.clients.None?
    requires forall r :: r in log ==> Selected(r, a) == Selected(r, b) || r.e.client == ""
    ensures ClientTallies(m, log, b)
  {
    assert Clients(log, a) == Clients(log, b);
    forall c | c in m ensures Tallies(m[c], log, ForClient(b, c), ByModel) {
      TalliesSame(m[c], log, ForClient(a, c), ForClient(b, c), ByModel);
    }
  }

  method SumWindowedTotals(t: map<int, Stat>, cutoff: int, ghost log: seq<Rec>, ghost horizon: int)
    returns (totals: Stat)
    requires HourStats(t, log, horizon) && horizon <= cutoff
    ensures totals == Sum(log, ALL.(hours := Since(cutoff)))
  {
    hide Splits, Selected, Add;
    NothingWithin(log);
    totals := ZERO;
    ghost var done: set<int> := {};
    var todo := t.Keys;
    while todo != {}
      invariant todo <= t.Keys
      invariant forall h :: h in done <==> h in t && h !in todo && h >= cutoff
      invariant totals == Sum(log, Hrs(done))
      decreases todo
    {
      SomeHour(todo);
      var h :| h in todo;
      todo := todo - {h};
      if h < cutoff {
        continue;
      }
      totals := Add(totals, t[h]);
      HoursSplit(done, h);
      SumSplit(log, Hrs(done + {h}), Hrs(done), InHour(h));
      done := done + {h};
    }
    KeptHoursSuffice(log, horizon, cutoff, done);
    SumSame(log, Hrs(done), ALL.(hours := Since(cutoff)));
  }

  // ---------------------------------------------------------------- reports

  datatype ClientReport = ClientReport(name: string, cost: real, stat: Stat, models: seq<Entry>)

  datatype Report = Report(
    totals: Stat, totalCost: real, credentials: seq<Entry>, models: seq<Entry>, clients: seq<ClientReport>)

  function ClientNames(cs: seq<ClientReport>): set<string> { set c | c in cs :: c.name }

  /** A model breakdown with the cost of each line and their sum. */
  ghost predicate Breakdown(models: seq<Entry>, cost: real, log: seq<Rec>, sel: Sel, pricing: Pricing) {
    Lists(models, log, sel, ByModel) && Costed(models, pricing) && cost == SumCosts(models)
  }

  ghost predicate ClientFigures(c: ClientReport, log: seq<Rec>, sel: Sel, pricing: Pricing) {
    && c.stat == Sum(log, ForClient(sel, c.name))
    && Breakdown(c.models, c.cost, log, ForClient(sel, c.name), pricing)
  }

  /** Every figure of the report is the fold of the log over exactly the selected events. */
  ghost predicate Reports(r: Report, log: seq<Rec>, sel: Sel, pricing: Pricing) {
    && r.totals == Sum(log, sel)
    && Lists(r.credentials, log, sel, ByCred)
    && Breakdown(r.models, r.totalCost, log, sel, pricing)
    && (forall i, j :: 0 <= i < j < |r.clients| ==> r.clients[i].name != r.clients[j].name)
    && ClientNames(r.clients) == Clients(log, sel)
    && forall i :: 0 <= i < |r.clients| ==> ClientFigures(r.clients[i], log, sel, pricing)
  }

  /** The table as a list, in no particular order. */
  method Entries(m: Table) returns (es: seq<Entry>)
    ensures DistinctNames(es) && NamesOf(es) == m.Keys
    ensures forall i :: 0 <= i < |es| ==> es[i].name in m && es[i].stat == m[es[i].name]
  {
    es := [];
    var todo := m.Keys;
    while todo != {}
      invariant todo <= m.Keys
      invariant DistinctNames(es) && NamesOf(es) == m.Keys - todo
      invariant forall i :: 0 <= i < |es| ==> es[i].name in m && es[i].stat == m[es[i].name]
      decreases todo
    {
      var k :| k in todo;
      todo := todo - {k};
      assert k !in NamesOf(es);
      ghost var front := es;
      es := es + [Entry(k, 0.0, m[k])];
      assert NamesOf(es) == NamesOf(front) + {k};
    }
  }

  /** Fills in the cost of every line and adds the lines up. */
  method PriceEntries(es: seq<Entry>, pricing: Pricing) returns (priced: seq<Entry>, total: real, stat: Stat)
    ensures |priced| == |es| && Costed(priced, pricing)
    ensures forall i :: 0 <= i < |es| ==> priced[i].name == es[i].name && priced[i].stat == es[i].stat
    ensures total == SumCosts(priced) && stat == SumEntries(priced)
  {
    priced, total, stat := [], 0.0, ZERO;
    for i := 0 to |es|
      invariant |priced| == i && Costed(priced, pricing)
      invariant forall k :: 0 <= k < i ==> priced[k].name == es[k].name && priced[k].stat == es[k].stat
      invariant total == SumCosts(priced) && stat == SumEntries(priced)
    {
      var e := es[i].(cost := ModelCost(pricing, es[i].name, es[i].stat));
      ghost var front := priced;
      priced := priced + [e];
      assert priced[..|priced| - 1] == front;
      total := total + e.cost;
      stat := Add(stat, e.stat);
    }
  }

  lemma SameNames(a: seq<Entry>, b: seq<Entry>)
    requires |a| == |b| && forall i :: 0 <= i < |a| ==> a[i].name == b[i].name
    ensures NamesOf(a) == NamesOf(b) && (DistinctNames(a) <==> DistinctNames(b))
  {
    forall x | x in NamesOf(a) ensures x in NamesOf(b) {
      var i :| 0 <= i < |a| && a[i].name == x;
      assert b[i] in b;
    }
    forall x | x in NamesOf(b) ensures x in NamesOf(a) {
      var i :| 0 <= i < |b| && b[i].name == x;
      assert a[i] in a;
    }
  }

  method ModelBreakdown(m: Table, pricing: Pricing, ghost log: seq<Rec>, ghost sel: Sel)
    returns (models: seq<Entry>, cost: real, stat: Stat)
    requires Tallies(m, log, sel, ByModel) && sel.models.None?
    ensures Breakdown(models, cost, log, sel, pricing) && stat == Sum(log, sel)
  {
    var es := Entries(m);
    models, cost, stat := PriceEntries(es, pricing);
    SameNames(models, es);
    assert Lists(models, log, sel, ByModel);
    hide Sum, Lists;
    EntriesSumToTotal(models, log, sel, ByModel);
  }

  method ClientReports(m: map<string, Table>, pricing: Pricing, ghost log: seq<Rec>, ghost sel: Sel)
    returns (clients: seq<ClientReport>)
    requires ClientTallies(m, log, sel) && sel.models.None?
    ensures forall i, j :: 0 <= i < j < |clients| ==> clients[i].name != clients[j].name
    ensures ClientNames(clients) == Clients(log, sel)
    ensures forall i :: 0 <= i < |clients| ==> ClientFigures(clients[i], log, sel, pricing)
  {
    hide Tallies, Breakdown;
    clients := [];
    var todo := m.Keys;
    while todo != {}
      invariant todo <= m.Keys
      invariant forall i, j :: 0 <= i < j < |clients| ==> clients[i].name != clients[j].name
      invariant ClientNames(clients) == m.Keys - todo
      invariant forall i :: 0 <= i < |clients| ==> ClientFigures(clients[i], log, sel, pricing)
      decreases todo
    {
      var c :| c in todo;
      todo := todo - {c};
      var models, cost, stat := ModelBreakdown(m[c], pricing, log, ForClient(sel, c));
      assert c !in ClientNames(clients);
      ghost var front := clients;
      clients := clients + [ClientReport(c, cost, stat, models)];
      assert ClientNames(clients) == ClientNames(front) + {c};
    }
  }

  // ---------------------------------------------------------------- recording

  method Drop<V>(t: map<int, V>, cutoff: int) returns (kept: map<int, V>)
    ensures kept == DropBefore(t, cutoff)
  {
    kept := t;
    var todo := t.Keys;
    while todo != {}
      invariant todo <= t.Keys
      invariant kept.Keys == set h | h in t && (h in todo || h >= cutoff)
      invariant forall h :: h in kept ==> kept[h] == t[h]
      decreases todo
    {
      SomeHour(todo);
      var h :| h in todo;
      todo := todo - {h};
      if h < cutoff {
        kept := kept - {h};
      }
    }
  }

  function Later(a: int, b: int): int { if a < b then b else a }

  ghost predicate AllTime(totals: Stat, byCredential: Table, byModel: Table, byClient: map<string, Table>,
      log: seq<Rec>) {
    && totals == Sum(log, ALL)
    && Tallies(byCredential, log, ALL, ByCred)
    && Tallies(byModel, log, ALL, ByModel)
    && ClientTallies(byClient, log, ALL)
  }

  ghost predicate Hourly(b: map<int, Stat>, cb: map<int, Table>, mb: map<int, Table>, clb: map<int, map<string, Table>>,
                         log: seq<Rec>, horizon: int) {
    && HourStats(b, log, horizon)
    && HourTables(cb, log, horizon, ByCred)
    && HourTables(mb, log, horizon, ByModel)
    && HourClients(clb, log, horizon)
  }

  /** Pruning at a later horizon leaves tables that are right for that horizon. */
  lemma Pruned(b: map<int, Stat>, cb: map<int, Table>, mb: map<int, Table>, clb: map<int, map<string, Table>>,
               log: seq<Rec>, horizon: int, cutoff: int)
    requires Hourly(b, cb, mb, clb, log, horizon)
    ensures Hourly(DropBefore(b, cutoff), DropBefore(cb, cutoff), DropBefore(mb, cutoff), DropBefore(clb, cutoff),
                   log, Later(horizon, cutoff))
  {
    hide Tallies, ClientTallies, HoursOf, Clients, Sum;
  }

  /** An event's own hour is never older than anything pruned so far or now. */
  lemma HourNotPruned(now: nat, horizon: int, last: nat)
    requires last <= now && horizon <= Unix(last) - RETENTION_HOURS * HOUR
    ensures HourOf(now) >= horizon
    ensures HourOf(now) >= Unix(now - RETENTION_HOURS * HOUR * NANOS) == Unix(now) - RETENTION_HOURS * HOUR
    ensures Unix(last) <= Unix(now)
  {}

  lemma LogGrows(log: seq<Rec>, r: Rec)
    requires Chronological(log) && (log != [] ==> log[|log| - 1].at <= r.at)
    ensures Chronological(log + [r]) && NotAfter(log, r.at)
  {
    forall x | x in log ensures x.at <= r.at {
      var i :| 0 <= i < |log| && log[i] == x;
    }
  }

  lemma TotalsAfter(totals: Stat, byCredential: Table, byModel: Table, byClient: map<string, Table>, log: seq<Rec>,
      r: Rec)
    requires NotAfter(log, r.at) && AllTime(totals, byCredential, byModel, byClient, log)
    ensures AllTime(Applied(totals, r), Update(byCredential, CredKey(r.e), r), Update(byModel, ModelKey(r.e), r),
                    UpdateClient(byClient, r), log + [r])
  {
    hide Tallies, ClientTallies, Update, UpdateClient, NotAfter;
    RecordTotals(log, r);
    TalliesUpdated(byCredential, log, r, ALL, ByCred);
    TalliesUpdated(byModel, log, r, ALL, ByModel);
    ClientsUpdated(byClient, log, r, ALL);
  }

  lemma HourlyAfter(b: map<int, Stat>, cb: map<int, Table>, mb: map<int, Table>, clb: map<int, map<string, Table>>,
                    log: seq<Rec>, horizon: int, r: Rec)
    requires Hourly(b, cb, mb, clb, log, horizon)
    requires NotAfter(log, r.at) && HourOf(r.at) >= horizon
    ensures var h := HourOf(r.at);
            Hourly(b[h := Applied(BucketOf(b, h), r)],
                   cb[h := Update(HourTable(cb, h), CredKey(r.e), r)],
                   mb[h := Update(HourTable(mb, h), ModelKey(r.e), r)],
                   if r.e.client == "" then clb else clb[h := UpdateClient(HourClientTable(clb, h), r)],
                   log + [r], horizon)
  {
    hide HourStats, HourTables, HourClients, NotAfter, Applied, Update, UpdateClient, HourTable, HourClientTable,
        BucketOf,
         HourOf, CredKey, ModelKey, Key;
    HourStatsAfter(b, log, horizon, r);
    HourTablesAfter(cb, log, horizon, r, ByCred);
    HourTablesAfter(mb, log, horizon, r, ByModel);
    HourClientsAfter(clb, log, horizon, r);
    KeyIs(r);
  }

  lemma KeyIs(r: Rec)
    ensures Key(ByCred, r) == CredKey(r.e) && Key(ByModel, r) == ModelKey(r.e)
  {}

  lemma InsertThenDrop(t: map<int, Stat>, h: int, cutoff: int, x: Stat)
    requires h >= cutoff && h !in t
    ensures DropBefore(t[h := ZERO], cutoff)[h := x] == DropBefore(t, cutoff)[h := x]
    ensures h in DropBefore(t[h := ZERO], cutoff) && DropBefore(t[h := ZERO], cutoff)[h] == ZERO
    ensures h !in DropBefore(t, cutoff)
  {}

  lemma BucketOfIs(t: map<int, Stat>, h: int)
    ensures BucketOf(t, h) == if h in t then t[h] else ZERO
  {}

  lemma RecordTotals(log: seq<Rec>, r: Rec)
    requires NotAfter(log, r.at)
    ensures Sum(log + [r], ALL) == Applied(Sum(log, ALL), r)
  {
    SumAfter(log, r, ALL);
    SumNotLater(log, ALL, r.at);
    AppliedIsAdd(Sum(log, ALL), r);
  }

  /** What a request for the last `window` nanoseconds is about. */
  function Window(window: int, now: nat): Sel {
    if window <= 0 || window >= RETENTION_HOURS * HOUR * NANOS then ALL
    else ALL.(hours := Since(Unix(now - window)))
  }

  // ---------------------------------------------------------------- the object

  class UsageTracker {
    var totals: Stat
    var byCredential: Table
    var byModel: Table
    var byClient: map<string, Table>
    var buckets: map<int, Stat>
    var credBuckets: map<int, Table>
    var modelBuckets: map<int, Table>
    var clientBuckets: map<int, map<string, Table>>
    const pricing: Pricing
    ghost var log: seq<Rec>
    ghost var horizon: int  // hours before it may have been pruned

    constructor (pricing: Pricing)
      ensures Valid() && log == [] && this.pricing == pricing
    {
      totals := ZERO;
      byCredential, byModel, byClient := map[], map[], map[];
      buckets, credBuckets, modelBuckets, clientBuckets := map[], map[], map[], map[];
      this.pricing := pricing;
      log, horizon := [], -RETENTION_HOURS * HOUR;
    }

    ghost function LastAt(): nat
      reads this
    {
      if log == [] then 0 else log[|log| - 1].at
    }

    /** Every aggregate is the fold of the log that its place calls for. */
    ghost predicate Valid()
      reads this
    {
      && Chronological(log)
      && horizon <= Unix(LastAt()) - RETENTION_HOURS * HOUR
      && AllTime(totals, byCredential, byModel, byClient, log)
      && Hourly(buckets, credBuckets, modelBuckets, clientBuckets, log, horizon)
    }

    /** Drops the hourly tables older than the retention window. */
    method PruneBuckets(now: nat)
      modifies this`buckets, this`credBuckets, this`modelBuckets, this`clientBuckets
      ensures var cutoff := Unix(now - RETENTION_HOURS * HOUR * NANOS);
              && buckets == DropBefore(old(buckets), cutoff)
              && credBuckets == DropBefore(old(credBuckets), cutoff)
              && modelBuckets == DropBefore(old(modelBuckets), cutoff)
              && clientBuckets == DropBefore(old(clientBuckets), cutoff)
    {
      var cutoff := Unix(now - RETENTION_HOURS * HOUR * NANOS);
      buckets := Drop(buckets, cutoff);
      credBuckets := Drop(credBuckets, cutoff);
      modelBuckets := Drop(modelBuckets, cutoff);
      clientBuckets := Drop(clientBuckets, cutoff);
    }

    /** Adds one event to the aggregates; the clock never runs backwards. */
    method Record(e: Event, now: nat)
      requires Valid() && now >= LastAt()
      modifies this
      ensures Valid()
      ensures log == old(log) + [Rec(e, now, ExtraCost(pricing, e))]
    {
      hide AllTime, Hourly, Chronological, NotAfter, Applied, ExtraCost, Update, UpdateClient, Unix, HourOf;
      // Fix the non-token part of the cost now, so that later snapshots add up.
      var r := Rec(e, now, ExtraCost(pricing, e));
      LogGrows(log, r);
      TotalsAfter(totals, byCredential, byModel, byClient, log, r);
      HourNotPruned(now, horizon, LastAt());
      totals := Applied(totals, r);
      byCredential := Update(byCredential, CredKey(e), r);
      byModel := Update(byModel, ModelKey(e), r);
      byClient := UpdateClient(byClient, r);
      RecordHour(r);
      log := log + [r];
    }

    /** The hourly half of Record: a new hour first drops what is too old. */
    method RecordHour(r: Rec)
      requires Hourly(buckets, credBuckets, modelBuckets, clientBuckets, log, horizon)
      requires NotAfter(log, r.at) && HourOf(r.at) >= horizon
      requires HourOf(r.at) >= Unix(r.at - RETENTION_HOURS * HOUR * NANOS)
      modifies this`buckets, this`credBuckets, this`modelBuckets, this`clientBuckets, this`horizon
      ensures Hourly(buckets, credBuckets, modelBuckets, clientBuckets, log + [r], horizon)
      ensures horizon == old(horizon) || horizon == Later(old(horizon), Unix(r.at - RETENTION_HOURS * HOUR * NANOS))
    {
      hide Hourly, NotAfter, Applied, Update, UpdateClient, DropBefore, HourTable, HourClientTable, BucketOf, Unix,
          HourOf;
      var hour := HourOf(r.at);
      ghost var b := buckets;
      if hour !in buckets {
        ghost var cutoff := Unix(r.at - RETENTION_HOURS * HOUR * NANOS);
        Pruned(buckets, credBuckets, modelBuckets, clientBuckets, log, horizon, cutoff);
        InsertThenDrop(buckets, hour, cutoff, Applied(ZERO, r));
        b := DropBefore(buckets, cutoff);
        buckets := buckets[hour := ZERO];
        PruneBuckets(r.at);
        horizon := Later(horizon, cutoff);
      }
      HourlyAfter(b, credBuckets, modelBuckets, clientBuckets, log, horizon, r);
      BucketOfIs(b, hour);
      buckets := buckets[hour := Applied(buckets[hour], r)];
      credBuckets := credBuckets[hour := Update(HourTable(credBuckets, hour), CredKey(r.e), r)];
      modelBuckets := modelBuckets[hour := Update(HourTable(modelBuckets, hour), ModelKey(r.e), r)];
      if r.e.client != "" {
        clientBuckets := clientBuckets[hour := UpdateClient(HourClientTable(clientBuckets, hour), r)];
      }
    }

    /** All-time figures. */
    method Snapshot() returns (r: Report)
      requires Valid()
      ensures Reports(r, log, ALL, pricing)
    {
      hide Sum, Names, Clients, HourStats, HourTables, HourClients;
      var credentials := Entries(byCredential);
      assert Lists(credentials, log, ALL, ByCred);
      hide Tallies, Lists;
      var models, cost, _ := ModelBreakdown(byModel, pricing, log, ALL);
      var clients := ClientReports(byClient, pricing, log, ALL);
      r := Report(totals, cost, credentials, models, clients);
    }

    /**
     Figures for the last `window`: sums of hourly tables that may have been pruned, yet
     equal to the fold over exactly the events whose hour starts at or after the cutoff.
     */
    method SnapshotWindow(window: int, now: nat) returns (r: Report)
      requires Valid() && now >= LastAt()
      ensures Reports(r, log, Window(window, now), pricing)
    {
      if window <= 0 || window >= RETENTION_HOURS * HOUR * NANOS {
        r := Snapshot();
        return;
      }
      hide Sum, Names, Clients, HourStats, HourTables, HourClients, Breakdown, ClientFigures;
      var cutoff := Unix(now - window);
      CutoffNotPruned(now, window, LastAt(), horizon);
      ghost var sel := ALL.(hours := Since(cutoff));
      var sums := SumWindowedTotals(buckets, cutoff, log, horizon);
      var creds := SumWindowedBuckets(credBuckets, cutoff, log, horizon, ByCred);
      var modelSums := SumWindowedBuckets(modelBuckets, cutoff, log, horizon, ByModel);
      var clientSums := SumWindowedClients(clientBuckets, cutoff, log, horizon);
      var credentials := Entries(creds);
      assert Lists(credentials, log, sel, ByCred);
      hide Tallies, Lists;
      var models, cost, _ := ModelBreakdown(modelSums, pricing, log, sel);
      var clients := ClientReports(clientSums, pricing, log, sel);
      r := Report(sums, cost, credentials, models, clients);
    }
  }

  lemma CutoffNotPruned(now: nat, window: int, last: nat, horizon: int)
    requires window < RETENTION_HOURS * HOUR * NANOS && last <= now
    requires horizon <= Unix(last) - RETENTION_HOURS * HOUR
    ensures horizon <= Unix(now - window)
  {}

  // ---------------------------------------------------------------- what a report is good for

  /** Totals equal the sum by credential and the sum by model, and each client's the sum over its models. */
  lemma ReportAddsUp(r: Report, log: seq<Rec>, sel: Sel, pricing: Pricing)
    requires Reports(r, log, sel, pricing) && sel.creds.None? && sel.models.None?
    ensures r.totals == SumEntries(r.credentials) == SumEntries(r.models)
    ensures forall i :: 0 <= i < |r.clients| ==> r.clients[i].stat == SumEntries(r.clients[i].models)
  {
    hide Lists;
    EntriesSumToTotal(r.credentials, log, sel, ByCred);
    EntriesSumToTotal(r.models, log, sel, ByModel);
    forall i | 0 <= i < |r.clients| ensures r.clients[i].stat == SumEntries(r.clients[i].models) {
      assert ClientFigures(r.clients[i], log, sel, pricing);
      EntriesSumToTotal(r.clients[i].models, log, ForClient(sel, r.clients[i].name), ByModel);
    }
  }

  /**
   The total cost is the sum of EventCost over the selected events, and each client's the sum
   over its own, up to the drift of events that name no model (see Cost.NoDrift).
   */
  lemma ReportCostsAddUp(r: Report, log: seq<Rec>, sel: Sel, pricing: Pricing)
    requires Reports(r, log, sel, pricing) && sel.models.None? && Priced(log, pricing)
    ensures r.totalCost == LogCost(log, sel, pricing) + LogDrift(log, sel, pricing)
    ensures forall i :: 0 <= i < |r.clients| ==>
              var own := ForClient(sel, r.clients[i].name);
              r.clients[i].cost == LogCost(log, own, pricing) + LogDrift(log, own, pricing)
  {
    hide Lists, Costed, SumCosts, LogCost, LogDrift, Priced;
    CostsAddUp(r.models, log, sel, pricing);
    forall i | 0 <= i < |r.clients|
      ensures var own := ForClient(sel, r.clients[i].name);
              r.clients[i].cost == LogCost(log, own, pricing) + LogDrift(log, own, pricing)
    {
      assert ClientFigures(r.clients[i], log, sel, pricing);
      CostsAddUp(r.clients[i].models, log, ForClient(sel, r.clients[i].name), pricing);
    }
  }
}
