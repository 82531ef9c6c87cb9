/**
 The meaning of the usage aggregates: folds over the plain log of recorded events.
 Money is exact (real). Instants are nanoseconds since the epoch; hours and cutoffs are Unix seconds.
 */
module Ledger {
  import opened Wrappers

  datatype Stat = Stat(
    requests: int, errors: int, input: int, output: int, cacheRead: int, cacheWrite: int,
    extra: real, lastUsed: nat)

  const ZERO: Stat := Stat(0, 0, 0, 0, 0, 0, 0.0, 0)

  datatype Event = Event(
    credential: string, client: string, model: string, isError: bool,
    input: int, output: int, cacheRead: int, cacheWrite: int, reported: real)

  /** One call of Record: the event, when, and the non-token part of its cost fixed at that time. */
  datatype Rec = Rec(e: Event, at: nat, extra: real)

  const NANOS: int := 1_000_000_000
  const HOUR: int := 3600
  const RETENTION_HOURS: int := 24 * 30

  function Unix(t: int): int { t / NANOS }

  function HourOf(t: nat): int { Unix(t) / HOUR * HOUR }

  function CredKey(e: Event): string { if e.credential == "" then "unknown" else e.credential }
  function ModelKey(e: Event): string { if e.model == "" then "unknown" else e.model }

  function Max(a: nat, b: nat): nat { if a < b then b else a }

  /** Money adds up without rounding. */
  function Plus(a: real, b: real): real { a + b }

  function Add(a: Stat, b: Stat): Stat {
    Stat(a.requests + b.requests, a.errors + b.errors, a.input + b.input, a.output + b.output,
         a.cacheRead + b.cacheRead, a.cacheWrite + b.cacheWrite, Plus(a.extra, b.extra), Max(a.lastUsed, b.lastUsed))
  }

  function StatOf(r: Rec): Stat {
    Stat(1, if r.e.isError then 1 else 0, r.e.input, r.e.output, r.e.cacheRead, r.e.cacheWrite, r.extra, r.at)
  }

  // ---------------------------------------------------------------- selections of the log

  datatype Hours = AllHours | Since(cutoff: int) | Within(hours: set<int>)

  /** Which records a figure is about; `None` leaves a dimension open. */
  datatype Sel = Sel(hours: Hours, creds: Option<set<string>>, models: Option<set<string>>,
      clients: Option<set<string>>)

  const ALL: Sel := Sel(AllHours, None, None, None)

  predicate InHours(h: int, hours: Hours) {
    match hours
    case AllHours => true
    case Since(cutoff) => h >= cutoff
    case Within(hs) => h in hs
  }

  predicate Selected(r: Rec, sel: Sel) {
    && InHours(HourOf(r.at), sel.hours)
    && (sel.creds.Some? ==> CredKey(r.e) in sel.creds.value)
    && (sel.models.Some? ==> ModelKey(r.e) in sel.models.value)
    && (sel.clients.Some? ==> r.e.client != "" && r.e.client in sel.clients.value)
  }

  function Sum(log: seq<Rec>, sel: Sel): Stat
    decreases |log|
  {
    if log == [] then ZERO
    else
      var rest := Sum(log[..|log| - 1], sel);
      var r := log[|log| - 1];
      if Selected(r, sel) then Add(rest, StatOf(r)) else rest
  }

  datatype Dim = ByCred | ByModel

  function Key(dim: Dim, r: Rec): string { if dim == ByCred then CredKey(r.e) else ModelKey(r.e) }

  /** The part of `sel` whose key is in `ks`. */
  function Narrow(sel: Sel, dim: Dim, ks: set<string>): Sel {
    if dim == ByCred then sel.(creds := Some(ks)) else sel.(models := Some(ks))
  }

  predicate Open(sel: Sel, dim: Dim) { if dim == ByCred then sel.creds.None? else sel.models.None? }

  function Names(log: seq<Rec>, sel: Sel, dim: Dim): set<string> {
    set r | r in log && Selected(r, sel) :: Key(dim, r)
  }

  function Clients(log: seq<Rec>, sel: Sel): set<string> {
    set r | r in log && Selected(r, sel) && r.e.client != "" :: r.e.client
  }

  function ForClient(sel: Sel, c: string): Sel { sel.(clients := Some({c})) }

  function InHour(h: int): Sel { ALL.(hours := Within({h})) }

  function HoursOf(log: seq<Rec>): set<int> {
    set r | r in log :: HourOf(r.at)
  }

  lemma {:induction false} SumSame(log: seq<Rec>, a: Sel, b: Sel)
    requires forall r :: r in log ==> Selected(r, a) == Selected(r, b)
    ensures Sum(log, a) == Sum(log, b)
    decreases |log|
  {
    if log != [] { SumSame(log[..|log| - 1], a, b); }
  }

  lemma AddShuffle(a: Stat, b: Stat, c: Stat)
    ensures Add(Add(a, b), c) == Add(a, Add(b, c)) == Add(Add(a, c), b)
  {}

  /** a and b are disjoint and make up the whole. */
  ghost predicate Splits(whole: Sel, a: Sel, b: Sel) {
    forall r: Rec :: SplitsAt(r, whole, a, b)
  }

  predicate SplitsAt(r: Rec, whole: Sel, a: Sel, b: Sel) {
    (Selected(r, whole) <==> Selected(r, a) || Selected(r, b)) && !(Selected(r, a) && Selected(r, b))
  }

  lemma SplitStep(front: seq<Rec>, r: Rec, whole: Sel, a: Sel, b: Sel)
    requires Splits(whole, a, b) && Sum(front, whole) == Add(Sum(front, a), Sum(front, b))
    ensures Sum(front + [r], whole) == Add(Sum(front + [r], a), Sum(front + [r], b))
  {
    assert SplitsAt(r, whole, a, b);
    hide *;
    SumAfter(front, r, whole);
    SumAfter(front, r, a);
    SumAfter(front, r, b);
    AddShuffle(Sum(front, a), Sum(front, b), StatOf(r));
  }

  lemma SumAfter(log: seq<Rec>, r: Rec, sel: Sel)
    ensures Sum(log + [r], sel) == if Selected(r, sel) then Add(Sum(log, sel), StatOf(r)) else Sum(log, sel)
  {
    hide Add, Selected, StatOf;
    assert (log + [r])[..|log|] == log;
  }

  lemma SumOfNothing(sel: Sel)
    ensures Sum([], sel) == ZERO
  {}

  lemma AddZero(s: Stat)
    ensures Add(s, ZERO) == s && Add(ZERO, s) == s
  {}

  /** Disjoint selections add up. */
  lemma {:induction false} SumSplit(log: seq<Rec>, whole: Sel, a: Sel, b: Sel)
    requires Splits(whole, a, b)
    ensures Sum(log, whole) == Add(Sum(log, a), Sum(log, b))
    decreases |log|
  {
    hide *;
    if log == [] {
      SumOfNothing(whole);
      SumOfNothing(a);
      SumOfNothing(b);
      AddZero(ZERO);
    } else {
      var front, r := log[..|log| - 1], log[|log| - 1];
      assert log == front + [r];
      SumSplit(front, whole, a, b);
      SplitStep(front, r, whole, a, b);
    }
  }

  lemma {:induction false} SumNone(log: seq<Rec>, sel: Sel)
    requires forall r :: r in log ==> !Selected(r, sel)
    ensures Sum(log, sel) == ZERO
    decreases |log|
  {
    if log != [] { SumNone(log[..|log| - 1], sel); }
  }

  ghost predicate Chronological(log: seq<Rec>) {
    forall i, j :: 0 <= i <= j < |log| ==> log[i].at <= log[j].at
  }

  lemma {:induction false} SumNotLater(log: seq<Rec>, sel: Sel, now: nat)
    requires forall r :: r in log ==> r.at <= now
    ensures Sum(log, sel).lastUsed <= now
    decreases |log|
  {
    if log != [] { SumNotLater(log[..|log| - 1], sel, now); }
  }

  // ---------------------------------------------------------------- tables of figures

  /** m holds, for exactly the keys that occur among the selected records, their sums. */
  ghost predicate Tallies(m: map<string, Stat>, log: seq<Rec>, sel: Sel, dim: Dim) {
    && m.Keys == Names(log, sel, dim)
    && forall k :: k in m ==> m[k] == Sum(log, Narrow(sel, dim, {k}))
  }

  ghost predicate ClientTallies(m: map<string, map<string, Stat>>, log: seq<Rec>, sel: Sel) {
    && m.Keys == Clients(log, sel)
    && forall c :: c in m ==> Tallies(m[c], log, ForClient(sel, c), ByModel)
  }

  function Get(m: map<string, Stat>, k: string): Stat { if k in m then m[k] else ZERO }

  /** apply on the entry of k, creating it if missing. */
  function Bump(m: map<string, Stat>, k: string, r: Rec): map<string, Stat> {
    m[k := Add(Get(m, k), StatOf(r))]
  }

  lemma GetIsSum(m: map<string, Stat>, log: seq<Rec>, sel: Sel, dim: Dim, k: string)
    requires Tallies(m, log, sel, dim) && Open(sel, dim)
    ensures Get(m, k) == Sum(log, Narrow(sel, dim, {k}))
  {
    if k !in m {
      forall r | r in log ensures !Selected(r, Narrow(sel, dim, {k})) {
        assert Selected(r, sel) ==> Key(dim, r) in Names(log, sel, dim);
      }
      SumNone(log, Narrow(sel, dim, {k}));
    }
  }

  lemma NamesAfter(log: seq<Rec>, r: Rec, sel: Sel, dim: Dim)
    ensures Names(log + [r], sel, dim) == Names(log, sel, dim) + if Selected(r, sel) then {Key(dim, r)} else {}
  {
    assert forall x :: x in log + [r] <==> x in log || x == r;
  }

  lemma ClientsAfter(log: seq<Rec>, r: Rec, sel: Sel)
    ensures Clients(log + [r], sel) ==
            Clients(log, sel) + if Selected(r, sel) && r.e.client != "" then {r.e.client} else {}
  {
    assert forall x :: x in log + [r] <==> x in log || x == r;
  }

  lemma HoursAfter(log: seq<Rec>, r: Rec)
    ensures HoursOf(log + [r]) == HoursOf(log) + {HourOf(r.at)}
  {
    assert forall x :: x in log + [r] <==> x in log || x == r;
  }

  lemma TalliesAfter(m: map<string, Stat>, log: seq<Rec>, r: Rec, sel: Sel, dim: Dim)
    requires Tallies(m, log, sel, dim) && Open(sel, dim)
    ensures Tallies(if Selected(r, sel) then Bump(m, Key(dim, r), r) else m, log + [r], sel, dim)
  {
    var m' := if Selected(r, sel) then Bump(m, Key(dim, r), r) else m;
    NamesAfter(log, r, sel, dim);
    forall k | k in m' ensures m'[k] == Sum(log + [r], Narrow(sel, dim, {k})) {
      SumAfter(log, r, Narrow(sel, dim, {k}));
      GetIsSum(m, log, sel, dim, k);
    }
  }

  lemma MissingClient(m: map<string, map<string, Stat>>, log: seq<Rec>, sel: Sel, c: string)
    requires ClientTallies(m, log, sel) && sel.clients.None? && c !in m
    ensures Tallies(map[], log, ForClient(sel, c), ByModel)
  {
    forall x | x in log ensures !Selected(x, ForClient(sel, c)) {
      assert Selected(x, sel) && x.e.client != "" ==> x.e.client in Clients(log, sel);
    }
    assert Names(log, ForClient(sel, c), ByModel) == {};
  }

  lemma ClientTalliesAfter(m: map<string, map<string, Stat>>, log: seq<Rec>, r: Rec, sel: Sel)
    requires ClientTallies(m, log, sel) && sel.clients.None? && sel.models.None?
    ensures ClientTallies(
              if Selected(r, sel) && r.e.client != ""
              then m[r.e.client := Bump(if r.e.client in m then m[r.e.client] else map[], ModelKey(r.e), r)] else m,
              log + [r], sel)
  {
    ClientsAfter(log, r, sel);
    hide Tallies, Bump, Clients;
    var c0 := r.e.client;
    if c0 !in m { MissingClient(m, log, sel, c0); }
    forall c | c in m || c == c0
      ensures Tallies(if c == c0 && Selected(r, sel) && c0 != ""
                      then Bump(if c in m then m[c] else map[], ModelKey(r.e), r)
                      else if c in m then m[c] else map[],
                      log + [r], ForClient(sel, c), ByModel)
    {
      TalliesAfter(if c in m then m[c] else map[], log, r, ForClient(sel, c), ByModel);
    }
  }

  // ---------------------------------------------------------------- a report

  datatype Entry = Entry(name: string, cost: real, stat: Stat)

  function NamesOf(es: seq<Entry>): set<string> { set e | e in es :: e.name }

  ghost predicate DistinctNames(es: seq<Entry>) {
    forall i, j :: 0 <= i < j < |es| ==> es[i].name != es[j].name
  }

  /** The list form of a table. */
  ghost predicate Lists(es: seq<Entry>, log: seq<Rec>, sel: Sel, dim: Dim) {
    && DistinctNames(es)
    && NamesOf(es) == Names(log, sel, dim)
    && forall i :: 0 <= i < |es| ==> es[i].stat == Sum(log, Narrow(sel, dim, {es[i].name}))
  }

  function SumEntries(es: seq<Entry>): Stat {
    if es == [] then ZERO else Add(SumEntries(es[..|es| - 1]), es[|es| - 1].stat)
  }

  lemma NothingSelected(log: seq<Rec>, sel: Sel, dim: Dim)
    ensures Sum(log, Narrow(sel, dim, {})) == ZERO
  {
    SumNone(log, Narrow(sel, dim, {}));
  }

  lemma NarrowSplits(sel: Sel, dim: Dim, ks: set<string>, k: string)
    requires Open(sel, dim) && k !in ks
    ensures Splits(Narrow(sel, dim, ks + {k}), Narrow(sel, dim, ks), Narrow(sel, dim, {k}))
  {}

  lemma {:induction false} EntriesSumPart(es: seq<Entry>, log: seq<Rec>, sel: Sel, dim: Dim)
    requires DistinctNames(es) && Open(sel, dim)
    requires forall i :: 0 <= i < |es| ==> es[i].stat == Sum(log, Narrow(sel, dim, {es[i].name}))
    ensures SumEntries(es) == Sum(log, Narrow(sel, dim, NamesOf(es)))
    decreases |es|
  {
    hide Splits, Selected, StatOf, Sum, Narrow, Add;
    if es == [] {
      NothingSelected(log, sel, dim);
      assert NamesOf(es) == {};
    } else {
      var front, e := es[..|es| - 1], es[|es| - 1];
      EntriesSumPart(front, log, sel, dim);
      assert es == front + [e];
      assert NamesOf(es) == NamesOf(front) + {e.name};
      assert e.name !in NamesOf(front);
      NarrowSplits(sel, dim, NamesOf(front), e.name);
      SumSplit(log, Narrow(sel, dim, NamesOf(es)), Narrow(sel, dim, NamesOf(front)), Narrow(sel, dim, {e.name}));
    }
  }

  /** Totals equal the sum by credential, and the sum by model. */
  lemma EntriesSumToTotal(es: seq<Entry>, log: seq<Rec>, sel: Sel, dim: Dim)
    requires Lists(es, log, sel, dim) && Open(sel, dim)
    ensures SumEntries(es) == Sum(log, sel)
  {
    EntriesSumPart(es, log, sel, dim);
    forall r | r in log ensures Selected(r, sel) == Selected(r, Narrow(sel, dim, NamesOf(es))) {
      assert Selected(r, sel) ==> Key(dim, r) in Names(log, sel, dim);
    }
    SumSame(log, sel, Narrow(sel, dim, NamesOf(es)));
  }
}
