/**
 Per-key rolling limits: window counters, and what they bound over a whole run.
 */
module Limits {
  import opened Wrappers

  /** A window of 0 belongs to a period name that is not recognised: it never resets. */
  datatype Limits = Limits(maxCost: real, maxRequests: int, maxTokens: int, budgetWindow: nat, rateWindow: nat)

  predicate Empty(l: Limits) { l.maxCost <= 0.0 && l.maxRequests <= 0 && l.maxTokens <= 0 }

  datatype Counters = Counters(budgetStart: Option<int>, cost: real, rateStart: Option<int>, requests: int, tokens: int)

  const ZERO := Counters(None, 0.0, None, 0, 0)

  datatype Decision = Allowed | DeniedBudget | DeniedRate

  predicate Elapsed(start: Option<int>, window: nat, now: int) {
    window > 0 && (start.None? || now - start.value >= window)
  }

  function Reset(c: Counters, l: Limits, now: int): Counters {
    var c' := if Elapsed(c.budgetStart, l.budgetWindow, now) then c.(budgetStart := Some(now), cost := 0.0) else c;
    if Elapsed(c.rateStart, l.rateWindow, now) then c'.(rateStart := Some(now), requests := 0, tokens := 0) else c'
  }

  /** A window that has run its length starts over at `now`, with nothing spent; any other goes on as it is. */
  lemma ResetMeans(c: Counters, l: Limits, now: int)
    ensures var c' := Reset(c, l, now);
            && (if l.budgetWindow > 0 && (c.budgetStart == None || now >= c.budgetStart.value + l.budgetWindow)
                then (c'.budgetStart, c'.cost) == (Some(now), 0.0)
                else (c'.budgetStart, c'.cost) == (c.budgetStart, c.cost))
            && (if l.rateWindow > 0 && (c.rateStart == None || now >= c.rateStart.value + l.rateWindow)
                then (c'.rateStart, c'.requests, c'.tokens) == (Some(now), 0, 0)
                else (c'.rateStart, c'.requests, c'.tokens) == (c.rateStart, c.requests, c.tokens))
  {}

  function Decide(c: Counters, l: Limits, now: int): Decision {
    var c' := Reset(c, l, now);
    if Empty(l) then Allowed
    else if l.maxCost > 0.0 && c'.cost >= l.maxCost then DeniedBudget
    else if l.maxRequests > 0 && c'.requests >= l.maxRequests then DeniedRate
    else if l.maxTokens > 0 && c'.tokens >= l.maxTokens then DeniedRate
    else Allowed
  }

  function Admitted(c: Counters, l: Limits, now: int): Counters {
    var c' := Reset(c, l, now);
    if Empty(l) then c
    else if Decide(c, l, now).Allowed? then c'.(requests := c'.requests + 1)
    else c'
  }

  /** A charge of nothing does nothing: it does not even reset an elapsed window. */
  function Charged(c: Counters, l: Limits, now: int, cost: real, tokens: int): Counters {
    if (cost == 0.0 && tokens == 0) || Empty(l) then c
    else
      var c' := Reset(c, l, now);
      c'.(cost := if cost > 0.0 then c'.cost + cost else c'.cost,
          tokens := if tokens > 0 then c'.tokens + tokens else c'.tokens)
  }

  /**
   When a request is turned away: for the budget, when the cost spent in a window that still runs has
   reached the limit; for the rate, when the requests or the tokens have. A limit of zero or less is none.
   */
  lemma DecideMeans(c: Counters, l: Limits, now: int)
    ensures var budgetRuns :=
              l.budgetWindow == 0 || (c.budgetStart != None && now < c.budgetStart.value + l.budgetWindow);
            var rateRuns := l.rateWindow == 0 || (c.rateStart != None && now < c.rateStart.value + l.rateWindow);
            var cost := if budgetRuns then c.cost else 0.0;
            var (requests, tokens) := if rateRuns then (c.requests, c.tokens) else (0, 0);
            && (Decide(c, l, now).DeniedBudget? <==> 0.0 < l.maxCost <= cost)
            && (Decide(c, l, now).DeniedRate? <==>
                  !(0.0 < l.maxCost <= cost) && (0 < l.maxRequests <= requests || 0 < l.maxTokens <= tokens))
  {}

  /** Whatever was spent, once both windows have run their length a request is let in. */
  lemma WindowsComeToAnEnd(c: Counters, l: Limits, now: int)
    requires 0 < l.budgetWindow && 0 < l.rateWindow
    requires c.budgetStart.Some? ==> now >= c.budgetStart.value + l.budgetWindow
    requires c.rateStart.Some? ==> now >= c.rateStart.value + l.rateWindow
    ensures Decide(c, l, now) == Allowed
  {}

  class Key {
    const limits: Limits
    var budgetStart: Option<int>
    var cost: real
    var rateStart: Option<int>
    var requests: int
    var tokens: int

    constructor (limits: Limits)
      ensures this.limits == limits && Counts() == ZERO
    {
      this.limits := limits;
      budgetStart, cost, rateStart, requests, tokens := None, 0.0, None, 0, 0;
    }

    function Counts(): Counters
      reads this
    {
      Counters(budgetStart, cost, rateStart, requests, tokens)
    }

    method MaybeReset(now: int)
      modifies this
      ensures Counts() == Reset(old(Counts()), limits, now)
    {
      if limits.budgetWindow > 0 {
        if budgetStart.None? || now - budgetStart.value >= limits.budgetWindow {
          budgetStart, cost := Some(now), 0.0;
        }
      }
      if limits.rateWindow > 0 {
        if rateStart.None? || now - rateStart.value >= limits.rateWindow {
          rateStart, requests, tokens := Some(now), 0, 0;
        }
      }
    }

    method Admit(now: int) returns (d: Decision)
      modifies this
      ensures d == Decide(old(Counts()), limits, now)
      ensures Counts() == Admitted(old(Counts()), limits, now)
    {
      if Empty(limits) { return Allowed; }
      MaybeReset(now);
      if limits.maxCost > 0.0 && cost >= limits.maxCost { return DeniedBudget; }
      if limits.maxRequests > 0 && requests >= limits.maxRequests { return DeniedRate; }
      if limits.maxTokens > 0 && tokens >= limits.maxTokens { return DeniedRate; }
      requests := requests + 1;
      return Allowed;
    }

    method Charge(now: int, costUSD: real, used: int)
      modifies this
      ensures Counts() == Charged(old(Counts()), limits, now, costUSD, used)
    {
      if (costUSD == 0.0 && used == 0) || Empty(limits) { return; }
      MaybeReset(now);
      if costUSD > 0.0 { cost := cost + costUSD; }
      if used > 0 { tokens := tokens + used; }
    }
  }

  // ---------------------------------------------------------------- runs

  datatype Op = Admit(at: int) | Charge(at: int, cost: real, tokens: int)

  function Step(c: Counters, l: Limits, op: Op): Counters {
    match op
    case Admit(now) => Admitted(c, l, now)
    case Charge(now, cost, tokens) => Charged(c, l, now, cost, tokens)
  }

  /** The counters after a run. */
  function After(l: Limits, ops: seq<Op>): Counters {
    if ops == [] then ZERO else Step(After(l, ops[..|ops| - 1]), l, ops[|ops| - 1])
  }

  predicate Monotone(ops: seq<Op>) { forall i, j :: 0 <= i <= j < |ops| ==> ops[i].at <= ops[j].at }

  /** A request that was let in: when, and the start of the rate window it was counted in. */
  datatype Admission = Admission(at: int, start: int)

  predicate LetsIn(c: Counters, l: Limits, op: Op) { op.Admit? && Decide(c, l, op.at).Allowed? }

  /** Every request a run let in, in order. */
  function Log(l: Limits, ops: seq<Op>): seq<Admission> {
    if ops == [] then []
    else
      var (before, op) := (ops[..|ops| - 1], ops[|ops| - 1]);
      if LetsIn(After(l, before), l, op) then Log(l, before) + [Admission(op.at, After(l, ops).rateStart.GetOr(0))]
      else Log(l, before)
  }

  function InWindow(log: seq<Admission>, start: int): nat {
    if log == [] then 0
    else InWindow(log[..|log| - 1], start) + if log[|log| - 1].start == start then 1 else 0
  }

  /** Requests let in at a time in [from, to). */
  function Between(log: seq<Admission>, from: int, to: int): nat {
    if log == [] then 0
    else Between(log[..|log| - 1], from, to) + if from <= log[|log| - 1].at < to then 1 else 0
  }

  predicate Spaced(log: seq<Admission>, w: nat) {
    && (forall i :: 0 <= i < |log| ==> log[i].start <= log[i].at < log[i].start + w)
    && (forall i, j :: 0 <= i < |log| && 0 <= j < |log| ==> Apart(log[i].start, log[j].start, w))
  }

  predicate Apart(a: int, b: int, w: nat) { a == b || a + w <= b || b + w <= a }

  /** The log agrees with the counters: windows are apart, and the current one holds `requests`. */
  ghost predicate LogMatches(l: Limits, c: Counters, log: seq<Admission>) {
    && Spaced(log, l.rateWindow)
    && (forall s: int :: InWindow(log, s) <= l.maxRequests)
    && match c.rateStart
       case None => log == [] && c.requests == 0
       case Some(s) =>
         && InWindow(log, s) == c.requests
         && forall i :: 0 <= i < |log| ==> log[i].start == s || log[i].start + l.rateWindow <= s
  }

  lemma {:induction false} NotInWindow(log: seq<Admission>, s: int)
    requires forall i :: 0 <= i < |log| ==> log[i].start != s
    ensures InWindow(log, s) == 0
  {
    if log != [] { NotInWindow(log[..|log| - 1], s); }
  }

  lemma InWindowAppend(log: seq<Admission>, a: Admission, s: int)
    ensures InWindow(log + [a], s) == InWindow(log, s) + if a.start == s then 1 else 0
  {
    assert (log + [a])[..|log|] == log;
  }

  /** A reset starts a window that is apart from all before it. */
  lemma ResetMatches(l: Limits, c: Counters, log: seq<Admission>, now: int)
    requires l.maxRequests > 0 && l.rateWindow > 0 && LogMatches(l, c, log)
    requires c.rateStart.Some? ==> c.rateStart.value <= now
    ensures LogMatches(l, Reset(c, l, now), log)
    ensures var s := Reset(c, l, now).rateStart; s.Some? && s.value <= now < s.value + l.rateWindow
  {
    if Elapsed(c.rateStart, l.rateWindow, now) {
      NotInWindow(log, now);
    }
  }

  lemma AdmissionMatches(l: Limits, c: Counters, log: seq<Admission>, at: int)
    requires l.rateWindow > 0 && LogMatches(l, c, log) && c.requests < l.maxRequests
    requires c.rateStart.Some? && c.rateStart.value <= at < c.rateStart.value + l.rateWindow
    ensures LogMatches(l, c.(requests := c.requests + 1), log + [Admission(at, c.rateStart.value)])
  {
    var s := c.rateStart.value;
    var a := Admission(at, s);
    forall t: int ensures InWindow(log + [a], t) <= l.maxRequests && InWindow(log + [a], s) == c.requests + 1 {
      InWindowAppend(log, a, t);
      InWindowAppend(log, a, s);
    }
  }

  function Logged(l: Limits, c: Counters, log: seq<Admission>, op: Op): seq<Admission> {
    if LetsIn(c, l, op) then log + [Admission(op.at, Step(c, l, op).rateStart.GetOr(0))] else log
  }

  lemma OpMatches(l: Limits, c: Counters, log: seq<Admission>, op: Op)
    requires l.maxRequests > 0 && l.rateWindow > 0 && LogMatches(l, c, log)
    requires c.rateStart.Some? ==> c.rateStart.value <= op.at
    ensures LogMatches(l, Step(c, l, op), Logged(l, c, log, op))
    ensures var s := Step(c, l, op).rateStart; s.Some? ==> s.value <= op.at
  {
    hide LogMatches;
    ResetMatches(l, c, log, op.at);
    var c' := Reset(c, l, op.at);
    if LetsIn(c, l, op) {
      AdmissionMatches(l, c', log, op.at);
    } else if op.Charge? && !(op.cost == 0.0 && op.tokens == 0) {
      SameRate(l, c', log, Charged(c, l, op.at, op.cost, op.tokens));
    }
  }

  lemma {:induction false} RunMatches(l: Limits, ops: seq<Op>)
    requires l.maxRequests > 0 && l.rateWindow > 0 && Monotone(ops)
    ensures LogMatches(l, After(l, ops), Log(l, ops))
    ensures var s := After(l, ops).rateStart; s.Some? ==> ops != [] && s.value <= ops[|ops| - 1].at
  {
    if ops == [] {
    } else {
      hide LogMatches, Step, LetsIn;
      var (before, op) := (ops[..|ops| - 1], ops[|ops| - 1]);
      RunMatches(l, before);
      if before != [] { assert ops[|before| - 1].at <= op.at; }
      OpMatches(l, After(l, before), Log(l, before), op);
    }
  }

  lemma SameRate(l: Limits, c: Counters, log: seq<Admission>, c': Counters)
    requires LogMatches(l, c, log) && c'.rateStart == c.rateStart && c'.requests == c.requests
    ensures LogMatches(l, c', log)
  {}

  /** The admissions of an interval as long as a window fall into at most two windows. */
  lemma TwoWindows(log: seq<Admission>, w: nat, from: int) returns (a: int, b: int)
    requires Spaced(log, w)
    ensures forall i :: 0 <= i < |log| && from <= log[i].at < from + w ==> log[i].start == a || log[i].start == b
  {
    a, b := 0, 0;
    if i :| 0 <= i < |log| && from <= log[i].at < from + w {
      a, b := log[i].start, log[i].start;
      if j :| 0 <= j < |log| && from <= log[j].at < from + w && log[j].start != a {
        b := log[j].start;
        forall k | 0 <= k < |log| && from <= log[k].at < from + w ensures log[k].start == a || log[k].start == b {
          assert Apart(log[i].start, log[j].start, w);
          assert Apart(log[i].start, log[k].start, w);
          assert Apart(log[j].start, log[k].start, w);
        }
      }
    }
  }

  lemma {:induction false} BetweenBound(log: seq<Admission>, from: int, to: int, a: int, b: int)
    requires forall i :: 0 <= i < |log| && from <= log[i].at < to ==> log[i].start == a || log[i].start == b
    ensures Between(log, from, to) <= InWindow(log, a) + InWindow(log, b)
  {
    if log != [] { BetweenBound(log[..|log| - 1], from, to, a, b); }
  }

  /**
   Requests over a whole run: a window lets in at most `maxRequests`, and any half-open interval as
   long as a window, however aligned, at most twice that.
   */
  lemma RequestsAreBounded(l: Limits, ops: seq<Op>, start: int, from: int)
    requires l.maxRequests > 0 && l.rateWindow > 0 && Monotone(ops)
    ensures InWindow(Log(l, ops), start) <= l.maxRequests
    ensures Between(Log(l, ops), from, from + l.rateWindow) <= 2 * l.maxRequests
  {
    RunMatches(l, ops);
    var log := Log(l, ops);
    var a, b := TwoWindows(log, l.rateWindow, from);
    BetweenBound(log, from, from + l.rateWindow, a, b);
  }

  /** A window opened by a charge at 0, `first` requests at its end, and `second` at the start of the next. */
  function Burst(w: nat, cost: real, first: nat, second: nat): (ops: seq<Op>)
    ensures ops != []
    decreases first + second
  {
    if second > 0 then Burst(w, cost, first, second - 1) + [Admit(w)]
    else if first > 0 then Burst(w, cost, first - 1, 0) + [Admit(w - 1)]
    else [Charge(0, cost, 0)]
  }

  lemma {:induction false} BurstIsMonotone(w: nat, cost: real, first: nat, second: nat)
    requires w > 0
    ensures Monotone(Burst(w, cost, first, second))
    ensures forall i :: 0 <= i < |Burst(w, cost, first, second)| ==>
              Burst(w, cost, first, second)[i].at <= if second > 0 then w else w - 1
    decreases first + second
  {
    if second > 0 {
      BurstIsMonotone(w, cost, first, second - 1);
    } else if first > 0 {
      BurstIsMonotone(w, cost, first - 1, 0);
    }
  }

  /** Room in the budget and in the tokens, and so many requests counted in the window from `start`. */
  predicate Roomy(l: Limits, c: Counters, start: int, requests: int) {
    && (l.maxCost > 0.0 ==> c.cost < l.maxCost) && c.tokens == 0
    && c.rateStart == Some(start) && c.requests == requests
  }

  lemma RoomyAdmits(l: Limits, c: Counters, start: int, requests: int, now: int)
    requires l.maxRequests > 0 && l.rateWindow > 0 && Roomy(l, c, start, requests) && start <= now
    requires l.rateWindow > now - start ==> requests < l.maxRequests
    ensures LetsIn(c, l, Admit(now))
    ensures l.rateWindow > now - start ==> Roomy(l, Step(c, l, Admit(now)), start, requests + 1)
    ensures 0 < l.rateWindow <= now - start ==> Roomy(l, Step(c, l, Admit(now)), now, 1)
  {}

  lemma RunAppend(l: Limits, ops: seq<Op>, op: Op, from: int, to: int)
    ensures After(l, ops + [op]) == Step(After(l, ops), l, op)
    ensures Between(Log(l, ops + [op]), from, to) ==
            Between(Log(l, ops), from, to) + if LetsIn(After(l, ops), l, op) && from <= op.at < to then 1 else 0
  {
    assert (ops + [op])[..|ops|] == ops;
    var a := Admission(op.at, After(l, ops + [op]).rateStart.GetOr(0));
    assert (Log(l, ops) + [a])[..|Log(l, ops)|] == Log(l, ops);
  }

  lemma {:induction false} BurstLetsIn(l: Limits, cost: real, first: nat, second: nat)
    requires 2 <= l.rateWindow && first <= l.maxRequests && second <= l.maxRequests && 0 < l.maxRequests
    requires 0.0 < cost && (l.maxCost > 0.0 ==> cost < l.maxCost)
    ensures var (w, ops) := (l.rateWindow, Burst(l.rateWindow, cost, first, second));
            && Roomy(l, After(l, ops), if second > 0 then w else 0, if second > 0 then second else first)
            && Between(Log(l, ops), w - 1, w - 1 + w) == first + second
    decreases first + second
  {
    hide Roomy, After, Log, Between, Step, LetsIn;
    var w := l.rateWindow;
    if second > 0 {
      var before := Burst(w, cost, first, second - 1);
      BurstLetsIn(l, cost, first, second - 1);
      RoomyAdmits(l, After(l, before), if second > 1 then w else 0, if second > 1 then second - 1 else first, w);
      RunAppend(l, before, Admit(w), w - 1, w - 1 + w);
    } else if first > 0 {
      var before := Burst(w, cost, first - 1, 0);
      BurstLetsIn(l, cost, first - 1, 0);
      RoomyAdmits(l, After(l, before), 0, first - 1, w - 1);
      RunAppend(l, before, Admit(w - 1), w - 1, w - 1 + w);
    } else {
      ChargeOpens(l, cost);
    }
  }

  lemma ChargeOpens(l: Limits, cost: real)
    requires 0 < l.rateWindow && 0 < l.maxRequests && 0.0 < cost && (l.maxCost > 0.0 ==> cost < l.maxCost)
    ensures Roomy(l, After(l, [Charge(0, cost, 0)]), 0, 0)
    ensures forall from, to :: Between(Log(l, [Charge(0, cost, 0)]), from, to) == 0
  {
    assert [Charge(0, cost, 0)][..0] == [];
    assert After(l, []) == ZERO && Log(l, []) == [];
  }

  /** A charge that leaves the budget open. */
  function SmallCharge(maxCost: real): (cost: real)
    ensures 0.0 < cost && (maxCost > 0.0 ==> cost < maxCost)
  {
    if maxCost > 0.0 then maxCost / 2.0 else 1.0
  }

  /** Twice is reached, whatever the limits, as soon as a window has two instants. */
  lemma TwiceIsReached(l: Limits) returns (ops: seq<Op>)
    requires l.maxRequests > 0 && l.rateWindow >= 2
    ensures Monotone(ops)
        && Between(Log(l, ops), l.rateWindow - 1, l.rateWindow - 1 + l.rateWindow) == 2 * l.maxRequests
  {
    hide Between, Log, Monotone, Burst, Roomy, SmallCharge;
    var cost := SmallCharge(l.maxCost);
    ops := Burst(l.rateWindow, cost, l.maxRequests, l.maxRequests);
    BurstIsMonotone(l.rateWindow, cost, l.maxRequests, l.maxRequests);
    BurstLetsIn(l, cost, l.maxRequests, l.maxRequests);
  }

  // ---------------------------------------------------------------- cost and tokens

  /** Requests let in and not yet charged; every charge settles one. */
  function Pending(l: Limits, ops: seq<Op>): int {
    if ops == [] then 0
    else
      var (before, op) := (ops[..|ops| - 1], ops[|ops| - 1]);
      if LetsIn(After(l, before), l, op) then Pending(l, before) + 1
      else if op.Charge? then Pending(l, before) - 1
      else Pending(l, before)
  }

  /** At most `k` requests are ever in flight, and none is charged more than `cost` or `tokens`. */
  ghost predicate Disciplined(l: Limits, ops: seq<Op>, k: nat, cost: real, tokens: nat) {
    && cost >= 0.0
    && (forall n :: 0 <= n <= |ops| ==> 0 <= Pending(l, ops[..n]) <= k)
    && forall n :: 0 <= n < |ops| && ops[n].Charge? ==> ops[n].cost <= cost && ops[n].tokens <= tokens
  }

  /** How the number in flight follows one operation. */
  function PendingAfter(l: Limits, c: Counters, op: Op, p: int): int {
    if LetsIn(c, l, op) then p + 1 else if op.Charge? then p - 1 else p
  }

  /** What `n` requests of cost `x` come to. */
  function Cost(n: int, x: real): real { n as real * x }

  lemma Costs(n: int, k: int, x: real)
    requires x >= 0.0 && n <= k
    ensures Cost(n, x) <= Cost(k, x) && Cost(n + 1, x) == Cost(n, x) + x && Cost(n - 1, x) == Cost(n, x) - x
    ensures Cost(0, x) == 0.0
  {
    assert (n + 1) as real == n as real + 1.0 && (n - 1) as real == n as real - 1.0;
    assert (k - n) as real * x >= 0.0;
  }

  lemma CostStep(l: Limits, c: Counters, op: Op, k: nat, cost: real, p: int)
    requires l.maxCost > 0.0 && cost >= 0.0 && 0 <= p <= k && 0 <= PendingAfter(l, c, op, p) <= k
    requires c.cost + Cost(p, cost) < l.maxCost + Cost(k, cost)
    requires op.Charge? ==> op.cost <= cost
    ensures Step(c, l, op).cost + Cost(PendingAfter(l, c, op, p), cost) < l.maxCost + Cost(k, cost)
  {
    hide Cost;
    Costs(p, k, cost);
    Costs(PendingAfter(l, c, op, p), k, cost);
  }

  function Tokens(n: int, x: int): int { n * x }

  lemma TokensAdd(n: int, k: int, x: nat)
    requires n <= k
    ensures Tokens(n, x) <= Tokens(k, x) && Tokens(n + 1, x) == Tokens(n, x) + x && Tokens(n - 1, x) == Tokens(n, x) - x
    ensures Tokens(0, x) == 0
  {
    assert (k - n) * x >= 0;
  }

  lemma TokenStep(l: Limits, c: Counters, op: Op, k: nat, tokens: nat, p: int)
    requires l.maxTokens > 0 && 0 <= p <= k && 0 <= PendingAfter(l, c, op, p) <= k
    requires c.tokens + Tokens(p, tokens) < l.maxTokens + Tokens(k, tokens)
    requires op.Charge? ==> op.tokens <= tokens
    ensures Step(c, l, op).tokens + Tokens(PendingAfter(l, c, op, p), tokens) < l.maxTokens + Tokens(k, tokens)
  {
    hide Tokens;
    TokensAdd(p, k, tokens);
    TokensAdd(PendingAfter(l, c, op, p), k, tokens);
  }

  lemma {:induction false} SpendingFollows(l: Limits, ops: seq<Op>, k: nat, cost: real, tokens: nat)
    requires Disciplined(l, ops, k, cost, tokens)
    ensures l.maxCost > 0.0 ==> After(l, ops).cost + Cost(Pending(l, ops), cost) < l.maxCost + Cost(k, cost)
    ensures l.maxTokens > 0 ==> After(l, ops).tokens + Tokens(Pending(l, ops), tokens) < l.maxTokens + Tokens(k, tokens)
  {
    hide Step, LetsIn, Cost, Tokens;
    if ops == [] {
      Costs(0, k, cost);
      TokensAdd(0, k, tokens);
    } else {
      var (before, op) := (ops[..|ops| - 1], ops[|ops| - 1]);
      assert ops[..|ops|] == ops;
      forall n | 0 <= n <= |before| ensures before[..n] == ops[..n] {}
      SpendingFollows(l, before, k, cost, tokens);
      var (c, p) := (After(l, before), Pending(l, before));
      assert before[..|before|] == before;
      assert Pending(l, ops) == PendingAfter(l, c, op, p);
      if l.maxCost > 0.0 { CostStep(l, c, op, k, cost, p); }
      if l.maxTokens > 0 { TokenStep(l, c, op, k, tokens, p); }
    }
  }

  /**
   Spending over a whole run: with at most `k` requests in flight, a window's cost stays below its
   limit plus `k` times the largest charge, and so do its tokens. For a client that waits for each
   charge, `k` is one.
   */
  lemma SpendingIsBounded(l: Limits, ops: seq<Op>, k: nat, cost: real, tokens: nat)
    requires Disciplined(l, ops, k, cost, tokens)
    ensures l.maxCost > 0.0 ==> After(l, ops).cost < l.maxCost + Cost(k, cost)
    ensures l.maxTokens > 0 ==> After(l, ops).tokens < l.maxTokens + Tokens(k, tokens)
  {
    hide Cost, Tokens, Pending, After;
    SpendingFollows(l, ops, k, cost, tokens);
    assert ops[..|ops|] == ops;
    Costs(0, Pending(l, ops), cost);
    TokensAdd(0, Pending(l, ops), tokens);
  }
}
