/**
 The credential pool: which account a request is sent through, and how long a
 failing account is sidelined.

 PoolState is the abstract value of a Store; the class at the end of the file is
 the mutable object, each of whose methods is proved against the functions here.
 Time is in nanoseconds and 0 is the zero time.
 */
module Pool {
  import opened Wrappers

  const SECOND: int := 1_000_000_000
  const MAX_COOLDOWN: int := 30 * 60 * SECOND

  datatype Kind = APIKey | OAuth

  /** `id` stands for the identity of the credential object. */
  datatype Credential = Credential(id: nat, name: string, kind: Kind)

  datatype EntryState = EntryState(cred: Credential, cooldownUntil: int, failStreak: nat, disabled: bool)

  datatype PoolState = PoolState(entries: seq<EntryState>, idx: nat, fillFirst: bool)

  ghost predicate WellFormed(p: PoolState) {
    p.idx < |p.entries|
  }

  // ---------------------------------------------------------------- selection

  /** `x % n` for the positions that occur here, without the division. */
  function Wrap(x: nat, n: nat): (r: nat)
    requires x < 2 * n
    ensures r < n
  {
    if x < n then x else x - n
  }

  /** The next position, going round. */
  function Successor(k: nat, n: nat): (r: nat)
    requires k < n
    ensures r == Wrap(k + 1, n) < n
  {
    (k + 1) % n
  }

  predicate Eligible(e: EntryState, now: nat, accepts: set<Credential>) {
    !e.disabled && !(now < e.cooldownUntil) && e.cred in accepts
  }

  /** Which entries may be handed out at `now`, by position. */
  function Eligibility(p: PoolState, now: nat, accepts: set<Credential>): (el: seq<bool>)
    ensures |el| == |p.entries|
    ensures forall i :: 0 <= i < |el| ==> el[i] == Eligible(p.entries[i], now, accepts)
  {
    seq(|p.entries|, i requires 0 <= i < |p.entries| => Eligible(p.entries[i], now, accepts))
  }

  /** The entry looked at in the k-th step of one call. */
  function Pick(p: PoolState, k: nat): (i: nat)
    requires p.idx < |p.entries| && k < |p.entries|
    ensures i < |p.entries|
  {
    if p.fillFirst then k else Wrap(p.idx + k, |p.entries|)
  }

  function Order(p: PoolState): (order: seq<nat>)
    requires p.idx < |p.entries|
    ensures |order| == |p.entries|
    ensures forall k: nat :: k < |order| ==> order[k] == Pick(p, k)
  {
    seq(|p.entries|, (k: nat) requires p.idx < |p.entries| && k < |p.entries| => Pick(p, k))
  }

  predicate Has(el: seq<bool>, i: nat) { i < |el| && el[i] }

  function Keep(order: seq<nat>, el: seq<bool>): (r: seq<nat>) {
    if order == [] then []
    else if Has(el, order[0]) then [order[0]] + Keep(order[1..], el)
    else Keep(order[1..], el)
  }

  /** The eligible entries in the order the pool would hand them out. */
  function Candidates(p: PoolState, now: nat, accepts: set<Credential>): seq<nat>
    requires WellFormed(p)
  {
    Keep(Order(p), Eligibility(p, now, accepts))
  }

  function Advance(p: PoolState, picked: nat): PoolState
    requires WellFormed(p) && picked < |p.entries|
  {
    if p.fillFirst then p else p.(idx := Wrap(picked + 1, |p.entries|))
  }

  function Next(p: PoolState, now: nat, accepts: set<Credential>): (r: (PoolState, Option<nat>))
    requires WellFormed(p)
    ensures WellFormed(r.0) && r.0.entries == p.entries && r.0.fillFirst == p.fillFirst
    ensures r.1.Some? ==> r.1.value < |p.entries|
  {
    var c := Candidates(p, now, accepts);
    CandidatesInRange(p, now, accepts);
    if c == [] then (p, None) else (Advance(p, c[0]), Some(c[0]))
  }

  /** Whom a call hands out: an entry that is enabled, not cooling and asked for; nobody only if there is none. */
  lemma NextMeans(p: PoolState, now: nat, accepts: set<Credential>)
    requires WellFormed(p)
    ensures var got := Next(p, now, accepts).1;
            && (got.Some? ==>
                  var e := p.entries[got.value];
                  !e.disabled && e.cooldownUntil <= now && e.cred in accepts)
            && (got.None? ==>
                  forall i: nat :: i < |p.entries| ==>
                    var e := p.entries[i];
                    e.disabled || now < e.cooldownUntil || e.cred !in accepts)
  {
    CandidatesAreTheEligible(p, now, accepts);
    hide Candidates;
    forall i: nat | i < |p.entries| && Candidates(p, now, accepts) == [] ensures !Eligible(p.entries[i], now, accepts) {
      assert i !in Candidates(p, now, accepts);
    }
  }

  lemma CandidatesInRange(p: PoolState, now: nat, accepts: set<Credential>)
    requires WellFormed(p)
    ensures var c := Candidates(p, now, accepts);
            |c| <= |p.entries| && forall k :: 0 <= k < |c| ==>
                c[k] < |p.entries| && Eligible(p.entries[c[k]], now, accepts)
  {
    var order, el := Order(p), Eligibility(p, now, accepts);
    KeepMembers(order, el);
    forall k | 0 <= k < |Keep(order, el)|
      ensures Has(el, Keep(order, el)[k])
    {
      assert Keep(order, el)[k] in Keep(order, el);
    }
  }

  lemma KeepMembers(order: seq<nat>, el: seq<bool>)
    ensures forall j :: j in Keep(order, el) <==> j in order && Has(el, j)
    ensures |Keep(order, el)| <= |order|
  {
    if order != [] { KeepMembers(order[1..], el); }
  }

  lemma {:induction false} KeepConcat(a: seq<nat>, b: seq<nat>, el: seq<bool>)
    ensures Keep(a + b, el) == Keep(a, el) + Keep(b, el)
  {
    if a == [] {
      assert a + b == b;
    } else {
      assert (a + b)[0] == a[0] && (a + b)[1..] == a[1..] + b;
      KeepConcat(a[1..], b, el);
    }
  }

  lemma {:induction false} KeepNone(order: seq<nat>, el: seq<bool>)
    requires forall k :: 0 <= k < |order| ==> !Has(el, order[k])
    ensures Keep(order, el) == []
  {
    if order != [] { KeepNone(order[1..], el); }
  }

  lemma {:induction false} KeepSame(order: seq<nat>, el: seq<bool>, el': seq<bool>)
    requires forall k :: 0 <= k < |order| ==> Has(el, order[k]) == Has(el', order[k])
    ensures Keep(order, el) == Keep(order, el')
  {
    if order != [] { KeepSame(order[1..], el, el'); }
  }

  lemma OrderInRange(p: PoolState)
    requires WellFormed(p)
    ensures forall x :: x in Order(p) ==> x < |p.entries|
  {
    forall x | x in Order(p) ensures x < |p.entries| {
      var k: nat :| k < |Order(p)| && Order(p)[k] == x;
      assert x == Pick(p, k);
    }
  }

  lemma OrderIsPermutation(p: PoolState)
    requires WellFormed(p)
    ensures forall i, j :: 0 <= i < j < |p.entries| ==> Order(p)[i] != Order(p)[j]
    ensures forall t :: 0 <= t < |p.entries| ==> t in Order(p)
  {
    var n := |p.entries|;
    forall t | 0 <= t < n ensures t in Order(p) {
      var k: nat := if p.fillFirst then t else if t >= p.idx then t - p.idx else t - p.idx + n;
      assert Order(p)[k] == Pick(p, k);
    }
  }

  lemma {:induction false} KeepFirst(order: seq<nat>, el: seq<bool>, k: nat)
    requires k < |order| && Has(el, order[k])
    requires forall t: nat :: t < k ==> !Has(el, order[t])
    ensures Keep(order, el) != [] && Keep(order, el)[0] == order[k]
  {
    if k > 0 {
      forall t: nat | t < k - 1 ensures !Has(el, order[1..][t]) { assert order[1..][t] == order[t + 1]; }
      KeepFirst(order[1..], el, k - 1);
    }
  }

  /** None of the first `n` entries of the scan is eligible. */
  ghost predicate NoneIn(p: PoolState, now: nat, accepts: set<Credential>, n: nat) {
    && WellFormed(p) && n <= |p.entries|
    && forall t: nat :: t < n ==> !Eligible(p.entries[Pick(p, t)], now, accepts)
  }

  /** Where the index stands after `i` steps of a scan. */
  function At(p: PoolState, i: nat): nat
    requires WellFormed(p) && i <= |p.entries|
  {
    if p.fillFirst then p.idx else Wrap(p.idx + i, |p.entries|)
  }

  lemma ScanStarts(p: PoolState, now: nat, accepts: set<Credential>)
    requires WellFormed(p)
    ensures NoneIn(p, now, accepts, 0) && At(p, 0) == p.idx
  {}

  lemma ScanSteps(p: PoolState, i: nat)
    requires WellFormed(p) && i < |p.entries|
    ensures Pick(p, i) == if p.fillFirst then i else At(p, i)
    ensures At(p, i) < |p.entries|
    ensures At(p, i + 1) == if p.fillFirst then p.idx else Wrap(At(p, i) + 1, |p.entries|)
    ensures Advance(p, Pick(p, i)) == p.(idx := At(p, i + 1))
  {}

  lemma ScanPasses(p: PoolState, now: nat, accepts: set<Credential>, i: nat)
    requires NoneIn(p, now, accepts, i) && i < |p.entries| && !Eligible(p.entries[Pick(p, i)], now, accepts)
    ensures NoneIn(p, now, accepts, i + 1)
  {}

  lemma ScanFinds(p: PoolState, now: nat, accepts: set<Credential>, k: nat)
    requires NoneIn(p, now, accepts, k) && k < |p.entries| && Eligible(p.entries[Pick(p, k)], now, accepts)
    ensures Next(p, now, accepts) == (Advance(p, Pick(p, k)), Some(Pick(p, k)))
  {
    var order, el := Order(p), Eligibility(p, now, accepts);
    forall t: nat | t < k ensures !Has(el, order[t]) { assert order[t] == Pick(p, t); }
    assert order[k] == Pick(p, k);
    KeepFirst(order, el, k);
  }

  lemma ScanFails(p: PoolState, now: nat, accepts: set<Credential>)
    requires WellFormed(p) && NoneIn(p, now, accepts, |p.entries|)
    ensures Next(p, now, accepts) == (p, None) && At(p, |p.entries|) == p.idx
  {
    var order, el := Order(p), Eligibility(p, now, accepts);
    forall t: nat | t < |order| ensures !Has(el, order[t]) { assert order[t] == Pick(p, t); }
    KeepNone(order, el);
  }

  /** Where in the scan the first eligible entry sits: everything before it is skipped. */
  lemma {:induction false} FirstKept(order: seq<nat>, el: seq<bool>) returns (k: nat)
    requires Keep(order, el) != []
    ensures k < |order| && Has(el, order[k]) && Keep(order, el)[0] == order[k]
    ensures forall i :: 0 <= i < k ==> !Has(el, order[i])
    ensures Keep(order, el) == [order[k]] + Keep(order[k + 1..], el)
  {
    if Has(el, order[0]) {
      k := 0;
    } else {
      k := FirstKept(order[1..], el);
      assert order[1..][k + 1..] == order[k + 2..];
      k := k + 1;
    }
  }

  /** Skipped entries go out of the picture: only the picked entry and what follows it matter. */
  lemma KeepAround(a: seq<nat>, j: nat, b: seq<nat>, el: seq<bool>, el': seq<bool>)
    requires forall x :: x in a ==> !Has(el, x) && !Has(el', x)
    requires forall x :: x in b ==> Has(el, x) == Has(el', x)
    requires Has(el, j)
    ensures var again := if Has(el', j) then [j] else [];
            && Keep(a + ([j] + b), el) == [j] + Keep(b, el)
            && Keep(a + ([j] + b), el') == again + Keep(b, el)
            && Keep(b + (a + [j]), el') == Keep(b, el) + again
  {
    KeepNone(a, el);
    KeepNone(a, el');
    KeepSame(b, el, el');
    KeepConcat(a, [j] + b, el);
    KeepConcat(a, [j] + b, el');
    KeepConcat(b, a + [j], el');
    KeepConcat(a, [j], el');
    assert ([j] + b)[1..] == b && [j][1..] == [];
  }

  /** The scan seen from its k-th step: what came before, the entry, what comes after. */
  lemma SplitAt(order: seq<nat>, k: nat) returns (a: seq<nat>, j: nat, b: seq<nat>)
    requires k < |order|
    requires forall i, i' :: 0 <= i < i' < |order| ==> order[i] != order[i']
    ensures order == a + ([j] + b) && |a| == k && j == order[k]
    ensures forall x :: x in a || x in b ==> x != j && x in order
    ensures forall x :: x in a ==> exists i :: 0 <= i < k && order[i] == x
  {
    a, j, b := order[..k], order[k], order[k + 1..];
  }

  lemma OrderAfterPick(p: PoolState, p': PoolState, a: seq<nat>, j: nat, b: seq<nat>)
    requires WellFormed(p) && |p'.entries| == |p.entries|
    requires Order(p) == a + ([j] + b) && j < |p.entries|
    requires p'.fillFirst == p.fillFirst && p'.idx == Advance(p, j).idx
    ensures Order(p') == if p.fillFirst then a + ([j] + b) else b + (a + [j])
  {
    var n, k := |p.entries|, |a|;
    assert j == Order(p)[k] == Pick(p, k);
    forall i: nat | i < n ensures Order(p')[i] == (if p.fillFirst then a + ([j] + b) else b + (a + [j]))[i] {
      assert Order(p')[i] == Pick(p', i);
      var from: nat := if p.fillFirst then i else if i < n - 1 - k then k + 1 + i else i - (n - 1 - k);
      assert Order(p)[from] == Pick(p, from);
    }
  }

  /**
   The heart of rotation. After an entry is handed out, the pool's candidates are
   the remaining ones in the same order; the entry itself is at the very end if it is
   still eligible (round-robin), at the front if it is still eligible in fixed order,
   and gone if it has become ineligible in between.
   */
  lemma CandidatesAfterPick(p: PoolState, p': PoolState, now: nat, accepts: set<Credential>)
    requires WellFormed(p) && WellFormed(p') && Candidates(p, now, accepts) != []
    requires p'.fillFirst == p.fillFirst && |p'.entries| == |p.entries|
    requires Candidates(p, now, accepts)[0] < |p.entries|
    requires var j := Candidates(p, now, accepts)[0];
             p'.idx == Advance(p, j).idx &&
             forall t :: 0 <= t < |p.entries| && t != j ==>
               Eligible(p'.entries[t], now, accepts) == Eligible(p.entries[t], now, accepts)
    ensures var c := Candidates(p, now, accepts);
            var again := if Eligible(p'.entries[c[0]], now, accepts) then [c[0]] else [];
            Candidates(p', now, accepts) == if p.fillFirst then again + c[1..] else c[1..] + again
  {
    var el, el' := Eligibility(p, now, accepts), Eligibility(p', now, accepts);
    OrderIsPermutation(p);
    var k := FirstKept(Order(p), el);
    var a, j, b := SplitAt(Order(p), k);
    OrderAfterPick(p, p', a, j, b);
    OrderInRange(p);
    HasIsEligible(p, now, accepts);
    HasIsEligible(p', now, accepts);
    hide Keep, Order, Eligibility, Eligible, Has;
    KeepAround(a, j, b, el, el');
  }

  lemma HasIsEligible(p: PoolState, now: nat, accepts: set<Credential>)
    ensures forall t :: 0 <= t < |p.entries| ==>
        (Has(Eligibility(p, now, accepts), t) <==> Eligible(p.entries[t], now, accepts))
  {}

  /** Repeated calls with nothing else happening to the pool. */
  function Calls(p: PoolState, calls: nat, now: nat, accepts: set<Credential>): (r: seq<Option<nat>>)
    requires WellFormed(p)
    ensures |r| == calls
    decreases calls
  {
    if calls == 0 then []
    else var (p', got) := Next(p, now, accepts); [got] + Calls(p', calls - 1, now, accepts)
  }

  /** A call in round-robin mode moves the credential it returns to the back of the line. */
  lemma NextRotates(p: PoolState, now: nat, accepts: set<Credential>)
    requires WellFormed(p) && !p.fillFirst && Candidates(p, now, accepts) != []
    ensures var c := Candidates(p, now, accepts);
            var (p', got) := Next(p, now, accepts);
            got == Some(c[0]) && !p'.fillFirst && Candidates(p', now, accepts) == c[1..] + [c[0]]
  {
    CandidatesInRange(p, now, accepts);
    CandidatesAfterPick(p, Next(p, now, accepts).0, now, accepts);
  }

  /** Entry j of a list read round and round. */
  function Cyclic(c: seq<nat>, j: nat): nat
    requires c != []
  {
    c[j % |c|]
  }

  /**
   Round-robin is fair: with m eligible entries the j-th call returns the (j mod m)-th
   of them in cyclic order, so any m consecutive calls return each exactly once.
   */
  lemma {:induction false} RoundRobinIsCyclic(p: PoolState, calls: nat, now: nat, accepts: set<Credential>)
    requires WellFormed(p) && !p.fillFirst && Candidates(p, now, accepts) != []
    ensures var c := Candidates(p, now, accepts);
            forall j: nat :: j < calls ==> Calls(p, calls, now, accepts)[j] == Some(Cyclic(c, j))
    decreases calls
  {
    hide Candidates, Next, Cyclic;
    if calls > 0 {
      var c := Candidates(p, now, accepts);
      var p' := Next(p, now, accepts).0;
      NextRotates(p, now, accepts);
      RoundRobinIsCyclic(p', calls - 1, now, accepts);
      CycleContinues(c, Calls(p', calls - 1, now, accepts));
    }
  }

  /** The rest of the calls go round the rotated line; with the first in front they go round the line. */
  lemma CycleContinues(c: seq<nat>, rest: seq<Option<nat>>)
    requires c != []
    requires forall j: nat :: j < |rest| ==> rest[j] == Some(Cyclic(c[1..] + [c[0]], j))
    ensures forall j: nat :: j < |rest| + 1 ==> ([Some(c[0])] + rest)[j] == Some(Cyclic(c, j))
  {
    hide Cyclic;
    forall j: nat | j < |rest| + 1 ensures ([Some(c[0])] + rest)[j] == Some(Cyclic(c, j)) {
      if j == 0 { CyclicStarts(c); } else { RotatedCycle(c, j - 1); }
    }
  }

  lemma CyclicStarts(c: seq<nat>)
    requires c != []
    ensures Cyclic(c, 0) == c[0]
  {}

  lemma RotatedCycle(c: seq<nat>, j: nat)
    requires c != []
    ensures Cyclic(c[1..] + [c[0]], j) == Cyclic(c, j + 1)
  {
    ModSuccessor(j, |c|);
  }

  lemma ModSuccessor(i: nat, m: nat)
    requires m > 0
    ensures (i + 1) % m == if i % m + 1 == m then 0 else i % m + 1
  {
    var q, r := i / m, i % m;
    if r + 1 == m {
      QuotientUnique((i + 1) / m, (i + 1) % m, q + 1, 0, m);
    } else {
      QuotientUnique((i + 1) / m, (i + 1) % m, q, r + 1, m);
    }
  }

  lemma QuotientUnique(q: int, r: int, q': int, r': int, m: int)
    requires 0 <= r < m && 0 <= r' < m && m * q + r == m * q' + r'
    ensures r == r'
  {
    if q > q' {
      Multiple(m, q, q');
    } else if q < q' {
      Multiple(m, q', q);
    }
  }

  lemma Multiple(m: int, a: int, b: int)
    requires m > 0 && a > b
    ensures m * a >= m * b + m
  {
    var d := a - b - 1;
    assert m * a == m * b + m + m * d;
    assert m * d >= 0;
  }

  /** The candidates hold every eligible entry exactly once. */
  lemma CandidatesAreTheEligible(p: PoolState, now: nat, accepts: set<Credential>)
    requires WellFormed(p)
    ensures var c := Candidates(p, now, accepts);
            && (forall i: nat :: i in c <==> i < |p.entries| && Eligible(p.entries[i], now, accepts))
            && (forall i, j :: 0 <= i < j < |c| ==> c[i] != c[j])
            && |c| <= |p.entries|
            && (p.fillFirst ==> forall i, j :: 0 <= i < j < |c| ==> c[i] < c[j])
  {
    OrderIsPermutation(p);
    KeepMembers(Order(p), Eligibility(p, now, accepts));
    KeepDistinct(Order(p), Eligibility(p, now, accepts));
    if p.fillFirst { KeepAscending(Order(p), Eligibility(p, now, accepts)); }
  }

  lemma {:induction false} KeepDistinct(order: seq<nat>, el: seq<bool>)
    requires forall i, j :: 0 <= i < j < |order| ==> order[i] != order[j]
    ensures forall i, j :: 0 <= i < j < |Keep(order, el)| ==> Keep(order, el)[i] != Keep(order, el)[j]
  {
    if order != [] {
      KeepDistinct(order[1..], el);
      KeepMembers(order[1..], el);
    }
  }

  lemma {:induction false} KeepAscending(order: seq<nat>, el: seq<bool>)
    requires forall i, j :: 0 <= i < j < |order| ==> order[i] < order[j]
    ensures forall i, j :: 0 <= i < j < |Keep(order, el)| ==> Keep(order, el)[i] < Keep(order, el)[j]
  {
    if order != [] {
      KeepAscending(order[1..], el);
      KeepMembers(order[1..], el);
      var rest := Keep(order[1..], el);
      forall j | 0 <= j < |rest| ensures order[0] < rest[j] {
        assert rest[j] in order[1..];
      }
    }
  }

  // ---------------------------------------------------------------- backoff

  function Pow2(k: nat): (r: nat)
    ensures r >= 1
  {
    if k == 0 then 1 else 2 * Pow2(k - 1)
  }

  function Min(a: int, b: int): int { if a < b then a else b }

  /** The cooldown of the streak-th consecutive failure: base doubled each time, capped. */
  function Backoff(base: int, streak: nat): int
    requires streak > 0
  {
    Min(base * Pow2(streak - 1), MAX_COOLDOWN)
  }

  predicate Cooling(e: EntryState, now: nat) { now < e.cooldownUntil }

  /** A failure that lands while the entry is cooling down is a duplicate and changes nothing. */
  function Penalized(e: EntryState, base: int, now: nat): EntryState {
    if Cooling(e, now) then e
    else e.(failStreak := e.failStreak + 1, cooldownUntil := now + Backoff(base, e.failStreak + 1))
  }

  function Recovered(e: EntryState): EntryState { e.(failStreak := 0, cooldownUntil := 0) }

  /** Failures at the given times, and the times of those that were counted. */
  function FailureRun(e: EntryState, base: int, times: seq<nat>): (r: (EntryState, seq<nat>))
    decreases |times|
  {
    if times == [] then (e, [])
    else
      var (last, counted) := FailureRun(e, base, times[..|times| - 1]);
      var t := times[|times| - 1];
      (Penalized(last, base, t), if Cooling(last, t) then counted else counted + [t])
  }

  function SumBackoff(base: int, k: nat): int {
    if k == 0 then 0 else SumBackoff(base, k - 1) + Backoff(base, k)
  }

  ghost predicate Sorted(times: seq<nat>) {
    forall i, j :: 0 <= i <= j < |times| ==> times[i] <= times[j]
  }

  /** Each counted failure comes after the cooldown of the one before it, and so after all of them. */
  ghost predicate SatOut(base: int, counted: seq<nat>) {
    && (forall k :: 0 < k < |counted| ==> counted[k] >= counted[k - 1] + Backoff(base, k))
    && (forall k :: 0 <= k < |counted| ==> counted[k] >= counted[0] + SumBackoff(base, k))
  }

  lemma SatOutAgain(base: int, counted: seq<nat>, t: nat)
    requires SatOut(base, counted)
    requires counted != [] ==> t >= counted[|counted| - 1] + Backoff(base, |counted|)
    ensures SatOut(base, counted + [t])
  {
    hide Backoff;
    if counted != [] {
      var n := |counted|;
      assert SumBackoff(base, n) == SumBackoff(base, n - 1) + Backoff(base, n);
    }
  }

  /**
   In any run of failures without a success the streak counts exactly the failures
   that did not land inside a cooldown, the k-th of them earns min(base * 2^(k-1), max),
   and it cannot come before all earlier cooldowns have been sat out.
   */
  lemma {:induction false} BackoffOverRuns(e: EntryState, base: int, times: seq<nat>)
    requires e.failStreak == 0 && (times != [] ==> !Cooling(e, times[0]))
    requires Sorted(times)
    ensures var (last, counted) := FailureRun(e, base, times);
            && last.failStreak == |counted|
            && (times != [] ==> counted != [] && counted[0] == times[0])
            && (counted != [] ==> last.cooldownUntil == counted[|counted| - 1] + Backoff(base, |counted|))
            && SatOut(base, counted)
            && (counted != [] ==> counted[|counted| - 1] <= times[|times| - 1])
    decreases |times|
  {
    hide Backoff;
    if times != [] {
      hide SatOut;
      var before := times[..|times| - 1];
      assert before != [] ==> before[0] == times[0];
      BackoffOverRuns(e, base, before);
      var (last, counted) := FailureRun(e, base, before);
      if !Cooling(last, times[|times| - 1]) { SatOutAgain(base, counted, times[|times| - 1]); }
    }
  }

  /** `base` doubled k times. */
  function Scaled(base: int, k: nat): int { if k == 0 then base else 2 * Scaled(base, k - 1) }

  lemma {:induction false} ScaledIsPower(base: int, k: nat)
    ensures Scaled(base, k) == base * Pow2(k)
  {
    if k > 0 {
      ScaledIsPower(base, k - 1);
      DoubledProduct(base, Pow2(k - 1));
    }
  }

  lemma DoubledProduct(a: int, b: int)
    ensures a * (2 * b) == 2 * (a * b)
  {}

  /** Stopping the doubling at the cap loses nothing: the rest would be clamped anyway. */
  lemma {:induction false} CappedEarly(base: int, k: nat, streak: nat)
    requires 1 <= k <= streak
    requires k == streak || Scaled(base, k - 1) >= MAX_COOLDOWN
    ensures Min(Scaled(base, k - 1), MAX_COOLDOWN) == Backoff(base, streak)
    decreases streak - k
  {
    if k < streak {
      assert Scaled(base, k) == 2 * Scaled(base, k - 1);
      CappedEarly(base, k + 1, streak);
    } else {
      ScaledIsPower(base, streak - 1);
    }
  }

  /** The values the doubling goes through: it stops after the first that is not below the cap. */
  function Doublings(base: int, streak: nat): (ds: seq<int>)
    requires streak > 0
    ensures ds != []
  {
    if streak == 1 then [base]
    else
      var ds := Doublings(base, streak - 1);
      if |ds| < streak - 1 || ds[|ds| - 1] >= MAX_COOLDOWN then ds else ds + [2 * ds[|ds| - 1]]
  }

  function LastDoubling(base: int, streak: nat): int
    requires streak > 0
  {
    var ds := Doublings(base, streak);
    ds[|ds| - 1]
  }

  /** They are base, 2 base, 4 base and so on, and only the last can have reached the cap. */
  lemma {:induction false} DoublingsAre(base: int, streak: nat)
    requires streak > 0
    ensures var ds := Doublings(base, streak);
            && |ds| <= streak
            && (forall k :: 0 <= k < |ds| ==> ds[k] == Scaled(base, k))
            && (forall k :: 0 <= k < |ds| - 1 ==> ds[k] < MAX_COOLDOWN)
            && (|ds| == streak || ds[|ds| - 1] >= MAX_COOLDOWN)
    decreases streak
  {
    if streak > 1 {
      DoublingsAre(base, streak - 1);
      assert forall k :: 0 < k < streak ==> Scaled(base, k) == 2 * Scaled(base, k - 1);
    }
  }

  /** None of them reaches twice the cap unless the base does: far from what a 64-bit duration holds. */
  lemma DoublingStaysBelow(base: int, streak: nat, k: nat)
    requires streak > 0 && base < 2 * MAX_COOLDOWN && k < |Doublings(base, streak)|
    ensures Doublings(base, streak)[k] < 2 * MAX_COOLDOWN
  {
    DoublingsAre(base, streak);
    hide Doublings;
    if k > 0 { assert Scaled(base, k) == 2 * Scaled(base, k - 1) == 2 * Doublings(base, streak)[k - 1]; }
  }

  /** The doubling loop; clamped, its last value is the back-off. */
  method Doubled(base: int, streak: nat) returns (d: int)
    requires streak > 0
    ensures d == LastDoubling(base, streak)
    ensures Min(d, MAX_COOLDOWN) == Backoff(base, streak)
  {
    hide Doublings, LastDoubling, Backoff;
    d := base;
    var k := 1;
    while k < streak && d < MAX_COOLDOWN
      invariant 1 <= k <= streak && d == Scaled(base, k - 1)
      invariant forall j: nat :: j < k - 1 ==> Scaled(base, j) < MAX_COOLDOWN
    {
      d := d * 2;
      k := k + 1;
      assert Scaled(base, k - 1) == 2 * Scaled(base, k - 2);
    }
    CappedEarly(base, k, streak);
    LastDoublingIs(base, k, streak);
  }

  lemma LastDoublingIs(base: int, k: nat, streak: nat)
    requires 1 <= k <= streak && (k == streak || Scaled(base, k - 1) >= MAX_COOLDOWN)
    requires forall j: nat :: j < k - 1 ==> Scaled(base, j) < MAX_COOLDOWN
    ensures LastDoubling(base, streak) == Scaled(base, k - 1)
  {
    DoublingsAre(base, streak);
    hide Doublings, Scaled;
    var ds := Doublings(base, streak);
    assert |ds| == k;
  }

  /** Any number of failures inside one cooldown leave the entry untouched. */
  lemma {:induction false} DuplicatesAreFree(e: EntryState, base: int, times: seq<nat>)
    requires forall t :: t in times ==> Cooling(e, t)
    ensures FailureRun(e, base, times) == (e, [])
    decreases |times|
  {
    if times != [] { DuplicatesAreFree(e, base, times[..|times| - 1]); }
  }

  lemma BackoffPositive(base: int, streak: nat)
    requires base > 0 && streak > 0
    ensures 0 < Backoff(base, streak) <= MAX_COOLDOWN
  {
    PositiveProduct(base, Pow2(streak - 1));
  }

  lemma PositiveProduct(a: int, b: int)
    requires a > 0 && b > 0
    ensures a * b > 0
  {}

  // ---------------------------------------------------------------- pool updates

  function SetEntry(p: PoolState, i: nat, e: EntryState): PoolState
    requires i < |p.entries|
  {
    p.(entries := p.entries[i := e])
  }

  /** Recovered, an entry is free at once, and its next failure counts as its first. */
  lemma RecoveredMeans(e: EntryState, base: int, now: nat)
    requires base > 0
    ensures var e' := Recovered(e);
            && (e'.cred, e'.disabled) == (e.cred, e.disabled) && now >= e'.cooldownUntil
            && Penalized(e', base, now).failStreak == 1
            && Penalized(e', base, now).cooldownUntil ==
               now + if base <= 30 * 60 * 1_000_000_000 then base else MAX_COOLDOWN
  {}

  function PenalizeAt(p: PoolState, i: nat, base: int, now: nat): PoolState
    requires i < |p.entries|
  {
    SetEntry(p, i, Penalized(p.entries[i], base, now))
  }

  function RecoverAt(p: PoolState, i: nat): PoolState
    requires i < |p.entries|
  {
    SetEntry(p, i, Recovered(p.entries[i]))
  }

  // ---------------------------------------------------------------- the object

  class Entry {
    const cred: Credential
    var cooldownUntil: int
    var failStreak: nat
    var disabled: bool

    constructor (cred: Credential, disabled: bool)
      ensures View() == EntryState(cred, 0, 0, disabled)
    {
      this.cred := cred;
      cooldownUntil, failStreak, this.disabled := 0, 0, disabled;
    }

    ghost function View(): EntryState
      reads this
    {
      EntryState(cred, cooldownUntil, failStreak, disabled)
    }
  }

  class Store {
    const entries: seq<Entry>
    const fillFirst: bool
    var idx: nat

    constructor (entries: seq<Entry>, fillFirst: bool)
      requires 0 < |entries|
      requires forall i, j :: 0 <= i < j < |entries| ==> entries[i] != entries[j] && entries[i].cred != entries[j].cred
      ensures Valid() && this.entries == entries && this.fillFirst == fillFirst && idx == 0
    {
      this.entries, this.fillFirst, idx := entries, fillFirst, 0;
    }

    ghost predicate Valid()
      reads this, entries
      ensures Valid() ==> WellFormed(State())
    {
      && idx < |entries|
      && Distinct()
    }

    /** NewStore builds one fresh credential per entry. */
    ghost predicate Distinct() {
      forall i, j :: 0 <= i < j < |entries| ==> entries[i] != entries[j] && entries[i].cred != entries[j].cred
    }

    ghost function State(): (p: PoolState)
      reads this, entries
      ensures |p.entries| == |entries|
      ensures forall i :: 0 <= i < |entries| ==> p.entries[i] == entries[i].View()
    {
      PoolState(seq(|entries|, i requires 0 <= i < |entries| reads entries => entries[i].View()), idx, fillFirst)
    }

    /** Hands out the first eligible credential of the scan; a failing call changes nothing. */
    method NextOf(now: nat, accepts: set<Credential>) returns (got: Option<nat>)
      requires Valid()
      modifies this`idx
      ensures Valid()
      ensures (State(), got) == Next(old(State()), now, accepts)
    {
      hide Next, NoneIn, Wrap, Pick, Successor;
      ghost var p := State();
      var n := |entries|;
      var i := 0;
      ScanStarts(p, now, accepts);
      while i < n
        invariant 0 <= i <= n && idx == At(p, i)
        invariant NoneIn(p, now, accepts, i)
      {
        var k;
        ScanSteps(p, i);
        if fillFirst {
          k := i;
        } else {
          k := idx;
          idx := Successor(idx, n);
        }
        var e := entries[k];
        assert p.entries[k] == e.View();
        i := i + 1;
        if e.disabled || now < e.cooldownUntil {
          ScanPasses(p, now, accepts, i - 1);
          continue;
        }
        if e.cred !in accepts {
          ScanPasses(p, now, accepts, i - 1);
          continue;
        }
        ScanFinds(p, now, accepts, i - 1);
        assert State().entries == p.entries;
        return Some(k);
      }
      ScanFails(p, now, accepts);
      assert State().entries == p.entries;
      return None;
    }

    /**
     Sidelines a credential after a failure, with exponential backoff; a failure
     arriving inside the cooldown is reported as a duplicate and changes nothing.
     */
    method PenalizeDetail(c: Credential, base: int, now: nat)
      returns (cooldown: int, streak: nat, duplicate: bool)
      requires Valid()
      modifies entries
      ensures Valid()
      ensures forall i :: 0 <= i < |entries| && entries[i].cred == c ==>
                State() == PenalizeAt(old(State()), i, base, now) &&
                duplicate == Cooling(old(entries[i].View()), now) &&
                streak == entries[i].failStreak &&
                cooldown == entries[i].cooldownUntil - now
      ensures (forall i :: 0 <= i < |entries| ==> entries[i].cred != c) ==>
                State() == old(State()) && (cooldown, streak, duplicate) == (0, 0, false)
    {
      hide Backoff, LastDoubling;
      ghost var p := State();
      var i := 0;
      while i < |entries|
        invariant 0 <= i <= |entries|
        invariant forall k :: 0 <= k < i ==> entries[k].cred != c
        invariant State() == p
      {
        var e := entries[i];
        assert p.entries[i] == e.View();
        if e.cred == c {
          forall k | 0 <= k < |entries| && k != i ensures entries[k].cred != c {
            assert p.entries[k].cred != p.entries[i].cred;
          }
          if now < e.cooldownUntil {
            assert State().entries == PenalizeAt(p, i, base, now).entries;
            return e.cooldownUntil - now, e.failStreak, true;
          }
          e.failStreak := e.failStreak + 1;
          var d := Doubled(base, e.failStreak);
          if d > MAX_COOLDOWN {
            d := MAX_COOLDOWN;
          }
          e.cooldownUntil := now + d;
          assert State().entries == PenalizeAt(p, i, base, now).entries;
          return d, e.failStreak, false;
        }
        i := i + 1;
      }
      return 0, 0, false;
    }

    /** Clears a credential's streak and cooldown after a successful use. */
    method MarkSuccess(c: Credential)
      requires Valid()
      modifies entries
      ensures Valid()
      ensures forall i :: 0 <= i < |entries| && entries[i].cred == c ==> State() == RecoverAt(old(State()), i)
      ensures (forall i :: 0 <= i < |entries| ==> entries[i].cred != c) ==> State() == old(State())
    {
      ghost var p := State();
      var i := 0;
      while i < |entries|
        invariant 0 <= i <= |entries|
        invariant forall k :: 0 <= k < i ==> entries[k].cred != c
        invariant State() == p
      {
        var e := entries[i];
        assert p.entries[i] == e.View();
        if e.cred == c {
          forall k | 0 <= k < |entries| && k != i ensures entries[k].cred != c {
            assert p.entries[k].cred != p.entries[i].cred;
          }
          e.failStreak := 0;
          e.cooldownUntil := 0;
          assert State().entries == RecoverAt(p, i).entries;
          return;
        }
        i := i + 1;
      }
    }
  }
}
