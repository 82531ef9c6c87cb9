/**
 What the counters of a key stand for: everything charged and let in since their window began.
 */
module LimitsHistory {
  import opened Wrappers
  import opened Limits

  /** An operation that looks at the clock; a charge of nothing does not. */
  predicate Counts(op: Op) { op.Admit? || op.cost != 0.0 || op.tokens != 0 }

  predicate InTime(at: int, start: Option<int>) { start.None? || at >= start.value }

  /** The positive costs charged since a window began, or ever. */
  function SpentSince(ops: seq<Op>, start: Option<int>): real {
    if ops == [] then 0.0
    else
      var op := ops[|ops| - 1];
      SpentSince(ops[..|ops| - 1], start) +
      if op.Charge? && op.cost > 0.0 && InTime(op.at, start) then op.cost else 0.0
  }

  function TokensSince(ops: seq<Op>, start: Option<int>): int {
    if ops == [] then 0
    else
      var op := ops[|ops| - 1];
      TokensSince(ops[..|ops| - 1], start) +
      if op.Charge? && op.tokens > 0 && InTime(op.at, start) then op.tokens else 0
  }

  function LetInSince(log: seq<Admission>, start: Option<int>): int {
    if log == [] then 0
    else LetInSince(log[..|log| - 1], start) + if InTime(log[|log| - 1].at, start) then 1 else 0
  }

  /** A window runs from an operation on, not beyond its length; without a length it never begins. */
  ghost predicate Runs(window: nat, start: Option<int>, ops: seq<Op>) {
    if window == 0 then start == None
    else
      && (start == None ==> forall i :: 0 <= i < |ops| ==> !Counts(ops[i]))
      && (start != None ==>
            && (exists i :: 0 <= i < |ops| && Counts(ops[i]) && ops[i].at == start.value)
            && (forall i :: 0 <= i < |ops| && Counts(ops[i]) ==> ops[i].at < start.value + window))
  }

  lemma {:induction false} NothingSince(ops: seq<Op>, t: int)
    requires forall i :: 0 <= i < |ops| && Counts(ops[i]) ==> ops[i].at < t
    ensures SpentSince(ops, Some(t)) == 0.0 && TokensSince(ops, Some(t)) == 0
    decreases |ops|
  {
    if ops != [] { NothingSince(ops[..|ops| - 1], t); }
  }

  lemma {:induction false} NobodySince(log: seq<Admission>, t: int)
    requires forall i :: 0 <= i < |log| ==> log[i].at < t
    ensures LetInSince(log, Some(t)) == 0
    decreases |log|
  {
    if log != [] { NobodySince(log[..|log| - 1], t); }
  }

  /** Whoever was let in came with an operation of the run. */
  lemma {:induction false} LogIsOfRun(l: Limits, ops: seq<Op>)
    ensures forall a :: a in Log(l, ops) ==> Admit(a.at) in ops
    decreases |ops|
  {
    hide Decide, After;
    if ops != [] {
      LogIsOfRun(l, ops[..|ops| - 1]);
      assert forall op :: op in ops[..|ops| - 1] ==> op in ops;
      if ops[|ops| - 1].Admit? { assert ops[|ops| - 1] == Admit(ops[|ops| - 1].at); }
    }
  }

  /** A window at the next operation: it goes on, or begins with it. */
  lemma RunsOn(window: nat, start: Option<int>, before: seq<Op>, op: Op)
    requires Runs(window, start, before) && Counts(op)
    requires forall i :: 0 <= i < |before| ==> before[i].at <= op.at
    ensures var elapsed := Elapsed(start, window, op.at);
            && Runs(window, if elapsed then Some(op.at) else start, before + [op])
            && (elapsed ==> forall i :: 0 <= i < |before| && Counts(before[i]) ==> before[i].at < op.at)
            && (!elapsed ==> InTime(op.at, start))
  {
    var ops := before + [op];
    assert ops[|before|] == op;
    if start.Some? && !Elapsed(start, window, op.at) {
      var i :| 0 <= i < |before| && Counts(before[i]) && before[i].at == start.value;
      assert ops[i] == before[i];
    }
  }

  lemma RunsThrough(window: nat, start: Option<int>, before: seq<Op>, op: Op)
    requires Runs(window, start, before) && !Counts(op)
    ensures Runs(window, start, before + [op])
  {
    if start.Some? && window > 0 {
      var i :| 0 <= i < |before| && Counts(before[i]) && before[i].at == start.value;
      assert (before + [op])[i] == before[i];
    }
  }

  ghost predicate Tells(l: Limits, c: Counters, ops: seq<Op>, log: seq<Admission>) {
    && Runs(l.budgetWindow, c.budgetStart, ops) && Runs(l.rateWindow, c.rateStart, ops)
    && c.cost == SpentSince(ops, c.budgetStart)
    && c.tokens == TokensSince(ops, c.rateStart)
    && c.requests == LetInSince(log, c.rateStart)
  }

  /** After the windows have been looked at, the counters tell what they hold of the run so far. */
  lemma ResetTells(l: Limits, c: Counters, before: seq<Op>, log: seq<Admission>, op: Op)
    requires Tells(l, c, before, log) && Counts(op)
    requires forall i :: 0 <= i < |before| ==> before[i].at <= op.at
    requires forall a :: a in log ==> Admit(a.at) in before
    ensures var c' := Reset(c, l, op.at);
            && Runs(l.budgetWindow, c'.budgetStart, before + [op]) && Runs(l.rateWindow, c'.rateStart, before + [op])
            && c'.cost == SpentSince(before, c'.budgetStart) && InTime(op.at, c'.budgetStart)
            && c'.tokens == TokensSince(before, c'.rateStart) && InTime(op.at, c'.rateStart)
            && c'.requests == LetInSince(log, c'.rateStart)
  {
    RunsOn(l.budgetWindow, c.budgetStart, before, op);
    RunsOn(l.rateWindow, c.rateStart, before, op);
    hide Runs;
    if Elapsed(c.budgetStart, l.budgetWindow, op.at) { NothingSince(before, op.at); }
    if Elapsed(c.rateStart, l.rateWindow, op.at) {
      NothingSince(before, op.at);
      forall i | 0 <= i < |log| ensures log[i].at < op.at {
        assert log[i] in log;
        var k :| 0 <= k < |before| && before[k] == Admit(log[i].at);
      }
      NobodySince(log, op.at);
    }
  }

  lemma SinceStep(before: seq<Op>, op: Op, start: Option<int>)
    ensures SpentSince(before + [op], start) ==
            SpentSince(before, start) + if op.Charge? && op.cost > 0.0 && InTime(op.at, start) then op.cost else 0.0
    ensures TokensSince(before + [op], start) ==
            TokensSince(before, start) + if op.Charge? && op.tokens > 0 && InTime(op.at, start) then op.tokens else 0
  {
    assert (before + [op])[..|before|] == before;
  }

  lemma AfterStep(l: Limits, before: seq<Op>, op: Op)
    ensures After(l, before + [op]) == Step(After(l, before), l, op)
  {
    assert (before + [op])[..|before|] == before;
    hide Step;
  }

  lemma StepTells(l: Limits, before: seq<Op>, op: Op)
    requires !Empty(l) && Tells(l, After(l, before), before, Log(l, before))
    requires forall i :: 0 <= i < |before| ==> before[i].at <= op.at
    ensures Tells(l, After(l, before + [op]), before + [op], Log(l, before + [op]))
  {
    hide SpentSince, TokensSince, Runs, Reset, Log, After, Decide, Empty;
    var (ops, c) := (before + [op], After(l, before));
    AfterStep(l, before, op);
    LogStep(l, before, op);
    LogIsOfRun(l, before);
    var c' := Step(c, l, op);
    SinceStep(before, op, c'.budgetStart);
    SinceStep(before, op, c'.rateStart);
    if Counts(op) {
      ResetTells(l, c, before, Log(l, before), op);
    } else {
      RunsThrough(l.budgetWindow, c.budgetStart, before, op);
      RunsThrough(l.rateWindow, c.rateStart, before, op);
    }
  }

  lemma LogStep(l: Limits, before: seq<Op>, op: Op)
    ensures var (log, admitted) := (Log(l, before), LetsIn(After(l, before), l, op));
            && (!admitted ==> Log(l, before + [op]) == log)
            && (admitted ==> |Log(l, before + [op])| == |log| + 1 && Log(l, before + [op])[..|log|] == log &&
                             Log(l, before + [op])[|log|].at == op.at)
  {
    assert (before + [op])[..|before|] == before;
    hide LetsIn;
  }

  /**
   What the counters of a key with limits mean after any run: the cost is all that was charged since the
   budget window began, the tokens all that were used and the requests all that were let in since the
   rate window did. A key without limits counts nothing.
   */
  lemma {:induction false} CountersTell(l: Limits, ops: seq<Op>)
    requires Monotone(ops)
    ensures l.maxCost <= 0.0 && l.maxRequests <= 0 && l.maxTokens <= 0 ==> After(l, ops) == ZERO
    ensures l.maxCost > 0.0 || l.maxRequests > 0 || l.maxTokens > 0 ==> Tells(l, After(l, ops), ops, Log(l, ops))
    decreases |ops|
  {
    if ops != [] {
      var (before, op) := (ops[..|ops| - 1], ops[|ops| - 1]);
      CountersTell(l, before);
      assert ops == before + [op];
      forall i | 0 <= i < |before| ensures before[i].at <= op.at {
        assert before[i] == ops[i];
      }
      hide Tells;
      if !Empty(l) { StepTells(l, before, op); }
    }
  }
}
