/**
 Sending one request through the pool: provider.RotateFilteredOpts and
 Server.dispatch, which share one rotation over the mutating pool and differ in what
 one attempt with one credential does.

 The upstream is an oracle saying what each attempt of the call meets with each entry.
 The clock reads `now` for the whole call.
 */
module Rotation {
  import opened Wrappers
  import opened Pool

  /** One upstream call; `canceled` says the client's context was done by then. */
  datatype SendOutcome = TransportError(canceled: bool) | Response(status: int)

  datatype Failure =
    | NoneAvailable
    | Canceled
    | Transport
    | CredentialStatus(status: int)
    | RefreshRejected
    | NoCredentials

  datatype Outcome = Served(cred: Credential, status: int) | Failed(lastCred: Option<Credential>, reason: Failure)

  /** What one attempt amounts to for the rotation. */
  datatype Attempt = Won(status: int) | Lost(reason: Failure, penalize: bool) | Aborted

  /** attempts[k][j] is what the k-th attempt of the call meets if it uses entry j. */
  type Oracle = seq<seq<Attempt>>

  function Met(row: seq<Attempt>, j: nat): Attempt {
    if j < |row| then row[j] else Aborted
  }

  predicate IsCredFailure(status: int) { status == 401 || status == 403 || status == 429 }

  datatype Trace = Trace(pool: PoolState, tried: seq<nat>, outcome: Outcome)

  function Prepend(tried: seq<nat>, t: Trace): Trace { t.(tried := tried + t.tried) }

  /** One attempt for each remaining element of the oracle. */
  function Rotate(p: PoolState, now: nat, base: int, accepts: set<Credential>, attempts: Oracle,
                  last: Option<Credential>, reason: Failure): (t: Trace)
    requires WellFormed(p)
    decreases |attempts|
  {
    if attempts == [] then Trace(p, [], Failed(last, reason))
    else
      var (p1, got) := Next(p, now, accepts);
      if got.None? then Trace(p1, [], Failed(last, NoneAvailable))
      else
        var j := got.value;
        var cred := p.entries[j].cred;
        match Met(attempts[0], j)
        case Won(status) => Trace(RecoverAt(p1, j), [j], Served(cred, status))
        case Aborted => Trace(p1, [j], Failed(Some(cred), Canceled))
        case Lost(why, penalize) =>
          var p2 := if penalize then PenalizeAt(p1, j, base, now) else p1;
          Prepend([j], Rotate(p2, now, base, accepts, attempts[1..], Some(cred), why))
  }

  // ---------------------------------------------------------------- what a rotation achieves

  /** The client stays, and every loss sidelines the credential. */
  ghost predicate Regular(attempts: Oracle, n: nat) {
    forall k, j: nat :: 0 <= k < |attempts| && j < n ==>
      !Met(attempts[k], j).Aborted? && (Met(attempts[k], j).Lost? ==> Met(attempts[k], j).penalize)
  }

  lemma RegularHead(attempts: Oracle, n: nat)
    requires Regular(attempts, n) && attempts != []
    ensures Regular(attempts[1..], n)
    ensures forall j: nat :: j < n ==> !Met(attempts[0], j).Aborted? &&
                                       (Met(attempts[0], j).Lost? ==> Met(attempts[0], j).penalize)
  {}

  /** The k-th attempt, made with the k-th of the candidates `c`, wins. */
  predicate Wins(attempts: Oracle, c: seq<nat>, k: nat) {
    k < |attempts| && k < |c| && Met(attempts[k], c[k]).Won?
  }

  /** How many of the candidates lose before one wins. */
  function Losses(attempts: Oracle, c: seq<nat>): (lost: nat)
    ensures lost <= |attempts| && lost <= |c|
    ensures forall k: nat :: k < lost ==> !Wins(attempts, c, k)
    ensures lost < |attempts| && lost < |c| ==> Wins(attempts, c, lost)
  {
    if attempts == [] || c == [] || Wins(attempts, c, 0) then 0
    else
      var rest := Losses(attempts[1..], c[1..]);
      assert forall k: nat :: 0 < k <= rest ==> Wins(attempts, c, k) == Wins(attempts[1..], c[1..], k - 1);
      1 + rest
  }

  function PenalizeAll(entries: seq<EntryState>, c: seq<nat>, base: int, now: nat): (r: seq<EntryState>)
    ensures |r| == |entries|
    decreases |c|
  {
    if c == [] then entries
    else if c[0] < |entries| then
      PenalizeAll(entries[c[0] := Penalized(entries[c[0]], base, now)], c[1..], base, now)
    else entries
  }

  lemma {:induction false} PenalizeAllAt(entries: seq<EntryState>, c: seq<nat>, base: int, now: nat, x: nat)
    requires x < |entries| && forall k :: 0 <= k < |c| ==> c[k] < |entries|
    requires forall a, b :: 0 <= a < b < |c| ==> c[a] != c[b]
    ensures PenalizeAll(entries, c, base, now)[x] == if x in c then Penalized(entries[x], base, now) else entries[x]
    decreases |c|
  {
    if c != [] {
      PenalizeAllAt(entries[c[0] := Penalized(entries[c[0]], base, now)], c[1..], base, now, x);
      assert c == [c[0]] + c[1..];
    }
  }

  /**
   The outcome of one rotation in closed form: the candidates are tried in order until
   one wins; losers are penalized, the winner is reset, everybody else is left alone.
   */
  ghost predicate Orderly(entries: seq<EntryState>, c: seq<nat>, t: Trace, now: nat, base: int,
                          attempts: Oracle, last: Option<Credential>, reason: Failure)
    requires forall k :: 0 <= k < |c| ==> c[k] < |entries|
  {
    var lost := Losses(attempts, c);
    if lost < |c| && lost < |attempts| then
      && t.tried == c[..lost + 1]
      && t.outcome == Served(entries[c[lost]].cred, Met(attempts[lost], c[lost]).status)
      && var after := PenalizeAll(entries, c[..lost], base, now);
         t.pool.entries == after[c[lost] := Recovered(after[c[lost]])]
    else
      && t.tried == c
      && t.outcome == Failed(if c == [] then last else Some(entries[c[|c| - 1]].cred),
                             if |c| < |attempts| then NoneAvailable
                             else if c == [] || attempts == [] then reason
                             else FinalReason(Met(attempts[|attempts| - 1], c[|c| - 1])))
      && t.pool.entries == PenalizeAll(entries, c, base, now)
  }

  function FinalReason(a: Attempt): Failure {
    match a
    case Lost(reason, _) => reason
    case Aborted => Canceled
    case Won(_) => NoCredentials
  }

  lemma LossesStep(attempts: Oracle, c: seq<nat>)
    requires c != [] && attempts != [] && Met(attempts[0], c[0]).Lost?
    ensures Losses(attempts, c) == 1 + Losses(attempts[1..], c[1..])
  {}

  lemma PenalizeStep(entries: seq<EntryState>, c: seq<nat>, n: nat, base: int, now: nat)
    requires 0 < n <= |c| && c[0] < |entries|
    ensures PenalizeAll(entries, c[..n], base, now) ==
            PenalizeAll(entries[c[0] := Penalized(entries[c[0]], base, now)], c[1..][..n - 1], base, now)
  {
    assert c[..n][1..] == c[1..][..n - 1];
  }

  lemma LossThenWin(entries: seq<EntryState>, c: seq<nat>, entries2: seq<EntryState>, rest: seq<nat>, t: Trace,
                        now: nat, base: int, attempts: Oracle, last: Option<Credential>, reason: Failure)
    requires forall k :: 0 <= k < |c| ==> c[k] < |entries|
    requires c != [] && rest == c[1..] && attempts != [] && Met(attempts[0], c[0]).Lost? && |c| <= |attempts|
    requires entries2 == entries[c[0] := Penalized(entries[c[0]], base, now)]
    requires Orderly(entries2, rest, t, now, base, attempts[1..], Some(entries[c[0]].cred),
                     Met(attempts[0], c[0]).reason)
    requires Losses(attempts, c) < |c| && Losses(attempts, c) < |attempts|
    ensures Orderly(entries, c, Prepend([c[0]], t), now, base, attempts, last, reason)
  {
    assert entries2[c[0]].cred == entries[c[0]].cred;
    hide Penalized, Recovered, PenalizeAll, Losses, Wins, FinalReason;
    LossesStep(attempts, c);
    var lost := Losses(attempts, c);
    PenalizeStep(entries, c, lost, base, now);
    assert c[lost] == rest[lost - 1] && attempts[lost] == attempts[1..][lost - 1];
    hide Met;
    assert c[..lost + 1] == [c[0]] + rest[..lost];
  }

  lemma LossThenLoss(entries: seq<EntryState>, c: seq<nat>, entries2: seq<EntryState>, rest: seq<nat>, t: Trace,
                        now: nat, base: int, attempts: Oracle, last: Option<Credential>, reason: Failure)
    requires forall k :: 0 <= k < |c| ==> c[k] < |entries|
    requires c != [] && rest == c[1..] && attempts != [] && Met(attempts[0], c[0]).Lost? && |c| <= |attempts|
    requires entries2 == entries[c[0] := Penalized(entries[c[0]], base, now)]
    requires Orderly(entries2, rest, t, now, base, attempts[1..], Some(entries[c[0]].cred),
                     Met(attempts[0], c[0]).reason)
    requires Losses(attempts, c) >= |c| || Losses(attempts, c) >= |attempts|
    ensures Orderly(entries, c, Prepend([c[0]], t), now, base, attempts, last, reason)
  {
    assert entries2[c[0]].cred == entries[c[0]].cred;
    hide Penalized, Recovered, PenalizeAll, Losses, Wins;
    LossesStep(attempts, c);
    assert c == [c[0]] + rest && c[..|c|] == c && rest[..|rest|] == rest;
    PenalizeStep(entries, c, |c|, base, now);
    if 1 < |c| { assert attempts[1..][|c| - 2] == attempts[|c| - 1]; }
  }

  lemma LossThenOrderly(entries: seq<EntryState>, c: seq<nat>, entries2: seq<EntryState>, rest: seq<nat>, t: Trace,
                        now: nat, base: int, attempts: Oracle, last: Option<Credential>, reason: Failure)
    requires forall k :: 0 <= k < |c| ==> c[k] < |entries|
    requires c != [] && rest == c[1..] && attempts != [] && Met(attempts[0], c[0]).Lost? && |c| <= |attempts|
    requires entries2 == entries[c[0] := Penalized(entries[c[0]], base, now)]
    requires Orderly(entries2, rest, t, now, base, attempts[1..], Some(entries[c[0]].cred),
                     Met(attempts[0], c[0]).reason)
    ensures Orderly(entries, c, Prepend([c[0]], t), now, base, attempts, last, reason)
  {
    hide Orderly, Losses;
    if Losses(attempts, c) < |c| && Losses(attempts, c) < |attempts| {
      LossThenWin(entries, c, entries2, rest, t, now, base, attempts, last, reason);
    } else {
      LossThenLoss(entries, c, entries2, rest, t, now, base, attempts, last, reason);
    }
  }

  /** After `i` attempts: what was tried so far, then the rotation that is still ahead, make up the whole. */
  ghost predicate Underway(whole: Trace, tried: seq<nat>, p: PoolState, now: nat, base: int, accepts: set<Credential>,
                           attempts: Oracle, i: nat, last: Option<Credential>, reason: Failure) {
    WellFormed(p) && i <= |attempts|
        && whole == Prepend(tried, Rotate(p, now, base, accepts, attempts[i..], last, reason))
  }

  lemma UnderwayStarts(whole: Trace, p: PoolState, now: nat, base: int, accepts: set<Credential>, attempts: Oracle)
    requires WellFormed(p) && whole == Whole(p, now, base, accepts, attempts)
    ensures Underway(whole, [], p, now, base, accepts, attempts, 0, None, NoCredentials)
  {
    assert attempts[0..] == attempts && [] + whole.tried == whole.tried;
  }

  lemma UnderwayEnds(whole: Trace, tried: seq<nat>, p: PoolState, now: nat, base: int, accepts: set<Credential>,
                     attempts: Oracle, last: Option<Credential>, reason: Failure)
    requires Underway(whole, tried, p, now, base, accepts, attempts, |attempts|, last, reason)
    ensures whole == Trace(p, tried, Failed(last, reason))
  {
    assert tried + [] == tried;
  }

  /** One turn of the loop: what the next attempt makes of the rotation. */
  lemma Turn(whole: Trace, tried: seq<nat>, p: PoolState, now: nat, base: int, accepts: set<Credential>,
             attempts: Oracle, i: nat, last: Option<Credential>, reason: Failure)
    requires i < |attempts| && Underway(whole, tried, p, now, base, accepts, attempts, i, last, reason)
    ensures var (p1, got) := Next(p, now, accepts);
            if got.None? then whole == Trace(p1, tried, Failed(last, NoneAvailable))
            else
              var j, cred := got.value, p.entries[got.value].cred;
              match Met(attempts[i], j)
              case Won(status) => whole == Trace(RecoverAt(p1, j), tried + [j], Served(cred, status))
              case Aborted => whole == Trace(p1, tried + [j], Failed(Some(cred), Canceled))
              case Lost(why, penalize) =>
                var p2 := if penalize then PenalizeAt(p1, j, base, now) else p1;
                Underway(whole, tried + [j], p2, now, base, accepts, attempts, i + 1, Some(cred), why)
  {
    hide Next, PenalizeAt, RecoverAt, Met;
    var (p1, got) := Next(p, now, accepts);
    assert attempts[i..][1..] == attempts[i + 1..];
    if got.None? {
      assert tried + [] == tried;
    } else {
      var j, cred := got.value, p.entries[got.value].cred;
      StaysWellFormed(p1, j, base, now);
      if Met(attempts[i], j).Lost? {
        var p2 := if Met(attempts[i], j).penalize then PenalizeAt(p1, j, base, now) else p1;
        var ahead := Rotate(p2, now, base, accepts, attempts[i + 1..], Some(cred), Met(attempts[i], j).reason);
        assert tried + ([j] + ahead.tried) == tried + [j] + ahead.tried;
      }
    }
  }

  lemma StaysWellFormed(p: PoolState, j: nat, base: int, now: nat)
    requires WellFormed(p) && j < |p.entries|
    ensures WellFormed(PenalizeAt(p, j, base, now)) && WellFormed(RecoverAt(p, j))
  {}

  lemma NoneLeftIsOrderly(
      p: PoolState, now: nat, base: int, accepts: set<Credential>, attempts: Oracle,
      last: Option<Credential>, reason: Failure)
    requires WellFormed(p) && Candidates(p, now, accepts) == []
    ensures Orderly(p.entries, [], Rotate(p, now, base, accepts, attempts, last, reason),
                    now, base, attempts, last, reason)
  {
    hide Candidates;
  }

  lemma WinIsOrderly(
      p: PoolState, now: nat, base: int, accepts: set<Credential>, attempts: Oracle,
      last: Option<Credential>, reason: Failure, c: seq<nat>)
    requires WellFormed(p) && attempts != [] && c == Candidates(p, now, accepts) != []
    requires (forall k :: 0 <= k < |c| ==> c[k] < |p.entries|) && Met(attempts[0], c[0]).Won?
    ensures Orderly(p.entries, c, Rotate(p, now, base, accepts, attempts, last, reason),
                    now, base, attempts, last, reason)
  {
    hide Candidates;
    assert c[..1] == [c[0]] && c[..0] == [];
    assert Wins(attempts, c, 0);
  }

  lemma RotateAfterLoss(
      p: PoolState, now: nat, base: int, accepts: set<Credential>, attempts: Oracle,
      last: Option<Credential>, reason: Failure, c: seq<nat>)
    requires WellFormed(p) && attempts != [] && c == Candidates(p, now, accepts) != []
    requires c[0] < |p.entries| && Met(attempts[0], c[0]).Lost? && Met(attempts[0], c[0]).penalize
    ensures var p2 := PenalizeAt(Next(p, now, accepts).0, c[0], base, now);
            && WellFormed(p2)
            && Rotate(p, now, base, accepts, attempts, last, reason) ==
               Prepend([c[0]], Rotate(p2, now, base, accepts, attempts[1..], Some(p.entries[c[0]].cred),
                                      Met(attempts[0], c[0]).reason))
  {
    hide Candidates, Met;
  }

  lemma {:induction false} RotationIsOrderly(
      p: PoolState, now: nat, base: int, accepts: set<Credential>, attempts: Oracle,
      last: Option<Credential>, reason: Failure)
    requires WellFormed(p) && base > 0 && Regular(attempts, |p.entries|)
    requires |Candidates(p, now, accepts)| <= |attempts|
    ensures forall k :: 0 <= k < |Candidates(p, now, accepts)| ==> Candidates(p, now, accepts)[k] < |p.entries|
    ensures Orderly(p.entries, Candidates(p, now, accepts), Rotate(p, now, base, accepts, attempts, last, reason),
                    now, base, attempts, last, reason)
    decreases |attempts|
  {
    hide Candidates, Orderly, Rotate, Regular;
    var c := Candidates(p, now, accepts);
    CandidatesInRange(p, now, accepts);
    if c == [] {
      NoneLeftIsOrderly(p, now, base, accepts, attempts, last, reason);
    } else if Met(attempts[0], c[0]).Won? {
      WinIsOrderly(p, now, base, accepts, attempts, last, reason, c);
    } else {
      RegularHead(attempts, |p.entries|);
      var j, cred := c[0], p.entries[c[0]].cred;
      var p2 := PenalizeAt(Next(p, now, accepts).0, j, base, now);
      BackoffPositive(base, p.entries[j].failStreak + 1);
      CandidatesAfterPick(p, p2, now, accepts);
      RotationIsOrderly(p2, now, base, accepts, attempts[1..], Some(cred), Met(attempts[0], j).reason);
      var t := Rotate(p2, now, base, accepts, attempts[1..], Some(cred), Met(attempts[0], j).reason);
      LossThenOrderly(p.entries, c, p2.entries, Candidates(p2, now, accepts), t, now, base, attempts, last, reason);
      RotateAfterLoss(p, now, base, accepts, attempts, last, reason, c);
    }
  }

  /** Every loss sidelines the credential; the client may still go away. */
  ghost predicate LossesPenalized(attempts: Oracle, n: nat) {
    forall k, j: nat :: 0 <= k < |attempts| && j < n ==> (Met(attempts[k], j).Lost? ==> Met(attempts[k], j).penalize)
  }

  lemma LossesPenalizedHead(attempts: Oracle, n: nat)
    requires LossesPenalized(attempts, n) && attempts != []
    ensures LossesPenalized(attempts[1..], n)
    ensures forall j: nat :: j < n && Met(attempts[0], j).Lost? ==> Met(attempts[0], j).penalize
  {}

  /** A penalized candidate is one no longer; the others stay in their order. */
  lemma PenalizedGoes(p: PoolState, now: nat, base: int, accepts: set<Credential>, c: seq<nat>) returns (p2: PoolState)
    requires WellFormed(p) && base > 0 && c == Candidates(p, now, accepts) != [] && c[0] < |p.entries|
    ensures p2 == PenalizeAt(Next(p, now, accepts).0, c[0], base, now)
    ensures WellFormed(p2) && |p2.entries| == |p.entries| && Candidates(p2, now, accepts) == c[1..]
  {
    hide Candidates;
    p2 := PenalizeAt(Next(p, now, accepts).0, c[0], base, now);
    BackoffPositive(base, p.entries[c[0]].failStreak + 1);
    CandidatesAfterPick(p, p2, now, accepts);
  }

  /** However the call ends, it has tried the candidates in their order, so none twice. */
  lemma {:induction false} TriedAreFirstCandidates(
      p: PoolState, now: nat, base: int, accepts: set<Credential>, attempts: Oracle,
      last: Option<Credential>, reason: Failure)
    requires WellFormed(p) && base > 0 && LossesPenalized(attempts, |p.entries|)
    ensures Rotate(p, now, base, accepts, attempts, last, reason).tried <= Candidates(p, now, accepts)
    decreases |attempts|
  {
    hide Candidates, LossesPenalized, Met;
    var c := Candidates(p, now, accepts);
    CandidatesInRange(p, now, accepts);
    if attempts != [] && c != [] {
      if Met(attempts[0], c[0]).Lost? {
        LossesPenalizedHead(attempts, |p.entries|);
        RotateAfterLoss(p, now, base, accepts, attempts, last, reason, c);
        var p2 := PenalizedGoes(p, now, base, accepts, c);
        hide Rotate, PenalizeAt, Next;
        TriedAreFirstCandidates(p2, now, base, accepts, attempts[1..], Some(p.entries[c[0]].cred),
            Met(attempts[0], c[0]).reason);
        assert c == [c[0]] + c[1..];
      } else {
        assert [c[0]] <= c;
      }
    }
  }

  /** What the last attempt makes of the call, `more` attempts being left or not. */
  ghost predicate EndedBy(outcome: Outcome, cred: Credential, met: Attempt, more: bool) {
    match met
    case Won(status) => outcome == Served(cred, status)
    case Aborted => outcome == Failed(Some(cred), Canceled)
    case Lost(why, _) => outcome == Failed(Some(cred), if more then NoneAvailable else why)
  }

  /** All attempts but the last lose, and the last one settles the outcome. */
  ghost predicate Settled(entries: seq<EntryState>, attempts: Oracle, t: Trace) {
    var n := |t.tried|;
    && n <= |attempts|
    && (forall k: nat :: k < n ==> t.tried[k] < |entries|)
    && (forall k: nat :: k < n - 1 ==> Met(attempts[k], t.tried[k]).Lost?)
    && (n > 0 ==> EndedBy(t.outcome, entries[t.tried[n - 1]].cred, Met(attempts[n - 1], t.tried[n - 1]),
                          n < |attempts|))
  }

  lemma {:induction false} LastAttemptDecides(
      p: PoolState, now: nat, base: int, accepts: set<Credential>, attempts: Oracle,
      last: Option<Credential>, reason: Failure)
    requires WellFormed(p)
    ensures var t := Rotate(p, now, base, accepts, attempts, last, reason);
            && Settled(p.entries, attempts, t)
            && (t.tried == [] ==> t.outcome == Failed(last, if attempts == [] then reason else NoneAvailable))
    decreases |attempts|
  {
    hide Next, Met, Penalized, Recovered, Settled;
    if attempts == [] {
      SettledAtOnce(p.entries, attempts, Rotate(p, now, base, accepts, attempts, last, reason));
    } else {
      var (p1, got) := Next(p, now, accepts);
      if got.Some? && Met(attempts[0], got.value).Lost? {
        var (j, rest) := (got.value, attempts[1..]);
        var (cred, why) := (p.entries[j].cred, Met(attempts[0], j).reason);
        var p2 := if Met(attempts[0], j).penalize then PenalizeAt(p1, j, base, now) else p1;
        SameCreds(p1, j, base, now);
        LastAttemptDecides(p2, now, base, accepts, rest, Some(cred), why);
        SettledAfterLoss(p.entries, p2.entries, attempts, j, Rotate(p2, now, base, accepts, rest, Some(cred), why));
      } else {
        SettledAtOnce(p.entries, attempts, Rotate(p, now, base, accepts, attempts, last, reason));
      }
    }
  }

  /** Nothing tried, or one attempt that ends the call. */
  lemma SettledAtOnce(entries: seq<EntryState>, attempts: Oracle, t: Trace)
    requires |t.tried| <= 1 && |t.tried| <= |attempts|
    requires t.tried != [] ==>
               && t.tried[0] < |entries| && !Met(attempts[0], t.tried[0]).Lost?
               && EndedBy(t.outcome, entries[t.tried[0]].cred, Met(attempts[0], t.tried[0]), false)
    ensures Settled(entries, attempts, t)
  {
    hide Met;
  }

  lemma SettledAfterLoss(entries: seq<EntryState>, entries2: seq<EntryState>, attempts: Oracle, j: nat, t2: Trace)
    requires j < |entries| == |entries2| && forall x: nat :: x < |entries| ==> entries2[x].cred == entries[x].cred
    requires attempts != [] && Met(attempts[0], j).Lost? && Settled(entries2, attempts[1..], t2)
    requires t2.tried == [] ==>
               t2.outcome == Failed(Some(entries[j].cred),
                                    if |attempts| == 1 then Met(attempts[0], j).reason else NoneAvailable)
    ensures Settled(entries, attempts, Prepend([j], t2))
  {
    hide Met;
    var t := Prepend([j], t2);
    assert forall k: nat :: 0 < k < |t.tried| ==> t.tried[k] == t2.tried[k - 1] && attempts[k] == attempts[1..][k - 1];
  }

  lemma SameCreds(p: PoolState, j: nat, base: int, now: nat)
    requires j < |p.entries|
    ensures var p2 := PenalizeAt(p, j, base, now);
            |p2.entries| == |p.entries| && forall x: nat :: x < |p.entries| ==> p2.entries[x].cred == p.entries[x].cred
  {}

  /** A rotation over the whole pool, as both callers start it. */
  function Whole(p: PoolState, now: nat, base: int, accepts: set<Credential>, attempts: Oracle): Trace
    requires WellFormed(p)
  {
    Rotate(p, now, base, accepts, attempts, None, NoCredentials)
  }

  lemma WholeIsOrderly(p: PoolState, now: nat, base: int, accepts: set<Credential>, attempts: Oracle)
    requires WellFormed(p) && base > 0 && Regular(attempts, |p.entries|) && |attempts| == |p.entries|
    ensures var c := Candidates(p, now, accepts);
            && (forall k :: 0 <= k < |c| ==> c[k] < |p.entries|)
            && Orderly(p.entries, c, Whole(p, now, base, accepts, attempts), now, base, attempts, None, NoCredentials)
  {
    CandidatesInRange(p, now, accepts);
    RotationIsOrderly(p, now, base, accepts, attempts, None, NoCredentials);
  }

  /**
   The eligible credentials are tried in cyclic (or list) order, none twice. The call
   succeeds exactly when the attempt with some eligible credential wins, and then it returns
   the first such credential.
   */
  lemma ServesIffSomeoneCan(p: PoolState, now: nat, base: int, accepts: set<Credential>, attempts: Oracle)
    requires WellFormed(p) && base > 0 && Regular(attempts, |p.entries|) && |attempts| == |p.entries|
    ensures var c := Candidates(p, now, accepts);
            var t := Whole(p, now, base, accepts, attempts);
            && |c| <= |attempts| && t.tried <= c
            && (forall a, b :: 0 <= a < b < |t.tried| ==> t.tried[a] != t.tried[b])
            && (t.outcome.Served? <==> exists k: nat :: Wins(attempts, c, k))
            && (t.outcome.Served? ==>
                  && t.tried != [] && t.tried[|t.tried| - 1] < |p.entries|
                  && Met(attempts[|t.tried| - 1], t.tried[|t.tried| - 1]).Won?
                  && t.outcome == Served(p.entries[t.tried[|t.tried| - 1]].cred,
                                         Met(attempts[|t.tried| - 1], t.tried[|t.tried| - 1]).status)
                  && forall k: nat :: k < |t.tried| - 1 ==> !Wins(attempts, c, k))
            && (t.outcome.Failed? ==> t.tried == c)
  {
    CandidatesAreTheEligible(p, now, accepts);
    CandidatesInRange(p, now, accepts);
    WholeIsOrderly(p, now, base, accepts, attempts);
    hide Candidates, Whole;
    var c := Candidates(p, now, accepts);
    var lost := Losses(attempts, c);
  }

  /**
   What the call leaves behind: losers sidelined, the winner reset, the others untouched;
   after an error every eligible credential is cooling down.
   */
  lemma RotationSidelinesLosers(p: PoolState, now: nat, base: int, accepts: set<Credential>, attempts: Oracle, x: nat)
    requires WellFormed(p) && base > 0 && Regular(attempts, |p.entries|) && |attempts| == |p.entries| && x < |p.entries|
    ensures var t := Whole(p, now, base, accepts, attempts);
            && |t.pool.entries| == |p.entries|
            && t.pool.entries[x] ==
               (if x !in t.tried then p.entries[x]
                else if t.outcome.Served? && x == t.tried[|t.tried| - 1] then Recovered(p.entries[x])
                else Penalized(p.entries[x], base, now))
            && (t.outcome.Failed? && Eligible(p.entries[x], now, accepts) ==>
                  x in t.tried && Cooling(t.pool.entries[x], now))
  {
    CandidatesAreTheEligible(p, now, accepts);
    WholeIsOrderly(p, now, base, accepts, attempts);
    hide Candidates, Whole;
    var c := Candidates(p, now, accepts);
    var lost := Losses(attempts, c);
    BackoffPositive(base, p.entries[x].failStreak + 1);
    if lost < |c| && lost < |attempts| {
      var before, w := c[..lost], c[lost];
      assert c[..lost + 1] == before + [w];
      assert w !in before;
      PenalizeAllAt(p.entries, before, base, now, x);
    } else {
      PenalizeAllAt(p.entries, c, base, now, x);
    }
  }

  /**
   Which error a failed call reports: ErrNoneAvailable exactly when some entry was not
   eligible to begin with, and otherwise the last attempt's own failure.
   */
  lemma ErrorReported(p: PoolState, now: nat, base: int, accepts: set<Credential>, attempts: Oracle)
    requires WellFormed(p) && base > 0 && Regular(attempts, |p.entries|) && |attempts| == |p.entries|
    requires Whole(p, now, base, accepts, attempts).outcome.Failed?
    ensures var reason := Whole(p, now, base, accepts, attempts).outcome.reason;
            if exists x: nat :: x < |p.entries| && !Eligible(p.entries[x], now, accepts)
            then reason == NoneAvailable
            else
              var c := Candidates(p, now, accepts);
              && |c| == |attempts| > 0
              && Met(attempts[|c| - 1], c[|c| - 1]).Lost? && reason == Met(attempts[|c| - 1], c[|c| - 1]).reason
  {
    CandidatesAreTheEligible(p, now, accepts);
    CandidatesInRange(p, now, accepts);
    WholeIsOrderly(p, now, base, accepts, attempts);
    hide Candidates, Whole, Eligible, Regular;
    var c := Candidates(p, now, accepts);
    if x: nat :| x < |p.entries| && !Eligible(p.entries[x], now, accepts) {
      MissingOne(c, |p.entries|, x);
    } else {
      CoversAll(c, |p.entries|);
      LastLost(attempts, c, |p.entries|);
    }
    OrderlyFailure(p.entries, c, Whole(p, now, base, accepts, attempts), now, base, attempts);
  }

  /** The reason of an orderly call that failed. */
  lemma OrderlyFailure(entries: seq<EntryState>, c: seq<nat>, t: Trace, now: nat, base: int, attempts: Oracle)
    requires forall k :: 0 <= k < |c| ==> c[k] < |entries|
    requires Orderly(entries, c, t, now, base, attempts, None, NoCredentials) && t.outcome.Failed?
    ensures |c| < |attempts| ==> t.outcome.reason == NoneAvailable
    ensures |c| == |attempts| > 0 ==>
              t.outcome.reason == FinalReason(Met(attempts[|c| - 1], c[|c| - 1])) && Losses(attempts, c) == |c|
  {
    hide PenalizeAll, Recovered, FinalReason;
  }

  lemma LastLost(attempts: Oracle, c: seq<nat>, n: nat)
    requires Regular(attempts, n) && |c| == |attempts| > 0 && c[|c| - 1] < n
    ensures Losses(attempts, c) == |c| ==> Met(attempts[|c| - 1], c[|c| - 1]).Lost?
  {
    hide Losses;
    assert Losses(attempts, c) == |c| ==> !Wins(attempts, c, |c| - 1);
  }

  function Below(n: nat): (s: set<nat>)
    ensures |s| == n
    ensures forall k: nat :: k in s <==> k < n
  {
    if n == 0 then {} else Below(n - 1) + {n - 1}
  }

  /** Distinct positions below n that miss one of them are fewer than n. */
  lemma MissingOne(c: seq<nat>, n: nat, x: nat)
    requires x < n && x !in c
    requires forall k: nat :: k < |c| ==> c[k] < n
    requires forall a, b :: 0 <= a < b < |c| ==> c[a] != c[b]
    ensures |c| < n
  {
    DistinctCount(c);
    SubsetCount(Range(c), Below(n) - {x});
  }

  lemma CoversAll(c: seq<nat>, n: nat)
    requires forall x: nat :: x < n ==> x in c
    requires forall a, b :: 0 <= a < b < |c| ==> c[a] != c[b]
    ensures |c| >= n
  {
    DistinctCount(c);
    SubsetCount(Below(n), Range(c));
  }

  function Range(c: seq<nat>): (s: set<nat>)
    ensures forall y: nat :: y in s <==> y in c
  {
    if c == [] then {} else {c[0]} + Range(c[1..])
  }

  lemma {:induction false} DistinctCount(c: seq<nat>)
    requires forall a, b :: 0 <= a < b < |c| ==> c[a] != c[b]
    ensures |Range(c)| == |c|
  {
    if c != [] {
      DistinctCount(c[1..]);
      assert c[0] !in c[1..];
    }
  }

  lemma SubsetCount(a: set<nat>, b: set<nat>)
    requires a <= b
    ensures |a| <= |b|
  {
    assert b == a + (b - a);
  }

  /** Entry `k` of a pool's candidates when nobody is ever sidelined. */
  function Repeating(c: seq<nat>, fixed: bool, k: nat): nat
    requires c != []
  {
    if fixed then c[0] else Cyclic(c, k)
  }

  lemma AgainAfterLoss(c: seq<nat>, c1: seq<nat>, fixed: bool, k: nat)
    requires c != [] && c1 == if fixed then [c[0]] + c[1..] else c[1..] + [c[0]]
    ensures Repeating(c, fixed, 0) == c[0] && Repeating(c1, fixed, k) == Repeating(c, fixed, k + 1)
  {
    hide Cyclic;
    CyclicStarts(c);
    RotatedCycle(c, k);
  }

  /**
   Why losses must be penalized: if none is, a pool in which everything loses spends one
   attempt per entry on going round the eligible ones again and again.
   */
  lemma {:induction false} UnpenalizedLossesRepeat(
      p: PoolState, now: nat, base: int, accepts: set<Credential>, attempts: Oracle,
      last: Option<Credential>, reason: Failure)
    requires WellFormed(p) && Candidates(p, now, accepts) != []
    requires forall k, j: nat :: 0 <= k < |attempts| && j < |p.entries| ==>
        Met(attempts[k], j) == Lost(Transport, false)
    ensures var c := Candidates(p, now, accepts);
            var t := Rotate(p, now, base, accepts, attempts, last, reason);
            && |t.tried| == |attempts| && t.outcome.Failed? && t.pool.entries == p.entries
            && forall k: nat :: k < |attempts| ==> t.tried[k] == Repeating(c, p.fillFirst, k)
    decreases |attempts|
  {
    hide Candidates, Repeating, Met;
    if attempts != [] {
      var c := Candidates(p, now, accepts);
      var p1 := Next(p, now, accepts).0;
      CandidatesInRange(p, now, accepts);
      CandidatesAfterPick(p, p1, now, accepts);
      var cred := p.entries[c[0]].cred;
      UnpenalizedLossesRepeat(p1, now, base, accepts, attempts[1..], Some(cred), Transport);
      var t1 := Rotate(p1, now, base, accepts, attempts[1..], Some(cred), Transport);
      forall k: nat | k < |attempts| ensures ([c[0]] + t1.tried)[k] == Repeating(c, p.fillFirst, k) {
        AgainAfterLoss(c, Candidates(p1, now, accepts), p.fillFirst, if k == 0 then 0 else k - 1);
      }
    }
  }

  // ---------------------------------------------------------------- RotateFilteredOpts

  function SendAttempt(sent: SendOutcome, penalizeTransport: bool): Attempt {
    match sent
    case TransportError(canceled) => if canceled then Aborted else Lost(Transport, penalizeTransport)
    case Response(status) => if IsCredFailure(status) then Lost(CredentialStatus(status), true) else Won(status)
  }

  function SendRow(row: seq<SendOutcome>, penalizeTransport: bool): (attempts: seq<Attempt>)
    ensures |attempts| == |row|
    ensures forall j: nat :: j < |row| ==> attempts[j] == SendAttempt(row[j], penalizeTransport)
  {
    seq(|row|, j requires 0 <= j < |row| => SendAttempt(row[j], penalizeTransport))
  }

  function SendAttempts(sends: seq<seq<SendOutcome>>, penalizeTransport: bool): (attempts: Oracle)
    ensures |attempts| == |sends|
    ensures forall k: nat :: k < |sends| ==> attempts[k] == SendRow(sends[k], penalizeTransport)
  {
    seq(|sends|, k requires 0 <= k < |sends| => SendRow(sends[k], penalizeTransport))
  }

  /** The upstream has no quarrel with the credential: no error, and none of 401, 403 and 429. */
  predicate Answers(sent: SendOutcome) { sent.Response? && sent.status !in {401, 403, 429} }

  /** Not accepted, and the client is still there. */
  predicate RejectedSend(sent: SendOutcome) { !Answers(sent) && sent != TransportError(true) }

  /** What comes of the last send, `more` attempts being left or not. */
  ghost predicate SentLast(outcome: Outcome, cred: Credential, sent: SendOutcome, more: bool) {
    if Answers(sent) then outcome == Served(cred, sent.status)
    else
      && outcome.Failed? && outcome.lastCred == Some(cred)
      && outcome.reason == if sent == TransportError(true) then Canceled
                           else if more then NoneAvailable
                           else if sent.TransportError? then Transport
                           else CredentialStatus(sent.status)
  }

  /**
   Every send but the last is turned down by a transport error or one of the three statuses; the last
   one is served exactly when it is not, and otherwise says why there is no answer.
   */
  ghost predicate Answered(entries: seq<EntryState>, sends: seq<seq<SendOutcome>>, t: Trace)
    requires |sends| == |entries| && forall k :: 0 <= k < |sends| ==> |sends[k]| == |entries|
  {
    var n := |t.tried|;
    && n <= |sends|
    && (forall k: nat :: k < n ==> t.tried[k] < |entries|)
    && (forall k: nat :: k < n - 1 ==> RejectedSend(sends[k][t.tried[k]]))
    && (n > 0 ==> SentLast(t.outcome, entries[t.tried[n - 1]].cred, sends[n - 1][t.tried[n - 1]], n < |sends|))
  }

  /** Which answer a call returns; nothing sent, nothing served. */
  lemma RotationAnswers(p: PoolState, now: nat, base: int, accepts: set<Credential>, sends: seq<seq<SendOutcome>>,
                        penalizeTransport: bool)
    requires WellFormed(p) && |sends| == |p.entries| && forall k :: 0 <= k < |sends| ==> |sends[k]| == |p.entries|
    ensures var t := Whole(p, now, base, accepts, SendAttempts(sends, penalizeTransport));
            && Answered(p.entries, sends, t)
            && (t.tried == [] ==> t.outcome == Failed(None, NoneAvailable))
  {
    LastAttemptDecides(p, now, base, accepts, SendAttempts(sends, penalizeTransport), None, NoCredentials);
    hide Rotate, Settled, SendAttempts, Answered;
    SendsDecide(p.entries, sends, penalizeTransport,
                Whole(p, now, base, accepts, SendAttempts(sends, penalizeTransport)));
  }

  lemma SendsDecide(entries: seq<EntryState>, sends: seq<seq<SendOutcome>>, penalizeTransport: bool, t: Trace)
    requires |sends| == |entries| && forall k :: 0 <= k < |sends| ==> |sends[k]| == |entries|
    requires Settled(entries, SendAttempts(sends, penalizeTransport), t)
    ensures Answered(entries, sends, t)
  {
    hide Met, EndedBy, SendAttempt, SentLast, SendAttempts, RejectedSend;
    forall k: nat | k < |t.tried| - 1 ensures RejectedSend(sends[k][t.tried[k]]) {
      SendIs(sends, penalizeTransport, k, t.tried[k]);
    }
    if t.tried != [] {
      var n := |t.tried|;
      SendIs(sends, penalizeTransport, n - 1, t.tried[n - 1]);
      SendEnds(t.outcome, entries[t.tried[n - 1]].cred, sends[n - 1][t.tried[n - 1]], penalizeTransport, n < |sends|);
    }
  }

  lemma SendIs(sends: seq<seq<SendOutcome>>, penalizeTransport: bool, k: nat, j: nat)
    requires k < |sends| && j < |sends[k]|
    ensures Met(SendAttempts(sends, penalizeTransport)[k], j) == SendAttempt(sends[k][j], penalizeTransport)
    ensures SendAttempt(sends[k][j], penalizeTransport).Lost? ==> RejectedSend(sends[k][j])
  {}

  lemma SendEnds(outcome: Outcome, cred: Credential, sent: SendOutcome, penalizeTransport: bool, more: bool)
    ensures EndedBy(outcome, cred, SendAttempt(sent, penalizeTransport), more) ==> SentLast(outcome, cred, sent, more)
  {}

  /** A call is regular exactly when no client goes away and no transport error is let pass. */
  lemma RotationIsRegularIff(sends: seq<seq<SendOutcome>>, penalizeTransport: bool, n: nat)
    requires |sends| == n && forall k :: 0 <= k < |sends| ==> |sends[k]| == n
    ensures Regular(SendAttempts(sends, penalizeTransport), n) <==>
            forall k, j :: 0 <= k < n && 0 <= j < n && sends[k][j].TransportError? ==>
              !sends[k][j].canceled && penalizeTransport
  {
    var attempts := SendAttempts(sends, penalizeTransport);
    forall k, j: nat | 0 <= k < |sends| && j < n
      ensures Met(attempts[k], j) == SendAttempt(sends[k][j], penalizeTransport)
    {}
  }

  method RotateFilteredOpts(store: Store, now: nat, cooldown: int, accepts: set<Credential>,
                            sends: seq<seq<SendOutcome>>, penalizeTransport: bool)
    returns (outcome: Outcome, tried: seq<nat>)
    requires store.Valid() && |sends| == |store.entries|
    requires forall k :: 0 <= k < |sends| ==> |sends[k]| == |store.entries|
    modifies store`idx, store.entries
    ensures store.Valid()
    ensures Trace(store.State(), tried, outcome) ==
            Whole(old(store.State()), now, cooldown, accepts, SendAttempts(sends, penalizeTransport))
  {
    hide Next, PenalizeAt, RecoverAt, Store.Valid, Store.State, Rotate, Whole, Underway, WellFormed;
    ghost var attempts := SendAttempts(sends, penalizeTransport);
    ghost var whole := Whole(store.State(), now, cooldown, accepts, attempts);
    var lastErr := NoCredentials;
    var lastCred := None;
    tried := [];
    var i, n := 0, |store.entries|;
    UnderwayStarts(whole, store.State(), now, cooldown, accepts, attempts);
    while i < n
      invariant 0 <= i <= n && store.Valid()
      invariant Underway(whole, tried, store.State(), now, cooldown, accepts, attempts, i, lastCred, lastErr)
    {
      Turn(whole, tried, store.State(), now, cooldown, accepts, attempts, i, lastCred, lastErr);
      var got := store.NextOf(now, accepts);
      if got == None {
        return Failed(lastCred, NoneAvailable), tried;
      }
      var cred := store.entries[got.value].cred;
      lastCred := Some(cred);
      tried := tried + [got.value];
      var resp := sends[i][got.value];
      i := i + 1;
      if resp.TransportError? {
        if resp.canceled {
          return Failed(lastCred, Canceled), tried;
        }
        lastErr := Transport;
        if penalizeTransport {
          var _, _, _ := store.PenalizeDetail(cred, cooldown, now);
        }
        continue;
      }
      if IsCredFailure(resp.status) {
        var _, _, _ := store.PenalizeDetail(cred, cooldown, now);
        lastErr := CredentialStatus(resp.status);
        continue;
      }
      store.MarkSuccess(cred);
      return Served(cred, resp.status), tried;
    }
    UnderwayEnds(whole, tried, store.State(), now, cooldown, accepts, attempts, lastCred, lastErr);
    return Failed(lastCred, lastErr), tried;
  }
}
