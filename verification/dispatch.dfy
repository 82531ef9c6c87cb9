/**
 Server.dispatch: the same rotation with OAuth refresh around each attempt. A
 near-expiry token is refreshed before the send, and a 401 earns one forced refresh and one
 retry with the same credential.
 */
module Dispatch {
  import opened Wrappers
  import opened Pool
  import opened Rotation

  datatype Refresh = RefreshFailed | Refreshed | NotRefreshed

  /** Everything the outside world may answer during one attempt. */
  datatype Script = Script(nearExpiry: bool, proactive: Refresh, first: SendOutcome, forced: Refresh,
      second: SendOutcome)

  datatype Send = Send(cred: Credential, retry: bool)

  predicate NeedsRefresh(cred: Credential, s: Script) { cred.kind == OAuth && s.nearExpiry }

  /** refreshCred: a no-op without a refresher and for API keys. */
  function RefreshCred(refresher: bool, cred: Credential, answer: Refresh): Refresh {
    if !refresher || cred.kind != OAuth then NotRefreshed else answer
  }

  predicate ProactiveFails(refresher: bool, cred: Credential, s: Script) {
    NeedsRefresh(cred, s) && RefreshCred(refresher, cred, s.proactive) == RefreshFailed
  }

  predicate Accepted(sent: SendOutcome) { sent.Response? && !IsCredFailure(sent.status) }

  predicate Retries(refresher: bool, cred: Credential, s: Script) {
    && !ProactiveFails(refresher, cred, s)
    && s.first == Response(401) && refresher && cred.kind == OAuth && s.forced == Refreshed
  }

  function DispatchAttempt(refresher: bool, cred: Credential, s: Script): Attempt {
    if ProactiveFails(refresher, cred, s) then Lost(RefreshRejected, true)
    else match s.first
      case TransportError(canceled) => if canceled then Aborted else Lost(Transport, true)
      case Response(status) =>
        if !IsCredFailure(status) then Won(status)
        else if Retries(refresher, cred, s) && Accepted(s.second) then Won(s.second.status)
        else Lost(CredentialStatus(status), true)
  }

  function SendsOf(refresher: bool, cred: Credential, s: Script): seq<Send> {
    if ProactiveFails(refresher, cred, s) then []
    else if Retries(refresher, cred, s) then [Send(cred, false), Send(cred, true)]
    else [Send(cred, false)]
  }

  function AttemptRow(refresher: bool, entries: seq<EntryState>, row: seq<Script>): (attempts: seq<Attempt>)
    requires |row| == |entries|
    ensures |attempts| == |row|
    ensures forall j: nat :: j < |row| ==> attempts[j] == DispatchAttempt(refresher, entries[j].cred, row[j])
  {
    seq(|row|, j requires 0 <= j < |row| => DispatchAttempt(refresher, entries[j].cred, row[j]))
  }

  /** An answer for every attempt with every entry. */
  predicate Square(scripts: seq<seq<Script>>, n: nat) {
    |scripts| == n && forall k :: 0 <= k < |scripts| ==> |scripts[k]| == n
  }

  function Attempts(refresher: bool, entries: seq<EntryState>, scripts: seq<seq<Script>>): (attempts: Oracle)
    requires Square(scripts, |entries|)
    ensures |attempts| == |scripts|
    ensures forall k: nat :: k < |scripts| ==> attempts[k] == AttemptRow(refresher, entries, scripts[k])
  {
    seq(|scripts|, k requires 0 <= k < |scripts| => AttemptRow(refresher, entries, scripts[k]))
  }

  /** The upstream calls made while trying the given entries, in order. */
  function SendLog(refresher: bool, creds: seq<Credential>, scripts: seq<seq<Script>>, tried: seq<nat>)
    : (log: seq<Send>)
    decreases |tried|
  {
    if tried == [] then []
    else
      var k := |tried| - 1;
      var j := tried[k];
      SendLog(refresher, creds, scripts, tried[..k]) +
      if j < |creds| && k < |scripts| && j < |scripts[k]| then SendsOf(refresher, creds[j], scripts[k][j]) else []
  }

  function Creds(entries: seq<EntryState>): (creds: seq<Credential>)
    ensures |creds| == |entries| && forall j :: 0 <= j < |creds| ==> creds[j] == entries[j].cred
  {
    seq(|entries|, j requires 0 <= j < |entries| => entries[j].cred)
  }

  // ---------------------------------------------------------------- what dispatch adds to a rotation

  /** Dispatch always penalizes, so only a client that goes away makes it irregular. */
  lemma DispatchIsRegular(refresher: bool, entries: seq<EntryState>, scripts: seq<seq<Script>>)
    requires Square(scripts, |entries|)
    ensures (forall k, j :: 0 <= k < |scripts| && 0 <= j < |entries| ==>
               !AttemptRow(refresher, entries, scripts[k])[j].Aborted?) <==>
            Regular(Attempts(refresher, entries, scripts), |entries|)
  {
    var attempts := Attempts(refresher, entries, scripts);
    forall k, j: nat | 0 <= k < |scripts| && j < |entries|
      ensures Met(attempts[k], j) == DispatchAttempt(refresher, entries[j].cred, scripts[k][j])
      ensures Met(attempts[k], j) == AttemptRow(refresher, entries, scripts[k])[j]
    {}
  }

  function TriedCreds(creds: seq<Credential>, tried: seq<nat>): set<Credential> {
    set k | 0 <= k < |tried| && tried[k] < |creds| :: creds[tried[k]]
  }

  /** The credentials that met a 401 and whose forced refresh ran. */
  function RetriedCreds(refresher: bool, creds: seq<Credential>, scripts: seq<seq<Script>>, tried: seq<nat>)
    : set<Credential>
  {
    set k | 0 <= k < |tried| && k < |scripts| && tried[k] < |creds| && tried[k] < |scripts[k]| &&
            Retries(refresher, creds[tried[k]], scripts[k][tried[k]]) :: creds[tried[k]]
  }

  ghost predicate WellSent(log: seq<Send>, tried: set<Credential>, retried: set<Credential>) {
    && (forall a: nat :: a < |log| ==> log[a].cred in tried)
    && (forall a, b :: 0 <= a < b < |log| && log[a].cred == log[b].cred ==>
          b == a + 1 && !log[a].retry && log[b].retry)
    && (forall b: nat :: b < |log| && log[b].retry ==>
          b > 0 && log[b - 1] == Send(log[b].cred, false) && log[b].cred in retried)
  }

  lemma AppendSends(log: seq<Send>, refresher: bool, cred: Credential, s: Script, tried: set<Credential>,
                    tried': set<Credential>, retried: set<Credential>, retried': set<Credential>)
    requires WellSent(log, tried, retried) && tried <= tried' && retried <= retried'
    requires cred !in tried && cred in tried' && (Retries(refresher, cred, s) ==> cred in retried')
    ensures WellSent(log + SendsOf(refresher, cred, s), tried', retried')
  {}

  lemma {:induction false} SendsAreWellFormed(refresher: bool, creds: seq<Credential>, scripts: seq<seq<Script>>,
      tried: seq<nat>)
    requires forall a, b :: 0 <= a < b < |creds| ==> creds[a] != creds[b]
    requires forall a, b :: 0 <= a < b < |tried| ==> tried[a] != tried[b]
    ensures WellSent(SendLog(refresher, creds, scripts, tried), TriedCreds(creds, tried),
                     RetriedCreds(refresher, creds, scripts, tried))
    decreases |tried|
  {
    if tried != [] {
      var k := |tried| - 1;
      var j, front := tried[k], tried[..k];
      SendsAreWellFormed(refresher, creds, scripts, front);
      assert TriedCreds(creds, front) <= TriedCreds(creds, tried);
      assert RetriedCreds(refresher, creds, scripts, front) <= RetriedCreds(refresher, creds, scripts, tried);
      if j < |creds| && k < |scripts| && j < |scripts[k]| {
        assert creds[j] !in TriedCreds(creds, front);
        assert creds[j] in TriedCreds(creds, tried);
        assert Retries(refresher, creds[j], scripts[k][j]) ==>
            creds[j] in RetriedCreds(refresher, creds, scripts, tried);
        AppendSends(SendLog(refresher, creds, scripts, front), refresher, creds[j], scripts[k][j],
                    TriedCreds(creds, front), TriedCreds(creds, tried),
                    RetriedCreds(refresher, creds, scripts, front), RetriedCreds(refresher, creds, scripts, tried));
      }
    }
  }

  lemma DispatchPenalizes(refresher: bool, entries: seq<EntryState>, scripts: seq<seq<Script>>)
    requires Square(scripts, |entries|)
    ensures LossesPenalized(Attempts(refresher, entries, scripts), |entries|)
  {
    var attempts := Attempts(refresher, entries, scripts);
    forall k, j: nat | 0 <= k < |scripts| && j < |entries|
      ensures Met(attempts[k], j) == DispatchAttempt(refresher, entries[j].cred, scripts[k][j])
    {}
  }

  /**
   One dispatch over the whole pool, whether or not the client stays, sends with no credential more
   than twice, and the second time only directly after the first met a 401 and a forced refresh
   ran; only eligible credentials are used at all.
   */
  lemma AtMostTwoSends(p: PoolState, now: nat, base: int, accepts: set<Credential>, refresher: bool,
                       scripts: seq<seq<Script>>)
    requires WellFormed(p) && base > 0 && Square(scripts, |p.entries|)
    requires forall a, b :: 0 <= a < b < |p.entries| ==> p.entries[a].cred != p.entries[b].cred
    ensures var t := Whole(p, now, base, accepts, Attempts(refresher, p.entries, scripts));
            var log := SendLog(refresher, Creds(p.entries), scripts, t.tried);
            && (forall a, b, c :: 0 <= a < b < c < |log| ==> !(log[a].cred == log[b].cred == log[c].cred))
            && (forall a, b :: 0 <= a < b < |log| && log[a].cred == log[b].cred ==>
                  && b == a + 1 && !log[a].retry && log[b].retry
                  && log[b].cred in RetriedCreds(refresher, Creds(p.entries), scripts, t.tried))
            && (forall a: nat :: a < |log| ==> log[a].cred in accepts)
  {
    hide SendLog, Rotate, LossesPenalized;
    var attempts := Attempts(refresher, p.entries, scripts);
    DispatchPenalizes(refresher, p.entries, scripts);
    TriedAreFirstCandidates(p, now, base, accepts, attempts, None, NoCredentials);
    CandidatesAreTheEligible(p, now, accepts);
    hide Candidates;
    var c := Candidates(p, now, accepts);
    var t := Whole(p, now, base, accepts, attempts);
    SendsAreWellFormed(refresher, Creds(p.entries), scripts, t.tried);
    forall k: nat | k < |t.tried| ensures t.tried[k] < |p.entries| && p.entries[t.tried[k]].cred in accepts {
      assert t.tried[k] == c[k] && c[k] in c;
    }
  }

  lemma SendLogStep(refresher: bool, creds: seq<Credential>, scripts: seq<seq<Script>>, tried: seq<nat>, j: nat)
    requires |tried| < |scripts| && j < |creds| && j < |scripts[|tried|]|
    ensures SendLog(refresher, creds, scripts, tried + [j]) ==
            SendLog(refresher, creds, scripts, tried) + SendsOf(refresher, creds[j], scripts[|tried|][j])
  {
    assert (tried + [j])[..|tried|] == tried;
  }

  lemma NothingSent(refresher: bool, creds: seq<Credential>, scripts: seq<seq<Script>>)
    ensures SendLog(refresher, creds, scripts, []) == []
  {}

  // ---------------------------------------------------------------- what is sent, and which answer is served

  /** The block of sends an attempt makes, inside the log of the whole call. */
  lemma {:induction false} SentInAttempt(refresher: bool, creds: seq<Credential>, scripts: seq<seq<Script>>,
                                         tried: seq<nat>, k: nat, retry: bool)
    requires Square(scripts, |creds|) && |tried| <= |scripts| && k < |tried|
    requires forall a: nat :: a < |tried| ==> tried[a] < |creds|
    requires forall a, b :: 0 <= a < b < |creds| ==> creds[a] != creds[b]
    requires NoneTwice(tried)
    ensures var send := Send(creds[tried[k]], retry);
            send in SendLog(refresher, creds, scripts, tried) <==>
            send in SendsOf(refresher, creds[tried[k]], scripts[k][tried[k]])
    decreases |tried|
  {
    var n := |tried| - 1;
    var front, send := tried[..n], Send(creds[tried[k]], retry);
    assert SendLog(refresher, creds, scripts, tried) ==
           SendLog(refresher, creds, scripts, front) + SendsOf(refresher, creds[tried[n]], scripts[n][tried[n]]);
    if k < n {
      SentInAttempt(refresher, creds, scripts, front, k, retry);
      assert creds[tried[n]] != creds[tried[k]];
    } else {
      NotSentBefore(refresher, creds, scripts, front, send);
    }
  }

  lemma {:induction false} NotSentBefore(refresher: bool, creds: seq<Credential>, scripts: seq<seq<Script>>,
                                         tried: seq<nat>, send: Send)
    requires forall a: nat :: a < |tried| && tried[a] < |creds| ==> creds[tried[a]] != send.cred
    ensures send !in SendLog(refresher, creds, scripts, tried)
    decreases |tried|
  {
    if tried != [] { NotSentBefore(refresher, creds, scripts, tried[..|tried| - 1], send); }
  }

  /** What is refreshed, presented and sent again in one attempt, in terms of the answers to it. */
  ghost predicate SendsFor(log: seq<Send>, refresher: bool, cred: Credential, s: Script) {
    var ready := !(cred.kind == OAuth && s.nearExpiry && refresher && s.proactive == RefreshFailed);
    && (Send(cred, false) in log <==> ready)
    && (Send(cred, true) in log <==>
          ready && s.first == Response(401) && refresher && cred.kind == OAuth && s.forced == Refreshed)
  }

  /** The answer to the latest send of an attempt that made one. */
  function LatestAnswer(log: seq<Send>, cred: Credential, s: Script): SendOutcome {
    if Send(cred, true) in log then s.second else s.first
  }

  /** How a dispatch ends with its last attempt, `more` attempts being left or not. */
  ghost predicate Concluded(outcome: Outcome, log: seq<Send>, cred: Credential, s: Script, more: bool) {
    var sent := Send(cred, false) in log;
    var answer := LatestAnswer(log, cred, s);
    && (outcome.Served? <==> sent && Answers(answer))
    && (outcome.Served? ==>
          && outcome == Served(cred, answer.status)
          && log != [] && log[|log| - 1] == Send(cred, Send(cred, true) in log))
    && (outcome.Failed? ==>
          && outcome.lastCred == Some(cred)
          && outcome.reason == if sent && s.first == TransportError(true) then Canceled
                               else if more then NoneAvailable
                               else if !sent then RefreshRejected
                               else if s.first.TransportError? then Transport
                               else CredentialStatus(s.first.status))
  }

  /** An attempt after which the call goes on: what was sent, if anything, was not accepted. */
  ghost predicate TurnedDown(log: seq<Send>, cred: Credential, s: Script) {
    Send(cred, false) in log ==> !Answers(LatestAnswer(log, cred, s)) && s.first != TransportError(true)
  }

  /** One attempt, by what it sent and what came back. */
  lemma AttemptSends(log: seq<Send>, refresher: bool, cred: Credential, s: Script, outcome: Outcome, more: bool)
    requires forall retry :: Send(cred, retry) in log <==> Send(cred, retry) in SendsOf(refresher, cred, s)
    ensures SendsFor(log, refresher, cred, s)
    ensures DispatchAttempt(refresher, cred, s).Lost? ==> TurnedDown(log, cred, s)
    ensures EndedBy(outcome, cred, DispatchAttempt(refresher, cred, s), more) && EndsWithSends(log, refresher, cred, s)
            ==> Concluded(outcome, log, cred, s, more)
  {
    var sends := SendsOf(refresher, cred, s);
    assert Send(cred, false) in sends <==> sends != [];
    assert Send(cred, true) in sends <==> |sends| == 2;
  }

  ghost predicate EndsWithSends(log: seq<Send>, refresher: bool, cred: Credential, s: Script) {
    var sends := SendsOf(refresher, cred, s);
    sends != [] ==> log != [] && log[|log| - 1] == sends[|sends| - 1]
  }

  lemma LogEndsWithSends(refresher: bool, creds: seq<Credential>, scripts: seq<seq<Script>>, tried: seq<nat>, j: nat)
    requires |tried| < |scripts| && j < |creds| && j < |scripts[|tried|]|
    ensures EndsWithSends(SendLog(refresher, creds, scripts, tried + [j]), refresher, creds[j], scripts[|tried|][j])
  {
    hide SendLog, SendsOf;
    SendLogStep(refresher, creds, scripts, tried, j);
  }

  lemma AttemptIs(refresher: bool, entries: seq<EntryState>, scripts: seq<seq<Script>>, k: nat, j: nat)
    requires Square(scripts, |entries|) && k < |scripts| && j < |entries|
    ensures Met(Attempts(refresher, entries, scripts)[k], j) ==
            DispatchAttempt(refresher, entries[j].cred, scripts[k][j])
  {}

  /** The attempts of a call that tried the given entries, none twice. */
  lemma AttemptsSend(entries: seq<EntryState>, refresher: bool, scripts: seq<seq<Script>>, tried: seq<nat>, k: nat,
                     outcome: Outcome)
    requires Square(scripts, |entries|) && k < |tried| <= |scripts|
    requires forall a: nat :: a < |tried| ==> tried[a] < |entries|
    requires forall a, b :: 0 <= a < b < |entries| ==> entries[a].cred != entries[b].cred
    requires NoneTwice(tried)
    ensures var log := SendLog(refresher, Creds(entries), scripts, tried);
            var (j, met) := (tried[k], Met(Attempts(refresher, entries, scripts)[k], tried[k]));
            && SendsFor(log, refresher, entries[j].cred, scripts[k][j])
            && (met.Lost? ==> TurnedDown(log, entries[j].cred, scripts[k][j]))
            && (k == |tried| - 1 && EndedBy(outcome, entries[j].cred, met, |tried| < |scripts|) ==>
                  Concluded(outcome, log, entries[j].cred, scripts[k][j], |tried| < |scripts|))
  {
    hide SendLog, SendsOf, DispatchAttempt, SendsFor, TurnedDown, EndedBy, Concluded, Attempts, Met, EndsWithSends;
    var (creds, j) := (Creds(entries), tried[k]);
    var (log, cred) := (SendLog(refresher, creds, scripts, tried), entries[j].cred);
    SentInAttempt(refresher, creds, scripts, tried, k, false);
    SentInAttempt(refresher, creds, scripts, tried, k, true);
    AttemptIs(refresher, entries, scripts, k, j);
    forall retry ensures Send(cred, retry) in log <==> Send(cred, retry) in SendsOf(refresher, cred, scripts[k][j]) {}
    AttemptSends(log, refresher, cred, scripts[k][j], outcome, |tried| < |scripts|);
    if k == |tried| - 1 {
      assert tried == tried[..k] + [j];
      LogEndsWithSends(refresher, creds, scripts, tried[..k], j);
    }
  }

  /**
   The first send of an attempt is made unless a refresh before it fails, the second exactly after a
   401 and a forced refresh that ran. All attempts but the last are turned down. The last one's latest
   answer is served if it is accepted, and it is the answer to the last send of the call; otherwise the
   outcome tells what went wrong.
   */
  ghost predicate Explained(entries: seq<EntryState>, refresher: bool, scripts: seq<seq<Script>>, t: Trace)
    requires Square(scripts, |entries|)
  {
    var (n, log) := (|t.tried|, SendLog(refresher, Creds(entries), scripts, t.tried));
    && n <= |scripts|
    && (forall k: nat :: k < n ==> t.tried[k] < |entries|)
    && (forall k: nat :: k < n ==> SendsFor(log, refresher, entries[t.tried[k]].cred, scripts[k][t.tried[k]]))
    && (forall k: nat :: k < n - 1 ==> TurnedDown(log, entries[t.tried[k]].cred, scripts[k][t.tried[k]]))
    && (n == 0 ==> log == [])
    && (n > 0 ==> Concluded(t.outcome, log, entries[t.tried[n - 1]].cred, scripts[n - 1][t.tried[n - 1]],
                            n < |scripts|))
  }

  predicate NoneTwice(tried: seq<nat>) { forall a, b :: 0 <= a < b < |tried| ==> tried[a] != tried[b] }

  /** What a dispatch sends, and which answer it returns; nothing sent, nothing served. */
  lemma DispatchAnswers(p: PoolState, now: nat, base: int, accepts: set<Credential>, refresher: bool,
                        scripts: seq<seq<Script>>)
    requires WellFormed(p) && base > 0 && Square(scripts, |p.entries|)
    requires forall a, b :: 0 <= a < b < |p.entries| ==> p.entries[a].cred != p.entries[b].cred
    ensures var t := Whole(p, now, base, accepts, Attempts(refresher, p.entries, scripts));
            && Explained(p.entries, refresher, scripts, t)
            && (t.tried == [] ==> t.outcome == Failed(None, NoneAvailable))
  {
    var attempts := Attempts(refresher, p.entries, scripts);
    LastAttemptDecides(p, now, base, accepts, attempts, None, NoCredentials);
    TriesEachOnce(p, now, base, accepts, refresher, scripts);
    hide Rotate, Attempts, Settled, Explained, NoneTwice;
    AttemptsTell(p.entries, refresher, scripts, Whole(p, now, base, accepts, attempts));
  }

  lemma TriesEachOnce(p: PoolState, now: nat, base: int, accepts: set<Credential>, refresher: bool,
                      scripts: seq<seq<Script>>)
    requires WellFormed(p) && base > 0 && Square(scripts, |p.entries|)
    ensures var t := Whole(p, now, base, accepts, Attempts(refresher, p.entries, scripts));
            NoneTwice(t.tried)
  {
    var attempts := Attempts(refresher, p.entries, scripts);
    DispatchPenalizes(refresher, p.entries, scripts);
    hide Rotate, LossesPenalized, Eligible, Attempts, Met;
    TriedAreFirstCandidates(p, now, base, accepts, attempts, None, NoCredentials);
    CandidatesAreTheEligible(p, now, accepts);
    hide Candidates;
    var (t, c) := (Whole(p, now, base, accepts, attempts), Candidates(p, now, accepts));
    forall a, b | 0 <= a < b < |t.tried| ensures t.tried[a] != t.tried[b] {
      assert t.tried[a] == c[a] && t.tried[b] == c[b];
    }
  }

  lemma AttemptsTell(entries: seq<EntryState>, refresher: bool, scripts: seq<seq<Script>>, t: Trace)
    requires Square(scripts, |entries|) && Settled(entries, Attempts(refresher, entries, scripts), t)
    requires forall a, b :: 0 <= a < b < |entries| ==> entries[a].cred != entries[b].cred
    requires NoneTwice(t.tried)
    ensures Explained(entries, refresher, scripts, t)
  {
    hide SendLog, Attempts, SendsFor, TurnedDown, EndedBy, Concluded, Met, NoneTwice;
    var log := SendLog(refresher, Creds(entries), scripts, t.tried);
    forall k: nat | k < |t.tried|
      ensures SendsFor(log, refresher, entries[t.tried[k]].cred, scripts[k][t.tried[k]])
      ensures k < |t.tried| - 1 ==> TurnedDown(log, entries[t.tried[k]].cred, scripts[k][t.tried[k]])
    {
      AttemptsSend(entries, refresher, scripts, t.tried, k, t.outcome);
    }
    NothingSent(refresher, Creds(entries), scripts);
    if t.tried != [] { AttemptsSend(entries, refresher, scripts, t.tried, |t.tried| - 1, t.outcome); }
  }

  method Dispatch(store: Store, now: nat, cooldown: int, accepts: set<Credential>, refresher: bool,
                  scripts: seq<seq<Script>>)
    returns (outcome: Outcome, tried: seq<nat>, sends: seq<Send>)
    requires store.Valid() && Square(scripts, |store.entries|)
    modifies store`idx, store.entries
    ensures store.Valid()
    ensures Trace(store.State(), tried, outcome) ==
            Whole(old(store.State()), now, cooldown, accepts, Attempts(refresher, old(store.State()).entries, scripts))
    ensures sends == SendLog(refresher, Creds(old(store.State()).entries), scripts, tried)
  {
    hide Next, PenalizeAt, RecoverAt, Store.Valid, Store.State, SendLog, Rotate, Whole, Underway, WellFormed;
    ghost var p0 := store.State();
    ghost var creds := Creds(p0.entries);
    ghost var attempts := Attempts(refresher, p0.entries, scripts);
    ghost var whole := Whole(p0, now, cooldown, accepts, attempts);
    var lastErr := NoCredentials;
    var lastCred := None;
    tried, sends := [], [];
    var i, n := 0, |store.entries|;
    UnderwayStarts(whole, p0, now, cooldown, accepts, attempts);
    NothingSent(refresher, creds, scripts);
    while i < n
      invariant 0 <= i <= n && |tried| == i && store.Valid()
      invariant Underway(whole, tried, store.State(), now, cooldown, accepts, attempts, i, lastCred, lastErr)
      invariant sends == SendLog(refresher, creds, scripts, tried)
    {
      Turn(whole, tried, store.State(), now, cooldown, accepts, attempts, i, lastCred, lastErr);
      var got := store.NextOf(now, accepts);
      if got == None {
        return Failed(lastCred, NoneAvailable), tried, sends;
      }
      var cred := store.entries[got.value].cred;
      lastCred := Some(cred);
      SendLogStep(refresher, creds, scripts, tried, got.value);
      assert Met(attempts[i], got.value) == DispatchAttempt(refresher, cred, scripts[i][got.value]);
      tried := tried + [got.value];
      var s := scripts[i][got.value];
      i := i + 1;
      // Proactive refresh if the OAuth token is near expiry.
      if NeedsRefresh(cred, s) {
        if RefreshCred(refresher, cred, s.proactive) == RefreshFailed {
          var _, _, _ := store.PenalizeDetail(cred, cooldown, now);
          lastErr := RefreshRejected;
          continue;
        }
      }
      var resp := s.first;
      sends := sends + [Send(cred, false)];
      if resp.TransportError? {
        if resp.canceled {
          return Failed(lastCred, Canceled), tried, sends;
        }
        lastErr := Transport;
        var _, _, _ := store.PenalizeDetail(cred, cooldown, now);
        continue;
      }
      if IsCredFailure(resp.status) {
        // Only a refresh that ran earns the second send.
        if resp.status == 401 && cred.kind == OAuth && refresher {
          if RefreshCred(refresher, cred, s.forced) == Refreshed {
            var resp2 := s.second;
            sends := sends + [Send(cred, true)];
            if Accepted(resp2) {
              store.MarkSuccess(cred);
              return Served(cred, resp2.status), tried, sends;
            }
          }
        }
        var _, _, _ := store.PenalizeDetail(cred, cooldown, now);
        lastErr := CredentialStatus(resp.status);
        continue;
      }
      store.MarkSuccess(cred);
      return Served(cred, resp.status), tried, sends;
    }
    UnderwayEnds(whole, tried, store.State(), now, cooldown, accepts, attempts, lastCred, lastErr);
    return Failed(lastCred, lastErr), tried, sends;
  }
}
