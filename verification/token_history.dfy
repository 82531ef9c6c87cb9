/**
 What a run of refreshes leaves behind, told by the answers of the upstream alone: the tokens the
 credential holds, and what every call has returned.
 */
module TokenHistory {
  import opened Wrappers
  import opened TokenRefresh

  /** The token sets the upstream handed out, in order. */
  function Answers(steps: seq<Step>): seq<Tokens> {
    if steps == [] then []
    else
      var (before, step) := (Answers(steps[..|steps| - 1]), steps[|steps| - 1]);
      if step.Answer? && step.reply.Some? then before + [step.reply.value] else before
  }

  lemma AnswersAfter(steps: seq<Step>, step: Step)
    ensures Answers(steps + [step]) ==
            Answers(steps) + if step.Answer? && step.reply.Some? then [step.reply.value] else []
  {
    assert (steps + [step])[..|steps|] == steps;
  }

  /** A credential that has taken over these answers, one after another. */
  ghost predicate Holds(c: Cred, before: Cred, answers: seq<Tokens>) {
    && c.oauth == before.oauth
    && c.gen == before.gen + |answers|
    && c.access == (if answers == [] then before.access else answers[|answers| - 1].access)
    && c.expiresAt == (if answers == [] then before.expiresAt else answers[|answers| - 1].expiresAt)
    && HoldsRefresh(c.refresh, before.refresh, answers)
  }

  /** The last refresh token that is not empty; the first one as long as there is none. */
  ghost predicate HoldsRefresh(token: Token, before: Token, answers: seq<Tokens>) {
    || (token == before && forall k :: 0 <= k < |answers| ==> answers[k].refresh == "")
    || exists k :: 0 <= k < |answers| && answers[k].refresh == token && LastNamed(answers, k)
  }

  ghost predicate LastNamed(answers: seq<Tokens>, k: int) {
    0 <= k < |answers| && answers[k].refresh != "" && forall j :: k < j < |answers| ==> answers[j].refresh == ""
  }

  /** One answer stored: the credential takes over all of it but an empty refresh token. */
  lemma StoredAnswer(s: State, id: nat)
    requires Enabled(s, Store(id))
    ensures var (tok, c, c') := (s.callers[id].answer, s.cred, Apply(s, Store(id)).cred);
            && (c'.access, c'.expiresAt, c'.oauth, c'.gen) == (tok.access, tok.expiresAt, c.oauth, c.gen + 1)
            && c'.refresh == if tok.refresh == "" then c.refresh else tok.refresh
  {}

  lemma HoldsMore(c: Cred, before: Cred, answers: seq<Tokens>, tok: Tokens, c': Cred)
    requires Holds(c, before, answers)
    requires c' == Cred(c.oauth, tok.access, if tok.refresh == "" then c.refresh else tok.refresh, tok.expiresAt,
                        c.gen + 1)
    ensures Holds(c', before, answers + [tok])
  {
    if tok.refresh != "" {
      assert LastNamed(answers + [tok], |answers|) && (answers + [tok])[|answers|].refresh == tok.refresh;
    } else if k :| 0 <= k < |answers| && answers[k].refresh == c.refresh && LastNamed(answers, k) {
      assert LastNamed(answers + [tok], k) && (answers + [tok])[k].refresh == c.refresh;
    }
  }

  /** What a call at this point has been answered. */
  ghost predicate Told(id: nat, pc: PC, done: seq<Step>) {
    match pc
    case Storing(_, _, tok) => Answer(id, Some(tok)) in done
    case Unlocking(_, outcome) => Returns(id, outcome, done)
    case Returned(_, outcome) => Returns(id, outcome, done)
    case _ => NotAnswered(id, done)
  }

  /** `Ran` and `Rejected` tell the upstream's answer to this call; the others that it was never asked. */
  ghost predicate Returns(id: nat, outcome: Outcome, done: seq<Step>) {
    match outcome
    case Ran(tok) => Answer(id, Some(tok)) in done
    case Rejected => Answer(id, None) in done
    case Changed => NotAnswered(id, done)
    case StillFresh => NotAnswered(id, done)
  }

  ghost predicate NotAnswered(id: nat, done: seq<Step>) { forall reply :: Answer(id, reply) !in done }

  /** The state after the steps `done` from `before`. An answer on its way to be stored is still to come. */
  ghost predicate History(before: State, done: seq<Step>, s: State) {
    && (forall id: nat :: id in s.callers ==> Told(id, s.callers[id], done))
    && (forall id: nat :: id !in s.callers ==> NotAnswered(id, done))
    && var answers := Answers(done);
       if Unstored(s) then
         && answers != [] && answers[|answers| - 1] == s.callers[s.lock.value].answer
         && Holds(s.cred, before.cred, answers[..|answers| - 1])
       else Holds(s.cred, before.cred, answers)
  }

  lemma StepTells(before: State, done: seq<Step>, s: State, step: Step, gen0: nat, id: nat)
    requires History(before, done, s) && Inv(s, gen0) && Enabled(s, step)
    ensures id in Apply(s, step).callers ==> Told(id, Apply(s, step).callers[id], done + [step])
    ensures id !in Apply(s, step).callers ==> NotAnswered(id, done + [step])
  {
    hide Holds, Inv;
    if id in s.callers { assert Told(id, s.callers[id], done); }
  }

  lemma StepHolds(before: State, done: seq<Step>, s: State, step: Step, gen0: nat)
    requires History(before, done, s) && Inv(s, gen0) && Enabled(s, step)
    ensures var (s', answers) := (Apply(s, step), Answers(done + [step]));
            if Unstored(s') then
              && answers != [] && answers[|answers| - 1] == s'.callers[s'.lock.value].answer
              && Holds(s'.cred, before.cred, answers[..|answers| - 1])
            else Holds(s'.cred, before.cred, answers)
  {
    AnswersAfter(done, step);
    hide Holds, Told, Answers;
    if !step.Call? { assert Between(step.id, s.callers[step.id], s); }
    if s.lock.Some? { assert Between(s.lock.value, s.callers[s.lock.value], s); }
    var answers := Answers(done);
    if step.Store? {
      StoredAnswer(s, step.id);
      var front, tok := answers[..|answers| - 1], answers[|answers| - 1];
      assert answers == front + [tok];
      HoldsMore(s.cred, before.cred, front, tok, Apply(s, step).cred);
    } else if step.Answer? && step.reply.Some? {
      assert (answers + [step.reply.value])[..|answers|] == answers;
    }
    assert answers + [] == answers;
  }

  lemma StepKeepsHistory(before: State, done: seq<Step>, s: State, step: Step, gen0: nat)
    requires History(before, done, s) && Inv(s, gen0) && Enabled(s, step)
    ensures History(before, done + [step], Apply(s, step))
  {
    StepHolds(before, done, s, step, gen0);
    forall id: nat
      ensures id in Apply(s, step).callers ==> Told(id, Apply(s, step).callers[id], done + [step])
      ensures id !in Apply(s, step).callers ==> NotAnswered(id, done + [step])
    {
      StepTells(before, done, s, step, gen0, id);
    }
    hide Told, NotAnswered, Holds, Inv, Apply, Enabled, Unstored, Answers;
  }

  lemma {:induction false} HistoryHolds(before: State, done: seq<Step>, s: State, steps: seq<Step>, gen0: nat)
    requires History(before, done, s) && Inv(s, gen0) && Possible(s, steps)
    ensures History(before, done + steps, Run(s, steps))
    decreases |steps|
  {
    hide History, Inv, Apply, Enabled;
    if steps == [] {
      assert done + [] == done;
    } else {
      var (step, rest) := (steps[0], steps[1..]);
      StepKeepsInv(s, step, gen0);
      StepKeepsHistory(before, done, s, step, gen0);
      HistoryHolds(before, done + [step], Apply(s, step), rest, gen0);
      assert done + [step] + rest == done + steps;
    }
  }

  /**
   After any interleaving of whole calls, and whenever the lock is free, the credential holds the
   access token and expiry of the last successful answer and the last refresh token that came, and every
   call that has returned tells what the upstream answered to it, or that it was not asked.
   */
  lemma RunsLeaveLastAnswer(s: State, steps: seq<Step>)
    requires Init(s) && Possible(s, steps)
    ensures var s' := Run(s, steps);
            && (s'.lock == None ==> Holds(s'.cred, s.cred, Answers(steps)))
            && (forall id: nat :: id in s'.callers && s'.callers[id].Returned? ==>
                  Returns(id, s'.callers[id].outcome, steps))
  {
    InitInv(s);
    assert [] + steps == steps;
    HistoryHolds(s, [], s, steps, s.cred.gen);
    var s' := Run(s, steps);
    forall id: nat | id in s'.callers && s'.callers[id].Returned? ensures Returns(id, s'.callers[id].outcome, steps) {
      assert Told(id, s'.callers[id], steps);
    }
  }

  /**
   When a call asks the upstream: it forces, or the OAuth token has an expiry that is no more than the
   skew away. With the lock it then presents the refresh token held, provided that no refresh was stored
   since it captured the generation.
   */
  lemma AsksIff(s: State, id: nat)
    requires id in s.callers
    ensures s.callers[id].Comparing? ==>
              (Apply(s, Compare(id)).callers[id].Deciding? <==> s.callers[id].gen == s.cred.gen)
    ensures s.callers[id].Deciding? ==>
              var args := s.callers[id].args;
              var due := s.cred.oauth && s.cred.expiresAt.Some? && s.cred.expiresAt.value <= args.now + args.skew;
              (Apply(s, Decide(id)).callers[id].Refreshing? <==> args.force || due)
    ensures s.callers[id].Refreshing? ==> Apply(s, Present(id)).callers[id].presented == s.cred.refresh
  {}
}
