/**
 Store.EnsureFresh as a step machine. Any number of callers share one credential; each
 step below is one critical section or one exchange with the upstream, and steps of
 different callers interleave freely.

 The refresh token is single-use (the exchange is section 6 of RFC 6749), so what matters is
 which token is presented when.
 */
module TokenRefresh {
  import opened Wrappers

  type Token = string

  /** `None` is the zero expiry: unknown, never refreshed proactively. */
  datatype Tokens = Tokens(access: Token, refresh: Token, expiresAt: Option<int>)

  datatype Cred = Cred(oauth: bool, access: Token, refresh: Token, expiresAt: Option<int>, gen: nat)

  datatype Args = Args(force: bool, now: int, skew: int)

  /** What a call returned. `Changed` and `StillFresh` are the two ways of doing nothing. */
  datatype Outcome = Changed | StillFresh | Ran(tokens: Tokens) | Rejected

  datatype PC =
    | Entered(args: Args)
    | Waiting(args: Args, gen: nat)                      // generation captured, queueing for the lock
    | Comparing(args: Args, gen: nat)                    // has the lock from here on ...
    | Deciding(args: Args, gen: nat)
    | Refreshing(args: Args, gen: nat)
    | Exchanging(args: Args, gen: nat, presented: Token) // the token is on its way upstream
    | Storing(args: Args, gen: nat, answer: Tokens)
    | Unlocking(gen: nat, outcome: Outcome)              // ... up to here
    | Returned(gen: nat, outcome: Outcome)
  {
    predicate Locked() {
      Comparing? || Deciding? || Refreshing? || Exchanging? || Storing? || Unlocking?
    }

    /** How many more steps the caller takes at most. */
    function Rank(): nat {
      match this
      case Entered(_) => 8
      case Waiting(_, _) => 7
      case Comparing(_, _) => 6
      case Deciding(_, _) => 5
      case Refreshing(_, _) => 4
      case Exchanging(_, _, _) => 3
      case Storing(_, _, _) => 2
      case Unlocking(_, _) => 1
      case Returned(_, _) => 0
    }
  }

  /**
   `issued` are the refresh tokens that ever existed, `spent` those whose exchange
   succeeded, in order, and `starts` the generation each successful refresh started from.
   */
  datatype State = State(
    cred: Cred, lock: Option<nat>, callers: map<nat, PC>,
    issued: set<Token>, spent: seq<Token>, starts: seq<nat>)

  datatype Step =
    | Call(id: nat, args: Args)
    | Capture(id: nat)
    | Lock(id: nat)
    | Compare(id: nat)
    | Decide(id: nat)
    | Present(id: nat)
    | Answer(id: nat, reply: Option<Tokens>)  // None: the upstream refused or failed
    | Store(id: nat)
    | Unlock(id: nat)

  predicate NeedsRefresh(c: Cred, now: int, skew: int) {
    c.oauth && c.expiresAt.Some? && !(now < c.expiresAt.value - skew)
  }

  /** updateOAuth: an empty refresh token in the answer keeps the old one. */
  function UpdateOAuth(c: Cred, tok: Tokens): Cred {
    c.(access := tok.access,
       refresh := if tok.refresh != "" then tok.refresh else c.refresh,
       expiresAt := tok.expiresAt,
       gen := c.gen + 1)
  }

  predicate Enabled(s: State, step: Step) {
    if step.Call? then step.id !in s.callers
    else
      step.id in s.callers &&
      var pc := s.callers[step.id];
      match step
      case Call(_, _) => false
      case Capture(_) => pc.Entered?
      case Lock(_) => pc.Waiting? && s.lock.None?
      case Compare(_) => pc.Comparing?
      case Decide(_) => pc.Deciding?
      case Present(_) => pc.Refreshing?
      case Answer(_, _) => pc.Exchanging?
      case Store(_) => pc.Storing?
      case Unlock(_) => pc.Unlocking?
  }

  function Goto(s: State, id: nat, pc: PC): State { s.(callers := s.callers[id := pc]) }

  function Apply(s: State, step: Step): State
    requires Enabled(s, step)
  {
    match step
    case Call(id, args) => Goto(s, id, Entered(args))
    case Capture(id) =>
      Goto(s, id, Waiting(s.callers[id].args, s.cred.gen))
    case Lock(id) =>
      Goto(s, id, Comparing(s.callers[id].args, s.callers[id].gen)).(lock := Some(id))
    case Compare(id) =>
      var Comparing(args, gen) := s.callers[id];
      Goto(s, id, if s.cred.gen != gen then Unlocking(gen, Changed) else Deciding(args, gen))
    case Decide(id) =>
      var Deciding(args, gen) := s.callers[id];
      Goto(s, id, if !args.force && !NeedsRefresh(s.cred, args.now, args.skew) then Unlocking(gen, StillFresh)
                  else Refreshing(args, gen))
    case Present(id) =>
      var Refreshing(args, gen) := s.callers[id];
      Goto(s, id, Exchanging(args, gen, s.cred.refresh))
    case Answer(id, reply) =>
      var Exchanging(args, gen, presented) := s.callers[id];
      (match reply
       case None => Goto(s, id, Unlocking(gen, Rejected))
       case Some(tok) =>
         Goto(s, id, Storing(args, gen, tok))
           .(issued := s.issued + {tok.refresh}, spent := s.spent + [presented], starts := s.starts + [gen]))
    case Store(id) =>
      var Storing(args, gen, tok) := s.callers[id];
      Goto(s, id, Unlocking(gen, Ran(tok))).(cred := UpdateOAuth(s.cred, tok))
    case Unlock(id) =>
      var Unlocking(gen, outcome) := s.callers[id];
      Goto(s, id, Returned(gen, outcome)).(lock := None)
  }

  ghost predicate Init(s: State) {
    s.lock == None && s.callers == map[] && s.issued == {s.cred.refresh} && s.spent == [] && s.starts == []
  }

  /** `steps` is a possible interleaving from s. */
  predicate Possible(s: State, steps: seq<Step>)
    decreases |steps|
  {
    steps == [] || (Enabled(s, steps[0]) && Possible(Apply(s, steps[0]), steps[1..]))
  }

  function Run(s: State, steps: seq<Step>): State
    requires Possible(s, steps)
    decreases |steps|
  {
    if steps == [] then s else Run(Apply(s, steps[0]), steps[1..])
  }

  // ---------------------------------------------------------------- mutual exclusion and generations

  ghost predicate Between(id: nat, pc: PC, s: State) {
    && (pc.Locked() <==> s.lock == Some(id))
    && (pc.Waiting? || pc.Comparing? ==> pc.gen <= s.cred.gen)
    && (pc.Deciding? || pc.Refreshing? || pc.Exchanging? || pc.Storing? ==> pc.gen == s.cred.gen)
    && (pc.Exchanging? ==> pc.presented == s.cred.refresh)
    && (pc.Unlocking? || pc.Returned? ==>
          && (pc.outcome.Changed? ==> pc.gen < s.cred.gen)
          && (pc.outcome.Ran? ==> pc.gen < s.cred.gen))
  }

  /** A successful exchange whose result is not stored yet. */
  predicate Unstored(s: State) {
    s.lock.Some? && s.lock.value in s.callers && s.callers[s.lock.value].Storing?
  }

  ghost predicate Inv(s: State, gen0: nat) {
    && (forall id: nat :: id in s.callers ==> Between(id, s.callers[id], s))
    && (s.lock.Some? ==> s.lock.value in s.callers)
    && s.cred.gen + (if Unstored(s) then 1 else 0) == gen0 + |s.starts|
    && |s.spent| == |s.starts|
    && (forall k: nat :: k < |s.starts| ==> s.starts[k] == gen0 + k)
  }

  predicate HoldsLock(s: State, id: nat) { id in s.callers && s.callers[id].Locked() }

  lemma StepKeepsInv(s: State, step: Step, gen0: nat)
    requires Inv(s, gen0) && Enabled(s, step)
    ensures Inv(Apply(s, step), gen0)
  {
    var s' := Apply(s, step);
    assert step.id in s'.callers;
    forall id: nat | id in s'.callers ensures Between(id, s'.callers[id], s') {
      if id != step.id { assert Between(id, s.callers[id], s); }
      if !step.Call? { assert Between(step.id, s.callers[step.id], s); }
    }
  }

  /**
   In every interleaving the generation counts the stored refreshes, and the k-th
   success started from generation gen0 + k: no generation is the start of two. At most one
   caller is between taking the lock and releasing it.
   */
  lemma {:induction false} GenerationsCountSuccesses(s: State, steps: seq<Step>, gen0: nat)
    requires Inv(s, gen0) && Possible(s, steps)
    ensures var s' := Run(s, steps);
            && Inv(s', gen0)
            && (s'.lock == None ==> s'.cred.gen == gen0 + |s'.starts|)
            && (forall a, b :: 0 <= a < b < |s'.starts| ==> s'.starts[a] != s'.starts[b])
            && (forall i: nat, j: nat :: HoldsLock(s', i) && HoldsLock(s', j) ==> i == j)
    decreases |steps|
  {
    if steps != [] {
      StepKeepsInv(s, steps[0], gen0);
      GenerationsCountSuccesses(Apply(s, steps[0]), steps[1..], gen0);
    } else {
      forall i: nat, j: nat | HoldsLock(s, i) && HoldsLock(s, j) ensures i == j {
        assert Between(i, s.callers[i], s) && Between(j, s.callers[j], s);
      }
    }
  }

  lemma InitInv(s: State)
    requires Init(s)
    ensures Inv(s, s.cred.gen)
  {}

  // ---------------------------------------------------------------- tokens

  /** Every answer in the interleaving brings a non-empty refresh token never seen before. */
  predicate Rotating(s: State, steps: seq<Step>)
    requires Possible(s, steps)
    decreases |steps|
  {
    steps == [] ||
    (Fresh(s, steps[0]) && Rotating(Apply(s, steps[0]), steps[1..]))
  }

  predicate Fresh(s: State, step: Step) {
    step.Answer? && step.reply.Some? ==> step.reply.value.refresh != "" && step.reply.value.refresh !in s.issued
  }

  ghost predicate TokenInv(s: State) {
    && (forall k: nat :: k < |s.spent| ==> s.spent[k] in s.issued)
    && (forall a, b :: 0 <= a < b < |s.spent| ==> s.spent[a] != s.spent[b])
    && s.cred.refresh in s.issued
    && (if Unstored(s) then
          var answer := s.callers[s.lock.value].answer;
          && answer.refresh != "" && answer.refresh in s.issued && answer.refresh !in s.spent
        else s.cred.refresh !in s.spent)
  }

  lemma StepKeepsTokenInv(s: State, step: Step, gen0: nat)
    requires Inv(s, gen0) && TokenInv(s) && Enabled(s, step) && Fresh(s, step)
    ensures TokenInv(Apply(s, step))
  {
    if !step.Call? { assert Between(step.id, s.callers[step.id], s); }
    if s.lock.Some? { assert Between(s.lock.value, s.callers[s.lock.value], s); }
  }

  /** A token sent upstream, with what was already spent by then. */
  datatype Presentation = Presentation(token: Token, spentBefore: seq<Token>) {
    predicate Unspent() { token !in spentBefore }
  }

  ghost predicate AllUnspent(shown: seq<Presentation>) {
    forall k: nat :: k < |shown| ==> shown[k].Unspent()
  }

  function Presentations(s: State, steps: seq<Step>): (r: seq<Presentation>)
    requires Possible(s, steps)
    decreases |steps|
  {
    if steps == [] then []
    else
      var later := Presentations(Apply(s, steps[0]), steps[1..]);
      if steps[0].Present? then [Presentation(s.cred.refresh, s.spent)] + later else later
  }

  /**
   With an upstream that rotates refresh tokens, no interleaving presents a token whose
   exchange has already succeeded, and no token is exchanged twice.
   */
  lemma {:induction false} SpentTokensAreNeverPresented(s: State, steps: seq<Step>, gen0: nat)
    requires Inv(s, gen0) && TokenInv(s) && Possible(s, steps) && Rotating(s, steps)
    ensures var shown := Presentations(s, steps);
            && AllUnspent(shown)
            && (forall a, b :: 0 <= a < b < |Run(s, steps).spent| ==> Run(s, steps).spent[a] != Run(s, steps).spent[b])
    decreases |steps|
  {
    if steps != [] {
      var step := steps[0];
      StepKeepsInv(s, step, gen0);
      StepKeepsTokenInv(s, step, gen0);
      SpentTokensAreNeverPresented(Apply(s, step), steps[1..], gen0);
      if step.Present? {
        assert Between(step.id, s.callers[step.id], s) && !Unstored(s);
        assert Presentation(s.cred.refresh, s.spent).Unspent();
      }
    }
  }

  lemma InitTokenInv(s: State)
    requires Init(s)
    ensures TokenInv(s) && Accounted(s)
  {}

  // ---------------------------------------------------------------- exactly when a spent token is presented

  /** The token the credential holds, or will hold once the answer on its way is stored. */
  function Current(s: State): Token {
    if Unstored(s) && s.callers[s.lock.value].answer.refresh != "" then s.callers[s.lock.value].answer.refresh
    else s.cred.refresh
  }

  /** Every token that ever existed has been spent or is the current one. */
  ghost predicate Accounted(s: State) {
    forall t :: t in s.issued <==> t in s.spent || t == Current(s)
  }

  lemma StepKeepsAccounted(s: State, step: Step, gen0: nat)
    requires Inv(s, gen0) && Accounted(s) && Enabled(s, step) && Fresh(s, step)
    ensures Accounted(Apply(s, step))
  {
    if !step.Call? { assert Between(step.id, s.callers[step.id], s); }
    if s.lock.Some? { assert Between(s.lock.value, s.callers[s.lock.value], s); }
    if step.Answer? && step.reply.Some? {
      var s' := Apply(s, step);
      assert s'.spent == s.spent + [s.cred.refresh];
    }
  }

  /** The current token is spent already, and nobody is about to exchange it. */
  ghost predicate Doomed(s: State) {
    Current(s) in s.spent && forall id: nat :: id in s.callers ==> !s.callers[id].Exchanging?
  }

  /** An answer that brings no new token dooms the credential: no token at all, or any seen before. */
  lemma StaleAnswerDooms(s: State, step: Step, gen0: nat)
    requires Inv(s, gen0) && Accounted(s) && Enabled(s, step) && !Fresh(s, step)
    ensures Doomed(Apply(s, step))
  {
    assert Between(step.id, s.callers[step.id], s);
    var s' := Apply(s, step);
    assert s'.spent == s.spent + [s.cred.refresh] && s'.spent[|s.spent|] == s.cred.refresh;
    forall id: nat | id in s'.callers ensures !s'.callers[id].Exchanging? {
      if id != step.id { assert Between(id, s.callers[id], s); }
    }
    if step.reply.value.refresh != "" && step.reply.value.refresh in s.spent {
      var k :| 0 <= k < |s.spent| && s.spent[k] == step.reply.value.refresh;
      assert s'.spent[k] == step.reply.value.refresh;
    }
  }

  lemma StepKeepsDoomed(s: State, step: Step, gen0: nat)
    requires Inv(s, gen0) && Doomed(s) && Enabled(s, step) && !step.Present?
    ensures Doomed(Apply(s, step))
  {
    if !step.Call? { assert Between(step.id, s.callers[step.id], s); }
    if s.lock.Some? { assert Between(s.lock.value, s.callers[s.lock.value], s); }
  }

  predicate Presents(steps: seq<Step>) { exists k :: 0 <= k < |steps| && steps[k].Present? }

  lemma PresentsLater(steps: seq<Step>)
    requires steps != []
    ensures Presents(steps) <==> steps[0].Present? || Presents(steps[1..])
  {
    if k :| 0 < k < |steps| && steps[k].Present? { assert steps[1..][k - 1].Present?; }
    if k :| 0 <= k < |steps[1..]| && steps[1..][k].Present? { assert steps[k + 1].Present?; }
  }

  /** From there on the next token presented, if any, is a spent one. */
  lemma {:induction false} DoomedPresentsSpent(s: State, steps: seq<Step>, gen0: nat)
    requires Inv(s, gen0) && Doomed(s) && Possible(s, steps)
    ensures AllUnspent(Presentations(s, steps)) <==> !Presents(steps)
    decreases |steps|
  {
    if steps != [] {
      var step := steps[0];
      PresentsLater(steps);
      var later := Presentations(Apply(s, step), steps[1..]);
      StepKeepsInv(s, step, gen0);
      if step.Present? {
        assert Between(step.id, s.callers[step.id], s) && !Unstored(s);
        assert !Presentations(s, steps)[0].Unspent();
      } else {
        StepKeepsDoomed(s, step, gen0);
        DoomedPresentsSpent(Apply(s, step), steps[1..], gen0);
      }
    }
  }

  /** Before every presentation all answers so far brought new tokens. */
  ghost predicate RotatingBefore(s: State, steps: seq<Step>)
    requires Possible(s, steps)
  {
    forall k :: 0 <= k < |steps| && steps[k].Present? ==> PossiblePrefix(s, steps, k) && Rotating(s, steps[..k])
  }

  /** A beginning of an interleaving is one itself. */
  predicate PossiblePrefix(s: State, steps: seq<Step>, k: nat) { k <= |steps| && Possible(s, steps[..k]) }

  lemma {:induction false} PrefixIsPossible(s: State, steps: seq<Step>, k: nat)
    requires Possible(s, steps) && k <= |steps|
    ensures PossiblePrefix(s, steps, k)
    decreases |steps|
  {
    if k > 0 {
      PrefixIsPossible(Apply(s, steps[0]), steps[1..], k - 1);
      assert steps[..k][1..] == steps[1..][..k - 1];
    }
  }

  lemma RotatingPrefix(s: State, steps: seq<Step>, k: nat)
    requires Possible(s, steps) && 0 < k <= |steps|
    ensures PossiblePrefix(s, steps, k) && PossiblePrefix(Apply(s, steps[0]), steps[1..], k - 1)
    ensures Rotating(s, steps[..k]) <==> Fresh(s, steps[0]) && Rotating(Apply(s, steps[0]), steps[1..][..k - 1])
  {
    PrefixIsPossible(s, steps, k);
    PrefixIsPossible(Apply(s, steps[0]), steps[1..], k - 1);
    assert steps[..k][1..] == steps[1..][..k - 1];
  }

  lemma RotatingBeforeLater(s: State, steps: seq<Step>)
    requires Possible(s, steps) && steps != []
    ensures var later := RotatingBefore(Apply(s, steps[0]), steps[1..]);
            RotatingBefore(s, steps) <==> if Fresh(s, steps[0]) then later else !Presents(steps[1..])
  {
    var (s1, rest) := (Apply(s, steps[0]), steps[1..]);
    assert steps[..0] == [];
    forall k | 0 < k < |steps|
      ensures steps[k] == rest[k - 1] && PossiblePrefix(s, steps, k) && PossiblePrefix(s1, rest, k - 1)
      ensures Rotating(s, steps[..k]) <==> Fresh(s, steps[0]) && Rotating(s1, rest[..k - 1])
    {
      RotatingPrefix(s, steps, k);
    }
    if RotatingBefore(s, steps) {
      forall k | 0 <= k < |rest| && rest[k].Present?
        ensures Fresh(s, steps[0]) && PossiblePrefix(s1, rest, k) && Rotating(s1, rest[..k])
      {
        assert steps[k + 1].Present?;
      }
    } else {
      var k :| 0 <= k < |steps| && steps[k].Present? && !(PossiblePrefix(s, steps, k) && Rotating(s, steps[..k]));
      assert k > 0 && rest[k - 1].Present?;
    }
  }

  /**
   When a refresh token is presented only once: in every interleaving no spent token is presented
   exactly when, before each presentation, every answer had brought a token that is neither empty
   nor one seen before.
   */
  lemma {:induction false} PresentedOnceIffRotating(s: State, steps: seq<Step>, gen0: nat)
    requires Inv(s, gen0) && TokenInv(s) && Accounted(s) && Possible(s, steps)
    ensures AllUnspent(Presentations(s, steps)) <==> RotatingBefore(s, steps)
    decreases |steps|
  {
    if steps != [] {
      hide Inv, TokenInv, Accounted, Doomed, RotatingBefore, Rotating, Fresh, Apply, Enabled;
      var (step, s1, rest) := (steps[0], Apply(s, steps[0]), steps[1..]);
      StepKeepsInv(s, step, gen0);
      RotatingBeforeLater(s, steps);
      FirstPresentation(s, steps, gen0);
      if Fresh(s, step) {
        StepKeepsTokenInv(s, step, gen0);
        StepKeepsAccounted(s, step, gen0);
        PresentedOnceIffRotating(s1, rest, gen0);
      } else {
        StaleAnswerDooms(s, step, gen0);
        DoomedPresentsSpent(s1, rest, gen0);
      }
    }
  }

  /** The first step, if it presents a token, presents one that is not spent. */
  lemma FirstPresentation(s: State, steps: seq<Step>, gen0: nat)
    requires Inv(s, gen0) && TokenInv(s) && Possible(s, steps) && steps != []
    ensures AllUnspent(Presentations(s, steps)) <==> AllUnspent(Presentations(Apply(s, steps[0]), steps[1..]))
  {
    var later := Presentations(Apply(s, steps[0]), steps[1..]);
    if steps[0].Present? {
      assert Between(steps[0].id, s.callers[steps[0].id], s) && !Unstored(s);
      var shown := Presentations(s, steps);
      assert shown == [Presentation(s.cred.refresh, s.spent)] + later && shown[0].Unspent();
      assert forall k: nat :: k < |later| ==> later[k] == shown[k + 1];
      assert forall k: nat :: 0 < k < |shown| ==> shown[k] == later[k - 1];
    }
  }

  /** For one exchange: once stored, the credential holds a spent token exactly when the answer brought no new one. */
  lemma StoredTokenIsSpentIff(s: State, exchange: Step, gen0: nat)
    requires Inv(s, gen0) && Accounted(s) && exchange.Answer? && Enabled(s, exchange) && exchange.reply.Some?
    ensures var (s1, token) := (Apply(s, exchange), exchange.reply.value.refresh);
            && Enabled(s1, Store(exchange.id))
            && (Apply(s1, Store(exchange.id)).cred.refresh in s1.spent <==> token == "" || token in s.issued)
  {
    assert Between(exchange.id, s.callers[exchange.id], s);
    var (s1, token) := (Apply(s, exchange), exchange.reply.value.refresh);
    assert s1.spent == s.spent + [s.cred.refresh] && s1.spent[|s.spent|] == s.cred.refresh;
    if token in s.spent {
      var k :| 0 <= k < |s.spent| && s.spent[k] == token;
      assert s1.spent[k] == token;
    }
  }

  /** In particular after an answer without a refresh token, whatever tokens were issued before. */
  lemma EmptyAnswerKeepsSpentToken(s: State, exchange: Step, gen0: nat)
    requires Inv(s, gen0) && exchange.Answer? && Enabled(s, exchange)
    requires exchange.reply.Some? && exchange.reply.value.refresh == ""
    ensures var s1 := Apply(s, exchange);
            Enabled(s1, Store(exchange.id)) &&
            var s2 := Apply(s1, Store(exchange.id));
            s2.cred.refresh in s2.spent
  {
    assert Between(exchange.id, s.callers[exchange.id], s);
    var s1 := Apply(s, exchange);
    var s2 := Apply(s1, Store(exchange.id));
    assert s2.spent[|s2.spent| - 1] == s2.cred.refresh;
  }

  /** A forced call that gets through to the upstream, from entering to presenting the token. */
  function Presenting(id: nat, args: Args): seq<Step> {
    [Call(id, args), Capture(id), Lock(id), Compare(id), Decide(id), Present(id)]
  }

  /** The state of such a call when its token is on the way. */
  function Presented(s: State, id: nat, args: Args): State {
    s.(lock := Some(id), callers := s.callers[id := Exchanging(args, s.cred.gen, s.cred.refresh)])
  }

  lemma EntersLock(s: State, id: nat, args: Args) returns (s1: State, s2: State, s3: State)
    requires s.lock.None? && id !in s.callers
    ensures Enabled(s, Call(id, args)) && Apply(s, Call(id, args)) == s1
    ensures Enabled(s1, Capture(id)) && Apply(s1, Capture(id)) == s2
    ensures Enabled(s2, Lock(id)) && Apply(s2, Lock(id)) == s3
    ensures s3 == s.(lock := Some(id), callers := s.callers[id := Comparing(args, s.cred.gen)])
  {
    s1 := Goto(s, id, Entered(args));
    s2 := Goto(s1, id, Waiting(args, s.cred.gen));
    s3 := Goto(s2, id, Comparing(args, s.cred.gen)).(lock := Some(id));
  }

  lemma ForcesRefresh(s: State, s3: State, id: nat, args: Args) returns (s4: State, s5: State)
    requires args.force && s3 == s.(lock := Some(id), callers := s.callers[id := Comparing(args, s.cred.gen)])
    ensures Enabled(s3, Compare(id)) && Apply(s3, Compare(id)) == s4
    ensures Enabled(s4, Decide(id)) && Apply(s4, Decide(id)) == s5
    ensures Enabled(s5, Present(id)) && Apply(s5, Present(id)) == Presented(s, id, args)
    ensures s5.cred == s.cred && s5.spent == s.spent
  {
    s4 := Goto(s3, id, Deciding(args, s.cred.gen));
    s5 := Goto(s4, id, Refreshing(args, s.cred.gen));
    assert Apply(s5, Present(id)).callers == Presented(s, id, args).callers;
  }

  lemma PresentingRuns(s: State, id: nat, args: Args, rest: seq<Step>)
    requires s.lock.None? && id !in s.callers && args.force
    ensures var s' := Presented(s, id, args);
            && (Possible(s, Presenting(id, args) + rest) <==> Possible(s', rest))
            && (Possible(s', rest) ==> Presentations(s, Presenting(id, args) + rest) ==
                                       [Presentation(s.cred.refresh, s.spent)] + Presentations(s', rest))
  {
    hide Apply, Enabled, Possible, Presentations, Presented;
    var s1, s2, s3 := EntersLock(s, id, args);
    var s4, s5 := ForcesRefresh(s, s3, id, args);
    var p5 := [Present(id)] + rest;
    OneStep(s5, Present(id), rest);
    var p4 := [Decide(id)] + p5;
    OneStep(s4, Decide(id), p5);
    var p3 := [Compare(id)] + p4;
    OneStep(s3, Compare(id), p4);
    var p2 := [Lock(id)] + p3;
    OneStep(s2, Lock(id), p3);
    var p1 := [Capture(id)] + p2;
    OneStep(s1, Capture(id), p2);
    OneStep(s, Call(id, args), p1);
    assert Presenting(id, args) + rest == [Call(id, args)] + p1;
  }

  lemma OneStep(s: State, step: Step, rest: seq<Step>)
    ensures Possible(s, [step] + rest) <==> Enabled(s, step) && Possible(Apply(s, step), rest)
    ensures Possible(s, [step] + rest) ==>
              var later := Presentations(Apply(s, step), rest);
              Presentations(s, [step] + rest) ==
              if step.Present? then [Presentation(s.cred.refresh, s.spent)] + later else later
  {
    assert ([step] + rest)[1..] == rest;
  }

  lemma NothingToDo(s: State)
    ensures Possible(s, []) && Presentations(s, []) == []
  {}

  /** The rest of that first call: the stale answer is stored and the lock given back. */
  lemma StaleExchange(s: State, first: Args, tok: Tokens) returns (s2: State, s3: State, s4: State)
    requires Init(s) && (tok.refresh == "" || tok.refresh == s.cred.refresh)
    ensures var s1 := Presented(s, 0, first);
            && Enabled(s1, Answer(0, Some(tok))) && Apply(s1, Answer(0, Some(tok))) == s2
            && Enabled(s2, Store(0)) && Apply(s2, Store(0)) == s3
            && Enabled(s3, Unlock(0)) && Apply(s3, Unlock(0)) == s4
    ensures s4.lock.None? && 1 !in s4.callers && s4.spent == [s.cred.refresh] && s4.cred.refresh == s.cred.refresh
  {
    s2 := Apply(Presented(s, 0, first), Answer(0, Some(tok)));
    s3 := Apply(s2, Store(0));
    s4 := Apply(s3, Unlock(0));
  }

  /** From the stale answer on: it is stored, and the next forced call presents the spent token. */
  lemma StoredAndAgain(s: State, first: Args, second: Args, tok: Tokens) returns (rest: seq<Step>)
    requires Init(s) && second.force && (tok.refresh == "" || tok.refresh == s.cred.refresh)
    ensures Possible(Presented(s, 0, first), rest)
    ensures Presentations(Presented(s, 0, first), rest) == [Presentation(s.cred.refresh, [s.cred.refresh])]
  {
    var again := Presenting(1, second) + [];
    var s2, s3, s4 := StaleExchange(s, first, tok);
    hide Apply, Enabled, Possible, Presentations, Presented, Presenting, Init;
    PresentingRuns(s4, 1, second, []);
    NothingToDo(Presented(s4, 1, second));
    OneStep(s3, Unlock(0), again);
    OneStep(s2, Store(0), [Unlock(0)] + again);
    var store := [Store(0)] + ([Unlock(0)] + again);
    OneStep(Presented(s, 0, first), Answer(0, Some(tok)), store);
    rest := [Answer(0, Some(tok))] + store;
  }

  /**
   The two inputs that make it fail, from a fresh start: the first answer brings no refresh token,
   or repeats the one just presented. The next forced call then presents that spent token.
   */
  lemma StaleAnswerIsPresentedAgain(s: State, first: Args, second: Args, tok: Tokens) returns (steps: seq<Step>)
    requires Init(s) && first.force && second.force && (tok.refresh == "" || tok.refresh == s.cred.refresh)
    ensures Possible(s, steps)
    ensures Presentations(s, steps) ==
              [Presentation(s.cred.refresh, []), Presentation(s.cred.refresh, [s.cred.refresh])]
    ensures !AllUnspent(Presentations(s, steps))
  {
    var rest := StoredAndAgain(s, first, second, tok);
    steps := Presenting(0, first) + rest;
    hide Apply, Enabled, Possible, Presentations, Presented, Presenting;
    PresentingRuns(s, 0, first, rest);
    assert !Presentations(s, steps)[1].Unspent();
  }

  // ---------------------------------------------------------------- non-forced callers

  /** Nobody forces, all share one clock reading, and new tokens are good beyond it. */
  predicate Polite(steps: seq<Step>, now: int, skew: int) {
    forall k :: 0 <= k < |steps| ==>
      && (steps[k].Call? ==> steps[k].args == Args(false, now, skew))
      && (steps[k].Answer? && steps[k].reply.Some? ==> GoodBeyond(steps[k].reply.value.expiresAt, now, skew))
  }

  predicate GoodBeyond(expiresAt: Option<int>, now: int, skew: int) {
    expiresAt.Some? ==> now < expiresAt.value - skew
  }

  ghost predicate PoliteInv(s: State, now: int, skew: int) {
    && |s.starts| <= 1
    && (|s.starts| == 1 && !Unstored(s) ==> !NeedsRefresh(s.cred, now, skew))
    && (forall id: nat :: id in s.callers ==> PoliteCaller(s.callers[id], s, now, skew))
  }

  ghost predicate PoliteCaller(pc: PC, s: State, now: int, skew: int) {
    && (|| pc.Entered? || pc.Waiting? || pc.Comparing? || pc.Deciding? || pc.Refreshing?
        || pc.Exchanging? || pc.Storing? ==>
          pc.args == Args(false, now, skew))
    && (pc.Refreshing? || pc.Exchanging? ==> s.starts == [])
    && (pc.Storing? ==> GoodBeyond(pc.answer.expiresAt, now, skew))
  }

  lemma StepKeepsPoliteInv(s: State, step: Step, gen0: nat, now: int, skew: int)
    requires Inv(s, gen0) && PoliteInv(s, now, skew) && Enabled(s, step) && Polite([step], now, skew)
    ensures PoliteInv(Apply(s, step), now, skew)
  {
    var s' := Apply(s, step);
    assert [step][0] == step;
    if !step.Call? {
      assert Between(step.id, s.callers[step.id], s);
      assert PoliteCaller(s.callers[step.id], s, now, skew);
    }
    forall id: nat | id in s'.callers ensures PoliteCaller(s'.callers[id], s', now, skew) {
      if id != step.id {
        assert PoliteCaller(s.callers[id], s, now, skew) && Between(id, s.callers[id], s);
      }
    }
  }

  /** However many non-forced callers pile up at one instant, at most one refresh succeeds. */
  lemma {:induction false} OneRefreshPerInstant(s: State, steps: seq<Step>, gen0: nat, now: int, skew: int)
    requires Inv(s, gen0) && PoliteInv(s, now, skew) && Possible(s, steps) && Polite(steps, now, skew)
    ensures |Run(s, steps).starts| <= 1
    decreases |steps|
  {
    if steps != [] {
      StepKeepsInv(s, steps[0], gen0);
      StepKeepsPoliteInv(s, steps[0], gen0, now, skew);
      OneRefreshPerInstant(Apply(s, steps[0]), steps[1..], gen0, now, skew);
    }
  }

  lemma InitPoliteInv(s: State, now: int, skew: int)
    requires Init(s)
    ensures PoliteInv(s, now, skew)
  {}

  // ---------------------------------------------------------------- whole runs

  /** What the invariants give for every interleaving that starts with no caller inside. */
  lemma FromTheStart(s: State, steps: seq<Step>, now: int, skew: int)
    requires Init(s) && Possible(s, steps)
    ensures var s' := Run(s, steps);
            && (s'.lock == None ==> s'.cred.gen == s.cred.gen + |s'.starts|)
            && (forall k: nat :: k < |s'.starts| ==> s'.starts[k] == s.cred.gen + k)
            && (forall i: nat, j: nat :: HoldsLock(s', i) && HoldsLock(s', j) ==> i == j)
            && (AllUnspent(Presentations(s, steps)) <==> RotatingBefore(s, steps))
            && (Polite(steps, now, skew) ==> |s'.starts| <= 1)
  {
    hide Possible, Rotating, AllUnspent, Polite, PoliteInv, TokenInv, Accounted, RotatingBefore, Run, HoldsLock;
    InitInv(s);
    InitTokenInv(s);
    InitPoliteInv(s, now, skew);
    GenerationsCountSuccesses(s, steps, s.cred.gen);
    PresentedOnceIffRotating(s, steps, s.cred.gen);
    if Polite(steps, now, skew) { OneRefreshPerInstant(s, steps, s.cred.gen, now, skew); }
  }

  // ---------------------------------------------------------------- progress

  /** The step a caller takes next, the upstream answering with `reply`. */
  function NextStep(id: nat, pc: PC, reply: Option<Tokens>): Step
    requires !pc.Returned?
  {
    match pc
    case Entered(_) => Capture(id)
    case Waiting(_, _) => Lock(id)
    case Comparing(_, _) => Compare(id)
    case Deciding(_, _) => Decide(id)
    case Refreshing(_, _) => Present(id)
    case Exchanging(_, _, _) => Answer(id, reply)
    case Storing(_, _, _) => Store(id)
    case Unlocking(_, _) => Unlock(id)
  }

  /**
   No deadlock: as long as some call has not returned, some call can take a step; and
   every step of a call brings that call closer to its end and no other call further away.
   */
  lemma SomeCallCanProceed(s: State, gen0: nat, id: nat, reply: Option<Tokens>) returns (runner: nat)
    requires Inv(s, gen0) && id in s.callers && !s.callers[id].Returned?
    ensures runner in s.callers && !s.callers[runner].Returned?
    ensures var step := NextStep(runner, s.callers[runner], reply);
            && Enabled(s, step)
            && runner in Apply(s, step).callers
            && Apply(s, step).callers[runner].Rank() < s.callers[runner].Rank()
            && Apply(s, step).callers == s.callers[runner := Apply(s, step).callers[runner]]
  {
    runner := if s.callers[id].Waiting? && s.lock.Some? then s.lock.value else id;
    assert Between(runner, s.callers[runner], s);
  }
}
