/**
 The per-host concurrency gate of an OpenAI-compatible provider. A request walks its
 list of hosts; each attempt takes a slot of that host's semaphore, gives it back on failure, and
 on success ties it to the response body, which gives it back when first closed.

 Requests interleave freely. `slots` is each request's own account of what it acquired and has not
 released, kept separately from the semaphores so that the two can be compared.
 */
module HostGate {
  import opened Wrappers

  /** WithHosts / WithConcurrency: a cap of zero or less leaves the host ungated. */
  function Gate(concurrency: int): (cap: Option<nat>)
    ensures cap.Some? <==> concurrency > 0
    ensures cap.Some? ==> cap.value == concurrency
  {
    if concurrency > 0 then Some(concurrency) else None
  }

  datatype HostConfig = HostConfig(url: string, concurrency: int)

  /** What the options of a provider leave behind. */
  datatype Config = Config(baseURL: string, primaryCap: int, fallbackURLs: seq<string>, hosts: seq<HostConfig>)

  datatype Host = Host(url: string, cap: Option<nat>)

  /** An explicit host list wins; otherwise the base URL and its fallbacks, all under the primary's cap. */
  method Normalize(c: Config) returns (hosts: seq<Host>, baseURL: string)
    ensures hosts != [] && baseURL == hosts[0].url
    ensures c.hosts != [] ==>
              |hosts| == |c.hosts| && forall i :: 0 <= i < |hosts| ==>
                  hosts[i] == Host(c.hosts[i].url, Gate(c.hosts[i].concurrency))
    ensures c.hosts == [] ==>
              && |hosts| == 1 + |c.fallbackURLs| && hosts[0] == Host(c.baseURL, Gate(c.primaryCap))
              && forall i :: 0 <= i < |c.fallbackURLs| ==> hosts[i + 1] == Host(c.fallbackURLs[i], Gate(c.primaryCap))
    ensures Ready(hosts)
  {
    hosts := [];
    if |c.hosts| > 0 {
      for k := 0 to |c.hosts|
        invariant |hosts| == k && forall i :: 0 <= i < k ==>
            hosts[i] == Host(c.hosts[i].url, Gate(c.hosts[i].concurrency))
      {
        hosts := hosts + [Host(c.hosts[k].url, Gate(c.hosts[k].concurrency))];
      }
      return hosts, hosts[0].url;
    }
    hosts := [Host(c.baseURL, Gate(c.primaryCap))];
    for k := 0 to |c.fallbackURLs|
      invariant Ready(hosts)
      invariant |hosts| == k + 1 && hosts[0] == Host(c.baseURL, Gate(c.primaryCap))
      invariant forall i :: 0 <= i < k ==> hosts[i + 1] == Host(c.fallbackURLs[i], Gate(c.primaryCap))
    {
      hosts := hosts + [Host(c.fallbackURLs[k], Gate(c.primaryCap))];
    }
    baseURL := c.baseURL;
  }

  /** At least one host, and no cap of zero, at which every request would wait for ever. */
  ghost predicate Ready(hosts: seq<Host>) {
    hosts != [] && forall i :: 0 <= i < |hosts| && hosts[i].cap.Some? ==> hosts[i].cap.value > 0
  }

  datatype PC =
    | Building(host: nat)   // about to build the request for this host
    | Queued(host: nat)     // waiting for a slot
    | InFlight(host: nat)
    | Streaming(host: nat)  // response returned, body still open
    | Finished              // body closed, or no gated body to close
    | Failed                // sendHosts returned an error

  datatype Event =
    | Built
    | BuildFailed
    | Acquired
    | CanceledInQueue
    | TransportFailed(canceled: bool)
    | Replied(status: int)
    | BodyClosed

  /** Where one request goes on an event; `None` when the event cannot happen there. */
  function NextPC(n: nat, pc: PC, e: Event): Option<PC> {
    match (pc, e)
    case (Building(h), Built) => if h < n then Some(Queued(h)) else None
    case (Building(h), BuildFailed) => if h < n then Some(Failed) else None
    case (Queued(h), Acquired) => Some(InFlight(h))
    case (Queued(h), CanceledInQueue) => Some(Failed)
    case (InFlight(h), TransportFailed(canceled)) => Some(if canceled then Failed else Advance(n, h))
    case (InFlight(h), Replied(status)) => Some(if status >= 500 && n > 1 then Advance(n, h) else Streaming(h))
    case (Streaming(h), BodyClosed) => Some(Finished)
    case (Finished, BodyClosed) => Some(Finished)  // sync.Once: closing again releases nothing
    case _ => None
  }

  function Advance(n: nat, h: nat): PC { if h + 1 < n then Building(h + 1) else Failed }

  datatype Request = Request(pc: PC, slots: seq<nat>)

  /** hosts[h] is the semaphore's capacity, occupied[h] how many slots of it are taken. */
  datatype State = State(hosts: seq<Option<nat>>, occupied: seq<nat>, requests: map<nat, Request>)

  datatype Step = Arrive(id: nat) | Move(id: nat, event: Event)

  predicate Shaped(s: State) { |s.occupied| == |s.hosts| > 0 }

  predicate Gated(hosts: seq<Option<nat>>, h: nat) { h < |hosts| && hosts[h].Some? }

  /** The releases the code performs: on a failed attempt, and on the first Close. */
  predicate Releases(n: nat, pc: PC, e: Event) {
    || (pc.InFlight? && e.TransportFailed?)
    || (pc.InFlight? && e.Replied? && e.status >= 500 && n > 1)
    || (pc.Streaming? && e.BodyClosed?)
  }

  /** A send on a full semaphore blocks, and so would a receive from an empty one. */
  predicate Enabled(s: State, step: Step)
    requires Shaped(s)
  {
    match step
    case Arrive(id) => id !in s.requests
    case Move(id, e) =>
      id in s.requests &&
      var pc := s.requests[id].pc;
      && NextPC(|s.hosts|, pc, e).Some?
      && (pc.Queued? && e.Acquired? && Gated(s.hosts, pc.host) ==> s.occupied[pc.host] < s.hosts[pc.host].value)
      && (Releases(|s.hosts|, pc, e) && Gated(s.hosts, pc.host) ==> s.occupied[pc.host] > 0)
  }

  function Without(slots: seq<nat>, h: nat): seq<nat> {
    if slots == [] then [] else if slots[0] == h then slots[1..] else [slots[0]] + Without(slots[1..], h)
  }

  function Apply(s: State, step: Step): State
    requires Shaped(s) && Enabled(s, step)
  {
    match step
    case Arrive(id) => s.(requests := s.requests[id := Request(Building(0), [])])
    case Move(id, e) =>
      var r := s.requests[id];
      var pc' := NextPC(|s.hosts|, r.pc, e).value;
      if r.pc.Queued? && e.Acquired? && Gated(s.hosts, r.pc.host) then
        var h := r.pc.host;
        s.(occupied := s.occupied[h := s.occupied[h] + 1], requests := s.requests[id := Request(pc', r.slots + [h])])
      else if Releases(|s.hosts|, r.pc, e) && Gated(s.hosts, r.pc.host) then
        var h := r.pc.host;
        s.(occupied := s.occupied[h := s.occupied[h] - 1],
            requests := s.requests[id := Request(pc', Without(r.slots, h))])
      else
        s.(requests := s.requests[id := Request(pc', r.slots)])
  }

  predicate Possible(s: State, steps: seq<Step>)
    requires Shaped(s)
    decreases |steps|
  {
    steps == [] || (Enabled(s, steps[0]) && Possible(Apply(s, steps[0]), steps[1..]))
  }

  function Run(s: State, steps: seq<Step>): (s': State)
    requires Shaped(s) && Possible(s, steps)
    ensures Shaped(s') && s'.hosts == s.hosts
    decreases |steps|
  {
    if steps == [] then s else Run(Apply(s, steps[0]), steps[1..])
  }

  /** A run is its steps, one after another, each of them enabled where it is taken. */
  lemma RunsStepByStep(s: State, step: Step, rest: seq<Step>)
    requires Shaped(s)
    ensures Possible(s, []) && Run(s, []) == s
    ensures Possible(s, [step] + rest) <==> Enabled(s, step) && Possible(Apply(s, step), rest)
    ensures Possible(s, [step] + rest) ==> Run(s, [step] + rest) == Run(Apply(s, step), rest)
  {
    assert ([step] + rest)[1..] == rest;
    hide Apply, Enabled;
  }

  ghost predicate Init(s: State) {
    && Shaped(s) && s.requests == map[]
    && (forall h: nat :: h < |s.hosts| ==> s.occupied[h] == 0 && (s.hosts[h].Some? ==> s.hosts[h].value > 0))
  }

  // ---------------------------------------------------------------- conservation of slots

  /** The slots a request should be holding at each point. */
  function Owed(hosts: seq<Option<nat>>, pc: PC): seq<nat> {
    if (pc.InFlight? || pc.Streaming?) && Gated(hosts, pc.host) then [pc.host] else []
  }

  ghost predicate Between(hosts: seq<Option<nat>>, r: Request) {
    && (r.pc.Building? || r.pc.Queued? || r.pc.InFlight? || r.pc.Streaming? ==> r.pc.host < |hosts|)
    && r.slots == Owed(hosts, r.pc)
  }

  /** Requests in flight to h, or with an unclosed body from h. */
  function Holders(requests: map<nat, Request>, h: nat): set<nat> {
    set id | id in requests && h in requests[id].slots
  }

  lemma HoldersUpdate(requests: map<nat, Request>, id: nat, r: Request, h: nat)
    ensures Holders(requests[id := r], h) ==
            if h in r.slots then Holders(requests, h) + {id} else Holders(requests, h) - {id}
  {}

  ghost predicate Inv(s: State) {
    && Shaped(s)
    && (forall id :: id in s.requests ==> Between(s.hosts, s.requests[id]))
    && (forall h: nat :: Gated(s.hosts, h) ==>
          && s.occupied[h] == |Holders(s.requests, h)|
          && s.occupied[h] <= s.hosts[h].value
          && s.hosts[h].value > 0)
  }

  lemma InitInv(s: State)
    requires Init(s)
    ensures Inv(s)
  {
    forall h: nat | Gated(s.hosts, h) ensures |Holders(s.requests, h)| == 0 {
      assert Holders(s.requests, h) == {};
    }
  }

  /** A provider as it comes out of Normalize, before its first request. */
  function Idle(hosts: seq<Host>): State {
    State(seq(|hosts|, i requires 0 <= i < |hosts| => hosts[i].cap), seq(|hosts|, i => 0), map[])
  }

  lemma IdleInit(hosts: seq<Host>)
    requires Ready(hosts)
    ensures Init(Idle(hosts))
  {}

  /** The request that moves keeps its own account straight. */
  lemma MovedRequest(s: State, id: nat, e: Event)
    requires Shaped(s) && Enabled(s, Move(id, e)) && Between(s.hosts, s.requests[id])
    ensures var s' := Apply(s, Move(id, e));
            var r, r' := s.requests[id], s'.requests[id];
            && s'.requests == s.requests[id := r'] && s'.hosts == s.hosts
            && Between(s.hosts, r')
            && |s'.occupied| == |s.occupied|
            && forall h: nat :: Gated(s.hosts, h) ==>
                 s'.occupied[h] == s.occupied[h] + One(h in r'.slots) - One(h in r.slots)
  {
    assert Shaped(Apply(s, Move(id, e)));
  }

  function One(b: bool): nat { if b then 1 else 0 }

  lemma HoldersCount(requests: map<nat, Request>, id: nat, r: Request, h: nat)
    ensures |Holders(requests[id := r], h)| ==
            |Holders(requests, h)| + One(h in r.slots) - One(id in requests && h in requests[id].slots)
  {
    HoldersUpdate(requests, id, r, h);
  }

  lemma StepKeepsInv(s: State, step: Step)
    requires Inv(s) && Enabled(s, step)
    ensures Inv(Apply(s, step))
  {
    var s' := Apply(s, step);
    if step.Move? {
      MovedRequest(s, step.id, step.event);
      forall h: nat | Gated(s'.hosts, h) ensures s'.occupied[h] == |Holders(s'.requests, h)| <= s'.hosts[h].value {
        HoldersCount(s.requests, step.id, s'.requests[step.id], h);
        NeverOverCap(s, step.id, step.event, h);
      }
    } else {
      forall h: nat | Gated(s'.hosts, h) ensures s'.occupied[h] == |Holders(s'.requests, h)| {
        HoldersCount(s.requests, step.id, s'.requests[step.id], h);
      }
    }
  }

  lemma NeverOverCap(s: State, id: nat, e: Event, h: nat)
    requires Inv(s) && Enabled(s, Move(id, e)) && Gated(s.hosts, h)
    ensures Apply(s, Move(id, e)).occupied[h] <= s.hosts[h].value
  {}

  /**
   In every interleaving a capped host's occupied slots are exactly its in-flight attempts
   plus its unclosed bodies, and never exceed the cap. A request that is queued, between hosts,
   failed or finished holds nothing; one in flight or streaming holds exactly its host's slot.
   */
  lemma {:induction false} SlotsMatchHolders(s: State, steps: seq<Step>)
    requires Inv(s) && Possible(s, steps)
    ensures var s' := Run(s, steps);
            && Inv(s')
            && (forall h: nat :: Gated(s'.hosts, h) ==>
                s'.occupied[h] == |Holders(s'.requests, h)| <= s'.hosts[h].value)
            && (forall id :: id in s'.requests ==>
                  var r := s'.requests[id];
                  && |r.slots| <= 1
                  && (r.pc.Building? || r.pc.Queued? || r.pc.Finished? || r.pc.Failed? ==> r.slots == [])
                  && (r.pc.InFlight? || r.pc.Streaming? ==>
                        r.slots == if Gated(s'.hosts, r.pc.host) then [r.pc.host] else []))
    decreases |steps|
  {
    if steps != [] {
      StepKeepsInv(s, steps[0]);
      SlotsMatchHolders(Apply(s, steps[0]), steps[1..]);
    } else {
      forall id | id in s.requests ensures s.requests[id].slots == Owed(s.hosts, s.requests[id].pc) {
        assert Between(s.hosts, s.requests[id]);
      }
    }
  }

  /** A release never blocks: an event that gives a slot back is always enabled. */
  lemma ReleaseNeverBlocks(s: State, id: nat, e: Event)
    requires Inv(s) && id in s.requests && Releases(|s.hosts|, s.requests[id].pc, e)
    ensures Enabled(s, Move(id, e))
  {
    var r := s.requests[id];
    assert Between(s.hosts, r);
    if Gated(s.hosts, r.pc.host) { assert id in Holders(s.requests, r.pc.host); }
  }

  /** Closing a body again changes nothing. */
  lemma CloseAgainIsFree(s: State, id: nat)
    requires Inv(s) && id in s.requests && s.requests[id].pc.Streaming?
    ensures Enabled(s, Move(id, BodyClosed))
    ensures var s1 := Apply(s, Move(id, BodyClosed));
            Enabled(s1, Move(id, BodyClosed)) && Apply(s1, Move(id, BodyClosed)) == s1
  {
    ReleaseNeverBlocks(s, id, BodyClosed);
    var s1 := Apply(s, Move(id, BodyClosed));
    assert s1.requests[id := s1.requests[id]] == s1.requests;
  }

  // ---------------------------------------------------------------- no deadlock

  function Rank(n: nat, pc: PC): nat {
    match pc
    case Building(h) => if h < n then 4 * (n - h) + 2 else 0
    case Queued(h) => if h < n then 4 * (n - h) + 1 else 0
    case InFlight(h) => if h < n then 4 * (n - h) else 0
    case Streaming(_) => 1
    case Finished => 0
    case Failed => 0
  }

  /** The event that moves a request on when building, the upstream and the client all do their part. */
  function Onward(pc: PC): Event {
    match pc
    case Building(_) => Built
    case Queued(_) => Acquired
    case InFlight(_) => Replied(200)
    case Streaming(_) => BodyClosed
    case Finished => BodyClosed
    case Failed => BodyClosed
  }

  /**
   No deadlock. While any request is unfinished some request can move on without waiting
   for another: whoever queues at a full host waits for a holder, and holders never queue.
   */
  lemma SomeRequestCanProceed(s: State, id: nat) returns (runner: nat)
    requires Inv(s) && id in s.requests && !s.requests[id].pc.Finished? && !s.requests[id].pc.Failed?
    ensures runner in s.requests && !s.requests[runner].pc.Finished? && !s.requests[runner].pc.Failed?
    ensures Enabled(s, Move(runner, Onward(s.requests[runner].pc)))
  {
    var r := s.requests[id];
    assert Between(s.hosts, r);
    if r.pc.Queued? && Gated(s.hosts, r.pc.host) && s.occupied[r.pc.host] >= s.hosts[r.pc.host].value {
      var h := r.pc.host;
      assert Holders(s.requests, h) != {};
      runner :| runner in Holders(s.requests, h);
      assert Between(s.hosts, s.requests[runner]);
      if s.requests[runner].pc.Streaming? { ReleaseNeverBlocks(s, runner, BodyClosed); }
    } else {
      runner := id;
      if r.pc.Streaming? { ReleaseNeverBlocks(s, id, BodyClosed); }
    }
  }

  /**
   Every run of a provider, from its configuration on: slots are held by exactly those who should
   hold them, within the caps, and as long as a request is unfinished some request can move on.
   */
  lemma FromTheStart(hosts: seq<Host>, steps: seq<Step>)
    requires Ready(hosts) && Shaped(Idle(hosts)) && Possible(Idle(hosts), steps)
    ensures var s := Run(Idle(hosts), steps);
            && (forall h: nat :: Gated(s.hosts, h) ==> s.occupied[h] == |Holders(s.requests, h)| <= s.hosts[h].value)
            && (forall id :: id in s.requests ==> s.requests[id].slots == Owed(s.hosts, s.requests[id].pc))
            && (forall id :: id in s.requests && Unfinished(s.requests[id].pc) ==> CanMove(s))
  {
    hide Init, Idle, Possible, Run;
    IdleInit(hosts);
    InitInv(Idle(hosts));
    SlotsMatchHolders(Idle(hosts), steps);
    var s := Run(Idle(hosts), steps);
    forall id | id in s.requests ensures s.requests[id].slots == Owed(s.hosts, s.requests[id].pc) {
      assert Between(s.hosts, s.requests[id]);
    }
    forall id | id in s.requests && Unfinished(s.requests[id].pc) ensures CanMove(s) {
      var runner := SomeRequestCanProceed(s, id);
      assert Unfinished(s.requests[runner].pc);
    }
  }

  predicate Unfinished(pc: PC) { !pc.Finished? && !pc.Failed? }

  ghost predicate CanMove(s: State)
    requires Shaped(s)
  {
    exists id :: id in s.requests && Unfinished(s.requests[id].pc) && Enabled(s, Move(id, Onward(s.requests[id].pc)))
  }

  /** Every event brings its request closer to the end, except closing an already closed body. */
  lemma EveryEventIsProgress(n: nat, pc: PC, e: Event)
    requires NextPC(n, pc, e).Some? && !pc.Finished?
    requires pc.Queued? || pc.InFlight? ==> pc.host < n
    ensures Rank(n, NextPC(n, pc, e).value) < Rank(n, pc)
  {}

  // ---------------------------------------------------------------- sendHosts

  /** What the outside world answers at one host. */
  datatype Answer = Answer(buildOk: bool, granted: bool, sent: Sent)
  datatype Sent = Error(canceled: bool) | Status(status: int)

  /** An error and the host it arose at. */
  datatype SendResult = Response(host: nat, status: int) | SendError(host: nat, reason: SendFailure)
  datatype SendFailure = BuildError | QueueCanceled | SendCanceled | TransportError | HostStatus(status: int)

  /** The events of one request, one after another. */
  function Follow(n: nat, pc: PC, events: seq<Event>): Option<PC>
    decreases |events|
  {
    if events == [] then Some(pc)
    else
      var before := Follow(n, pc, events[..|events| - 1]);
      if before.None? then None else NextPC(n, before.value, events[|events| - 1])
  }

  predicate InRange(n: nat, pc: PC) {
    pc.Building? || pc.Queued? || pc.InFlight? || pc.Streaming? ==> pc.host < n
  }

  /** No walk is endless: until its body is closed a request sees at most 4n + 2 events over n hosts. */
  lemma {:induction false} WalksAreShort(n: nat, events: seq<Event>)
    requires n > 0 && Follow(n, Building(0), events).Some?
    ensures var pc := Follow(n, Building(0), events).value;
            InRange(n, pc) && (!pc.Finished? ==> |events| + Rank(n, pc) <= 4 * n + 2)
    decreases |events|
  {
    hide Rank;
    if events == [] {
      StartRank(n);
    } else {
      WalksAreShort(n, events[..|events| - 1]);
      var before := Follow(n, Building(0), events[..|events| - 1]).value;
      if !before.Finished? { EveryEventIsProgress(n, before, events[|events| - 1]); }
    }
  }

  lemma StartRank(n: nat)
    requires n > 0
    ensures Rank(n, Building(0)) == 4 * n + 2
  {}

  predicate PassedOver(n: nat, a: Answer) {
    && a.buildOk && a.granted
    && match a.sent { case Error(canceled) => !canceled case Status(code) => code >= 500 && n > 1 }
  }

  /** The answer of the host the call ended at, and what the call makes of it. */
  predicate Explains(n: nat, a: Answer, result: SendResult) {
    if !a.buildOk then result.SendError? && result.reason == BuildError
    else if !a.granted then result.SendError? && result.reason == QueueCanceled
    else
      match a.sent
      case Error(canceled) => result.SendError? && result.reason == if canceled then SendCanceled else TransportError
      case Status(status) =>
        if status >= 500 && n > 1 then result.SendError? && result.reason == HostStatus(status)
        else result.Response? && result.status == status
  }

  /**
   One call, with what each host answers. It stops at the first host that is not passed
   over; the events it went through are a walk of the machine above from Building(0) to
   the state its result stands for.
   */
  method SendHosts(answers: seq<Answer>) returns (result: SendResult, events: seq<Event>)
    requires answers != []
    ensures Follow(|answers|, Building(0), events) == Some(if result.Response? then Streaming(result.host) else Failed)
    ensures result.host < |answers| && forall k :: 0 <= k < result.host ==> PassedOver(|answers|, answers[k])
    ensures Explains(|answers|, answers[result.host], result)
    ensures PassedOver(|answers|, answers[result.host]) ==> result.host == |answers| - 1
  {
    hide Follow;
    var n := |answers|;
    var multi := n > 1;
    var lastErr := TransportError;
    events := [];
    NothingFollowed(n);
    var h := 0;
    while h < n
      invariant 0 <= h <= n
      invariant Follow(n, Building(0), events) == Some(if h < n then Building(h) else Failed)
      invariant forall k :: 0 <= k < h ==> PassedOver(n, answers[k])
      invariant h > 0 ==> Explains(n, answers[h - 1], SendError(h - 1, lastErr))
    {
      var a := answers[h];
      if !a.buildOk {
        events := Append(n, events, BuildFailed);
        return SendError(h, BuildError), events;
      }
      events := Append(n, events, Built);
      if !a.granted {
        events := Append(n, events, CanceledInQueue);
        return SendError(h, QueueCanceled), events;
      }
      events := Append(n, events, Acquired);
      if a.sent.Error? {
        events := Append(n, events, TransportFailed(a.sent.canceled));
        if a.sent.canceled {
          return SendError(h, SendCanceled), events;
        }
        lastErr := TransportError;
        h := h + 1;
        continue;
      }
      events := Append(n, events, Replied(a.sent.status));
      if a.sent.status >= 500 && multi {
        lastErr := HostStatus(a.sent.status);
        h := h + 1;
        continue;
      }
      return Response(h, a.sent.status), events;
    }
    return SendError(n - 1, lastErr), events;
  }

  lemma NothingFollowed(n: nat)
    ensures Follow(n, Building(0), []) == Some(Building(0))
  {}

  method Append(n: nat, events: seq<Event>, e: Event) returns (r: seq<Event>)
    requires Follow(n, Building(0), events).Some?
    ensures Follow(n, Building(0), r) == NextPC(n, Follow(n, Building(0), events).value, e)
  {
    r := events + [e];
    assert r[..|r| - 1] == events;
  }
}
