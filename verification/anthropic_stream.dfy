/**
 Translating an Anthropic event stream into chat-completion chunks, and folding the usage
 objects it carries.
 */
module AnthropicStream {
  import opened Wrappers
  import opened ChatStream

  // ---------------------------------------------------------------- usage

  /** One usage object: fresh input, output, and the two prompt-cache counts. */
  datatype Counts = Counts(input: int, output: int, cacheRead: int, cacheWrite: int)

  datatype Field = Input | Out | CacheRead | CacheWrite

  function At(c: Counts, f: Field): int {
    match f
    case Input => c.input
    case Out => c.output
    case CacheRead => c.cacheRead
    case CacheWrite => c.cacheWrite
  }

  /** The last positive value of a field, or 0. */
  function LastPositive(seen: seq<Counts>, f: Field): int {
    if seen == [] then 0
    else if LastPositive(seen[1..], f) > 0 then LastPositive(seen[1..], f)
    else if At(seen[0], f) > 0 then At(seen[0], f)
    else 0
  }

  lemma {:induction false} LastPositiveAppend(seen: seq<Counts>, c: Counts, f: Field)
    ensures LastPositive(seen, f) >= 0
    ensures LastPositive(seen + [c], f) == if At(c, f) > 0 then At(c, f) else LastPositive(seen, f)
  {
    if seen == [] {
      assert [] + [c] == [c] && [c][1..] == [];
    } else {
      assert (seen + [c])[1..] == seen[1..] + [c];
      LastPositiveAppend(seen[1..], c, f);
    }
  }

  /** The counts of one response. The input is the total: fresh plus both cache counts. */
  datatype Totals = Totals(input: int, output: int, cacheRead: int, cacheWrite: int)

  /** What any sequence of usage objects comes to: each count the last positive one, or 0. */
  function Folded(seen: seq<Counts>): Totals {
    var (read, write) := (LastPositive(seen, CacheRead), LastPositive(seen, CacheWrite));
    Totals(LastPositive(seen, Input) + read + write, LastPositive(seen, Out), read, write)
  }

  class Usage {
    var input: int
    var output: int
    var cacheRead: int
    var cacheWrite: int
    var freshInput: int
    ghost var seen: seq<Counts>  // every usage object added so far

    constructor ()
      ensures Valid() && seen == []
    {
      input, output, cacheRead, cacheWrite, freshInput := 0, 0, 0, 0, 0;
      seen := [];
    }

    /** The fields are the fold of what was seen. */
    ghost predicate Valid()
      reads this
    {
      && Value() == Folded(seen)
      && freshInput == LastPositive(seen, Input)
    }

    function Value(): Totals
      reads this
    {
      Totals(input, output, cacheRead, cacheWrite)
    }

    method Add(c: Counts)
      requires Valid()
      modifies this
      ensures Valid() && seen == old(seen) + [c]
    {
      hide LastPositive;
      LastPositiveAppend(seen, c, Input);
      LastPositiveAppend(seen, c, Out);
      LastPositiveAppend(seen, c, CacheRead);
      LastPositiveAppend(seen, c, CacheWrite);
      if c.input > 0 { freshInput := c.input; }
      if c.cacheRead > 0 { cacheRead := c.cacheRead; }
      if c.cacheWrite > 0 { cacheWrite := c.cacheWrite; }
      var t := freshInput + cacheRead + cacheWrite;
      if t > 0 { input := t; }
      if c.output > 0 { output := c.output; }
      seen := seen + [c];
    }
  }

  // ---------------------------------------------------------------- events

  datatype Message = Message(id: string, model: string, usage: Counts)
  datatype Block = Block(kind: string, id: string, name: string)
  datatype Delta = Delta(kind: string, text: string, stopReason: string, partialJson: string)

  /** One parsed `data:` line. `Ignored` stands for every other line. */
  datatype Event =
    | MessageStart(message: Option<Message>)
    | BlockStart(block: Option<Block>, index: Option<int>)
    | BlockDelta(delta: Option<Delta>, index: Option<int>)
    | MessageDelta(delta: Option<Delta>, usage: Option<Counts>)
    | MessageStop
    | Ignored

  predicate StartsTool(e: Event) {
    e.BlockStart? && e.block.Some? && e.block.value.kind == "tool_use" && e.index.Some?
  }

  predicate IsText(e: Event) {
    e.BlockDelta? && e.delta.Some? && e.delta.value.kind == "text_delta" && e.delta.value.text != ""
  }

  predicate IsFragment(e: Event) {
    e.BlockDelta? && e.delta.Some? && e.delta.value.kind == "input_json_delta" && e.index.Some?
  }

  // ---------------------------------------------------------------- what the events mean

  /** The events up to the first message_stop. */
  function UntilStop(es: seq<Event>): seq<Event> {
    if es == [] || es[0].MessageStop? then [] else [es[0]] + UntilStop(es[1..])
  }

  predicate Stops(es: seq<Event>) { exists i :: 0 <= i < |es| && es[i].MessageStop? }

  function TextOf(es: seq<Event>): string {
    if es == [] then ""
    else (if IsText(es[0]) then es[0].delta.value.text else "") + TextOf(es[1..])
  }

  /** The fragments addressed to block index `b`, until a later tool block takes that index. */
  function Fragments(es: seq<Event>, b: int): string {
    if es == [] || (StartsTool(es[0]) && es[0].index == Some(b)) then ""
    else
      (if IsFragment(es[0]) && es[0].index == Some(b) then es[0].delta.value.partialJson else "")
      + Fragments(es[1..], b)
  }

  /** The tool calls, in the order their blocks start. */
  function Tools(es: seq<Event>): seq<ToolCall> {
    if es == [] then []
    else if StartsTool(es[0]) then
      var block := es[0].block.value;
      [ToolCall(block.id, block.name, Fragments(es[1..], es[0].index.value))] + Tools(es[1..])
    else Tools(es[1..])
  }

  /** The last non-empty stop reason. */
  function LastReason(es: seq<Event>): string {
    if es == [] then ""
    else if LastReason(es[1..]) != "" then LastReason(es[1..])
    else if es[0].MessageDelta? && es[0].delta.Some? then es[0].delta.value.stopReason
    else ""
  }

  /** Every usage object, in order. */
  function Reported(es: seq<Event>): seq<Counts> {
    if es == [] then []
    else UsageIn(es[0]) + Reported(es[1..])
  }

  function UsageIn(e: Event): seq<Counts> {
    if e.MessageStart? && e.message.Some? then [e.message.value.usage]
    else if e.MessageDelta? && e.usage.Some? then [e.usage.value]
    else []
  }

  function FinishReason(stopReason: string): string {
    if stopReason == "end_turn" || stopReason == "stop_sequence" then "stop"
    else if stopReason == "max_tokens" then "length"
    else if stopReason == "tool_use" then "tool_calls"
    else if stopReason == "" then ""
    else "stop"
  }

  /** The finish reason a client is given. */
  function Finishing(stopReason: string): (r: string)
    ensures r != ""
    ensures r == "tool_calls" <==> stopReason == "tool_use"
    ensures r == "length" <==> stopReason == "max_tokens"
    ensures r == "stop" <==> stopReason != "tool_use" && stopReason != "max_tokens"
  {
    var fr := FinishReason(stopReason);
    if fr == "" then "stop" else fr
  }

  function ChatId(id: string): string { if id == "" then "chatcmpl-cerber" else "chatcmpl-" + id }

  // ---------------------------------------------------------------- the translation

  /** The translator's variables. `tools` maps a block index to a tool-call index. */
  datatype State = State(id: string, model: string, reason: string, role: bool, tools: map<int, nat>, next: nat)

  const INIT := State("", "", "", false, map[], 0)

  function Next(st: State, e: Event): State {
    match e
    case MessageStart(message) =>
      var st' := st.(role := true);
      if message.Some? then st'.(id := message.value.id, model := message.value.model) else st'
    case BlockStart(_, _) =>
      if StartsTool(e) then st.(tools := st.tools[e.index.value := st.next], next := st.next + 1) else st
    case MessageDelta(delta, _) =>
      if delta.Some? && delta.value.stopReason != "" then st.(reason := delta.value.stopReason) else st
    case _ => st
  }

  function Emitted(st: State, e: Event): Option<Choice> {
    match e
    case MessageStart(_) => if st.role then None else Some(Role)
    case BlockStart(_, _) =>
      if StartsTool(e) then Some(Call(st.next, e.block.value.id, e.block.value.name, "")) else None
    case BlockDelta(_, _) =>
      if IsText(e) then Some(Text(e.delta.value.text))
      else if IsFragment(e) && e.index.value in st.tools then
        Some(Fragment(st.tools[e.index.value], e.delta.value.partialJson))
      else None
    case _ => None
  }

  /** A choice as written in state `st`. */
  function Labelled(st: State, choice: Choice): Write { Chunk(ChatId(st.id), st.model, choice) }

  function Ending(st: State): seq<Write> { [Labelled(st, Finish(Finishing(st.reason))), Done] }

  /** All that is written from state `st` on; `broken` says that reading fails after the last event. */
  function Output(st: State, es: seq<Event>, broken: bool): seq<Write>
    decreases |es|
  {
    if es == [] then (if broken then [] else Ending(st))
    else if es[0].MessageStop? then Ending(st)
    else
      var st' := Next(st, es[0]);
      var rest := Output(st', es[1..], broken);
      if Emitted(st, es[0]).Some? then [Labelled(st', Emitted(st, es[0]).value)] + rest else rest
  }

  // ---------------------------------------------------------------- what a client gathers

  /** `owner[j]`, if any, is the block index whose fragments go to tool call `j`. */
  ghost predicate Owns(tools: map<int, nat>, owner: seq<Option<int>>) {
    && (forall b :: b in tools ==> tools[b] < |owner| && owner[tools[b]] == Some(b))
    && (forall j :: 0 <= j < |owner| && owner[j].Some? ==> owner[j].value in tools && tools[owner[j].value] == j)
  }

  /** The calls so far, each with the fragments still to come for it. */
  function Awaiting(list: seq<ToolCall>, owner: seq<Option<int>>, es: seq<Event>): (r: seq<ToolCall>)
    requires |owner| == |list|
    ensures |r| == |list| && forall j :: 0 <= j < |list| ==> r[j] == More(list[j], Due(owner[j], es))
  {
    seq(|list|, j requires 0 <= j < |list| => More(list[j], Due(owner[j], es)))
  }

  function More(call: ToolCall, args: string): ToolCall { call.(args := call.args + args) }

  function Due(owner: Option<int>, es: seq<Event>): string {
    if owner.Some? then Fragments(es, owner.value) else ""
  }

  function Release(owner: seq<Option<int>>, b: int): (r: seq<Option<int>>)
    ensures |r| == |owner| && forall j :: 0 <= j < |owner| ==> r[j] == if owner[j] == Some(b) then None else owner[j]
  {
    seq(|owner|, j requires 0 <= j < |owner| => if owner[j] == Some(b) then None else owner[j])
  }

  lemma OneOwner(tools: map<int, nat>, owner: seq<Option<int>>, b: int)
    requires Owns(tools, owner) && b in tools
    ensures tools[b] < |owner|
    ensures forall j :: 0 <= j < |owner| ==> (owner[j] == Some(b) <==> j == tools[b])
  {}

  /** What one event does to the calls gathered. */
  function CallsAfter(calls: map<nat, ToolCall>, choice: Option<Choice>): map<nat, ToolCall> {
    match choice
    case Some(Call(i, id, name, args)) => Merge(calls, i, ToolCall(id, name, args))
    case Some(Fragment(i, args)) => Merge(calls, i, ToolCall("", "", args))
    case _ => calls
  }

  ghost predicate Gathering(st: State, calls: map<nat, ToolCall>, list: seq<ToolCall>, owner: seq<Option<int>>) {
    AreCalls(calls, list) && |list| == |owner| == st.next && Owns(st.tools, owner)
  }

  lemma ToolStarts(st: State, e: Event, calls: map<nat, ToolCall>, list: seq<ToolCall>, owner: seq<Option<int>>)
    requires Gathering(st, calls, list, owner) && StartsTool(e)
    ensures Gathering(Next(st, e), CallsAfter(calls, Emitted(st, e)),
                      list + [ToolCall(e.block.value.id, e.block.value.name, "")],
                      Release(owner, e.index.value) + [e.index])
  {
    var call := ToolCall(e.block.value.id, e.block.value.name, "");
    assert "" + "" == "" && "" + call.id == call.id && "" + call.name == call.name;
  }

  lemma ToolAwaits(call: ToolCall, b: int, e: Event, rest: seq<Event>, list: seq<ToolCall>, owner: seq<Option<int>>)
    requires StartsTool(e) && e.index == Some(b) && call == ToolCall(e.block.value.id, e.block.value.name, "")
    requires |list| == |owner|
    ensures Awaiting(list + [call], Release(owner, b) + [Some(b)], rest) + Tools(rest) ==
            Awaiting(list, owner, [e] + rest) + Tools([e] + rest)
  {
    var (list', owner') := (list + [call], Release(owner, b) + [Some(b)]);
    forall j | 0 <= j < |owner| ensures Due(owner'[j], rest) == Due(owner[j], [e] + rest) {
      StillDue(owner[j], e, rest);
    }
    var whole := More(call, Fragments(rest, b));
    assert Awaiting(list', owner', rest) == Awaiting(list, owner, [e] + rest) + [whole];
    assert ([e] + rest)[1..] == rest;
    assert "" + Fragments(rest, b) == Fragments(rest, b);
    assert Tools([e] + rest) == [whole] + Tools(rest);
  }

  /** What is due to an owner after an event that brings it nothing. */
  lemma StillDue(owner: Option<int>, e: Event, rest: seq<Event>)
    ensures if StartsTool(e) && e.index == owner then Due(owner, [e] + rest) == ""
            else if IsFragment(e) && e.index == owner then
              Due(owner, [e] + rest) == e.delta.value.partialJson + Due(owner, rest)
            else Due(owner, [e] + rest) == Due(owner, rest)
  {
    assert ([e] + rest)[1..] == rest;
    if owner.Some? { assert "" + Fragments(rest, owner.value) == Fragments(rest, owner.value); }
  }

  lemma FragmentArrives(st: State, e: Event, j: nat, calls: map<nat, ToolCall>, list: seq<ToolCall>,
      owner: seq<Option<int>>)
    requires Gathering(st, calls, list, owner) && IsFragment(e) && e.index.value in st.tools
        && j == st.tools[e.index.value]
    ensures j < |list|
    ensures Gathering(Next(st, e), CallsAfter(calls, Emitted(st, e)),
        list[j := More(list[j], e.delta.value.partialJson)], owner)
  {
    OneOwner(st.tools, owner, e.index.value);
    assert list[j].id + "" == list[j].id && list[j].name + "" == list[j].name;
  }

  lemma FragmentAwaits(st: State, e: Event, at: nat, rest: seq<Event>, list: seq<ToolCall>, owner: seq<Option<int>>)
    requires IsFragment(e) && |list| == |owner| && at < |list|
    requires forall j :: 0 <= j < |owner| ==> (owner[j] == e.index <==> j == at)
    ensures Awaiting(list[at := More(list[at], e.delta.value.partialJson)], owner, rest) + Tools(rest) ==
            Awaiting(list, owner, [e] + rest) + Tools([e] + rest)
  {
    var args := e.delta.value.partialJson;
    var list' := list[at := More(list[at], args)];
    forall j | 0 <= j < |owner|
      ensures More(list'[j], Due(owner[j], rest)) == More(list[j], Due(owner[j], [e] + rest))
    {
      StillDue(owner[j], e, rest);
      if j == at {
        assert list[at].args + args + Due(owner[j], rest) == list[at].args + (args + Due(owner[j], rest));
      }
    }
    assert Awaiting(list', owner, rest) == Awaiting(list, owner, [e] + rest);
    assert ([e] + rest)[1..] == rest;
  }

  lemma NothingForCalls(st: State, e: Event, rest: seq<Event>, calls: map<nat, ToolCall>, list: seq<ToolCall>,
      owner: seq<Option<int>>)
    requires Gathering(st, calls, list, owner) && !StartsTool(e) && !(IsFragment(e) && e.index.value in st.tools)
    ensures Gathering(Next(st, e), CallsAfter(calls, Emitted(st, e)), list, owner)
    ensures Awaiting(list, owner, rest) + Tools(rest) == Awaiting(list, owner, [e] + rest) + Tools([e] + rest)
  {
    forall j | 0 <= j < |owner| ensures Due(owner[j], rest) == Due(owner[j], [e] + rest) {
      StillDue(owner[j], e, rest);
    }
    assert Awaiting(list, owner, rest) == Awaiting(list, owner, [e] + rest);
    assert ([e] + rest)[1..] == rest;
  }

  lemma NothingMore(list: seq<ToolCall>, owner: seq<Option<int>>)
    requires |list| == |owner|
    ensures Awaiting(list, owner, []) + Tools([]) == list
  {
    forall j | 0 <= j < |list| ensures More(list[j], Due(owner[j], [])) == list[j] {
      assert list[j].args + "" == list[j].args;
    }
  }

  lemma EndingReceived(client: Client, st: State)
    ensures ReceiveAll(client, Ending(st)) ==
            client.(finishes := client.finishes + [Finishing(st.reason)], dones := client.dones + 1)
    ensures OpenedIndices(Ending(st)) == [] && EndsOnce(Ending(st), Finishing(st.reason))
  {
    var ws := Ending(st);
    var finish := ws[0];
    assert ws == [finish, Done] && ws[1..] == [Done] && [Done][1..] == [];
    assert ReceiveAll(client, ws) == ReceiveAll(Receive(client, finish), [Done]);
    assert ReceiveAll(Receive(client, finish), [Done]) == Receive(Receive(client, finish), Done);
    assert OpenedIndices(ws) == OpenedIndices([Done]) == OpenedIndices([]);
  }

  lemma {:induction false} CallsReceived(st: State, es: seq<Event>, broken: bool, client: Client,
                                         list: seq<ToolCall>, owner: seq<Option<int>>)
    requires Gathering(st, client.calls, list, owner)
    ensures var seen := UntilStop(es);
            AreCalls(ReceiveAll(client, Output(st, es, broken)).calls, Awaiting(list, owner, seen) + Tools(seen))
    decreases |es|
  {
    hide Awaiting, Owns, AreCalls, Tools, Merge, Emitted, Next, Release, More, CallsAfter;
    if es == [] || es[0].MessageStop? {
      NothingMore(list, owner);
      EndingReceived(client, st);
    } else {
      var (e, rest) := (es[0], UntilStop(es[1..]));
      assert UntilStop(es) == [e] + rest;
      var list', owner' := list, owner;
      if StartsTool(e) {
        var call := ToolCall(e.block.value.id, e.block.value.name, "");
        ToolStarts(st, e, client.calls, list, owner);
        ToolAwaits(call, e.index.value, e, rest, list, owner);
        list', owner' := list + [call], Release(owner, e.index.value) + [e.index];
      } else if IsFragment(e) && e.index.value in st.tools {
        var j := st.tools[e.index.value];
        FragmentArrives(st, e, j, client.calls, list, owner);
        OneOwner(st.tools, owner, e.index.value);
        FragmentAwaits(st, e, j, rest, list, owner);
        list' := list[j := More(list[j], e.delta.value.partialJson)];
      } else {
        NothingForCalls(st, e, rest, client.calls, list, owner);
      }
      var client' := OneWrite(st, e, es[1..], broken, client);
      CallsReceived(Next(st, e), es[1..], broken, client', list', owner');
    }
  }

  lemma OneWrite(st: State, e: Event, rest: seq<Event>, broken: bool, client: Client) returns (client': Client)
    requires !e.MessageStop?
    ensures client' == if Emitted(st, e).None? then client
        else Receive(client, Labelled(Next(st, e), Emitted(st, e).value))
    ensures client'.calls == CallsAfter(client.calls, Emitted(st, e))
    ensures ReceiveAll(client, Output(st, [e] + rest, broken)) == ReceiveAll(client', Output(Next(st, e), rest, broken))
  {
    hide StartsTool, IsFragment, IsText, Merge, Emitted, Next;
    assert ([e] + rest)[1..] == rest;
    if Emitted(st, e).Some? {
      var w := Labelled(Next(st, e), Emitted(st, e).value);
      client' := Receive(client, w);
      assert Output(st, [e] + rest, broken)[1..] == Output(Next(st, e), rest, broken);
    } else {
      client' := client;
    }
  }

  predicate Starts(es: seq<Event>) { exists i :: 0 <= i < |es| && es[i].MessageStart? }

  lemma StartsLater(es: seq<Event>)
    requires es != []
    ensures Starts(es) <==> es[0].MessageStart? || Starts(es[1..])
    ensures Stops(es) <==> es[0].MessageStop? || Stops(es[1..])
  {
    if i :| 0 <= i < |es[1..]| && es[1..][i].MessageStart? { assert es[i + 1].MessageStart?; }
    if i :| 0 <= i < |es[1..]| && es[1..][i].MessageStop? { assert es[i + 1].MessageStop?; }
    if i :| 0 < i < |es| && es[i].MessageStart? { assert es[1..][i - 1].MessageStart?; }
    if i :| 0 < i < |es| && es[i].MessageStop? { assert es[1..][i - 1].MessageStop?; }
  }

  /** Everything but the calls, as one comparison. */
  ghost predicate Gathered(end: Client, client: Client, st: State, seen: seq<Event>, ended: bool) {
    && end.text == client.text + TextOf(seen)
    && end.roles == client.roles + (if !st.role && Starts(seen) then 1 else 0)
    && end.finishes == client.finishes
       + (if ended then [Finishing(if LastReason(seen) == "" then st.reason else LastReason(seen))] else [])
    && end.dones == client.dones + if ended then 1 else 0
  }

  lemma GatheredStep(end: Client, client: Client, st: State, e: Event, rest: seq<Event>, ended: bool)
    requires !e.MessageStop?
    requires Gathered(end, if Emitted(st, e).None? then client
        else Receive(client, Labelled(Next(st, e), Emitted(st, e).value)),
                      Next(st, e), rest, ended)
    ensures Gathered(end, client, st, [e] + rest, ended)
  {
    hide Starts, Stops, Merge, Finishing, TextOf, StartsTool, IsFragment;
    var seen := [e] + rest;
    StartsLater(seen);
    assert seen[1..] == rest;
    TextStep(client.text, e, rest);
  }

  lemma TextStep(text: string, e: Event, rest: seq<Event>)
    ensures text + TextOf([e] + rest) == (if IsText(e) then text + e.delta.value.text else text) + TextOf(rest)
  {
    assert ([e] + rest)[1..] == rest;
    if IsText(e) {
      var s := e.delta.value.text;
      assert text + s + TextOf(rest) == text + (s + TextOf(rest));
    } else {
      assert "" + TextOf(rest) == TextOf(rest);
    }
  }

  lemma {:induction false} RestReceived(st: State, es: seq<Event>, broken: bool, client: Client)
    ensures Gathered(ReceiveAll(client, Output(st, es, broken)), client, st, UntilStop(es), !broken || Stops(es))
    decreases |es|
  {
    hide Gathered, Emitted, Next;
    if es == [] || es[0].MessageStop? {
      EndingReceived(client, st);
      GatheredAtEnd(ReceiveAll(client, Output(st, es, broken)), client, st, !broken || Stops(es));
    } else {
      StartsLater(es);
      var (e, rest) := (es[0], UntilStop(es[1..]));
      assert [e] + es[1..] == es;
      var client' := OneWrite(st, e, es[1..], broken, client);
      RestReceived(Next(st, e), es[1..], broken, client');
      GatheredStep(ReceiveAll(client, Output(st, es, broken)), client, st, e, rest, !broken || Stops(es));
    }
  }

  lemma GatheredAtEnd(end: Client, client: Client, st: State, ended: bool)
    requires if ended then end == client.(finishes := client.finishes + [Finishing(st.reason)],
        dones := client.dones + 1)
             else end == client
    ensures Gathered(end, client, st, [], ended)
  {
    assert client.text + "" == client.text && client.finishes + [] == client.finishes;
  }

  /**
   What a client gathers from a whole stream: every tool call with its id, name and exactly its own
   fragments in order; the text deltas in order; the role once; and, unless reading broke off before
   a message_stop, one finish reason and one `[DONE]`.
   */
  lemma ClientGathers(es: seq<Event>, broken: bool)
    ensures var (end, seen) := (ReceiveAll(NEW_CLIENT, Output(INIT, es, broken)), UntilStop(es));
            var ended := Stops(es) || !broken;
            && AreCalls(end.calls, Tools(seen))
            && end.text == TextOf(seen)
            && end.roles == (if Starts(seen) then 1 else 0)
            && end.finishes == (if ended then [Finishing(LastReason(seen))] else [])
            && end.dones == (if ended then 1 else 0)
  {
    var seen := UntilStop(es);
    CallsReceived(INIT, es, broken, NEW_CLIENT, [], []);
    assert Awaiting([], [], seen) + Tools(seen) == Tools(seen);
    RestReceived(INIT, es, broken, NEW_CLIENT);
    assert "" + TextOf(seen) == TextOf(seen);
  }

  /** The finish chunk and `[DONE]` come last and nowhere else; tool calls are numbered 0, 1, 2 as they open. */
  lemma {:induction false} OutputShape(st: State, es: seq<Event>, broken: bool)
    ensures OpenedIndices(Output(st, es, broken)) == CountFrom(st.next, |Tools(UntilStop(es))|)
    ensures if broken && !Stops(es)
            then forall i :: 0 <= i < |Output(st, es, broken)| ==> Within(Output(st, es, broken)[i])
            else exists reason :: EndsOnce(Output(st, es, broken), reason)
    decreases |es|
  {
    if es == [] || es[0].MessageStop? {
      EndingReceived(NEW_CLIENT, st);
    } else {
      var (e, rest) := (es[0], Output(Next(st, es[0]), es[1..], broken));
      hide Next, Emitted, Tools, Stops, OpenedIndices, CountFrom;
      StartsLater(es);
      OutputShape(Next(st, e), es[1..], broken);
      EmittedWithin(st, e);
      assert UntilStop(es) == [e] + UntilStop(es[1..]);
      OneMoreOpened(st, e, UntilStop(es[1..]), rest);
      if Emitted(st, e).Some? {
        var w := Labelled(Next(st, e), Emitted(st, e).value);
        assert Output(st, es, broken) == [w] + rest;
        if !broken || Stops(es) {
          var reason :| EndsOnce(rest, reason);
          assert EndsOnce([w] + rest, reason);
        }
      }
    }
  }

  lemma EmittedWithin(st: State, e: Event)
    ensures Emitted(st, e).Some? ==> !Emitted(st, e).value.Finish?
  {}

  lemma OneMoreOpened(st: State, e: Event, seen: seq<Event>, ws: seq<Write>)
    requires !e.MessageStop? && OpenedIndices(ws) == CountFrom(Next(st, e).next, |Tools(seen)|)
    ensures OpenedIndices(if Emitted(st, e).None? then ws else [Labelled(Next(st, e), Emitted(st, e).value)] + ws) ==
            CountFrom(st.next, |Tools([e] + seen)|)
  {
    assert ([e] + seen)[1..] == seen;
    if Emitted(st, e).Some? {
      assert ([Labelled(Next(st, e), Emitted(st, e).value)] + ws)[1..] == ws;
    }
  }

  // ---------------------------------------------------------------- the loop

  /** After `k` events: what is written and added is what the output and the usage begin with. */
  ghost predicate Translating(es: seq<Event>, k: nat, broken: bool, st: State, written: seq<Write>, seen: seq<Counts>) {
    && k <= |es|
    && Output(INIT, es, broken) == written + Output(st, es[k..], broken)
    && Reported(UntilStop(es)) == seen + Reported(UntilStop(es[k..]))
    && Stops(es) == Stops(es[k..])
  }

  function Emission(st: State, e: Event): seq<Write> {
    if Emitted(st, e).None? then [] else [Labelled(Next(st, e), Emitted(st, e).value)]
  }

  lemma Begins(es: seq<Event>, broken: bool)
    ensures Translating(es, 0, broken, INIT, [], [])
  {
    assert es[0..] == es;
  }

  lemma EventDone(es: seq<Event>, k: nat, broken: bool, st: State, written: seq<Write>, seen: seq<Counts>)
    requires k < |es| && !es[k].MessageStop? && Translating(es, k, broken, st, written, seen)
    ensures Translating(es, k + 1, broken, Next(st, es[k]), written + Emission(st, es[k]), seen + UsageIn(es[k]))
    ensures written + Emission(st, es[k]) <= Output(INIT, es, broken)
  {
    hide Emitted, Next, Stops, UsageIn;
    var (e, rest) := (es[k], es[k + 1..]);
    assert es[k..] == [e] + rest && ([e] + rest)[1..] == rest;
    var out := Output(Next(st, e), rest, broken);
    OutputStep(st, e, rest, broken);
    assert written + (Emission(st, e) + out) == (written + Emission(st, e)) + out;
    assert UntilStop([e] + rest) == [e] + UntilStop(rest) && ([e] + UntilStop(rest))[1..] == UntilStop(rest);
    var more := Reported(UntilStop(rest));
    assert seen + (UsageIn(e) + more) == (seen + UsageIn(e)) + more;
    StartsLater([e] + rest);
  }

  lemma OutputStep(st: State, e: Event, rest: seq<Event>, broken: bool)
    requires !e.MessageStop?
    ensures Output(st, [e] + rest, broken) == Emission(st, e) + Output(Next(st, e), rest, broken)
  {
    assert ([e] + rest)[1..] == rest;
  }

  lemma Ended(es: seq<Event>, k: nat, broken: bool, st: State, written: seq<Write>, seen: seq<Counts>)
    requires Translating(es, k, broken, st, written, seen) && (k == |es| || es[k].MessageStop?)
    ensures Output(INIT, es, broken) == written + if k == |es| && broken then [] else Ending(st)
    ensures Reported(UntilStop(es)) == seen
    ensures Stops(es) == (k < |es|)
  {
    assert k < |es| ==> es[k..][0].MessageStop?;
  }

  /** The finish chunk, then `[DONE]`. */
  method FinishStream(st: State, before: seq<Write>, accepts: nat) returns (written: seq<Write>, err: bool)
    requires |before| <= accepts
    ensures written == UpTo(before + Ending(st), accepts) && err == (|before| + 2 > accepts)
  {
    var fr := FinishReason(st.reason);
    if fr == "" { fr := "stop"; }
    if |before| >= accepts { return before, true; }
    written := before + [Labelled(st, Finish(fr))];
    if |written| >= accepts { return written, true; }
    return written + [Done], false;
  }

  /**
   The translator. `accepts` is how many writes the client takes before one fails. What is written
   is the output of the events, up to that point, and unless a write failed the usage is that of
   every usage object up to message_stop.
   */
  method StreamAnthropicToOpenAI(es: seq<Event>, broken: bool, accepts: nat)
    returns (written: seq<Write>, total: Totals, err: bool)
    ensures written == UpTo(Output(INIT, es, broken), accepts)
    ensures err <==> |Output(INIT, es, broken)| > accepts || (broken && !Stops(es))
    ensures |Output(INIT, es, broken)| <= accepts ==> total == Folded(Reported(UntilStop(es)))
  {
    hide Folded, Output, UntilStop, Stops, Reported, Translating;
    var u := new Usage();
    var id, model, finalReason, emittedRole := "", "", "", false;
    var toolIndex: map<int, nat>, nextToolIndex := map[], 0;
    written := [];
    Begins(es, broken);
    for k := 0 to |es|
      invariant u.Valid() && |written| <= accepts
      invariant Translating(es, k, broken, State(id, model, finalReason, emittedRole, toolIndex, nextToolIndex),
          written, u.seen)
    {
      ghost var st := State(id, model, finalReason, emittedRole, toolIndex, nextToolIndex);
      ghost var (before, seen) := (written, u.seen);
      if !es[k].MessageStop? { EventDone(es, k, broken, st, written, u.seen); }
      var choice: Option<Choice> := None;
      match es[k] {
        case MessageStart(message) =>
          if message.Some? {
            id, model := message.value.id, message.value.model;
            u.Add(message.value.usage);
          }
          if !emittedRole {
            emittedRole := true;
            choice := Some(Role);
          }
        case BlockStart(block, index) =>
          if block.Some? && block.value.kind == "tool_use" && index.Some? {
            var ti := nextToolIndex;
            nextToolIndex := nextToolIndex + 1;
            toolIndex := toolIndex[index.value := ti];
            choice := Some(Call(ti, block.value.id, block.value.name, ""));
          }
        case BlockDelta(delta, index) =>
          if delta.Some? {
            if delta.value.kind == "text_delta" && delta.value.text != "" {
              choice := Some(Text(delta.value.text));
            } else if delta.value.kind == "input_json_delta" && index.Some? {
              if index.value in toolIndex {
                choice := Some(Fragment(toolIndex[index.value], delta.value.partialJson));
              }
            }
          }
        case MessageDelta(delta, usage) =>
          if delta.Some? && delta.value.stopReason != "" { finalReason := delta.value.stopReason; }
          if usage.Some? { u.Add(usage.value); }
        case MessageStop =>
          Ended(es, k, broken, st, written, seen);
          written, err := FinishStream(State(id, model, finalReason, emittedRole, toolIndex, nextToolIndex), written,
              accepts);
          return written, u.Value(), err;
        case Ignored =>
      }
      assert State(id, model, finalReason, emittedRole, toolIndex, nextToolIndex) == Next(st, es[k]);
      assert choice == Emitted(st, es[k]) && u.seen == seen + UsageIn(es[k]);
      if choice.Some? {
        if |written| >= accepts { return written, u.Value(), true; }
        written := written + [Chunk(ChatId(id), model, choice.value)];
      }
      assert written == before + Emission(st, es[k]);
    }
    Ended(es, |es|, broken, State(id, model, finalReason, emittedRole, toolIndex, nextToolIndex), written, u.seen);
    total := u.Value();
    if broken { return written, total, true; }
    written, err := FinishStream(State(id, model, finalReason, emittedRole, toolIndex, nextToolIndex), written,
        accepts);
  }
}
