/**
 The two translations of a Gemini response, whole and streamed, and the call ids they make up.
 */
module Gemini {
  import opened Wrappers
  import opened ChatStream

  /** `args` is the text of the arguments value, empty when there is none. */
  datatype FunctionCall = FunctionCall(name: string, args: string)
  datatype Part = Part(text: string, call: Option<FunctionCall>)
  datatype Candidate = Candidate(parts: seq<Part>, finishReason: string)

  /** One line of the stream: a response with its first candidate, or a line that is skipped. */
  datatype Event = Reply(first: Option<Candidate>) | Ignored

  // ---------------------------------------------------------------- call ids

  function Decimal(n: nat): (s: string)
    ensures s != [] && '_' !in s
  {
    var digit := ['0' + (n % 10) as char];
    if n < 10 then digit else Decimal(n / 10) + digit
  }

  function CallId(index: nat, name: string): string { "call_" + Decimal(index) + "_" + name }

  /** What follows the first underscore, if there is one. */
  function AfterUnderscore(s: string): Option<string> {
    if s == "" then None else if s[0] == '_' then Some(s[1..]) else AfterUnderscore(s[1..])
  }

  function CallName(id: string): string {
    if "call_" <= id then AfterUnderscore(id[5..]).GetOr("") else ""
  }

  lemma FirstChar(front: string, name: string)
    ensures (front + "_" + name)[0] == if front == "" then '_' else front[0]
    ensures front != "" ==> (front + "_" + name)[0] in front && (front + "_" + name)[1..] == front[1..] + "_" + name
    ensures front == "" ==> (front + "_" + name)[1..] == name
  {}

  lemma {:induction false} AfterUnderscoreIs(s: string, name: string)
    ensures AfterUnderscore(s) == Some(name) <==> exists front :: '_' !in front && s == front + "_" + name
  {
    if s == "" {
    } else if s[0] == '_' {
      assert s == "" + "_" + s[1..];
      forall front | '_' !in front && s == front + "_" + name ensures name == s[1..] {
        FirstChar(front, name);
      }
    } else {
      AfterUnderscoreIs(s[1..], name);
      if front :| '_' !in front && s[1..] == front + "_" + name {
        assert s == ([s[0]] + front) + "_" + name;
        assert '_' !in [s[0]] + front;
      }
      forall front | '_' !in front && s == front + "_" + name ensures AfterUnderscore(s[1..]) == Some(name) {
        FirstChar(front, name);
        assert s[1..] == front[1..] + "_" + name;
      }
    }
  }

  /** A name is read from exactly the ids of the form call_X_name, where X has no underscore. */
  lemma CallNameIs(id: string, name: string)
    requires name != ""
    ensures CallName(id) == name <==> exists x :: '_' !in x && id == "call_" + x + "_" + name
  {
    if "call_" <= id {
      assert id == "call_" + id[5..];
      AfterUnderscoreIs(id[5..], name);
      if x :| '_' !in x && id[5..] == x + "_" + name { assert id == "call_" + x + "_" + name; }
    }
    forall x | '_' !in x && id == "call_" + x + "_" + name ensures CallName(id) == name {
      assert id[5..] == x + "_" + name;
      assert id[..5] == "call_";
      AfterUnderscoreIs(id[5..], name);
    }
  }

  /** The name comes back from its id, underscores and all. */
  lemma CallNameRecovers(index: nat, name: string)
    ensures CallName(CallId(index, name)) == name
  {
    if name != "" {
      CallNameIs(CallId(index, name), name);
    } else {
      AfterUnderscoreIs(Decimal(index) + "_" + name, name);
      assert CallId(index, name)[5..] == Decimal(index) + "_" + name;
    }
  }

  function DigitsValue(s: string): int {
    if s == "" then 0 else 10 * DigitsValue(s[..|s| - 1]) + (s[|s| - 1] as int - '0' as int)
  }

  lemma {:induction false} DecimalValue(n: nat)
    ensures DigitsValue(Decimal(n)) == n
  {
    var s := Decimal(n);
    if n < 10 {
      assert s[..0] == "";
    } else {
      DecimalValue(n / 10);
      assert s[..|s| - 1] == Decimal(n / 10);
    }
  }

  /** Ids of different calls of one response differ, whatever the names. */
  lemma CallIdsDiffer(i: nat, a: string, j: nat, b: string)
    ensures CallId(i, a) == CallId(j, b) <==> i == j && a == b
  {
    if CallId(i, a) == CallId(j, b) {
      CallNameRecovers(i, a);
      CallNameRecovers(j, b);
      var id := CallId(i, a);
      assert id[5..|id| - |a| - 1] == Decimal(i);
      assert id[5..|id| - |a| - 1] == Decimal(j);
      DecimalValue(i);
      DecimalValue(j);
    }
  }

  // ---------------------------------------------------------------- the whole response

  function FinishOf(reason: string): string {
    if reason == "STOP" then "stop"
    else if reason == "MAX_TOKENS" then "length"
    else if reason in {"SAFETY", "RECITATION", "BLOCKLIST", "PROHIBITED_CONTENT"} then "content_filter"
    else if reason == "" then ""
    else "stop"
  }

  function ToolArguments(args: string): string { if args == "" || args == "null" then "{}" else args }

  function Called(call: FunctionCall, index: nat): ToolCall {
    ToolCall(CallId(index, call.name), call.name, ToolArguments(call.args))
  }

  function TextOf(parts: seq<Part>): string {
    if parts == [] then "" else parts[0].text + TextOf(parts[1..])
  }

  /** The calls of the parts, numbered from `from`. */
  function CallsOf(parts: seq<Part>, from: nat): seq<ToolCall> {
    if parts == [] then []
    else if parts[0].call.None? then CallsOf(parts[1..], from)
    else [Called(parts[0].call.value, from)] + CallsOf(parts[1..], from + 1)
  }

  /** Content is null exactly when there are calls and no text. */
  datatype Message = Message(content: Option<string>, calls: seq<ToolCall>, finish: string)

  function Whole(first: Option<Candidate>): Message {
    var parts := if first.Some? then first.value.parts else [];
    var finish := if first.Some? then FinishOf(first.value.finishReason) else "";
    var (text, calls) := (TextOf(parts), CallsOf(parts, 0));
    Message(if text != "" || calls == [] then Some(text) else None, calls,
            if calls != [] && (finish == "stop" || finish == "") then "tool_calls" else finish)
  }

  /** What each finish reason of a whole response says about the candidate. */
  lemma WholeFinishMeans(c: Candidate)
    ensures var (finish, called) := (Whole(Some(c)).finish, Whole(Some(c)).calls != []);
            var filtered := c.finishReason in {"SAFETY", "RECITATION", "BLOCKLIST", "PROHIBITED_CONTENT"};
            && (finish == "length" <==> c.finishReason == "MAX_TOKENS")
            && (finish == "content_filter" <==> filtered)
            && (finish == "tool_calls" <==> called && c.finishReason != "MAX_TOKENS" && !filtered)
            && (finish == "" <==> !called && c.finishReason == "")
            && (called <==> exists i :: 0 <= i < |c.parts| && c.parts[i].call.Some?)
  {
    SomeCall(c.parts, 0);
  }

  lemma {:induction false} SomeCall(parts: seq<Part>, from: nat)
    ensures CallsOf(parts, from) != [] <==> exists i :: 0 <= i < |parts| && parts[i].call.Some?
    decreases |parts|
  {
    if parts != [] {
      var rest := parts[1..];
      SomeCall(rest, from);
      if parts[0].call.None? {
        if i :| 0 <= i < |rest| && rest[i].call.Some? { assert parts[i + 1].call.Some?; }
        if i :| 0 <= i < |parts| && parts[i].call.Some? { assert rest[i - 1].call.Some?; }
      }
    }
  }

  /** After `k` parts, what is gathered and what the rest still brings make up the whole. */
  ghost predicate Gathering(parts: seq<Part>, k: nat, text: string, calls: seq<ToolCall>) {
    && k <= |parts|
    && text + TextOf(parts[k..]) == TextOf(parts)
    && calls + CallsOf(parts[k..], |calls|) == CallsOf(parts, 0)
  }

  lemma PartGathered(parts: seq<Part>, k: nat, text: string, calls: seq<ToolCall>)
    requires k < |parts| && Gathering(parts, k, text, calls)
    ensures Gathering(parts, k + 1, text + parts[k].text,
                      if parts[k].call.None? then calls else calls + [Called(parts[k].call.value, |calls|)])
  {
    var (p, rest) := (parts[k], parts[k + 1..]);
    assert parts[k..][1..] == rest;
    assert text + (p.text + TextOf(rest)) == text + p.text + TextOf(rest);
    if p.call.Some? {
      var c := Called(p.call.value, |calls|);
      var more := CallsOf(rest, |calls| + 1);
      assert calls + ([c] + more) == calls + [c] + more;
    }
  }

  lemma GatheringStarts(parts: seq<Part>)
    ensures Gathering(parts, 0, "", [])
  {
    hide TextOf, CallsOf;
    assert parts[0..] == parts;
    assert "" + TextOf(parts) == TextOf(parts);
    assert [] + CallsOf(parts, 0) == CallsOf(parts, 0);
  }

  lemma GatheringEnds(parts: seq<Part>, text: string, calls: seq<ToolCall>)
    requires Gathering(parts, |parts|, text, calls)
    ensures text == TextOf(parts) && calls == CallsOf(parts, 0)
  {
    NoParts(|calls|);
    hide TextOf, CallsOf;
    assert parts[|parts|..] == [];
    assert text + "" == text && calls + [] == calls;
  }

  lemma NoParts(from: nat)
    ensures TextOf([]) == "" && CallsOf([], from) == []
  {}

  method GeminiToOpenAI(first: Option<Candidate>) returns (m: Message)
    ensures m == Whole(first)
  {
    hide Gathering, Called;
    var text, calls: seq<ToolCall>, finish := "", [], "";
    if first.Some? {
      var parts := first.value.parts;
      GatheringStarts(parts);
      for k := 0 to |parts|
        invariant Gathering(parts, k, text, calls)
      {
        PartGathered(parts, k, text, calls);
        text := text + parts[k].text;
        if parts[k].call.Some? {
          calls := calls + [Called(parts[k].call.value, |calls|)];
        }
      }
      GatheringEnds(parts, text, calls);
      finish := FinishOf(first.value.finishReason);
    }
    if |calls| > 0 && (finish == "stop" || finish == "") { finish := "tool_calls"; }
    m := Message(if text != "" || |calls| == 0 then Some(text) else None, calls, finish);
  }

  // ---------------------------------------------------------------- the stream

  function PartChoices(parts: seq<Part>, calls: nat): seq<Choice> {
    if parts == [] then []
    else if parts[0].call.None? then TextChoice(parts[0]) + PartChoices(parts[1..], calls)
    else
      var c := Called(parts[0].call.value, calls);
      TextChoice(parts[0]) + ([Call(calls, c.id, c.name, c.args)] + PartChoices(parts[1..], calls + 1))
  }

  function TextChoice(p: Part): seq<Choice> { if p.text == "" then [] else [Text(p.text)] }

  /** The choices as chunks; the stream never learns Gemini's response id. */
  function Say(model: string, choices: seq<Choice>): (ws: seq<Write>)
    ensures |ws| == |choices|
    ensures forall i :: 0 <= i < |ws| ==> ws[i] == Chunk("chatcmpl-gemini", model, choices[i])
  {
    seq(|choices|, i requires 0 <= i < |choices| => Chunk("chatcmpl-gemini", model, choices[i]))
  }

  function StreamFinish(reason: string, calls: nat): string {
    var fr := if FinishOf(reason) == "" then "stop" else FinishOf(reason);
    if calls > 0 && fr == "stop" then "tool_calls" else fr
  }

  datatype State = State(role: bool, reason: string, calls: nat)

  function PartsIn(e: Event): seq<Part> { if e.Reply? && e.first.Some? then e.first.value.parts else [] }

  function ReasonIn(e: Event): string { if e.Reply? && e.first.Some? then e.first.value.finishReason else "" }

  function Next(st: State, e: Event): State {
    State(st.role || e.Reply?, if ReasonIn(e) != "" then ReasonIn(e) else st.reason,
          st.calls + |CallsOf(PartsIn(e), st.calls)|)
  }

  function Emitted(st: State, e: Event): seq<Choice> {
    (if e.Reply? && !st.role then [Role] else []) + PartChoices(PartsIn(e), st.calls)
  }

  function Ending(model: string, st: State): seq<Write> {
    Say(model, [Finish(StreamFinish(st.reason, st.calls))]) + [Done]
  }

  function Output(model: string, st: State, es: seq<Event>, broken: bool): seq<Write>
    decreases |es|
  {
    if es == [] then (if broken then [] else Ending(model, st))
    else Say(model, Emitted(st, es[0])) + Output(model, Next(st, es[0]), es[1..], broken)
  }

  const INIT := State(false, "", 0)

  // ---------------------------------------------------------------- the two agree

  function AllParts(es: seq<Event>): seq<Part> {
    if es == [] then [] else PartsIn(es[0]) + AllParts(es[1..])
  }

  /** The last non-empty finish reason. */
  function LastReason(es: seq<Event>): string {
    if es == [] then ""
    else if LastReason(es[1..]) != "" then LastReason(es[1..])
    else ReasonIn(es[0])
  }

  /** One response holding everything the stream held. */
  function Joined(es: seq<Event>): Candidate { Candidate(AllParts(es), LastReason(es)) }

  lemma {:induction false} TextOfJoin(a: seq<Part>, b: seq<Part>)
    ensures TextOf(a + b) == TextOf(a) + TextOf(b)
  {
    if a == [] {
      assert a + b == b;
      assert "" + TextOf(b) == TextOf(b);
    } else {
      assert (a + b)[1..] == a[1..] + b;
      TextOfJoin(a[1..], b);
      assert a[0].text + (TextOf(a[1..]) + TextOf(b)) == a[0].text + TextOf(a[1..]) + TextOf(b);
    }
  }

  lemma {:induction false} CallsOfJoin(a: seq<Part>, b: seq<Part>, from: nat)
    ensures CallsOf(a + b, from) == CallsOf(a, from) + CallsOf(b, from + |CallsOf(a, from)|)
    decreases |a|
  {
    if a == [] {
      assert a + b == b;
    } else {
      assert (a + b)[1..] == a[1..] + b;
      CallsOfJoin(a[1..], b, if a[0].call.None? then from else from + 1);
    }
  }

  lemma SayJoin(model: string, a: seq<Choice>, b: seq<Choice>)
    ensures Say(model, a + b) == Say(model, a) + Say(model, b)
  {}

  /** Receiving choices, whatever chunk they came in. */
  function Take(client: Client, choices: seq<Choice>): Client
    decreases |choices|
  {
    if choices == [] then client else Take(Receive(client, Chunk("", "", choices[0])), choices[1..])
  }

  lemma {:induction false} TakeJoin(client: Client, a: seq<Choice>, b: seq<Choice>)
    ensures Take(client, a + b) == Take(Take(client, a), b)
    decreases |a|
  {
    if a == [] {
      assert a + b == b;
    } else {
      assert (a + b)[1..] == a[1..] + b;
      TakeJoin(Receive(client, Chunk("", "", a[0])), a[1..], b);
    }
  }

  lemma {:induction false} SayReceived(model: string, client: Client, choices: seq<Choice>)
    ensures ReceiveAll(client, Say(model, choices)) == Take(client, choices)
    decreases |choices|
  {
    if choices != [] {
      assert Say(model, choices)[1..] == Say(model, choices[1..]);
      SayReceived(model, Receive(client, Chunk("", "", choices[0])), choices[1..]);
    }
  }

  lemma TextTaken(client: Client, p: Part)
    ensures Take(client, TextChoice(p)) == client.(text := client.text + p.text)
  {
    assert client.text + "" == client.text;
    assert [Text(p.text)][1..] == [];
  }

  lemma CallTaken(client: Client, c: ToolCall, list: seq<ToolCall>)
    requires AreCalls(client.calls, list)
    ensures var end := Take(client, [Call(|list|, c.id, c.name, c.args)]);
            AreCalls(end.calls, list + [c]) && end == client.(calls := end.calls)
  {
    assert [Call(|list|, c.id, c.name, c.args)][1..] == [];
    assert "" + c.id == c.id && "" + c.name == c.name && "" + c.args == c.args;
  }

  lemma {:induction false} PartsTaken(client: Client, parts: seq<Part>, list: seq<ToolCall>)
    requires AreCalls(client.calls, list)
    ensures var end := Take(client, PartChoices(parts, |list|));
            && end.text == client.text + TextOf(parts)
            && AreCalls(end.calls, list + CallsOf(parts, |list|))
            && end == client.(text := end.text, calls := end.calls)
    decreases |parts|
  {
    hide AreCalls, TextChoice, Called;
    if parts == [] {
      assert client.text + "" == client.text && list + [] == list;
    } else {
      var (p, rest) := (parts[0], parts[1..]);
      var client' := client.(text := client.text + p.text);
      TextTaken(client, p);
      assert client.text + p.text + TextOf(rest) == client.text + (p.text + TextOf(rest));
      if p.call.None? {
        TakeJoin(client, TextChoice(p), PartChoices(rest, |list|));
        PartsTaken(client', rest, list);
      } else {
        var c := Called(p.call.value, |list|);
        var call, more := Call(|list|, c.id, c.name, c.args), PartChoices(rest, |list| + 1);
        TakeJoin(client, TextChoice(p), [call] + more);
        TakeJoin(client', [call], more);
        CallTaken(client', c, list);
        PartsTaken(Take(client', [call]), rest, list + [c]);
        assert list + [c] + CallsOf(rest, |list| + 1) == list + ([c] + CallsOf(rest, |list| + 1));
      }
    }
  }

  predicate Replies(es: seq<Event>) { exists i :: 0 <= i < |es| && es[i].Reply? }

  lemma RepliesLater(e: Event, rest: seq<Event>)
    ensures Replies([e] + rest) <==> e.Reply? || Replies(rest)
  {
    if e.Reply? { assert ([e] + rest)[0].Reply?; }
    if i :| 0 <= i < |rest| && rest[i].Reply? { assert ([e] + rest)[i + 1].Reply?; }
  }

  /** What a client has after a stream, from what it had before it. */
  ghost predicate Received(end: Client, client: Client, st: State, es: seq<Event>, list: seq<ToolCall>, broken: bool) {
    && end.text == client.text + TextOf(AllParts(es))
    && AreCalls(end.calls, list + CallsOf(AllParts(es), |list|))
    && end.roles == client.roles + (if !st.role && Replies(es) then 1 else 0)
    && end.finishes == client.finishes +
       (if broken then []
        else [StreamFinish(if LastReason(es) == "" then st.reason else LastReason(es),
                           |list + CallsOf(AllParts(es), |list|)|)])
    && end.dones == client.dones + if broken then 0 else 1
  }

  lemma EventTaken(client: Client, st: State, e: Event, list: seq<ToolCall>)
    requires AreCalls(client.calls, list) && |list| == st.calls
    ensures var end := Take(client, Emitted(st, e));
            && AreCalls(end.calls, list + CallsOf(PartsIn(e), |list|))
            && end == client.(roles := client.roles + (if e.Reply? && !st.role then 1 else 0),
                              text := client.text + TextOf(PartsIn(e)), calls := end.calls)
  {
    hide AreCalls, PartChoices;
    var role: seq<Choice> := if e.Reply? && !st.role then [Role] else [];
    TakeJoin(client, role, PartChoices(PartsIn(e), st.calls));
    assert [Role][1..] == [];
    PartsTaken(Take(client, role), PartsIn(e), list);
  }

  lemma ReceivedStep(end: Client, client: Client, client': Client, st: State, e: Event, rest: seq<Event>,
                     list: seq<ToolCall>, broken: bool)
    requires client' == client.(roles := client.roles + (if e.Reply? && !st.role then 1 else 0),
                                text := client.text + TextOf(PartsIn(e)), calls := client'.calls)
    requires Received(end, client', Next(st, e), rest, list + CallsOf(PartsIn(e), |list|), broken)
    ensures Received(end, client, st, [e] + rest, list, broken)
  {
    hide AreCalls, CallsOf, TextOf, StreamFinish, PartsIn, ReasonIn, Replies, AllParts, LastReason;
    JoinedStep(client.text, list, e, rest);
    LastReasonStep(e, rest);
    RepliesLater(e, rest);
  }

  lemma JoinedStep(text: string, list: seq<ToolCall>, e: Event, rest: seq<Event>)
    ensures text + TextOf(AllParts([e] + rest)) == text + TextOf(PartsIn(e)) + TextOf(AllParts(rest))
    ensures var calls := list + CallsOf(PartsIn(e), |list|);
            list + CallsOf(AllParts([e] + rest), |list|) == calls + CallsOf(AllParts(rest), |calls|)
  {
    hide CallsOf, TextOf, PartsIn;
    assert ([e] + rest)[1..] == rest;
    var (now, later) := (PartsIn(e), AllParts(rest));
    TextOfJoin(now, later);
    assert text + TextOf(now) + TextOf(later) == text + (TextOf(now) + TextOf(later));
    CallsOfJoin(now, later, |list|);
    var calls := CallsOf(now, |list|);
    assert list + calls + CallsOf(later, |list| + |calls|) == list + (calls + CallsOf(later, |list| + |calls|));
  }

  lemma LastReasonStep(e: Event, rest: seq<Event>)
    ensures LastReason([e] + rest) == if LastReason(rest) != "" then LastReason(rest) else ReasonIn(e)
  {
    assert ([e] + rest)[1..] == rest;
  }

  lemma EndingReceived(client: Client, model: string, st: State)
    ensures ReceiveAll(client, Ending(model, st)) ==
            client.(finishes := client.finishes + [StreamFinish(st.reason, st.calls)], dones := client.dones + 1)
  {
    var (finish, done) := (Ending(model, st)[0], Done);
    assert Ending(model, st) == [finish] + [done] && [finish][1..] == [] && [done][1..] == [];
    ReceiveAllJoin(client, [finish], [done]);
    assert ReceiveAll(client, [finish]) == Receive(client, finish);
    assert ReceiveAll(Receive(client, finish), [done]) == Receive(Receive(client, finish), done);
  }

  lemma NothingReceived(end: Client, client: Client, st: State, list: seq<ToolCall>, broken: bool)
    requires AreCalls(client.calls, list) && |list| == st.calls
    requires end == if broken then client
                    else client.(finishes := client.finishes + [StreamFinish(st.reason, st.calls)],
                        dones := client.dones + 1)
    ensures Received(end, client, st, [], list, broken)
  {
    assert client.text + "" == client.text && list + [] == list && client.finishes + [] == client.finishes;
  }

  lemma {:induction false} StreamReceived(model: string, client: Client, st: State, es: seq<Event>,
      list: seq<ToolCall>, broken: bool)
    requires AreCalls(client.calls, list) && |list| == st.calls
    ensures Received(ReceiveAll(client, Output(model, st, es, broken)), client, st, es, list, broken)
    decreases |es|
  {
    hide AreCalls, Received, Emitted, Ending, PartsIn, ReasonIn, CallsOf, Say;
    var end := ReceiveAll(client, Output(model, st, es, broken));
    if es == [] {
      EndingReceived(client, model, st);
      NothingReceived(end, client, st, list, broken);
    } else {
      var (e, rest) := (es[0], es[1..]);
      assert es == [e] + rest;
      var more := Output(model, Next(st, e), rest, broken);
      ReceiveAllJoin(client, Say(model, Emitted(st, e)), more);
      SayReceived(model, client, Emitted(st, e));
      EventTaken(client, st, e, list);
      var client' := Take(client, Emitted(st, e));
      StreamReceived(model, client', Next(st, e), rest, list + CallsOf(PartsIn(e), |list|), broken);
      ReceivedStep(end, client, client', st, e, rest, list, broken);
    }
  }

  /**
   Streamed or whole, the text and the calls (ids, names, arguments, order) are the same. The finish
   reasons agree exactly when some chunk gave one or there was a call; otherwise the stream says
   `stop` and the whole response says nothing.
   */
  lemma StreamAgreesWithWhole(model: string, es: seq<Event>)
    ensures var (end, whole) := (ReceiveAll(NEW_CLIENT, Output(model, INIT, es, false)), Whole(Some(Joined(es))));
            && end.text == whole.content.GetOr("")
            && (whole.content.None? <==> end.text == "" && whole.calls != [])
            && AreCalls(end.calls, whole.calls)
            && end.roles == (if Replies(es) then 1 else 0)
            && |end.finishes| == end.dones == 1
            && (end.finishes == [whole.finish] <==> LastReason(es) != "" || whole.calls != [])
            && (end.finishes != [whole.finish] ==> end.finishes == ["stop"] && whole.finish == "")
  {
    hide AreCalls;
    NoCalls();
    StreamReceived(model, NEW_CLIENT, INIT, es, [], false);
    var calls := CallsOf(AllParts(es), 0);
    assert [] + calls == calls && "" + TextOf(AllParts(es)) == TextOf(AllParts(es));
    assert [] + [StreamFinish(LastReason(es), |calls|)] == [StreamFinish(LastReason(es), |calls|)];
    FinishesAgree(LastReason(es), calls);
  }

  lemma FinishesAgree(reason: string, calls: seq<ToolCall>)
    ensures var finish := FinishOf(reason);
            var whole := if calls != [] && (finish == "stop" || finish == "") then "tool_calls" else finish;
            && (StreamFinish(reason, |calls|) == whole <==> reason != "" || calls != [])
            && (reason == "" && calls == [] ==> StreamFinish(reason, |calls|) == "stop" && whole == "")
  {}

  lemma NoCalls()
    ensures AreCalls(NEW_CLIENT.calls, [])
  {}

  /** When reading breaks off, what came before stands, and no finish reason or `[DONE]` is sent. */
  lemma BrokenStreamHasNoEnd(model: string, es: seq<Event>)
    ensures var end := ReceiveAll(NEW_CLIENT, Output(model, INIT, es, true));
            && end.text == TextOf(AllParts(es)) && AreCalls(end.calls, CallsOf(AllParts(es), 0))
            && end.finishes == [] && end.dones == 0
  {
    hide AreCalls;
    NoCalls();
    StreamReceived(model, NEW_CLIENT, INIT, es, [], true);
    var calls := CallsOf(AllParts(es), 0);
    assert [] + calls == calls && "" + TextOf(AllParts(es)) == TextOf(AllParts(es));
  }

  // ---------------------------------------------------------------- the loop

  /** The inner loop: the parts of one candidate, until a write fails. */
  method EmitParts(model: string, parts: seq<Part>, calls: nat, before: seq<Write>, accepts: nat)
    returns (written: seq<Write>, toolCalls: nat, ok: bool)
    requires |before| <= accepts
    ensures written == UpTo(before + Say(model, PartChoices(parts, calls)), accepts)
    ensures ok == (|before + Say(model, PartChoices(parts, calls))| <= accepts)
    ensures ok ==> toolCalls == calls + |CallsOf(parts, calls)|
  {
    hide Called, ToolArguments, Speaking;
    written, toolCalls := before, calls;
    SpeakingStarts(model, parts, calls, before);
    for k := 0 to |parts|
      invariant |written| <= accepts
      invariant Speaking(model, parts, calls, before, k, toolCalls, written)
    {
      var p := parts[k];
      ghost var (n, earlier) := (toolCalls, written);
      PartSpoken(model, parts, calls, before, k, toolCalls, written);
      if p.text != "" {
        if |written| >= accepts { return written, toolCalls, false; }
        written := written + [Chunk("chatcmpl-gemini", model, Text(p.text))];
      }
      if p.call.Some? {
        var call := Called(p.call.value, toolCalls);
        var choice := Call(toolCalls, call.id, call.name, call.args);
        toolCalls := toolCalls + 1;
        if |written| >= accepts { return written, toolCalls, false; }
        written := written + [Chunk("chatcmpl-gemini", model, choice)];
      }
      assert written == earlier + PartWrites(model, p, n);
    }
    SpeakingEnds(model, parts, calls, before, toolCalls, written);
    ok := true;
  }

  ghost predicate Speaking(model: string, parts: seq<Part>, calls: nat, before: seq<Write>, k: nat, toolCalls: nat,
      written: seq<Write>) {
    && k <= |parts|
    && before + Say(model, PartChoices(parts, calls)) == written + Say(model, PartChoices(parts[k..], toolCalls))
    && calls + |CallsOf(parts, calls)| == toolCalls + |CallsOf(parts[k..], toolCalls)|
  }

  lemma SpeakingStarts(model: string, parts: seq<Part>, calls: nat, before: seq<Write>)
    ensures Speaking(model, parts, calls, before, 0, calls, before)
  {
    assert parts[0..] == parts;
  }

  /** What one part writes. */
  function PartWrites(model: string, p: Part, calls: nat): seq<Write> {
    var text := if p.text == "" then [] else [Chunk("chatcmpl-gemini", model, Text(p.text))];
    if p.call.None? then text
    else
      var c := Called(p.call.value, calls);
      text + [Chunk("chatcmpl-gemini", model, Call(calls, c.id, c.name, c.args))]
  }

  lemma SayPart(model: string, p: Part, rest: seq<Part>, calls: nat)
    ensures Say(model, PartChoices([p] + rest, calls)) ==
            PartWrites(model, p, calls) + Say(model, PartChoices(rest, if p.call.None? then calls else calls + 1))
  {
    hide Called;
    assert ([p] + rest)[1..] == rest;
    if p.call.None? {
      SayJoin(model, TextChoice(p), PartChoices(rest, calls));
      assert Say(model, TextChoice(p)) == PartWrites(model, p, calls);
    } else {
      var (c, more) := (Called(p.call.value, calls), PartChoices(rest, calls + 1));
      var call := [Call(calls, c.id, c.name, c.args)];
      assert TextChoice(p) + (call + more) == TextChoice(p) + call + more;
      SayJoin(model, TextChoice(p) + call, more);
      assert Say(model, TextChoice(p) + call) == PartWrites(model, p, calls);
    }
  }

  lemma PartSpoken(model: string, parts: seq<Part>, calls: nat, before: seq<Write>, k: nat, toolCalls: nat,
      written: seq<Write>)
    requires k < |parts| && Speaking(model, parts, calls, before, k, toolCalls, written)
    ensures var after := written + PartWrites(model, parts[k], toolCalls);
            && Speaking(model, parts, calls, before, k + 1,
                        if parts[k].call.None? then toolCalls else toolCalls + 1, after)
            && after <= before + Say(model, PartChoices(parts, calls))
  {
    hide Called, PartChoices, Say, PartWrites;
    var (p, rest, next) := (parts[k], parts[k + 1..], if parts[k].call.None? then toolCalls else toolCalls + 1);
    assert parts[k..] == [p] + rest && ([p] + rest)[1..] == rest;
    SayPart(model, p, rest, toolCalls);
    var more := Say(model, PartChoices(rest, next));
    assert written + (PartWrites(model, p, toolCalls) + more) == written + PartWrites(model, p, toolCalls) + more;
  }

  lemma SpeakingEnds(model: string, parts: seq<Part>, calls: nat, before: seq<Write>, toolCalls: nat,
      written: seq<Write>)
    requires Speaking(model, parts, calls, before, |parts|, toolCalls, written)
    ensures written == before + Say(model, PartChoices(parts, calls)) && toolCalls == calls + |CallsOf(parts, calls)|
  {
    assert written + Say(model, []) == written;
  }

  /** The loop body: one response, unless a write fails. */
  method TranslateReply(model: string, st: State, first: Option<Candidate>, before: seq<Write>, accepts: nat)
    returns (written: seq<Write>, next: State, ok: bool)
    requires |before| <= accepts
    ensures written == UpTo(before + EventWrites(model, st, Reply(first)), accepts)
    ensures ok == (|before + EventWrites(model, st, Reply(first))| <= accepts)
    ensures ok ==> next == Next(st, Reply(first))
  {
    hide Say, PartChoices, CallsOf;
    written, next := before, st;
    ghost var all := before + EventWrites(model, st, Reply(first));
    NothingToSay(model, st.calls);
    if !next.role {
      next := next.(role := true);
      if |written| >= accepts { return written, next, false; }
      written := written + [Chunk("chatcmpl-gemini", model, Role)];
    }
    if first.None? {
      assert written == all;
      return written, next, true;
    }
    assert all == written + Say(model, PartChoices(first.value.parts, st.calls));
    var toolCalls;
    written, toolCalls, ok := EmitParts(model, first.value.parts, st.calls, written, accepts);
    if !ok { return; }
    next := next.(calls := toolCalls);
    if first.value.finishReason != "" { next := next.(reason := first.value.finishReason); }
  }

  /** The translator; `accepts` is how many writes the client takes before one fails. */
  method StreamGeminiToOpenAI(model: string, es: seq<Event>, broken: bool, accepts: nat)
    returns (written: seq<Write>, err: bool)
    ensures written == UpTo(Output(model, INIT, es, broken), accepts)
    ensures err == (|Output(model, INIT, es, broken)| > accepts || broken)
  {
    hide Say, PartChoices, CallsOf, Translating, Output, EventWrites, Next;
    var st := INIT;
    written := [];
    TranslatingStarts(model, es, broken);
    for k := 0 to |es|
      invariant |written| <= accepts
      invariant Translating(model, es, k, broken, st, written)
    {
      EventTranslated(model, es, k, broken, st, written);
      match es[k] {
        case Ignored =>
          IgnoredSaysNothing(model, st, written);
        case Reply(first) =>
          ghost var all := written + EventWrites(model, st, es[k]);
          var ok;
          written, st, ok := TranslateReply(model, st, first, written, accepts);
          if !ok {
            CutShort(all, Output(model, INIT, es, broken), accepts);
            return written, true;
          }
      }
    }
    TranslatingEnds(model, es, broken, st, written);
    if broken { return written, true; }
    written, err := FinishStream(model, st, written, accepts);
  }

  lemma CutShort(some: seq<Write>, all: seq<Write>, n: nat)
    requires some <= all && n < |some|
    ensures UpTo(all, n) == UpTo(some, n)
  {}

  lemma IgnoredSaysNothing(model: string, st: State, written: seq<Write>)
    ensures Next(st, Ignored) == st && written + EventWrites(model, st, Ignored) == written
  {}

  method FinishStream(model: string, st: State, before: seq<Write>, accepts: nat)
    returns (written: seq<Write>, err: bool)
    requires |before| <= accepts
    ensures written == UpTo(before + Ending(model, st), accepts) && err == (|before| + 2 > accepts)
  {
    var fr := FinishOf(st.reason);
    if fr == "" { fr := "stop"; }
    if st.calls > 0 && fr == "stop" { fr := "tool_calls"; }
    if |before| >= accepts { return before, true; }
    written := before + [Chunk("chatcmpl-gemini", model, Finish(fr))];
    if |written| >= accepts { return written, true; }
    return written + [Done], false;
  }

  ghost predicate Translating(model: string, es: seq<Event>, k: nat, broken: bool, st: State, written: seq<Write>) {
    k <= |es| && Output(model, INIT, es, broken) == written + Output(model, st, es[k..], broken)
  }

  /** What one event writes. */
  function EventWrites(model: string, st: State, e: Event): seq<Write> {
    (if e.Reply? && !st.role then [Chunk("chatcmpl-gemini", model, Role)] else [])
    + Say(model, PartChoices(PartsIn(e), st.calls))
  }

  lemma NothingToSay(model: string, calls: nat)
    ensures CallsOf([], calls) == [] && Say(model, PartChoices([], calls)) == []
  {}

  lemma TranslatingStarts(model: string, es: seq<Event>, broken: bool)
    ensures Translating(model, es, 0, broken, INIT, [])
  {
    assert es[0..] == es;
  }

  lemma EventTranslated(model: string, es: seq<Event>, k: nat, broken: bool, st: State, written: seq<Write>)
    requires k < |es| && Translating(model, es, k, broken, st, written)
    ensures Translating(model, es, k + 1, broken, Next(st, es[k]), written + EventWrites(model, st, es[k]))
    ensures written + EventWrites(model, st, es[k]) <= Output(model, INIT, es, broken)
  {
    hide Next, PartChoices, PartsIn;
    var (e, rest) := (es[k], es[k + 1..]);
    assert es[k..] == [e] + rest && ([e] + rest)[1..] == rest;
    assert Say(model, Emitted(st, e)) == EventWrites(model, st, e);
    var more := Output(model, Next(st, e), rest, broken);
    assert written + (EventWrites(model, st, e) + more) == written + EventWrites(model, st, e) + more;
  }

  lemma TranslatingEnds(model: string, es: seq<Event>, broken: bool, st: State, written: seq<Write>)
    requires Translating(model, es, |es|, broken, st, written)
    ensures Output(model, INIT, es, broken) == written + if broken then [] else Ending(model, st)
    ensures |Ending(model, st)| == 2
  {}
}
