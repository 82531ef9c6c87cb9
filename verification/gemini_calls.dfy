/**
 What the two Gemini translations hand to a client, part by part: whose name, id and arguments a tool
 call has, how the text is put together, and how the chunks of a stream are labelled and end.
 */
module GeminiCalls {
  import opened Wrappers
  import opened ChatStream
  import opened Gemini

  /** The parts with a call, in order. */
  function WithCalls(parts: seq<Part>): seq<Part> {
    if parts == [] then []
    else WithCalls(parts[..|parts| - 1]) + if parts[|parts| - 1].call.Some? then [parts[|parts| - 1]] else []
  }

  /** The client's `i`-th call is this part's: its name, an id of index and name, and its own arguments. */
  ghost predicate CallOf(call: ToolCall, i: nat, p: Part) {
    && p.call.Some?
    && call.name == p.call.value.name
    && call.id == CallId(i, p.call.value.name)
    && (p.call.value.args !in {"", "null"} ==> call.args == p.call.value.args)
    && (call.args == "{}" <==> p.call.value.args in {"", "null", "{}"})
  }

  ghost predicate CallsAreParts(calls: seq<ToolCall>, parts: seq<Part>) {
    && |calls| == |WithCalls(parts)|
    && forall i :: 0 <= i < |calls| ==> CallOf(calls[i], i, WithCalls(parts)[i])
  }

  lemma CalledIs(p: Part, i: nat)
    requires p.call.Some?
    ensures CallOf(Called(p.call.value, i), i, p)
  {
    hide CallId;
  }

  lemma OnePartMore(calls: seq<ToolCall>, front: seq<Part>, p: Part)
    requires CallsAreParts(calls, front)
    ensures CallsAreParts(if p.call.None? then calls else calls + [Called(p.call.value, |calls|)], front + [p])
  {
    assert (front + [p])[..|front|] == front;
    if p.call.Some? { CalledIs(p, |calls|); }
    hide CallOf, Called;
  }

  lemma OnlyCall(p: Part, from: nat)
    ensures CallsOf([p], from) == if p.call.None? then [] else [Called(p.call.value, from)]
  {
    hide Called;
    NoParts(from);
    NoParts(from + 1);
    assert [p][1..] == [];
  }

  lemma LastCall(front: seq<Part>, p: Part)
    ensures var calls := CallsOf(front, 0);
            CallsOf(front + [p], 0) == if p.call.None? then calls else calls + [Called(p.call.value, |calls|)]
  {
    hide Called, CallsOf;
    CallsOfJoin(front, [p], 0);
    OnlyCall(p, |CallsOf(front, 0)|);
    assert CallsOf(front, 0) + [] == CallsOf(front, 0);
  }

  lemma {:induction false} CallsOfParts(parts: seq<Part>)
    ensures CallsAreParts(CallsOf(parts, 0), parts)
    decreases |parts|
  {
    if parts == [] {
      NoParts(0);
    } else {
      hide CallsAreParts, Called, CallsOf;
      var (front, p) := (parts[..|parts| - 1], parts[|parts| - 1]);
      CallsOfParts(front);
      OnePartMore(CallsOf(front, 0), front, p);
      LastCall(front, p);
      assert parts == front + [p];
    }
  }

  /** Which parts and reasons a stream has: those of the first candidate of every reply, one after another. */
  lemma {:induction false} EventsMean(es: seq<Event>, e: Event)
    ensures AllParts([]) == [] && LastReason([]) == ""
    ensures AllParts(es + [e]) == AllParts(es) + match e case Reply(Some(c)) => c.parts case _ => []
    ensures LastReason(es + [e]) ==
              match e
              case Reply(Some(c)) => if c.finishReason == "" then LastReason(es) else c.finishReason
              case _ => LastReason(es)
    decreases |es|
  {
    if es == [] {
      assert [] + [e] == [e] && [e][1..] == [];
    } else {
      assert (es + [e])[1..] == es[1..] + [e];
      EventsMean(es[1..], e);
    }
  }

  function Joined(texts: seq<string>): string {
    if texts == [] then "" else Joined(texts[..|texts| - 1]) + texts[|texts| - 1]
  }

  function Texts(parts: seq<Part>): (ts: seq<string>)
    ensures |ts| == |parts| && forall i :: 0 <= i < |ts| ==> ts[i] == parts[i].text
  {
    seq(|parts|, i requires 0 <= i < |parts| => parts[i].text)
  }

  lemma {:induction false} TextIsJoined(parts: seq<Part>)
    ensures TextOf(parts) == Joined(Texts(parts))
    decreases |parts|
  {
    if parts != [] {
      var (front, p) := (parts[..|parts| - 1], parts[|parts| - 1]);
      TextIsJoined(front);
      TextOfJoin(front, [p]);
      assert parts == front + [p] && [p][1..] == [] && p.text + "" == p.text;
      assert Texts(parts)[..|parts| - 1] == Texts(front);
    }
  }

  /** The message of a whole response has the texts of all parts and the calls of those that have one. */
  lemma WholeMessageMeans(c: Candidate)
    ensures var m := Whole(Some(c));
            && CallsAreParts(m.calls, c.parts)
            && m.content.GetOr("") == Joined(Texts(c.parts))
            && (m.content == None <==> m.calls != [] && Joined(Texts(c.parts)) == "")
    ensures Whole(None) == Message(Some(""), [], "")
  {
    CallsOfParts(c.parts);
    TextIsJoined(c.parts);
  }

  /** And so has a client of the stream, finished or broken off. */
  lemma StreamedMessageMeans(model: string, es: seq<Event>, broken: bool)
    ensures var end := ReceiveAll(NEW_CLIENT, Output(model, INIT, es, broken));
            && end.text == Joined(Texts(AllParts(es)))
            && exists calls :: AreCalls(end.calls, calls) && CallsAreParts(calls, AllParts(es))
  {
    hide AreCalls, CallsAreParts, CallsOf, TextOf, Output, ReceiveAll, Joined, Texts;
    NoCalls();
    StreamReceived(model, NEW_CLIENT, INIT, es, [], broken);
    CallsOfParts(AllParts(es));
    TextIsJoined(AllParts(es));
    var calls := CallsOf(AllParts(es), 0);
    assert [] + calls == calls && "" + TextOf(AllParts(es)) == TextOf(AllParts(es));
  }

  // ---------------------------------------------------------------- the chunks

  ghost predicate Labelled(w: Write, model: string) { w.Done? || (w.id == "chatcmpl-gemini" && w.model == model) }

  /** Every chunk names the model asked for. */
  lemma {:induction false} ChunksAreLabelled(model: string, st: State, es: seq<Event>, broken: bool)
    ensures forall i :: 0 <= i < |Output(model, st, es, broken)| ==> Labelled(Output(model, st, es, broken)[i], model)
    decreases |es|
  {
    hide Emitted, Next;
    if es != [] { ChunksAreLabelled(model, Next(st, es[0]), es[1..], broken); }
  }

  lemma {:induction false} PartsGoOn(parts: seq<Part>, calls: nat)
    ensures forall i :: 0 <= i < |PartChoices(parts, calls)| ==>
              PartChoices(parts, calls)[i].Text? || PartChoices(parts, calls)[i].Call?
    decreases |parts|
  {
    hide Called;
    if parts != [] { PartsGoOn(parts[1..], if parts[0].call.None? then calls else calls + 1); }
  }

  ghost predicate GoesOn(ws: seq<Write>) { forall i :: 0 <= i < |ws| ==> Within(ws[i]) }

  /** What an event writes: the role before anything else, and nothing that ends the stream. */
  lemma EventGoesOn(model: string, st: State, e: Event)
    ensures var ws := Say(model, Emitted(st, e));
            && GoesOn(ws)
            && (e.Reply? && !st.role ==> ws != [] && ws[0] == Chunk("chatcmpl-gemini", model, Role))
            && (!e.Reply? ==> ws == [])
  {
    PartsGoOn(PartsIn(e), st.calls);
  }

  /** The finish chunk and `[DONE]` come last and nowhere else; a stream that breaks off has neither. */
  lemma {:induction false} StreamEndsOnce(model: string, st: State, es: seq<Event>, broken: bool)
    ensures var ws := Output(model, st, es, broken);
            if broken then GoesOn(ws) else exists reason :: EndsOnce(ws, reason)
    decreases |es|
  {
    hide Emitted, Next, Say, EndsOnce, GoesOn;
    if es == [] {
      EndsWithDone(model, st);
      if !broken { assert EndsOnce(Output(model, st, es, broken), StreamFinish(st.reason, st.calls)); }
    } else {
      EventGoesOn(model, st, es[0]);
      StreamEndsOnce(model, Next(st, es[0]), es[1..], broken);
      var (now, rest) := (Say(model, Emitted(st, es[0])), Output(model, Next(st, es[0]), es[1..], broken));
      if broken {
        StillGoesOn(now, rest);
      } else {
        var reason :| EndsOnce(rest, reason);
        EndsLater(now, rest, reason);
        assert EndsOnce(Output(model, st, es, broken), reason);
      }
    }
  }

  lemma StillGoesOn(now: seq<Write>, rest: seq<Write>)
    requires GoesOn(now) && GoesOn(rest)
    ensures GoesOn(now + rest)
  {}

  lemma EndsLater(now: seq<Write>, rest: seq<Write>, reason: string)
    requires EndsOnce(rest, reason) && GoesOn(now)
    ensures EndsOnce(now + rest, reason)
  {}

  lemma EndsWithDone(model: string, st: State)
    ensures EndsOnce(Ending(model, st), StreamFinish(st.reason, st.calls)) && GoesOn([])
  {}

  /** The first chunk a client sees is the role, as soon as there is any reply. */
  lemma {:induction false} RoleComesFirst(model: string, es: seq<Event>, broken: bool)
    requires Replies(es)
    ensures var ws := Output(model, INIT, es, broken);
            ws != [] && ws[0] == Chunk("chatcmpl-gemini", model, Role)
    decreases |es|
  {
    EventGoesOn(model, INIT, es[0]);
    if !es[0].Reply? {
      assert es == [es[0]] + es[1..];
      RepliesLater(es[0], es[1..]);
      assert Next(INIT, es[0]) == INIT;
      RoleComesFirst(model, es[1..], broken);
    }
  }

  /** What the finish reason of a stream says about the last reason given and the calls made. */
  lemma StreamFinishMeans(reason: string, calls: nat)
    ensures var (finish, filtered) := (StreamFinish(reason, calls),
                                       reason in {"SAFETY", "RECITATION", "BLOCKLIST", "PROHIBITED_CONTENT"});
            && (finish == "length" <==> reason == "MAX_TOKENS")
            && (finish == "content_filter" <==> filtered)
            && (finish == "tool_calls" <==> calls > 0 && reason != "MAX_TOKENS" && !filtered)
            && (finish == "stop" <==> calls == 0 && reason != "MAX_TOKENS" && !filtered)
  {}
}
