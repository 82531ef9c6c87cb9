/**
 What the single events of an Anthropic stream come to: which counts are billed, what a client is sent
 for an event, and under which id and model.
 */
module AnthropicEvents {
  import opened Wrappers
  import opened ChatStream
  import opened AnthropicStream

  // ---------------------------------------------------------------- usage

  /** The last positive figure, or 0 if there is none. */
  ghost predicate IsLastPositive(v: int, seen: seq<Counts>, figure: Counts -> int) {
    || (v == 0 && forall k :: 0 <= k < |seen| ==> figure(seen[k]) <= 0)
    || exists k :: LastPositiveAt(seen, figure, k) && v == figure(seen[k])
  }

  ghost predicate LastPositiveAt(seen: seq<Counts>, figure: Counts -> int, k: int) {
    0 <= k < |seen| && figure(seen[k]) > 0 && forall j :: k < j < |seen| ==> figure(seen[j]) <= 0
  }

  lemma {:induction false} LastPositiveIs(seen: seq<Counts>, f: Field, figure: Counts -> int)
    requires forall c :: figure(c) == At(c, f)
    ensures IsLastPositive(LastPositive(seen, f), seen, figure)
    decreases |seen|
  {
    if seen != [] {
      var (front, c) := (seen[..|seen| - 1], seen[|seen| - 1]);
      LastPositiveIs(front, f, figure);
      LastPositiveAppend(front, c, f);
      assert seen == front + [c];
      if figure(c) > 0 {
        assert LastPositiveAt(seen, figure, |front|);
      } else if k :| LastPositiveAt(front, figure, k) && LastPositive(front, f) == figure(front[k]) {
        assert LastPositiveAt(seen, figure, k);
      }
    }
  }

  /** Each count of a response is the last positive one reported, and the input is fresh plus cached. */
  lemma FoldedMeans(seen: seq<Counts>)
    ensures var t := Folded(seen);
            && IsLastPositive(t.output, seen, (c: Counts) => c.output)
            && IsLastPositive(t.cacheRead, seen, (c: Counts) => c.cacheRead)
            && IsLastPositive(t.cacheWrite, seen, (c: Counts) => c.cacheWrite)
            && IsLastPositive(t.input - t.cacheRead - t.cacheWrite, seen, (c: Counts) => c.input)
  {
    LastPositiveIs(seen, Input, (c: Counts) => c.input);
    LastPositiveIs(seen, Out, (c: Counts) => c.output);
    LastPositiveIs(seen, CacheRead, (c: Counts) => c.cacheRead);
    LastPositiveIs(seen, CacheWrite, (c: Counts) => c.cacheWrite);
  }

  /** Usage is reported by a message start with a message and by a message delta with a usage, and by no other event. */
  lemma {:induction false} ReportedMeans(es: seq<Event>, e: Event)
    ensures Reported([]) == []
    ensures Reported(es + [e]) == Reported(es) +
              match e
              case MessageStart(Some(m)) => [m.usage]
              case MessageDelta(_, Some(usage)) => [usage]
              case _ => []
    decreases |es|
  {
    if es == [] {
      assert [] + [e] == [e] && [e][1..] == [];
    } else {
      assert (es + [e])[1..] == es[1..] + [e];
      ReportedMeans(es[1..], e);
    }
  }

  // ---------------------------------------------------------------- one event

  /** What is sent for an event, and what is kept from it; an event that is not named here does nothing. */
  lemma EventMeans(st: State, e: Event)
    ensures match e
            case MessageStart(m) =>
              && Emitted(st, e) == (if st.role then None else Some(Role))
              && Next(st, e) ==
                 (if m.Some? then st.(id := m.value.id, model := m.value.model, role := true) else st.(role := true))
            case BlockStart(Some(Block(kind, id, name)), Some(i)) =>
              if kind == "tool_use" then
                && Emitted(st, e) == Some(Call(st.next, id, name, ""))
                && Next(st, e) == st.(tools := st.tools[i := st.next], next := st.next + 1)
              else Emitted(st, e) == None && Next(st, e) == st
            case BlockDelta(Some(Delta(kind, text, _, json)), i) =>
              && Next(st, e) == st
              && (kind == "text_delta" ==> Emitted(st, e) == if text == "" then None else Some(Text(text)))
              && (kind == "input_json_delta" ==>
                    Emitted(st, e) ==
                    if i.Some? && i.value in st.tools then Some(Fragment(st.tools[i.value], json)) else None)
              && (kind !in {"text_delta", "input_json_delta"} ==> Emitted(st, e) == None)
            case MessageDelta(Some(Delta(_, _, reason, _)), _) =>
              && Emitted(st, e) == None
              && Next(st, e) == if reason == "" then st else st.(reason := reason)
            case _ => Emitted(st, e) == None && Next(st, e) == st
  {}

  // ---------------------------------------------------------------- whose chunks

  ghost predicate From(w: Write, m: Message) {
    w.Done? || (w.model == m.model && w.id == if m.id == "" then "chatcmpl-cerber" else "chatcmpl-" + m.id)
  }

  ghost predicate AllFrom(ws: seq<Write>, m: Message) { forall i :: 0 <= i < |ws| ==> From(ws[i], m) }

  predicate Names(e: Event) { e.MessageStart? && e.message.Some? }

  lemma {:induction false} NamedOnce(st: State, m: Message, es: seq<Event>, broken: bool)
    requires st.id == m.id && st.model == m.model
    requires forall i :: 0 <= i < |UntilStop(es)| ==> !Names(UntilStop(es)[i])
    ensures AllFrom(Output(st, es, broken), m)
    decreases |es|
  {
    hide Emitted, StartsTool;
    if es != [] && !es[0].MessageStop? {
      assert UntilStop(es)[0] == es[0] && UntilStop(es)[1..] == UntilStop(es[1..]);
      NamedOnce(Next(st, es[0]), m, es[1..], broken);
    }
  }

  /** From a message on, all chunks carry its id and model, until another message starts. */
  lemma ChunksAreNamed(st: State, m: Message, es: seq<Event>, broken: bool)
    requires forall i :: 0 <= i < |UntilStop(es)| ==> !Names(UntilStop(es)[i])
    ensures AllFrom(Output(st, [MessageStart(Some(m))] + es, broken), m)
    ensures AllFrom(Output(INIT, es, broken), Message("", "", m.usage))
  {
    var start := MessageStart(Some(m));
    assert ([start] + es)[1..] == es;
    NamedOnce(Next(st, start), m, es, broken);
    NamedOnce(INIT, Message("", "", m.usage), es, broken);
    hide Output, Next, UntilStop;
    UnfoldOutput(st, start, es, broken);
  }

  lemma UnfoldOutput(st: State, e: Event, es: seq<Event>, broken: bool)
    requires !e.MessageStop?
    ensures Output(st, [e] + es, broken) ==
            (if Emitted(st, e).Some? then [Labelled(Next(st, e), Emitted(st, e).value)] else []) +
            Output(Next(st, e), es, broken)
  {
    assert ([e] + es)[1..] == es;
    hide Emitted, Next;
  }

  function After(st: State, es: seq<Event>): State
    decreases |es|
  {
    if es == [] then st else After(Next(st, es[0]), es[1..])
  }

  /** What a stream writes for its first events does not depend on what comes after them. */
  lemma {:induction false} OutputSplits(st: State, a: seq<Event>, b: seq<Event>, broken: bool)
    requires !Stops(a)
    ensures Output(st, a + b, broken) == Output(st, a, true) + Output(After(st, a), b, broken)
    decreases |a|
  {
    if a == [] {
      assert a + b == b;
    } else {
      StartsLater(a);
      hide Output, Emitted, Next, Stops;
      assert a == [a[0]] + a[1..] && a + b == [a[0]] + (a[1..] + b);
      OutputSplits(Next(st, a[0]), a[1..], b, broken);
      UnfoldOutput(st, a[0], a[1..] + b, broken);
      UnfoldOutput(st, a[0], a[1..], true);
    }
  }
}
