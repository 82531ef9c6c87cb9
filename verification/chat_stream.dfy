/**
 The OpenAI chat-completion stream both translators write, and a client that reads one.
 */
module ChatStream {
  datatype Choice =
    | Role
    | Text(content: string)
    | Call(index: nat, id: string, name: string, args: string)  // the entry that opens a tool call
    | Fragment(index: nat, args: string)                        // a later entry of the same call
    | Finish(reason: string)

  /** One `data:` event: a chunk with its one choice, or `[DONE]`. */
  datatype Write = Chunk(id: string, model: string, choice: Choice) | Done

  datatype ToolCall = ToolCall(id: string, name: string, args: string)

  const NO_CALL := ToolCall("", "", "")

  /** What a client has gathered; it merges tool-call entries by their index. */
  datatype Client = Client(roles: nat, text: string, calls: map<nat, ToolCall>, finishes: seq<string>, dones: nat)

  const NEW_CLIENT := Client(0, "", map[], [], 0)

  function Merge(calls: map<nat, ToolCall>, index: nat, more: ToolCall): map<nat, ToolCall> {
    var c := if index in calls then calls[index] else NO_CALL;
    calls[index := ToolCall(c.id + more.id, c.name + more.name, c.args + more.args)]
  }

  function Receive(client: Client, w: Write): Client {
    match w
    case Done => client.(dones := client.dones + 1)
    case Chunk(_, _, choice) =>
      match choice
      case Role => client.(roles := client.roles + 1)
      case Text(s) => client.(text := client.text + s)
      case Call(i, id, name, args) => client.(calls := Merge(client.calls, i, ToolCall(id, name, args)))
      case Fragment(i, args) => client.(calls := Merge(client.calls, i, ToolCall("", "", args)))
      case Finish(reason) => client.(finishes := client.finishes + [reason])
  }

  function ReceiveAll(client: Client, ws: seq<Write>): Client
    decreases |ws|
  {
    if ws == [] then client else ReceiveAll(Receive(client, ws[0]), ws[1..])
  }

  lemma {:induction false} ReceiveAllJoin(client: Client, a: seq<Write>, b: seq<Write>)
    ensures ReceiveAll(client, a + b) == ReceiveAll(ReceiveAll(client, a), b)
    decreases |a|
  {
    if a == [] {
      assert a + b == b;
    } else {
      assert (a + b)[1..] == a[1..] + b;
      ReceiveAllJoin(Receive(client, a[0]), a[1..], b);
    }
  }

  /** The calls gathered are exactly this list, by index. */
  ghost predicate AreCalls(calls: map<nat, ToolCall>, list: seq<ToolCall>) {
    && (forall i: nat :: i in calls <==> i < |list|)
    && (forall i: nat :: i < |list| ==> calls[i] == list[i])
  }

  /** The indices of the entries that open a call, in the order written. */
  function OpenedIndices(ws: seq<Write>): seq<nat> {
    if ws == [] then []
    else if ws[0].Chunk? && ws[0].choice.Call? then [ws[0].choice.index] + OpenedIndices(ws[1..])
    else OpenedIndices(ws[1..])
  }

  lemma {:induction false} OpenedIndicesJoin(a: seq<Write>, b: seq<Write>)
    ensures OpenedIndices(a + b) == OpenedIndices(a) + OpenedIndices(b)
    decreases |a|
  {
    if a == [] {
      assert a + b == b;
    } else {
      assert (a + b)[1..] == a[1..] + b;
      OpenedIndicesJoin(a[1..], b);
    }
  }

  function CountFrom(start: nat, n: nat): (r: seq<nat>)
    ensures |r| == n && forall i :: 0 <= i < n ==> r[i] == start + i
  {
    seq(n, i requires 0 <= i => start + i)
  }

  /** A stream that ends well: one finish chunk, then `[DONE]`, and neither earlier. */
  ghost predicate EndsOnce(ws: seq<Write>, reason: string) {
    && |ws| >= 2 && ws[|ws| - 1] == Done
    && ws[|ws| - 2].Chunk? && ws[|ws| - 2].choice == Finish(reason)
    && forall i :: 0 <= i < |ws| - 2 ==> Within(ws[i])
  }

  predicate Within(w: Write) { w.Chunk? && !w.choice.Finish? }
}
