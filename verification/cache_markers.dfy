/**
 Injecting prompt-cache markers into a request: where they go, how many, and that nothing else
 changes.
 */
module CacheMarkers {
  import opened Wrappers
  import opened Json

  const EPHEMERAL := Obj(map["type" := Str("ephemeral")])

  datatype Strategy = Conservative | Moderate | Aggressive | Other
  datatype Options = Options(enabled: bool, strategy: Strategy, minTokens: int)

  function Budget(s: Strategy): nat {
    match s
    case Conservative => 2
    case Aggressive => 4
    case _ => 3
  }

  /** Whether the text of the request mentions a marker anywhere, as a key or inside a string. */
  predicate Mentions(j: JSON) {
    match j
    case Str(s) => Contains(s, CC)
    case Arr(items) => exists i | 0 <= i < |items| :: Mentions(items[i])
    case Obj(f) => exists k | k in f :: Contains(k, CC) || Mentions(f[k])
    case _ => false
  }

  // ---------------------------------------------------------------- the marks of a value

  /** The marker of the object at a path, if there is one. */
  function MarkAt(j: JSON, path: Path): Option<JSON>
    decreases |path|
  {
    if path == [] then (if j.Obj? && CC in j.fields then Some(j.fields[CC]) else None)
    else
      match path[0]
      case At(i) => if j.Arr? && i < |j.items| then MarkAt(j.items[i], path[1..]) else None
      case Field(k) => if j.Obj? && k in j.fields then MarkAt(j.fields[k], path[1..]) else None
  }

  /** The value without its markers. */
  function Erase(j: JSON): JSON {
    match j
    case Arr(items) => Arr(seq(|items|, i requires 0 <= i < |items| => Erase(items[i])))
    case Obj(f) => Obj(map k | k in f && k != CC :: Erase(f[k]))
    case _ => j
  }

  /** `after` is `before` with plain markers at these paths, and nothing else changed. */
  ghost predicate Adds(before: JSON, after: JSON, paths: set<Path>) {
    && Erase(after) == Erase(before)
    && forall p :: MarkAt(after, p) == if p in paths then Some(EPHEMERAL) else MarkAt(before, p)
  }

  function Under(step: Step, paths: set<Path>): (r: set<Path>)
    ensures forall p :: p in r <==> p != [] && p[0] == step && p[1..] in paths
  {
    var r := set p | p in paths :: [step] + p;
    assert forall p | p != [] && p[0] == step && p[1..] in paths :: p == [step] + p[1..];
    r
  }

  lemma {:induction false} NoMarks(j: JSON, path: Path)
    requires !Mentions(j)
    ensures MarkAt(j, path) == None
    decreases |path|
  {
    if path == [] {
      ContainsItself(CC);
    } else {
      match path[0]
      case At(i) => if j.Arr? && i < |j.items| { NoMarks(j.items[i], path[1..]); }
      case Field(k) => if j.Obj? && k in j.fields { NoMarks(j.fields[k], path[1..]); }
    }
  }

  lemma {:induction false} NothingToErase(j: JSON)
    requires !Mentions(j)
    ensures Erase(j) == j
  {
    match j {
      case Arr(items) =>
        forall i | 0 <= i < |items| ensures Erase(items[i]) == items[i] { NothingToErase(items[i]); }
        assert Erase(j).items == items;
      case Obj(f) =>
        ContainsItself(CC);
        forall k | k in f ensures k != CC && Erase(f[k]) == f[k] {
          assert !Contains(k, CC);
          NothingToErase(f[k]);
        }
        assert Erase(j).fields == f;
      case _ =>
    }
  }

  lemma EphemeralIsUnmarked(path: Path)
    ensures MarkAt(EPHEMERAL, path) == None
  {
    assert EPHEMERAL.fields["type"] == Str("ephemeral");
    if path != [] && path[0] == Field("type") { assert MarkAt(Str("ephemeral"), path[1..]) == None; }
  }

  lemma AddsMarker(f: map<string, JSON>)
    requires CC !in f
    ensures Adds(Obj(f), Obj(f[CC := EPHEMERAL]), {[]})
  {
    var f' := f[CC := EPHEMERAL];
    assert Erase(Obj(f')).fields == Erase(Obj(f)).fields;
    forall p ensures MarkAt(Obj(f'), p) == if p in {[]} then Some(EPHEMERAL) else MarkAt(Obj(f), p) {
      if p != [] && p[0] == Field(CC) { EphemeralIsUnmarked(p[1..]); }
    }
  }

  lemma AddsField(f: map<string, JSON>, key: string, v: JSON, paths: set<Path>)
    requires key in f && key != CC && Adds(f[key], v, paths)
    ensures Adds(Obj(f), Obj(f[key := v]), Under(Field(key), paths))
  {
    assert Erase(Obj(f[key := v])).fields == Erase(Obj(f)).fields;
  }

  lemma AddsItem(items: seq<JSON>, at: nat, v: JSON, paths: set<Path>)
    requires at < |items| && Adds(items[at], v, paths)
    ensures Adds(Arr(items), Arr(items[at := v]), Under(At(at), paths))
  {
    assert Erase(Arr(items[at := v])).items == Erase(Arr(items)).items;
  }

  lemma AddsTwice(a: JSON, b: JSON, c: JSON, p: set<Path>, q: set<Path>)
    requires Adds(a, b, p) && Adds(b, c, q)
    ensures Adds(a, c, p + q)
  {}

  // ---------------------------------------------------------------- marking

  /** The element with a marker; null makes the original panic, and any other non-object is left. */
  function AddCacheControl(elem: JSON): Result<Option<JSON>> {
    match elem
    case Null => Panic
    case Obj(f) => Ok(Some(Obj(f[CC := EPHEMERAL])))
    case _ => Ok(None)
  }

  function MarkLast(raw: JSON): Result<Option<JSON>> {
    if !raw.Arr? || raw.items == [] then Ok(None)
    else
      var last := |raw.items| - 1;
      match AddCacheControl(raw.items[last])
      case Ok(Some(v)) => Ok(Some(Arr(raw.items[last := v])))
      case Ok(None) => Ok(None)
      case _ => Panic
  }

  /** A text block, as a system string is wrapped. */
  function TextBlock(s: string): JSON { Obj(map["type" := Str("text"), "text" := Str(s)]) }

  function MarkSystem(raw: JSON): Result<Option<JSON>> {
    if raw.Str? then
      if raw.s == "" then Ok(None) else Ok(Some(Arr([Obj(TextBlock(raw.s).fields[CC := EPHEMERAL])])))
    else MarkLast(raw)
  }

  /** Marks the last block of one message's content, if it is in block form. */
  function MarkMessage(msg: JSON): Result<Option<JSON>> {
    if !msg.Obj? || "content" !in msg.fields then Ok(None)
    else
      match MarkLast(msg.fields["content"])
      case Ok(Some(v)) => Ok(Some(Obj(msg.fields["content" := v])))
      case Ok(None) => Ok(None)
      case _ => Panic
  }

  datatype Batch = Batch(msgs: seq<JSON>, placed: nat)

  /** Up to `n` messages, from the newest. */
  function MarkNewest(msgs: seq<JSON>, n: int): (r: Result<Batch>)
    ensures r.Ok? ==> |r.value.msgs| == |msgs|
  {
    if msgs == [] || n <= 0 then Ok(Batch(msgs, 0))
    else
      var (front, last) := (msgs[..|msgs| - 1], msgs[|msgs| - 1]);
      match MarkMessage(last)
      case Ok(Some(v)) =>
        (match MarkNewest(front, n - 1)
         case Ok(b) => Ok(Batch(b.msgs + [v], b.placed + 1))
         case _ => Panic)
      case Ok(None) =>
        (match MarkNewest(front, n)
         case Ok(b) => Ok(Batch(b.msgs + [last], b.placed))
         case _ => Panic)
      case _ => Panic
  }

  /** The last content block of a message in block form. */
  function LastBlock(msg: JSON): Option<JSON> {
    if msg.Obj? && "content" in msg.fields && msg.fields["content"].Arr? && msg.fields["content"].items != [] then
      var blocks := msg.fields["content"].items;
      Some(blocks[|blocks| - 1])
    else None
  }

  predicate Markable(msg: JSON) { LastBlock(msg).Some? && LastBlock(msg).value.Obj? }

  predicate NullBlock(msg: JSON) { LastBlock(msg) == Some(Null) }

  function MarkableCount(msgs: seq<JSON>): nat {
    if msgs == [] then 0 else (if Markable(msgs[0]) then 1 else 0) + MarkableCount(msgs[1..])
  }

  lemma MarkMessageIs(msg: JSON)
    ensures MarkMessage(msg).Panic? <==> NullBlock(msg)
    ensures (MarkMessage(msg).Ok? && MarkMessage(msg).value.Some?) <==> Markable(msg)
    ensures !MarkMessage(msg).Err?
  {}

  lemma {:induction false} MarkableCountAppend(msgs: seq<JSON>, msg: JSON)
    ensures MarkableCount(msgs + [msg]) == MarkableCount(msgs) + if Markable(msg) then 1 else 0
  {
    if msgs == [] {
      assert [] + [msg] == [msg] && [msg][1..] == [];
    } else {
      assert (msgs + [msg])[1..] == msgs[1..] + [msg];
      MarkableCountAppend(msgs[1..], msg);
    }
  }

  /** Message `i` is reached with marks left: fewer than `n` later messages are markable. */
  predicate Reached(msgs: seq<JSON>, i: nat, n: int) {
    i < |msgs| && MarkableCount(msgs[i + 1..]) < n
  }

  /** A null block stands where a marker would go. */
  ghost predicate NullReached(msgs: seq<JSON>, n: int) {
    exists i: nat :: Reached(msgs, i, n) && NullBlock(msgs[i])
  }

  /** Exactly the newest `n` markable messages are marked. */
  ghost predicate NewestMarked(msgs: seq<JSON>, n: int, marked: seq<JSON>) {
    && |marked| == |msgs|
    && forall i: nat :: i < |msgs| ==>
         marked[i] == if Reached(msgs, i, n) && Markable(msgs[i]) then MarkMessage(msgs[i]).value.value else msgs[i]
  }

  lemma ReachedFront(front: seq<JSON>, last: JSON, i: nat, n: int)
    requires i < |front|
    ensures Reached(front + [last], i, n) <==> Reached(front, i, if Markable(last) then n - 1 else n)
  {
    assert (front + [last])[i + 1..] == front[i + 1..] + [last];
    MarkableCountAppend(front[i + 1..], last);
  }

  lemma ReachedLast(front: seq<JSON>, last: JSON, n: int)
    ensures Reached(front + [last], |front|, n) <==> n > 0
  {
    assert (front + [last])[|front| + 1..] == [];
  }

  lemma {:induction false} NewestAreMarked(msgs: seq<JSON>, n: int)
    ensures !MarkNewest(msgs, n).Err?
    ensures MarkNewest(msgs, n).Panic? <==> NullReached(msgs, n)
    ensures MarkNewest(msgs, n).Ok? ==>
              && NewestMarked(msgs, n, MarkNewest(msgs, n).value.msgs)
              && MarkNewest(msgs, n).value.placed == Least(n, MarkableCount(msgs))
  {
    if msgs == [] || n <= 0 {
    } else {
      var (front, last) := (msgs[..|msgs| - 1], msgs[|msgs| - 1]);
      assert msgs == front + [last];
      var n' := if Markable(last) then n - 1 else n;
      MarkMessageIs(last);
      NewestAreMarked(front, n');
      MarkableCountAppend(front, last);
      ReachedLast(front, last, n);
      forall i: nat | i < |front|
        ensures Reached(msgs, i, n) <==> Reached(front, i, n')
      {
        ReachedFront(front, last, i, n);
      }
      NewestStep(front, last, n, n');
    }
  }

  /** The panic half of the step. */
  lemma NewestStep(front: seq<JSON>, last: JSON, n: int, n': int)
    requires n > 0 && n' == if Markable(last) then n - 1 else n
    requires forall i: nat :: i < |front| ==> (Reached(front + [last], i, n) <==> Reached(front, i, n'))
    ensures NullReached(front + [last], n) <==> NullReached(front, n') || NullBlock(last)
  {
    var msgs := front + [last];
    ReachedLast(front, last, n);
    if i: nat :| Reached(front, i, n') && NullBlock(front[i]) { assert Reached(msgs, i, n) && NullBlock(msgs[i]); }
    if i: nat :| Reached(msgs, i, n) && NullBlock(msgs[i]) {
      if i < |front| { assert Reached(front, i, n') && NullBlock(front[i]); }
    }
  }

  function Least(a: int, b: nat): nat { if a <= 0 then 0 else if a < b then a else b }

  // ---------------------------------------------------------------- what marking adds

  function BlockPath(msg: JSON): Path
    requires LastBlock(msg).Some?
  {
    [Field("content"), At(|msg.fields["content"].items| - 1)]
  }

  lemma LastAdds(raw: JSON)
    requires !Mentions(raw) && MarkLast(raw).Ok? && MarkLast(raw).value.Some?
    ensures Adds(raw, MarkLast(raw).value.value, {[At(|raw.items| - 1)]})
  {
    var last := |raw.items| - 1;
    NoMarks(raw.items[last], []);
    AddsMarker(raw.items[last].fields);
    AddsItem(raw.items, last, Obj(raw.items[last].fields[CC := EPHEMERAL]), {[]});
    assert Under(At(last), {[]}) == {[At(last)]} by { assert [At(last)][1..] == []; OneStep(At(last)); }
  }

  lemma OneStep(step: Step)
    ensures forall p: Path :: p != [] && p[0] == step && p[1..] == [] ==> p == [step]
  {}

  lemma NotContent()
    ensures "content" != CC && "system" != CC && "tools" != CC && "messages" != CC
  {}

  lemma MessageAdds(msg: JSON)
    requires !Mentions(msg) && Markable(msg)
    ensures Adds(msg, MarkMessage(msg).value.value, {BlockPath(msg)})
  {
    var f, content := msg.fields, msg.fields["content"];
    assert !Mentions(content);
    assert MarkLast(content).Ok? && MarkLast(content).value.Some?;
    hide Adds, Mentions, MarkLast;
    LastAdds(content);
    NotContent();
    var at := At(|content.items| - 1);
    FieldAdds(f, "content", MarkLast(content).value.value, [at]);
    assert [Field("content")] + [at] == [Field("content"), at];
  }

  /** Where a marker may stand among the messages. */
  ghost predicate MessageSpot(msgs: seq<JSON>, n: int, p: Path) {
    && |p| == 3 && p[0].At? && p[0].index < |msgs|
    && Reached(msgs, p[0].index, n) && Markable(msgs[p[0].index])
    && p[1..] == BlockPath(msgs[p[0].index])
  }

  lemma AddsAppend(a: seq<JSON>, b: seq<JSON>, x: JSON, paths: set<Path>)
    requires |a| == |b| && Adds(Arr(a), Arr(b), paths)
    ensures Adds(Arr(a + [x]), Arr(b + [x]), paths)
  {
    var (a', b') := (Arr(a + [x]), Arr(b + [x]));
    assert Erase(Arr(a)).items == Erase(Arr(b)).items;
    assert Erase(a').items == Erase(Arr(a)).items + [Erase(x)];
    assert Erase(b').items == Erase(Arr(b)).items + [Erase(x)];
    forall p: Path ensures MarkAt(b', p) == if p in paths then Some(EPHEMERAL) else MarkAt(a', p) {
      assert MarkAt(Arr(b), p) == if p in paths then Some(EPHEMERAL) else MarkAt(Arr(a), p);
      if p != [] && p[0].At? && p[0].index < |a| {
        assert MarkAt(b', p) == MarkAt(Arr(b), p) && MarkAt(a', p) == MarkAt(Arr(a), p);
      }
    }
  }

  lemma {:induction false} NewestAdds(msgs: seq<JSON>, n: int) returns (paths: set<Path>)
    requires MarkNewest(msgs, n).Ok? && forall i :: 0 <= i < |msgs| ==> !Mentions(msgs[i])
    ensures Adds(Arr(msgs), Arr(MarkNewest(msgs, n).value.msgs), paths)
    ensures |paths| == MarkNewest(msgs, n).value.placed
    ensures forall p :: p in paths <==> MessageSpot(msgs, n, p)
  {
    hide Adds, Mentions;
    if msgs == [] || n <= 0 {
      paths := {};
      AddsNothing(Arr(msgs));
    } else {
      var (front, last) := (msgs[..|msgs| - 1], msgs[|msgs| - 1]);
      assert msgs == front + [last];
      MarkMessageIs(last);
      var n' := if Markable(last) then n - 1 else n;
      paths := NewestAdds(front, n');
      var marked := MarkNewest(front, n').value.msgs;
      AddsAppend(front, marked, last, paths);
      forall p: Path
        ensures MessageSpot(msgs, n, p) <==> p in paths || IsLastSpot(front, last, n, p)
      {
        SpotStep(front, last, n, n', p);
      }
      if Markable(last) {
        paths := LastMessageAdds(front, marked, last, paths);
      }
    }
  }

  /** The spot in the message after `front`. */
  ghost predicate IsLastSpot(front: seq<JSON>, last: JSON, n: int, p: Path) {
    n > 0 && Markable(last) && p == [At(|front|)] + BlockPath(last)
  }

  lemma SpotStep(front: seq<JSON>, last: JSON, n: int, n': int, p: Path)
    requires n > 0 && n' == if Markable(last) then n - 1 else n
    ensures MessageSpot(front + [last], n, p) <==> MessageSpot(front, n', p) || IsLastSpot(front, last, n, p)
    ensures MessageSpot(front, n', p) ==> p != [] && p[0] != At(|front|)
  {
    if |p| == 3 && p[0].At? {
      if p[0].index < |front| { ReachedFront(front, last, p[0].index, n); }
      ReachedLast(front, last, n);
      assert p == [p[0]] + p[1..];
      if Markable(last) {
        var q := [At(|front|)] + BlockPath(last);
        assert q[1..] == BlockPath(last);
      }
    }
  }

  lemma LastMessageAdds(front: seq<JSON>, marked: seq<JSON>, last: JSON, paths: set<Path>) returns (all: set<Path>)
    requires |front| == |marked| && Markable(last) && !Mentions(last)
    requires Adds(Arr(front + [last]), Arr(marked + [last]), paths)
    requires forall p :: p in paths ==> p != [] && p[0] != At(|front|)
    ensures Adds(Arr(front + [last]), Arr(marked + [MarkMessage(last).value.value]), all)
    ensures all == paths + {[At(|front|)] + BlockPath(last)} && |all| == |paths| + 1
  {
    hide Adds, Mentions;
    var v := MarkMessage(last).value.value;
    MessageAdds(last);
    var items := marked + [last];
    AddsItem(items, |front|, v, {BlockPath(last)});
    assert items[|front| := v] == marked + [v];
    var more := Under(At(|front|), {BlockPath(last)});
    var p := [At(|front|)] + BlockPath(last);
    assert p[1..] == BlockPath(last);
    forall q ensures q in more <==> q in {p} {
      if q in more { assert q == [q[0]] + q[1..]; }
    }
    assert more == {p};
    AddsTwice(Arr(front + [last]), Arr(items), Arr(marked + [v]), paths, more);
    all := paths + {p};
    assert p !in paths;
  }

  lemma AddsNothing(a: JSON)
    ensures Adds(a, a, {})
  {}

  // ---------------------------------------------------------------- the whole injection

  /** The estimated size of a member; absent and null count nothing. `est` is a quarter of its length in bytes. */
  function Tokens(est: JSON -> nat, f: map<string, JSON>, key: string): nat {
    if key in f && f[key] != Null then est(f[key]) else 0
  }

  predicate SystemGate(opt: Options, est: JSON -> nat, f: map<string, JSON>) {
    Tokens(est, f, "tools") + Tokens(est, f, "system") >= opt.minTokens
  }

  predicate ToolsGate(opt: Options, est: JSON -> nat, f: map<string, JSON>) {
    Tokens(est, f, "tools") >= opt.minTokens
  }

  predicate MessagesGate(opt: Options, est: JSON -> nat, f: map<string, JSON>) {
    Tokens(est, f, "tools") + Tokens(est, f, "system") + Tokens(est, f, "messages") >= opt.minTokens
  }

  datatype Staged = Staged(fields: map<string, JSON>, placed: nat)

  function StageSystem(f: map<string, JSON>, on: bool): Result<Staged> {
    if !on || "system" !in f then Ok(Staged(f, 0))
    else
      match MarkSystem(f["system"])
      case Ok(Some(v)) => Ok(Staged(f["system" := v], 1))
      case Ok(None) => Ok(Staged(f, 0))
      case _ => Panic
  }

  function StageTools(f: map<string, JSON>, on: bool): Result<Staged> {
    if !on || "tools" !in f then Ok(Staged(f, 0))
    else
      match MarkLast(f["tools"])
      case Ok(Some(v)) => Ok(Staged(f["tools" := v], 1))
      case Ok(None) => Ok(Staged(f, 0))
      case _ => Panic
  }

  /** How many message markers may be placed. Only the strategy named moderate is held to one. */
  function Want(s: Strategy, placed: nat): int {
    if s.Conservative? then 0
    else if s.Moderate? && Budget(s) - placed > 1 then 1
    else Budget(s) - placed
  }

  function StageMessages(f: map<string, JSON>, n: int, on: bool): Result<Staged> {
    if !on || "messages" !in f || !f["messages"].Arr? then Ok(Staged(f, 0))
    else
      match MarkNewest(f["messages"].items, n)
      case Ok(b) => if b.placed == 0 then Ok(Staged(f, 0)) else Ok(Staged(f["messages" := Arr(b.msgs)], b.placed))
      case _ => Panic
  }

  datatype Outcome = Outcome(body: JSON, changed: bool)

  /** An error leaves the caller with the original body. */
  function Inject(opt: Options, est: JSON -> nat, body: JSON): Result<Outcome> {
    if !opt.enabled || Mentions(body) || body.Null? then Ok(Outcome(body, false))
    else if !body.Obj? then Err
    else
      var f := body.fields;
      match StageSystem(f, SystemGate(opt, est, f))
      case Ok(a) =>
        (match StageTools(a.fields, ToolsGate(opt, est, f))
         case Ok(b) =>
           (match StageMessages(b.fields, Want(opt.strategy, a.placed + b.placed), MessagesGate(opt, est, f))
            case Ok(c) =>
              Ok(if a.placed + b.placed + c.placed == 0 then Outcome(body, false) else Outcome(Obj(c.fields), true))
            case _ => Panic)
         case _ => Panic)
      case _ => Panic
  }

  // ---------------------------------------------------------------- the methods

  /** The loop over the messages, newest first. */
  method MarkMessagesLastBlocks(raw: seq<JSON>, n: int) returns (r: Result<Batch>)
    ensures r == MarkNewest(raw, n)
  {
    if n <= 0 || |raw| == 0 { return Ok(Batch(raw, 0)); }
    hide MarkNewest, MarkMessage, Marking, Markable;
    var msgs, placed: nat := raw, 0;
    var i := |msgs|;
    MarkingStarts(raw, n);
    while i > 0 && placed < n
      invariant 0 <= i <= |raw| == |msgs| && placed <= n
      invariant msgs[..i] == raw[..i]
      invariant Marking(raw, n, i, msgs[i..], placed)
    {
      ghost var tail := msgs[i..];
      var m := MarkMessage(msgs[i - 1]);
      MarkMessageIs(msgs[i - 1]);
      MarkingStep(raw, n, i, tail, placed);
      assert raw[i - 1] == msgs[..i][i - 1];
      if m.Panic? { return Panic; }
      i := i - 1;
      if m.value.Some? {
        msgs := msgs[i := m.value.value];
        placed := placed + 1;
      }
      assert msgs[i..] == [msgs[i]] + tail;
    }
    MarkingEnds(raw, n, i, msgs[i..], placed);
    assert msgs == raw[..i] + msgs[i..];
    r := Ok(Batch(msgs, placed));
  }

  /** `placed` marks are in the messages from `i` on, now `tail`; the result is theirs and that of the rest. */
  ghost predicate Marking(raw: seq<JSON>, n: int, i: nat, tail: seq<JSON>, placed: nat) {
    i <= |raw| && MarkNewest(raw, n) == Resume(MarkNewest(raw[..i], n - placed), tail, placed)
  }

  /** The result for a front, with the messages after it already done. */
  function Resume(r: Result<Batch>, tail: seq<JSON>, placed: nat): Result<Batch> {
    match r
    case Ok(b) => Ok(Batch(b.msgs + tail, b.placed + placed))
    case _ => Panic
  }

  lemma MarkingStarts(raw: seq<JSON>, n: int)
    ensures Marking(raw, n, |raw|, raw[|raw|..], 0)
  {
    assert raw[..|raw|] == raw && raw[|raw|..] == [];
    NewestAreMarked(raw, n);
    if MarkNewest(raw, n).Ok? { assert MarkNewest(raw, n).value.msgs + [] == MarkNewest(raw, n).value.msgs; }
  }

  lemma MarkingEnds(raw: seq<JSON>, n: int, i: nat, tail: seq<JSON>, placed: nat)
    requires Marking(raw, n, i, tail, placed) && (i == 0 || n <= placed)
    ensures MarkNewest(raw, n) == Ok(Batch(raw[..i] + tail, placed))
  {}

  lemma MarkingStep(raw: seq<JSON>, n: int, i: nat, tail: seq<JSON>, placed: nat)
    requires Marking(raw, n, i, tail, placed) && i > 0 && placed < n
    ensures match MarkMessage(raw[i - 1])
            case Ok(Some(v)) => Marking(raw, n, i - 1, [v] + tail, placed + 1)
            case Ok(None) => Marking(raw, n, i - 1, [raw[i - 1]] + tail, placed)
            case _ => MarkNewest(raw, n) == Panic
  {
    hide MarkNewest, MarkMessage;
    ResumeStep(raw[..i], n - placed, tail, placed);
    assert raw[..i][..i - 1] == raw[..i - 1];
  }

  lemma ResumeStep(msgs: seq<JSON>, n: int, tail: seq<JSON>, placed: nat)
    requires msgs != [] && n > 0
    ensures var (front, last) := (msgs[..|msgs| - 1], msgs[|msgs| - 1]);
            Resume(MarkNewest(msgs, n), tail, placed) ==
            match MarkMessage(last)
            case Ok(Some(v)) => Resume(MarkNewest(front, n - 1), [v] + tail, placed + 1)
            case Ok(None) => Resume(MarkNewest(front, n), [last] + tail, placed)
            case _ => Panic
  {
    var (front, last) := (msgs[..|msgs| - 1], msgs[|msgs| - 1]);
    match MarkMessage(last)
    case Ok(Some(v)) =>
      var r := MarkNewest(front, n - 1);
      if r.Ok? { assert (r.value.msgs + [v]) + tail == r.value.msgs + ([v] + tail); }
    case Ok(None) =>
      var r := MarkNewest(front, n);
      if r.Ok? { assert (r.value.msgs + [last]) + tail == r.value.msgs + ([last] + tail); }
    case _ =>
  }

  method InjectCacheBreakpoints(opt: Options, est: JSON -> nat, body: JSON) returns (r: Result<Outcome>)
    ensures r == Inject(opt, est, body)
  {
    hide Mentions, MarkLast, MarkSystem, MarkNewest;
    if !opt.enabled || Mentions(body) { return Ok(Outcome(body, false)); }
    if body.Null? { return Ok(Outcome(body, false)); }
    if !body.Obj? { return Err; }
    var m := body.fields;
    var budget, placed: nat := Budget(opt.strategy), 0;
    var toolsEst, sysEst := Tokens(est, m, "tools"), Tokens(est, m, "system");
    var messagesEst := Tokens(est, m, "messages");
    if placed < budget && toolsEst + sysEst >= opt.minTokens {
      if "system" in m {
        var marked := MarkSystem(m["system"]);
        if !marked.Ok? { return Panic; }
        if marked.value.Some? {
          m := m["system" := marked.value.value];
          placed := placed + 1;
        }
      }
    }
    if placed < budget && toolsEst >= opt.minTokens {
      if "tools" in m {
        var marked := MarkLast(m["tools"]);
        if !marked.Ok? { return Panic; }
        if marked.value.Some? {
          m := m["tools" := marked.value.value];
          placed := placed + 1;
        }
      }
    }
    if opt.strategy != Conservative && placed < budget {
      var want := budget - placed;
      if opt.strategy == Moderate && want > 1 { want := 1; }
      if "messages" in m && m["messages"].Arr? && toolsEst + sysEst + messagesEst >= opt.minTokens {
        var marked := MarkMessagesLastBlocks(m["messages"].items, want);
        if !marked.Ok? { return Panic; }
        if marked.value.placed > 0 {
          m := m["messages" := Arr(marked.value.msgs)];
          placed := placed + marked.value.placed;
        }
      }
    } else {
      NoneWanted(m);
    }
    if placed == 0 { return Ok(Outcome(body, false)); }
    r := Ok(Outcome(Obj(m), true));
  }

  lemma NoneWanted(f: map<string, JSON>)
    ensures forall n, on :: n <= 0 ==> StageMessages(f, n, on) == Ok(Staged(f, 0))
  {}

  // ---------------------------------------------------------------- what the injection guarantees

  predicate LastIsNull(f: map<string, JSON>, key: string) {
    key in f && f[key].Arr? && f[key].items != [] && f[key].items[|f[key].items| - 1].Null?
  }

  predicate LastIsObject(f: map<string, JSON>, key: string) {
    key in f && f[key].Arr? && f[key].items != [] && f[key].items[|f[key].items| - 1].Obj?
  }

  /** The path of the last element of a member, if that is an object. */
  predicate IsLastObjectOf(f: map<string, JSON>, key: string, p: Path) {
    LastIsObject(f, key) && p == [Field(key), At(|f[key].items| - 1)]
  }

  /** The markers placed before the messages are reached. */
  function PlacedBefore(opt: Options, est: JSON -> nat, f: map<string, JSON>): nat {
    var text := "system" in f && f["system"].Str? && f["system"].s != "";
    (if SystemGate(opt, est, f) && (LastIsObject(f, "system") || text) then 1 else 0) +
    (if ToolsGate(opt, est, f) && LastIsObject(f, "tools") then 1 else 0)
  }

  lemma FieldUnmentioned(f: map<string, JSON>, key: string)
    requires !Mentions(Obj(f)) && key in f
    ensures !Mentions(f[key])
  {}

  lemma ItemsUnmentioned(items: seq<JSON>)
    requires !Mentions(Arr(items))
    ensures forall i :: 0 <= i < |items| ==> !Mentions(items[i])
  {}

  lemma ShortIsUnmentioned(s: string)
    requires |s| < |CC|
    ensures !Contains(s, CC)
  {}

  lemma WrapUnmentioned(f: map<string, JSON>)
    requires !Mentions(Obj(f)) && "system" in f && f["system"].Str?
    ensures !Mentions(Obj(f["system" := Arr([TextBlock(f["system"].s)])]))
  {
    var s := f["system"].s;
    var block := TextBlock(s);
    FieldUnmentioned(f, "system");
    ShortIsUnmentioned("type");
    ShortIsUnmentioned("text");
    assert !Mentions(Str("text")) && !Mentions(Str(s));
    assert !Mentions(block) by { assert forall k | k in block.fields :: k == "type" || k == "text"; }
    assert !Mentions(Arr([block]));
    var f' := f["system" := Arr([block])];
    forall k | k in f' ensures !Contains(k, CC) && !Mentions(f'[k]) {}
  }

  /** A field marked with one path under it. */
  lemma FieldAdds(f: map<string, JSON>, key: string, v: JSON, q: Path)
    requires key in f && key != CC && Adds(f[key], v, {q})
    ensures Adds(Obj(f), Obj(f[key := v]), {[Field(key)] + q})
  {
    AddsField(f, key, v, {q});
    var p := [Field(key)] + q;
    assert p[1..] == q;
    forall r: Path ensures r in Under(Field(key), {q}) <==> r in {p} {
      if r in Under(Field(key), {q}) { assert r == [r[0]] + r[1..]; }
    }
    assert Under(Field(key), {q}) == {p};
  }

  lemma WrappedAdds(f: map<string, JSON>, s: string)
    requires "system" in f && f["system"] == Arr([TextBlock(s)])
    ensures Adds(Obj(f), Obj(f["system" := Arr([Obj(TextBlock(s).fields[CC := EPHEMERAL])])]),
        {[Field("system"), At(0)]})
  {
    var (block, items) := (TextBlock(s), [TextBlock(s)]);
    var marked := Obj(block.fields[CC := EPHEMERAL]);
    ShortIsUnmentioned("type");
    AddsMarker(block.fields);
    AddsItem(items, 0, marked, {[]});
    assert items[0 := marked] == [marked];
    OneStep(At(0));
    assert [At(0)][1..] == [];
    assert Under(At(0), {[]}) == {[At(0)]};
    NotContent();
    FieldAdds(f, "system", Arr([marked]), [At(0)]);
    assert [Field("system")] + [At(0)] == [Field("system"), At(0)];
  }

  lemma LastFieldAdds(f: map<string, JSON>, key: string)
    requires key in f && key != CC && !Mentions(f[key]) && MarkLast(f[key]).Ok? && MarkLast(f[key]).value.Some?
    ensures f[key].Arr? && f[key].items != []
    ensures Adds(Obj(f), Obj(f[key := MarkLast(f[key]).value.value]), {[Field(key), At(|f[key].items| - 1)]})
  {
    hide Adds, Mentions;
    LastAdds(f[key]);
    var at := At(|f[key].items| - 1);
    FieldAdds(f, key, MarkLast(f[key]).value.value, [at]);
    assert [Field(key)] + [at] == [Field(key), at];
  }

  predicate OnlyChanges(f: map<string, JSON>, g: map<string, JSON>, key: string) {
    f.Keys == g.Keys && forall k | k in f && k != key :: f[k] == g[k]
  }

  function Wrap(f: map<string, JSON>, on: bool): map<string, JSON> {
    if on && "system" in f && f["system"].Str? && f["system"].s != "" then
      f["system" := Arr([TextBlock(f["system"].s)])]
    else f
  }

  lemma StageSystemAdds(f: map<string, JSON>, on: bool) returns (paths: set<Path>)
    requires !Mentions(Obj(f)) && StageSystem(f, on).Ok?
    ensures var (w, r) := (Wrap(f, on), StageSystem(f, on).value);
            && Adds(Obj(w), Obj(r.fields), paths) && |paths| == r.placed <= 1
            && (forall p :: p in paths <==> on && IsLastObjectOf(w, "system", p))
            && OnlyChanges(f, r.fields, "system") && (r.placed == 0 ==> r.fields == f == w)
  {
    hide Adds, Mentions;
    var (w, r) := (Wrap(f, on), StageSystem(f, on).value);
    if r.placed == 0 {
      paths := {};
      AddsNothing(Obj(f));
    } else if f["system"].Str? {
      var s := f["system"].s;
      WrappedAdds(w, s);
      assert w["system" := Arr([Obj(TextBlock(s).fields[CC := EPHEMERAL])])] == r.fields;
      paths := {[Field("system"), At(0)]};
    } else {
      FieldUnmentioned(f, "system");
      NotContent();
      LastFieldAdds(f, "system");
      paths := {[Field("system"), At(|f["system"].items| - 1)]};
    }
  }

  lemma StageToolsAdds(f: map<string, JSON>, on: bool) returns (paths: set<Path>)
    requires StageTools(f, on).Ok? && ("tools" in f ==> !Mentions(f["tools"]))
    ensures var r := StageTools(f, on).value;
            && Adds(Obj(f), Obj(r.fields), paths) && |paths| == r.placed <= 1
            && (forall p :: p in paths <==> on && IsLastObjectOf(f, "tools", p))
            && OnlyChanges(f, r.fields, "tools") && (r.placed == 0 ==> r.fields == f)
  {
    hide Adds, Mentions;
    var r := StageTools(f, on).value;
    if r.placed == 0 {
      paths := {};
      AddsNothing(Obj(f));
    } else {
      NotContent();
      LastFieldAdds(f, "tools");
      paths := {[Field("tools"), At(|f["tools"].items| - 1)]};
    }
  }

  /** The messages in block form whose last block is an object. */
  function MarkableMessages(f: map<string, JSON>): nat {
    if "messages" in f && f["messages"].Arr? then MarkableCount(f["messages"].items) else 0
  }

  lemma StageMessagesAdds(f: map<string, JSON>, n: int, on: bool) returns (paths: set<Path>)
    requires StageMessages(f, n, on).Ok? && ("messages" in f ==> !Mentions(f["messages"]))
    ensures var r := StageMessages(f, n, on).value;
            && Adds(Obj(f), Obj(r.fields), paths)
            && |paths| == r.placed == (if on then Least(n, MarkableMessages(f)) else 0)
            && (forall p :: p in paths <==> on && IsMessageSpot(f, n, p))
            && (r.placed == 0 ==> r.fields == f && paths == {}) && (r.placed > 0 ==> paths != {})
  {
    hide Adds, Mentions;
    var r := StageMessages(f, n, on).value;
    paths := {};
    if r.placed == 0 {
      AddsNothing(Obj(f));
      if on && "messages" in f && f["messages"].Arr? {
        NewestAreMarked(f["messages"].items, n);
        ItemsUnmentionedOf(f);
        var none := NewestAdds(f["messages"].items, n);
        assert none == {};
      }
    } else {
      var items := f["messages"].items;
      NewestAreMarked(items, n);
      ItemsUnmentionedOf(f);
      var inner := NewestAdds(items, n);
      NotContent();
      AddsField(f, "messages", Arr(MarkNewest(items, n).value.msgs), inner);
      paths := Under(Field("messages"), inner);
      UnderSize(Field("messages"), inner);
    }
  }

  lemma ItemsUnmentionedOf(f: map<string, JSON>)
    requires "messages" in f && f["messages"].Arr? && !Mentions(f["messages"])
    ensures forall i :: 0 <= i < |f["messages"].items| ==> !Mentions(f["messages"].items[i])
  {
    ItemsUnmentioned(f["messages"].items);
  }

  lemma {:induction false} UnderSize(step: Step, paths: set<Path>)
    ensures |Under(step, paths)| == |paths|
    decreases |paths|
  {
    if paths == {} {
      assert Under(step, paths) == {};
    } else {
      var p :| p in paths;
      UnderSize(step, paths - {p});
      var q := [step] + p;
      assert q[1..] == p;
      forall r: Path ensures r in Under(step, paths) <==> r in Under(step, paths - {p}) + {q} {
        if r in Under(step, paths) && r[1..] == p { assert r == [r[0]] + r[1..]; }
      }
      assert Under(step, paths) == Under(step, paths - {p}) + {q};
    }
  }

  ghost predicate IsMessageSpot(f: map<string, JSON>, n: int, p: Path) {
    && p != [] && p[0] == Field("messages") && "messages" in f && f["messages"].Arr?
    && MessageSpot(f["messages"].items, n, p[1..])
  }

  /** Where the three stages put markers, `n` of them at most among the messages. */
  ghost predicate IsSpot(f: map<string, JSON>, first: bool, second: bool, third: bool, n: int, p: Path) {
    || (first && IsLastObjectOf(f, "system", p))
    || (second && IsLastObjectOf(f, "tools", p))
    || (third && IsMessageSpot(f, n, p))
  }

  lemma AddsThrice(w: JSON, a: JSON, b: JSON, c: JSON, pa: set<Path>, pb: set<Path>, pc: set<Path>)
    requires Adds(w, a, pa) && Adds(a, b, pb) && Adds(b, c, pc)
    ensures Adds(w, c, pa + pb + pc)
  {
    hide Adds;
    AddsTwice(w, a, b, pa, pb);
    AddsTwice(w, b, c, pa + pb, pc);
  }

  /** The three stages in a row, whatever their gates say. */
  lemma StagesAdd(s: Strategy, f: map<string, JSON>, first: bool, second: bool, third: bool, a: Staged, b: Staged,
      c: Staged)
    returns (paths: set<Path>)
    requires !Mentions(Obj(f))
    requires StageSystem(f, first) == Ok(a) && StageTools(a.fields, second) == Ok(b)
    requires StageMessages(b.fields, Want(s, a.placed + b.placed), third) == Ok(c)
    ensures Adds(Obj(Wrap(f, first)), Obj(c.fields), paths) && |paths| <= Budget(s)
    ensures forall p :: p in paths <==> IsSpot(Wrap(f, first), first, second, third, Want(s, a.placed + b.placed), p)
    ensures a.placed + b.placed + c.placed == 0 <==> paths == {}
    ensures paths == {} ==> Wrap(f, first) == f
  {
    hide Adds, Mentions, StageSystem, StageTools, StageMessages, Wrap, IsMessageSpot, IsLastObjectOf, IsSpot;
    var w, want := Wrap(f, first), Want(s, a.placed + b.placed);
    if "tools" in f { FieldUnmentioned(f, "tools"); }
    if "messages" in f { FieldUnmentioned(f, "messages"); }
    var pa := StageSystemAdds(f, first);
    WrapChanges(f, first);
    var pb := StageToolsAdds(a.fields, second);
    var pc := StageMessagesAdds(b.fields, want, third);
    AddsThrice(Obj(w), Obj(a.fields), Obj(b.fields), Obj(c.fields), pa, pb, pc);
    paths := pa + pb + pc;
    Sizes(pa, pb, pc);
    hide OnlyChanges;
    NotContent();
    SameMembers(w, f, a.fields, b.fields);
    SpotsCarry(w, a.fields, b.fields, first, second, third, want, pa, pb, pc);
  }

  lemma SameMembers(w: map<string, JSON>, f: map<string, JSON>, a: map<string, JSON>, b: map<string, JSON>)
    requires OnlyChanges(f, w, "system") && OnlyChanges(f, a, "system") && OnlyChanges(a, b, "tools")
    ensures SameMember(w, a, "tools") && SameMember(w, b, "messages")
  {
    assert "system" != "messages" && "tools" != "messages" && "system" != "tools";
  }

  lemma SpotsCarry(w: map<string, JSON>, a: map<string, JSON>, b: map<string, JSON>,
                   first: bool, second: bool, third: bool, want: int, pa: set<Path>, pb: set<Path>, pc: set<Path>)
    requires SameMember(w, a, "tools") && SameMember(w, b, "messages")
    requires forall p :: p in pa <==> first && IsLastObjectOf(w, "system", p)
    requires forall p :: p in pb <==> second && IsLastObjectOf(a, "tools", p)
    requires forall p :: p in pc <==> third && IsMessageSpot(b, want, p)
    ensures forall p :: p in pa + pb + pc <==> IsSpot(w, first, second, third, want, p)
  {
    hide MessageSpot;
  }

  predicate SameMember(f: map<string, JSON>, g: map<string, JSON>, key: string) {
    (key in f <==> key in g) && (key in f ==> f[key] == g[key])
  }

  lemma Sizes(a: set<Path>, b: set<Path>, c: set<Path>)
    ensures |a + b + c| <= |a| + |b| + |c|
    ensures a + b + c == {} <==> a == {} && b == {} && c == {}
  {
    assert a <= a + b + c && b <= a + b + c && c <= a + b + c;
  }

  lemma WrapChanges(f: map<string, JSON>, on: bool)
    ensures OnlyChanges(f, Wrap(f, on), "system")
  {}

  /**
   On an object that mentions no marker, the result differs from the request by plain markers alone:
   on the last system block and the last tool if their prefixes are large enough, and on the last
   blocks of the newest messages in block form, as many as the strategy still wants. Never more than
   its budget, which is at most four. Without its markers the result is the request, a marked system
   string having become a text block.
   */
  lemma InjectAddsOnlyMarkers(opt: Options, est: JSON -> nat, body: JSON) returns (paths: set<Path>)
    requires opt.enabled && body.Obj? && !Mentions(body) && Inject(opt, est, body).Ok?
    ensures var (f, out) := (Wrap(body.fields, SystemGate(opt, est, body.fields)), Inject(opt, est, body).value);
            && Erase(out.body) == Obj(f)
            && (forall p :: MarkAt(out.body, p) == if p in paths then Some(EPHEMERAL) else None)
            && (forall p :: p in paths <==>
                  IsSpot(f, SystemGate(opt, est, body.fields), ToolsGate(opt, est, body.fields),
                      MessagesGate(opt, est, body.fields),
                         Want(opt.strategy, PlacedBefore(opt, est, body.fields)), p))
            && |paths| <= Budget(opt.strategy) <= 4
            && (out.changed <==> paths != {})
            && (!out.changed ==> out.body == body)
  {
    hide Adds, Mentions, StageSystem, StageTools, StageMessages, Wrap, IsSpot, SystemGate, ToolsGate, MessagesGate,
        Want;
    var f := body.fields;
    var (first, second, third) := (SystemGate(opt, est, f), ToolsGate(opt, est, f), MessagesGate(opt, est, f));
    var a := StageSystem(f, first).value;
    var b := StageTools(a.fields, second).value;
    var c := StageMessages(b.fields, Want(opt.strategy, a.placed + b.placed), third).value;
    paths := StagesAdd(opt.strategy, f, first, second, third, a, b, c);
    PlacedIs(opt, est, f, a, b);
    WrapIsClean(f, first);
    var w := Wrap(f, first);
    CleanAdds(w, Obj(c.fields), paths);
    if paths == {} {
      AddsNothing(body);
      CleanAdds(f, body, paths);
    }
  }

  /**
   How many message markers: as many as there are markable messages, up to what the strategy still
   wants. More than two when it is aggressive and at most one of system and tools took a marker, or
   not one of the three known ones and neither did, and at least three messages are markable.
   */
  lemma MessageMarkers(opt: Options, est: JSON -> nat, body: JSON) returns (paths: set<Path>)
    requires opt.enabled && body.Obj? && !Mentions(body) && Inject(opt, est, body).Ok?
    ensures var (f, out) := (body.fields, Inject(opt, est, body).value.body);
            var (s, placed, open) := (opt.strategy, PlacedBefore(opt, est, f), MessagesGate(opt, est, f));
            && (forall p :: p in paths <==> p != [] && p[0] == Field("messages") && MarkAt(out, p).Some?)
            && |paths| == (if open then Least(Want(s, placed), MarkableMessages(f)) else 0)
            && (open ==>
                  |paths| == match s
                             case Conservative => 0
                             case Moderate => Least(1, MarkableMessages(f))
                             case Aggressive => Least(4 - placed, MarkableMessages(f))
                             case Other => Least(3 - placed, MarkableMessages(f)))
            && (|paths| > 2 <==>
                  open && MarkableMessages(f) > 2 && ((s.Aggressive? && placed <= 1) || (s.Other? && placed == 0)))
  {
    hide Adds, Mentions, StageSystem, StageTools, StageMessages, Wrap, SystemGate, ToolsGate, MessagesGate,
        IsMessageSpot, MarkAt;
    hide MarkableMessages, Erase;
    var f := body.fields;
    var third := MessagesGate(opt, est, f);
    var a := StageSystem(f, SystemGate(opt, est, f)).value;
    var b := StageTools(a.fields, ToolsGate(opt, est, f)).value;
    var want := Want(opt.strategy, a.placed + b.placed);
    PlacedIs(opt, est, f, a, b);
    var all := InjectAddsOnlyMarkers(opt, est, body);
    SameMessages(f, SystemGate(opt, est, f), ToolsGate(opt, est, f), a, b);
    if "messages" in f { FieldUnmentioned(f, "messages"); }
    paths := StageMessagesAdds(b.fields, want, third);
    var w := Wrap(f, SystemGate(opt, est, f));
    SpotsAmongMessages(w, b.fields, SystemGate(opt, est, f), ToolsGate(opt, est, f), third, want, all, paths);
  }

  lemma SameMessages(f: map<string, JSON>, first: bool, second: bool, a: Staged, b: Staged)
    requires StageSystem(f, first) == Ok(a) && StageTools(a.fields, second) == Ok(b)
    ensures SameMember(f, b.fields, "messages") && SameMember(Wrap(f, first), b.fields, "messages")
    ensures MarkableMessages(f) == MarkableMessages(b.fields)
  {
    hide StageSystem, StageTools, MarkableCount;
    NotContent();
    assert "system" != "messages" && "tools" != "messages";
    StageSystemIs(f, first);
    StageToolsIs(a.fields, second);
  }

  lemma SpotsAmongMessages(w: map<string, JSON>, b: map<string, JSON>, first: bool, second: bool, third: bool,
      want: int,
                           all: set<Path>, paths: set<Path>)
    requires SameMember(w, b, "messages")
    requires forall p :: p in all <==> IsSpot(w, first, second, third, want, p)
    requires forall p :: p in paths <==> third && IsMessageSpot(b, want, p)
    ensures forall p :: p in paths <==> p != [] && p[0] == Field("messages") && p in all
  {
    hide MessageSpot;
    assert "system" != "messages" && "tools" != "messages";
    forall p: Path ensures p in paths <==> p != [] && p[0] == Field("messages") && p in all {
      assert IsMessageSpot(w, want, p) <==> IsMessageSpot(b, want, p);
    }
  }

  lemma PlacedIs(opt: Options, est: JSON -> nat, f: map<string, JSON>, a: Staged, b: Staged)
    requires StageSystem(f, SystemGate(opt, est, f)) == Ok(a) && StageTools(a.fields, ToolsGate(opt, est, f)) == Ok(b)
    ensures a.placed + b.placed == PlacedBefore(opt, est, f)
  {
    hide StageSystem, StageTools, SystemGate, ToolsGate;
    NotContent();
    assert "system" != "tools";
    StageSystemIs(f, SystemGate(opt, est, f));
    StageToolsIs(a.fields, ToolsGate(opt, est, f));
  }

  lemma WrapIsClean(f: map<string, JSON>, on: bool)
    requires !Mentions(Obj(f))
    ensures !Mentions(Obj(Wrap(f, on)))
  {
    if Wrap(f, on) != f { WrapUnmentioned(f); }
  }

  lemma CleanAdds(w: map<string, JSON>, after: JSON, paths: set<Path>)
    requires !Mentions(Obj(w)) && Adds(Obj(w), after, paths)
    ensures Erase(after) == Obj(w) && forall p :: MarkAt(after, p) == if p in paths then Some(EPHEMERAL) else None
  {
    NothingToErase(Obj(w));
    forall p ensures MarkAt(Obj(w), p) == None { NoMarks(Obj(w), p); }
  }

  /** The gates: the estimated tokens of the tools, with the system, and with the messages too. */
  lemma GatesMean(opt: Options, est: JSON -> nat, f: map<string, JSON>)
    ensures var size := (key: string) => if key in f && f[key] != Null then est(f[key]) else 0;
            && (ToolsGate(opt, est, f) <==> size("tools") >= opt.minTokens)
            && (SystemGate(opt, est, f) <==> size("tools") + size("system") >= opt.minTokens)
            && (MessagesGate(opt, est, f) <==> size("tools") + size("system") + size("messages") >= opt.minTokens)
  {}

  /**
   What becomes of a system string: it stays as it is, or, exactly if its gate is open and it is not
   empty, it is the text of one text block with a plain marker.
   */
  lemma SystemTextSurvives(opt: Options, est: JSON -> nat, body: JSON)
    requires opt.enabled && body.Obj? && !Mentions(body) && Inject(opt, est, body).Ok?
    requires "system" in body.fields && body.fields["system"].Str?
    ensures var (system, out) := (body.fields["system"], Inject(opt, est, body).value.body);
            && out.Obj? && "system" in out.fields
            && out.fields["system"] ==
               if SystemGate(opt, est, body.fields) && system.s != ""
               then Arr([Obj(map["type" := Str("text"), "text" := system,
                                 "cache_control" := Obj(map["type" := Str("ephemeral")])])])
               else system
  {
    hide Mentions, SystemGate, ToolsGate, MessagesGate, StageTools, StageMessages;
    var f := body.fields;
    var a := StageSystem(f, SystemGate(opt, est, f)).value;
    var b := StageTools(a.fields, ToolsGate(opt, est, f)).value;
    StageToolsIs(a.fields, ToolsGate(opt, est, f));
    StageMessagesChange(b.fields, Want(opt.strategy, a.placed + b.placed), MessagesGate(opt, est, f));
    assert "system" != "tools" && "system" != "messages";
  }

  lemma StageMessagesChange(f: map<string, JSON>, n: int, on: bool)
    ensures StageMessages(f, n, on).Ok? ==> OnlyChanges(f, StageMessages(f, n, on).value.fields, "messages")
  {
    hide MarkNewest;
  }

  /** The request again: no markers, and a system that is one text block back to its text. */
  function Undone(j: JSON): JSON {
    var e := Erase(j);
    if e.Obj? && "system" in e.fields then
      var system := e.fields["system"];
      if system.Arr? && |system.items| == 1 && system.items[0].Obj? && "text" in system.items[0].fields then
        Obj(e.fields["system" := system.items[0].fields["text"]])
      else e
    else e
  }

  /** Nothing is lost: the request comes back from the result. */
  lemma UndoGivesBack(opt: Options, est: JSON -> nat, body: JSON)
    requires opt.enabled && body.Obj? && !Mentions(body) && Inject(opt, est, body).Ok?
    ensures var out := Inject(opt, est, body).value.body;
            if "system" in body.fields && body.fields["system"].Str? then Undone(out) == body else Erase(out) == body
  {
    hide *;
    var paths := InjectAddsOnlyMarkers(opt, est, body);
    Unwrapped(body.fields, SystemGate(opt, est, body.fields), Inject(opt, est, body).value.body);
  }

  lemma Unwrapped(f: map<string, JSON>, on: bool, out: JSON)
    requires Erase(out) == Obj(Wrap(f, on))
    ensures if "system" in f && f["system"].Str? then Undone(out) == Obj(f) else Erase(out) == Obj(f)
  {
    hide Erase;
    var w := Wrap(f, on);
    if "system" in f && f["system"].Str? && w != f {
      assert w["system"].items[0].fields["text"] == f["system"];
      assert w["system" := f["system"]] == f;
    }
  }

  /** A request that mentions a marker is left alone, and injecting twice is injecting once. */
  lemma InjectIsIdempotent(opt: Options, est: JSON -> nat, body: JSON)
    ensures Mentions(body) ==> Inject(opt, est, body) == Ok(Outcome(body, false))
    ensures Inject(opt, est, body).Ok? ==>
              var out := Inject(opt, est, body).value;
              Inject(opt, est, out.body) == Ok(Outcome(out.body, false))
  {
    hide Mentions;
    if Inject(opt, est, body).Ok? && opt.enabled && body.Obj? && !Mentions(body) {
      var paths := InjectAddsOnlyMarkers(opt, est, body);
      var out := Inject(opt, est, body).value;
      if out.changed {
        var p :| p in paths;
        assert MarkAt(out.body, p).Some?;
        if !Mentions(out.body) { NoMarks(out.body, p); }
      }
    }
  }

  lemma StageSystemIs(f: map<string, JSON>, on: bool)
    ensures var (r, text) := (StageSystem(f, on), "system" in f && f["system"].Str? && f["system"].s != "");
            && (r.Panic? <==> on && LastIsNull(f, "system")) && !r.Err?
            && (r.Ok? ==> OnlyChanges(f, r.value.fields, "system"))
            && (r.Ok? ==> r.value.placed == if on && (LastIsObject(f, "system") || text) then 1 else 0)
  {}

  lemma StageToolsIs(f: map<string, JSON>, on: bool)
    ensures var r := StageTools(f, on);
            && (r.Panic? <==> on && LastIsNull(f, "tools")) && !r.Err?
            && (r.Ok? ==> OnlyChanges(f, r.value.fields, "tools"))
            && (r.Ok? ==> r.value.placed == if on && LastIsObject(f, "tools") then 1 else 0)
  {}

  lemma StageMessagesIs(f: map<string, JSON>, n: int, on: bool)
    ensures !StageMessages(f, n, on).Err?
    ensures StageMessages(f, n, on).Panic? <==>
              on && "messages" in f && f["messages"].Arr? && NullReached(f["messages"].items, n)
  {
    if "messages" in f && f["messages"].Arr? { NewestAreMarked(f["messages"].items, n); }
  }

  /** The original panics exactly when a null stands where a marker would go. */
  lemma InjectPanicsOnNull(opt: Options, est: JSON -> nat, body: JSON)
    requires opt.enabled && body.Obj? && !Mentions(body)
    ensures var f := body.fields;
            Inject(opt, est, body).Panic? <==>
              || (SystemGate(opt, est, f) && LastIsNull(f, "system"))
              || (ToolsGate(opt, est, f) && LastIsNull(f, "tools"))
              || (&& MessagesGate(opt, est, f) && "messages" in f && f["messages"].Arr?
                  && NullReached(f["messages"].items, Want(opt.strategy, PlacedBefore(opt, est, f))))
  {
    hide Mentions, NullReached, StageSystem, StageTools, StageMessages, SystemGate, ToolsGate, MessagesGate, Want;
    var f := body.fields;
    NotContent();
    assert "system" != "tools" && "system" != "messages" && "tools" != "messages";
    StageSystemIs(f, SystemGate(opt, est, f));
    var a := StageSystem(f, SystemGate(opt, est, f));
    if a.Ok? {
      StageToolsIs(a.value.fields, ToolsGate(opt, est, f));
      var b := StageTools(a.value.fields, ToolsGate(opt, est, f));
      if b.Ok? {
        StageMessagesIs(b.value.fields, Want(opt.strategy, a.value.placed + b.value.placed), MessagesGate(opt, est, f));
      }
    }
  }
}
