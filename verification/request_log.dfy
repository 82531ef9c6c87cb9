/**
 The bounded log of recent requests: a ring of the newest events, edited in place when
 the answer the client got becomes known, and read back in pages.
 */
module RequestLog {
  import opened Wrappers

  const DEFAULT_CAP: nat := 1000
  const MAX_DETAIL: nat := 512

  datatype RequestEvent = RequestEvent(
    seqNo: nat, model: string, provider: string, credential: string, client: string,
    status: int, detail: string, error: bool)

  datatype Filter = Filter(model: string, provider: string, credential: string, client: string, errorsOnly: bool)

  predicate Accepts(f: Filter, e: RequestEvent) {
    && (f.model != "" ==> e.model == f.model)
    && (f.provider != "" ==> e.provider == f.provider)
    && (f.credential != "" ==> e.credential == f.credential)
    && (f.client != "" ==> e.client == f.client)
    && (f.errorsOnly ==> e.error)
  }

  function Truncate(s: string): string {
    if |s| <= MAX_DETAIL then s else s[..MAX_DETAIL] + "…"
  }

  function Annotated(e: RequestEvent, status: int, detail: string): RequestEvent {
    e.(status := status,
       detail := if detail != "" then Truncate(detail) else e.detail,
       error := e.error || status >= 400)
  }

  // ---------------------------------------------------------------- meaning: the unbounded log

  datatype Op = Record(e: RequestEvent) | Annotate(seqNo: nat, status: int, detail: string)

  /** One operation on the unbounded log. */
  function FullOp(log: seq<RequestEvent>, op: Op): seq<RequestEvent> {
    match op
    case Record(e) => log + [e.(seqNo := |log| + 1, detail := Truncate(e.detail))]
    case Annotate(n, status, detail) =>
      if 1 <= n <= |log| then log[n - 1 := Annotated(log[n - 1], status, detail)] else log
  }

  /** Every event ever recorded, the k-th carrying number k + 1, with its annotations. */
  function Full(ops: seq<Op>): (log: seq<RequestEvent>)
    ensures forall k: nat :: k < |log| ==> log[k].seqNo == k + 1
    decreases |ops|
  {
    if ops == [] then [] else FullOp(Full(ops[..|ops| - 1]), ops[|ops| - 1])
  }

  function Last(log: seq<RequestEvent>, cap: nat): seq<RequestEvent> {
    if |log| <= cap then log else log[|log| - cap..]
  }

  /** The same operations on a log that only ever keeps the last `cap` events. */
  datatype Ring = Ring(recent: seq<RequestEvent>, count: nat)

  function RingOp(r: Ring, cap: nat, op: Op): Ring {
    match op
    case Record(e) =>
      Ring(Last(r.recent + [e.(seqNo := r.count + 1, detail := Truncate(e.detail))], cap), r.count + 1)
    case Annotate(n, status, detail) =>
      r.(recent := seq(|r.recent|, i requires 0 <= i < |r.recent| =>
        if r.recent[i].seqNo == n then Annotated(r.recent[i], status, detail) else r.recent[i]))
  }

  function RingRun(cap: nat, ops: seq<Op>): Ring
    decreases |ops|
  {
    if ops == [] then Ring([], 0) else RingOp(RingRun(cap, ops[..|ops| - 1]), cap, ops[|ops| - 1])
  }

  /**
   After any run the ring holds exactly the last min(n, cap) events of the full log, with
   consecutive numbers, and with every annotation made while the event was still there -- which is
   every annotation, since a dropped event never comes back.
   */
  lemma {:induction false} RingIsTail(cap: nat, ops: seq<Op>)
    requires cap > 0
    ensures RingRun(cap, ops) == Ring(Last(Full(ops), cap), |Full(ops)|)
    decreases |ops|
  {
    hide RingOp, FullOp, Last;
    if ops != [] {
      RingIsTail(cap, ops[..|ops| - 1]);
      OpTail(Full(ops[..|ops| - 1]), cap, ops[|ops| - 1]);
    } else {
      LastOfNone(cap);
    }
  }

  lemma LastOfNone(cap: nat)
    ensures Last([], cap) == []
  {}

  lemma OpTail(log: seq<RequestEvent>, cap: nat, op: Op)
    requires cap > 0 && forall k: nat :: k < |log| ==> log[k].seqNo == k + 1
    ensures RingOp(Ring(Last(log, cap), |log|), cap, op) == Ring(Last(FullOp(log, op), cap), |FullOp(log, op)|)
  {
    hide Last, Truncate, Annotated;
    match op
    case Record(e) => RecordTail(log, cap, e.(seqNo := |log| + 1, detail := Truncate(e.detail)));
    case Annotate(n, status, detail) => AnnotateTail(log, cap, n, status, detail);
  }

  lemma RecordTail(log: seq<RequestEvent>, cap: nat, e: RequestEvent)
    requires cap > 0
    ensures Last(Last(log, cap) + [e], cap) == Last(log + [e], cap)
  {}

  lemma RingAnnotated(r: Ring, cap: nat, n: nat, status: int, detail: string)
    ensures var edited := RingOp(r, cap, Annotate(n, status, detail)).recent;
            && |edited| == |r.recent|
            && forall i :: 0 <= i < |edited| ==>
                 edited[i] == if r.recent[i].seqNo == n then Annotated(r.recent[i], status, detail) else r.recent[i]
  {
    hide Annotated, Last;
  }

  /** Editing a tail by number is editing the log by place. */
  lemma EditedTail(log: seq<RequestEvent>, log': seq<RequestEvent>, from: nat, tail: seq<RequestEvent>,
                   tail': seq<RequestEvent>, edited: seq<RequestEvent>, n: nat, status: int, detail: string)
    requires from <= |log| == |log'| && |tail| == |tail'| == |edited| == |log| - from
    requires forall i :: 0 <= i < |tail| ==> tail[i] == log[from + i] && tail'[i] == log'[from + i]
    requires forall i :: 0 <= i < |tail| ==>
               edited[i] == if tail[i].seqNo == n then Annotated(tail[i], status, detail) else tail[i]
    requires forall k: nat :: k < |log| ==> log[k].seqNo == k + 1
    requires forall k: nat :: k < |log| ==>
               log'[k] == if k + 1 == n then Annotated(log[k], status, detail) else log[k]
    ensures edited == tail'
  {
    hide Annotated;
    forall i | 0 <= i < |tail| ensures edited[i] == tail'[i] {
      assert log[from + i].seqNo == from + i + 1;
    }
  }

  lemma AnnotateTail(log: seq<RequestEvent>, cap: nat, n: nat, status: int, detail: string)
    requires forall k: nat :: k < |log| ==> log[k].seqNo == k + 1
    ensures var log' := if 1 <= n <= |log| then log[n - 1 := Annotated(log[n - 1], status, detail)] else log;
            RingOp(Ring(Last(log, cap), |log|), cap, Annotate(n, status, detail)).recent == Last(log', cap)
  {
    hide Annotated, RingOp, Last;
    var log' := if 1 <= n <= |log| then log[n - 1 := Annotated(log[n - 1], status, detail)] else log;
    var from := if |log| <= cap then 0 else |log| - cap;
    LastAt(log, cap, from);
    LastAt(log', cap, from);
    var r := Ring(Last(log, cap), |log|);
    RingAnnotated(r, cap, n, status, detail);
    EditedTail(log, log', from, r.recent, Last(log', cap), RingOp(r, cap, Annotate(n, status, detail)).recent,
               n, status, detail);
  }

  lemma LastAt(log: seq<RequestEvent>, cap: nat, from: nat)
    requires from == if |log| <= cap then 0 else |log| - cap
    ensures |Last(log, cap)| == |log| - from && forall i :: 0 <= i < |log| - from ==> Last(log, cap)[i] == log[from + i]
  {}

  // ---------------------------------------------------------------- what an event in the log tells

  /** The events as they were handed in. */
  function Recorded(ops: seq<Op>): seq<RequestEvent> {
    if ops == [] then []
    else Recorded(ops[..|ops| - 1]) + if ops[|ops| - 1].Record? then [ops[|ops| - 1].e] else []
  }

  datatype Note = Note(status: int, detail: string)

  /** What was noted about event `n`, once it was there. */
  function Notes(ops: seq<Op>, n: nat): seq<Note> {
    if ops == [] then []
    else
      var (front, op) := (ops[..|ops| - 1], ops[|ops| - 1]);
      Notes(front, n) +
      if op.Annotate? && op.seqNo == n && 1 <= n <= |Recorded(front)| then [Note(op.status, op.detail)] else []
  }

  /** At most 512 characters of a message and an ellipsis. */
  ghost predicate Shortened(s: string, whole: string) {
    if |whole| <= 512 then s == whole else s == whole[..512] + "…"
  }

  /** The last message noted, or the one the event came with. */
  ghost predicate LastDetail(detail: string, first: string, notes: seq<Note>) {
    || (Shortened(detail, first) && forall i :: 0 <= i < |notes| ==> notes[i].detail == "")
    || exists i :: NotedLast(detail, notes, i)
  }

  ghost predicate NotedLast(detail: string, notes: seq<Note>, i: int) {
    && 0 <= i < |notes| && notes[i].detail != "" && Shortened(detail, notes[i].detail)
    && forall j :: i < j < |notes| ==> notes[j].detail == ""
  }

  ghost predicate Failed(notes: seq<Note>) { exists i :: 0 <= i < |notes| && notes[i].status >= 400 }

  /** Event `n` as it was recorded, with the last status and message noted, an error if any status was one. */
  ghost predicate Tells(e: RequestEvent, n: nat, recorded: RequestEvent, notes: seq<Note>) {
    && e.seqNo == n
    && (e.model, e.provider, e.credential, e.client) ==
       (recorded.model, recorded.provider, recorded.credential, recorded.client)
    && e.status == (if notes == [] then recorded.status else notes[|notes| - 1].status)
    && LastDetail(e.detail, recorded.detail, notes)
    && (e.error <==> recorded.error || Failed(notes))
  }

  lemma NotedOnce(e: RequestEvent, n: nat, recorded: RequestEvent, notes: seq<Note>, status: int, detail: string)
    requires Tells(e, n, recorded, notes)
    ensures Tells(Annotated(e, status, detail), n, recorded, notes + [Note(status, detail)])
  {
    var (e', notes') := (Annotated(e, status, detail), notes + [Note(status, detail)]);
    if detail != "" {
      assert NotedLast(e'.detail, notes', |notes|);
    } else if i :| NotedLast(e.detail, notes, i) {
      assert NotedLast(e'.detail, notes', i);
    }
    if status >= 400 {
      assert notes'[|notes|].status >= 400;
    } else if i :| 0 <= i < |notes| && notes[i].status >= 400 {
      assert notes'[i].status >= 400;
    }
  }

  /** After any run event `n` of the log tells what was recorded and noted about it, and nothing else. */
  lemma {:induction false} LogTells(ops: seq<Op>, n: nat)
    requires 1 <= n <= |Full(ops)|
    ensures |Full(ops)| == |Recorded(ops)|
    ensures Tells(Full(ops)[n - 1], n, Recorded(ops)[n - 1], Notes(ops, n))
    decreases |ops|
  {
    hide Tells, Annotated, Truncate;
    var (front, op) := (ops[..|ops| - 1], ops[|ops| - 1]);
    SameLength(front);
    if n <= |Full(front)| {
      LogTells(front, n);
      assert Recorded(ops)[n - 1] == Recorded(front)[n - 1] && Notes(front, n) + [] == Notes(front, n);
      if op.Annotate? && op.seqNo == n {
        NotedOnce(Full(front)[n - 1], n, Recorded(front)[n - 1], Notes(front, n), op.status, op.detail);
      }
    } else {
      NotNotedYet(front, n);
      JustRecorded(op.e, n);
      assert n == |Full(front)| + 1 && op.Record? && Notes(ops, n) == [];
    }
  }

  lemma JustRecorded(e: RequestEvent, n: nat)
    ensures Tells(e.(seqNo := n, detail := Truncate(e.detail)), n, e, [])
  {}

  lemma {:induction false} SameLength(ops: seq<Op>)
    ensures |Full(ops)| == |Recorded(ops)|
    decreases |ops|
  {
    if ops != [] { SameLength(ops[..|ops| - 1]); }
  }

  lemma {:induction false} NotNotedYet(ops: seq<Op>, n: nat)
    requires n > |Recorded(ops)|
    ensures Notes(ops, n) == []
    decreases |ops|
  {
    if ops != [] { NotNotedYet(ops[..|ops| - 1], n); }
  }

  // ---------------------------------------------------------------- meaning: pages

  /** The matching events, newest first. */
  function Newest(recent: seq<RequestEvent>, f: Filter): seq<RequestEvent> {
    if recent == [] then []
    else
      var e := recent[|recent| - 1];
      var older := Newest(recent[..|recent| - 1], f);
      if Accepts(f, e) then [e] + older else older
  }

  /** Which events a filter takes, newest first: those that have the fields it names, and errors if it asks for them. */
  lemma NewestMeans(recent: seq<RequestEvent>, f: Filter, e: RequestEvent)
    ensures Newest(recent + [e], f) ==
            (if && f.model in {"", e.model} && f.provider in {"", e.provider}
                && f.credential in {"", e.credential} && f.client in {"", e.client}
                && !(f.errorsOnly && !e.error)
             then [e] else []) + Newest(recent, f)
    ensures Newest([], f) == []
  {
    assert (recent + [e])[..|recent|] == recent;
  }

  /** Skip `offset`, then take up to `limit`; a limit of zero takes all, a negative offset skips none. */
  function Page(all: seq<RequestEvent>, offset: int, limit: nat): seq<RequestEvent> {
    var from := if offset < 0 then 0 else if offset > |all| then |all| else offset;
    var to := if limit == 0 || from + limit > |all| then |all| else from + limit;
    all[from..to]
  }

  /** What a request for a page is answered with. */
  function Answer(recent: seq<RequestEvent>, f: Filter, offset: int, limit: int, maxPage: nat)
    : Result<(seq<RequestEvent>, nat)>
  {
    if 0 <= limit <= maxPage then Ok((Page(Newest(recent, f), offset, limit), |Newest(recent, f)|)) else Panic
  }

  /** As documented: a limit of zero or less takes all that is left, any other up to that many. */
  function Documented(recent: seq<RequestEvent>, f: Filter, offset: int, limit: int): (seq<RequestEvent>, nat) {
    (Page(Newest(recent, f), offset, if limit < 0 then 0 else limit), |Newest(recent, f)|)
  }

  /** The documented answer is given exactly for the limits that are not negative and fit one allocation. */
  lemma AnswersAsDocumentedIff(recent: seq<RequestEvent>, f: Filter, offset: int, limit: int, maxPage: nat)
    ensures Answer(recent, f, offset, limit, maxPage) == Ok(Documented(recent, f, offset, limit)) <==>
        0 <= limit <= maxPage
    ensures !(0 <= limit <= maxPage) ==> Answer(recent, f, offset, limit, maxPage) == Panic
  {}

  /** 2^62 asks for more than 2^48 bytes can hold, even of an empty log; so does any negative limit. */
  lemma OversizedPagePanics(f: Filter, maxPage: nat)
    requires maxPage <= 0x1_0000_0000_0000
    ensures Answer([], f, 0, 0x4000_0000_0000_0000, maxPage) == Panic
    ensures Answer([], f, 0, -1, maxPage) == Panic
    ensures Documented([], f, 0, 0x4000_0000_0000_0000) == Documented([], f, 0, -1) == ([], 0)
  {}

  /** The first k pages of the given size, one after another. */
  function Pages(all: seq<RequestEvent>, size: nat, k: nat): seq<RequestEvent>
    requires size > 0
  {
    if k == 0 then [] else Pages(all, size, k - 1) + Page(all, (k - 1) * size, size)
  }

  /** Consecutive pages put together are the whole list, no event missing or shown twice. */
  lemma {:induction false} PagesConcatenate(all: seq<RequestEvent>, size: nat, k: nat)
    requires size > 0
    ensures Pages(all, size, k) == all[..if k * size <= |all| then k * size else |all|]
    ensures k * size >= |all| ==> Pages(all, size, k) == all
  {
    if k > 0 {
      PagesConcatenate(all, size, k - 1);
      NextPage(all, (k - 1) * size, size);
      assert k * size == (k - 1) * size + size;
    } else {
      assert all[..0] == [];
    }
  }

  lemma NextPage(all: seq<RequestEvent>, from: nat, size: nat)
    requires size > 0
    ensures all[..if from <= |all| then from else |all|] + Page(all, from, size) ==
            all[..if from + size <= |all| then from + size else |all|]
  {}

  // ---------------------------------------------------------------- the object

  class Log {
    var recent: seq<RequestEvent>
    var recentCap: int
    var recentSeq: nat

    /** A cap of zero or less means the default. */
    constructor (cap: int)
      ensures recent == [] && recentSeq == 0 && Cap() == if cap > 0 then cap else DEFAULT_CAP
    {
      recent, recentSeq := [], 0;
      recentCap := if cap > 0 then cap else DEFAULT_CAP;
    }

    function Cap(): nat
      reads this`recentCap
    {
      if recentCap <= 0 then DEFAULT_CAP else recentCap
    }

    ghost function State(): Ring
      reads this
    {
      Ring(recent, recentSeq)
    }

    /** Holds throughout: it is what RingIsTail says of every run. */
    ghost predicate Valid()
      reads this
    {
      && |recent| <= recentSeq
      && forall i :: 0 <= i < |recent| ==> recent[i].seqNo == recentSeq - |recent| + 1 + i
    }

    method RecordRequest(event: RequestEvent) returns (n: nat)
      requires Valid()
      modifies this
      ensures Valid() && Cap() == old(Cap())
      ensures State() == RingOp(old(State()), Cap(), Record(event))
      ensures n == old(recentSeq) + 1 && |recent| > 0 && recent[|recent| - 1].seqNo == n
    {
      if recentCap <= 0 {
        recentCap := DEFAULT_CAP;
      }
      recentSeq := recentSeq + 1;
      var e := event.(seqNo := recentSeq, detail := Truncate(event.detail));
      recent := recent + [e];
      var over := |recent| - recentCap;
      if over > 0 {
        recent := recent[over..];
      }
      return e.seqNo;
    }

    /** Changes only the event with that number, if it is still in the ring. */
    method AnnotateRequest(n: nat, status: int, detail: string)
      requires Valid()
      modifies this`recent
      ensures Valid()
      ensures State() == RingOp(old(State()), Cap(), Annotate(n, status, detail))
    {
      ghost var r := State();
      ghost var edited := RingOp(r, Cap(), Annotate(n, status, detail)).recent;
      if n == 0 {
        assert edited == recent;
        return;
      }
      var i := |recent| - 1;
      while i >= 0
        invariant -1 <= i < |recent| && recent == r.recent
        invariant forall k :: i < k < |recent| ==> recent[k].seqNo != n
      {
        if recent[i].seqNo == n {
          var e := recent[i].(status := status);
          if detail != "" {
            e := e.(detail := Truncate(detail));
          }
          if status >= 400 {
            e := e.(error := true);
          }
          recent := recent[i := e];
          assert recent == edited;
          return;
        }
        i := i - 1;
      }
      assert edited == recent;
    }

    /**
     A page of the matching events, newest first, and the number of all matches whatever the
     page. Room for a full page is allocated first, whatever there is to put into it; `maxPage` is the
     most events one allocation may hold, and a limit that is negative or above it panics.
     */
    method RecentRequests(f: Filter, offset: int, limit: int, maxPage: nat)
      returns (r: Result<(seq<RequestEvent>, nat)>)
      ensures r.Panic? <==> limit < 0 || limit > maxPage
      ensures 0 <= limit <= maxPage ==> r == Ok((Page(Newest(recent, f), offset, limit), |Newest(recent, f)|))
      ensures r == Answer(recent, f, offset, limit, maxPage)
    {
      if limit < 0 || limit > maxPage {
        return Panic;
      }
      hide Page, Newest, Accepts;
      var out: seq<RequestEvent> := [];
      var total := 0;
      ghost var all: seq<RequestEvent> := [];  // the matches seen so far
      var i := |recent| - 1;
      PagingStarts(recent, f, offset, limit);
      while i >= 0
        invariant -1 <= i < |recent|
        invariant Paging(recent, f, i + 1, all)
        invariant total == |all| && out == Page(all, offset, limit)
      {
        var e := recent[i];
        PagingStep(recent, f, i + 1, all);
        i := i - 1;
        if !Accepts(f, e) {
          continue;
        }
        total := total + 1;
        PageGrows(all, e, offset, limit);
        all := all + [e];
        if total <= offset {
          continue;
        }
        if limit > 0 && |out| >= limit {
          continue;
        }
        out := out + [e];
      }
      PagingEnds(recent, f, all);
      return Ok((out, total));
    }
  }

  /** The matches found so far, and those among the first `n` still to be looked at. */
  ghost predicate Paging(recent: seq<RequestEvent>, f: Filter, n: nat, all: seq<RequestEvent>) {
    n <= |recent| && Newest(recent, f) == all + Newest(recent[..n], f)
  }

  lemma PagingStarts(recent: seq<RequestEvent>, f: Filter, offset: int, limit: nat)
    ensures Paging(recent, f, |recent|, []) && Page([], offset, limit) == []
  {
    assert recent[..|recent|] == recent && [] + Newest(recent, f) == Newest(recent, f);
  }

  lemma PagingStep(recent: seq<RequestEvent>, f: Filter, n: nat, all: seq<RequestEvent>)
    requires n > 0 && Paging(recent, f, n, all)
    ensures Paging(recent, f, n - 1, if Accepts(f, recent[n - 1]) then all + [recent[n - 1]] else all)
  {
    assert recent[..n][..n - 1] == recent[..n - 1];
    assert all + ([recent[n - 1]] + Newest(recent[..n - 1], f)) == all + [recent[n - 1]] + Newest(recent[..n - 1], f);
  }

  lemma PagingEnds(recent: seq<RequestEvent>, f: Filter, all: seq<RequestEvent>)
    requires Paging(recent, f, 0, all)
    ensures all == Newest(recent, f)
  {
    assert recent[..0] == [] && all + [] == all;
  }

  lemma PageGrows(all: seq<RequestEvent>, e: RequestEvent, offset: int, limit: nat)
    ensures Page(all + [e], offset, limit) ==
            Page(all, offset, limit) +
            if |all| + 1 <= offset || (limit > 0 && |Page(all, offset, limit)| >= limit) then [] else [e]
  {}
}
