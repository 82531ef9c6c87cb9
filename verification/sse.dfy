/**
 The two passes over an upstream event stream (sections 9.2.5 and 9.2.6 of the WHATWG
 HTML Standard): a scanner that remembers the last usage-bearing line however the bytes are cut
 into writes, and a filter that drops the events which carry nothing but usage.

 Parsing and white-space trimming are parameters: what is proved holds for any of them.
 */
module Sse {
  import opened Wrappers

  newtype Byte = x: int | 0 <= x < 256
  type Bytes = seq<Byte>

  const NL: Byte := 10
  const MAX_LINE: nat := 0x10_0000

  /** `"usage"`, `"usage":null` and `"usage": null`, and `data:`. */
  const USAGE: Bytes := [34, 117, 115, 97, 103, 101, 34]
  const USAGE_NULL: Bytes := USAGE + [58, 110, 117, 108, 108]
  const USAGE_SPACE_NULL: Bytes := USAGE + [58, 32, 110, 117, 108, 108]
  const DATA: Bytes := [100, 97, 116, 97, 58]

  datatype UpstreamUsage = UpstreamUsage(input: int, output: int, cost: real)

  const NO_USAGE := UpstreamUsage(0, 0, 0.0)

  /** bytes.TrimSpace, parseOpenAIUsage and isUsageOnlyChunk. */
  datatype Codec = Codec(trim: Bytes -> Bytes, parse: Bytes -> UpstreamUsage, usageOnly: Bytes -> bool)

  predicate Contains(s: Bytes, p: Bytes) {
    exists i: nat | i <= |s| :: OccursAt(s, p, i)
  }

  predicate OccursAt(s: Bytes, p: Bytes, i: nat) { i + |p| <= |s| && s[i..i + |p|] == p }

  // ---------------------------------------------------------------- lines

  function IndexNL(s: Bytes): (i: nat)
    ensures i <= |s|
    ensures NL !in s[..i]
    ensures i < |s| ==> s[i] == NL
  {
    if s == [] || s[0] == NL then 0
    else
      var i := IndexNL(s[1..]);
      assert s[..i + 1] == [s[0]] + s[1..][..i];
      i + 1
  }

  /** Complete lines, without their newline, and the unterminated rest. */
  datatype Cut = Cut(lines: seq<Bytes>, rest: Bytes)

  function CutLines(s: Bytes): (c: Cut)
    ensures NL !in c.rest
  {
    var i := IndexNL(s);
    if i == |s| then
      assert s[..i] == s;
      Cut([], s)
    else
      var more := CutLines(s[i + 1..]);
      Cut([s[..i]] + more.lines, more.rest)
  }

  lemma {:induction false} IndexOfFirst(a: Bytes, b: Bytes)
    requires NL !in a
    ensures IndexNL(a + [NL] + b) == |a|
    ensures IndexNL(a) == |a|
  {
    if a != [] {
      assert (a + [NL] + b)[1..] == a[1..] + [NL] + b;
      IndexOfFirst(a[1..], b);
    }
  }

  lemma CutHead(line: Bytes, rest: Bytes)
    requires NL !in line
    ensures CutLines(line + [NL] + rest) == Cut([line] + CutLines(rest).lines, CutLines(rest).rest)
  {
    var s := line + [NL] + rest;
    IndexOfFirst(line, rest);
    assert s[..|line|] == line && s[|line| + 1..] == rest;
  }

  /** Cutting may be resumed from the unterminated rest. */
  lemma {:induction false} CutResumes(a: Bytes, b: Bytes)
    ensures CutLines(a + b).lines == CutLines(a).lines + CutLines(CutLines(a).rest + b).lines
    ensures CutLines(a + b).rest == CutLines(CutLines(a).rest + b).rest
    decreases |a|
  {
    hide CutLines;
    var i := IndexNL(a);
    if i == |a| {
      CutUnfinished(a);
    } else {
      var line, rest := a[..i], a[i + 1..];
      CutResumes(rest, b);
      CutResumesAfter(line, rest, b);
      assert a == line + [NL] + rest;
    }
  }

  lemma CutUnfinished(a: Bytes)
    requires IndexNL(a) == |a|
    ensures CutLines(a) == Cut([], a)
  {}

  lemma CutResumesAfter(line: Bytes, rest: Bytes, b: Bytes)
    requires NL !in line
    requires CutLines(rest + b).lines == CutLines(rest).lines + CutLines(CutLines(rest).rest + b).lines
    requires CutLines(rest + b).rest == CutLines(CutLines(rest).rest + b).rest
    ensures var a := line + [NL] + rest;
            && CutLines(a + b).lines == CutLines(a).lines + CutLines(CutLines(a).rest + b).lines
            && CutLines(a + b).rest == CutLines(CutLines(a).rest + b).rest
  {
    hide CutLines;
    CutHead(line, rest);
    CutHead(line, rest + b);
    assert line + [NL] + rest + b == line + [NL] + (rest + b);
  }

  // ---------------------------------------------------------------- the usage scanner

  /** The payload of a line that mentions a non-null usage, if the line is not too long. */
  function Payload(c: Codec, line: Bytes): Option<Bytes> {
    var t := c.trim(line);
    if |line| <= MAX_LINE && DATA <= t && Contains(t, USAGE) && !Contains(t, USAGE_NULL)
        && !Contains(t, USAGE_SPACE_NULL)
    then Some(c.trim(t[|DATA|..])) else None
  }

  function Ascii(s: string): Bytes
    requires forall i :: 0 <= i < |s| ==> s[i] as int < 128
  {
    seq(|s|, i requires 0 <= i < |s| && s[i] as int < 128 => s[i] as int as Byte)
  }

  /** What is looked for, as it is spelled. */
  lemma SpelledOut()
    ensures DATA == Ascii("data:") && USAGE == Ascii("\"usage\"")
    ensures USAGE_NULL == Ascii("\"usage\":null") && USAGE_SPACE_NULL == Ascii("\"usage\": null")
  {}

  lemma ContainsMeans(s: Bytes, p: Bytes)
    ensures Contains(s, p) <==> exists a, b :: s == a + p + b
  {
    if i: nat :| i <= |s| && OccursAt(s, p, i) { assert s == s[..i] + p + s[i + |p|..]; }
    if a, b :| s == a + p + b { assert OccursAt(s, p, |a|); }
  }

  ghost predicate Within(p: Bytes, s: Bytes) { exists a, b :: s == a + p + b }

  /** The data line `data: body`, and nothing else, around white space. */
  ghost predicate DataLine(c: Codec, line: Bytes, body: Bytes) { c.trim(line) == Ascii("data:") + body }

  /** What a line has to be to bear usage: a data line of at most a megabyte with a usage that is not null. */
  lemma PayloadMeans(c: Codec, line: Bytes, p: Bytes)
    ensures Payload(c, line) == Some(p) <==>
              && |line| <= 1024 * 1024
              && (exists body :: DataLine(c, line, body) && p == c.trim(body))
              && Within(Ascii("\"usage\""), c.trim(line))
              && !Within(Ascii("\"usage\":null"), c.trim(line)) && !Within(Ascii("\"usage\": null"), c.trim(line))
  {
    SpelledOut();
    var t := c.trim(line);
    ContainsMeans(t, USAGE);
    ContainsMeans(t, USAGE_NULL);
    ContainsMeans(t, USAGE_SPACE_NULL);
    hide Contains, Ascii;
    DataLineMeans(c, line);
    if DATA <= t { assert DataLine(c, line, t[|DATA|..]); }
  }

  lemma DataLineMeans(c: Codec, line: Bytes)
    ensures forall body :: DataLine(c, line, body) <==> DATA <= c.trim(line) && body == c.trim(line)[|DATA|..]
  {
    SpelledOut();
    hide Ascii;
    var t := c.trim(line);
    forall body ensures DataLine(c, line, body) <==> DATA <= t && body == t[|DATA|..] {
      if DATA <= t { assert t == DATA + t[|DATA|..]; }
      if DataLine(c, line, body) { assert t == DATA + body; }
    }
  }

  /** The payload of the last line that has one. */
  function LastPayload(c: Codec, lines: seq<Bytes>): (p: Option<Bytes>)
    ensures p.None? <==> forall i :: 0 <= i < |lines| ==> Payload(c, lines[i]).None?
    ensures p.Some? ==> exists i :: 0 <= i < |lines| && Payload(c, lines[i]) == p &&
                          forall k :: i < k < |lines| ==> Payload(c, lines[k]).None?
    decreases |lines|
  {
    if lines == [] then None
    else
      var line := lines[|lines| - 1];
      if Payload(c, line).Some? then Payload(c, line) else LastPayload(c, lines[..|lines| - 1])
  }

  /** All lines of a stream that has ended, the last one possibly unterminated. */
  function AllLines(s: Bytes): seq<Bytes> {
    var cut := CutLines(s);
    if cut.rest == [] then cut.lines else cut.lines + [cut.rest]
  }

  /** The usage of a whole stream: that of the last line that reports one, or none. */
  function StreamUsage(c: Codec, s: Bytes): UpstreamUsage {
    match LastPayload(c, AllLines(s))
    case None => NO_USAGE
    case Some(p) => c.parse(p)
  }

  /** A missing newline at the end makes no difference. */
  lemma FinalNewlineIsOptional(c: Codec, s: Bytes)
    requires c.trim([]) == []
    ensures StreamUsage(c, s + [NL]) == StreamUsage(c, s)
  {
    Finished(s);
    hide CutLines;
    LastPayloadAppend(c, CutLines(s).lines, CutLines(s).rest);
    assert Payload(c, []) == None;
  }

  class UsageScanner {
    const codec: Codec
    var line: Bytes
    var overflow: bool
    var last: Option<Bytes>
    ghost var seen: Bytes  // everything written so far

    constructor (codec: Codec)
      ensures Valid() && seen == [] && this.codec == codec
    {
      this.codec := codec;
      line, overflow, last := [], false, None;
      seen := [];
      assert CutLines([]) == Cut([], []);
    }

    ghost predicate Valid()
      reads this
    {
      Scanned(codec, line, overflow, last, seen)
    }

    method AppendLine(p: Bytes)
      modifies this`line, this`overflow
      ensures overflow == Overflows(old(line), old(overflow), p)
      ensures line == if overflow then old(line) else old(line) + p
    {
      if overflow || |line| + |p| > MAX_LINE {
        overflow := true;
        return;
      }
      line := line + p;
    }

    method EndLine()
      requires !overflow ==> |line| <= MAX_LINE
      modifies this`line, this`overflow, this`last
      ensures line == [] && !overflow
      ensures last == if !old(overflow) && Payload(codec, old(line)).Some? then Payload(codec, old(line)) else old(last)
    {
      var t := codec.trim(line);
      if !overflow && DATA <= t && Contains(t, USAGE) && !Contains(t, USAGE_NULL) && !Contains(t, USAGE_SPACE_NULL) {
        last := Some(codec.trim(t[|DATA|..]));
      }
      line := [];
      overflow := false;
    }

    method Write(p: Bytes) returns (n: nat)
      requires Valid()
      modifies this
      ensures Valid() && seen == old(seen) + p && n == |p|
    {
      hide Scanned, Payload, IndexNL, Contains, Overflows;
      n := |p|;
      var rest := p;
      while |rest| > 0
        invariant Valid() && seen + rest == old(seen) + p
        decreases |rest|
      {
        var i := IndexNL(rest);
        var head := rest[..i];
        ghost var before := line;
        AppendStep(codec, line, overflow, last, seen, head);
        if i == |rest| {
          AppendLine(rest);
          assert head == rest;
          seen := seen + rest;
          break;
        }
        AppendLine(head);
        EndStep(codec, line, overflow, last, seen + head);
        EndLine();
        assert rest == head + [NL] + rest[i + 1..];
        seen := seen + head + [NL];
        rest := rest[i + 1..];
      }
    }

    /** Parses the last usage-bearing event seen, including a final unterminated line. */
    method GetUsage() returns (u: UpstreamUsage)
      requires Valid()
      modifies this`line, this`overflow, this`last
      ensures u == StreamUsage(codec, seen)
    {
      FinishStep(codec, line, overflow, last, seen);
      hide Scanned, Payload, LastPayload, AllLines, CutLines, Contains;
      if |line| > 0 {
        EndLine();
      }
      if last == None {
        return NO_USAGE;
      }
      return codec.parse(last.value);
    }
  }

  /** What the scanner's fields say about the bytes seen so far. */
  ghost predicate Scanned(c: Codec, line: Bytes, overflow: bool, last: Option<Bytes>, seen: Bytes) {
    var cut := CutLines(seen);
    && last == LastPayload(c, cut.lines)
    && overflow == (|cut.rest| > MAX_LINE)
    && (!overflow ==> line == cut.rest)
  }

  predicate Overflows(line: Bytes, overflow: bool, p: Bytes) { overflow || |line| + |p| > MAX_LINE }

  lemma AppendStep(c: Codec, line: Bytes, overflow: bool, last: Option<Bytes>, seen: Bytes, p: Bytes)
    requires Scanned(c, line, overflow, last, seen) && NL !in p
    ensures var over := Overflows(line, overflow, p);
            Scanned(c, if over then line else line + p, over, last, seen + p)
  {
    Unfinished(seen, p);
  }

  lemma EndStep(c: Codec, line: Bytes, overflow: bool, last: Option<Bytes>, seen: Bytes)
    requires Scanned(c, line, overflow, last, seen)
    ensures !overflow ==> |line| <= MAX_LINE
    ensures Scanned(c, [], false, if !overflow && Payload(c, line).Some? then Payload(c, line) else last, seen + [NL])
  {
    hide CutLines;
    Finished(seen);
    var cut := CutLines(seen);
    LastPayloadAppend(c, cut.lines, cut.rest);
    if overflow { TooLong(c, cut.rest); }
  }

  lemma TooLong(c: Codec, line: Bytes)
    requires |line| > MAX_LINE
    ensures Payload(c, line) == None
  {}

  lemma LastPayloadAppend(c: Codec, lines: seq<Bytes>, line: Bytes)
    ensures LastPayload(c, lines + [line]) == if Payload(c, line).Some? then Payload(c, line) else LastPayload(c, lines)
  {
    assert (lines + [line])[..|lines|] == lines;
  }

  lemma FinishStep(c: Codec, line: Bytes, overflow: bool, last: Option<Bytes>, seen: Bytes)
    requires Scanned(c, line, overflow, last, seen)
    ensures !overflow ==> |line| <= MAX_LINE
    ensures LastPayload(c, AllLines(seen)) ==
            if |line| > 0 && !overflow && Payload(c, line).Some? then Payload(c, line) else last
  {
    var cut := CutLines(seen);
    LastPayloadAppend(c, cut.lines, cut.rest);
    if overflow { TooLong(c, cut.rest); }
  }

  lemma Unfinished(seen: Bytes, p: Bytes)
    requires NL !in p
    ensures CutLines(seen + p) == Cut(CutLines(seen).lines, CutLines(seen).rest + p)
  {
    CutResumes(seen, p);
    IndexOfFirst(CutLines(seen).rest + p, []);
  }

  lemma Finished(seen: Bytes)
    ensures CutLines(seen + [NL]) == Cut(CutLines(seen).lines + [CutLines(seen).rest], [])
  {
    CutResumes(seen, [NL]);
    OneLine(CutLines(seen).rest);
  }

  lemma OneLine(line: Bytes)
    requires NL !in line
    ensures CutLines(line + [NL]) == Cut([line], [])
  {
    IndexOfFirst(line, []);
    assert line + [NL] == line + [NL] + [];
    assert (line + [NL])[|line| + 1..] == [] && (line + [NL])[..|line|] == line;
    assert CutLines([]) == Cut([], []);
  }

  function Concat(chunks: seq<Bytes>): Bytes {
    if chunks == [] then [] else chunks[0] + Concat(chunks[1..])
  }

  /** However the stream is cut into writes, the usage is that of the whole stream. */
  method ScanChunks(codec: Codec, chunks: seq<Bytes>) returns (u: UpstreamUsage)
    ensures u == StreamUsage(codec, Concat(chunks))
  {
    hide *;
    var scanner := new UsageScanner(codec);
    ConcatFrom(chunks);
    for k := 0 to |chunks|
      invariant scanner.Valid() && scanner.codec == codec
      invariant scanner.seen == Concat(chunks[..k])
    {
      var _ := scanner.Write(chunks[k]);
      ConcatAppend(chunks[..k], chunks[k]);
      assert chunks[..k + 1] == chunks[..k] + [chunks[k]];
    }
    assert chunks[..|chunks|] == chunks;
    u := scanner.GetUsage();
  }

  lemma ConcatFrom(chunks: seq<Bytes>)
    ensures Concat(chunks[..0]) == []
  {}

  lemma {:induction false} ConcatAppend(chunks: seq<Bytes>, p: Bytes)
    ensures Concat(chunks + [p]) == Concat(chunks) + p
  {
    if chunks == [] {
      assert [p][1..] == [] && [] + [p] == [p];
    } else {
      assert (chunks + [p])[1..] == chunks[1..] + [p];
      ConcatAppend(chunks[1..], p);
    }
  }
}
