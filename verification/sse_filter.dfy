/**
 Relaying an event stream without its usage-only chunks. What is written is exactly the
 events that hold no such chunk; the usage scanner, fed from a tee, still sees everything.
 */
module SseFilter {
  import opened Wrappers
  import opened Sse

  // ---------------------------------------------------------------- events

  /** Lines with their newline, the last one possibly without. */
  function RawLines(s: Bytes): (lines: seq<Bytes>)
    ensures s == [] <==> lines == []
  {
    if s == [] then []
    else
      var i := IndexNL(s);
      if i == |s| then [s] else [s[..i + 1]] + RawLines(s[i + 1..])
  }

  predicate Blank(c: Codec, line: Bytes) { c.trim(line) == [] }

  /** A data line whose chunk has no choices and a usage. */
  predicate UsageOnly(c: Codec, line: Bytes) {
    var t := c.trim(line);
    DATA <= t && c.usageOnly(c.trim(t[|DATA|..]))
  }

  /** Which lines cost an event its place: data lines whose payload is a usage-only chunk. */
  lemma UsageOnlyMeans(c: Codec, line: Bytes)
    ensures UsageOnly(c, line) <==> exists body :: DataLine(c, line, body) && c.usageOnly(c.trim(body))
  {
    DataLineMeans(c, line);
    var t := c.trim(line);
    if DATA <= t { assert DataLine(c, line, t[|DATA|..]); }
  }

  /** Runs of lines, each up to and including a blank line, the last one possibly without. */
  function Events(c: Codec, lines: seq<Bytes>): (es: seq<seq<Bytes>>)
    ensures lines == [] <==> es == []
    ensures es != [] ==> es[0] != [] && es[0][0] == lines[0]
  {
    if lines == [] then []
    else
      var rest := Events(c, lines[1..]);
      if Blank(c, lines[0]) || rest == [] then [[lines[0]]] + rest
      else [[lines[0]] + rest[0]] + rest[1..]
  }

  /** An event runs up to its first blank line; only the last one may do without. */
  ghost predicate EndsAtBlank(c: Codec, event: seq<Bytes>, last: bool) {
    && event != []
    && (forall j :: 0 <= j < |event| - 1 ==> c.trim(event[j]) != [])
    && (!last ==> c.trim(event[|event| - 1]) == [])
  }

  lemma {:induction false} EventsEndAtBlanks(c: Codec, lines: seq<Bytes>)
    ensures forall i :: 0 <= i < |Events(c, lines)| ==> EndsAtBlank(c, Events(c, lines)[i], i == |Events(c, lines)| - 1)
    decreases |lines|
  {
    if lines != [] {
      EventsEndAtBlanks(c, lines[1..]);
      var (es, rest) := (Events(c, lines), Events(c, lines[1..]));
      forall i | 0 <= i < |es| ensures EndsAtBlank(c, es[i], i == |es| - 1) {
        if Blank(c, lines[0]) || rest == [] {
          if i > 0 { assert es[i] == rest[i - 1] && EndsAtBlank(c, rest[i - 1], i - 1 == |rest| - 1); }
        } else {
          assert EndsAtBlank(c, rest[i], i == |rest| - 1);
          if i == 0 { assert forall j :: 0 < j < |es[0]| ==> es[0][j] == rest[0][j - 1]; }
        }
      }
    }
  }

  predicate Dropped(c: Codec, event: seq<Bytes>) {
    exists i :: 0 <= i < |event| && UsageOnly(c, event[i])
  }

  function Kept(c: Codec, es: seq<seq<Bytes>>): seq<seq<Bytes>> {
    if es == [] then []
    else if Dropped(c, es[0]) then Kept(c, es[1..])
    else [es[0]] + Kept(c, es[1..])
  }

  /** The bytes of each event. */
  function Writes(es: seq<seq<Bytes>>): (ws: seq<Bytes>)
    ensures |ws| == |es|
  {
    if es == [] then [] else [Concat(es[0])] + Writes(es[1..])
  }

  /** What reaches the client: the events that hold no usage-only data line, byte for byte and in order. */
  function Stripped(c: Codec, s: Bytes): Bytes { Concat(Writes(Kept(c, Events(c, RawLines(s))))) }

  function Flat(es: seq<seq<Bytes>>): seq<Bytes> {
    if es == [] then [] else es[0] + Flat(es[1..])
  }

  // ---------------------------------------------------------------- cutting is undone by joining

  predicate Complete(line: Bytes) { line != [] && line[|line| - 1] == NL && NL !in line[..|line| - 1] }

  predicate Partial(line: Bytes) { line != [] && NL !in line }

  predicate WellCut(lines: seq<Bytes>) {
    if |lines| <= 1 then lines == [] || Complete(lines[0]) || Partial(lines[0])
    else Complete(lines[0]) && WellCut(lines[1..])
  }

  lemma {:induction false} RawLinesJoin(s: Bytes)
    ensures WellCut(RawLines(s)) && Concat(RawLines(s)) == s
    decreases |s|
  {
    if s != [] {
      var i := IndexNL(s);
      if i == |s| {
        assert s[..i] == s;
        assert RawLines(s) == [s] && [s][1..] == [];
      } else {
        var line, rest := s[..i + 1], s[i + 1..];
        assert line[..i] == s[..i];
        assert Complete(line);
        RawLinesJoin(rest);
        assert RawLines(s)[1..] == RawLines(rest);
        assert s == line + rest;
      }
    }
  }

  lemma FirstRawLine(line: Bytes, rest: Bytes)
    requires Complete(line) || (Partial(line) && rest == [])
    ensures RawLines(line + rest) == [line] + RawLines(rest)
  {
    if Complete(line) {
      var front := line[..|line| - 1];
      assert line + rest == front + [NL] + rest;
      IndexOfFirst(front, rest);
      assert (line + rest)[..|line|] == line && (line + rest)[|line|..] == rest;
    } else {
      assert line + rest == line;
      IndexOfFirst(line, []);
    }
  }

  lemma {:induction false} JoinedLinesCut(lines: seq<Bytes>)
    requires WellCut(lines)
    ensures RawLines(Concat(lines)) == lines
    decreases |lines|
  {
    if lines != [] {
      hide RawLines, Complete, Partial;
      JoinedLinesCut(lines[1..]);
      FirstRawLine(lines[0], Concat(lines[1..]));
      assert lines == [lines[0]] + lines[1..];
    }
  }

  /** Every event but the last ends with its one blank line. */
  ghost predicate WellGrouped(c: Codec, es: seq<seq<Bytes>>) {
    es == [] ||
    (&& es[0] != []
     && (forall i :: 0 <= i < |es[0]| - 1 ==> !Blank(c, es[0][i]))
     && (|es| > 1 ==> Blank(c, es[0][|es[0]| - 1]))
     && WellGrouped(c, es[1..]))
  }

  lemma {:induction false} EventsJoin(c: Codec, lines: seq<Bytes>)
    ensures WellGrouped(c, Events(c, lines)) && Flat(Events(c, lines)) == lines
    decreases |lines|
  {
    if lines != [] {
      var es, rest := Events(c, lines), Events(c, lines[1..]);
      EventsJoin(c, lines[1..]);
      if Blank(c, lines[0]) || rest == [] {
        assert es[1..] == rest;
        assert lines == [lines[0]] + lines[1..];
      } else {
        assert es[1..] == rest[1..] && es[0] == [lines[0]] + rest[0];
        assert lines == [lines[0]] + (rest[0] + Flat(rest[1..]));
        assert es[0] + Flat(rest[1..]) == [lines[0]] + (rest[0] + Flat(rest[1..]));
        forall i | 0 <= i < |es[0]| - 1 ensures !Blank(c, es[0][i]) {
          if i > 0 { assert es[0][i] == rest[0][i - 1]; }
        }
      }
    }
  }

  lemma {:induction false} OneEvent(c: Codec, e: seq<Bytes>, lines: seq<Bytes>)
    requires e != [] && forall i :: 0 <= i < |e| - 1 ==> !Blank(c, e[i])
    requires Blank(c, e[|e| - 1]) || lines == []
    ensures Events(c, e + lines) == [e] + Events(c, lines)
    decreases |e|
  {
    assert (e + lines)[1..] == e[1..] + lines;
    if |e| == 1 {
      assert e[1..] + lines == lines && [e[0]] == e;
    } else {
      OneEvent(c, e[1..], lines);
      assert e == [e[0]] + e[1..];
    }
  }

  lemma {:induction false} JoinedEventsGroup(c: Codec, es: seq<seq<Bytes>>)
    requires WellGrouped(c, es)
    ensures Events(c, Flat(es)) == es
    decreases |es|
  {
    if es != [] {
      JoinedEventsGroup(c, es[1..]);
      if |es| == 1 { assert Flat(es[1..]) == []; }
      OneEvent(c, es[0], Flat(es[1..]));
      assert es == [es[0]] + es[1..];
    }
  }

  // ---------------------------------------------------------------- dropping events

  lemma {:induction false} KeptWellGrouped(c: Codec, es: seq<seq<Bytes>>)
    requires WellGrouped(c, es)
    ensures WellGrouped(c, Kept(c, es)) && |Kept(c, es)| <= |es|
    decreases |es|
  {
    if es != [] {
      KeptWellGrouped(c, es[1..]);
      var kept := Kept(c, es);
      if !Dropped(c, es[0]) { assert kept[1..] == Kept(c, es[1..]); }
    }
  }

  lemma {:induction false} WellCutParts(a: seq<Bytes>, b: seq<Bytes>)
    requires WellCut(a + b)
    ensures WellCut(a) && WellCut(b)
    ensures b != [] ==> forall i :: 0 <= i < |a| ==> Complete(a[i])
    decreases |a|
  {
    if a == [] {
      assert a + b == b;
    } else {
      assert (a + b)[1..] == a[1..] + b;
      if |a + b| > 1 { WellCutParts(a[1..], b); }
      if |a| == 1 && b == [] { assert a + b == a; }
    }
  }

  lemma {:induction false} WellCutJoin(a: seq<Bytes>, b: seq<Bytes>)
    requires WellCut(b) && forall i :: 0 <= i < |a| ==> Complete(a[i])
    ensures WellCut(a + b)
    decreases |a|
  {
    if a == [] {
      assert a + b == b;
    } else {
      WellCutJoin(a[1..], b);
      assert (a + b)[1..] == a[1..] + b;
    }
  }

  lemma {:induction false} KeptWellCut(c: Codec, es: seq<seq<Bytes>>)
    requires WellGrouped(c, es) && WellCut(Flat(es))
    ensures WellCut(Flat(Kept(c, es)))
    decreases |es|
  {
    if es != [] {
      WellCutParts(es[0], Flat(es[1..]));
      KeptWellCut(c, es[1..]);
      NothingIsFlat(c, es[1..]);
      if !Dropped(c, es[0]) {
        var kept := Kept(c, es);
        assert kept[1..] == Kept(c, es[1..]);
        if es[1..] == [] {
          assert kept == [es[0]] && Flat([]) == [] && es[0] + [] == es[0];
        } else {
          WellCutJoin(es[0], Flat(Kept(c, es[1..])));
        }
      }
    }
  }

  lemma NothingIsFlat(c: Codec, es: seq<seq<Bytes>>)
    requires WellGrouped(c, es)
    ensures es != [] ==> Flat(es) != []
  {}

  lemma {:induction false} KeptTwice(c: Codec, es: seq<seq<Bytes>>)
    ensures Kept(c, Kept(c, es)) == Kept(c, es)
    ensures (forall i :: 0 <= i < |es| ==> !Dropped(c, es[i])) ==> Kept(c, es) == es
    decreases |es|
  {
    if es != [] {
      KeptTwice(c, es[1..]);
      var kept := Kept(c, es);
      if !Dropped(c, es[0]) { assert kept[1..] == Kept(c, es[1..]); }
      assert es == [es[0]] + es[1..];
    }
  }

  lemma {:induction false} ConcatJoin(a: seq<Bytes>, b: seq<Bytes>)
    ensures Concat(a + b) == Concat(a) + Concat(b)
    decreases |a|
  {
    if a == [] {
      assert a + b == b;
    } else {
      assert (a + b)[1..] == a[1..] + b;
      ConcatJoin(a[1..], b);
    }
  }

  lemma {:induction false} WritesAreFlat(es: seq<seq<Bytes>>)
    ensures Concat(Writes(es)) == Concat(Flat(es))
    decreases |es|
  {
    if es != [] {
      WritesAreFlat(es[1..]);
      assert Writes(es)[1..] == Writes(es[1..]);
      ConcatJoin(es[0], Flat(es[1..]));
    }
  }

  /** The stream an event list stands for is cut back into the same events. */
  lemma EventsOfStripped(c: Codec, s: Bytes)
    ensures Events(c, RawLines(Stripped(c, s))) == Kept(c, Events(c, RawLines(s)))
  {
    hide Events, Kept, WellGrouped, WellCut, Writes, Flat, Concat;
    var es := Events(c, RawLines(s));
    RawLinesJoin(s);
    EventsJoin(c, RawLines(s));
    KeptWellGrouped(c, es);
    KeptWellCut(c, es);
    WritesAreFlat(Kept(c, es));
    JoinedLinesCut(Flat(Kept(c, es)));
    JoinedEventsGroup(c, Kept(c, es));
  }

  /** Stripping is idempotent. */
  lemma StripIsIdempotent(c: Codec, s: Bytes)
    ensures Stripped(c, Stripped(c, s)) == Stripped(c, s)
  {
    EventsOfStripped(c, s);
    KeptTwice(c, Events(c, RawLines(s)));
  }

  /** Without usage-only chunks it changes nothing, and afterwards there are none. */
  lemma StripIsIdentityWithoutUsageChunks(c: Codec, s: Bytes)
    ensures (forall i :: 0 <= i < |RawLines(s)| ==> !UsageOnly(c, RawLines(s)[i])) ==> Stripped(c, s) == s
    ensures forall i :: 0 <= i < |RawLines(Stripped(c, s))| ==> !UsageOnly(c, RawLines(Stripped(c, s))[i])
  {
    var lines := RawLines(s);
    var es := Events(c, lines);
    RawLinesJoin(s);
    EventsJoin(c, lines);
    WritesAreFlat(Kept(c, es));
    KeptTwice(c, es);
    FlatHas(c, es);
    EventsOfStripped(c, s);
    EventsJoin(c, RawLines(Stripped(c, s)));
    FlatHas(c, Kept(c, es));
    NoneDropped(c, es);
  }

  lemma {:induction false} FlatHas(c: Codec, es: seq<seq<Bytes>>)
    ensures (exists i :: 0 <= i < |es| && Dropped(c, es[i])) <==>
        exists k :: 0 <= k < |Flat(es)| && UsageOnly(c, Flat(es)[k])
    decreases |es|
  {
    if es != [] {
      FlatHas(c, es[1..]);
      var rest := Flat(es[1..]);
      if i :| 0 <= i < |es| && Dropped(c, es[i]) {
        if i == 0 {
          var k :| 0 <= k < |es[0]| && UsageOnly(c, es[0][k]);
          assert Flat(es)[k] == es[0][k];
        } else {
          assert Dropped(c, es[1..][i - 1]);
          var k :| 0 <= k < |rest| && UsageOnly(c, rest[k]);
          assert Flat(es)[|es[0]| + k] == rest[k];
        }
      }
      if k :| 0 <= k < |Flat(es)| && UsageOnly(c, Flat(es)[k]) {
        if k < |es[0]| {
          assert UsageOnly(c, es[0][k]);
        } else {
          assert UsageOnly(c, rest[k - |es[0]|]);
          var i :| 0 <= i < |es[1..]| && Dropped(c, es[1..][i]);
          assert Dropped(c, es[i + 1]);
        }
      }
    }
  }

  lemma {:induction false} NoneDropped(c: Codec, es: seq<seq<Bytes>>)
    ensures forall i :: 0 <= i < |Kept(c, es)| ==> !Dropped(c, Kept(c, es)[i])
    decreases |es|
  {
    if es != [] { NoneDropped(c, es[1..]); }
  }

  // ---------------------------------------------------------------- the relay

  lemma {:induction false} KeptJoin(c: Codec, a: seq<seq<Bytes>>, b: seq<seq<Bytes>>)
    ensures Kept(c, a + b) == Kept(c, a) + Kept(c, b)
    decreases |a|
  {
    if a == [] {
      assert a + b == b;
    } else {
      assert (a + b)[1..] == a[1..] + b;
      KeptJoin(c, a[1..], b);
    }
  }

  lemma {:induction false} WritesJoin(a: seq<seq<Bytes>>, b: seq<seq<Bytes>>)
    ensures Writes(a + b) == Writes(a) + Writes(b)
    decreases |a|
  {
    if a == [] {
      assert a + b == b;
    } else {
      assert (a + b)[1..] == a[1..] + b;
      WritesJoin(a[1..], b);
    }
  }

  /** The writes a stripped stream makes, in order. */
  function StripWrites(c: Codec, s: Bytes): seq<Bytes> { Writes(Kept(c, Events(c, RawLines(s)))) }

  /**
   Where the strip loop stands: `closed` are the events that have ended, `open` the lines of the
   one that has not, `rest` the bytes not yet taken.
   */
  ghost predicate Stripping(c: Codec, s: Bytes, closed: seq<seq<Bytes>>, open: seq<Bytes>, rest: Bytes) {
    && Events(c, RawLines(s)) == closed + Events(c, open + RawLines(rest))
    && forall i :: 0 <= i < |open| ==> !Blank(c, open[i])
  }

  lemma StripStep(c: Codec, s: Bytes, closed: seq<seq<Bytes>>, open: seq<Bytes>, line: Bytes, rest: Bytes)
    requires Stripping(c, s, closed, open, line + rest)
    requires Complete(line) || (Partial(line) && rest == [])
    ensures Blank(c, line) ==> Stripping(c, s, closed + [open + [line]], [], rest)
    ensures !Blank(c, line) ==> Stripping(c, s, closed, open + [line], rest)
  {
    hide Events, RawLines, Complete, Partial, Blank;
    FirstRawLine(line, rest);
    var lines := RawLines(rest);
    assert open + ([line] + lines) == (open + [line]) + lines;
    if Blank(c, line) {
      OneEvent(c, open + [line], lines);
      assert [] + lines == lines;
      assert closed + ([open + [line]] + Events(c, lines)) == closed + [open + [line]] + Events(c, lines);
    }
  }

  /** The writes of the events that have ended come first, and the open event is next. */
  lemma StripSoFar(c: Codec, s: Bytes, closed: seq<seq<Bytes>>, open: seq<Bytes>, rest: Bytes)
    requires Stripping(c, s, closed, open, rest)
    ensures Writes(Kept(c, closed)) <= StripWrites(c, s)
    ensures rest == [] ==> StripWrites(c, s) == Writes(Kept(c, closed + if open == [] then [] else [open]))
  {
    var more := Events(c, open + RawLines(rest));
    KeptJoin(c, closed, more);
    WritesJoin(Kept(c, closed), Kept(c, more));
    if rest == [] {
      assert open + [] == open;
      if open == [] {
        assert closed + [] == closed && more == [];
      } else {
        OneEvent(c, open, []);
        assert more == [open] + [] == [open];
      }
    }
  }

  lemma KeptOneMore(c: Codec, closed: seq<seq<Bytes>>, event: seq<Bytes>)
    ensures Writes(Kept(c, closed + [event])) ==
            if Dropped(c, event) then Writes(Kept(c, closed)) else Writes(Kept(c, closed)) + [Concat(event)]
  {
    KeptJoin(c, closed, [event]);
    WritesJoin(Kept(c, closed), Kept(c, [event]));
    assert Kept(c, [event][1..]) == [] && Writes([]) == [];
    assert [event] + [] == [event] && [event][1..] == [];
    assert Kept(c, closed) + [] == Kept(c, closed);
  }

  lemma DroppedOneMore(c: Codec, open: seq<Bytes>, line: Bytes)
    ensures Dropped(c, open + [line]) == (Dropped(c, open) || UsageOnly(c, line))
  {
    var more := open + [line];
    if Dropped(c, open) {
      var i :| 0 <= i < |open| && UsageOnly(c, open[i]);
      assert more[i] == open[i];
    }
    if UsageOnly(c, line) { assert more[|open|] == line; }
  }

  lemma {:induction false} PrefixOfConcat(chunks: seq<Bytes>, k: nat)
    requires k < |chunks|
    ensures Concat(chunks[..k + 1]) == Concat(chunks[..k]) + chunks[k]
    ensures Concat(chunks[..k + 1]) <= Concat(chunks)
  {
    assert chunks[..k + 1] == chunks[..k] + [chunks[k]];
    ConcatAppend(chunks[..k], chunks[k]);
    assert chunks == chunks[..k + 1] + chunks[k + 1..];
    ConcatJoin(chunks[..k + 1], chunks[k + 1..]);
  }

  /** A line up to its newline, or the last one without. */
  predicate TakesLine(line: Bytes, rest: Bytes) { Complete(line) || (Partial(line) && rest == []) }

  /** A buffered reader over a tee: whatever is read from upstream has also been shown to the scanner. */
  class TeeReader {
    const chunks: seq<Bytes>
    const scanner: UsageScanner
    var next: nat
    var buffered: Bytes
    ghost var taken: Bytes

    constructor (codec: Codec, chunks: seq<Bytes>)
      ensures Valid() && fresh(scanner) && this.chunks == chunks && scanner.codec == codec
      ensures next == 0 && taken == []
    {
      this.chunks := chunks;
      scanner := new UsageScanner(codec);
      next, buffered, taken := 0, [], [];
      new;
      ConcatFrom(chunks);
    }

    ghost predicate Valid()
      reads this, scanner
    {
      && next <= |chunks| && scanner.Valid()
      && scanner.seen == Concat(chunks[..next]) == taken + buffered
      && scanner.seen <= Concat(chunks)
    }

    /** What has not been handed out yet. */
    ghost function Rest(): Bytes
      requires Valid()
      reads this, scanner
    {
      Concat(chunks)[|taken|..]
    }

    lemma RestAtStart()
      requires Valid() && taken == []
      ensures Rest() == Concat(chunks)
    {}

    lemma AllSeen()
      requires Valid() && next == |chunks|
      ensures scanner.seen == Concat(chunks)
    {
      assert chunks[..next] == chunks;
    }

    /** One read from upstream. */
    method Read() returns (p: Bytes)
      requires Valid() && next < |chunks|
      modifies this, scanner
      ensures Valid() && next == old(next) + 1 && taken == old(taken) && p == chunks[old(next)]
    {
      hide Concat, Scanned;
      PrefixOfConcat(chunks, next);
      p := chunks[next];
      if |p| > 0 { var _ := scanner.Write(p); }
      buffered := buffered + p;
      next := next + 1;
      assert taken + buffered == scanner.seen;
    }

    /** Up to and including the next newline, or all there is. */
    method ReadBytes() returns (line: Bytes, eof: bool)
      requires Valid()
      modifies this, scanner
      ensures Valid() && taken == old(taken) + line && old(Rest()) == line + Rest()
      ensures line != [] ==> TakesLine(line, Rest())
      ensures if eof then Rest() == [] && scanner.seen == Concat(chunks) else line != []
    {
      hide Concat, Scanned;
      while IndexNL(buffered) == |buffered| && next < |chunks|
        invariant Valid() && taken == old(taken)
        decreases |chunks| - next
      {
        var _ := Read();
      }
      var i := IndexNL(buffered);
      if i == |buffered| {
        assert next == |chunks|;
        AllSeen();
        eof := true;
        line, buffered := buffered, [];
        assert line[..i] == line;
      } else {
        eof := false;
        line, buffered := buffered[..i + 1], buffered[i + 1..];
        assert line[..i] == old(buffered)[..0] + line[..i];
      }
      taken := taken + line;
    }
  }

  /** One write to a client that takes `accepts` writes, unless there is nothing to write. */
  method Emit(event: Bytes, drop: bool, written: seq<Bytes>, accepts: nat) returns (after: seq<Bytes>, ok: bool)
    ensures ok == (event == [] || drop || |written| < accepts)
    ensures after == if ok && event != [] && !drop then written + [event] else written
  {
    if |event| > 0 && !drop {
      if |written| >= accepts { return written, false; }
      return written + [event], true;
    }
    return written, true;
  }

  /**
   The relay without usage-only chunks. `accepts` is how many writes the client takes before one
   fails. The client gets exactly the kept events, up to that point; the scanner has seen the bytes
   read, all of them unless the client has gone.
   */
  method StreamCopyWithoutUsageChunks(reader: TeeReader, accepts: nat) returns (written: seq<Bytes>)
    requires reader.Valid() && reader.taken == []
    modifies reader, reader.scanner
    ensures reader.Valid()
    ensures written == UpTo(StripWrites(reader.scanner.codec, Concat(reader.chunks)), accepts)
    ensures |StripWrites(reader.scanner.codec, Concat(reader.chunks))| <= accepts ==>
              reader.scanner.seen == Concat(reader.chunks)
  {
    hide Concat, Scanned, RawLines, StripWrites, Relaying, TakesLine, TeeReader.Valid, TeeReader.Rest;
    var codec := reader.scanner.codec;
    ghost var stream := Concat(reader.chunks);
    var event: Bytes, drop := [], false;
    written := [];
    ghost var closed: seq<seq<Bytes>>, open: seq<Bytes> := [], [];
    RelayStarts(codec, stream);
    reader.RestAtStart();
    while true
      invariant reader.Valid() && |written| <= accepts
      invariant Relaying(codec, stream, closed, open, event, drop, written, reader.Rest())
      decreases |reader.Rest()|
    {
      var line, eof := reader.ReadBytes();
      if |line| > 0 {
        TakeLine(codec, stream, closed, open, event, drop, written, line, reader.Rest());
        event, open := event + line, open + [line];
        var trimmed := codec.trim(line);
        if DATA <= trimmed && codec.usageOnly(codec.trim(trimmed[|DATA|..])) { drop := true; }
        if |trimmed| == 0 {
          ghost var before := written;
          var ok;
          written, ok := Emit(event, drop, written, accepts);
          if !ok {
            Cut(before, event, StripWrites(codec, stream), accepts);
            return;
          }
          event, drop := [], false;
          closed, open := closed + [open], [];
        }
      }
      if eof {
        StreamEnds(codec, stream, closed, open, event, drop, written);
        var all, _ := Emit(event, drop, written, accepts);
        return all;
      }
    }
  }

  function Written(written: seq<Bytes>, event: Bytes, drop: bool): seq<Bytes> {
    if event == [] || drop then written else written + [event]
  }

  /** The strip loop's variables: `event` and `drop` speak of the open event, `written` of the closed ones. */
  ghost predicate Relaying(c: Codec, s: Bytes, closed: seq<seq<Bytes>>, open: seq<Bytes>, event: Bytes, drop: bool,
                           written: seq<Bytes>, rest: Bytes) {
    && Stripping(c, s, closed, open, rest)
    && event == Concat(open) && drop == Dropped(c, open) && (event == [] <==> open == [])
    && written == Writes(Kept(c, closed))
  }

  lemma RelayStarts(c: Codec, s: Bytes)
    ensures Relaying(c, s, [], [], [], false, [], s)
  {
    assert [] + RawLines(s) == RawLines(s);
    assert Concat([]) == [];
  }

  lemma TakeLine(c: Codec, s: Bytes, closed: seq<seq<Bytes>>, open: seq<Bytes>, event: Bytes, drop: bool,
                 written: seq<Bytes>, line: Bytes, rest: Bytes)
    requires Relaying(c, s, closed, open, event, drop, written, line + rest) && TakesLine(line, rest)
    ensures var (event', drop') := (event + line, drop || UsageOnly(c, line));
            if !Blank(c, line) then
              Relaying(c, s, closed, open + [line], event', drop', written, rest)
            else
              && Relaying(c, s, closed + [open + [line]], [], [], false, Written(written, event', drop'), rest)
              && Written(written, event', drop') <= StripWrites(c, s)
  {
    hide Events, RawLines, Writes, Kept, Blank, UsageOnly, StripWrites, Dropped;
    StripStep(c, s, closed, open, line, rest);
    ConcatAppend(open, line);
    DroppedOneMore(c, open, line);
    if Blank(c, line) {
      KeptOneMore(c, closed, open + [line]);
      StripSoFar(c, s, closed + [open + [line]], [], rest);
      RelayStarts(c, s);
    }
  }

  lemma StreamEnds(c: Codec, s: Bytes, closed: seq<seq<Bytes>>, open: seq<Bytes>, event: Bytes, drop: bool,
                   written: seq<Bytes>)
    requires Relaying(c, s, closed, open, event, drop, written, [])
    ensures StripWrites(c, s) == Written(written, event, drop)
  {
    KeptOneMore(c, closed, open);
    StripSoFar(c, s, closed, open, []);
    assert closed + [] == closed;
  }

  lemma Cut(written: seq<Bytes>, event: Bytes, all: seq<Bytes>, n: nat)
    requires written + [event] <= all && |written| == n
    ensures UpTo(all, n) == written
  {}

  function NonEmpty(chunks: seq<Bytes>): (r: seq<Bytes>)
    ensures |r| <= |chunks|
  {
    if chunks == [] then []
    else if chunks[0] == [] then NonEmpty(chunks[1..])
    else [chunks[0]] + NonEmpty(chunks[1..])
  }

  lemma {:induction false} NonEmptyJoin(a: seq<Bytes>, b: seq<Bytes>)
    ensures NonEmpty(a + b) == NonEmpty(a) + NonEmpty(b)
    decreases |a|
  {
    if a == [] {
      assert a + b == b;
    } else {
      assert (a + b)[1..] == a[1..] + b;
      NonEmptyJoin(a[1..], b);
    }
  }

  lemma {:induction false} NonEmptyConcat(a: seq<Bytes>)
    ensures Concat(NonEmpty(a)) == Concat(a)
    decreases |a|
  {
    if a != [] {
      NonEmptyConcat(a[1..]);
      if a[0] == [] {
        assert [] + Concat(a[1..]) == Concat(a[1..]);
      } else {
        assert NonEmpty(a)[1..] == NonEmpty(a[1..]);
      }
    }
  }

  /** What the plain relay has written after `k` reads. */
  ghost predicate CopiedTo(chunks: seq<Bytes>, k: nat, written: seq<Bytes>) {
    k <= |chunks| && written == NonEmpty(chunks[..k])
  }

  lemma NonEmptyOneMore(before: seq<Bytes>, p: Bytes, after: seq<Bytes>)
    ensures NonEmpty(before + [p]) == if p == [] then NonEmpty(before) else NonEmpty(before) + [p]
    ensures NonEmpty(before + [p]) <= NonEmpty(before + [p] + after)
  {
    NonEmptyJoin(before, [p]);
    assert [p][1..] == [];
    NonEmptyJoin(before + [p], after);
  }

  lemma SplitAt(chunks: seq<Bytes>, k: nat)
    requires k < |chunks|
    ensures chunks[..k + 1] == chunks[..k] + [chunks[k]]
    ensures chunks == chunks[..k] + [chunks[k]] + chunks[k + 1..]
  {}

  lemma CopyStep(chunks: seq<Bytes>, k: nat, written: seq<Bytes>)
    requires k < |chunks| && CopiedTo(chunks, k, written)
    ensures CopiedTo(chunks, k + 1, if chunks[k] == [] then written else written + [chunks[k]])
    ensures (if chunks[k] == [] then written else written + [chunks[k]]) <= NonEmpty(chunks)
  {
    hide NonEmpty;
    SplitAt(chunks, k);
    NonEmptyOneMore(chunks[..k], chunks[k], chunks[k + 1..]);
  }

  lemma CopyEnds(chunks: seq<Bytes>, written: seq<Bytes>)
    ensures CopiedTo(chunks, 0, [])
    ensures CopiedTo(chunks, |chunks|, written) ==> written == NonEmpty(chunks)
  {
    assert chunks[..|chunks|] == chunks;
  }

  /** The plain relay: every read is shown to the scanner, then written. */
  method StreamCopy(reader: TeeReader, accepts: nat) returns (written: seq<Bytes>)
    requires reader.Valid() && reader.next == 0
    modifies reader, reader.scanner
    ensures reader.Valid()
    ensures written == UpTo(NonEmpty(reader.chunks), accepts)
    ensures |NonEmpty(reader.chunks)| <= accepts ==> reader.scanner.seen == Concat(reader.chunks)
  {
    hide Concat, Scanned, NonEmpty, CopiedTo;
    written := [];
    CopyEnds(reader.chunks, written);
    while reader.next < |reader.chunks|
      invariant reader.Valid()
      invariant CopiedTo(reader.chunks, reader.next, written) && |written| <= accepts
      decreases |reader.chunks| - reader.next
    {
      CopyStep(reader.chunks, reader.next, written);
      var buf := reader.Read();
      if |buf| > 0 {
        if |written| >= accepts {
          Cut(written, buf, NonEmpty(reader.chunks), accepts);
          return;
        }
        written := written + [buf];
      }
    }
    CopyEnds(reader.chunks, written);
    reader.AllSeen();
  }

  /** The writes of a whole relay. */
  function RelayWrites(c: Codec, chunks: seq<Bytes>, strip: bool): seq<Bytes> {
    if strip then StripWrites(c, Concat(chunks)) else NonEmpty(chunks)
  }

  /**
   The streaming half of relayChatter. If the client takes all there is to write, the recorded usage
   is that of the whole upstream stream, stripped or not and however upstream cut it; and what it got
   is the whole stream, or the whole stream without its usage-only events.
   */
  method Relay(codec: Codec, chunks: seq<Bytes>, strip: bool, accepts: nat)
    returns (written: seq<Bytes>, u: UpstreamUsage)
    ensures written == UpTo(RelayWrites(codec, chunks, strip), accepts)
    ensures |RelayWrites(codec, chunks, strip)| <= accepts ==>
              && u == StreamUsage(codec, Concat(chunks))
              && Concat(written) == if strip then Stripped(codec, Concat(chunks)) else Concat(chunks)
  {
    hide Concat, Scanned, StreamUsage, Writes, Kept, Events, RawLines, NonEmpty;
    var reader := new TeeReader(codec, chunks);
    if strip {
      written := StreamCopyWithoutUsageChunks(reader, accepts);
    } else {
      written := StreamCopy(reader, accepts);
      NonEmptyConcat(chunks);
    }
    u := reader.scanner.GetUsage();
  }
}
