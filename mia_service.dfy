/** The text-handling parts of services/miaService.ts: the framing of a
    server-sent-events stream into text deltas (`consumeSSEStream`), the
    word-pair streaming simulation used for non-streamed replies, the chat
    request's `stream` flag, and the cleaning and validation of a summary
    reply in `generateMiaSummary`.

    The byte stream is taken as the sequence of already-decoded text chunks,
    and `JSON.parse` followed by the `choices[0].delta.content` lookup is a
    parameter `parse` of the model. */
module MiaService {
  import opened Text

  const DataPrefix := "data: "
  const DoneMarker := "[DONE]"
  const EventSeparator := "\n\n"
  const LineSeparator := "\n"

  /** What parsing a data payload yields: `NotJson` when `JSON.parse` throws
      or the `choices[0]` access on the parsed value throws (as for the
      payload `null`), otherwise the value's `choices[0].delta.content` as
      `content` ("" when it is missing or falsy). */
  datatype Payload = NotJson | Json(content: string)

  /** What one line contributes: nothing, the end of the stream, or a delta. */
  datatype LineAction = Skip | Done | Emit(delta: string)

  /** A line of a complete event, in the main read loop: empty lines, `:`
      comments and lines without the `data: ` prefix are skipped; a payload
      that trims to `[DONE]` ends the stream; a JSON payload contributes its
      delta content when that is non-empty; any other payload contributes its
      trimmed text when that is non-empty. */
  function MainLine(line: string, parse: string -> Payload): LineAction
  {
    if line == "" || StartsWith(line, ":") || !StartsWith(line, DataPrefix) then Skip
    else
      var data := line[|DataPrefix|..];
      if Trim(data) == DoneMarker then Done
      else match parse(data)
        case Json(d) => if d != "" then Emit(d) else Skip
        case NotJson => if Trim(data) != "" then Emit(Trim(data)) else Skip
  }

  /** A line of the text left in the buffer when the stream ends: as in the
      main loop, except that a payload that is not JSON is ignored. */
  function FlushLine(line: string, parse: string -> Payload): LineAction
  {
    if !StartsWith(line, DataPrefix) then Skip
    else
      var data := line[|DataPrefix|..];
      if Trim(data) == DoneMarker then Done
      else match parse(data)
        case Json(d) => if d != "" then Emit(d) else Skip
        case NotJson => Skip
  }

  /** The deltas passed to the callback so far, and whether `[DONE]` was seen. */
  datatype Acc = Acc(deltas: seq<string>, done: bool)

  function Apply(acc: Acc, a: LineAction): Acc
  {
    match a
    case Skip => acc
    case Done => Acc(acc.deltas, true)
    case Emit(d) => Acc(acc.deltas + [d], false)
  }

  /** The lines of one event (or of the final buffer when `flush`) in order,
      stopping at `[DONE]`. */
  function Lines(acc: Acc, lines: seq<string>, parse: string -> Payload, flush: bool): Acc
    decreases |lines|
  {
    if acc.done || lines == [] then acc
    else
      var a := if flush then FlushLine(lines[0], parse) else MainLine(lines[0], parse);
      Lines(Apply(acc, a), lines[1..], parse, flush)
  }

  /** The complete events of one read, in order. */
  function Parts(acc: Acc, parts: seq<string>, parse: string -> Payload): Acc
    decreases |parts|
  {
    if acc.done || parts == [] then acc
    else Parts(Lines(acc, Split(parts[0], LineSeparator), parse, false), parts[1..], parse)
  }

  /** The read loop: each chunk is appended to the buffer, the buffer is split
      on blank lines, every part but the last is processed and the last becomes
      the new buffer. Returns the outcome and the final buffer. */
  function Chunks(acc: Acc, buffer: string, chunks: seq<string>, parse: string -> Payload): (Acc, string)
    decreases |chunks|
  {
    if acc.done || chunks == [] then (acc, buffer)
    else
      var parts := Split(buffer + chunks[0], EventSeparator);
      Chunks(Parts(acc, parts[..|parts| - 1], parse), parts[|parts| - 1], chunks[1..], parse)
  }

  /** After the read loop: a stream ended by `[DONE]` returns at once;
      otherwise a buffer that is not blank is flushed line by line. */
  function Finish(st: (Acc, string), parse: string -> Payload): seq<string>
  {
    var (acc, rest) := st;
    if acc.done || Trim(rest) == "" then acc.deltas
    else Lines(acc, Split(rest, LineSeparator), parse, true).deltas
  }

  /** The deltas handed to the callback for the stream `chunks`, in order. */
  function Consume(chunks: seq<string>, parse: string -> Payload): seq<string>
  {
    Finish(Chunks(Acc([], false), "", chunks, parse), parse)
  }

  /** `consumeSSEStream`: the deltas in the order they reach the callback, and
      the returned text, which is exactly their concatenation. */
  method ConsumeSseStream(chunks: seq<string>, parse: string -> Payload) returns (fullText: string, deltas: seq<string>)
    ensures deltas == Consume(chunks, parse)
    ensures fullText == Concat(deltas)
  {
    fullText, deltas := "", [];
    var buffer := "";
    var i := 0;
    while i < |chunks|
      invariant i <= |chunks|
      invariant fullText == Concat(deltas)
      invariant Consume(chunks, parse) == Finish(Chunks(Acc(deltas, false), buffer, chunks[i..], parse), parse)
    {
      ghost var before := Acc(deltas, false);
      ghost var prev := buffer;
      buffer := buffer + chunks[i];
      var parts := Split(buffer, EventSeparator);
      ghost var complete := parts[..|parts| - 1];
      assert Chunks(before, prev, chunks[i..], parse)
        == Chunks(Parts(before, complete, parse), parts[|parts| - 1], chunks[i + 1..], parse) by {
        assert chunks[i..][1..] == chunks[i + 1..];
      }
      buffer := parts[|parts| - 1];
      var k := 0;
      while k < |parts| - 1
        invariant k <= |parts| - 1
        invariant fullText == Concat(deltas)
        invariant Parts(before, complete, parse) == Parts(Acc(deltas, false), complete[k..], parse)
      {
        assert complete[k..][1..] == complete[k + 1..];
        var done;
        deltas, fullText, done := EventLines(Split(parts[k], LineSeparator), parse, deltas, fullText);
        if done {
          DoneStopsParts(Acc(deltas, true), complete[k + 1..], parse);
          DoneStopsChunks(Acc(deltas, true), buffer, chunks[i + 1..], parse);
          return;
        }
        k := k + 1;
      }
      i := i + 1;
    }
    if Trim(buffer) != "" {
      deltas, fullText := FlushLines(Split(buffer, LineSeparator), parse, deltas, fullText);
    }
  }

  /** The inner loop of the read loop: the lines of one complete event. */
  method EventLines(lines: seq<string>, parse: string -> Payload, deltas0: seq<string>, text0: string)
    returns (deltas: seq<string>, fullText: string, done: bool)
    requires text0 == Concat(deltas0)
    ensures Lines(Acc(deltas0, false), lines, parse, false) == Acc(deltas, done)
    ensures fullText == Concat(deltas)
  {
    deltas, fullText, done := deltas0, text0, false;
    var j := 0;
    while j < |lines|
      invariant j <= |lines|
      invariant fullText == Concat(deltas)
      invariant Lines(Acc(deltas0, false), lines, parse, false) == Lines(Acc(deltas, false), lines[j..], parse, false)
    {
      var line := lines[j];
      assert lines[j..][1..] == lines[j + 1..];
      if line != "" && !StartsWith(line, ":") && StartsWith(line, DataPrefix) {
        var data := line[|DataPrefix|..];
        if Trim(data) == DoneMarker {
          done := true;
          return;
        }
        match parse(data)
        case Json(d) =>
          if d != "" {
            ConcatSnoc(deltas, d);
            fullText := fullText + d;
            deltas := deltas + [d];
          }
        case NotJson =>
          var trimmed := Trim(data);
          if trimmed != "" {
            ConcatSnoc(deltas, trimmed);
            fullText := fullText + trimmed;
            deltas := deltas + [trimmed];
          }
      }
      j := j + 1;
    }
  }

  /** The loop over the lines of the buffer left when the stream ends. */
  method FlushLines(lines: seq<string>, parse: string -> Payload, deltas0: seq<string>, text0: string)
    returns (deltas: seq<string>, fullText: string)
    requires text0 == Concat(deltas0)
    ensures Lines(Acc(deltas0, false), lines, parse, true).deltas == deltas
    ensures fullText == Concat(deltas)
  {
    deltas, fullText := deltas0, text0;
    var j := 0;
    while j < |lines|
      invariant j <= |lines|
      invariant fullText == Concat(deltas)
      invariant Lines(Acc(deltas0, false), lines, parse, true) == Lines(Acc(deltas, false), lines[j..], parse, true)
    {
      var line := lines[j];
      assert lines[j..][1..] == lines[j + 1..];
      if StartsWith(line, DataPrefix) {
        var data := line[|DataPrefix|..];
        if Trim(data) == DoneMarker {
          break;
        }
        match parse(data)
        case Json(d) =>
          if d != "" {
            ConcatSnoc(deltas, d);
            fullText := fullText + d;
            deltas := deltas + [d];
          }
        case NotJson =>
      }
      j := j + 1;
    }
  }

  lemma ConcatSnoc(ss: seq<string>, x: string)
    ensures Concat(ss + [x]) == Concat(ss) + x
  {
    ConcatAppend(ss, [x]);
    ConcatSingle(x);
  }

  lemma {:induction false} DoneStopsParts(acc: Acc, parts: seq<string>, parse: string -> Payload)
    requires acc.done
    ensures Parts(acc, parts, parse) == acc
  {
  }

  lemma DoneStopsChunks(acc: Acc, buffer: string, chunks: seq<string>, parse: string -> Payload)
    requires acc.done
    ensures Chunks(acc, buffer, chunks, parse) == (acc, buffer)
  {
  }

  /** Processing two runs of complete events is processing their concatenation. */
  lemma {:induction false} PartsAppend(acc: Acc, a: seq<string>, c: seq<string>, parse: string -> Payload)
    ensures Parts(acc, a + c, parse) == Parts(Parts(acc, a, parse), c, parse)
    decreases |a|
  {
    if acc.done {
      DoneStopsParts(acc, a + c, parse);
      DoneStopsParts(acc, a, parse);
      DoneStopsParts(acc, c, parse);
    } else if a == [] {
      assert a + c == c;
    } else {
      assert (a + c)[0] == a[0];
      assert (a + c)[1..] == a[1..] + c;
      PartsAppend(Lines(acc, Split(a[0], LineSeparator), parse, false), a[1..], c, parse);
    }
  }

  /** Two read-loop outcomes that the final flush cannot tell apart: the same
      deltas and end flag, and the same buffer unless `[DONE]` was seen. */
  predicate SameOutcome(x: (Acc, string), y: (Acc, string))
  {
    x.0 == y.0 && (!x.0.done ==> x.1 == y.1)
  }

  /** One read of the buffered `text`: the complete events are processed and
      the text after the last blank line is kept. */
  function Feed(acc: Acc, text: string, parse: string -> Payload): (Acc, string)
  {
    var parts := Split(text, EventSeparator);
    (Parts(acc, parts[..|parts| - 1], parse), parts[|parts| - 1])
  }

  lemma ChunksCons(acc: Acc, buffer: string, x: string, rest: seq<string>, parse: string -> Payload)
    requires !acc.done
    ensures var (a1, b1) := Feed(acc, buffer + x, parse);
      Chunks(acc, buffer, [x] + rest, parse) == Chunks(a1, b1, rest, parse)
  {
    assert ([x] + rest)[0] == x && ([x] + rest)[1..] == rest;
  }

  lemma FeedEmpty(acc: Acc, parse: string -> Payload)
    ensures Feed(acc, "", parse) == (acc, "")
  {
    assert IndexOf("", EventSeparator, 0).None?;
  }

  /** Processing the complete parts of `ps` and then those of `qs` ends as
      processing the complete parts of the spliced sequence does. */
  lemma PartsSplice(acc: Acc, ps: seq<string>, qs: seq<string>, all: seq<string>, parse: string -> Payload)
    requires |ps| >= 1 && |qs| >= 1 && all == ps[..|ps| - 1] + qs
    ensures var a1 := Parts(acc, ps[..|ps| - 1], parse);
      SameOutcome(if a1.done then (a1, ps[|ps| - 1]) else (Parts(a1, qs[..|qs| - 1], parse), qs[|qs| - 1]),
                  (Parts(acc, all[..|all| - 1], parse), all[|all| - 1]))
  {
    AppendInit(ps[..|ps| - 1], qs, all);
    PartsAppend(acc, ps[..|ps| - 1], qs[..|qs| - 1], parse);
    var a1 := Parts(acc, ps[..|ps| - 1], parse);
    if a1.done {
      DoneStopsParts(a1, qs[..|qs| - 1], parse);
    }
  }

  /** Reading `s` and then `r` ends as reading `s + r` at once does. */
  lemma FeedTwice(acc: Acc, s: string, r: string, parse: string -> Payload)
    ensures var (a1, b1) := Feed(acc, s, parse);
      SameOutcome(if a1.done then (a1, b1) else Feed(a1, b1 + r, parse), Feed(acc, s + r, parse))
  {
    var ps := Split(s, EventSeparator);
    var qs := Split(ps[|ps| - 1] + r, EventSeparator);
    var all := Split(s + r, EventSeparator);
    var a1 := Parts(acc, ps[..|ps| - 1], parse);
    assert Feed(acc, s, parse) == (a1, ps[|ps| - 1]);
    assert Feed(a1, ps[|ps| - 1] + r, parse) == (Parts(a1, qs[..|qs| - 1], parse), qs[|qs| - 1]);
    assert Feed(acc, s + r, parse) == (Parts(acc, all[..|all| - 1], parse), all[|all| - 1]);
    SplitExtend(s, r, EventSeparator);
    PartsSplice(acc, ps, qs, all, parse);
  }

  lemma SameOutcomeTrans(x: (Acc, string), y: (Acc, string), z: (Acc, string))
    requires SameOutcome(x, y) && SameOutcome(y, z)
    ensures SameOutcome(x, z)
  {
  }

  /** The read loop over several chunks ends as one read of the buffer
      followed by all of them does. */
  lemma {:induction false} ChunksFlat(acc: Acc, buffer: string, chunks: seq<string>, parse: string -> Payload)
    requires chunks != []
    ensures SameOutcome(Chunks(acc, buffer, chunks, parse),
                        if acc.done then (acc, buffer) else Feed(acc, buffer + Concat(chunks), parse))
    decreases |chunks|
  {
    var x, rest := chunks[0], chunks[1..];
    ConcatCons(x, rest);
    assert chunks == [x] + rest;
    if !acc.done {
      var (a1, b1) := Feed(acc, buffer + x, parse);
      ChunksCons(acc, buffer, x, rest, parse);
      var r := Concat(rest);
      assert buffer + Concat(chunks) == (buffer + x) + r;
      if rest == [] {
        assert buffer + Concat(chunks) == buffer + x;
      } else {
        ChunksFlat(a1, b1, rest, parse);
        FeedTwice(acc, buffer + x, r, parse);
        SameOutcomeTrans(Chunks(a1, b1, rest, parse),
                         if a1.done then (a1, b1) else Feed(a1, b1 + r, parse),
                         Feed(acc, (buffer + x) + r, parse));
      }
    }
  }

  lemma FinishSame(x: (Acc, string), y: (Acc, string), parse: string -> Payload)
    requires SameOutcome(x, y)
    ensures Finish(x, parse) == Finish(y, parse)
  {
  }

  /** The deltas depend only on the text of the stream, not on how the
      network cut it into chunks: reading the chunks one by one yields what
      reading their concatenation in one chunk yields. */
  lemma ChunkingIrrelevant(chunks: seq<string>, parse: string -> Payload)
    ensures Consume(chunks, parse) == Consume([Concat(chunks)], parse)
  {
    var start := Acc([], false);
    var text := Concat(chunks);
    ChunksFlat(start, "", [text], parse);
    ConcatSingle(text);
    assert "" + text == text;
    if chunks == [] {
      FeedEmpty(start, parse);
      assert Chunks(start, "", chunks, parse) == (start, "");
    } else {
      ChunksFlat(start, "", chunks, parse);
    }
    FinishSame(Chunks(start, "", chunks, parse), Chunks(start, "", [text], parse), parse);
  }

  /** Any two chunkings of the same stream text yield the same deltas. */
  lemma SameTextSameDeltas(c1: seq<string>, c2: seq<string>, parse: string -> Payload)
    requires Concat(c1) == Concat(c2)
    ensures Consume(c1, parse) == Consume(c2, parse)
  {
    ChunkingIrrelevant(c1, parse);
    ChunkingIrrelevant(c2, parse);
  }

  /** After a chunk is read, the parts spell out the buffer again, and the
      new buffer (the last part) holds no event separator: it is exactly the
      text after the last blank line. */
  lemma BufferKeepsTail(b: string)
    ensures Join(Split(b, EventSeparator), EventSeparator) == b
    ensures !Contains(Split(b, EventSeparator)[|Split(b, EventSeparator)| - 1], EventSeparator)
  {
    SplitJoin(b, EventSeparator);
    var parts := Split(b, EventSeparator);
    SplitPartsFree(b, EventSeparator, |parts| - 1);
    NotContains(parts[|parts| - 1], EventSeparator);
  }

  /** Empty lines, comments and lines without the `data: ` prefix yield no
      delta, in the read loop and in the final flush; every delta that is
      yielded is non-empty and comes from a data line. */
  lemma LinesWithoutData(line: string, parse: string -> Payload)
    ensures line == "" || StartsWith(line, ":") || !StartsWith(line, DataPrefix) ==> MainLine(line, parse) == Skip
    ensures !StartsWith(line, DataPrefix) ==> FlushLine(line, parse) == Skip
    ensures MainLine(line, parse).Emit? ==> MainLine(line, parse).delta != "" && StartsWith(line, DataPrefix)
    ensures FlushLine(line, parse).Emit? ==> FlushLine(line, parse).delta != "" && StartsWith(line, DataPrefix)
  {
  }

  /** The read loop and the final flush treat a line alike unless it is a
      data line whose payload is not JSON; such a line yields its trimmed
      payload in the read loop and nothing in the flush. */
  lemma MainAndFlushAgree(line: string, parse: string -> Payload)
    ensures !(StartsWith(line, DataPrefix) && parse(line[|DataPrefix|..]).NotJson?) ==> MainLine(line, parse) == FlushLine(line, parse)
    ensures StartsWith(line, DataPrefix) && parse(line[|DataPrefix|..]).NotJson? && Trim(line[|DataPrefix|..]) != DoneMarker ==>
      FlushLine(line, parse) == Skip
      && MainLine(line, parse) == (if Trim(line[|DataPrefix|..]) == "" then Skip else Emit(Trim(line[|DataPrefix|..])))
  {
    if StartsWith(line, DataPrefix) {
      assert line[0] == line[..|DataPrefix|][0] == 'd';
      assert !StartsWith(line, ":");
    }
  }

  /** Once `[DONE]` has been read, later chunks are never processed: the
      deltas are those of the stream up to that point. */
  lemma DoneIsFinal(chunks: seq<string>, more: seq<string>, parse: string -> Payload)
    requires Chunks(Acc([], false), "", chunks, parse).0.done
    ensures Consume(chunks + more, parse) == Consume(chunks, parse)
  {
    ChunksAfterDone(Acc([], false), "", chunks, more, parse);
  }

  lemma {:induction false} ChunksAfterDone(acc: Acc, buffer: string, chunks: seq<string>, more: seq<string>, parse: string -> Payload)
    requires Chunks(acc, buffer, chunks, parse).0.done
    ensures Chunks(acc, buffer, chunks + more, parse) == Chunks(acc, buffer, chunks, parse)
    decreases |chunks|
  {
    if !acc.done {
      assert chunks != [];
      assert (chunks + more)[0] == chunks[0] && (chunks + more)[1..] == chunks[1..] + more;
      var parts := Split(buffer + chunks[0], EventSeparator);
      ChunksAfterDone(Parts(acc, parts[..|parts| - 1], parse), parts[|parts| - 1], chunks[1..], more, parse);
    }
  }

  predicate NoEmpty(ss: seq<string>)
  {
    forall k :: 0 <= k < |ss| ==> ss[k] != ""
  }

  /** Every delta handed to the callback is non-empty. */
  lemma ConsumeNoEmpty(chunks: seq<string>, parse: string -> Payload)
    ensures NoEmpty(Consume(chunks, parse))
  {
    var st := Chunks(Acc([], false), "", chunks, parse);
    ChunksNoEmpty(Acc([], false), "", chunks, parse);
    if !st.0.done && Trim(st.1) != "" {
      LinesNoEmpty(st.0, Split(st.1, LineSeparator), parse, true);
    }
  }

  lemma {:induction false} LinesNoEmpty(acc: Acc, lines: seq<string>, parse: string -> Payload, flush: bool)
    requires NoEmpty(acc.deltas)
    ensures NoEmpty(Lines(acc, lines, parse, flush).deltas)
    decreases |lines|
  {
    if !acc.done && lines != [] {
      var a := if flush then FlushLine(lines[0], parse) else MainLine(lines[0], parse);
      LinesWithoutData(lines[0], parse);
      var next := Apply(acc, a);
      assert NoEmpty(next.deltas) by {
        if a.Emit? {
          assert next.deltas == acc.deltas + [a.delta];
        }
      }
      LinesNoEmpty(next, lines[1..], parse, flush);
    }
  }

  lemma {:induction false} PartsNoEmpty(acc: Acc, parts: seq<string>, parse: string -> Payload)
    requires NoEmpty(acc.deltas)
    ensures NoEmpty(Parts(acc, parts, parse).deltas)
    decreases |parts|
  {
    if !acc.done && parts != [] {
      var next := Lines(acc, Split(parts[0], LineSeparator), parse, false);
      LinesNoEmpty(acc, Split(parts[0], LineSeparator), parse, false);
      PartsNoEmpty(next, parts[1..], parse);
    }
  }

  lemma {:induction false} ChunksNoEmpty(acc: Acc, buffer: string, chunks: seq<string>, parse: string -> Payload)
    requires NoEmpty(acc.deltas)
    ensures NoEmpty(Chunks(acc, buffer, chunks, parse).0.deltas)
    decreases |chunks|
  {
    if !acc.done && chunks != [] {
      var parts := Split(buffer + chunks[0], EventSeparator);
      PartsNoEmpty(acc, parts[..|parts| - 1], parse);
      ChunksNoEmpty(Parts(acc, parts[..|parts| - 1], parse), parts[|parts| - 1], chunks[1..], parse);
    }
  }

  // ---- Word-pair streaming simulation ----

  /** Index of the first white-space character of `s` at or after `i`, or |s|. */
  function NextSpace(s: string, i: nat): (j: nat)
    requires i <= |s|
    ensures i <= j <= |s|
    ensures forall k :: i <= k < j ==> !IsSpace(s[k])
    ensures j < |s| ==> IsSpace(s[j])
    decreases |s| - i
  {
    if i == |s| || IsSpace(s[i]) then i else NextSpace(s, i + 1)
  }

  /** End of the run of white space that starts at `i`. */
  function SpaceRunEnd(s: string, i: nat): (j: nat)
    requires i <= |s|
    ensures i <= j <= |s|
    ensures forall k :: i <= k < j ==> IsSpace(s[k])
    ensures j < |s| ==> !IsSpace(s[j])
    decreases |s| - i
  {
    if i < |s| && IsSpace(s[i]) then SpaceRunEnd(s, i + 1) else i
  }

  /** `split(/(\s+)/)`: the text between white-space runs, with each run kept
      between its neighbours (so words sit at even indices and runs at odd
      ones; the first and last words may be empty). */
  function SplitWs(s: string): (words: seq<string>)
    ensures |words| >= 1
    decreases |s|
  {
    var i := NextSpace(s, 0);
    if i == |s| then [s]
    else
      var j := SpaceRunEnd(s, i);
      [s[..i], s[i..j]] + SplitWs(s[j..])
  }

  /** The split loses nothing. */
  lemma {:induction false} SplitWsConcat(s: string)
    ensures Concat(SplitWs(s)) == s
    decreases |s|
  {
    var i := NextSpace(s, 0);
    if i == |s| {
      ConcatSingle(s);
    } else {
      var j := SpaceRunEnd(s, i);
      var rest := SplitWs(s[j..]);
      assert SplitWs(s) == [s[..i]] + ([s[i..j]] + rest);
      calc {
        Concat([s[..i]] + ([s[i..j]] + rest));
        { ConcatCons(s[..i], [s[i..j]] + rest); }
        s[..i] + Concat([s[i..j]] + rest);
        { ConcatCons(s[i..j], rest); }
        s[..i] + (s[i..j] + Concat(rest));
        { SplitWsConcat(s[j..]); }
        s[..i] + (s[i..j] + s[j..]);
        { SliceJoin(s, i, j, |s|); }
        s[..i] + s[i..];
        { SliceSplit(s, i); }
        s;
      }
    }
  }

  predicate NoSpace(s: string)
  {
    forall k :: 0 <= k < |s| ==> !IsSpace(s[k])
  }

  /** Words (even indices) hold no white space; the kept separators (odd
      indices) are non-empty runs of white space; there is one more word than
      separators. */
  predicate Alternating(words: seq<string>)
  {
    && |words| % 2 == 1
    && (forall k :: 0 <= k < |words| && k % 2 == 0 ==> NoSpace(words[k]))
    && (forall k :: 0 <= k < |words| && k % 2 == 1 ==> words[k] != "" && AllSpace(words[k]))
  }

  lemma AlternatingCons(w: string, sep: string, rest: seq<string>)
    requires NoSpace(w) && sep != "" && AllSpace(sep) && Alternating(rest)
    ensures Alternating([w, sep] + rest)
  {
    var words := [w, sep] + rest;
    forall k | 2 <= k < |words|
      ensures words[k] == rest[k - 2] && (k % 2 == 0 <==> (k - 2) % 2 == 0)
    {
    }
  }

  lemma {:induction false} SplitWsAlternates(s: string)
    ensures Alternating(SplitWs(s))
    decreases |s|
  {
    var i := NextSpace(s, 0);
    if i == |s| {
      assert NoSpace(s);
    } else {
      var j := SpaceRunEnd(s, i);
      SplitWsAlternates(s[j..]);
      assert NoSpace(s[..i]);
      assert AllSpace(s[i..j]) && s[i..j] != "";
      AlternatingCons(s[..i], s[i..j], SplitWs(s[j..]));
    }
  }

  /** The chunks of the simulation: `words.slice(i, i + 2).join('')` for
      i = 0, 2, 4, ..., leaving out empty chunks. */
  function Pairs(words: seq<string>): seq<string>
    decreases |words|
  {
    if words == [] then []
    else
      var n := if |words| >= 2 then 2 else 1;
      var chunk := Concat(words[..n]);
      (if chunk == "" then [] else [chunk]) + Pairs(words[n..])
  }

  lemma {:induction false} PairsConcat(words: seq<string>)
    ensures Concat(Pairs(words)) == Concat(words)
    ensures NoEmpty(Pairs(words))
    decreases |words|
  {
    if words != [] {
      var n := if |words| >= 2 then 2 else 1;
      var chunk := Concat(words[..n]);
      var rest := Pairs(words[n..]);
      PairsConcat(words[n..]);
      var head := if chunk == "" then [] else [chunk];
      assert Pairs(words) == head + rest;
      ConcatAppend(head, rest);
      if chunk != "" {
        ConcatSingle(chunk);
      }
      assert words == words[..n] + words[n..];
      ConcatAppend(words[..n], words[n..]);
      forall k | 0 <= k < |head + rest|
        ensures (head + rest)[k] != ""
      {
        if k >= |head| {
          assert (head + rest)[k] == rest[k - |head|];
        }
      }
    }
  }

  function Drop(words: seq<string>, i: nat): seq<string>
  {
    if i <= |words| then words[i..] else []
  }

  /** The word-pair streaming simulation: the chunks handed to the callback,
      in order. None is empty and together they spell out the text. */
  method SimulateStream(text: string) returns (chunks: seq<string>)
    ensures chunks == Pairs(SplitWs(text))
    ensures Concat(chunks) == text && NoEmpty(chunks)
  {
    var words := SplitWs(text);
    chunks := [];
    var i := 0;
    while i < |words|
      invariant i <= |words| + 1
      invariant chunks + Pairs(Drop(words, i)) == Pairs(words)
      decreases |words| - i
    {
      var end := if i + 2 <= |words| then i + 2 else |words|;
      var chunk := Concat(words[i..end]);
      PairsStep(words, i);
      ghost var later := Pairs(Drop(words, i + 2));
      if chunk != "" {
        AppendAssoc(chunks, [chunk], later);
        chunks := chunks + [chunk];
      } else {
        assert [] + later == later;
      }
      i := i + 2;
    }
    assert Drop(words, i) == [];
    assert chunks + [] == chunks;
    SplitWsConcat(text);
    PairsConcat(words);
  }

  /** One turn of the simulation loop: the chunk of words i and i + 1. */
  lemma PairsStep(words: seq<string>, i: nat)
    requires i < |words|
    ensures var chunk := Concat(words[i..if i + 2 <= |words| then i + 2 else |words|]);
      Pairs(Drop(words, i)) == (if chunk == "" then [] else [chunk]) + Pairs(Drop(words, i + 2))
  {
    var end := if i + 2 <= |words| then i + 2 else |words|;
    var w := words[i..];
    assert Drop(words, i) == w;
    assert w[..end - i] == words[i..end];
    assert w[end - i..] == Drop(words, i + 2);
  }

  // ---- Chat request ----

  datatype AgentConfig = AgentConfig(botId: Option<string>, spaceId: Option<string>, userId: Option<string>)

  /** The JSON body of the chat request; `stream` stands for the presence of
      `stream: true`. */
  datatype ChatRequest = ChatRequest(message: string, spaceId: string, botId: string, userId: string, stream: bool)

  /** `value || fallback` on an optional string. */
  function OrElse(value: Option<string>, fallback: string): (r: string)
    ensures r == fallback || (value.Some? && r == value.value != "")
    ensures value.Some? && value.value != "" ==> r == value.value
  {
    if value.Some? && value.value != "" then value.value else fallback
  }

  /** The request body: each configured id when given and non-empty, else
      its default; `stream: true` exactly when a stream callback was
      supplied. `storedUserId` is what `getUserId()` returns; the write it
      makes to storage when no id is stored (`UserData.UserIdStep`) happens
      only when no configured user id is given, and that link is not part
      of this function. */
  function ChatRequestBody(message: string, config: Option<AgentConfig>, defaultSpace: string, defaultBot: string,
                           storedUserId: string, hasCallback: bool): (r: ChatRequest)
    ensures r.stream <==> hasCallback
    ensures r.message == message
    ensures config.None? ==> r.spaceId == defaultSpace && r.botId == defaultBot && r.userId == storedUserId
    ensures config.Some? && config.value.botId.Some? && config.value.botId.value != "" ==> r.botId == config.value.botId.value
    ensures config.Some? ==> && r.spaceId == OrElse(config.value.spaceId, defaultSpace)
                             && r.botId == OrElse(config.value.botId, defaultBot)
                             && r.userId == OrElse(config.value.userId, storedUserId)
  {
    var c := if config.Some? then config.value else AgentConfig(None, None, None);
    ChatRequest(message, OrElse(c.spaceId, defaultSpace), OrElse(c.botId, defaultBot), OrElse(c.userId, storedUserId), hasCallback)
  }

  // ---- Summary reply ----

  /** Every occurrence of `p` removed, left to right (`replace(/p/g, '')`). */
  function RemoveAll(s: string, p: string): string
    requires |p| > 0
    decreases |s|
  {
    match IndexOf(s, p, 0)
    case None => s
    case Some(i) => s[..i] + RemoveAll(s[i + |p|..], p)
  }

  /** Removing every occurrence is splitting on it and gluing the parts. */
  lemma {:induction false} RemoveAllSplit(s: string, p: string)
    requires |p| > 0
    ensures RemoveAll(s, p) == Concat(Split(s, p))
    decreases |s|
  {
    match IndexOf(s, p, 0)
    case None =>
      ConcatSingle(s);
    case Some(i) =>
      RemoveAllSplit(s[i + |p|..], p);
      ConcatCons(s[..i], Split(s[i + |p|..], p));
  }

  const JsonFence := "```json"
  const Fence := "```"

  /** The reply with its code fences removed and trimmed. */
  function CleanReply(text: string): string
  {
    Trim(RemoveAll(RemoveAll(text, JsonFence), Fence))
  }

  predicate NoBacktick(s: string)
  {
    forall k :: 0 <= k < |s| ==> s[k] != '`'
  }

  /** A reply without backticks is only trimmed. */
  lemma CleanPlain(body: string)
    requires NoBacktick(body)
    ensures CleanReply(body) == Trim(body)
  {
    NoFenceIn(body, JsonFence);
    NoFenceIn(body, Fence);
  }

  /** A reply wrapped in a ```` ```json ```` fence cleans to the same text as
      the bare reply. */
  lemma CleanFenced(body: string)
    requires NoBacktick(body)
    ensures CleanReply(JsonFence + body + Fence) == Trim(body)
  {
    calc {
      RemoveAll(JsonFence + body + Fence, JsonFence);
      { DropLeadingFence(body); }
      RemoveAll(body + Fence, JsonFence);
      { NoJsonFenceBefore(body); }
      body + Fence;
    }
    DropTrailingFence(body);
  }

  lemma DropLeadingFence(body: string)
    ensures RemoveAll(JsonFence + body + Fence, JsonFence) == RemoveAll(body + Fence, JsonFence)
  {
    var text := JsonFence + body + Fence;
    assert text[..|JsonFence|] == JsonFence;
    assert IndexOf(text, JsonFence, 0) == Some(0);
    assert text[|JsonFence|..] == body + Fence;
    assert text[..0] == "";
  }

  lemma NoJsonFenceBefore(body: string)
    requires NoBacktick(body)
    ensures RemoveAll(body + Fence, JsonFence) == body + Fence
  {
    var s := body + Fence;
    forall j: nat ensures !OccursAt(s, JsonFence, j) {
      if j < |body| && j + |JsonFence| <= |s| {
        assert s[j..j + |JsonFence|][0] == s[j];
      }
    }
  }

  lemma DropTrailingFence(body: string)
    requires NoBacktick(body)
    ensures RemoveAll(body + Fence, Fence) == body
  {
    var s := body + Fence;
    forall j: nat | j < |body| ensures !OccursAt(s, Fence, j) {
      if j + |Fence| <= |s| {
        assert s[j..j + |Fence|][0] == s[j];
      }
    }
    assert s[|body|..|body| + |Fence|] == Fence;
    assert OccursAt(s, Fence, |body|);
    assert IndexOf(s, Fence, 0) == Some(|body|);
    assert s[..|body|] == body && s[|body| + |Fence|..] == "";
    assert body + "" == body;
  }

  /** No fence starts inside a text without backticks. */
  lemma NoFenceIn(body: string, p: string)
    requires NoBacktick(body) && |p| > 0 && p[0] == '`'
    ensures RemoveAll(body, p) == body
  {
    forall j: nat ensures !OccursAt(body, p, j) {
      if j + |p| <= |body| {
        assert body[j..j + |p|][0] == body[j];
      }
    }
  }

  /** What parsing the cleaned reply yields: `title` and `summary` ("" when
      missing or falsy) and the three lists (None when not an array). */
  datatype ParsedSummary = ParsedSummary(title: string, summary: string, themes: Option<seq<string>>,
                                         emotions: Option<seq<string>>, actions: Option<seq<string>>)

  datatype SummaryResult = SummaryResult(title: string, summary: string, themes: seq<string>,
                                         emotions: seq<string>, actions: seq<string>)

  /** The reply of the chat call: its text and whether it came from the mock. */
  datatype ChatReply = ChatReply(text: string, fromMock: bool)

  function ListOrEmpty(l: Option<seq<string>>): seq<string>
  {
    if l.Some? then l.value else []
  }

  /** `generateMiaSummary` after the chat call: `parse` is `JSON.parse` and
      yields None when it throws. */
  function SummaryOf(reply: ChatReply, parse: string -> Option<ParsedSummary>): (r: Option<SummaryResult>)
    ensures r.Some? <==> (!reply.fromMock && reply.text != "" && parse(CleanReply(reply.text)).Some?
                          && parse(CleanReply(reply.text)).value.title != "" && parse(CleanReply(reply.text)).value.summary != "")
    ensures r.Some? ==> r.value.title != "" && r.value.summary != ""
  {
    if reply.fromMock || reply.text == "" then None
    else match parse(CleanReply(reply.text))
      case None => None
      case Some(j) =>
        if j.title != "" && j.summary != "" then
          Some(SummaryResult(j.title, j.summary, ListOrEmpty(j.themes), ListOrEmpty(j.emotions), ListOrEmpty(j.actions)))
        else None
  }

  /** A fenced reply gives the same summary as the bare one, and the lists
      that are not arrays become empty. */
  lemma SummaryIgnoresFence(body: string, parse: string -> Option<ParsedSummary>)
    requires NoBacktick(body) && body != ""
    ensures SummaryOf(ChatReply(JsonFence + body + Fence, false), parse) == SummaryOf(ChatReply(body, false), parse)
  {
    CleanFenced(body);
    CleanPlain(body);
  }

  lemma SummaryDefaults(reply: ChatReply, parse: string -> Option<ParsedSummary>)
    requires SummaryOf(reply, parse).Some?
    ensures var j := parse(CleanReply(reply.text)).value; var r := SummaryOf(reply, parse).value;
      r.title == j.title && r.summary == j.summary
      && (j.themes.None? ==> r.themes == []) && (j.themes.Some? ==> r.themes == j.themes.value)
      && (j.emotions.None? ==> r.emotions == []) && (j.actions.None? ==> r.actions == [])
  {
  }
}
