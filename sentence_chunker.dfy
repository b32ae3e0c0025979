/** The sentence chunker of services/sentenceChunker.ts: it buffers streamed
    text deltas and hands out speakable sentences. A sentence ends after a run
    of `.`, `!` or `?` followed by one white-space character; candidates
    shorter than ten characters stay in the buffer and merge with the text
    that follows; a buffer longer than 200 characters is cut after its last
    ", " or "; " when that lies beyond index 20. */
module SentenceChunking {
  import opened Text

  const MinSentenceLength := 10
  const SafetyValveLength := 200
  const MinBreakPoint := 20

  predicate IsTerminal(c: char)
  {
    c == '.' || c == '!' || c == '?'
  }

  /** End (exclusive) of the run of terminal punctuation that starts at `i`. */
  function PunctRunEnd(s: string, i: nat): (j: nat)
    requires i <= |s|
    ensures i <= j <= |s|
    ensures forall k :: i <= k < j ==> IsTerminal(s[k])
    ensures j < |s| ==> !IsTerminal(s[j])
    decreases |s| - i
  {
    if i < |s| && IsTerminal(s[i]) then PunctRunEnd(s, i + 1) else i
  }

  /** The pattern `[.!?]+\s` matches at index `i` (the punctuation run is
      greedy, and a shorter run would be followed by punctuation, not space). */
  predicate MatchesAt(s: string, i: nat)
    requires i <= |s|
  {
    i < |s| && IsTerminal(s[i]) && PunctRunEnd(s, i) < |s| && IsSpace(s[PunctRunEnd(s, i)])
  }

  /** `e` is the end of a match: just after punctuation and one white-space character. */
  predicate IsBoundaryEnd(s: string, e: nat)
  {
    2 <= e <= |s| && IsTerminal(s[e - 2]) && IsSpace(s[e - 1])
  }

  /** The global regular expression's `exec` from position `from`: the end of
      the leftmost match at or after `from`. */
  function NextBoundary(s: string, from: nat): (r: Option<nat>)
    requires from <= |s|
    ensures r.Some? ==> from + 2 <= r.value && IsBoundaryEnd(s, r.value)
    ensures r.Some? ==> forall j :: from <= j < |s| && MatchesAt(s, j) ==> r.value <= PunctRunEnd(s, j) + 1
    ensures r.None? ==> forall j :: from <= j < |s| ==> !MatchesAt(s, j)
    decreases |s| - from
  {
    if from == |s| then None
    else if MatchesAt(s, from) then Some(PunctRunEnd(s, from) + 1)
    else NextBoundary(s, from + 1)
  }

  /** The boundary found is the end of the leftmost match at or after `from`. */
  lemma {:induction false} NextBoundaryLeftmost(s: string, from: nat)
    requires from <= |s|
    ensures NextBoundary(s, from).Some? ==>
      exists i :: from <= i < |s| && MatchesAt(s, i) && NextBoundary(s, from).value == PunctRunEnd(s, i) + 1 &&
        forall j :: from <= j < i ==> !MatchesAt(s, j)
    decreases |s| - from
  {
    if from < |s| && !MatchesAt(s, from) {
      NextBoundaryLeftmost(s, from + 1);
    }
  }

  /** No boundary end is skipped: the match found from `from` ends at or
      before every boundary end whose punctuation lies at or after `from`. */
  lemma {:induction false} NextBoundaryLeast(s: string, from: nat, e: nat)
    requires from + 2 <= e && IsBoundaryEnd(s, e)
    ensures NextBoundary(s, from).Some? && NextBoundary(s, from).value <= e
    decreases |s| - from
  {
    if from + 2 == e {
      assert PunctRunEnd(s, from + 1) == from + 1;
      assert MatchesAt(s, from);
    } else if !MatchesAt(s, from) {
      NextBoundaryLeast(s, from + 1, e);
    }
  }

  /** From a position not preceded by punctuation, the next match ends at or
      before every later boundary end. */
  lemma BoundaryAfter(s: string, pos: nat, e: nat)
    requires pos <= |s| && (pos == 0 || !IsTerminal(s[pos - 1]))
    requires pos < e && IsBoundaryEnd(s, e)
    ensures NextBoundary(s, pos).Some? && NextBoundary(s, pos).value <= e
  {
    if e == pos + 1 {
      assert false;
    }
    NextBoundaryLeast(s, pos, e);
  }

  /** A piece the boundary scan may emit: it ends at a boundary and is at least
      ten characters long once trimmed. */
  predicate Emittable(piece: string)
  {
    IsBoundaryEnd(piece, |piece|) && |Trim(piece)| >= MinSentenceLength
  }

  /** The boundary scan of `extractSentences`, from regular-expression position
      `pos` with emission point `last`: the untrimmed pieces emitted, in order,
      and the final emission point. */
  function Scan(s: string, pos: nat, last: nat): (r: (seq<string>, nat))
    requires last <= pos <= |s|
    ensures last <= r.1 <= |s|
    decreases |s| - pos
  {
    match NextBoundary(s, pos)
    case None => ([], last)
    case Some(e) =>
      if |Trim(s[last..e])| >= MinSentenceLength then
        var r := Scan(s, e, e);
        ([s[last..e]] + r.0, r.1)
      else
        Scan(s, e, last)
  }

  /** The emitted pieces tile `s[last..]` up to the final emission point, which
      is a sentence boundary when anything was emitted. So a short candidate is
      never dropped: it becomes the head of the next emitted piece. */
  lemma {:induction false} ScanTiles(s: string, pos: nat, last: nat)
    requires last <= pos <= |s|
    ensures Concat(Scan(s, pos, last).0) == s[last..Scan(s, pos, last).1]
    ensures Scan(s, pos, last).1 == last || IsBoundaryEnd(s, Scan(s, pos, last).1)
    decreases |s| - pos
  {
    var m := NextBoundary(s, pos);
    if m.Some? {
      var e := m.value;
      ScanStep(s, pos, last, e);
      if |Trim(s[last..e])| >= MinSentenceLength {
        var r := Scan(s, e, e);
        ScanTiles(s, e, e);
        calc {
          Concat(Scan(s, pos, last).0);
          Concat([s[last..e]] + r.0);
          { ConcatCons(s[last..e], r.0); }
          s[last..e] + Concat(r.0);
          s[last..e] + s[e..r.1];
          { SliceJoin(s, last, e, r.1); }
          s[last..r.1];
        }
      } else {
        ScanTiles(s, e, last);
      }
    }
  }

  /** Every piece the boundary scan emits ends just after terminal punctuation
      and one white-space character, and is at least ten characters once trimmed. */
  predicate AllEmittable(pieces: seq<string>)
  {
    forall k :: 0 <= k < |pieces| ==> Emittable(pieces[k])
  }

  lemma {:induction false} ScanEmittable(s: string, pos: nat, last: nat)
    requires last <= pos <= |s|
    ensures AllEmittable(Scan(s, pos, last).0)
    decreases |s| - pos
  {
    var m := NextBoundary(s, pos);
    if m.Some? {
      var e := m.value;
      ScanStep(s, pos, last, e);
      if |Trim(s[last..e])| >= MinSentenceLength {
        ScanEmittable(s, e, e);
        PieceEmittable(s, last, e);
        EmittableCons(s[last..e], Scan(s, e, e).0);
      } else {
        ScanEmittable(s, e, last);
      }
    }
  }

  /** The candidate from `last` to boundary end `e` is too short to emit. */
  predicate Short(s: string, last: nat, e: nat)
    requires last <= e <= |s|
  {
    |Trim(s[last..e])| < MinSentenceLength
  }

  /** Every boundary end after `last`, up to `upto`, closes a short candidate. */
  predicate ShortUpTo(s: string, last: nat, upto: nat)
    requires last <= upto <= |s|
  {
    forall e :: last < e <= upto && IsBoundaryEnd(s, e) ==> Short(s, last, e)
  }

  /** With no match left, every later boundary end was already passed. */
  lemma ShortToEnd(s: string, pos: nat, last: nat)
    requires last <= pos <= |s| && (pos == 0 || !IsTerminal(s[pos - 1]))
    requires ShortUpTo(s, last, pos) && NextBoundary(s, pos).None?
    ensures ShortUpTo(s, last, |s|)
  {
    forall e | last < e <= |s| && IsBoundaryEnd(s, e)
      ensures Short(s, last, e)
    {
      if e > pos {
        BoundaryAfter(s, pos, e);
      }
    }
  }

  /** Between the scan position and the next match end there is no boundary
      end, so a short candidate at the match end extends the property to it. */
  lemma ShortToMatch(s: string, pos: nat, last: nat, e1: nat)
    requires last <= pos <= |s| && (pos == 0 || !IsTerminal(s[pos - 1]))
    requires ShortUpTo(s, last, pos) && NextBoundary(s, pos) == Some(e1) && Short(s, last, e1)
    ensures ShortUpTo(s, last, e1)
  {
    forall e | last < e <= e1 && IsBoundaryEnd(s, e)
      ensures Short(s, last, e)
    {
      if pos < e {
        BoundaryAfter(s, pos, e);
      }
    }
  }

  /** What the scan leaves behind holds no sentence it should have emitted:
      from the final emission point, every later boundary end closes a
      candidate shorter than ten characters once trimmed. The scan state
      keeps this for the boundary ends it has passed, and no boundary end
      escapes it. */
  lemma {:induction false} ScanRest(s: string, pos: nat, last: nat)
    requires last <= pos <= |s|
    requires pos == 0 || !IsTerminal(s[pos - 1])
    requires ShortUpTo(s, last, pos)
    ensures ShortUpTo(s, Scan(s, pos, last).1, |s|)
    decreases |s| - pos
  {
    var m := NextBoundary(s, pos);
    if m.None? {
      assert Scan(s, pos, last).1 == last;
      ShortToEnd(s, pos, last);
    } else {
      var e1 := m.value;
      if !Short(s, last, e1) {
        assert Scan(s, pos, last).1 == Scan(s, e1, e1).1;
        ScanRest(s, e1, e1);
      } else {
        assert Scan(s, pos, last) == Scan(s, e1, last);
        ShortToMatch(s, pos, last, e1);
        ScanRest(s, e1, last);
      }
    }
  }

  /** From the start: after the boundary scan of a buffer, no boundary end
      past the final emission point closes a sentence of ten or more
      characters. */
  lemma ScanLeavesNoSentence(s: string)
    ensures var r := Scan(s, 0, 0).1;
      forall e :: r < e <= |s| && IsBoundaryEnd(s, e) ==> |Trim(s[r..e])| < MinSentenceLength
  {
    ScanRest(s, 0, 0);
  }

  lemma PieceEmittable(s: string, last: nat, e: nat)
    requires last <= e && IsBoundaryEnd(s, e) && |Trim(s[last..e])| >= MinSentenceLength
    ensures Emittable(s[last..e])
  {
    var piece := s[last..e];
    assert piece[|piece| - 2] == s[e - 2] && piece[|piece| - 1] == s[e - 1];
  }

  lemma EmittableCons(x: string, r: seq<string>)
    requires Emittable(x) && AllEmittable(r)
    ensures AllEmittable([x] + r)
  {
    forall k | 0 <= k < |[x] + r|
      ensures Emittable(([x] + r)[k])
    {
      if k > 0 {
        assert ([x] + r)[k] == r[k - 1];
      }
    }
  }

  function Max(a: int, b: int): int
  {
    if a < b then b else a
  }

  /** The last ", " or "; " in `b`, or -1. */
  function BreakPoint(b: string): int
  {
    Max(LastIndexOf(b, ", "), LastIndexOf(b, "; "))
  }

  /** The safety valve: where a long buffer is cut, if it is. */
  function Valve(b: string): (r: Option<nat>)
    ensures r.Some? ==> r.value + 2 <= |b|
  {
    if |b| > SafetyValveLength && BreakPoint(b) > MinBreakPoint then Some(BreakPoint(b)) else None
  }

  /** The valve fires only on a buffer longer than 200 whose last ", " or "; "
      lies beyond index 20; it cuts at that mark, and the character after the
      mark is the space the source drops. */
  lemma ValveShape(b: string)
    ensures Valve(b).Some? <==> |b| > SafetyValveLength && BreakPoint(b) > MinBreakPoint
    ensures Valve(b).Some? ==> Valve(b).value > MinBreakPoint
    ensures Valve(b).Some? ==> (b[Valve(b).value] == ',' || b[Valve(b).value] == ';') && b[Valve(b).value + 1] == ' '
    ensures Valve(b).Some? ==> forall j: nat :: Valve(b).value < j ==> !OccursAt(b, ", ", j) && !OccursAt(b, "; ", j)
  {
    if Valve(b).Some? {
      var bp := BreakPoint(b);
      assert OccursAt(b, ", ", bp) || OccursAt(b, "; ", bp);
      assert b[bp..bp + 2][0] == b[bp] && b[bp..bp + 2][1] == b[bp + 1];
    }
  }

  /** What one run of `extractSentences` does to buffer `b`: the untrimmed
      pieces it consumes, in emission order, and the buffer it leaves. A piece
      cut by the safety valve includes the space after the mark, which the
      source drops. */
  datatype Extraction = Extraction(raw: seq<string>, buffer: string)

  function Extract(b: string): Extraction
  {
    var scan := Scan(b, 0, 0);
    Finish(scan.0, b[scan.1..])
  }

  /** The safety valve applied to what the boundary scan left over. */
  function Finish(scanned: seq<string>, rest: string): Extraction
  {
    match Valve(rest)
    case Some(bp) => Extraction(scanned + [rest[..bp + 2]], rest[bp + 2..])
    case None => Extraction(scanned, rest)
  }

  lemma FinishLossless(scanned: seq<string>, rest: string)
    ensures Concat(Finish(scanned, rest).raw) + Finish(scanned, rest).buffer == Concat(scanned) + rest
  {
    match Valve(rest)
    case Some(bp) =>
      var cut := rest[..bp + 2];
      var after := rest[bp + 2..];
      assert Finish(scanned, rest) == Extraction(scanned + [cut], after);
      calc {
        Concat(scanned + [cut]) + after;
        { ConcatAppend(scanned, [cut]); ConcatSingle(cut); }
        (Concat(scanned) + cut) + after;
        { AppendAssoc(Concat(scanned), cut, after); }
        Concat(scanned) + (cut + after);
        { SliceSplit(rest, bp + 2); }
        Concat(scanned) + rest;
      }
    case None =>
  }

  /** The sentences handed to the callback for the untrimmed pieces `raw`. */
  function Sentences(raw: seq<string>): (r: seq<string>)
    ensures |r| == |raw|
  {
    seq(|raw|, k requires 0 <= k < |raw| => Trim(raw[k]))
  }

  /** Nothing is lost and the order is kept: the consumed pieces followed by the
      new buffer spell out the old buffer. */
  lemma ExtractLossless(b: string)
    ensures Concat(Extract(b).raw) + Extract(b).buffer == b
  {
    var scan := Scan(b, 0, 0);
    var rest := b[scan.1..];
    var f := Finish(scan.0, rest);
    assert Extract(b) == f;
    calc {
      Concat(f.raw) + f.buffer;
      { FinishLossless(scan.0, rest); }
      Concat(scan.0) + rest;
      { ScanTiles(b, 0, 0); }
      b[..scan.1] + b[scan.1..];
      { SliceSplit(b, scan.1); }
      b;
    }
  }

  /** When the safety valve does not fire, the buffer kept for the next
      delta holds no complete sentence of ten or more characters: every
      boundary end in it closes a shorter candidate. */
  lemma ExtractLeavesNoSentence(b: string)
    requires Valve(b[Scan(b, 0, 0).1..]).None?
    ensures var buf := Extract(b).buffer;
      forall e :: 0 < e <= |buf| && IsBoundaryEnd(buf, e) ==> |Trim(buf[..e])| < MinSentenceLength
  {
    var r := Scan(b, 0, 0).1;
    var buf := b[r..];
    assert Extract(b).buffer == buf;
    ScanLeavesNoSentence(b);
    forall e | 0 < e <= |buf| && IsBoundaryEnd(buf, e)
      ensures |Trim(buf[..e])| < MinSentenceLength
    {
      assert buf[e - 2] == b[r + e - 2] && buf[e - 1] == b[r + e - 1];
      assert IsBoundaryEnd(b, r + e);
      assert buf[..e] == b[r..r + e];
    }
  }

  /** A piece the boundary scan emits ends with its terminal punctuation once trimmed. */
  lemma EmittableEndsTerminal(piece: string)
    requires Emittable(piece)
    ensures EndsWithTerminal(Trim(piece))
  {
    var n := |piece| - 1;
    SliceSnoc(piece, n);
    assert piece[..n + 1] == piece;
    TrimDropsSpace(piece[..n], piece[n]);
    TrimKeepsLast(piece[..n]);
  }

  /** `s` ends with terminal punctuation. */
  predicate EndsWithTerminal(s: string)
  {
    |s| > 0 && IsTerminal(s[|s| - 1])
  }

  /** `s` ends with a comma or a semicolon. */
  predicate EndsWithMark(s: string)
  {
    |s| > 0 && (s[|s| - 1] == ',' || s[|s| - 1] == ';')
  }

  /** The chunk cut by the safety valve loses the space after the mark when
      trimmed, and ends with the comma or semicolon. */
  lemma ValveChunk(rest: string, bp: nat)
    requires Valve(rest) == Some(bp)
    ensures Trim(rest[..bp + 2]) == Trim(rest[..bp + 1])
    ensures EndsWithMark(Trim(rest[..bp + 1]))
  {
    ValveShape(rest);
    SliceSnoc(rest, bp + 1);
    TrimDropsSpace(rest[..bp + 1], rest[bp + 1]);
    TrimKeepsLast(rest[..bp + 1]);
  }

  /** After the valve, every consumed piece is either one the scan emitted
      or the valve chunk, which comes last. */
  lemma FinishShape(scanned: seq<string>, rest: string, k: nat)
    requires AllEmittable(scanned)
    requires k < |Finish(scanned, rest).raw|
    ensures var piece := Finish(scanned, rest).raw[k];
      || (Emittable(piece) && EndsWithTerminal(Trim(piece)))
      || (k == |Finish(scanned, rest).raw| - 1 && |rest| > SafetyValveLength && EndsWithMark(Trim(piece)))
  {
    match Valve(rest)
    case None =>
      assert Finish(scanned, rest).raw == scanned;
      EmittableEndsTerminal(scanned[k]);
    case Some(bp) =>
      var raw := scanned + [rest[..bp + 2]];
      assert Finish(scanned, rest).raw == raw;
      if k < |scanned| {
        assert raw[k] == scanned[k];
        EmittableEndsTerminal(scanned[k]);
      } else {
        assert raw[k] == rest[..bp + 2];
        ValveShape(rest);
        ValveChunk(rest, bp);
      }
  }

  /** Every emitted sentence is either a boundary-scan sentence (it ends with
      terminal punctuation and has at least ten characters) or the single
      safety-valve chunk, which ends with the comma or semicolon and comes last. */
  lemma ExtractSentenceShape(b: string, k: nat)
    requires k < |Extract(b).raw|
    ensures var piece := Extract(b).raw[k]; var s := Sentences(Extract(b).raw)[k];
      || (Emittable(piece) && EndsWithTerminal(s))
      || (k == |Extract(b).raw| - 1 && |b| > SafetyValveLength && EndsWithMark(s))
  {
    var scan := Scan(b, 0, 0);
    ScanEmittable(b, 0, 0);
    FinishShape(scan.0, b[scan.1..], k);
  }

  lemma SentencesSnoc(raw: seq<string>, x: string)
    ensures Sentences(raw + [x]) == Sentences(raw) + [Trim(x)]
  {
  }

  /** A sentence chunker: the buffer of received text not yet emitted. The
      ghost fields record everything received and everything that has left the
      buffer (emitted, flushed or discarded), and `Valid` says the two account
      for every character. */
  class SentenceChunker {
    var buffer: string
    ghost var received: string
    ghost var settled: string

    ghost predicate Valid()
      reads this
    {
      settled + buffer == received
    }

    constructor ()
      ensures Valid() && buffer == "" && received == ""
    {
      buffer, received, settled := "", "", "";
    }

    /** `addDelta`: the delta is appended to the buffer, then the buffer is scanned. */
    method AddDelta(delta: string) returns (emitted: seq<string>)
      requires Valid()
      modifies this
      ensures Valid() && received == old(received) + delta
      ensures emitted == Sentences(Extract(old(buffer) + delta).raw)
      ensures buffer == Extract(old(buffer) + delta).buffer
    {
      buffer := buffer + delta;
      received := received + delta;
      emitted := ExtractSentences();
    }

    /** `flush`: the trimmed buffer is emitted when it is not empty, and the
        buffer is emptied, so a second flush emits nothing. */
    method Flush() returns (emitted: seq<string>)
      requires Valid()
      modifies this
      ensures Valid() && received == old(received) && buffer == ""
      ensures emitted == if Trim(old(buffer)) == "" then [] else [Trim(old(buffer))]
    {
      var remaining := Trim(buffer);
      emitted := if |remaining| > 0 then [remaining] else [];
      settled := settled + buffer;
      buffer := "";
    }

    /** `reset`: the buffer is discarded without emitting anything. */
    method Reset()
      requires Valid()
      modifies this
      ensures Valid() && received == old(received) && buffer == ""
    {
      settled := settled + buffer;
      buffer := "";
    }

    /** `extractSentences`: the boundary scan loop, then the safety valve. */
    method ExtractSentences() returns (emitted: seq<string>)
      requires settled + buffer == received
      modifies this
      ensures Valid() && received == old(received)
      ensures emitted == Sentences(Extract(old(buffer)).raw)
      ensures buffer == Extract(old(buffer)).buffer
    {
      var b := buffer;
      ghost var whole := b;
      var lastIndex;
      emitted, lastIndex := BoundaryScan(b);
      ghost var scanned := Scan(whole, 0, 0).0;
      if lastIndex > 0 {
        b := b[lastIndex..];
      }
      assert b == whole[lastIndex..];
      assert Extract(whole) == Finish(scanned, b);
      SliceSplit(whole, lastIndex);
      AppendAssoc(settled, whole[..lastIndex], b);
      settled := settled + whole[..lastIndex];
      ghost var rest := b;
      if |b| > SafetyValveLength {
        var commaBreak := LastIndexOf(b, ", ");
        var semicolonBreak := LastIndexOf(b, "; ");
        var breakPoint := Max(commaBreak, semicolonBreak);
        if breakPoint > MinBreakPoint {
          ValveStep(scanned, b, breakPoint);
          var chunk := Trim(b[..breakPoint + 1]);
          ghost var cut := b[..breakPoint + 2];
          SliceSplit(b, breakPoint + 2);
          AppendAssoc(settled, cut, b[breakPoint + 2..]);
          settled := settled + cut;
          b := b[breakPoint + 2..];
          emitted := emitted + [chunk];
          assert emitted == Sentences(Finish(scanned, rest).raw);
          assert b == Finish(scanned, rest).buffer;
          buffer := b;
          return;
        }
      }
      NoValveStep(scanned, b);
      buffer := b;
    }
  }

  /** The safety valve fires at `bp`: the sentence handed out is the text up
      to and including the mark, trimmed, and the buffer keeps what follows
      the space after the mark. */
  lemma ValveStep(scanned: seq<string>, rest: string, bp: int)
    requires |rest| > SafetyValveLength && bp == BreakPoint(rest) && bp > MinBreakPoint
    ensures bp + 2 <= |rest|
    ensures Sentences(Finish(scanned, rest).raw) == Sentences(scanned) + [Trim(rest[..bp + 1])]
    ensures Finish(scanned, rest).buffer == rest[bp + 2..]
  {
    assert Valve(rest) == Some(bp);
    var cut := rest[..bp + 2];
    assert Finish(scanned, rest) == Extraction(scanned + [cut], rest[bp + 2..]);
    ValveChunk(rest, bp);
    calc {
      Sentences(scanned + [cut]);
      { SentencesSnoc(scanned, cut); }
      Sentences(scanned) + [Trim(cut)];
      Sentences(scanned) + [Trim(rest[..bp + 1])];
    }
  }

  lemma NoValveStep(scanned: seq<string>, rest: string)
    requires !(|rest| > SafetyValveLength && BreakPoint(rest) > MinBreakPoint)
    ensures Finish(scanned, rest) == Extraction(scanned, rest)
  {
  }

  /** The `while` loop of `extractSentences`: repeated `exec` of the boundary
      pattern, emitting each trimmed candidate of at least ten characters and
      moving the emission point past it. */
  method BoundaryScan(b: string) returns (emitted: seq<string>, lastIndex: nat)
    ensures emitted == Sentences(Scan(b, 0, 0).0)
    ensures lastIndex == Scan(b, 0, 0).1
  {
    var pos := 0;
    lastIndex := 0;
    emitted := [];
    ghost var done: seq<string> := [];
    while true
      invariant lastIndex <= pos <= |b|
      invariant Scan(b, 0, 0).0 == done + Scan(b, pos, lastIndex).0
      invariant Scan(b, 0, 0).1 == Scan(b, pos, lastIndex).1
      invariant emitted == Sentences(done)
      decreases |b| - pos
    {
      var m := NextBoundary(b, pos);
      if m.None? {
        break;
      }
      var endPos := m.value;
      ScanStep(b, pos, lastIndex, endPos);
      var sentence := Trim(b[lastIndex..endPos]);
      if |sentence| >= MinSentenceLength {
        AppendAssoc(done, [b[lastIndex..endPos]], Scan(b, endPos, endPos).0);
        SentencesSnoc(done, b[lastIndex..endPos]);
        emitted := emitted + [sentence];
        done := done + [b[lastIndex..endPos]];
        lastIndex := endPos;
      }
      pos := endPos;
    }
    assert Scan(b, pos, lastIndex) == ([], lastIndex);
    assert done + [] == done;
  }

  /** One iteration of the boundary scan. */
  lemma ScanStep(s: string, pos: nat, last: nat, e: nat)
    requires last <= pos <= |s| && NextBoundary(s, pos) == Some(e)
    ensures |Trim(s[last..e])| >= MinSentenceLength ==> Scan(s, pos, last) == ([s[last..e]] + Scan(s, e, e).0, Scan(s, e, e).1)
    ensures |Trim(s[last..e])| < MinSentenceLength ==> Scan(s, pos, last) == Scan(s, e, last)
  {
  }
}
