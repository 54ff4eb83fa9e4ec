/** The incremental reader of an agent conversation stream: frames end at a blank line, whatever the chunks. */
module SseReader {
  import opened Common

  datatype ToolCall = ToolCall(id: string, name: string, args: string)

  datatype ErrorCode = ProviderFailed | IterationCap | RateLimited | Internal | ToolTimeout

  /** The validated frames. The last case stands for the frame types the reader skips. */
  datatype Frame =
    | Token(text: string)
    | ToolCalls(calls: seq<ToolCall>)
    | Done(finishReason: Option<string>)
    | ErrorFrame(code: ErrorCode, message: string)
    | OtherFrame(kind: string, body: string)

  /** JSON parsing and schema validation of one data line. */
  type Decoder = string -> Option<Frame>

  // ---- Splitting -------------------------------------------------------------------------------

  predicate BreakAt(s: string, i: int) {
    0 <= i < |s| - 1 && s[i] == '\n' && s[i + 1] == '\n'
  }

  /** `indexOf('\n\n')`: the first blank line, or -1. */
  function BlankLine(s: string): (i: int)
    ensures i == -1 || BreakAt(s, i)
    ensures forall k :: BreakAt(s, k) ==> 0 <= i <= k
  {
    BlankLineFrom(s, 0)
  }

  function BlankLineFrom(s: string, from: nat): (i: int)
    ensures i == -1 || (from <= i && BreakAt(s, i))
    ensures forall k :: from <= k && BreakAt(s, k) ==> 0 <= i <= k
    decreases |s| - from
  {
    if from + 1 >= |s| then -1
    else if s[from] == '\n' && s[from + 1] == '\n' then from
    else BlankLineFrom(s, from + 1)
  }

  datatype Split = Split(blocks: seq<string>, rest: string)

  /** Cutting a whole text at its blank lines, left to right. */
  function SplitText(text: string): (r: Split)
    ensures BlankLine(r.rest) == -1
    decreases |text|
  {
    var i := BlankLine(text);
    if i < 0 then Split([], text) else
    var tail := SplitText(text[i + 2..]);
    Split([text[..i]] + tail.blocks, tail.rest)
  }

  /** Blocks in front of a rest, a blank line after each. */
  function Unsplit(blocks: seq<string>, rest: string): string {
    if blocks == [] then rest else blocks[0] + "\n\n" + Unsplit(blocks[1..], rest)
  }

  /** A block that its own delimiter ends: no blank line inside it, and none that begins with its last newline. */
  predicate IsBlock(block: string) {
    BlankLine(block + "\n\n") == |block|
  }

  predicate AreBlocks(blocks: seq<string>) {
    forall i :: 0 <= i < |blocks| ==> IsBlock(blocks[i])
  }

  lemma FirstBlock(text: string, i: nat)
    requires BlankLine(text) == i
    ensures IsBlock(text[..i]) && text == text[..i] + "\n\n" + text[i + 2..]
  {
    var block := text[..i] + "\n\n";
    assert block == text[..i + 2];
    assert BreakAt(block, i);
    assert forall k :: BreakAt(block, k) ==> BreakAt(text, k);
  }

  /** Splitting loses nothing and leaves no blank line in a block or in the rest. */
  lemma {:induction false} SplitMeans(text: string)
    ensures var r := SplitText(text); Unsplit(r.blocks, r.rest) == text && AreBlocks(r.blocks) && BlankLine(r.rest) == -1
    decreases |text|
  {
    var i := BlankLine(text);
    if i >= 0 {
      SplitMeans(text[i + 2..]);
      FirstBlock(text, i);
    }
  }

  lemma BlockComesFirst(block: string, more: string)
    requires IsBlock(block)
    ensures var text := block + "\n\n" + more; BlankLine(text) == |block| && text[..|block|] == block && text[|block| + 2..] == more
  {
    BlankLineStays(block + "\n\n", more);
  }

  lemma SplitCons(block: string, more: string)
    requires IsBlock(block)
    ensures SplitText(block + "\n\n" + more) == Split([block] + SplitText(more).blocks, SplitText(more).rest)
  {
    var text := block + "\n\n" + more;
    BlockComesFirst(block, more);
    SplitAt(text, |block|);
  }

  /** No other blocks and rest make up the text in this way. */
  lemma {:induction false} SplitIsUnique(blocks: seq<string>, rest: string)
    requires AreBlocks(blocks) && BlankLine(rest) == -1
    ensures SplitText(Unsplit(blocks, rest)) == Split(blocks, rest)
  {
    if blocks != [] {
      assert blocks == [blocks[0]] + blocks[1..];
      SplitIsUnique(blocks[1..], rest);
      SplitCons(blocks[0], Unsplit(blocks[1..], rest));
    }
  }

  lemma BlankLineStays(a: string, b: string)
    requires BlankLine(a) >= 0
    ensures BlankLine(a + b) == BlankLine(a)
  {
    var i := BlankLine(a);
    assert BreakAt(a + b, i);
    var j := BlankLine(a + b);
    assert BreakAt(a, j);
  }

  lemma SplitAt(text: string, i: nat)
    requires BlankLine(text) == i
    ensures SplitText(text).blocks == [text[..i]] + SplitText(text[i + 2..]).blocks
    ensures SplitText(text).rest == SplitText(text[i + 2..]).rest
  {
  }

  /** Cutting `a` and continuing from its rest with `b` is cutting the two together. */
  ghost predicate SplitsOn(a: string, b: string) {
    var first := SplitText(a);
    var second := SplitText(first.rest + b);
    SplitText(a + b) == Split(first.blocks + second.blocks, second.rest)
  }

  lemma SplitStep(a: string, b: string, i: nat)
    requires BlankLine(a) == i && SplitsOn(a[i + 2..], b)
    ensures SplitsOn(a, b)
  {
    var head, tail := a[..i], a[i + 2..];
    BlankLineStays(a, b);
    SplitAt(a, i);
    SplitAt(a + b, i);
    assert (a + b)[..i] == head;
    assert (a + b)[i + 2..] == tail + b;
    ConcatAssoc([head], SplitText(tail).blocks, SplitText(SplitText(tail).rest + b).blocks);
  }

  /** More text at the end leaves the complete blocks as they are and continues from the unfinished rest. */
  lemma {:induction false} SplitAppend(a: string, b: string)
    ensures SplitsOn(a, b)
    decreases |a|
  {
    var i := BlankLine(a);
    if i >= 0 {
      SplitAppend(a[i + 2..], b);
      SplitStep(a, b, i);
    } else {
      assert SplitText(a) == Split([], a);
      assert [] + SplitText(a + b).blocks == SplitText(a + b).blocks;
    }
  }

  function Concat(chunks: seq<string>): string {
    if chunks == [] then "" else Concat(chunks[..|chunks|-1]) + chunks[|chunks|-1]
  }

  // ---- Reading one block -----------------------------------------------------------------------

  /** White space and line terminators, as `trim` removes them. */
  predicate IsSpace(c: char) {
    || '\t' <= c <= '\r' || c == ' ' || c == '\U{A0}' || c == '\U{1680}' || '\U{2000}' <= c <= '\U{200A}'
    || c == '\U{2028}' || c == '\U{2029}' || c == '\U{202F}' || c == '\U{205F}' || c == '\U{3000}' || c == '\U{FEFF}'
  }

  /** The code points that count as white space. */
  lemma SpacesAre(c: char)
    ensures IsSpace(c) <==> c as int in {9, 10, 11, 12, 13, 32, 0xA0, 0x1680, 0x2000, 0x2001, 0x2002, 0x2003, 0x2004, 0x2005, 0x2006,
                                         0x2007, 0x2008, 0x2009, 0x200A, 0x2028, 0x2029, 0x202F, 0x205F, 0x3000, 0xFEFF}
  {
  }

  function TrimLeft(s: string): string {
    if s != [] && IsSpace(s[0]) then TrimLeft(s[1..]) else s
  }

  function TrimRight(s: string): string {
    if s != [] && IsSpace(s[|s|-1]) then TrimRight(s[..|s|-1]) else s
  }

  function Trim(s: string): string {
    TrimRight(TrimLeft(s))
  }

  /** The text up to the first newline, and what follows it. */
  function FirstLine(s: string): (string, Option<string>) {
    if s == [] then ("", None)
    else if s[0] == '\n' then ("", Some(s[1..]))
    else var (line, rest) := FirstLine(s[1..]); ([s[0]] + line, rest)
  }

  lemma {:induction false} FirstLineShortens(s: string)
    ensures FirstLine(s).1.Some? ==> |FirstLine(s).1.value| < |s|
  {
    if s != [] && s[0] != '\n' {
      FirstLineShortens(s[1..]);
    }
  }

  const DATA := "data:"

  /** The first trimmed line of a block that starts with `data:`. */
  function DataLine(block: string): (line: Option<string>)
    ensures line.Some? ==> DATA <= line.value
    decreases |block|
  {
    var (line, rest) := FirstLine(block);
    FirstLineShortens(block);
    if DATA <= Trim(line) then Some(Trim(line))
    else if rest.Some? then DataLine(rest.value) else None
  }

  /** `parseSseFrame`: malformed blocks are skipped. */
  function ParseSseFrame(decode: Decoder, block: string): Option<Frame> {
    var line := DataLine(block);
    if line.None? then None else
    var json := Trim(line.value[|DATA|..]);
    if json == [] then None else decode(json)
  }

  // ---- The turn --------------------------------------------------------------------------------

  datatype Turn = Turn(text: string, toolCalls: seq<ToolCall>, finishReason: Option<string>)

  function ParseAll(decode: Decoder, blocks: seq<string>): seq<Frame> {
    if blocks == [] then [] else
    var before, f := ParseAll(decode, blocks[..|blocks|-1]), ParseSseFrame(decode, blocks[|blocks|-1]);
    if f.Some? then before + [f.value] else before
  }

  /** The frames handed to the caller, in order. */
  function Forwarded(frames: seq<Frame>): seq<Frame> {
    if frames == [] then [] else
    var before, f := Forwarded(frames[..|frames|-1]), frames[|frames|-1];
    if f.OtherFrame? then before else before + [f]
  }

  /** The text of all token frames, joined. */
  function TokenText(frames: seq<Frame>): string {
    if frames == [] then "" else
    TokenText(frames[..|frames|-1]) + if frames[|frames|-1].Token? then frames[|frames|-1].text else ""
  }

  /** The calls of the last tool-calls frame. */
  function LastCalls(frames: seq<Frame>): seq<ToolCall> {
    if frames == [] then []
    else if frames[|frames|-1].ToolCalls? then frames[|frames|-1].calls
    else LastCalls(frames[..|frames|-1])
  }

  /** The finish reason of the last done frame, which may carry none. */
  function LastReason(frames: seq<Frame>): Option<string> {
    if frames == [] then None
    else if frames[|frames|-1].Done? then frames[|frames|-1].finishReason
    else LastReason(frames[..|frames|-1])
  }

  /** The notice appended to a turn the provider cut off. */
  function FinalText(text: string, finishReason: Option<string>, notice: string): string {
    if finishReason == Some("length") then text + (if |text| > 0 then "\n\n" else "") + notice else text
  }

  /** What a stream with this whole text amounts to. An unterminated last block counts for nothing. */
  function FramesOf(decode: Decoder, text: string): seq<Frame> {
    ParseAll(decode, SplitText(text).blocks)
  }

  function TurnOf(frames: seq<Frame>, notice: string): Turn {
    Turn(FinalText(TokenText(frames), LastReason(frames), notice), LastCalls(frames), LastReason(frames))
  }

  // ---- What a turn is made of ------------------------------------------------------------------

  function Texts(frames: seq<Frame>): seq<string> {
    if frames == [] then []
    else (if frames[0].Token? then [frames[0].text] else []) + Texts(frames[1..])
  }

  function JoinAll(texts: seq<string>): string {
    if texts == [] then "" else texts[0] + JoinAll(texts[1..])
  }

  lemma TokenTextSnoc(frames: seq<Frame>, f: Frame)
    ensures TokenText(frames + [f]) == TokenText(frames) + if f.Token? then f.text else ""
  {
    assert (frames + [f])[..|frames|] == frames;
  }

  /** The text of frames and more frames is the text of the first and then that of the others. */
  lemma {:induction false} TokenTextAdds(a: seq<Frame>, b: seq<Frame>)
    ensures TokenText(a + b) == TokenText(a) + TokenText(b)
  {
    if b == [] {
      assert a + b == a;
    } else {
      var front, last := b[..|b|-1], b[|b|-1];
      assert (a + front) + [last] == a + b;
      TokenTextAdds(a, front);
      TokenTextSnoc(a + front, last);
      ConcatAssoc(TokenText(a), TokenText(front), if last.Token? then last.text else "");
    }
  }

  lemma TokenTextOne(f: Frame)
    ensures TokenText([f]) == if f.Token? then f.text else ""
  {
    assert [f][..0] == [];
  }

  /** The text is the texts of the token frames, joined first to last. */
  lemma {:induction false} TokenTextJoins(frames: seq<Frame>)
    ensures TokenText(frames) == JoinAll(Texts(frames))
  {
    if frames != [] {
      var head, tail := frames[0], frames[1..];
      assert frames == [head] + tail;
      TokenTextAdds([head], tail);
      TokenTextOne(head);
      TokenTextJoins(tail);
      if head.Token? {
        assert ([head.text] + Texts(tail))[1..] == Texts(tail);
      } else {
        assert [] + Texts(tail) == Texts(tail);
      }
    }
  }

  /** The last tool-calls frame is at `k`. */
  predicate LastCallsAt(frames: seq<Frame>, k: nat) {
    k < |frames| && frames[k].ToolCalls? && forall j :: k < j < |frames| ==> !frames[j].ToolCalls?
  }

  /** The last done frame is at `k`. */
  predicate LastDoneAt(frames: seq<Frame>, k: nat) {
    k < |frames| && frames[k].Done? && forall j :: k < j < |frames| ==> !frames[j].Done?
  }

  lemma {:induction false} LastCallsAre(frames: seq<Frame>, k: nat)
    ensures LastCallsAt(frames, k) ==> LastCalls(frames) == frames[k].calls
    ensures (forall j :: 0 <= j < |frames| ==> !frames[j].ToolCalls?) ==> LastCalls(frames) == []
  {
    if frames != [] && !frames[|frames|-1].ToolCalls? {
      LastCallsAre(frames[..|frames|-1], k);
    }
  }

  lemma {:induction false} LastReasonIs(frames: seq<Frame>, k: nat)
    ensures LastDoneAt(frames, k) ==> LastReason(frames) == frames[k].finishReason
    ensures (forall j :: 0 <= j < |frames| ==> !frames[j].Done?) ==> LastReason(frames) == None
  {
    if frames != [] && !frames[|frames|-1].Done? {
      LastReasonIs(frames[..|frames|-1], k);
    }
  }

  /** The turn of a list of frames: the token texts in order, with the notice after them exactly when the last done frame says
      "length"; the calls of the last tool-calls frame; the reason of the last done frame. */
  lemma TurnMeans(frames: seq<Frame>, notice: string, k: nat)
    ensures var turn, text := TurnOf(frames, notice), JoinAll(Texts(frames));
      && turn.text == (if turn.finishReason == Some("length") then (if text == "" then notice else text + "\n\n" + notice) else text)
      && (LastCallsAt(frames, k) ==> turn.toolCalls == frames[k].calls)
      && ((forall j :: 0 <= j < |frames| ==> !frames[j].ToolCalls?) ==> turn.toolCalls == [])
      && (LastDoneAt(frames, k) ==> turn.finishReason == frames[k].finishReason)
      && ((forall j :: 0 <= j < |frames| ==> !frames[j].Done?) ==> turn.finishReason == None)
  {
    TokenTextJoins(frames);
    LastCallsAre(frames, k);
    LastReasonIs(frames, k);
  }

  function ForwardOne(f: Frame): seq<Frame> {
    if f.Token? || f.ToolCalls? || f.Done? || f.ErrorFrame? then [f] else []
  }

  function ForwardAll(frames: seq<Frame>): seq<Frame> {
    if frames == [] then [] else ForwardOne(frames[0]) + ForwardAll(frames[1..])
  }

  lemma {:induction false} ForwardSnoc(frames: seq<Frame>, f: Frame)
    ensures ForwardAll(frames + [f]) == ForwardAll(frames) + ForwardOne(f)
  {
    if frames == [] {
      assert ([] + [f])[1..] == [];
      assert ForwardOne(f) + [] == [] + ForwardOne(f);
    } else {
      assert (frames + [f])[1..] == frames[1..] + [f];
      ForwardSnoc(frames[1..], f);
      ConcatAssoc(ForwardOne(frames[0]), ForwardAll(frames[1..]), ForwardOne(f));
    }
  }

  /** Token, tool-calls, done and error frames are handed on, first to last, and no others. */
  lemma {:induction false} ForwardedAre(frames: seq<Frame>)
    ensures Forwarded(frames) == ForwardAll(frames)
  {
    if frames != [] {
      var front, last := frames[..|frames|-1], frames[|frames|-1];
      assert front + [last] == frames;
      ForwardedAre(front);
      ForwardSnoc(front, last);
    }
  }

  // ---- What a block decodes to -----------------------------------------------------------------

  /** Lines joined by single newlines. */
  function Lines(lines: seq<string>): string {
    if lines == [] then "" else if |lines| == 1 then lines[0] else lines[0] + "\n" + Lines(lines[1..])
  }

  lemma {:induction false} TrimLeftMeans(s: string) returns (n: nat)
    ensures n <= |s| && TrimLeft(s) == s[n..] && (forall i :: 0 <= i < n ==> IsSpace(s[i]))
    ensures TrimLeft(s) != [] ==> !IsSpace(TrimLeft(s)[0])
  {
    if s != [] && IsSpace(s[0]) {
      var m := TrimLeftMeans(s[1..]);
      n := m + 1;
      assert s[1..][m..] == s[n..];
      forall i | 0 <= i < n ensures IsSpace(s[i]) { if i > 0 { assert s[i] == s[1..][i - 1]; } }
    } else {
      n := 0;
    }
  }

  lemma {:induction false} TrimRightMeans(s: string) returns (n: nat)
    ensures n <= |s| && TrimRight(s) == s[..n] && (forall i :: n <= i < |s| ==> IsSpace(s[i]))
    ensures TrimRight(s) != [] ==> !IsSpace(TrimRight(s)[|TrimRight(s)|-1])
  {
    n := |s|;
    if s != [] && IsSpace(s[|s|-1]) {
      n := TrimRightMeans(s[..|s|-1]);
      assert s[..|s|-1][..n] == s[..n];
    }
  }

  /** Trimming takes white space off both ends and nothing else. */
  lemma TrimMeans(s: string) returns (from: nat, to: nat)
    ensures from <= to <= |s| && Trim(s) == s[from..to]
    ensures forall i :: 0 <= i < |s| && !(from <= i < to) ==> IsSpace(s[i])
    ensures Trim(s) != [] ==> !IsSpace(Trim(s)[0]) && !IsSpace(Trim(s)[|Trim(s)|-1])
  {
    from := TrimLeftMeans(s);
    var n := TrimRightMeans(s[from..]);
    to := from + n;
    assert s[from..][..n] == s[from..to];
    forall i | 0 <= i < |s| && !(from <= i < to) ensures IsSpace(s[i]) { if i >= to { assert s[i] == s[from..][i - from]; } }
  }

  /** Of the lines of a block, the first that starts with `data:` once trimmed decides. */
  lemma {:induction false} DataLineMeans(lines: seq<string>, k: nat)
    requires lines != [] && forall i :: 0 <= i < |lines| ==> '\n' !in lines[i]
    ensures k < |lines| && DATA <= Trim(lines[k]) && (forall j :: 0 <= j < k ==> !(DATA <= Trim(lines[j]))) ==>
              DataLine(Lines(lines)) == Some(Trim(lines[k]))
    ensures (forall j :: 0 <= j < |lines| ==> !(DATA <= Trim(lines[j]))) ==> DataLine(Lines(lines)) == None
  {
    if |lines| == 1 {
      FirstLineCut(lines[0], "");
    } else {
      FirstLineCut(lines[0], Lines(lines[1..]));
      assert Lines(lines) == lines[0] + "\n" + Lines(lines[1..]);
      assert forall j :: 0 <= j < |lines| - 1 ==> lines[1..][j] == lines[j + 1];
      DataLineMeans(lines[1..], if k > 0 then k - 1 else 0);
    }
  }

  /** A block is decoded from what follows "data:" on that line; without one, or with nothing on it, there is no frame. */
  lemma ParseMeans(decode: Decoder, lines: seq<string>, k: nat)
    requires lines != [] && forall i :: 0 <= i < |lines| ==> '\n' !in lines[i]
    ensures k < |lines| && "data:" <= Trim(lines[k]) && (forall j :: 0 <= j < k ==> !("data:" <= Trim(lines[j]))) ==>
      var json := Trim(Trim(lines[k])[5..]);
      ParseSseFrame(decode, Lines(lines)) == if json == "" then None else decode(json)
    ensures (forall j :: 0 <= j < |lines| ==> !("data:" <= Trim(lines[j]))) ==> ParseSseFrame(decode, Lines(lines)) == None
  {
    DataLineMeans(lines, k);
  }

  function FrameOf(decode: Decoder, block: string): seq<Frame> {
    match ParseSseFrame(decode, block)
    case Some(f) => [f]
    case None => []
  }

  function FrameAll(decode: Decoder, blocks: seq<string>): seq<Frame> {
    if blocks == [] then [] else FrameOf(decode, blocks[0]) + FrameAll(decode, blocks[1..])
  }

  lemma {:induction false} FrameSnoc(decode: Decoder, blocks: seq<string>, block: string)
    ensures FrameAll(decode, blocks + [block]) == FrameAll(decode, blocks) + FrameOf(decode, block)
  {
    if blocks == [] {
      assert ([] + [block])[1..] == [];
      assert FrameOf(decode, block) + [] == [] + FrameOf(decode, block);
    } else {
      assert (blocks + [block])[1..] == blocks[1..] + [block];
      FrameSnoc(decode, blocks[1..], block);
      ConcatAssoc(FrameOf(decode, blocks[0]), FrameAll(decode, blocks[1..]), FrameOf(decode, block));
    }
  }

  lemma {:induction false} ParseAllIs(decode: Decoder, blocks: seq<string>)
    ensures ParseAll(decode, blocks) == FrameAll(decode, blocks)
  {
    if blocks != [] {
      var front, last := blocks[..|blocks|-1], blocks[|blocks|-1];
      assert front + [last] == blocks;
      ParseAllIs(decode, front);
      FrameSnoc(decode, front, last);
    }
  }

  /** The frames of a stream are those of its complete blocks, first to last; an unterminated rest counts for nothing. */
  lemma FramesMean(decode: Decoder, blocks: seq<string>, rest: string)
    requires AreBlocks(blocks) && BlankLine(rest) == -1
    ensures FramesOf(decode, Unsplit(blocks, rest)) == FrameAll(decode, blocks)
  {
    SplitIsUnique(blocks, rest);
    ParseAllIs(decode, blocks);
  }

  /** The reader's accumulators. */
  class Reader {
    var buffer: string
    var accumulatedText: string
    var toolCalls: seq<ToolCall>
    var finishReason: Option<string>
    var forwarded: seq<Frame>

    constructor ()
      ensures buffer == "" && Accumulated([])
    {
      buffer, accumulatedText, toolCalls, finishReason, forwarded := "", "", [], None, [];
    }

    ghost predicate Accumulated(frames: seq<Frame>)
      reads this
    {
      && accumulatedText == TokenText(frames) && toolCalls == LastCalls(frames)
      && finishReason == LastReason(frames) && forwarded == Forwarded(frames)
    }

    method Handle(parsed: Frame, ghost frames: seq<Frame>)
      requires Accumulated(frames)
      modifies this`accumulatedText, this`toolCalls, this`finishReason, this`forwarded
      ensures Accumulated(frames + [parsed])
    {
      assert (frames + [parsed])[..|frames|] == frames;
      match parsed {
        case Token(text) =>
          accumulatedText := accumulatedText + text;
          forwarded := forwarded + [parsed];
        case ToolCalls(calls) =>
          toolCalls := calls;
          forwarded := forwarded + [parsed];
        case Done(reason) =>
          finishReason := reason;
          forwarded := forwarded + [parsed];
        case ErrorFrame(_, _) =>
          forwarded := forwarded + [parsed];
        case OtherFrame(_, _) =>
      }
    }

    /** Take one complete block off the head of the buffer. */
    method TakeBlock(decode: Decoder, sepIdx: nat, ghost blocks: seq<string>)
      requires sepIdx == BlankLine(buffer) && Accumulated(ParseAll(decode, blocks))
      modifies this
      ensures buffer == old(buffer)[sepIdx + 2..]
      ensures Accumulated(ParseAll(decode, blocks + [old(buffer)[..sepIdx]]))
    {
      var rawFrame := buffer[..sepIdx];
      assert (blocks + [rawFrame])[..|blocks|] == blocks;
      buffer := buffer[sepIdx + 2..];
      var parsed := ParseSseFrame(decode, rawFrame);
      if parsed.Some? {
        Handle(parsed.value, ParseAll(decode, blocks));
      }
    }

    /** One chunk: pull every complete block off the head of the buffer and keep the tail. */
    method Feed(decode: Decoder, chunk: string, ghost seen: string)
      requires buffer == SplitText(seen).rest && Accumulated(FramesOf(decode, seen))
      modifies this
      ensures buffer == SplitText(seen + chunk).rest && Accumulated(FramesOf(decode, seen + chunk))
      ensures BlankLine(buffer) == -1
    {
      SplitAppend(seen, chunk);
      buffer := buffer + chunk;
      ghost var goal := SplitText(seen + chunk);
      ghost var blocks := SplitText(seen).blocks;
      var sepIdx := BlankLine(buffer);
      while sepIdx != -1
        invariant sepIdx == BlankLine(buffer)
        invariant Continues(goal, blocks, buffer)
        invariant Accumulated(ParseAll(decode, blocks))
        decreases |buffer|
      {
        ContinuesPast(goal, blocks, buffer);
        ghost var taken := blocks + [buffer[..sepIdx]];
        TakeBlock(decode, sepIdx, blocks);
        blocks := taken;
        sepIdx := BlankLine(buffer);
      }
      assert blocks + [] == blocks;
    }
  }

  /** The blocks taken so far and those still in the buffer make up the goal. */
  ghost predicate Continues(goal: Split, blocks: seq<string>, buffer: string) {
    goal.blocks == blocks + SplitText(buffer).blocks && goal.rest == SplitText(buffer).rest
  }

  lemma ContinuesPast(goal: Split, blocks: seq<string>, buffer: string)
    requires Continues(goal, blocks, buffer) && BlankLine(buffer) >= 0
    ensures var i := BlankLine(buffer); Continues(goal, blocks + [buffer[..i]], buffer[i + 2..])
  {
    var i := BlankLine(buffer);
    assert SplitText(buffer).blocks == [buffer[..i]] + SplitText(buffer[i + 2..]).blocks;
    assert blocks + ([buffer[..i]] + SplitText(buffer[i + 2..]).blocks) == (blocks + [buffer[..i]]) + SplitText(buffer[i + 2..]).blocks;
  }

  lemma {:induction false} JoinAllSnoc(texts: seq<string>, text: string)
    ensures JoinAll(texts + [text]) == JoinAll(texts) + text
  {
    if texts == [] {
      assert ([] + [text])[1..] == [];
      assert text + "" == "" + text;
    } else {
      assert (texts + [text])[1..] == texts[1..] + [text];
      JoinAllSnoc(texts[1..], text);
      ConcatAssoc(texts[0], JoinAll(texts[1..]), text);
    }
  }

  lemma {:induction false} ConcatJoins(chunks: seq<string>)
    ensures Concat(chunks) == JoinAll(chunks)
  {
    if chunks != [] {
      var front, last := chunks[..|chunks|-1], chunks[|chunks|-1];
      assert front + [last] == chunks;
      ConcatJoins(front);
      JoinAllSnoc(front, last);
    }
  }

  /** `streamAgentConversation` after the response is open. The result does not depend on how the text was cut. */
  method StreamAgentConversation(decode: Decoder, chunks: seq<string>, notice: string) returns (turn: Turn, forwarded: seq<Frame>)
    ensures turn == TurnOf(FramesOf(decode, JoinAll(chunks)), notice)
    ensures forwarded == Forwarded(FramesOf(decode, JoinAll(chunks)))
    ensures var text := JoinAll(Texts(FramesOf(decode, JoinAll(chunks))));
      turn.text == if turn.finishReason == Some("length") then (if text == "" then notice else text + "\n\n" + notice) else text
    ensures forwarded == ForwardAll(FramesOf(decode, JoinAll(chunks)))
  {
    var r := new Reader();
    for i := 0 to |chunks|
      invariant fresh(r)
      invariant r.buffer == SplitText(Concat(chunks[..i])).rest && r.Accumulated(FramesOf(decode, Concat(chunks[..i])))
    {
      assert chunks[..i + 1][..i] == chunks[..i];
      r.Feed(decode, chunks[i], Concat(chunks[..i]));
    }
    assert chunks[..|chunks|] == chunks;
    turn := Turn(FinalText(r.accumulatedText, r.finishReason, notice), r.toolCalls, r.finishReason);
    forwarded := r.forwarded;
    ConcatJoins(chunks);
    TurnMeans(FramesOf(decode, JoinAll(chunks)), notice, 0);
    ForwardedAre(FramesOf(decode, JoinAll(chunks)));
  }

  // ---- What the writer sends, the reader gets back ---------------------------------------------

  function Kind(f: Frame): string {
    match f
    case Token(_) => "token"
    case ToolCalls(_) => "tool_calls"
    case Done(_) => "done"
    case ErrorFrame(_, _) => "error"
    case OtherFrame(kind, _) => kind
  }

  /** The two writers: the conversation service sends the data line only, `writeFrame` an event line before it. */
  datatype Writer = DataOnly | WithEvent

  function EventLine(w: Writer, f: Frame): string {
    if w == WithEvent then "event: " + Kind(f) + "\n" else ""
  }

  function Block(w: Writer, f: Frame, json: string): string {
    EventLine(w, f) + ("data: " + json)
  }

  /** A written frame: its block and a blank line. */
  function Serialized(w: Writer, f: Frame, json: string): string {
    Block(w, f, json) + "\n\n"
  }

  /** The text of a frame is on one line and not padded. */
  predicate OneLine(w: Writer, f: Frame, json: string) {
    json != [] && !IsSpace(json[0]) && !IsSpace(json[|json|-1]) && '\n' !in json && (w == WithEvent ==> '\n' !in Kind(f))
  }

  /** ... and is what the decoder reads. */
  ghost predicate WireSafe(w: Writer, decode: Decoder, f: Frame, json: string) {
    OneLine(w, f, json) && decode(json) == Some(f)
  }

  ghost predicate AllSafe(w: Writer, decode: Decoder, frames: seq<Frame>, encode: Frame -> string) {
    forall i :: 0 <= i < |frames| ==> WireSafe(w, decode, frames[i], encode(frames[i]))
  }

  function Wire(w: Writer, frames: seq<Frame>, encode: Frame -> string): string {
    if frames == [] then "" else Wire(w, frames[..|frames|-1], encode) + Serialized(w, frames[|frames|-1], encode(frames[|frames|-1]))
  }

  lemma {:induction false} FirstLineCut(line: string, rest: string)
    requires '\n' !in line
    ensures FirstLine(line + "\n" + rest) == (line, Some(rest))
    ensures FirstLine(line) == (line, None)
  {
    var s := line + "\n" + rest;
    if line == [] {
      assert s[0] == '\n' && s[1..] == rest;
    } else {
      assert s[0] == line[0] && s[1..] == line[1..] + "\n" + rest;
      FirstLineCut(line[1..], rest);
      assert [line[0]] + line[1..] == line;
    }
  }

  lemma {:induction false} TrimRightIsPrefix(s: string)
    ensures TrimRight(s) <= s
    ensures s != [] && !IsSpace(s[0]) ==> TrimRight(s) != []
  {
    if s != [] && IsSpace(s[|s|-1]) {
      TrimRightIsPrefix(s[..|s|-1]);
    }
  }

  lemma TrimStands(s: string, last: char)
    requires s != [] && !IsSpace(s[0]) && s[|s|-1] == last && !IsSpace(last)
    ensures Trim(s) == s
  {
  }

  /** A line of JSON after `data: ` is a data line as it stands. */
  lemma DataLineStands(json: string)
    requires '\n' !in json && json != [] && !IsSpace(json[|json|-1])
    ensures Trim("data: " + json) == "data: " + json && '\n' !in "data: " + json
    ensures DataLine("data: " + json) == Some("data: " + json)
  {
    var data := "data: " + json;
    TrimStands(data, json[|json|-1]);
    assert '\n' !in data && DATA <= data;
    FirstLineCut(data, "");
  }

  lemma EventIsNoData(kind: string)
    ensures !(DATA <= Trim("event: " + kind))
  {
    var event := "event: " + kind;
    TrimRightIsPrefix(event);
    assert event[0] == 'e';
    assert Trim(event)[0] == event[0];
  }

  /** An event line is passed over and the data line is found whole. */
  lemma FindsDataLine(kind: string, data: string)
    requires '\n' !in kind && DataLine(data) == Some(data)
    ensures DataLine("event: " + kind + "\n" + data) == Some(data)
  {
    FirstLineCut("event: " + kind, data);
    EventIsNoData(kind);
  }

  lemma FindsJson(w: Writer, f: Frame, json: string)
    requires OneLine(w, f, json)
    ensures DataLine(Block(w, f, json)) == Some("data: " + json)
  {
    DataLineStands(json);
    if w == WithEvent {
      FindsDataLine(Kind(f), "data: " + json);
    } else {
      assert Block(w, f, json) == "data: " + json;
    }
  }

  lemma JsonAfterData(json: string)
    requires json != [] && !IsSpace(json[0]) && !IsSpace(json[|json|-1])
    ensures Trim(("data: " + json)[|DATA|..]) == json
  {
    var padded := ("data: " + json)[|DATA|..];
    assert padded[0] == ' ' && padded[1..] == json;
    assert TrimLeft(padded) == json;
  }

  lemma ParsesBack(w: Writer, decode: Decoder, f: Frame, json: string)
    requires WireSafe(w, decode, f, json)
    ensures ParseSseFrame(decode, Block(w, f, json)) == Some(f)
  {
    FindsJson(w, f, json);
    JsonAfterData(json);
  }

  lemma NoBreakInside(w: Writer, f: Frame, json: string)
    requires OneLine(w, f, json)
    ensures IsBlock(Block(w, f, json))
  {
    var block, event := Block(w, f, json), EventLine(w, f);
    var s := block + "\n\n";
    assert BreakAt(s, |block|);
    assert s[|event|] == 'd';
    assert forall k :: 0 <= k < |event| - 1 ==> s[k] == event[k] != '\n';
    assert forall k :: |event| <= k < |block| ==> s[k] == ("data: " + json)[k - |event|] != '\n';
  }

  function Blocks(w: Writer, frames: seq<Frame>, encode: Frame -> string): seq<string> {
    if frames == [] then [] else
    Blocks(w, frames[..|frames|-1], encode) + [Block(w, frames[|frames|-1], encode(frames[|frames|-1]))]
  }

  lemma {:induction false} UnsplitSnoc(blocks: seq<string>, block: string)
    ensures Unsplit(blocks + [block], "") == Unsplit(blocks, "") + (block + "\n\n")
  {
    if blocks == [] {
      assert ([] + [block])[1..] == [];
      assert block + "\n\n" + "" == "" + (block + "\n\n");
    } else {
      UnsplitSnoc(blocks[1..], block);
      assert (blocks + [block])[1..] == blocks[1..] + [block];
      ConcatAssoc(blocks[0] + "\n\n", Unsplit(blocks[1..], ""), block + "\n\n");
    }
  }

  lemma {:induction false} WireIsUnsplit(w: Writer, decode: Decoder, frames: seq<Frame>, encode: Frame -> string)
    requires AllSafe(w, decode, frames, encode)
    ensures Wire(w, frames, encode) == Unsplit(Blocks(w, frames, encode), "") && AreBlocks(Blocks(w, frames, encode))
  {
    if frames != [] {
      var front, f := frames[..|frames|-1], frames[|frames|-1];
      WireIsUnsplit(w, decode, front, encode);
      NoBreakInside(w, f, encode(f));
      UnsplitSnoc(Blocks(w, front, encode), Block(w, f, encode(f)));
    }
  }

  lemma ParseAllSnoc(decode: Decoder, blocks: seq<string>, block: string)
    ensures ParseAll(decode, blocks + [block])
         == ParseAll(decode, blocks) + if ParseSseFrame(decode, block).Some? then [ParseSseFrame(decode, block).value] else []
  {
    assert (blocks + [block])[..|blocks|] == blocks;
  }

  lemma ParseSnoc(w: Writer, decode: Decoder, blocks: seq<string>, frames: seq<Frame>, f: Frame, json: string)
    requires ParsesTo(decode, blocks, frames) && WireSafe(w, decode, f, json)
    ensures ParsesTo(decode, blocks + [Block(w, f, json)], frames + [f])
  {
    ParsesBack(w, decode, f, json);
    ParseAllSnoc(decode, blocks, Block(w, f, json));
  }

  ghost predicate ParsesTo(decode: Decoder, blocks: seq<string>, frames: seq<Frame>) {
    ParseAll(decode, blocks) == frames
  }

  lemma {:induction false} ParseBlocks(w: Writer, decode: Decoder, frames: seq<Frame>, encode: Frame -> string)
    requires AllSafe(w, decode, frames, encode)
    ensures ParsesTo(decode, Blocks(w, frames, encode), frames)
  {
    if frames != [] {
      var front, f := frames[..|frames|-1], frames[|frames|-1];
      assert front + [f] == frames;
      ParseBlocks(w, decode, front, encode);
      ParseSnoc(w, decode, Blocks(w, front, encode), front, f, encode(f));
    }
  }

  /** Reading back what either writer wrote gives exactly the written frames. */
  lemma WireRoundTrip(w: Writer, decode: Decoder, frames: seq<Frame>, encode: Frame -> string)
    requires AllSafe(w, decode, frames, encode)
    ensures FramesOf(decode, Wire(w, frames, encode)) == frames && SplitText(Wire(w, frames, encode)).rest == ""
  {
    WireIsUnsplit(w, decode, frames, encode);
    SplitIsUnique(Blocks(w, frames, encode), "");
    ParseBlocks(w, decode, frames, encode);
  }
}
