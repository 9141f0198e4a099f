/** The SDK's reassembly of server-sent events from network chunks. */
module Sse {
  import opened Wrappers
  import opened Strings

  /** What `JSON.parse` makes of a data payload: nothing usable, the trailing receipt, or a
      completion chunk. A receipt event is a chunk like any other where no receipt is wanted. */
  datatype Payload<R, C> = Unparseable | ReceiptEvent(receipt: R, asChunk: C) | ChunkEvent(chunk: C)

  /** What the loop has produced: the yielded events, the receipt, and whether `[DONE]` came. */
  datatype Progress<R, C> = Progress(events: seq<C>, receipt: Option<R>, sawDone: bool)

  /** The data of a `data: ` line; None for every other line. */
  function DataOf(line: string): Option<string> {
    var trimmed := Trim(line);
    if |trimmed| >= 6 && trimmed[..6] == "data: " then Some(trimmed[6..]) else None
  }

  /** A data line gives back its payload, with either line ending. */
  lemma DataLine(data: string)
    requires data != "" && !IsSpace(data[|data| - 1])
    ensures DataOf("data: " + data) == Some(data)
    ensures DataOf("data: " + data + "\r") == Some(data)
  {
    var line := "data: " + data;
    assert line[|line| - 1] == data[|data| - 1];
    assert TrimStart(line) == line && TrimEnd(line) == line;
    var crlf := line + "\r";
    assert TrimStart(crlf) == crlf && crlf[..|crlf| - 1] == line;
    assert TrimEnd(crlf) == TrimEnd(line);
  }

  /** Whatever the blanks around it, a line is data exactly if it starts with `data: `. */
  lemma DataLineIff(before: string, line: string, after: string)
    requires IsBlank(before) && IsBlank(after)
    requires line != "" ==> !IsSpace(line[0]) && !IsSpace(line[|line| - 1])
    ensures DataOf(before + line + after).Some? <==> "data: " <= line
    ensures DataOf(before + line + after).Some? ==> line == "data: " + DataOf(before + line + after).value
  {
    TrimMeans(before, line, after);
  }

  function Handle<R, C>(p: Progress<R, C>, line: string, parse: string -> Payload<R, C>, wanted: bool): Progress<R, C> {
    match DataOf(line)
    case None => p
    case Some(data) =>
      if data == "[DONE]" then p.(sawDone := true)
      else match parse(data)
        case Unparseable => p
        case ReceiptEvent(receipt, asChunk) =>
          if wanted then p.(receipt := Some(receipt))
          else if p.sawDone then p
          else p.(events := p.events + [asChunk])
        case ChunkEvent(chunk) => if p.sawDone then p else p.(events := p.events + [chunk])
  }

  function HandleAll<R, C>(p: Progress<R, C>, lines: seq<string>, parse: string -> Payload<R, C>, wanted: bool)
    : Progress<R, C>
  {
    if lines == [] then p
    else Handle(HandleAll(p, lines[..|lines| - 1], parse, wanted), lines[|lines| - 1], parse, wanted)
  }

  /** `text.split('\n')`. */
  function Split(text: string): (lines: seq<string>)
    ensures lines != []
    decreases |text|
  {
    var i := IndexOf(text, '\n');
    if i >= |text| then [text]
    else
      IndexOfIsFirst(text, '\n');
      [text[..i]] + Split(text[i + 1..])
  }

  /** The terminated lines of a text, and the unterminated rest. */
  function Complete(text: string): seq<string> {
    var lines := Split(text);
    lines[..|lines| - 1]
  }

  function Rest(text: string): string {
    var lines := Split(text);
    lines[|lines| - 1]
  }

  function Concat(chunks: seq<string>): string {
    if chunks == [] then "" else Concat(chunks[..|chunks| - 1]) + chunks[|chunks| - 1]
  }

  lemma {:induction false} ConcatOfPieces(first: seq<string>, second: seq<string>)
    ensures Concat(first + second) == Concat(first) + Concat(second)
    ensures |first| == 1 ==> Concat(first) == first[0]
    decreases |second|
  {
    if second == [] {
      assert first + second == first;
    } else {
      assert (first + second)[..|first + second| - 1] == first + second[..|second| - 1];
      ConcatOfPieces(first, second[..|second| - 1]);
    }
  }

  // ---------------------------------------------------------------------------------------
  // Splitting piece by piece

  lemma NewlineAt(a: string, b: string)
    ensures var i := IndexOf(a, '\n');
            && i <= |a|
            && (i < |a| ==> IndexOf(a + b, '\n') == i)
  {
    IndexOfIsFirst(a, '\n');
    IndexOfIsFirst(a + b, '\n');
    var i, j := IndexOf(a, '\n'), IndexOf(a + b, '\n');
    if i < |a| {
      assert (a + b)[i] == a[i] == '\n';
      assert forall k | 0 <= k < i :: (a + b)[k] == a[k];
    }
  }

  lemma SplitAtNewline(a: string)
    requires IndexOf(a, '\n') < |a|
    ensures var i := IndexOf(a, '\n'); var tail := a[i + 1..];
            && Split(a) == [a[..i]] + Split(tail)
            && Complete(a) == [a[..i]] + Complete(tail) && Rest(a) == Rest(tail)
  {
  }

  /** Lines complete in a prefix stay as they are, and the rest of the prefix is continued by
      what follows. */
  lemma {:induction false} SplitContinues(a: string, b: string)
    ensures Split(a + b) == Complete(a) + Split(Rest(a) + b)
    decreases |a|
  {
    NewlineAt(a, b);
    var i := IndexOf(a, '\n');
    if i >= |a| {
      assert Complete(a) == [] && Rest(a) == a;
    } else {
      var tail := a[i + 1..];
      CutConcat(a, b, i);
      SplitAtNewline(a);
      SplitAtNewline(a + b);
      SplitContinues(tail, b);
      Regroup([a[..i]], Complete(tail), Split(Rest(tail) + b));
    }
  }

  lemma CutConcat(a: string, b: string, i: int)
    requires 0 <= i < |a|
    ensures (a + b)[..i] == a[..i] && (a + b)[i + 1..] == a[i + 1..] + b
  {
  }

  lemma Regroup(x: seq<string>, y: seq<string>, z: seq<string>)
    ensures x + (y + z) == x + y + z
  {
  }

  lemma CompleteContinues(a: string, b: string)
    ensures Complete(a + b) == Complete(a) + Complete(Rest(a) + b)
    ensures Rest(a + b) == Rest(Rest(a) + b)
  {
    SplitContinues(a, b);
  }

  lemma {:induction false} HandleConcat<R, C>(p: Progress<R, C>, xs: seq<string>, ys: seq<string>,
                                              parse: string -> Payload<R, C>, wanted: bool)
    ensures HandleAll(p, xs + ys, parse, wanted) == HandleAll(HandleAll(p, xs, parse, wanted), ys, parse, wanted)
    decreases |ys|
  {
    if ys == [] {
      assert xs + ys == xs;
    } else {
      assert (xs + ys)[..|xs + ys| - 1] == xs + ys[..|ys| - 1];
      HandleConcat(p, xs, ys[..|ys| - 1], parse, wanted);
    }
  }

  function Join(lines: seq<string>): string
    requires lines != []
  {
    if |lines| == 1 then lines[0] else lines[0] + "\n" + Join(lines[1..])
  }

  /** Splitting loses nothing and leaves no newline inside a line. */
  lemma {:induction false} SplitIsExact(text: string)
    ensures Join(Split(text)) == text
    ensures forall i | 0 <= i < |Split(text)| :: '\n' !in Split(text)[i]
    decreases |text|
  {
    IndexOfIsFirst(text, '\n');
    var i := IndexOf(text, '\n');
    if i < |text| {
      SplitIsExact(text[i + 1..]);
      assert Split(text)[1..] == Split(text[i + 1..]);
      assert text == text[..i] + "\n" + text[i + 1..];
    }
  }

  // ---------------------------------------------------------------------------------------
  // The loop

  /** The inner loop, over the lines completed by one chunk. */
  method HandleLines<R, C>(before: Progress<R, C>, lines: seq<string>, parse: string -> Payload<R, C>, wanted: bool)
    returns (p: Progress<R, C>)
    ensures p == HandleAll(before, lines, parse, wanted)
  {
    var events, receipt, sawDone := before.events, before.receipt, before.sawDone;
    var k := 0;
    while k < |lines|
      invariant 0 <= k <= |lines|
      invariant Progress(events, receipt, sawDone) == HandleAll(before, lines[..k], parse, wanted)
    {
      assert lines[..k + 1][..k] == lines[..k];
      var data := DataOf(lines[k]);
      k := k + 1;
      if data.None? { continue; }
      if data.value == "[DONE]" {
        sawDone := true;
        continue;
      }
      var parsed := parse(data.value);
      if parsed.Unparseable? { continue; }
      if parsed.ReceiptEvent? && wanted {
        receipt := Some(parsed.receipt);
        continue;
      }
      if sawDone { continue; }
      events := events + [if parsed.ReceiptEvent? then parsed.asChunk else parsed.chunk];
    }
    assert lines[..|lines|] == lines;
    return Progress(events, receipt, sawDone);
  }

  /** The generator, run to the end of the stream: for every way of cutting the text it does what
      handling the terminated lines of the whole text does. */
  method SseGenerator<R, C>(chunks: seq<string>, parse: string -> Payload<R, C>, wanted: bool)
    returns (p: Progress<R, C>)
    ensures p == HandleAll(Progress([], None, false), Complete(Concat(chunks)), parse, wanted)
  {
    p := Progress([], None, false);
    ghost var start := p;
    var buffer := "";
    var n := 0;
    while n < |chunks|
      invariant 0 <= n <= |chunks|
      invariant buffer == Rest(Concat(chunks[..n]))
      invariant p == HandleAll(start, Complete(Concat(chunks[..n])), parse, wanted)
    {
      ghost var before := Concat(chunks[..n]);
      assert chunks[..n + 1][..n] == chunks[..n];
      CompleteContinues(before, chunks[n]);
      var lines := Split(buffer + chunks[n]);
      buffer := lines[|lines| - 1];
      lines := lines[..|lines| - 1];
      HandleConcat(start, Complete(before), lines, parse, wanted);
      p := HandleLines(p, lines, parse, wanted);
      n := n + 1;
    }
    assert chunks[..|chunks|] == chunks;
  }

  // ---------------------------------------------------------------------------------------
  // What the handled lines amount to

  predicate IsDone(line: string) {
    DataOf(line) == Some("[DONE]")
  }

  lemma DoneLine()
    ensures IsDone("data: [DONE]") && IsDone("data: [DONE]\r")
  {
    DataLine("[DONE]");
    assert "data: " + "[DONE]" == "data: [DONE]";
    assert "data: " + "[DONE]" + "\r" == "data: [DONE]\r";
  }

  lemma BareDoneIsNoData()
    ensures !IsDone("[DONE]")
  {
    DataLineIff("", "[DONE]", "");
    assert "" + "[DONE]" + "" == "[DONE]" && "data: "[0] != "[DONE]"[0];
  }

  function PayloadOf<R, C>(line: string, parse: string -> Payload<R, C>): Payload<R, C> {
    if DataOf(line).None? || IsDone(line) then Unparseable else parse(DataOf(line).value)
  }

  /** The completion chunks among the lines before the first `[DONE]`. */
  function ChunksBeforeDone<R, C>(lines: seq<string>, parse: string -> Payload<R, C>, wanted: bool): seq<C> {
    if lines == [] || IsDone(lines[0]) then []
    else
      (match PayloadOf(lines[0], parse)
       case ChunkEvent(chunk) => [chunk]
       case ReceiptEvent(_, asChunk) => if wanted then [] else [asChunk]
       case Unparseable => [])
      + ChunksBeforeDone(lines[1..], parse, wanted)
  }

  ghost predicate SomeDone(lines: seq<string>) {
    exists i :: 0 <= i < |lines| && IsDone(lines[i])
  }

  lemma SomeDoneCons(line: string, rest: seq<string>)
    ensures SomeDone([line] + rest) <==> IsDone(line) || SomeDone(rest)
  {
    var lines := [line] + rest;
    if IsDone(line) {
      assert IsDone(lines[0]);
    }
    if SomeDone(rest) {
      var i :| 0 <= i < |rest| && IsDone(rest[i]);
      assert IsDone(lines[i + 1]);
    }
  }

  lemma SomeDoneSnoc(lines: seq<string>, line: string)
    ensures SomeDone(lines + [line]) <==> SomeDone(lines) || IsDone(line)
  {
    var all := lines + [line];
    if IsDone(line) {
      assert IsDone(all[|lines|]);
    }
    if SomeDone(lines) {
      var i :| 0 <= i < |lines| && IsDone(lines[i]);
      assert IsDone(all[i]);
    }
  }

  lemma {:induction false} ChunksSnoc<R, C>(lines: seq<string>, line: string, parse: string -> Payload<R, C>,
                                            wanted: bool)
    ensures ChunksBeforeDone(lines + [line], parse, wanted) ==
            ChunksBeforeDone(lines, parse, wanted)
            + (if SomeDone(lines) then [] else ChunksBeforeDone([line], parse, wanted))
    decreases |lines|
  {
    if lines == [] {
      assert lines + [line] == [line];
    } else {
      assert (lines + [line])[1..] == lines[1..] + [line];
      assert lines == [lines[0]] + lines[1..];
      SomeDoneCons(lines[0], lines[1..]);
      ChunksSnoc(lines[1..], line, parse, wanted);
    }
  }

  lemma ChunksOfOne<R, C>(line: string, parse: string -> Payload<R, C>, wanted: bool)
    ensures ChunksBeforeDone([line], parse, wanted) ==
            match PayloadOf(line, parse)
            case ChunkEvent(chunk) => [chunk]
            case ReceiptEvent(_, asChunk) => if wanted then [] else [asChunk]
            case Unparseable => []
  {
    assert [line][1..] == [];
  }

  /** What handling one more line does, in terms of its payload. */
  lemma HandleMeans<R, C>(p: Progress<R, C>, line: string, parse: string -> Payload<R, C>, wanted: bool)
    ensures var q := Handle(p, line, parse, wanted);
            && q.sawDone == (p.sawDone || IsDone(line))
            && q.events == p.events + (if p.sawDone then [] else ChunksBeforeDone([line], parse, wanted))
            && q.receipt == (if wanted && PayloadOf(line, parse).ReceiptEvent?
                             then Some(PayloadOf(line, parse).receipt) else p.receipt)
  {
    ChunksOfOne(line, parse, wanted);
  }

  /** The receipt of the last line that has one. */
  function LastReceipt<R, C>(lines: seq<string>, parse: string -> Payload<R, C>): Option<R> {
    if lines == [] then None
    else
      var payload := PayloadOf(lines[|lines| - 1], parse);
      if payload.ReceiptEvent? then Some(payload.receipt) else LastReceipt(lines[..|lines| - 1], parse)
  }

  /** Events are exactly the chunks before the first `[DONE]`, none after it; the receipt is the
      last receipt event of all lines, before or after `[DONE]`. */
  lemma {:induction false} ProgressMeans<R, C>(lines: seq<string>, parse: string -> Payload<R, C>, wanted: bool)
    ensures var p := HandleAll(Progress([], None, false), lines, parse, wanted);
            && p.events == ChunksBeforeDone(lines, parse, wanted)
            && (p.sawDone <==> SomeDone(lines))
            && p.receipt == (if wanted then LastReceipt(lines, parse) else None)
    decreases |lines|
  {
    if lines != [] {
      var init, line := lines[..|lines| - 1], lines[|lines| - 1];
      assert lines == init + [line];
      ProgressMeans(init, parse, wanted);
      ChunksSnoc(init, line, parse, wanted);
      SomeDoneSnoc(init, line);
      HandleMeans(HandleAll(Progress([], None, false), init, parse, wanted), line, parse, wanted);
    }
  }
}
