/** The bounded line splitter that mirrors a child process's output into the log. */
module Splitter {

  const LIMIT := 16 * 1024

  /** A stored line, or the notice that replaces an oversized one. */
  datatype Output = Line(text: string) | Notice

  function Entry(line: string): Output {
    if |line| <= LIMIT then Line(line) else Notice
  }

  function FindNewline(s: string): (at: int)
    ensures -1 <= at < |s|
    ensures at >= 0 ==> s[at] == '\n' && '\n' !in s[..at]
    ensures at == -1 ==> '\n' !in s
  {
    if s == "" then -1
    else if s[0] == '\n' then 0
    else
      var rest := FindNewline(s[1..]);
      assert s == [s[0]] + s[1..];
      assert rest >= 0 ==> s[..rest + 1] == [s[0]] + s[1..][..rest];
      if rest < 0 then -1 else rest + 1
  }

  // ---- the whole text at once -----------------------------------------------------------

  /** What a text amounts to, with the decoder's final flush behind its last line. */
  function Batch(text: string, tail: string): seq<Output>
    decreases |text|
  {
    var at := FindNewline(text);
    if at >= 0 then [Entry(text[..at + 1])] + Batch(text[at + 1..], tail)
    else if |text| > LIMIT then [Notice]
    else if text + tail == "" then []
    else [Line(text + tail)]
  }

  // ---- one character at a time -----------------------------------------------------------

  datatype Buffer = Buffer(pending: string, discarding: bool, out: seq<Output>)

  const EMPTY := Buffer("", false, [])

  function Feed(b: Buffer, c: char): Buffer {
    if b.discarding then b.(discarding := c != '\n')
    else
      var longer := b.pending + [c];
      if c == '\n' then Buffer("", false, b.out + [Entry(longer)])
      else if |longer| > LIMIT then Buffer("", true, b.out + [Notice])
      else b.(pending := longer)
  }

  function FeedAll(b: Buffer, text: string): Buffer {
    if text == "" then b else Feed(FeedAll(b, text[..|text| - 1]), text[|text| - 1])
  }

  function Finish(b: Buffer, tail: string): seq<Output> {
    if b.pending + tail != "" && !b.discarding then b.out + [Line(b.pending + tail)] else b.out
  }

  lemma {:induction false} FeedConcatenation(b: Buffer, first: string, second: string)
    ensures FeedAll(b, first + second) == FeedAll(FeedAll(b, first), second)
  {
    if second == "" {
      assert first + second == first;
    } else {
      var n := |second| - 1;
      FeedConcatenation(b, first, second[..n]);
      assert (first + second)[..|first + second| - 1] == first + second[..n];
    }
  }

  ghost predicate Small(b: Buffer) {
    |b.pending| <= LIMIT && (b.discarding ==> b.pending == "")
  }

  /** Text without a newline is buffered, or starts an oversized line. */
  lemma {:induction false} FeedPartial(b: Buffer, text: string)
    requires Small(b) && '\n' !in text
    ensures FeedAll(b, text) ==
            if b.discarding then b
            else if |b.pending + text| <= LIMIT then b.(pending := b.pending + text)
            else Buffer("", true, b.out + [Notice])
  {
    if text == "" {
      assert b.pending + text == b.pending;
    } else {
      var n := |text| - 1;
      FeedPartial(b, text[..n]);
      assert b.pending + text == b.pending + text[..n] + [text[n]];
    }
  }

  /** Text up to its only newline completes one line. */
  lemma FeedLine(b: Buffer, body: string)
    requires Small(b) && '\n' !in body
    ensures FeedAll(b, body + "\n") ==
            Buffer("", false, if b.discarding then b.out else b.out + [Entry(b.pending + body + "\n")])
  {
    FeedPartial(b, body);
    assert (body + "\n")[..|body|] == body;
    assert FeedAll(b, body + "\n") == Feed(FeedAll(b, body), '\n');
    assert b.pending + body + "\n" == b.pending + body + ['\n'];
  }

  lemma FeedFirstLine(out: seq<Output>, text: string, at: nat)
    requires at < |text| && text[at] == '\n' && '\n' !in text[..at]
    ensures FeedAll(Buffer("", false, out), text)
            == FeedAll(Buffer("", false, out + [Entry(text[..at + 1])]), text[at + 1..])
  {
    var b := Buffer("", false, out);
    var body, rest := text[..at], text[at + 1..];
    LineOf(text, at);
    FeedLine(b, body);
    FeedConcatenation(b, text[..at + 1], rest);
  }

  lemma LineOf(text: string, at: nat)
    requires at < |text| && text[at] == '\n'
    ensures text[..at + 1] == text[..at] + "\n" == "" + text[..at] + "\n"
    ensures text[..at + 1] + text[at + 1..] == text
  {}

  lemma FeedRemainder(out: seq<Output>, text: string)
    requires '\n' !in text
    ensures FeedAll(Buffer("", false, out), text)
            == if |text| <= LIMIT then Buffer(text, false, out) else Buffer("", true, out + [Notice])
  {
    FeedPartial(Buffer("", false, out), text);
    assert "" + text == text;
  }

  lemma OutputsStep(out: seq<Output>, o: Output, rest: seq<Output>)
    ensures out + [o] + rest == out + ([o] + rest)
  {}

  lemma BatchStep(text: string, tail: string, at: nat)
    requires at == FindNewline(text)
    ensures Batch(text, tail) == [Entry(text[..at + 1])] + Batch(text[at + 1..], tail)
    ensures |Batch(text, tail)| == 1 + |Batch(text[at + 1..], tail)|
  {}

  /** The character machine computes what the whole text amounts to. */
  lemma {:induction false} StreamIsBatch(out: seq<Output>, text: string, tail: string)
    ensures Finish(FeedAll(Buffer("", false, out), text), tail) == out + Batch(text, tail)
    decreases |text|
  {
    var at := FindNewline(text);
    if at >= 0 {
      var line, rest := Entry(text[..at + 1]), text[at + 1..];
      FeedFirstLine(out, text, at);
      StreamIsBatch(out + [line], rest, tail);
      OutputsStep(out, line, Batch(rest, tail));
      BatchStep(text, tail, at);
    } else {
      FeedRemainder(out, text);
    }
  }

  // ---- what a batch keeps ----------------------------------------------------------------

  function Texts(out: seq<Output>): string {
    if out == [] then "" else (if out[0].Line? then out[0].text else "") + Texts(out[1..])
  }

  lemma TextsStep(line: string, rest: seq<Output>)
    ensures Texts([Line(line)] + rest) == line + Texts(rest)
  {
    assert ([Line(line)] + rest)[1..] == rest;
  }

  lemma NoticesOf(first: Output, rest: seq<Output>)
    ensures Notice in [first] + rest <==> first == Notice || Notice in rest
  {}

  lemma SplitAt(text: string, n: nat, tail: string)
    requires n <= |text|
    ensures text[..n] + (text[n..] + tail) == text + tail
  {}

  lemma LosslessStep(line: string, rest: seq<Output>, text: string, tail: string, n: nat)
    requires n <= |text| && line == text[..n] && Notice !in [Entry(line)] + rest
    requires Notice !in rest ==> Texts(rest) == text[n..] + tail
    ensures Texts([Entry(line)] + rest) == text + tail
  {
    NoticesOf(Entry(line), rest);
    TextsStep(line, rest);
    SplitAt(text, n, tail);
  }

  /** Nothing but oversized lines is lost. */
  lemma {:induction false} BatchIsLossless(text: string, tail: string)
    requires Notice !in Batch(text, tail)
    ensures Texts(Batch(text, tail)) == text + tail
    decreases |text|
  {
    var at := FindNewline(text);
    if at >= 0 {
      var line, rest := text[..at + 1], text[at + 1..];
      BatchStep(text, tail, at);
      NoticesOf(Entry(line), Batch(rest, tail));
      BatchIsLossless(rest, tail);
      LosslessStep(line, Batch(rest, tail), text, tail, at + 1);
    } else {
      LastIsLossless(text, tail);
    }
  }

  lemma LastIsLossless(text: string, tail: string)
    requires FindNewline(text) == -1 && Notice !in Batch(text, tail)
    ensures Texts(Batch(text, tail)) == text + tail
  {
    if |text| <= LIMIT && text + tail != "" {
      TextsStep(text + tail, []);
    }
  }

  function Newlines(text: string): nat {
    if text == "" then 0 else Newlines(text[..|text| - 1]) + if text[|text| - 1] == '\n' then 1 else 0
  }

  lemma {:induction false} NewlinesConcatenation(a: string, b: string)
    ensures Newlines(a + b) == Newlines(a) + Newlines(b)
  {
    if b == "" {
      assert a + b == a;
    } else {
      NewlinesConcatenation(a, b[..|b| - 1]);
      assert (a + b)[..|a + b| - 1] == a + b[..|b| - 1];
    }
  }

  lemma {:induction false} NoNewlines(text: string)
    requires '\n' !in text
    ensures Newlines(text) == 0
  {
    if text != "" {
      NoNewlines(text[..|text| - 1]);
    }
  }

  predicate EndsOpen(text: string) {
    text != "" && text[|text| - 1] != '\n'
  }

  lemma FirstLineCounts(text: string, at: nat)
    requires at < |text| && text[at] == '\n' && '\n' !in text[..at]
    ensures Newlines(text) == 1 + Newlines(text[at + 1..])
    ensures EndsOpen(text) <==> EndsOpen(text[at + 1..])
  {
    var line := text[..at + 1];
    LineOf(text, at);
    NewlinesConcatenation(line, text[at + 1..]);
    NoNewlines(text[..at]);
    assert line[..at] == text[..at];
  }

  lemma LastLineCounts(text: string, tail: string)
    requires FindNewline(text) == -1
    ensures |Batch(text, tail)| == Newlines(text) + if EndsOpen(text) || tail != "" then 1 else 0
  {
    NoNewlines(text);
  }

  /** One output per newline, and one for what follows the last newline. */
  lemma {:induction false} BatchCount(text: string, tail: string)
    ensures |Batch(text, tail)| == Newlines(text) + if EndsOpen(text) || tail != "" then 1 else 0
    decreases |text|
  {
    var at := FindNewline(text);
    if at >= 0 {
      var rest := text[at + 1..];
      BatchCount(rest, tail);
      FirstLineCounts(text, at);
      BatchStep(text, tail, at);
    } else {
      LastLineCounts(text, tail);
    }
  }

  datatype Piece = Piece(text: string)

  /** The lines of a text behind those already found, each with its newline, and an unterminated rest. */
  function PiecesBehind(found: seq<Piece>, text: string): seq<Piece>
    decreases |text|
  {
    var at := FindNewline(text);
    if at >= 0 then PiecesBehind(found + [Piece(text[..at + 1])], text[at + 1..])
    else if text == "" then found
    else found + [Piece(text)]
  }

  function Pieces(text: string): seq<Piece> {
    PiecesBehind([], text)
  }

  predicate Terminated(line: string) {
    line != "" && line[|line| - 1] == '\n'
  }

  /** A line as it is stored: the decoder's final flush goes behind an unterminated one. */
  function Stored(line: string, tail: string): Output {
    if |line| > 16_384 then Notice else Line(if Terminated(line) then line else line + tail)
  }

  /** Whether the final flush is a line of its own. */
  predicate FlushesAlone(pieces: seq<Piece>, tail: string) {
    tail != "" && (pieces == [] || Terminated(pieces[|pieces| - 1].text))
  }

  /** The outputs are these lines in order, with nothing but the final flush behind them. */
  ghost predicate Mirrors(out: seq<Output>, pieces: seq<Piece>, tail: string) {
    && |out| == |pieces| + (if FlushesAlone(pieces, tail) then 1 else 0)
    && (forall k :: 0 <= k < |pieces| ==> out[k] == Stored(pieces[k].text, tail))
    && (FlushesAlone(pieces, tail) ==> out[|pieces|] == Line(tail))
  }

  /** The same for whole lines. */
  ghost predicate MirrorsLines(out: seq<Output>, pieces: seq<Piece>) {
    && |out| == |pieces|
    && forall k :: 0 <= k < |pieces| ==> Terminated(pieces[k].text) && out[k] == Entry(pieces[k].text)
  }

  lemma MirrorsOne(out: seq<Output>, pieces: seq<Piece>, line: string)
    requires MirrorsLines(out, pieces) && Terminated(line)
    ensures MirrorsLines(out + [Entry(line)], pieces + [Piece(line)])
  {
    var longer, lines := out + [Entry(line)], pieces + [Piece(line)];
    forall k | 0 <= k < |lines| ensures Terminated(lines[k].text) && longer[k] == Entry(lines[k].text) {
      assert k < |out| ==> longer[k] == out[k] && lines[k] == pieces[k];
    }
  }

  lemma {:induction false} BatchMirrors(out: seq<Output>, found: seq<Piece>, text: string, tail: string)
    requires MirrorsLines(out, found)
    ensures Mirrors(out + Batch(text, tail), PiecesBehind(found, text), tail)
    decreases |text|
  {
    var at := FindNewline(text);
    if at >= 0 {
      var line, rest := text[..at + 1], text[at + 1..];
      MirrorsOne(out, found, line);
      BatchMirrors(out + [Entry(line)], found + [Piece(line)], rest, tail);
      BatchStep(text, tail, at);
      OutputsStep(out, Entry(line), Batch(rest, tail));
    } else if text == "" {
      FlushMirrors(out, found, tail);
    } else {
      LastMirrors(out, found, text, tail);
    }
  }

  lemma FlushMirrors(out: seq<Output>, found: seq<Piece>, tail: string)
    requires MirrorsLines(out, found)
    ensures Mirrors(out + Batch("", tail), found, tail)
  {
    assert "" + tail == tail;
  }

  lemma LastMirrors(out: seq<Output>, found: seq<Piece>, text: string, tail: string)
    requires MirrorsLines(out, found) && FindNewline(text) == -1 && text != ""
    ensures Mirrors(out + Batch(text, tail), found + [Piece(text)], tail)
  {
    var longer, lines := out + [Stored(text, tail)], found + [Piece(text)];
    assert Batch(text, tail) == [Stored(text, tail)];
    forall k | 0 <= k < |lines| ensures longer[k] == Stored(lines[k].text, tail) {
      assert k < |out| ==> longer[k] == out[k] && lines[k] == found[k];
    }
  }

  /**
    Every line within the limit is stored as it is, every oversized one as a notice,
    in order; the final flush completes an unterminated line or stands behind them.
  */
  lemma LinesAreStored(text: string, tail: string)
    ensures Mirrors(Batch(text, tail), Pieces(text), tail)
  {
    BatchMirrors([], [], text, tail);
    assert [] + Batch(text, tail) == Batch(text, tail);
  }

  function TextOf(pieces: seq<Piece>): string {
    if pieces == [] then "" else TextOf(pieces[..|pieces| - 1]) + pieces[|pieces| - 1].text
  }

  /** The lines make up the text. */
  lemma {:induction false} PiecesMakeText(found: seq<Piece>, text: string)
    ensures TextOf(PiecesBehind(found, text)) == TextOf(found) + text
    decreases |text|
  {
    var at := FindNewline(text);
    if at >= 0 {
      PiecesMakeText(found + [Piece(text[..at + 1])], text[at + 1..]);
      TextOfOneMore(found, text[..at + 1], text[at + 1..], text);
    } else if text != "" {
      TextOfOneMore(found, text, "", text);
    }
  }

  lemma TextOfOneMore(found: seq<Piece>, line: string, rest: string, text: string)
    requires text == line + rest
    ensures TextOf(found + [Piece(line)]) + rest == TextOf(found) + text
    ensures rest == "" ==> TextOf(found + [Piece(line)]) == TextOf(found) + text
  {
    assert (found + [Piece(line)])[..|found|] == found;
    assert TextOf(found) + line + rest == TextOf(found) + (line + rest);
  }

  // ---- line endings ----------------------------------------------------------------------

  /** Where the first line ending or character ends. */
  function Width(s: string): (w: nat)
    requires s != ""
    ensures 1 <= w <= |s|
  {
    if s[0] == '\r' && |s| > 1 && s[1] == '\n' then 2 else 1
  }

  /** Carriage returns, with a line feed or alone, become line feeds. */
  function Normalised(s: string): string {
    if s == "" then "" else [if s[0] == '\r' then '\n' else s[0]] + Normalised(s[Width(s)..])
  }

  /** Each line ending becomes one line feed, everything else stays. */
  lemma NormalisedExactly(s: string)
    ensures s == "" ==> Normalised(s) == ""
    ensures s != "" && s[0] != '\r' ==> Normalised(s) == [s[0]] + Normalised(s[1..])
    ensures |s| > 1 && s[0] == '\r' && s[1] == '\n' ==> Normalised(s) == "\n" + Normalised(s[2..])
    ensures s != "" && s[0] == '\r' && (|s| == 1 || s[1] != '\n') ==> Normalised(s) == "\n" + Normalised(s[1..])
  {}

  /** The cut between these two texts separates a carriage return from its line feed. */
  predicate SplitsPair(a: string, b: string) {
    a != "" && b != "" && a[|a| - 1] == '\r' && b[0] == '\n'
  }

  lemma PrependKeeps(c: char, a: string, b: string)
    ensures [c] + (a + b) == [c] + a + b
    ensures Newlines([c] + a) == Newlines(a) + if c == '\n' then 1 else 0
  {
    NewlinesConcatenation([c], a);
    assert [c][..0] == "";
  }

  lemma DropFrom(a: string, b: string, n: nat)
    requires n <= |a|
    ensures (a + b)[n..] == a[n..] + b
  {}

  lemma {:induction false} NormalisedConcatenation(a: string, b: string)
    ensures !SplitsPair(a, b) ==> Normalised(a + b) == Normalised(a) + Normalised(b)
    ensures SplitsPair(a, b) ==> Newlines(Normalised(a)) + Newlines(Normalised(b)) == Newlines(Normalised(a + b)) + 1
    decreases |a|
  {
    if a == "" {
      assert a + b == b;
    } else {
      var first := if a[0] == '\r' then '\n' else a[0];
      if Width(a + b) == Width(a) {
        DropFrom(a, b, Width(a));
        NormalisedConcatenation(a[Width(a)..], b);
        PrependKeeps(first, Normalised(a[Width(a)..]), Normalised(b));
        PrependKeeps(first, Normalised(a[Width(a)..] + b), "");
      } else {
        assert a == "\r" && (a + b)[2..] == b[1..];
        PrependKeeps('\n', Normalised(b[1..]), "");
        PrependKeeps('\n', "", "");
      }
    }
  }

  lemma {:induction false} NormalisedEndsOpen(s: string)
    ensures EndsOpen(Normalised(s)) <==> s != "" && s[|s| - 1] != '\n' && s[|s| - 1] != '\r'
    ensures Normalised(s) == "" <==> s == ""
    decreases |s|
  {
    if s != "" {
      NormalisedEndsOpen(s[Width(s)..]);
    }
  }

  function Joined(chunks: seq<string>): string {
    if chunks == [] then "" else Joined(chunks[..|chunks| - 1]) + chunks[|chunks| - 1]
  }

  /** Line endings are normalised chunk by chunk, as the chunks are read. */
  function NormalisedChunks(chunks: seq<string>): string {
    if chunks == [] then "" else NormalisedChunks(chunks[..|chunks| - 1]) + Normalised(chunks[|chunks| - 1])
  }

  function Splits(chunks: seq<string>): nat {
    if chunks == [] then 0
    else
      var front, last := chunks[..|chunks| - 1], chunks[|chunks| - 1];
      Splits(front) + if SplitsPair(Joined(front), last) then 1 else 0
  }

  /** Some boundary between chunks separates a carriage return from its line feed. */
  ghost predicate SomeSplit(chunks: seq<string>) {
    exists k :: 0 <= k < |chunks| && SplitsPair(Joined(chunks[..k]), chunks[k])
  }

  lemma SomeSplitLast(chunks: seq<string>)
    requires chunks != []
    ensures var n := |chunks| - 1;
            SomeSplit(chunks) <==> SomeSplit(chunks[..n]) || SplitsPair(Joined(chunks[..n]), chunks[n])
  {
    var n := |chunks| - 1;
    var front := chunks[..n];
    forall k | 0 <= k < n ensures front[..k] == chunks[..k] && front[k] == chunks[k] {}
  }

  lemma {:induction false} SplitsCounted(chunks: seq<string>)
    ensures Splits(chunks) > 0 <==> SomeSplit(chunks)
  {
    if chunks != [] {
      SplitsCounted(chunks[..|chunks| - 1]);
      SomeSplitLast(chunks);
    }
  }

  lemma {:induction false} ChunksAgainstWhole(chunks: seq<string>)
    ensures Newlines(NormalisedChunks(chunks)) == Newlines(Normalised(Joined(chunks))) + Splits(chunks)
    ensures Splits(chunks) == 0 ==> NormalisedChunks(chunks) == Normalised(Joined(chunks))
    ensures EndsOpen(NormalisedChunks(chunks)) <==> EndsOpen(Normalised(Joined(chunks)))
    ensures NormalisedChunks(chunks) == "" <==> Joined(chunks) == ""
  {
    if chunks != [] {
      var front, last := chunks[..|chunks| - 1], chunks[|chunks| - 1];
      ChunksAgainstWhole(front);
      NormalisedConcatenation(Joined(front), last);
      NewlinesConcatenation(NormalisedChunks(front), Normalised(last));
      NewlinesConcatenation(Normalised(Joined(front)), Normalised(last));
      NormalisedEndsOpen(last);
      NormalisedEndsOpen(Joined(front));
      NormalisedEndsOpen(Joined(chunks));
    }
  }

  /**
    What is stored depends on how the bytes were cut exactly when a cut separates
    a carriage return from its line feed; such a cut stores an extra empty line.
  */
  lemma ChunkIndependence(chunks: seq<string>, tail: string)
    ensures Batch(NormalisedChunks(chunks), tail) == Batch(Normalised(Joined(chunks)), tail) <==> !SomeSplit(chunks)
    ensures |Batch(NormalisedChunks(chunks), tail)| == |Batch(Normalised(Joined(chunks)), tail)| + Splits(chunks)
  {
    ChunksAgainstWhole(chunks);
    BatchCount(NormalisedChunks(chunks), tail);
    BatchCount(Normalised(Joined(chunks)), tail);
    SplitsCounted(chunks);
  }

  // ---- the mirroring loop ------------------------------------------------------------------

  ghost predicate IsTail(s: string, whole: string) {
    |s| <= |whole| && whole[|whole| - |s|..] == s
  }

  /** Emit every complete line, then give up on an unfinished line that is already too long. */
  method DrainPending(before: string, out: seq<Output>) returns (b: Buffer)
    ensures b == FeedLines(before, out) && IsTail(b.pending, before)
  {
    var pending, stored := before, out;
    while true
      invariant FeedLines(pending, stored) == FeedLines(before, out) && IsTail(pending, before)
      decreases |pending|
    {
      var newline := FindNewline(pending);
      if newline < 0 {
        break;
      }
      var line := pending[..newline + 1];
      pending := pending[newline + 1..];
      stored := stored + [if |line| <= LIMIT then Line(line) else Notice];
    }
    if |pending| > LIMIT {
      b := Buffer("", true, stored + [Notice]);
    } else {
      b := Buffer(pending, false, stored);
    }
  }

  /** Complete lines first, then the unfinished one. */
  function FeedLines(pending: string, out: seq<Output>): Buffer
    decreases |pending|
  {
    var at := FindNewline(pending);
    if at >= 0 then FeedLines(pending[at + 1..], out + [Entry(pending[..at + 1])])
    else if |pending| > LIMIT then Buffer("", true, out + [Notice])
    else Buffer(pending, false, out)
  }

  /** Handling complete lines first is the same as handling one character at a time. */
  lemma {:induction false} LinesAreCharacters(out: seq<Output>, text: string)
    ensures FeedLines(text, out) == FeedAll(Buffer("", false, out), text)
    decreases |text|
  {
    var at := FindNewline(text);
    if at >= 0 {
      FeedFirstLine(out, text, at);
      LinesAreCharacters(out + [Entry(text[..at + 1])], text[at + 1..]);
    } else {
      FeedRemainder(out, text);
    }
  }

  /** A buffer with pending text is what its pending text left behind. */
  lemma PendingIsFed(b: Buffer, more: string)
    requires Small(b) && '\n' !in b.pending && !b.discarding
    ensures FeedLines(b.pending + more, b.out) == FeedAll(b, more)
  {
    var start := Buffer("", false, b.out);
    LinesAreCharacters(b.out, b.pending + more);
    FeedConcatenation(start, b.pending, more);
    FeedPartial(start, b.pending);
    assert "" + b.pending == b.pending;
  }

  lemma DiscardedFirstLine(b: Buffer, text: string, at: nat)
    requires Small(b) && b.discarding && at < |text| && text[at] == '\n' && '\n' !in text[..at]
    ensures FeedAll(b, text) == FeedAll(Buffer("", false, b.out), text[at + 1..])
  {
    LineOf(text, at);
    FeedLine(b, text[..at]);
    FeedConcatenation(b, text[..at + 1], text[at + 1..]);
  }

  lemma DiscardedLine(b: Buffer, text: string)
    requires Small(b) && b.discarding
    ensures var at := FindNewline(text);
            FeedAll(b, text) == if at < 0 then b else FeedLines(text[at + 1..], b.out)
  {
    var at := FindNewline(text);
    if at < 0 {
      FeedPartial(b, text);
    } else {
      DiscardedFirstLine(b, text, at);
      LinesAreCharacters(b.out, text[at + 1..]);
    }
  }

  ghost predicate Buffered(b: Buffer) {
    Small(b) && '\n' !in b.pending
  }

  lemma {:induction false} FeedKeepsBuffered(b: Buffer, text: string)
    requires Buffered(b)
    ensures Buffered(FeedAll(b, text))
  {
    if text != "" {
      FeedKeepsBuffered(b, text[..|text| - 1]);
    }
  }

  /**
    One read moves the buffer as its characters would. The most text held at any
    time is what was pending with this read, within the limit and one chunk.
  */
  method TakeChunk(b: Buffer, raw: string) returns (after: Buffer)
    requires Buffered(b)
    ensures after == FeedAll(b, Normalised(raw)) && Buffered(after)
    ensures |b.pending + Normalised(raw)| <= LIMIT + |raw| && IsTail(after.pending, b.pending + Normalised(raw))
  {
    var decoded := Normalised(raw);
    NormalisedLength(raw);
    FeedKeepsBuffered(b, decoded);
    if b.discarding {
      DiscardedLine(b, decoded);
      var newline := FindNewline(decoded);
      if newline < 0 {
        after := b;
        return;
      }
      TailOfTail(b.pending + decoded, decoded[newline + 1..]);
      decoded := decoded[newline + 1..];
      assert "" + decoded == decoded;
    } else {
      PendingIsFed(b, decoded);
    }
    after := DrainPending(b.pending + decoded, b.out);
  }

  lemma TailOfTail(whole: string, tail: string)
    requires IsTail(tail, whole)
    ensures forall s :: IsTail(s, tail) ==> IsTail(s, whole)
  {
    forall s | IsTail(s, tail) ensures IsTail(s, whole) {
      assert whole[|whole| - |tail|..][|tail| - |s|..] == whole[|whole| - |s|..];
    }
  }

  lemma {:induction false} NormalisedLength(s: string)
    ensures |Normalised(s)| <= |s|
    decreases |s|
  {
    if s != "" {
      NormalisedLength(s[Width(s)..]);
    }
  }

  /** Mirror a whole process: its decoded reads in order, then the decoder's final flush. */
  method MirrorProcessOutput(chunks: seq<string>, tail: string) returns (out: seq<Output>)
    ensures out == Batch(NormalisedChunks(chunks), tail)
  {
    var b := EMPTY;
    for k := 0 to |chunks|
      invariant Buffered(b) && b == FeedAll(EMPTY, NormalisedChunks(chunks[..k]))
    {
      var raw := chunks[k];
      assert chunks[..k + 1][..k] == chunks[..k];
      FeedConcatenation(EMPTY, NormalisedChunks(chunks[..k]), Normalised(raw));
      b := TakeChunk(b, raw);
    }
    assert chunks[..|chunks|] == chunks;
    StreamIsBatch([], NormalisedChunks(chunks), tail);
    out := Finish(b, tail);
  }
}
