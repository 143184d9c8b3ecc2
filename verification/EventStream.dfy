/** Reading a provider's event stream (adapters/http_json.py; the WHATWG HTML standard,
    section 9.2.6, with this reader's deviations: all white space after `data:` goes, a
    lone carriage return does not end a line, and the end of the stream ends an event).
    The reader thread is a method proved against a function; the function is proved
    against a printer; the queue between reader and consumer is an interleaving. */
module EventStream {
  import opened Common

  // ---- lines ---------------------------------------------------------------

  /** What Python's `str.lstrip` strips. */
  predicate IsSpace(c: char)
  {
    var n := c as int;
    || 0x09 <= n <= 0x0D || 0x1C <= n <= 0x20 || n == 0x85 || n == 0xA0 || n == 0x1680
    || 0x2000 <= n <= 0x200A || n == 0x2028 || n == 0x2029 || n == 0x202F || n == 0x205F || n == 0x3000
  }

  function LStrip(s: string): (r: string)
    ensures r == "" || !IsSpace(r[0])
  {
    if s != "" && IsSpace(s[0]) then LStrip(s[1..]) else s
  }

  predicate IsBreak(c: char)
  {
    c == '\r' || c == '\n'
  }

  function RStrip(s: string): (r: string)
    ensures r == "" || !IsBreak(r[|r| - 1])
  {
    if s != "" && IsBreak(s[|s| - 1]) then RStrip(s[..|s| - 1]) else s
  }

  predicate StartsWith(s: string, prefix: string)
  {
    prefix <= s
  }

  const DATA := "data:"

  /** The length of the first line, its line feed included. */
  function LineLength(text: string): (n: nat)
    ensures n <= |text| && (text != "" ==> n > 0)
    ensures forall i :: 0 <= i < n - 1 ==> text[i] != '\n'
    ensures n < |text| ==> text[n - 1] == '\n'
  {
    if text == "" then 0 else if text[0] == '\n' then 1 else 1 + LineLength(text[1..])
  }

  function Join(lines: seq<string>): (s: string)
  {
    if lines == [] then "" else if |lines| == 1 then lines[0] else lines[0] + "\n" + Join(lines[1..])
  }

  // ---- what the reader queues ----------------------------------------------

  /** What can go wrong while opening or reading. The body of an HTTP error is read
      while it is handled, which can fail too. */
  datatype Failure = HttpStatus(code: nat, bodyReadable: bool) | ConnectionFailed | NotUtf8 | OtherFault

  datatype ProviderError = ProviderError(cause: Failure, retryable: bool)

  datatype Item = Data(text: string) | Done | Raise(error: ProviderError)

  function ErrorOf(f: Failure): (e: ProviderError)
  {
    match f
    case HttpStatus(code, _) => ProviderError(f, code == 429 || 500 <= code < 600)
    case ConnectionFailed => ProviderError(f, true)
    case NotUtf8 => ProviderError(f, false)
    case OtherFault => ProviderError(f, true)
  }

  /** An HTTP error whose body cannot be read leaves the handler by an exception of its
      own, and the `finally` then reports an ordinary end. */
  function Terminal(f: Failure): (item: Item)
  {
    if f.HttpStatus? && !f.bodyReadable then Done else Raise(ErrorOf(f))
  }

  /** How a fault ends the stream: in silence if the body of an HTTP error cannot be read, and
      otherwise with itself as the cause; the request may be repeated unless the answer is not
      text, or is an HTTP error other than too many requests or one of the server. */
  lemma FaultEnds(f: Failure)
    ensures Terminal(f) == Done <==> exists code :: f == HttpStatus(code, false)
    ensures Terminal(f) != Done ==> Terminal(f).Raise? && Terminal(f).error.cause == f
    ensures Terminal(f).Raise? ==>
      (Terminal(f).error.retryable <==> f != NotUtf8 && (f.HttpStatus? ==> f.code == 429 || f.code / 100 == 5))
  {
    if f.HttpStatus? && !f.bodyReadable {
      assert f == HttpStatus(f.code, false);
    }
  }

  function Flush(pending: seq<string>): (items: seq<Item>)
  {
    if pending == [] then [] else [Data(Join(pending))]
  }

  /** What a stripped line means: the end of an event, a datum, or nothing. */
  datatype Token = Gap | Content(text: string) | Ignored

  function TokenOf(line: string): (t: Token)
  {
    if line == "" then Gap
    else if StartsWith(line, ":") then Ignored
    else if StartsWith(line, DATA) then Content(LStrip(line[|DATA|..]))
    else Ignored
  }

  function Added(pending: seq<string>, t: Token): (r: seq<string>)
  {
    if t.Content? then pending + [t.text] else pending
  }

  /** The lines of a text, their line feeds included; the last may lack it. */
  function Split(text: string): (raws: seq<string>)
  {
    if text == "" then [] else [text[..LineLength(text)]] + Split(text[LineLength(text)..])
  }

  function Tokens(raws: seq<string>): (tokens: seq<Token>)
  {
    seq(|raws|, i requires 0 <= i < |raws| => TokenOf(RStrip(raws[i])))
  }

  /** Everything queued for the rest of a stream, from line number `k` on; reading line
      `i` fails if `fails(i)` says so. */
  function Read(tokens: seq<Token>, k: nat, pending: seq<string>, fails: nat -> Option<Failure>): (items: seq<Item>)
    decreases |tokens|
  {
    if fails(k).Some? then [Terminal(fails(k).value)]
    else if tokens == [] then Flush(pending) + [Done]
    else if tokens[0].Gap? then Flush(pending) + Read(tokens[1..], k + 1, [], fails)
    else Read(tokens[1..], k + 1, Added(pending, tokens[0]), fails)
  }

  function Queued(opening: Option<Failure>, text: string, fails: nat -> Option<Failure>): (items: seq<Item>)
  {
    if opening.Some? then [Terminal(opening.value)] else Read(Tokens(Split(text)), 0, [], fails)
  }

  method ReadLine(text: string, at: nat) returns (raw: string, next: nat)
    requires at <= |text|
    ensures at <= next <= |text| && raw == text[at..next] && next - at == LineLength(text[at..])
  {
    next := at;
    while next < |text| && text[next] != '\n'
      invariant at <= next <= |text|
      invariant forall i :: at <= i < next ==> text[i] != '\n'
    {
      next := next + 1;
    }
    if next < |text| {
      next := next + 1;
    }
    raw := text[at..next];
    LineLengthIs(text[at..], next - at);
  }

  lemma {:induction false} LineLengthIs(text: string, n: nat)
    requires n <= |text| && (text != "" ==> n > 0)
    requires forall i :: 0 <= i < n - 1 ==> text[i] != '\n'
    requires n < |text| ==> text[n - 1] == '\n'
    ensures LineLength(text) == n
  {
    if text != "" && text[0] != '\n' {
      LineLengthIs(text[1..], n - 1);
    }
  }

  /** `read_stream`, without an external stop. */
  method ReadStream(opening: Option<Failure>, text: string, fails: nat -> Option<Failure>) returns (items: seq<Item>)
    ensures items == Queued(opening, text, fails)
  {
    items := [];
    var raised := opening;
    var terminalPublished := false;
    if opening.None? {
      items, raised := ReadLines(text, fails);
      if raised.None? {
        items := items + [Done];
        terminalPublished := true;
      }
    }
    if raised.Some? && !(raised.value.HttpStatus? && !raised.value.bodyReadable) {
      items := items + [Raise(ErrorOf(raised.value))];
      terminalPublished := true;
    }
    if !terminalPublished {
      items := items + [Done];
    }
  }

  /** The body of the `try`: the data queued until the stream ends or a fault is raised. */
  method ReadLines(text: string, fails: nat -> Option<Failure>) returns (items: seq<Item>, raised: Option<Failure>)
    ensures items + [if raised.Some? then Terminal(raised.value) else Done] == Read(Tokens(Split(text)), 0, [], fails)
  {
    items, raised := [], None;
    var dataLines: seq<string> := [];
    var at, k := 0, 0;
    ghost var rest := Tokens(Split(text));
    assert text[0..] == text;
    while true
      invariant at <= |text| && rest == Tokens(Split(text[at..]))
      invariant items + Read(rest, k, dataLines, fails) == Read(Tokens(Split(text)), 0, [], fails)
      decreases |text| - at
    {
      if fails(k).Some? {
        raised := fails(k);
        return;
      }
      var raw, next := ReadLine(text, at);
      if raw == "" {
        items := items + Flush(dataLines);
        return;
      }
      SplitStep(text, at, next);
      at, rest := next, rest[1..];
      items, dataLines := OneLine(RStrip(raw), items, dataLines, rest, k, fails);
      k := k + 1;
    }
  }

  /** A line ends an event, is ignored, or adds to the event's data. */
  method OneLine(line: string, queued: seq<Item>, dataLines: seq<string>, ghost rest: seq<Token>, ghost k: nat,
                 ghost fails: nat -> Option<Failure>)
    returns (items: seq<Item>, pending: seq<string>)
    requires fails(k).None?
    ensures queued + Read([TokenOf(line)] + rest, k, dataLines, fails) == items + Read(rest, k + 1, pending, fails)
  {
    assert ([TokenOf(line)] + rest)[1..] == rest;
    items, pending := queued, dataLines;
    if line == "" {
      if dataLines != [] {
        items := items + [Data(Join(dataLines))];
        pending := [];
      }
      assert items == queued + Flush(dataLines);
    } else if StartsWith(line, ":") {
    } else if StartsWith(line, DATA) {
      pending := pending + [LStrip(line[|DATA|..])];
    }
  }

  lemma SplitStep(text: string, at: nat, next: nat)
    requires at < next <= |text| && next - at == LineLength(text[at..])
    ensures Tokens(Split(text[at..])) == [TokenOf(RStrip(text[at..next]))] + Tokens(Split(text[next..]))
  {
    SplitAt(text, at, next);
    TokensJoin([text[at..next]], Split(text[next..]));
    assert Tokens([text[at..next]]) == [TokenOf(RStrip(text[at..next]))];
  }

  lemma SplitAt(text: string, at: nat, next: nat)
    requires at < next <= |text| && next - at == LineLength(text[at..])
    ensures Split(text[at..]) == [text[at..next]] + Split(text[next..])
  {
    assert text[at..][..next - at] == text[at..next] && text[at..][next - at..] == text[next..];
  }

  // ---- printing ------------------------------------------------------------

  /** A line of an event: a datum after white space and before carriage returns, or a
      comment or a field that means nothing to the reader. */
  datatype Piece = Datum(pad: string, text: string, crs: nat) | Noise(text: string)

  predicate Faithful(text: string)
  {
    text == "" || (!IsSpace(text[0]) && text[|text| - 1] != '\r')
  }

  predicate Blank(s: string)
  {
    forall i :: 0 <= i < |s| ==> IsSpace(s[i])
  }

  predicate ValidPiece(p: Piece)
  {
    '\n' !in p.text &&
    match p
    case Datum(pad, text, _) => '\n' !in pad && Blank(pad) && Faithful(text)
    case Noise(text) => RStrip(text) != "" && (StartsWith(RStrip(text), ":") || !StartsWith(RStrip(text), DATA))
  }

  function Crs(n: nat): (s: string)
  {
    seq(n, i => '\r')
  }

  function LineOf(p: Piece): (s: string)
  {
    match p
    case Datum(pad, text, crs) => DATA + (pad + text + Crs(crs))
    case Noise(text) => text
  }

  predicate AllBreaks(s: string)
  {
    forall i :: 0 <= i < |s| ==> IsBreak(s[i])
  }

  lemma {:induction false} RStripBreaks(s: string, breaks: string)
    requires AllBreaks(breaks)
    ensures RStrip(s + breaks) == RStrip(s)
  {
    if breaks == "" {
      assert s + breaks == s;
    } else {
      var n := |breaks| - 1;
      RStripBreaks(s, breaks[..n]);
      assert (s + breaks)[..|s| + n] == s + breaks[..n];
    }
  }

  /** Stripping the end goes no further than a character that is no line break. */
  lemma {:induction false} RStripStops(s: string, more: string)
    requires s != "" && !IsBreak(s[|s| - 1])
    ensures RStrip(s + more) == s + RStrip(more)
  {
    if more == "" {
      assert s + more == s;
    } else if IsBreak(more[|more| - 1]) {
      var n := |more| - 1;
      RStripStops(s, more[..n]);
      assert (s + more)[..|s| + n] == s + more[..n];
    }
  }

  lemma {:induction false} RStripIsPrefix(s: string)
    ensures RStrip(s) <= s
  {
    if s != "" && IsBreak(s[|s| - 1]) {
      RStripIsPrefix(s[..|s| - 1]);
    }
  }

  lemma {:induction false} LStripPad(pad: string, text: string)
    requires Blank(pad)
    ensures LStrip(pad + text) == LStrip(text)
  {
    if pad == "" {
      assert pad + text == text;
    } else {
      LStripPad(pad[1..], text);
      assert (pad + text)[1..] == pad[1..] + text;
    }
  }

  lemma {:induction false} LStripIsSuffix(s: string)
    ensures |LStrip(s)| <= |s| && LStrip(s) == s[|s| - |LStrip(s)|..]
  {
    if s != "" && IsSpace(s[0]) {
      LStripIsSuffix(s[1..]);
    }
  }

  lemma {:induction false} LStripBlank(s: string)
    requires Blank(s)
    ensures LStrip(s) == ""
  {
    if s != "" {
      LStripBlank(s[1..]);
    }
  }

  /** What the reader makes of a data line. */
  function Received(line: string): (text: string)
    requires StartsWith(line, DATA)
  {
    LStrip(line[|DATA|..])
  }

  lemma ReceivedFrom(pad: string, text: string, breaks: string)
    requires Blank(pad) && AllBreaks(breaks)
    ensures var line := RStrip(DATA + (pad + text + breaks));
            StartsWith(line, DATA) && line[|DATA|..] == RStrip(pad + text) && Received(line) == LStrip(RStrip(pad + text))
  {
    RStripStops(DATA, pad + text + breaks);
    RStripBreaks(pad + text, breaks);
  }

  /** A datum comes back as it was printed, whatever white space precedes it and however
      its line ends, if and only if it does not itself begin with white space or end with
      a carriage return. */
  lemma DatumComesBack(pad: string, text: string, breaks: string)
    requires Blank(pad) && AllBreaks(breaks) && '\n' !in text
    ensures var line := RStrip(DATA + (pad + text + breaks));
            StartsWith(line, DATA) && (Received(line) == text <==> Faithful(text))
  {
    ReceivedFrom(pad, text, breaks);
    var kept := RStrip(pad + text);
    if text == "" {
      assert pad + text == pad;
      RStripIsPrefix(pad);
      LStripBlank(kept);
    } else if text[|text| - 1] == '\r' {
      LStripIsSuffix(kept);
      assert LStrip(kept) != "" ==> LStrip(kept)[|LStrip(kept)| - 1] == kept[|kept| - 1];
    } else {
      assert (pad + text)[|pad + text| - 1] == text[|text| - 1];
      assert text[|text| - 1] in text;
      assert kept == pad + text;
      LStripPad(pad, text);
    }
  }

  function TokenFor(p: Piece): (t: Token)
  {
    if p.Datum? then Content(p.text) else Ignored
  }

  lemma PieceToken(p: Piece, breaks: string)
    requires ValidPiece(p) && AllBreaks(breaks)
    ensures TokenOf(RStrip(LineOf(p) + breaks)) == TokenFor(p)
  {
    match p
    case Datum(pad, text, crs) =>
      assert LineOf(p) + breaks == DATA + (pad + text + (Crs(crs) + breaks));
      DatumComesBack(pad, text, Crs(crs) + breaks);
      assert DATA[0] == 'd';
    case Noise(text) =>
      RStripBreaks(text, breaks);
  }

  /** The data of some pieces, in order. */
  function Texts(pieces: seq<Piece>): (texts: seq<string>)
  {
    if pieces == [] then []
    else (if pieces[0].Datum? then [pieces[0].text] else []) + Texts(pieces[1..])
  }

  /** An event: its pieces, then one or more blank lines of so many carriage returns each. */
  datatype Block = Block(pieces: seq<Piece>, blanks: seq<nat>)

  ghost predicate AllValid(pieces: seq<Piece>)
  {
    forall i :: 0 <= i < |pieces| ==> ValidPiece(pieces[i])
  }

  ghost predicate ValidBlock(b: Block)
  {
    AllValid(b.pieces) && b.blanks != []
  }

  function PrintPieces(pieces: seq<Piece>): (raws: seq<string>)
  {
    seq(|pieces|, i requires 0 <= i < |pieces| => LineOf(pieces[i]) + "\n")
  }

  function PrintBlanks(blanks: seq<nat>): (raws: seq<string>)
  {
    seq(|blanks|, i requires 0 <= i < |blanks| => Crs(blanks[i]) + "\n")
  }

  function PrintBlocks(blocks: seq<Block>): (raws: seq<string>)
  {
    if blocks == [] then []
    else PrintPieces(blocks[0].pieces) + PrintBlanks(blocks[0].blanks) + PrintBlocks(blocks[1..])
  }

  /** The lines after the last blank one; the very last may lack its line feed. */
  function PrintLast(pieces: seq<Piece>, unfinished: Option<Piece>): (raws: seq<string>)
  {
    PrintPieces(pieces) + if unfinished.Some? then [LineOf(unfinished.value)] else []
  }

  /** The events a reader must yield: the data lines of each block that has any. */
  function Events(blocks: seq<Block>): (items: seq<Item>)
  {
    if blocks == [] then [] else Flush(Texts(blocks[0].pieces)) + Events(blocks[1..])
  }

  ghost predicate Sound(fails: nat -> Option<Failure>)
  {
    forall k :: fails(k) == None
  }

  // ---- splitting inverts concatenation -------------------------------------

  /** No line feed but the one that may end it. */
  ghost predicate IsRaw(raw: string)
  {
    raw != "" && forall j :: 0 <= j < |raw| - 1 ==> raw[j] != '\n'
  }

  ghost predicate Ended(raw: string)
  {
    IsRaw(raw) && raw[|raw| - 1] == '\n'
  }

  /** Every line but the last has its line feed. */
  ghost predicate WellSplit(raws: seq<string>)
  {
    (forall i :: 0 <= i < |raws| ==> IsRaw(raws[i])) && forall i :: 0 <= i < |raws| - 1 ==> Ended(raws[i])
  }

  lemma SplitFirst(raw: string, rest: string)
    requires IsRaw(raw) && (rest != "" ==> Ended(raw))
    ensures Split(raw + rest) == [raw] + Split(rest)
  {
    var text := raw + rest;
    forall i | 0 <= i < |raw| - 1
      ensures text[i] != '\n'
    {
      assert text[i] == raw[i];
    }
    LineLengthIs(text, |raw|);
    assert text[..|raw|] == raw && text[|raw|..] == rest;
  }

  lemma {:induction false} SplitInverts(raws: seq<string>)
    requires WellSplit(raws)
    ensures Split(Flatten(raws)) == raws
  {
    if raws != [] {
      var rest := raws[1..];
      assert WellSplit(rest);
      SplitInverts(rest);
      if rest == [] {
        assert Flatten(rest) == "";
      } else {
        assert Ended(raws[0]);
      }
      SplitFirst(raws[0], Flatten(rest));
      assert raws == [raws[0]] + rest;
    }
  }

  lemma PieceIsRaw(p: Piece)
    requires ValidPiece(p)
    ensures IsRaw(LineOf(p)) && Ended(LineOf(p) + "\n")
  {
    assert LineOf(p) != "";
  }

  ghost predicate AllEnded(raws: seq<string>)
  {
    forall i :: 0 <= i < |raws| ==> Ended(raws[i])
  }

  lemma PiecesEnded(pieces: seq<Piece>)
    requires AllValid(pieces)
    ensures AllEnded(PrintPieces(pieces))
  {
    forall i | 0 <= i < |pieces|
      ensures Ended(PrintPieces(pieces)[i])
    {
      PieceIsRaw(pieces[i]);
    }
  }

  lemma BlanksEnded(blanks: seq<nat>)
    ensures AllEnded(PrintBlanks(blanks))
  {
  }

  lemma {:induction false} BlocksEnded(blocks: seq<Block>)
    requires forall i :: 0 <= i < |blocks| ==> ValidBlock(blocks[i])
    ensures AllEnded(PrintBlocks(blocks))
  {
    if blocks != [] {
      PiecesEnded(blocks[0].pieces);
      BlanksEnded(blocks[0].blanks);
      BlocksEnded(blocks[1..]);
    }
  }

  lemma LastWellSplit(pieces: seq<Piece>, unfinished: Option<Piece>, before: seq<string>)
    requires AllEnded(before) && AllValid(pieces) && (unfinished.Some? ==> ValidPiece(unfinished.value))
    ensures WellSplit(before + PrintLast(pieces, unfinished))
  {
    PiecesEnded(pieces);
    if unfinished.Some? {
      PieceIsRaw(unfinished.value);
    }
  }

  /** Every line with a line feed behind it. */
  function WithFeeds(lines: seq<string>): (raws: seq<string>)
  {
    seq(|lines|, i requires 0 <= i < |lines| => lines[i] + "\n")
  }

  lemma {:induction false} JoinIsFlat(lines: seq<string>)
    requires lines != []
    ensures Join(lines) + "\n" == Flatten(WithFeeds(lines))
  {
    var raws := WithFeeds(lines);
    if |lines| == 1 {
      assert raws == [lines[0] + "\n"];
      FlattenSingle(lines[0] + "\n");
    } else {
      JoinIsFlat(lines[1..]);
      assert raws == [lines[0] + "\n"] + WithFeeds(lines[1..]);
      FlattenCons(lines[0] + "\n", WithFeeds(lines[1..]));
      assert lines[0] + "\n" + Join(lines[1..]) + "\n" == (lines[0] + "\n") + (Join(lines[1..]) + "\n");
    }
  }

  /** The data lines of an event can be told apart in its datum: splitting it at line feeds
      gives them back, however many there are. */
  lemma JoinSplits(lines: seq<string>)
    requires lines != [] && forall i :: 0 <= i < |lines| ==> '\n' !in lines[i]
    ensures Split(Join(lines) + "\n") == WithFeeds(lines)
  {
    JoinIsFlat(lines);
    forall i | 0 <= i < |lines|
      ensures Ended(WithFeeds(lines)[i])
    {
      var raw := lines[i] + "\n";
      forall j | 0 <= j < |raw| - 1
        ensures raw[j] != '\n'
      {
        assert raw[j] == lines[i][j] && lines[i][j] in lines[i];
      }
    }
    SplitInverts(WithFeeds(lines));
  }

  // ---- reading inverts printing --------------------------------------------

  function PieceTokens(pieces: seq<Piece>): (tokens: seq<Token>)
  {
    seq(|pieces|, i requires 0 <= i < |pieces| => TokenFor(pieces[i]))
  }

  function Gaps(n: nat): (tokens: seq<Token>)
  {
    seq(n, i => Gap)
  }

  function BlockTokens(blocks: seq<Block>): (tokens: seq<Token>)
  {
    if blocks == [] then []
    else PieceTokens(blocks[0].pieces) + Gaps(|blocks[0].blanks|) + BlockTokens(blocks[1..])
  }

  function LastPieces(pieces: seq<Piece>, unfinished: Option<Piece>): (all: seq<Piece>)
  {
    pieces + if unfinished.Some? then [unfinished.value] else []
  }

  lemma TokensJoin(a: seq<string>, b: seq<string>)
    ensures Tokens(a + b) == Tokens(a) + Tokens(b)
  {
  }

  lemma TokensOfPieces(pieces: seq<Piece>)
    requires AllValid(pieces)
    ensures Tokens(PrintPieces(pieces)) == PieceTokens(pieces)
  {
    forall i | 0 <= i < |pieces|
      ensures Tokens(PrintPieces(pieces))[i] == TokenFor(pieces[i])
    {
      PieceToken(pieces[i], "\n");
    }
  }

  lemma TokensOfBlanks(blanks: seq<nat>)
    ensures Tokens(PrintBlanks(blanks)) == Gaps(|blanks|)
  {
    forall i | 0 <= i < |blanks|
      ensures Tokens(PrintBlanks(blanks))[i] == Gap
    {
      BlankIsEmpty(blanks[i]);
    }
  }

  lemma BlankIsEmpty(n: nat)
    ensures RStrip(Crs(n) + "\n") == ""
  {
    RStripBreaks("", Crs(n) + "\n");
    assert "" + (Crs(n) + "\n") == Crs(n) + "\n";
  }

  lemma {:induction false} TokensOfBlocks(blocks: seq<Block>)
    requires forall i :: 0 <= i < |blocks| ==> ValidBlock(blocks[i])
    ensures Tokens(PrintBlocks(blocks)) == BlockTokens(blocks)
  {
    if blocks != [] {
      var b, rest := blocks[0], PrintBlocks(blocks[1..]);
      TokensOfPieces(b.pieces);
      TokensOfBlanks(b.blanks);
      TokensOfBlocks(blocks[1..]);
      TokensJoin(PrintPieces(b.pieces) + PrintBlanks(b.blanks), rest);
      TokensJoin(PrintPieces(b.pieces), PrintBlanks(b.blanks));
    }
  }

  lemma TokensOfLast(pieces: seq<Piece>, unfinished: Option<Piece>)
    requires AllValid(pieces) && (unfinished.Some? ==> ValidPiece(unfinished.value))
    ensures Tokens(PrintLast(pieces, unfinished)) == PieceTokens(LastPieces(pieces, unfinished))
  {
    TokensOfPieces(pieces);
    if unfinished.Some? {
      PieceToken(unfinished.value, "");
      assert LineOf(unfinished.value) + "" == LineOf(unfinished.value);
      TokensJoin(PrintPieces(pieces), [LineOf(unfinished.value)]);
      assert PieceTokens(LastPieces(pieces, unfinished)) == PieceTokens(pieces) + [TokenFor(unfinished.value)];
    } else {
      assert LastPieces(pieces, unfinished) == pieces;
      assert PrintLast(pieces, unfinished) == PrintPieces(pieces);
    }
  }

  /** The items of a stream whose lines all arrive. */
  function Dispatch(tokens: seq<Token>, pending: seq<string>): (items: seq<Item>)
    decreases |tokens|
  {
    if tokens == [] then Flush(pending)
    else if tokens[0].Gap? then Flush(pending) + Dispatch(tokens[1..], [])
    else Dispatch(tokens[1..], Added(pending, tokens[0]))
  }

  lemma {:induction false} SoundRead(tokens: seq<Token>, k: nat, pending: seq<string>, fails: nat -> Option<Failure>)
    requires Sound(fails)
    ensures Read(tokens, k, pending, fails) == Dispatch(tokens, pending) + [Done]
    decreases |tokens|
  {
    if tokens != [] {
      if tokens[0].Gap? {
        SoundRead(tokens[1..], k + 1, [], fails);
      } else {
        SoundRead(tokens[1..], k + 1, Added(pending, tokens[0]), fails);
      }
    }
  }

  lemma {:induction false} DispatchPieces(pieces: seq<Piece>, rest: seq<Token>, pending: seq<string>)
    ensures Dispatch(PieceTokens(pieces) + rest, pending) == Dispatch(rest, pending + Texts(pieces))
  {
    if pieces == [] {
      assert PieceTokens(pieces) + rest == rest && pending + [] == pending;
    } else {
      FirstToken(pieces, rest);
      FirstText(pieces, pending);
      DispatchPieces(pieces[1..], rest, Added(pending, TokenFor(pieces[0])));
    }
  }

  lemma FirstToken(pieces: seq<Piece>, rest: seq<Token>)
    requires pieces != []
    ensures (PieceTokens(pieces) + rest)[0] == TokenFor(pieces[0])
    ensures (PieceTokens(pieces) + rest)[1..] == PieceTokens(pieces[1..]) + rest
  {
  }

  lemma FirstText(pieces: seq<Piece>, pending: seq<string>)
    requires pieces != []
    ensures Added(pending, TokenFor(pieces[0])) + Texts(pieces[1..]) == pending + Texts(pieces)
  {
    var first: seq<string> := if pieces[0].Datum? then [pieces[0].text] else [];
    assert Added(pending, TokenFor(pieces[0])) == pending + first;
    JoinTexts(pending, first, Texts(pieces[1..]));
  }

  lemma JoinTexts(a: seq<string>, b: seq<string>, c: seq<string>)
    ensures (a + b) + c == a + (b + c)
  {
  }

  lemma {:induction false} DispatchGaps(n: nat, rest: seq<Token>, pending: seq<string>)
    requires n == 0 ==> pending == []
    ensures Dispatch(Gaps(n) + rest, pending) == Flush(pending) + Dispatch(rest, [])
  {
    if n == 0 {
      assert Gaps(n) + rest == rest;
    } else {
      assert (Gaps(n) + rest)[1..] == Gaps(n - 1) + rest;
      DispatchGaps(n - 1, rest, []);
    }
  }

  lemma {:induction false} DispatchBlocks(blocks: seq<Block>, end: seq<Token>)
    requires forall i :: 0 <= i < |blocks| ==> ValidBlock(blocks[i])
    ensures Dispatch(BlockTokens(blocks) + end, []) == Events(blocks) + Dispatch(end, [])
  {
    if blocks == [] {
      assert BlockTokens(blocks) + end == end;
    } else {
      FirstBlock(blocks, end, Dispatch(end, []));
      DispatchBlock(blocks[0], BlockTokens(blocks[1..]) + end);
      DispatchBlocks(blocks[1..], end);
    }
  }

  lemma FirstBlock(blocks: seq<Block>, end: seq<Token>, items: seq<Item>)
    requires blocks != []
    ensures BlockTokens(blocks) + end
            == PieceTokens(blocks[0].pieces) + (Gaps(|blocks[0].blanks|) + (BlockTokens(blocks[1..]) + end))
    ensures Events(blocks) + items == Flush(Texts(blocks[0].pieces)) + (Events(blocks[1..]) + items)
  {
  }

  lemma DispatchBlock(b: Block, more: seq<Token>)
    requires b.blanks != []
    ensures Dispatch(PieceTokens(b.pieces) + (Gaps(|b.blanks|) + more), [])
            == Flush(Texts(b.pieces)) + Dispatch(more, [])
  {
    DispatchPieces(b.pieces, Gaps(|b.blanks|) + more, []);
    assert [] + Texts(b.pieces) == Texts(b.pieces);
    DispatchGaps(|b.blanks|, more, Texts(b.pieces));
  }

  lemma DispatchLast(pieces: seq<Piece>)
    ensures Dispatch(PieceTokens(pieces), []) == Flush(Texts(pieces))
  {
    DispatchPieces(pieces, [], []);
    assert PieceTokens(pieces) + [] == PieceTokens(pieces) && [] + Texts(pieces) == Texts(pieces);
  }

  /** Reading inverts printing: with LF or CRLF, any comments and unknown fields in
      between, any number of blank lines, and a last event that need not be ended, the
      events come out exactly, in order. */
  lemma ReadInvertsPrint(blocks: seq<Block>, last: seq<Piece>, unfinished: Option<Piece>,
                         fails: nat -> Option<Failure>)
    requires forall i :: 0 <= i < |blocks| ==> ValidBlock(blocks[i])
    requires AllValid(last) && (unfinished.Some? ==> ValidPiece(unfinished.value)) && Sound(fails)
    ensures Queued(None, Flatten(PrintBlocks(blocks) + PrintLast(last, unfinished)), fails)
            == Events(blocks) + Flush(Texts(LastPieces(last, unfinished))) + [Done]
  {
    var end := PieceTokens(LastPieces(last, unfinished));
    PrintedTokens(blocks, last, unfinished);
    SoundRead(BlockTokens(blocks) + end, 0, [], fails);
    DispatchBlocks(blocks, end);
    DispatchLast(LastPieces(last, unfinished));
  }

  lemma PrintedTokens(blocks: seq<Block>, last: seq<Piece>, unfinished: Option<Piece>)
    requires forall i :: 0 <= i < |blocks| ==> ValidBlock(blocks[i])
    requires AllValid(last) && (unfinished.Some? ==> ValidPiece(unfinished.value))
    ensures Tokens(Split(Flatten(PrintBlocks(blocks) + PrintLast(last, unfinished))))
            == BlockTokens(blocks) + PieceTokens(LastPieces(last, unfinished))
  {
    BlocksEnded(blocks);
    LastWellSplit(last, unfinished, PrintBlocks(blocks));
    SplitInverts(PrintBlocks(blocks) + PrintLast(last, unfinished));
    TokensJoin(PrintBlocks(blocks), PrintLast(last, unfinished));
    TokensOfBlocks(blocks);
    TokensOfLast(last, unfinished);
  }

  // ---- faults --------------------------------------------------------------

  /** Data first, then exactly one item that ends the stream. */
  ghost predicate OneTerminalLast(items: seq<Item>)
  {
    items != [] && !items[|items| - 1].Data? && forall i :: 0 <= i < |items| - 1 ==> items[i].Data?
  }

  lemma {:induction false} ReadEndsOnce(tokens: seq<Token>, k: nat, pending: seq<string>, fails: nat -> Option<Failure>)
    ensures OneTerminalLast(Read(tokens, k, pending, fails))
    decreases |tokens|
  {
    if fails(k).None? && tokens != [] {
      ReadEndsOnce(tokens[1..], k + 1, [], fails);
      ReadEndsOnce(tokens[1..], k + 1, Added(pending, tokens[0]), fails);
    }
  }

  /** Whatever fails and wherever, exactly one terminal item is queued, and it is last. */
  lemma QueueEndsOnce(opening: Option<Failure>, text: string, fails: nat -> Option<Failure>)
    ensures OneTerminalLast(Queued(opening, text, fails))
  {
    ReadEndsOnce(Tokens(Split(text)), 0, [], fails);
  }

  ghost predicate CutShort(cut: seq<Item>, whole: seq<Item>)
  {
    0 < |cut| <= |whole| && cut[..|cut| - 1] <= whole[..|whole| - 1]
  }

  /** A fault only cuts the data short: what was queued before it is a prefix of what an
      undisturbed reading queues. */
  lemma {:induction false} FaultOnlyCutsShort(tokens: seq<Token>, k: nat, pending: seq<string>,
                                              fails: nat -> Option<Failure>, sound: nat -> Option<Failure>)
    requires Sound(sound)
    ensures CutShort(Read(tokens, k, pending, fails), Read(tokens, k, pending, sound))
    decreases |tokens|
  {
    ReadEndsOnce(tokens, k, pending, sound);
    if fails(k).None? && tokens != [] {
      if tokens[0].Gap? {
        FaultOnlyCutsShort(tokens[1..], k + 1, [], fails, sound);
        PrefixUnderFlush(Flush(pending), Read(tokens[1..], k + 1, [], fails), Read(tokens[1..], k + 1, [], sound));
      } else {
        FaultOnlyCutsShort(tokens[1..], k + 1, Added(pending, tokens[0]), fails, sound);
      }
    }
  }

  lemma PrefixUnderFlush(first: seq<Item>, cut: seq<Item>, whole: seq<Item>)
    requires CutShort(cut, whole)
    ensures CutShort(first + cut, first + whole)
  {
    assert (first + cut)[..|first + cut| - 1] == first + cut[..|cut| - 1];
    assert (first + whole)[..|first + whole| - 1] == first + whole[..|whole| - 1];
  }

  // ---- the consumer --------------------------------------------------------

  function DataOf(items: seq<Item>): (texts: seq<string>)
  {
    if items == [] then []
    else DataOf(items[..|items| - 1]) + if items[|items| - 1].Data? then [items[|items| - 1].text] else []
  }

  datatype Outcome = Running | Returned | Raised(error: ProviderError)

  /** The consumer and the queue between it and the reader thread. */
  datatype Consumer = Consumer(queue: seq<Item>, yielded: seq<string>, outcome: Outcome)

  function Take(c: Consumer): (r: Consumer)
    requires c.outcome == Running && c.queue != []
  {
    var rest := c.(queue := c.queue[1..]);
    match c.queue[0]
    case Data(text) => rest.(yielded := c.yielded + [text])
    case Raise(error) => rest.(outcome := Raised(error))
    case Done => rest.(outcome := Returned)
  }

  /** A run of the two tasks: `true` queues the reader's next item, `false` lets the
      consumer take one. None when that move is not possible. */
  function Interleave(items: seq<Item>, moves: seq<bool>): (r: Option<(nat, Consumer)>)
    ensures r.Some? ==> r.value.0 <= |items|
  {
    if moves == [] then Some((0, Consumer([], [], Running)))
    else
      var n := |moves| - 1;
      match Interleave(items, moves[..n])
      case None => None
      case Some((sent, c)) =>
        if moves[n] then
          if sent < |items| then Some((sent + 1, c.(queue := c.queue + [items[sent]]))) else None
        else if c.outcome == Running && c.queue != [] then Some((sent, Take(c)))
        else None
  }

  ghost predicate InStep(items: seq<Item>, sent: nat, c: Consumer)
  {
    && |c.queue| <= sent <= |items| && c.queue == items[sent - |c.queue|..sent]
    && c.yielded == DataOf(items[..sent - |c.queue|])
    && (c.outcome == Running ==> forall i :: 0 <= i < sent - |c.queue| ==> items[i].Data?)
    && (c.outcome != Running ==> sent - |c.queue| == |items| && c.outcome == EndOf(items))
  }

  function EndOf(items: seq<Item>): (o: Outcome)
  {
    if items != [] && items[|items| - 1].Raise? then Raised(items[|items| - 1].error) else Returned
  }

  lemma TakeKeepsStep(items: seq<Item>, sent: nat, c: Consumer)
    requires OneTerminalLast(items) && InStep(items, sent, c) && c.outcome == Running && c.queue != []
    ensures InStep(items, sent, Take(c))
  {
    var at := sent - |c.queue|;
    assert c.queue[0] == items[at];
    assert items[..at + 1][..at] == items[..at];
  }

  lemma {:induction false} EveryRunInStep(items: seq<Item>, moves: seq<bool>)
    requires OneTerminalLast(items) && Interleave(items, moves).Some?
    ensures InStep(items, Interleave(items, moves).value.0, Interleave(items, moves).value.1)
  {
    if moves != [] {
      var n := |moves| - 1;
      EveryRunInStep(items, moves[..n]);
      var before := Interleave(items, moves[..n]).value;
      if !moves[n] {
        TakeKeepsStep(items, before.0, before.1);
      }
    }
  }

  /** However reader and consumer interleave: the consumer is still running, or it has
      yielded all the data in order and has ended as the one terminal item says. */
  lemma ConsumerYieldsEverything(opening: Option<Failure>, text: string, fails: nat -> Option<Failure>, moves: seq<bool>)
    requires Interleave(Queued(opening, text, fails), moves).Some?
    ensures var items := Queued(opening, text, fails);
            var c := Interleave(items, moves).value.1;
            c.outcome != Running ==> c.yielded == DataOf(items) && c.outcome == EndOf(items)
  {
    QueueEndsOnce(opening, text, fails);
    EndedConsumer(Queued(opening, text, fails), moves);
  }

  lemma EndedConsumer(items: seq<Item>, moves: seq<bool>)
    requires OneTerminalLast(items) && Interleave(items, moves).Some?
    ensures var c := Interleave(items, moves).value.1;
            c.outcome != Running ==> c.yielded == DataOf(items) && c.outcome == EndOf(items)
  {
    EveryRunInStep(items, moves);
    assert items[..|items|] == items;
  }

  /** While it runs, the consumer cannot be stuck: an item is waiting or still to come. */
  lemma ConsumerIsNeverStarved(opening: Option<Failure>, text: string, fails: nat -> Option<Failure>, moves: seq<bool>)
    requires Interleave(Queued(opening, text, fails), moves).Some?
    ensures var items := Queued(opening, text, fails);
            var (sent, c) := Interleave(items, moves).value;
            c.outcome == Running ==> c.queue != [] || sent < |items|
  {
    var items := Queued(opening, text, fails);
    QueueEndsOnce(opening, text, fails);
    EveryRunInStep(items, moves);
  }

  // ---- how a stream appears to end -----------------------------------------

  /** The first of the lines `k` .. `k + n` that fails; line `k + n` is the end of the stream. */
  function FirstFailure(fails: nat -> Option<Failure>, k: nat, n: nat): (f: Option<Failure>)
    decreases n
  {
    if fails(k).Some? then fails(k) else if n == 0 then None else FirstFailure(fails, k + 1, n - 1)
  }

  /** A fault that is reported like an ordinary end. */
  predicate Unreported(f: Failure)
  {
    f.HttpStatus? && !f.bodyReadable
  }

  function EndAfter(f: Option<Failure>): (o: Outcome)
  {
    if f.None? || Unreported(f.value) then Returned else Raised(ErrorOf(f.value))
  }

  lemma EndIsLast(first: seq<Item>, items: seq<Item>)
    requires items != []
    ensures EndOf(first + items) == EndOf(items)
  {
  }

  lemma {:induction false} ReadEndsAs(tokens: seq<Token>, k: nat, pending: seq<string>, fails: nat -> Option<Failure>)
    ensures EndOf(Read(tokens, k, pending, fails)) == EndAfter(FirstFailure(fails, k, |tokens|))
    decreases |tokens|
  {
    if fails(k).Some? {
    } else if tokens == [] {
      EndIsLast(Flush(pending), [Done]);
    } else if tokens[0].Gap? {
      ReadEndsAs(tokens[1..], k + 1, [], fails);
      ReadEndsOnce(tokens[1..], k + 1, [], fails);
      EndIsLast(Flush(pending), Read(tokens[1..], k + 1, [], fails));
    } else {
      ReadEndsAs(tokens[1..], k + 1, Added(pending, tokens[0]), fails);
    }
  }

  /** The fault a reading meets, if any: while opening, or at the first line that fails. */
  function FaultOf(opening: Option<Failure>, text: string, fails: nat -> Option<Failure>): (f: Option<Failure>)
  {
    if opening.Some? then opening else FirstFailure(fails, 0, |Split(text)|)
  }

  /** A stream appears complete to its consumer if and only if no fault was met, or the
      fault was an HTTP error whose body could not be read; every other fault is raised. */
  lemma AppearsComplete(opening: Option<Failure>, text: string, fails: nat -> Option<Failure>, moves: seq<bool>)
    requires Interleave(Queued(opening, text, fails), moves).Some?
    ensures var f, outcome := FaultOf(opening, text, fails), Interleave(Queued(opening, text, fails), moves).value.1.outcome;
            outcome != Running ==>
              && (outcome == Returned <==> f.None? || Unreported(f.value))
              && (f.Some? && !Unreported(f.value) ==> outcome == Raised(ErrorOf(f.value)))
  {
    ConsumerYieldsEverything(opening, text, fails, moves);
    ReadEndsAs(Tokens(Split(text)), 0, [], fails);
  }

  /** So a failed request can look like an empty answer: a 500 whose body is cut off. */
  lemma FailureLooksComplete(text: string, fails: nat -> Option<Failure>)
    ensures Interleave(Queued(Some(HttpStatus(500, false)), text, fails), [true, false])
            == Some((1, Consumer([], [], Returned)))
  {
    var items := Queued(Some(HttpStatus(500, false)), text, fails);
    assert items == [Done] && [true, false][..1] == [true] && [true][..0] == [];
    var idle: Consumer := Consumer([], [], Running);
    assert Interleave(items, []) == Some((0, idle));
    assert idle.queue + [items[0]] == [Done];
    assert Interleave(items, [true]) == Some((1, Consumer([Done], [], Running)));
    assert [Done][1..] == [];
  }
}
