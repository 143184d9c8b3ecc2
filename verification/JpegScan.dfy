/** Finding the size of a JPEG image in a bounded header (core/image_budget.py; marker
    segments as in ITU-T T.81, Annex B). The loop is proved against a function, and the
    function against a printer of marker segments, in both directions. */
module JpegScan {
  import opened Common

  type Byte = x: int | 0 <= x < 256

  // ---- markers -------------------------------------------------------------

  predicate EndsScan(marker: Byte)
  {
    marker == 0xD9 || marker == 0xDA
  }

  /** A marker without a length. */
  predicate StandsAlone(marker: Byte)
  {
    marker == 0x01 || 0xD0 <= marker <= 0xD8
  }

  predicate StartsFrame(marker: Byte)
  {
    0xC0 <= marker <= 0xCF && marker != 0xC4 && marker != 0xC8 && marker != 0xCC
  }

  // ---- bytes ---------------------------------------------------------------

  /** Python's `int.from_bytes(.., "big")`; nothing at all is 0. */
  function BigEndian(s: seq<Byte>): (n: nat)
  {
    if s == [] then 0 else 256 * BigEndian(s[..|s| - 1]) + s[|s| - 1]
  }

  function TwoBytes(n: nat): (s: seq<Byte>)
    requires n < 0x10000
    ensures |s| == 2
  {
    [n / 256, n % 256]
  }

  lemma TwoBytesRead(n: nat)
    requires n < 0x10000
    ensures BigEndian(TwoBytes(n)) == n
  {
    var s := TwoBytes(n);
    assert s[..1] == [n / 256] && s[..1][..0] == [];
    assert BigEndian(s[..1]) == n / 256;
  }

  lemma TwoBytesOf(s: seq<Byte>)
    requires |s| == 2
    ensures BigEndian(s) == (s[0] as int) * 256 + (s[1] as int) < 0x10000
    ensures TwoBytes(BigEndian(s)) == s
  {
    assert s[..1] == [s[0]] && s[..1][..0] == [];
    assert BigEndian(s[..1]) == s[0];
  }

  /** A slice whose bounds are cut back to the end. */
  function Slice(s: seq<Byte>, from: nat, to: nat): (r: seq<Byte>)
    ensures from <= to <= |s| ==> r == s[from..to]
  {
    if from <= to && from <= |s| then s[from..if to <= |s| then to else |s|] else []
  }

  // ---- the scan ------------------------------------------------------------

  function LeadingFill(bytes: seq<Byte>): (n: nat)
    ensures n <= |bytes|
  {
    if bytes == [] || bytes[0] != 0xFF then 0 else 1 + LeadingFill(bytes[1..])
  }

  lemma {:induction false} FillMeans(bytes: seq<Byte>)
    ensures var n := LeadingFill(bytes);
            (forall i :: 0 <= i < n ==> bytes[i] == 0xFF) && (n < |bytes| ==> bytes[n] != 0xFF)
  {
    if bytes != [] && bytes[0] == 0xFF {
      FillMeans(bytes[1..]);
    }
  }

  /** The (width, height) of the first frame header, if it is reached. */
  function Scan(bytes: seq<Byte>): (size: Option<(nat, nat)>)
    decreases |bytes|
  {
    var fill := LeadingFill(bytes);
    if |bytes| < 4 || fill == 0 || fill == |bytes| then None
    else ScanMarker(bytes[fill], bytes[fill + 1..])
  }

  function ScanMarker(marker: Byte, rest: seq<Byte>): (size: Option<(nat, nat)>)
    decreases |rest| + 1
  {
    var length := BigEndian(Slice(rest, 0, 2));
    if EndsScan(marker) then None
    else if StandsAlone(marker) then Scan(rest)
    else if length < 2 || length > |rest| then None
    else if StartsFrame(marker) && length >= 8 then
      Some((BigEndian(rest[5..7]), BigEndian(rest[3..5])))
    else Scan(rest[length..])
  }

  /** Past the 0xFF bytes that introduce a marker. */
  method SkipFill(header: seq<Byte>, start: nat) returns (offset: nat)
    requires start < |header| && header[start] == 0xFF
    ensures start < offset && FillUpTo(header, start, offset)
  {
    offset := start + 1;
    while offset < |header| && header[offset] == 0xFF
      invariant start < offset <= |header|
      invariant forall i :: start <= i < offset ==> header[i] == 0xFF
    {
      offset := offset + 1;
    }
  }

  /** Everything from `start` up to `offset`, and no more, is 0xFF. */
  ghost predicate FillUpTo(header: seq<Byte>, start: nat, offset: nat)
  {
    && start <= offset <= |header| && (forall i :: start <= i < offset ==> header[i] == 0xFF)
    && (offset < |header| ==> header[offset] != 0xFF)
  }

  /** The size of a JPEG header, None if there is none or a side is 0. */
  method JpegDimensions(header: seq<Byte>) returns (size: Option<(nat, nat)>)
    requires IsJpeg(header)
    ensures size == Positive(Scan(header[2..]))
  {
    var width, height := 0, 0;
    var offset := 2;
    while offset + 4 <= |header|
      invariant 2 <= offset <= |header| && width == height == 0
      invariant Scan(header[offset..]) == Scan(header[2..])
      decreases |header| - offset
    {
      var next, sides := TakeSegment(header, offset);
      if next.None? {
        width, height := sides.0, sides.1;
        break;
      }
      offset := next.value;
    }
    return if width > 0 && height > 0 then Some((width, height)) else None;
  }

  /** One turn of the loop. */
  method TakeSegment(header: seq<Byte>, start: nat) returns (next: Option<nat>, sides: (nat, nat))
    requires start + 4 <= |header|
    ensures next.Some? ==> start < next.value <= |header| && Scan(header[next.value..]) == Scan(header[start..])
    ensures next.None? ==> Positive(Some(sides)) == Positive(Scan(header[start..]))
  {
    if header[start] != 0xFF {
      FillFrom(header, start, start);
      NoMarkerAt(header, start, start);
      return None, (0, 0);
    }
    var offset := SkipFill(header, start);
    FillFrom(header, start, offset);
    if offset >= |header| {
      NoMarkerAt(header, start, offset);
      return None, (0, 0);
    }
    MarkerAt(header, start, offset);
    next, sides := TakeMarker(header, header[offset], offset + 1);
  }

  /** What the marker before `offset` means: where to go on, or the end of the scan, with
      the sides if they were found. */
  method TakeMarker(header: seq<Byte>, marker: Byte, offset: nat) returns (next: Option<nat>, sides: (nat, nat))
    requires offset <= |header|
    ensures next.Some? ==> offset <= next.value <= |header|
    ensures next.Some? ==> Scan(header[next.value..]) == ScanMarker(marker, header[offset..])
    ensures next.None? ==> Positive(Some(sides)) == Positive(ScanMarker(marker, header[offset..]))
  {
    next, sides := None, (0, 0);
    if EndsScan(marker) {
      return;
    }
    if StandsAlone(marker) {
      return Some(offset), sides;
    }
    var length := BigEndian(Slice(header, offset, offset + 2));
    LengthAt(header, offset);
    if length < 2 || offset + length > |header| {
      return;
    }
    if StartsFrame(marker) && length >= 8 {
      SidesAt(header, offset);
      var height := BigEndian(Slice(header, offset + 3, offset + 5));
      var width := BigEndian(Slice(header, offset + 5, offset + 7));
      return None, (width, height);
    }
    assert header[offset + length..] == header[offset..][length..];
    return Some(offset + length), sides;
  }

  predicate IsJpeg(header: seq<Byte>)
  {
    |header| >= 2 && header[0] == 0xFF && header[1] == 0xD8
  }

  lemma NoMarkerAt(header: seq<Byte>, start: nat, at: nat)
    requires start < |header| && LeadingFill(header[start..]) == at - start && (at == start || at == |header|)
    ensures Scan(header[start..]) == None
  {
  }

  lemma MarkerAt(header: seq<Byte>, start: nat, at: nat)
    requires start + 4 <= |header| && start < at < |header| && LeadingFill(header[start..]) == at - start
    ensures Scan(header[start..]) == ScanMarker(header[at], header[at + 1..])
  {
    TailOfTail(header, start, at + 1);
    MarkerIn(header[start..], at - start, header[at], header[at + 1..]);
  }

  lemma MarkerIn(bytes: seq<Byte>, fill: nat, marker: Byte, rest: seq<Byte>)
    requires |bytes| >= 4 && 0 < fill < |bytes| && LeadingFill(bytes) == fill
    requires bytes[fill] == marker && bytes[fill + 1..] == rest
    ensures Scan(bytes) == ScanMarker(marker, rest)
  {
  }

  lemma FillFrom(header: seq<Byte>, start: nat, at: nat)
    requires FillUpTo(header, start, at)
    ensures LeadingFill(header[start..]) == at - start
  {
    var tail := header[start..];
    forall i | 0 <= i < at - start
      ensures tail[i] == 0xFF
    {
      assert tail[i] == header[start + i];
    }
    FillIs(tail, at - start);
  }

  lemma TailOfTail<T>(s: seq<T>, i: nat, j: nat)
    requires i <= j <= |s|
    ensures s[i..][j - i..] == s[j..]
  {
  }

  lemma LengthAt(header: seq<Byte>, offset: nat)
    requires offset <= |header|
    ensures Slice(header, offset, offset + 2) == Slice(header[offset..], 0, 2)
  {
  }

  lemma SidesAt(header: seq<Byte>, offset: nat)
    requires offset + 8 <= |header|
    ensures Slice(header, offset + 3, offset + 5) == header[offset..][3..5]
    ensures Slice(header, offset + 5, offset + 7) == header[offset..][5..7]
  {
  }

  function Positive(size: Option<(nat, nat)>): (r: Option<(nat, nat)>)
  {
    if size.Some? && size.value.0 > 0 && size.value.1 > 0 then size else None
  }

  lemma FillIs(bytes: seq<Byte>, n: nat)
    requires n <= |bytes| && forall i :: 0 <= i < n ==> bytes[i] == 0xFF
    requires n < |bytes| ==> bytes[n] != 0xFF
    ensures LeadingFill(bytes) == n
  {
    FillMeans(bytes);
  }

  // ---- the printer ---------------------------------------------------------

  datatype Segment =
    | Standalone(fill: nat, marker: Byte)
    | Skipped(fill: nat, marker: Byte, payload: seq<Byte>)

  /** A segment that is passed over on the way to the frame header. */
  predicate Skippable(s: Segment)
  {
    match s
    case Standalone(_, marker) => StandsAlone(marker)
    case Skipped(_, marker, payload) =>
      && marker != 0xFF && !StandsAlone(marker) && !EndsScan(marker) && |payload| + 2 < 0x10000
      && (StartsFrame(marker) ==> |payload| + 2 < 8)
  }

  /** `parameters` is what follows the sides inside the frame header. */
  datatype Frame = Frame(fill: nat, marker: Byte, precision: Byte, height: nat, width: nat, parameters: seq<Byte>)

  predicate ValidFrame(f: Frame)
  {
    StartsFrame(f.marker) && f.height < 0x10000 && f.width < 0x10000 && 1 <= |f.parameters| < 0x10000 - 7
  }

  function Fill(n: nat): (s: seq<Byte>)
    ensures |s| == n
  {
    seq(n, i => 0xFF)
  }

  function Introduce(fill: nat, marker: Byte): (s: seq<Byte>)
  {
    Fill(fill + 1) + [marker]
  }

  function PrintSegment(s: Segment): (bytes: seq<Byte>)
    requires Skippable(s)
  {
    match s
    case Standalone(fill, marker) => Introduce(fill, marker)
    case Skipped(fill, marker, payload) => Introduce(fill, marker) + (TwoBytes(|payload| + 2) + payload)
  }

  function PrintSegments(segments: seq<Segment>): (bytes: seq<Byte>)
    requires forall i :: 0 <= i < |segments| ==> Skippable(segments[i])
  {
    if segments == [] then [] else PrintSegment(segments[0]) + PrintSegments(segments[1..])
  }

  function FrameBody(f: Frame): (bytes: seq<Byte>)
    requires ValidFrame(f)
  {
    TwoBytes(|f.parameters| + 7) + [f.precision] + TwoBytes(f.height) + TwoBytes(f.width) + f.parameters
  }

  function PrintFrame(f: Frame): (bytes: seq<Byte>)
    requires ValidFrame(f)
  {
    Introduce(f.fill, f.marker) + FrameBody(f)
  }

  lemma ScanIntroduced(fill: nat, marker: Byte, rest: seq<Byte>)
    requires marker != 0xFF && fill + 2 + |rest| >= 4
    ensures Scan(Introduce(fill, marker) + rest) == ScanMarker(marker, rest)
  {
    var bytes := Introduce(fill, marker) + rest;
    FillIs(bytes, fill + 1);
    assert bytes[fill + 2..] == rest;
  }

  lemma ScanFrame(f: Frame, tail: seq<Byte>)
    requires ValidFrame(f)
    ensures Scan(PrintFrame(f) + tail) == Some((f.width, f.height))
  {
    var rest := FrameBody(f) + tail;
    assert PrintFrame(f) + tail == Introduce(f.fill, f.marker) + rest;
    ScanIntroduced(f.fill, f.marker, rest);
    FrameFields(f, tail);
    TwoBytesRead(|f.parameters| + 7);
    TwoBytesRead(f.height);
    TwoBytesRead(f.width);
  }

  lemma FrameFields(f: Frame, tail: seq<Byte>)
    requires ValidFrame(f)
    ensures var rest := FrameBody(f) + tail;
            && |rest| >= |f.parameters| + 7 && Slice(rest, 0, 2) == TwoBytes(|f.parameters| + 7)
            && rest[3..5] == TwoBytes(f.height) && rest[5..7] == TwoBytes(f.width)
  {
  }

  lemma ScanSegment(s: Segment, rest: seq<Byte>)
    requires Skippable(s) && |rest| >= 2
    ensures Scan(PrintSegment(s) + rest) == Scan(rest)
  {
    match s
    case Standalone(fill, marker) => ScanIntroduced(fill, marker, rest);
    case Skipped(fill, marker, payload) =>
      var length := TwoBytes(|payload| + 2);
      var after := length + payload + rest;
      assert PrintSegment(s) + rest == Introduce(fill, marker) + after;
      ScanIntroduced(fill, marker, after);
      TwoBytesRead(|payload| + 2);
      assert Slice(after, 0, 2) == length && after[|payload| + 2..] == rest;
  }

  ghost predicate AllSkippable(segments: seq<Segment>)
  {
    forall i :: 0 <= i < |segments| ==> Skippable(segments[i])
  }

  /** Scanning inverts printing: whatever segments, fill bytes and standalone markers come
      first, the size printed in the frame header is the size found. */
  lemma {:induction false} ScanInvertsPrint(segments: seq<Segment>, f: Frame, tail: seq<Byte>)
    requires AllSkippable(segments) && ValidFrame(f)
    ensures Scan(PrintSegments(segments) + PrintFrame(f) + tail) == Some((f.width, f.height))
  {
    if segments == [] {
      assert PrintSegments(segments) + PrintFrame(f) + tail == PrintFrame(f) + tail;
      ScanFrame(f, tail);
    } else {
      var rest := PrintSegments(segments[1..]) + PrintFrame(f) + tail;
      FirstSegment(segments, f, tail);
      ScanSegment(segments[0], rest);
      ScanInvertsPrint(segments[1..], f, tail);
    }
  }

  lemma FirstSegment(segments: seq<Segment>, f: Frame, tail: seq<Byte>)
    requires AllSkippable(segments) && ValidFrame(f) && segments != []
    ensures PrintSegments(segments) + PrintFrame(f) + tail
            == PrintSegment(segments[0]) + (PrintSegments(segments[1..]) + PrintFrame(f) + tail)
  {
    FourParts(PrintSegment(segments[0]), PrintSegments(segments[1..]), PrintFrame(f), tail);
  }

  lemma FourParts(a: seq<Byte>, b: seq<Byte>, c: seq<Byte>, d: seq<Byte>)
    ensures (a + b) + c + d == a + (b + c + d)
  {
  }

  ghost predicate Printed(bytes: seq<Byte>, segments: seq<Segment>, f: Frame, tail: seq<Byte>)
  {
    AllSkippable(segments) && ValidFrame(f) && bytes == PrintSegments(segments) + PrintFrame(f) + tail
  }

  lemma SplitFill(bytes: seq<Byte>, fill: nat)
    requires 0 < fill < |bytes| && fill == LeadingFill(bytes)
    ensures bytes == Introduce(fill - 1, bytes[fill]) + bytes[fill + 1..]
  {
    FillMeans(bytes);
    IsFill(bytes[..fill]);
    SplitAround(bytes, fill);
    assert Introduce(fill - 1, bytes[fill]) == Fill(fill) + [bytes[fill]];
  }

  lemma SplitAround<T>(s: seq<T>, i: nat)
    requires i < |s|
    ensures s == s[..i] + [s[i]] + s[i + 1..]
  {
  }

  lemma IsFill(s: seq<Byte>)
    requires forall i :: 0 <= i < |s| ==> s[i] == 0xFF
    ensures Fill(|s|) == s
  {
  }

  lemma SplitFrame(fill: nat, marker: Byte, rest: seq<Byte>) returns (f: Frame, tail: seq<Byte>)
    requires StartsFrame(marker) && |rest| >= 2 && 8 <= BigEndian(rest[..2]) <= |rest|
    ensures ValidFrame(f) && Introduce(fill, marker) + rest == PrintFrame(f) + tail
    ensures f.height == BigEndian(rest[3..5]) && f.width == BigEndian(rest[5..7])
  {
    var length := BigEndian(rest[..2]);
    TwoBytesOf(rest[..2]);
    TwoBytesOf(rest[3..5]);
    TwoBytesOf(rest[5..7]);
    f := Frame(fill, marker, rest[2], BigEndian(rest[3..5]), BigEndian(rest[5..7]), rest[7..length]);
    tail := rest[length..];
    assert rest == rest[..2] + [rest[2]] + rest[3..5] + rest[5..7] + rest[7..length] + tail;
    assert FrameBody(f) + tail == rest;
  }

  lemma SplitSegment(fill: nat, marker: Byte, rest: seq<Byte>) returns (s: Segment, length: nat)
    requires marker != 0xFF && !EndsScan(marker)
    requires !StandsAlone(marker) ==> |rest| >= 2 && 2 <= BigEndian(rest[..2]) <= |rest|
    requires !StandsAlone(marker) && StartsFrame(marker) ==> BigEndian(rest[..2]) < 8
    ensures length == (if StandsAlone(marker) then 0 else BigEndian(rest[..2])) <= |rest|
    ensures Skippable(s) && Introduce(fill, marker) + rest == PrintSegment(s) + rest[length..]
  {
    if StandsAlone(marker) {
      s, length := Standalone(fill, marker), 0;
    } else {
      length := BigEndian(rest[..2]);
      TwoBytesOf(rest[..2]);
      s := Skipped(fill, marker, rest[2..length]);
      assert rest == rest[..2] + rest[2..length] + rest[length..];
    }
  }

  /** Nothing else is found: a size is returned only for bytes some segments and a frame
      header of that size print. */
  lemma {:induction false} FoundIsPrinted(bytes: seq<Byte>) returns (segments: seq<Segment>, f: Frame, tail: seq<Byte>)
    requires Scan(bytes).Some?
    ensures Printed(bytes, segments, f, tail) && Scan(bytes) == Some((f.width, f.height))
    decreases |bytes|
  {
    if FrameComesFirst(bytes) {
      f, tail := LeadingFrame(bytes);
      segments := [];
      NothingFirst(f, tail);
    } else {
      var s, later := LeadingSegment(bytes);
      var more, frame, end := FoundIsPrinted(later);
      segments, f, tail := [s] + more, frame, end;
      OneMore(s, later, more, f, tail);
    }
  }

  /** The first marker introduces a frame header that is long enough. */
  predicate FrameComesFirst(bytes: seq<Byte>)
    requires Scan(bytes).Some?
  {
    var marker, rest := bytes[LeadingFill(bytes)], bytes[LeadingFill(bytes) + 1..];
    !StandsAlone(marker) && StartsFrame(marker) && BigEndian(Slice(rest, 0, 2)) >= 8
  }

  lemma LeadingFrame(bytes: seq<Byte>) returns (f: Frame, tail: seq<Byte>)
    requires Scan(bytes).Some? && FrameComesFirst(bytes)
    ensures ValidFrame(f) && bytes == PrintFrame(f) + tail && Scan(bytes) == Some((f.width, f.height))
  {
    var fill, marker, rest := FrameMarker(bytes);
    f, tail := SplitFrame(fill, marker, rest);
  }

  lemma FrameMarker(bytes: seq<Byte>) returns (fill: nat, marker: Byte, rest: seq<Byte>)
    requires Scan(bytes).Some? && FrameComesFirst(bytes)
    ensures bytes == Introduce(fill, marker) + rest && StartsFrame(marker)
    ensures |rest| >= 2 && 8 <= BigEndian(rest[..2]) <= |rest|
    ensures Scan(bytes) == Some((BigEndian(rest[5..7]), BigEndian(rest[3..5])))
  {
    var n := LeadingFill(bytes);
    fill, marker, rest := n - 1, bytes[n], bytes[n + 1..];
    SplitFill(bytes, n);
    LengthIsWhole(rest);
  }

  lemma LeadingSegment(bytes: seq<Byte>) returns (s: Segment, later: seq<Byte>)
    requires Scan(bytes).Some? && !FrameComesFirst(bytes)
    ensures Skippable(s) && bytes == PrintSegment(s) + later && |later| < |bytes| && Scan(later) == Scan(bytes)
  {
    var fill := LeadingFill(bytes);
    var marker, rest := bytes[fill], bytes[fill + 1..];
    SplitFill(bytes, fill);
    if !StandsAlone(marker) {
      LengthIsWhole(rest);
    }
    FillMeans(bytes);
    var skipped;
    s, skipped := SplitSegment(fill - 1, marker, rest);
    later := rest[skipped..];
  }

  lemma NothingFirst(f: Frame, tail: seq<Byte>)
    requires ValidFrame(f)
    ensures Printed(PrintFrame(f) + tail, [], f, tail)
  {
    assert PrintSegments([]) + PrintFrame(f) == PrintFrame(f);
  }

  lemma OneMore(s: Segment, bytes: seq<Byte>, segments: seq<Segment>, f: Frame, tail: seq<Byte>)
    requires Skippable(s) && Printed(bytes, segments, f, tail)
    ensures Printed(PrintSegment(s) + bytes, [s] + segments, f, tail)
  {
    assert ([s] + segments)[1..] == segments;
    FourParts(PrintSegment(s), PrintSegments(segments), PrintFrame(f), tail);
  }

  /** A length that is cut off by the end of the header is refused. */
  lemma LengthIsWhole(rest: seq<Byte>)
    requires 2 <= BigEndian(Slice(rest, 0, 2)) <= |rest|
    ensures |rest| >= 2 && Slice(rest, 0, 2) == rest[..2]
  {
  }

  /** The scan answers exactly the headers that were printed with that size. */
  lemma ScanIsExact(bytes: seq<Byte>, width: nat, height: nat)
    ensures Scan(bytes) == Some((width, height))
            <==> exists segments, f, tail :: Printed(bytes, segments, f, tail) && f.width == width && f.height == height
  {
    if Scan(bytes) == Some((width, height)) {
      var segments, f, tail := FoundIsPrinted(bytes);
    }
    forall segments, f, tail | Printed(bytes, segments, f, tail)
      ensures Scan(bytes) == Some((f.width, f.height))
    {
      ScanInvertsPrint(segments, f, tail);
    }
  }

  // ---- the price -----------------------------------------------------------

  const DEFAULT_IMAGE_TOKENS := 4096

  function Patches(width: nat, height: nat): (n: nat)
  {
    ((width + 31) / 32) * ((height + 31) / 32)
  }

  /** The tiles of 32 by 32 pixels an image reaches into. */
  ghost function Tiles(width: nat, height: nat): (tiles: set<(nat, nat)>)
  {
    set i: nat, j: nat | i < width && j < height && 32 * i < width && 32 * j < height :: (i, j)
  }

  ghost function Grid(a: nat, b: nat): (cells: set<(nat, nat)>)
  {
    set i: nat, j: nat | i < a && j < b :: (i, j)
  }

  ghost function Column(i: nat, b: nat): (cells: set<(nat, nat)>)
  {
    set j: nat | j < b :: (i, j)
  }

  lemma {:induction false} ColumnCount(i: nat, b: nat)
    ensures |Column(i, b)| == b
  {
    if b > 0 {
      ColumnCount(i, b - 1);
      assert Column(i, b) == Column(i, b - 1) + {(i, b - 1)};
    }
  }

  lemma OneMoreColumn(a: nat, b: nat)
    requires a > 0
    ensures |Grid(a, b)| == |Grid(a - 1, b)| + b
  {
    ColumnCount(a - 1, b);
    assert Grid(a, b) == Grid(a - 1, b) + Column(a - 1, b);
    assert Grid(a - 1, b) !! Column(a - 1, b);
  }

  lemma Distribute(a: nat, b: nat)
    requires a > 0
    ensures a * b == (a - 1) * b + b
  {
  }

  lemma {:induction false} GridCount(a: nat, b: nat)
    ensures |Grid(a, b)| == a * b
  {
    if a > 0 {
      var before := a - 1;
      GridCount(before, b);
      OneMoreColumn(a, b);
      Distribute(a, b);
    }
  }

  lemma PatchesAreTiles(width: nat, height: nat)
    ensures |Tiles(width, height)| == Patches(width, height)
  {
    GridCount((width + 31) / 32, (height + 31) / 32);
    assert Tiles(width, height) == Grid((width + 31) / 32, (height + 31) / 32);
  }

  function EstimateImageTokens(size: Option<(nat, nat)>): (tokens: nat)
    ensures tokens >= DEFAULT_IMAGE_TOKENS
    ensures size.Some? ==> tokens >= 1024 + 3 * |Tiles(size.value.0, size.value.1)|
    ensures tokens == DEFAULT_IMAGE_TOKENS
            || (size.Some? && tokens == 1024 + 3 * |Tiles(size.value.0, size.value.1)|)
  {
    if size.None? then DEFAULT_IMAGE_TOKENS
    else
      PatchesAreTiles(size.value.0, size.value.1);
      var priced := 1024 + 3 * Patches(size.value.0, size.value.1);
      if priced < DEFAULT_IMAGE_TOKENS then DEFAULT_IMAGE_TOKENS else priced
  }

  /** There is no cap: the price grows with the area, three tokens for 32 by 32 pixels. */
  lemma PriceCoversArea(width: nat, height: nat)
    ensures 1024 * EstimateImageTokens(Some((width, height))) >= 3 * (width * height)
  {
    var a, b := (width + 31) / 32, (height + 31) / 32;
    assert 32 * a >= width && 32 * b >= height;
    ProductGrows(width, 32 * a, height, 32 * b);
    assert (32 * a) * (32 * b) == 1024 * (a * b);
  }

  lemma ProductGrows(a: nat, c: nat, b: nat, d: nat)
    requires a <= c && b <= d
    ensures a * b <= c * d
  {
    assert c * d - a * b == (c - a) * d + a * (d - b);
  }
}
