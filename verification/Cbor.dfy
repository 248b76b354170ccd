/**
 The recogniser for CBOR payloads from IPFS (utils/ipfs/requestIpfs.ts), its grammar, and their agreement.
 */
module Cbor {
  // `ScanItem` and its three list forms are the recogniser as functions; `ScanCborItem` and
  // `ValidateCborPayload` are the loops of the program, proved equal to them. `Tree` is a syntax of
  // encodings that knows nothing about offsets: every head width that section 3 of RFC 8949 allows,
  // definite and indefinite forms, tags.

  type byte = b: int | 0 <= b < 256

  const BREAK: byte := 0xff
  const MAX_COLLECTION_ITEMS := 100_000
  const MAX_DEPTH := 64

  datatype Error =
    | TruncatedLength(width: nat)
    | InvalidInfo(info: nat)
    | TooDeep
    | TruncatedItem
    | UnexpectedBreak
    | IndefiniteScalar
    | WrongChunkType
    | UnterminatedString
    | LengthExceedsPayload(declared: nat, remaining: nat)
    | UnterminatedCollection(major: nat)
    | TooManyEntries(declared: nat)
    | IndefiniteTag

  datatype Argument =
    | Value(value: nat, next: nat)
    | Indefinite(next: nat)
    | BadArgument(next: nat, error: Error)

  datatype Scan = Done(offset: nat) | Failed(offset: nat, error: Error)

  // ---------- The recogniser ----------

  /** Big-endian reading of a byte string. */
  function BigEndian(s: seq<byte>): nat {
    if s == [] then 0 else 256 * BigEndian(s[..|s| - 1]) + s[|s| - 1]
  }

  function ReadWide(buffer: seq<byte>, offset: nat, width: nat): Argument {
    if offset + width > |buffer| then BadArgument(offset, TruncatedLength(width))
    else Value(BigEndian(buffer[offset..offset + width]), offset + width)
  }

  function ReadArgument(buffer: seq<byte>, offset: nat, info: nat): (r: Argument)
    ensures offset <= r.next && (r.Value? && offset <= |buffer| ==> r.next <= |buffer|)
  {
    if info < 24 then Value(info, offset)
    else if info == 24 then ReadWide(buffer, offset, 1)
    else if info == 25 then ReadWide(buffer, offset, 2)
    else if info == 26 then ReadWide(buffer, offset, 4)
    else if info == 27 then ReadWide(buffer, offset, 8)
    else if info == 31 then Indefinite(offset)
    else BadArgument(offset, InvalidInfo(info))
  }

  function Left(buffer: seq<byte>, offset: nat): nat {
    if offset < |buffer| then |buffer| - offset else 0
  }

  /** A map has two items an entry. */
  function ItemCount(entries: nat, major: nat): nat {
    if major == 5 then 2 * entries else entries
  }

  function ScanItem(buffer: seq<byte>, offset: nat, depth: nat): (r: Scan)
    ensures r.Done? ==> offset < r.offset <= |buffer|
    decreases Left(buffer, offset), 0
  {
    if depth > MAX_DEPTH then Failed(offset, TooDeep)
    else if offset >= |buffer| then Failed(offset, TruncatedItem)
    else if buffer[offset] == BREAK then Failed(offset, UnexpectedBreak)
    else
      var major, info := buffer[offset] / 32, buffer[offset] % 32;
      match ReadArgument(buffer, offset + 1, info)
      case BadArgument(next, error) => Failed(next, error)
      case Indefinite(next) =>
        if major == 2 || major == 3 then ScanChunks(buffer, next, major, depth)
        else if major == 4 || major == 5 then ScanUntilBreak(buffer, next, major, depth)
        else if major == 6 then Failed(next, IndefiniteTag)
        else Failed(next, IndefiniteScalar)
      case Value(value, next) =>
        if major == 2 || major == 3 then
          if value > |buffer| - next then Failed(next, LengthExceedsPayload(value, |buffer| - next))
          else Done(next + value)
        else if major == 4 || major == 5 then
          if value > MAX_COLLECTION_ITEMS then Failed(next, TooManyEntries(value))
          else ScanCount(buffer, next, ItemCount(value, major), depth)
        else if major == 6 then ScanItem(buffer, next, depth + 1)
        else Done(next)
  }

  /** The chunks of an indefinite string, up to and including the break byte. */
  function ScanChunks(buffer: seq<byte>, offset: nat, major: nat, depth: nat): (r: Scan)
    ensures r.Done? ==> offset < r.offset <= |buffer|
    decreases Left(buffer, offset), 1
  {
    if offset >= |buffer| then Failed(offset, UnterminatedString)
    else if buffer[offset] == BREAK then Done(offset + 1)
    else if buffer[offset] / 32 != major then Failed(offset, WrongChunkType)
    else
      var chunk := ScanItem(buffer, offset, depth + 1);
      if chunk.Failed? then chunk else ScanChunks(buffer, chunk.offset, major, depth)
  }

  /** The items of an indefinite array or map, up to and including the break byte. */
  function ScanUntilBreak(buffer: seq<byte>, offset: nat, major: nat, depth: nat): (r: Scan)
    ensures r.Done? ==> offset < r.offset <= |buffer|
    decreases Left(buffer, offset), 1
  {
    if offset >= |buffer| then Failed(offset, UnterminatedCollection(major))
    else if buffer[offset] == BREAK then Done(offset + 1)
    else
      var item := ScanItem(buffer, offset, depth + 1);
      if item.Failed? then item else ScanUntilBreak(buffer, item.offset, major, depth)
  }

  /** Exactly `count` items. */
  function ScanCount(buffer: seq<byte>, offset: nat, count: nat, depth: nat): (r: Scan)
    ensures r.Done? ==> offset <= r.offset && (offset <= |buffer| ==> r.offset <= |buffer|)
    decreases Left(buffer, offset), 1
  {
    if count == 0 then Done(offset)
    else
      var item := ScanItem(buffer, offset, depth + 1);
      if item.Failed? then item else ScanCount(buffer, item.offset, count - 1, depth)
  }

  function ScanPayload(buffer: seq<byte>, offset: nat): (r: Scan)
    decreases Left(buffer, offset)
  {
    if offset >= |buffer| then Done(offset)
    else
      var item := ScanItem(buffer, offset, 0);
      if item.Failed? then item else ScanPayload(buffer, item.offset)
  }

  predicate Accepts(buffer: seq<byte>) {
    buffer != [] && ScanPayload(buffer, 0).Done?
  }

  // ---------- The program's loops ----------

  method ScanCborItem(buffer: seq<byte>, offset: nat, depth: nat) returns (r: Scan)
    ensures r == ScanItem(buffer, offset, depth)
    decreases Left(buffer, offset)
  {
    hide ReadArgument;
    if depth > MAX_DEPTH { return Failed(offset, TooDeep); }
    if offset >= |buffer| { return Failed(offset, TruncatedItem); }
    var initialByte := buffer[offset];
    if initialByte == BREAK { return Failed(offset, UnexpectedBreak); }
    var majorType, additionalInfo := initialByte / 32, initialByte % 32;
    var argument := ReadArgument(buffer, offset + 1, additionalInfo);
    if argument.BadArgument? { return Failed(argument.next, argument.error); }
    if majorType == 0 || majorType == 1 || majorType == 7 {
      if argument.Indefinite? { return Failed(argument.next, IndefiniteScalar); }
      return Done(argument.next);
    }
    if majorType == 2 || majorType == 3 {
      if argument.Indefinite? {
        var chunkOffset := argument.next;
        while chunkOffset < |buffer| && buffer[chunkOffset] != BREAK
          invariant argument.next <= chunkOffset
          invariant ScanChunks(buffer, argument.next, majorType, depth) ==
                      ScanChunks(buffer, chunkOffset, majorType, depth)
          decreases Left(buffer, chunkOffset)
        {
          var chunkType := buffer[chunkOffset] / 32;
          if chunkType != majorType { return Failed(chunkOffset, WrongChunkType); }
          var chunk := ScanCborItem(buffer, chunkOffset, depth + 1);
          if chunk.Failed? { return chunk; }
          chunkOffset := chunk.offset;
        }
        if chunkOffset >= |buffer| { return Failed(chunkOffset, UnterminatedString); }
        return Done(chunkOffset + 1);
      }
      var remaining := |buffer| - argument.next;
      if argument.value > remaining { return Failed(argument.next, LengthExceedsPayload(argument.value, remaining)); }
      return Done(argument.next + argument.value);
    }
    if majorType == 4 || majorType == 5 {
      var itemOffset := argument.next;
      if argument.Indefinite? {
        while itemOffset < |buffer| && buffer[itemOffset] != BREAK
          invariant argument.next <= itemOffset
          invariant ScanUntilBreak(buffer, argument.next, majorType, depth) ==
                      ScanUntilBreak(buffer, itemOffset, majorType, depth)
          decreases Left(buffer, itemOffset)
        {
          var item := ScanCborItem(buffer, itemOffset, depth + 1);
          if item.Failed? { return item; }
          itemOffset := item.offset;
        }
        if itemOffset >= |buffer| { return Failed(itemOffset, UnterminatedCollection(majorType)); }
        return Done(itemOffset + 1);
      }
      if argument.value > MAX_COLLECTION_ITEMS { return Failed(argument.next, TooManyEntries(argument.value)); }
      var itemCount := ItemCount(argument.value, majorType);
      for index := 0 to itemCount
        invariant argument.next <= itemOffset
        invariant ScanCount(buffer, argument.next, itemCount, depth) ==
                    ScanCount(buffer, itemOffset, itemCount - index, depth)
      {
        var item := ScanCborItem(buffer, itemOffset, depth + 1);
        if item.Failed? { return item; }
        itemOffset := item.offset;
      }
      return Done(itemOffset);
    }
    if argument.Indefinite? { return Failed(argument.next, IndefiniteTag); }
    r := ScanCborItem(buffer, argument.next, depth + 1);
  }

  /** True when the payload passes; the program returns `undefined` exactly then. */
  method ValidateCborPayload(buffer: seq<byte>) returns (ok: bool)
    ensures ok == Accepts(buffer)
  {
    if |buffer| == 0 { return false; }
    var offset: nat := 0;
    while offset < |buffer|
      invariant ScanPayload(buffer, 0) == ScanPayload(buffer, offset)
      decreases Left(buffer, offset)
    {
      var item := ScanCborItem(buffer, offset, 0);
      if item.Failed? { return false; }
      offset := item.offset;
    }
    return true;
  }

  // ---------- The grammar ----------

  /** A head argument: inside the initial byte, or in 1, 2, 4 or 8 following bytes. */
  datatype Head = Short(arg: nat) | Wide(width: nat, arg: nat)

  datatype Tree =
    | Scalar(major: nat, head: Head)
    | Str(major: nat, head: Head, payload: seq<byte>)
    | Chunked(major: nat, chunks: Trees)
    | Collection(major: nat, head: Head, items: Trees)
    | Streamed(major: nat, items: Trees)
    | Tagged(head: Head, item: Tree)

  datatype Trees = Nil | Cons(first: Tree, rest: Trees)

  function Length(ts: Trees): nat {
    if ts.Nil? then 0 else 1 + Length(ts.rest)
  }

  function Pow256(width: nat): nat {
    if width == 0 then 1 else 256 * Pow256(width - 1)
  }

  predicate HeadOk(h: Head) {
    match h
    case Short(arg) => arg < 24
    case Wide(width, arg) => (width == 1 || width == 2 || width == 4 || width == 8) && arg < Pow256(width)
  }

  /** A string of the given major type; chunks of an indefinite string may be indefinite themselves. */
  predicate IsString(t: Tree, major: nat) {
    (t.Str? || t.Chunked?) && t.major == major
  }

  predicate WellFormed(t: Tree) {
    match t
    case Scalar(major, head) => (major == 0 || major == 1 || major == 7) && HeadOk(head)
    case Str(major, head, payload) => (major == 2 || major == 3) && HeadOk(head) && head.arg == |payload|
    case Chunked(major, chunks) =>
      (major == 2 || major == 3) && AllStrings(chunks, major) && AllWellFormed(chunks)
    case Collection(major, head, items) =>
      && (major == 4 || major == 5) && HeadOk(head) && head.arg <= 100_000
      && Length(items) == (if major == 5 then 2 * head.arg else head.arg) && AllWellFormed(items)
    case Streamed(major, items) => (major == 4 || major == 5) && AllWellFormed(items)
    case Tagged(head, item) => HeadOk(head) && WellFormed(item)
  }

  predicate AllStrings(ts: Trees, major: nat) {
    ts.Nil? || (IsString(ts.first, major) && AllStrings(ts.rest, major))
  }

  predicate AllWellFormed(ts: Trees) {
    ts.Nil? || (WellFormed(ts.first) && AllWellFormed(ts.rest))
  }

  /** Nesting below `t`: 0 for a tree without children. */
  function Height(t: Tree): nat {
    match t
    case Scalar(_, _) => 0
    case Str(_, _, _) => 0
    case Chunked(_, chunks) => HeightBelow(chunks)
    case Collection(_, _, items) => HeightBelow(items)
    case Streamed(_, items) => HeightBelow(items)
    case Tagged(_, item) => 1 + Height(item)
  }

  function HeightBelow(ts: Trees): nat {
    if ts.Nil? then 0 else Max(1 + Height(ts.first), HeightBelow(ts.rest))
  }

  function Max(a: nat, b: nat): nat {
    if a < b then b else a
  }

  function ToBytes(n: nat, width: nat): (s: seq<byte>)
    ensures |s| == width
  {
    if width == 0 then [] else ToBytes(n / 256, width - 1) + [n % 256]
  }

  function HeadInfo(h: Head): nat {
    match h
    case Short(arg) => arg
    case Wide(width, _) => if width == 1 then 24 else if width == 2 then 25 else if width == 4 then 26 else 27
  }

  function InitialByte(major: nat, info: nat): byte
    requires major < 8 && info < 32
  {
    major * 32 + info
  }

  function EncodeHead(major: nat, h: Head): seq<byte>
    requires major < 8 && HeadOk(h)
  {
    [InitialByte(major, HeadInfo(h))] + if h.Short? then [] else ToBytes(h.arg, h.width)
  }

  function Encode(t: Tree): (s: seq<byte>)
    requires WellFormed(t)
    ensures s != []
  {
    match t
    case Scalar(major, head) => EncodeHead(major, head)
    case Str(major, head, payload) => EncodeHead(major, head) + payload
    case Chunked(major, chunks) => [InitialByte(major, 31)] + EncodeAll(chunks) + [BREAK]
    case Collection(major, head, items) => EncodeHead(major, head) + EncodeAll(items)
    case Streamed(major, items) => [InitialByte(major, 31)] + EncodeAll(items) + [BREAK]
    case Tagged(head, item) => EncodeHead(6, head) + Encode(item)
  }

  function EncodeAll(ts: Trees): seq<byte>
    requires AllWellFormed(ts)
  {
    if ts.Nil? then [] else Encode(ts.first) + EncodeAll(ts.rest)
  }

  // ---------- Agreement ----------

  /** `s` occupies the buffer from `offset` on. */
  predicate At(buffer: seq<byte>, offset: nat, s: seq<byte>) {
    offset + |s| <= |buffer| && buffer[offset..offset + |s|] == s
  }

  lemma AtSplit(buffer: seq<byte>, offset: nat, s: seq<byte>, t: seq<byte>)
    ensures At(buffer, offset, s + t) <==> At(buffer, offset, s) && At(buffer, offset + |s|, t)
  {
    if At(buffer, offset, s + t) {
      assert buffer[offset..offset + |s|] == (s + t)[..|s|];
      assert buffer[offset + |s|..offset + |s + t|] == (s + t)[|s|..];
    }
    if At(buffer, offset, s) && At(buffer, offset + |s|, t) {
      assert buffer[offset..offset + |s + t|] ==
          buffer[offset..offset + |s|] + buffer[offset + |s|..offset + |s| + |t|];
    }
  }

  lemma {:induction false} BytesRoundTrip(n: nat, width: nat)
    requires n < Pow256(width)
    ensures BigEndian(ToBytes(n, width)) == n
  {
    if width > 0 {
      BytesRoundTrip(n / 256, width - 1);
      assert ToBytes(n, width)[..width - 1] == ToBytes(n / 256, width - 1);
    }
  }

  lemma {:induction false} ReadingIsWriting(s: seq<byte>)
    ensures BigEndian(s) < Pow256(|s|) && ToBytes(BigEndian(s), |s|) == s
  {
    if s != [] {
      ReadingIsWriting(s[..|s| - 1]);
      assert BigEndian(s) / 256 == BigEndian(s[..|s| - 1]) && BigEndian(s) % 256 == s[|s| - 1];
    }
  }

  lemma HeadIsRead(buffer: seq<byte>, offset: nat, major: nat, h: Head)
    requires major < 8 && HeadOk(h) && At(buffer, offset, EncodeHead(major, h))
    ensures buffer[offset] / 32 == major && buffer[offset] % 32 == HeadInfo(h) && buffer[offset] != BREAK
    ensures ReadArgument(buffer, offset + 1, buffer[offset] % 32) == Value(h.arg, offset + |EncodeHead(major, h)|)
  {
    hide BigEndian, ToBytes;
    var rest: seq<byte> := if h.Short? then [] else ToBytes(h.arg, h.width);
    FirstByteIsRead(buffer, offset, major, h, rest);
    if h.Wide? { BytesRoundTrip(h.arg, h.width); }
  }

  lemma FirstByteIsRead(buffer: seq<byte>, offset: nat, major: nat, h: Head, rest: seq<byte>)
    requires major < 8 && HeadOk(h) && At(buffer, offset, [InitialByte(major, HeadInfo(h))] + rest)
    ensures buffer[offset] == InitialByte(major, HeadInfo(h)) && buffer[offset] / 32 == major
    ensures buffer[offset] % 32 == HeadInfo(h) && buffer[offset] != BREAK
    ensures offset + 1 + |rest| <= |buffer| && buffer[offset + 1..offset + 1 + |rest|] == rest
  {
    hide BigEndian;
    var first := InitialByte(major, HeadInfo(h));
    AtSplit(buffer, offset, [first], rest);
    assert buffer[offset] == buffer[offset..offset + 1][0] == first;
  }

  lemma HeadWasWritten(buffer: seq<byte>, offset: nat) returns (h: Head)
    requires offset < |buffer| && ReadArgument(buffer, offset + 1, buffer[offset] % 32).Value?
    ensures HeadOk(h)
    ensures var a := ReadArgument(buffer, offset + 1, buffer[offset] % 32);
            h.arg == a.value && a.next == offset + |EncodeHead(buffer[offset] / 32, h)| &&
            At(buffer, offset, EncodeHead(buffer[offset] / 32, h))
  {
    var info := buffer[offset] % 32;
    if info < 24 {
      h := Short(info);
      assert buffer[offset..offset + 1] == [buffer[offset]];
    } else {
      var width := if info == 24 then 1 else if info == 25 then 2 else if info == 26 then 4 else 8;
      h := WideWasWritten(buffer, offset, width);
    }
  }

  lemma WideWasWritten(buffer: seq<byte>, offset: nat, width: nat) returns (h: Head)
    requires offset + 1 + width <= |buffer| && (width == 1 || width == 2 || width == 4 || width == 8)
    requires buffer[offset] % 32 ==
               (if width == 1 then 24 else if width == 2 then 25 else if width == 4 then 26 else 27)
    ensures HeadOk(h) && h.Wide? && h.width == width && h.arg == BigEndian(buffer[offset + 1..offset + 1 + width])
    ensures |EncodeHead(buffer[offset] / 32, h)| == 1 + width && At(buffer, offset, EncodeHead(buffer[offset] / 32, h))
  {
    hide BigEndian, ToBytes;
    var wide := buffer[offset + 1..offset + 1 + width];
    ReadingIsWriting(wide);
    h := Wide(width, BigEndian(wide));
    assert buffer[offset..offset + 1] == [buffer[offset]];
    AtSplit(buffer, offset, [buffer[offset]], wide);
  }

  /** Completeness: every tree within the limits is scanned to exactly the end of its encoding, whatever follows. */
  lemma {:induction false} EncodingIsScanned(buffer: seq<byte>, offset: nat, t: Tree, depth: nat)
    requires WellFormed(t) && depth + Height(t) <= 64 && At(buffer, offset, Encode(t))
    ensures ScanItem(buffer, offset, depth) == Done(offset + |Encode(t)|)
    ensures t.Str? || t.Chunked? ==> buffer[offset] / 32 == t.major
    ensures buffer[offset] != BREAK
    decreases t, 1
  {
    hide EncodeHead, BigEndian, HeadOk, ReadArgument;
    match t
    case Scalar(major, head) =>
      HeadIsRead(buffer, offset, major, head);
    case Str(_, _, _) => StrIsScanned(buffer, offset, t, depth);
    case Chunked(_, _) => ChunkedIsScanned(buffer, offset, t, depth);
    case Collection(_, _, _) => CollectionIsScanned(buffer, offset, t, depth);
    case Streamed(_, _) => StreamedIsScanned(buffer, offset, t, depth);
    case Tagged(head, item) =>
      AtSplit(buffer, offset, EncodeHead(6, head), Encode(item));
      HeadIsRead(buffer, offset, 6, head);
      EncodingIsScanned(buffer, offset + |EncodeHead(6, head)|, item, depth + 1);
  }

  lemma StrIsScanned(buffer: seq<byte>, offset: nat, t: Tree, depth: nat)
    requires t.Str? && WellFormed(t) && depth + Height(t) <= 64 && At(buffer, offset, Encode(t))
    ensures ScanItem(buffer, offset, depth) == Done(offset + |Encode(t)|)
    ensures buffer[offset] / 32 == t.major && buffer[offset] != BREAK
  {
    hide EncodeHead, BigEndian, HeadOk, ReadArgument;
    AtSplit(buffer, offset, EncodeHead(t.major, t.head), t.payload);
    HeadIsRead(buffer, offset, t.major, t.head);
  }

  lemma {:induction false} ChunkedIsScanned(buffer: seq<byte>, offset: nat, t: Tree, depth: nat)
    requires t.Chunked? && WellFormed(t) && depth + Height(t) <= 64 && At(buffer, offset, Encode(t))
    ensures ScanItem(buffer, offset, depth) == Done(offset + |Encode(t)|)
    ensures buffer[offset] / 32 == t.major && buffer[offset] != BREAK
    decreases t, 0
  {
    StreamIsFramed(buffer, offset, t.major, t.chunks);
    ChunksAreScanned(buffer, offset + 1, t.major, t.chunks, depth);
  }

  lemma {:induction false} StreamedIsScanned(buffer: seq<byte>, offset: nat, t: Tree, depth: nat)
    requires t.Streamed? && WellFormed(t) && depth + Height(t) <= 64 && At(buffer, offset, Encode(t))
    ensures ScanItem(buffer, offset, depth) == Done(offset + |Encode(t)|) && buffer[offset] != BREAK
    decreases t, 0
  {
    StreamIsFramed(buffer, offset, t.major, t.items);
    StreamIsScanned(buffer, offset + 1, t.major, t.items, depth);
  }

  lemma {:induction false} CollectionIsScanned(buffer: seq<byte>, offset: nat, t: Tree, depth: nat)
    requires t.Collection? && WellFormed(t) && depth + Height(t) <= 64 && At(buffer, offset, Encode(t))
    ensures ScanItem(buffer, offset, depth) == Done(offset + |Encode(t)|) && buffer[offset] != BREAK
    decreases t, 0
  {
    hide EncodeHead, BigEndian, HeadOk;
    AtSplit(buffer, offset, EncodeHead(t.major, t.head), EncodeAll(t.items));
    HeadIsRead(buffer, offset, t.major, t.head);
    CountIsScanned(buffer, offset + |EncodeHead(t.major, t.head)|, t.items, depth);
  }

  lemma StreamIsFramed(buffer: seq<byte>, offset: nat, major: nat, ts: Trees)
    requires 2 <= major <= 5 && AllWellFormed(ts)
    requires At(buffer, offset, [InitialByte(major, 31)] + EncodeAll(ts) + [BREAK])
    ensures buffer[offset] / 32 == major && buffer[offset] % 32 == 31 && buffer[offset] != BREAK
    ensures At(buffer, offset + 1, EncodeAll(ts) + [BREAK])
  {
    assert [InitialByte(major, 31)] + EncodeAll(ts) + [BREAK] == [InitialByte(major, 31)] + (EncodeAll(ts) + [BREAK]);
    AtSplit(buffer, offset, [InitialByte(major, 31)], EncodeAll(ts) + [BREAK]);
    assert buffer[offset] == buffer[offset..offset + 1][0];
  }

  lemma BreakIsNext(buffer: seq<byte>, offset: nat)
    requires At(buffer, offset, EncodeAll(Nil) + [BREAK])
    ensures offset < |buffer| && buffer[offset] == BREAK
  {
    assert EncodeAll(Nil) + [BREAK] == [BREAK];
    assert buffer[offset] == buffer[offset..offset + 1][0];
  }

  lemma FirstOfMany(buffer: seq<byte>, offset: nat, ts: Trees, end: seq<byte>)
    requires !ts.Nil? && AllWellFormed(ts) && At(buffer, offset, EncodeAll(ts) + end)
    ensures At(buffer, offset, Encode(ts.first)) && At(buffer, offset + |Encode(ts.first)|, EncodeAll(ts.rest) + end)
  {
    hide Encode, WellFormed;
    assert EncodeAll(ts) + end == Encode(ts.first) + (EncodeAll(ts.rest) + end);
    AtSplit(buffer, offset, Encode(ts.first), EncodeAll(ts.rest) + end);
  }

  lemma {:induction false} ChunksAreScanned(buffer: seq<byte>, offset: nat, major: nat, ts: Trees, depth: nat)
    requires AllWellFormed(ts) && AllStrings(ts, major) && depth + HeightBelow(ts) <= 64
    requires At(buffer, offset, EncodeAll(ts) + [BREAK])
    ensures ScanChunks(buffer, offset, major, depth) == Done(offset + |EncodeAll(ts)| + 1)
    decreases ts, 0
  {
    hide ScanItem, Encode, WellFormed, Height;
    if ts.Nil? {
      BreakIsNext(buffer, offset);
    } else {
      FirstOfMany(buffer, offset, ts, [BREAK]);
      EncodingIsScanned(buffer, offset, ts.first, depth + 1);
      ChunksAreScanned(buffer, offset + |Encode(ts.first)|, major, ts.rest, depth);
    }
  }

  lemma {:induction false} StreamIsScanned(buffer: seq<byte>, offset: nat, major: nat, ts: Trees, depth: nat)
    requires AllWellFormed(ts) && depth + HeightBelow(ts) <= 64
    requires At(buffer, offset, EncodeAll(ts) + [BREAK])
    ensures ScanUntilBreak(buffer, offset, major, depth) == Done(offset + |EncodeAll(ts)| + 1)
    decreases ts, 0
  {
    hide ScanItem, Encode, WellFormed, Height;
    if ts.Nil? {
      BreakIsNext(buffer, offset);
    } else {
      FirstOfMany(buffer, offset, ts, [BREAK]);
      EncodingIsScanned(buffer, offset, ts.first, depth + 1);
      StreamIsScanned(buffer, offset + |Encode(ts.first)|, major, ts.rest, depth);
    }
  }

  lemma {:induction false} CountIsScanned(buffer: seq<byte>, offset: nat, ts: Trees, depth: nat)
    requires AllWellFormed(ts) && depth + HeightBelow(ts) <= 64 && At(buffer, offset, EncodeAll(ts))
    ensures ScanCount(buffer, offset, Length(ts), depth) == Done(offset + |EncodeAll(ts)|)
    decreases ts, 0
  {
    hide ScanItem, Encode, WellFormed, Height;
    if !ts.Nil? {
      assert EncodeAll(ts) + [] == EncodeAll(ts) && EncodeAll(ts.rest) + [] == EncodeAll(ts.rest);
      FirstOfMany(buffer, offset, ts, []);
      EncodingIsScanned(buffer, offset, ts.first, depth + 1);
      CountIsScanned(buffer, offset + |Encode(ts.first)|, ts.rest, depth);
    }
  }

  /** `t` is a tree within the limits whose encoding is what the scanner consumed. */
  ghost predicate IsScanned(buffer: seq<byte>, offset: nat, depth: nat, t: Tree) {
    && WellFormed(t) && depth + Height(t) <= 64 && At(buffer, offset, Encode(t))
    && ScanItem(buffer, offset, depth) == Done(offset + |Encode(t)|)
    && (t.Str? || t.Chunked? <==> buffer[offset] / 32 == 2 || buffer[offset] / 32 == 3)
    && (t.Str? || t.Chunked? ==> t.major == buffer[offset] / 32)
  }

  /** Soundness: whatever is scanned is the encoding of a tree within the limits. */
  lemma {:induction false} ScannedIsEncoding(buffer: seq<byte>, offset: nat, depth: nat) returns (t: Tree)
    requires ScanItem(buffer, offset, depth).Done?
    ensures IsScanned(buffer, offset, depth, t)
    decreases Left(buffer, offset), 1
  {
    hide IsScanned;
    var major, info := buffer[offset] / 32, buffer[offset] % 32;
    match ReadArgument(buffer, offset + 1, info)
    case Indefinite(_) =>
      t := ScannedStreamForm(buffer, offset, depth);
    case Value(value, next) =>
      if major == 4 || major == 5 {
        t := ScannedCollection(buffer, offset, depth);
      } else {
        t := ScannedSingle(buffer, offset, depth);
      }
  }

  /** What follows an initial byte that starts an item. */
  lemma AfterHead(buffer: seq<byte>, offset: nat, depth: nat)
    requires ScanItem(buffer, offset, depth).Done?
    ensures depth <= 64 && offset < |buffer|
    ensures var major, a := buffer[offset] / 32, ReadArgument(buffer, offset + 1, buffer[offset] % 32);
            var scanned := ScanItem(buffer, offset, depth);
            && major < 8 && !a.BadArgument?
            && (a.Indefinite? ==> buffer[offset] % 32 == 31 && a.next == offset + 1 && 2 <= major <= 5)
            && (a.Indefinite? && major < 4 ==> scanned == ScanChunks(buffer, a.next, major, depth))
            && (a.Indefinite? && major >= 4 ==> scanned == ScanUntilBreak(buffer, a.next, major, depth))
            && (a.Value? && (major == 2 || major == 3) ==>
                a.next + a.value <= |buffer| && scanned == Done(a.next + a.value))
            && (a.Value? && (major == 4 || major == 5) ==>
                a.value <= 100_000 && scanned == ScanCount(buffer, a.next, ItemCount(a.value, major), depth))
            && (a.Value? && major == 6 ==> scanned == ScanItem(buffer, a.next, depth + 1))
            && (a.Value? && (major < 2 || major == 7) ==> scanned == Done(a.next))
  {
  }

  lemma {:induction false} ScannedStreamForm(buffer: seq<byte>, offset: nat, depth: nat) returns (t: Tree)
    requires ScanItem(buffer, offset, depth).Done? && ReadArgument(buffer, offset + 1, buffer[offset] % 32).Indefinite?
    ensures IsScanned(buffer, offset, depth, t)
    decreases Left(buffer, offset), 0
  {
    var major := buffer[offset] / 32;
    hide ScanItem, ReadArgument, EncodeHead, BigEndian, HeadOk;
    AfterHead(buffer, offset, depth);
    if major == 2 || major == 3 {
      var chunks := ScannedChunks(buffer, offset + 1, major, depth);
      t := Chunked(major, chunks);
      StreamWasFramed(buffer, offset, chunks);
    } else {
      var items := ScannedStream(buffer, offset + 1, major, depth);
      t := Streamed(major, items);
      StreamWasFramed(buffer, offset, items);
    }
  }

  lemma {:induction false} ScannedCollection(buffer: seq<byte>, offset: nat, depth: nat) returns (t: Tree)
    requires ScanItem(buffer, offset, depth).Done? && ReadArgument(buffer, offset + 1, buffer[offset] % 32).Value?
    requires buffer[offset] / 32 == 4 || buffer[offset] / 32 == 5
    ensures IsScanned(buffer, offset, depth, t)
    decreases Left(buffer, offset), 0
  {
    hide ScanItem, EncodeHead, BigEndian, HeadOk, ReadArgument;
    AfterHead(buffer, offset, depth);
    var major := buffer[offset] / 32;
    var a := ReadArgument(buffer, offset + 1, buffer[offset] % 32);
    var head := HeadWasWritten(buffer, offset);
    var items := ScannedCount(buffer, a.next, ItemCount(a.value, major), depth);
    t := Collection(major, head, items);
    hide At, ScanCount;
    AtSplit(buffer, offset, EncodeHead(major, head), EncodeAll(items));
  }

  lemma {:induction false} ScannedSingle(buffer: seq<byte>, offset: nat, depth: nat) returns (t: Tree)
    requires ScanItem(buffer, offset, depth).Done? && ReadArgument(buffer, offset + 1, buffer[offset] % 32).Value?
    requires buffer[offset] / 32 != 4 && buffer[offset] / 32 != 5
    ensures IsScanned(buffer, offset, depth, t)
    decreases Left(buffer, offset), 0
  {
    hide ScanItem, EncodeHead, BigEndian, HeadOk, ReadArgument;
    AfterHead(buffer, offset, depth);
    var major := buffer[offset] / 32;
    var a := ReadArgument(buffer, offset + 1, buffer[offset] % 32);
    var head := HeadWasWritten(buffer, offset);
    if major == 2 || major == 3 {
      t := ScannedStr(buffer, offset, depth, head);
    } else if major == 6 {
      var item := ScannedIsEncoding(buffer, a.next, depth + 1);
      t := Tagged(head, item);
      TagWasRead(buffer, offset, depth, head, item);
    } else {
      t := Scalar(major, head);
    }
  }

  lemma TagWasRead(buffer: seq<byte>, offset: nat, depth: nat, head: Head, item: Tree)
    requires ScanItem(buffer, offset, depth).Done? && ReadArgument(buffer, offset + 1, buffer[offset] % 32).Value?
    requires buffer[offset] / 32 == 6 && HeadOk(head) && At(buffer, offset, EncodeHead(6, head))
    requires var a := ReadArgument(buffer, offset + 1, buffer[offset] % 32);
             a.next == offset + |EncodeHead(6, head)| && IsScanned(buffer, a.next, depth + 1, item)
    ensures IsScanned(buffer, offset, depth, Tagged(head, item))
  {
    hide ScanItem, EncodeHead, BigEndian, HeadOk, ReadArgument, At;
    AfterHead(buffer, offset, depth);
    AtSplit(buffer, offset, EncodeHead(6, head), Encode(item));
  }

  lemma ScannedStr(buffer: seq<byte>, offset: nat, depth: nat, head: Head) returns (t: Tree)
    requires ScanItem(buffer, offset, depth).Done? && ReadArgument(buffer, offset + 1, buffer[offset] % 32).Value?
    requires buffer[offset] / 32 == 2 || buffer[offset] / 32 == 3
    requires HeadOk(head) && At(buffer, offset, EncodeHead(buffer[offset] / 32, head))
    requires var a := ReadArgument(buffer, offset + 1, buffer[offset] % 32);
             head.arg == a.value && a.next == offset + |EncodeHead(buffer[offset] / 32, head)|
    ensures IsScanned(buffer, offset, depth, t)
  {
    hide ScanItem, EncodeHead, BigEndian, HeadOk, ReadArgument;
    AfterHead(buffer, offset, depth);
    var major := buffer[offset] / 32;
    var a := ReadArgument(buffer, offset + 1, buffer[offset] % 32);
    t := Str(major, head, buffer[a.next..a.next + a.value]);
    assert At(buffer, a.next, t.payload);
    hide At;
    AtSplit(buffer, offset, EncodeHead(major, head), t.payload);
  }

  lemma StreamWasFramed(buffer: seq<byte>, offset: nat, ts: Trees)
    requires offset < |buffer| && buffer[offset] % 32 == 31 && buffer[offset] / 32 < 8
    requires AllWellFormed(ts) && At(buffer, offset + 1, EncodeAll(ts) + [BREAK])
    ensures At(buffer, offset, [InitialByte(buffer[offset] / 32, 31)] + EncodeAll(ts) + [BREAK])
  {
    var first := [InitialByte(buffer[offset] / 32, 31)];
    assert buffer[offset..offset + 1] == first;
    assert first + EncodeAll(ts) + [BREAK] == first + (EncodeAll(ts) + [BREAK]);
    AtSplit(buffer, offset, first, EncodeAll(ts) + [BREAK]);
  }

  lemma OneMore(buffer: seq<byte>, offset: nat, t: Tree, ts: Trees, end: seq<byte>)
    requires WellFormed(t) && AllWellFormed(ts)
    requires At(buffer, offset, Encode(t)) && At(buffer, offset + |Encode(t)|, EncodeAll(ts) + end)
    ensures At(buffer, offset, EncodeAll(Cons(t, ts)) + end)
  {
    hide Encode, WellFormed;
    AtSplit(buffer, offset, Encode(t), EncodeAll(ts) + end);
    assert EncodeAll(Cons(t, ts)) + end == Encode(t) + (EncodeAll(ts) + end);
  }

  lemma NoMore(buffer: seq<byte>, offset: nat)
    requires offset < |buffer| && buffer[offset] == BREAK
    ensures At(buffer, offset, EncodeAll(Nil) + [BREAK])
  {
    assert buffer[offset..offset + 1] == [BREAK] == EncodeAll(Nil) + [BREAK];
  }

  lemma {:induction false} ScannedChunks(buffer: seq<byte>, offset: nat, major: nat, depth: nat) returns (ts: Trees)
    requires ScanChunks(buffer, offset, major, depth).Done? && (major == 2 || major == 3) && depth <= 64
    ensures AllWellFormed(ts) && AllStrings(ts, major) && depth + HeightBelow(ts) <= 64
    ensures At(buffer, offset, EncodeAll(ts) + [BREAK])
    ensures ScanChunks(buffer, offset, major, depth) == Done(offset + |EncodeAll(ts)| + 1)
    decreases Left(buffer, offset), 2
  {
    hide ScanItem, Encode, WellFormed, Height;
    if buffer[offset] == BREAK {
      ts := Nil;
      NoMore(buffer, offset);
    } else {
      var t := ScannedIsEncoding(buffer, offset, depth + 1);
      var rest := ScannedChunks(buffer, offset + |Encode(t)|, major, depth);
      OneMore(buffer, offset, t, rest, [BREAK]);
      ts := Cons(t, rest);
    }
  }

  lemma {:induction false} ScannedStream(buffer: seq<byte>, offset: nat, major: nat, depth: nat) returns (ts: Trees)
    requires ScanUntilBreak(buffer, offset, major, depth).Done? && depth <= 64
    ensures AllWellFormed(ts) && depth + HeightBelow(ts) <= 64
    ensures At(buffer, offset, EncodeAll(ts) + [BREAK])
    ensures ScanUntilBreak(buffer, offset, major, depth) == Done(offset + |EncodeAll(ts)| + 1)
    decreases Left(buffer, offset), 2
  {
    hide ScanItem, Encode, WellFormed, Height;
    if buffer[offset] == BREAK {
      ts := Nil;
      NoMore(buffer, offset);
    } else {
      var t := ScannedIsEncoding(buffer, offset, depth + 1);
      var rest := ScannedStream(buffer, offset + |Encode(t)|, major, depth);
      OneMore(buffer, offset, t, rest, [BREAK]);
      ts := Cons(t, rest);
    }
  }

  lemma {:induction false} ScannedCount(buffer: seq<byte>, offset: nat, count: nat, depth: nat) returns (ts: Trees)
    requires ScanCount(buffer, offset, count, depth).Done? && depth <= 64 && offset <= |buffer|
    ensures AllWellFormed(ts) && depth + HeightBelow(ts) <= 64 && Length(ts) == count
    ensures At(buffer, offset, EncodeAll(ts))
    ensures ScanCount(buffer, offset, count, depth) == Done(offset + |EncodeAll(ts)|)
    decreases Left(buffer, offset), 2
  {
    hide ScanItem, Encode, WellFormed, Height;
    if count == 0 {
      ts := Nil;
    } else {
      var t := ScannedIsEncoding(buffer, offset, depth + 1);
      var rest := ScannedCount(buffer, offset + |Encode(t)|, count - 1, depth);
      assert EncodeAll(rest) + [] == EncodeAll(rest);
      OneMore(buffer, offset, t, rest, []);
      ts := Cons(t, rest);
      assert EncodeAll(ts) + [] == EncodeAll(ts);
    }
  }

  lemma FirstByte(buffer: seq<byte>, offset: nat, t: Tree)
    requires WellFormed(t) && At(buffer, offset, Encode(t))
    ensures buffer[offset] != BREAK && buffer[offset] / 32 == (if t.Tagged? then 6 else t.major)
    ensures buffer[offset] % 32 == 31 <==> t.Chunked? || t.Streamed?
  {
    assert buffer[offset] == buffer[offset..offset + |Encode(t)|][0] == Encode(t)[0];
  }

  lemma HeadIsUnique(buffer: seq<byte>, offset: nat, major: nat, g: Head, h: Head)
    requires major < 8 && HeadOk(g) && HeadOk(h)
    requires At(buffer, offset, EncodeHead(major, g)) && At(buffer, offset, EncodeHead(major, h))
    ensures g == h
  {
    HeadIsRead(buffer, offset, major, g);
    HeadIsRead(buffer, offset, major, h);
  }

  /** No byte string encodes two different trees, or a tree and a longer one. */
  lemma {:induction false} EncodingIsUnique(buffer: seq<byte>, offset: nat, t: Tree, u: Tree)
    requires WellFormed(t) && WellFormed(u) && At(buffer, offset, Encode(t)) && At(buffer, offset, Encode(u))
    ensures t == u
    decreases t, 1
  {
    hide EncodeHead, BigEndian, HeadOk;
    FirstByte(buffer, offset, t);
    FirstByte(buffer, offset, u);
    match t
    case Scalar(major, head) =>
      HeadIsUnique(buffer, offset, major, head, u.head);
    case Str(major, head, payload) =>
      AtSplit(buffer, offset, EncodeHead(major, head), payload);
      AtSplit(buffer, offset, EncodeHead(major, u.head), u.payload);
      HeadIsUnique(buffer, offset, major, head, u.head);
    case Chunked(major, chunks) =>
      StreamIsFramed(buffer, offset, major, chunks);
      StreamIsFramed(buffer, offset, major, u.chunks);
      StreamIsUnique(buffer, offset + 1, chunks, u.chunks);
    case Streamed(major, items) =>
      StreamIsFramed(buffer, offset, major, items);
      StreamIsFramed(buffer, offset, major, u.items);
      StreamIsUnique(buffer, offset + 1, items, u.items);
    case Collection(_, _, _) => CollectionIsUnique(buffer, offset, t, u);
    case Tagged(head, item) =>
      AtSplit(buffer, offset, EncodeHead(6, head), Encode(item));
      AtSplit(buffer, offset, EncodeHead(6, u.head), Encode(u.item));
      HeadIsUnique(buffer, offset, 6, head, u.head);
      EncodingIsUnique(buffer, offset + |EncodeHead(6, head)|, item, u.item);
  }

  lemma {:induction false} CollectionIsUnique(buffer: seq<byte>, offset: nat, t: Tree, u: Tree)
    requires t.Collection? && u.Collection? && t.major == u.major && WellFormed(t) && WellFormed(u)
    requires At(buffer, offset, Encode(t)) && At(buffer, offset, Encode(u))
    ensures t == u
    decreases t, 0
  {
    hide EncodeHead, BigEndian, HeadOk;
    AtSplit(buffer, offset, EncodeHead(t.major, t.head), EncodeAll(t.items));
    AtSplit(buffer, offset, EncodeHead(t.major, u.head), EncodeAll(u.items));
    HeadIsUnique(buffer, offset, t.major, t.head, u.head);
    CountIsUnique(buffer, offset + |EncodeHead(t.major, t.head)|, t.items, u.items);
  }

  lemma {:induction false} StreamIsUnique(buffer: seq<byte>, offset: nat, ts: Trees, us: Trees)
    requires AllWellFormed(ts) && AllWellFormed(us)
    requires At(buffer, offset, EncodeAll(ts) + [BREAK]) && At(buffer, offset, EncodeAll(us) + [BREAK])
    ensures ts == us
    decreases ts, 0
  {
    hide Encode, WellFormed;
    if ts.Nil? || us.Nil? {
      BreakIsNext(buffer, offset);
      if !ts.Nil? { FirstOfMany(buffer, offset, ts, [BREAK]); FirstByte(buffer, offset, ts.first); }
      if !us.Nil? { FirstOfMany(buffer, offset, us, [BREAK]); FirstByte(buffer, offset, us.first); }
    } else {
      FirstOfMany(buffer, offset, ts, [BREAK]);
      FirstOfMany(buffer, offset, us, [BREAK]);
      EncodingIsUnique(buffer, offset, ts.first, us.first);
      StreamIsUnique(buffer, offset + |Encode(ts.first)|, ts.rest, us.rest);
    }
  }

  lemma {:induction false} CountIsUnique(buffer: seq<byte>, offset: nat, ts: Trees, us: Trees)
    requires Length(ts) == Length(us) && AllWellFormed(ts) && AllWellFormed(us)
    requires At(buffer, offset, EncodeAll(ts)) && At(buffer, offset, EncodeAll(us))
    ensures ts == us
    decreases ts, 0
  {
    hide Encode, WellFormed;
    if !ts.Nil? {
      AtSplit(buffer, offset, Encode(ts.first), EncodeAll(ts.rest));
      AtSplit(buffer, offset, Encode(us.first), EncodeAll(us.rest));
      EncodingIsUnique(buffer, offset, ts.first, us.first);
      CountIsUnique(buffer, offset + |Encode(ts.first)|, ts.rest, us.rest);
    }
  }

  // ---------- What a caller sees ----------

  /** The buffer holds, from `offset` to `end`, the encoding of a tree within the limits. */
  ghost predicate HoldsItem(buffer: seq<byte>, offset: nat, end: nat, depth: nat) {
    exists t: Tree ::
        WellFormed(t) && depth + Height(t) <= 64 && At(buffer, offset, Encode(t)) && end == offset + |Encode(t)|
  }

  /** The scanner succeeds exactly on the grammar, and stops exactly where the encoding stops. */
  lemma ScannerIsGrammar(buffer: seq<byte>, offset: nat, end: nat, depth: nat)
    ensures ScanItem(buffer, offset, depth) == Done(end) <==> HoldsItem(buffer, offset, end, depth)
  {
    if ScanItem(buffer, offset, depth) == Done(end) {
      var t := ScannedIsEncoding(buffer, offset, depth);
    }
    if HoldsItem(buffer, offset, end, depth) {
      var t: Tree :| WellFormed(t) && depth + Height(t) <= 64 && At(buffer, offset, Encode(t))
          && end == offset + |Encode(t)|;
      EncodingIsScanned(buffer, offset, t, depth);
    }
  }

  /** Round trip: an encoding between any prefix and any suffix is scanned from its first to its last byte. */
  lemma RoundTrip(prefix: seq<byte>, t: Tree, suffix: seq<byte>)
    requires WellFormed(t) && Height(t) <= 64
    ensures ScanItem(prefix + Encode(t) + suffix, |prefix|, 0) == Done(|prefix| + |Encode(t)|)
  {
    var buffer := prefix + Encode(t) + suffix;
    assert buffer[|prefix|..|prefix| + |Encode(t)|] == Encode(t);
    EncodingIsScanned(buffer, |prefix|, t, 0);
  }

  /** The result depends only on the bytes consumed: any other buffer holding them scans the same way. */
  lemma OnlyConsumedBytesMatter(buffer: seq<byte>, offset: nat, depth: nat, other: seq<byte>, at: nat)
    requires ScanItem(buffer, offset, depth).Done?
    requires At(other, at, buffer[offset..ScanItem(buffer, offset, depth).offset])
    ensures ScanItem(other, at, depth) == Done(at + ScanItem(buffer, offset, depth).offset - offset)
  {
    hide ScanItem, Encode, At;
    var t := ScannedIsEncoding(buffer, offset, depth);
    AtIs(buffer, offset, Encode(t));
    EncodingIsScanned(other, at, t, depth);
  }

  lemma AtIs(buffer: seq<byte>, offset: nat, s: seq<byte>)
    requires At(buffer, offset, s)
    ensures offset + |s| <= |buffer| && buffer[offset..offset + |s|] == s
  {
  }

  /** Cutting the buffer anywhere inside the item makes the scan fail: no item is a prefix of another. */
  lemma StrictPrefixFails(buffer: seq<byte>, offset: nat, depth: nat, cut: nat)
    requires ScanItem(buffer, offset, depth).Done? && cut < ScanItem(buffer, offset, depth).offset
    ensures ScanItem(buffer[..cut], offset, depth).Failed?
  {
    if ScanItem(buffer[..cut], offset, depth).Done? {
      var end := ScanItem(buffer[..cut], offset, depth).offset;
      assert buffer[..cut][offset..end] == buffer[offset..end];
      OnlyConsumedBytesMatter(buffer[..cut], offset, depth, buffer, offset);
    }
  }

  /** The nesting limit is exact: the same tree is refused as soon as it lies too deep. */
  lemma DepthLimitIsExact(t: Tree, depth: nat)
    requires WellFormed(t)
    ensures ScanItem(Encode(t), 0, depth).Done? <==> depth + Height(t) <= 64
  {
    var buffer := Encode(t);
    assert buffer[0..|buffer|] == buffer;
    if depth + Height(t) <= 64 {
      EncodingIsScanned(buffer, 0, t, depth);
    } else if ScanItem(buffer, 0, depth).Done? {
      var u := ScannedIsEncoding(buffer, 0, depth);
      EncodingIsUnique(buffer, 0, t, u);
    }
  }

  predicate AllWithin(ts: Trees) {
    AllWellFormed(ts) && HeightBelow(ts) <= 1 + 64
  }

  /** A payload is accepted exactly when it is a non-empty sequence of encoded items (RFC 8742, section 2). */
  lemma AcceptsIsSequences(buffer: seq<byte>)
    ensures Accepts(buffer) <==> exists ts: Trees :: !ts.Nil? && AllWithin(ts) && buffer == EncodeAll(ts)
  {
    if Accepts(buffer) {
      var ts := PayloadIsSequence(buffer, 0);
      assert buffer[0..] == buffer;
    }
    if ts: Trees :| !ts.Nil? && AllWithin(ts) && buffer == EncodeAll(ts) {
      assert buffer[0..] == buffer;
      SequenceIsPayload(buffer, 0, ts);
    }
  }

  lemma {:induction false} PayloadIsSequence(buffer: seq<byte>, offset: nat) returns (ts: Trees)
    requires offset <= |buffer| && ScanPayload(buffer, offset).Done?
    ensures AllWithin(ts) && buffer[offset..] == EncodeAll(ts)
    decreases |buffer| - offset
  {
    hide ScanItem, Encode, WellFormed, Height;
    if offset == |buffer| {
      ts := Nil;
    } else {
      var t := ScannedIsEncoding(buffer, offset, 0);
      var next := offset + |Encode(t)|;
      var rest := PayloadIsSequence(buffer, next);
      ts := Cons(t, rest);
      assert buffer[offset..] == buffer[offset..next] + buffer[next..];
    }
  }

  lemma {:induction false} SequenceIsPayload(buffer: seq<byte>, offset: nat, ts: Trees)
    requires offset <= |buffer| && AllWithin(ts) && buffer[offset..] == EncodeAll(ts)
    ensures ScanPayload(buffer, offset).Done?
    decreases ts
  {
    if !ts.Nil? {
      var next := offset + |Encode(ts.first)|;
      assert buffer[offset..next] == buffer[offset..][..|Encode(ts.first)|];
      EncodingIsScanned(buffer, offset, ts.first, 0);
      assert buffer[next..] == buffer[offset..][|Encode(ts.first)|..];
      SequenceIsPayload(buffer, next, ts.rest);
    }
  }
}
