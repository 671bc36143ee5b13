// The RGBA PNG encoder: chunk framing by length and CRC, the scanline buffer
// with its filter bytes, and an independent decoder that undoes both
// (sections 3.1, 3.2 and 4.1 of RFC 2083). Deflate is a parameter.
module Png {
  import opened Bytes
  import opened Checksum

  // ---------------------------------------------------------------------
  // Chunks
  // ---------------------------------------------------------------------

  datatype Chunk = Chunk(kind: seq<byte>, data: seq<byte>) {
    predicate Valid() {
      |kind| == 4 && |data| <= UINT32_MAX
    }

    function Body(): seq<byte> {
      kind + data
    }
  }

  function CrcField(body: seq<byte>): (s: seq<byte>)
    ensures |s| == 4
  {
    WriteUInt32BE(BitSerialCrc(body) as nat)
  }

  function Frame(c: Chunk): seq<byte>
    requires c.Valid()
  {
    WriteUInt32BE(|c.data|) + c.Body() + CrcField(c.Body())
  }

  function FrameAll(cs: seq<Chunk>): seq<byte>
    requires forall c <- cs :: c.Valid()
  {
    if cs == [] then [] else Frame(cs[0]) + FrameAll(cs[1..])
  }

  /** Reads one chunk off the front, or refuses: too short, or a wrong CRC. */
  function ParseChunk(s: seq<byte>): (r: Option<(Chunk, seq<byte>)>)
    ensures r.Some? ==> r.value.0.Valid() && |r.value.1| < |s|
  {
    if |s| < 12 then None
    else
      var n := ReadUInt32BE(s[..4]);
      if |s| < 12 + n then None
      else
        var chunk := Chunk(s[4..8], s[8..8 + n]);
        if s[8 + n..12 + n] != CrcField(chunk.Body()) then None
        else LengthIsWord(s[..4]); Some((chunk, s[12 + n..]))
  }

  lemma LengthIsWord(s: seq<byte>)
    requires |s| == 4
    ensures ReadUInt32BE(s) <= UINT32_MAX
  {
    WriteAfterRead(s);
  }

  function ParseChunks(s: seq<byte>): (r: Option<seq<Chunk>>)
    ensures r.Some? ==> forall c <- r.value :: c.Valid()
    decreases |s|
  {
    if s == [] then Some([])
    else
      match ParseChunk(s)
      case None => None
      case Some((chunk, rest)) =>
        match ParseChunks(rest)
        case None => None
        case Some(cs) => Some([chunk] + cs)
  }

  lemma Slices<T>(length: seq<T>, kind: seq<T>, data: seq<T>, field: seq<T>, rest: seq<T>)
    requires |length| == |kind| == |field| == 4
    ensures var s, n := length + (kind + data) + field + rest, |data|;
            |s| == 12 + n + |rest| && s[..4] == length && s[4..8] == kind && s[8..8 + n] == data
            && s[8 + n..12 + n] == field && s[12 + n..] == rest
  {}

  lemma Joined<T>(s: seq<T>, n: nat)
    requires 12 + n <= |s|
    ensures s == s[..4] + (s[4..8] + s[8..8 + n]) + s[8 + n..12 + n] + s[12 + n..]
  {}

  lemma {:induction false} ParseFrame(c: Chunk, rest: seq<byte>)
    requires c.Valid()
    ensures ParseChunk(Frame(c) + rest) == Some((c, rest))
  {
    Slices(WriteUInt32BE(|c.data|), c.kind, c.data, CrcField(c.Body()), rest);
    ReadAfterWrite(|c.data|);
  }

  lemma {:induction false} FrameOfParse(s: seq<byte>)
    requires ParseChunk(s).Some?
    ensures var (c, rest) := ParseChunk(s).value; s == Frame(c) + rest
  {
    WriteAfterRead(s[..4]);
    Joined(s, ReadUInt32BE(s[..4]));
  }

  /** Framing loses nothing. */
  lemma {:induction false} ParseFrameAll(cs: seq<Chunk>)
    requires forall c <- cs :: c.Valid()
    ensures ParseChunks(FrameAll(cs)) == Some(cs)
  {
    if cs != [] {
      ParseFrame(cs[0], FrameAll(cs[1..]));
      ParseFrameAll(cs[1..]);
      assert cs == [cs[0]] + cs[1..];
    }
  }

  /** Framing is canonical: a byte string is the framing of at most one chunk list. */
  lemma {:induction false} FrameAllOfParse(s: seq<byte>)
    requires ParseChunks(s).Some?
    ensures FrameAll(ParseChunks(s).value) == s
    decreases |s|
  {
    if s != [] {
      var (c, rest) := ParseChunk(s).value;
      FrameOfParse(s);
      FrameAllOfParse(rest);
      assert ParseChunks(s).value[1..] == ParseChunks(rest).value;
    }
  }

  lemma {:induction false} WrongCrcRejected(length: nat, body: seq<byte>, field: seq<byte>, rest: seq<byte>)
    requires length <= UINT32_MAX && |body| == 4 + length
    requires |field| == 4 && field != CrcField(body)
    ensures ParseChunk(WriteUInt32BE(length) + body + field + rest) == None
  {
    Slices(WriteUInt32BE(length), body[..4], body[4..], field, rest);
    assert body[..4] + body[4..] == body;
    ReadAfterWrite(length);
  }

  lemma {:induction false} BadTailRejected(earlier: seq<Chunk>, tail: seq<byte>)
    requires forall c <- earlier :: c.Valid()
    requires tail != [] && ParseChunk(tail) == None
    ensures ParseChunks(FrameAll(earlier) + tail) == None
    decreases |earlier|
  {
    if earlier == [] {
      assert FrameAll(earlier) + tail == tail;
    } else {
      var others := FrameAll(earlier[1..]) + tail;
      assert FrameAll(earlier) + tail == Frame(earlier[0]) + others;
      ParseFrame(earlier[0], others);
      BadTailRejected(earlier[1..], tail);
    }
  }

  /**
   * Up to four consecutive wrong bytes anywhere in a chunk's type or data make
   * the whole chunk list unreadable, whatever comes before and after it.
   */
  lemma CorruptChunkRejected(
    earlier: seq<Chunk>, length: nat, before: seq<byte>, s: seq<byte>, t: seq<byte>, after: seq<byte>, rest: seq<byte>)
    requires forall c <- earlier :: c.Valid()
    requires |s| == |t| <= 4 && s != t
    requires length <= UINT32_MAX && |before + s + after| == 4 + length
    ensures ParseChunks(FrameAll(earlier)
                        + (WriteUInt32BE(length) + (before + t + after) + CrcField(before + s + after) + rest)) == None
  {
    if CrcField(before + s + after) == CrcField(before + t + after) {
      SameCrcField(before + s + after, before + t + after);
      BurstDetected(before, s, t, after);
    }
    WrongCrcRejected(length, before + t + after, CrcField(before + s + after), rest);
    BadTailRejected(earlier, WriteUInt32BE(length) + (before + t + after) + CrcField(before + s + after) + rest);
  }

  lemma SameCrcField(m: seq<byte>, n: seq<byte>)
    requires CrcField(m) == CrcField(n)
    ensures BitSerialCrc(m) == BitSerialCrc(n)
  {
    ReadAfterWrite(BitSerialCrc(m) as nat);
    ReadAfterWrite(BitSerialCrc(n) as nat);
    WordBack(BitSerialCrc(m));
    WordBack(BitSerialCrc(n));
  }

  lemma WordBack(w: word)
    ensures (w as nat) as word == w
  {}

  // ---------------------------------------------------------------------
  // Scanlines
  // ---------------------------------------------------------------------

  /** Scanlines hold one filter byte and four bytes a pixel. */
  function RawBytes(width: nat, rows: nat): nat {
    rows * (width * 4 + 1)
  }

  function PixelBytes(width: nat, rows: nat): nat {
    rows * (width * 4)
  }

  lemma NextMultiple(size: nat, height: nat, y: nat)
    requires y < height
    ensures (y + 1) * size == y * size + size
    ensures y * size + size <= height * size
  {
    var left := height - y - 1;
    assert height * size == (y + 1 + left) * size == (y + 1) * size + left * size;
    assert left * size >= 0;
  }

  lemma NextRow(width: nat, height: nat, y: nat)
    requires y < height
    ensures PixelBytes(width, y + 1) == PixelBytes(width, y) + width * 4 <= PixelBytes(width, height)
    ensures RawBytes(width, y + 1) == RawBytes(width, y) + 1 + width * 4 <= RawBytes(width, height)
  {
    NextMultiple(width * 4, height, y);
    NextMultiple(width * 4 + 1, height, y);
  }

  /** The first `rows` scanlines of the picture, each behind a zero filter byte. */
  function Filtered(rgba: seq<byte>, width: nat, rows: nat): (raw: seq<byte>)
    requires PixelBytes(width, rows) <= |rgba|
    ensures |raw| == RawBytes(width, rows)
  {
    if rows == 0 then []
    else
      Filtered(rgba, width, rows - 1) + [0 as byte] + rgba[PixelBytes(width, rows - 1)..PixelBytes(width, rows)]
  }

  /** Takes the filter bytes out again; refuses any filter but 0. */
  function Unfiltered(raw: seq<byte>, width: nat, rows: nat): (r: Option<seq<byte>>)
    decreases rows
  {
    if |raw| != RawBytes(width, rows) then None
    else if rows == 0 then Some([])
    else
      var start := RawBytes(width, rows - 1);
      match Unfiltered(raw[..start], width, rows - 1)
      case None => None
      case Some(above) => if raw[start] != 0 then None else Some(above + raw[start + 1..])
  }

  lemma {:induction false} UnfilterFiltered(rgba: seq<byte>, width: nat, rows: nat)
    requires PixelBytes(width, rows) <= |rgba|
    ensures Unfiltered(Filtered(rgba, width, rows), width, rows) == Some(rgba[..PixelBytes(width, rows)])
  {
    if rows > 0 {
      NextRow(width, rows, rows - 1);
      var from, to := PixelBytes(width, rows - 1), PixelBytes(width, rows);
      var above := Filtered(rgba, width, rows - 1);
      var row := rgba[from..to];
      UnfilterFiltered(rgba, width, rows - 1);
      LastRow(above, row);
      assert rgba[..to] == rgba[..from] + row;
    }
  }

  lemma LastRow(above: seq<byte>, row: seq<byte>)
    ensures var raw, n := above + [0] + row, |above|; raw[..n] == above && raw[n] == 0 && raw[n + 1..] == row
  {}

  // ---------------------------------------------------------------------
  // The image
  // ---------------------------------------------------------------------

  datatype Image = Image(width: nat, height: nat, rgba: seq<byte>)

  const SIGNATURE: seq<byte> := [0x89, 0x50, 0x4e, 0x47, 0x0d, 0x0a, 0x1a, 0x0a]
  const IHDR: seq<byte> := [0x49, 0x48, 0x44, 0x52]
  const IDAT: seq<byte> := [0x49, 0x44, 0x41, 0x54]
  const IEND: seq<byte> := [0x49, 0x45, 0x4e, 0x44]

  /** The data of all the chunks joined, provided every one of them is IDAT. */
  function JoinIdat(cs: seq<Chunk>): Option<seq<byte>> {
    if cs == [] then Some([])
    else if cs[0].kind != IDAT then None
    else
      match JoinIdat(cs[1..])
      case None => None
      case Some(rest) => Some(cs[0].data + rest)
  }

  /** Bit depth 8, colour type 6 (RGBA), and the only compression, filter and interlace the encoder names. */
  predicate RgbaHeader(data: seq<byte>) {
    |data| == 13 && data[8..] == [8, 6, 0, 0, 0]
  }

  /** What section 4.1 of RFC 2083 prescribes: IHDR first, IDAT between, an empty IEND last. */
  function DecodeChunks(inflate: seq<byte> -> Option<seq<byte>>, cs: seq<Chunk>): Option<Image> {
    if |cs| < 2 || cs[0].kind != IHDR || cs[|cs| - 1] != Chunk(IEND, []) || !RgbaHeader(cs[0].data) then None
    else
      match JoinIdat(cs[1..|cs| - 1])
      case None => None
      case Some(z) =>
        match inflate(z)
        case None => None
        case Some(raw) => DecodePixels(cs[0].data, raw)
  }

  function DecodePixels(header: seq<byte>, raw: seq<byte>): Option<Image>
    requires RgbaHeader(header)
  {
    var width, height := ReadUInt32BE(header[..4]), ReadUInt32BE(header[4..8]);
    match Unfiltered(raw, width, height)
    case None => None
    case Some(rgba) => Some(Image(width, height, rgba))
  }

  /** An independent decoder. */
  function Decode(inflate: seq<byte> -> Option<seq<byte>>, png: seq<byte>): Option<Image> {
    if !(SIGNATURE <= png) then None
    else
      match ParseChunks(png[8..])
      case None => None
      case Some(cs) => DecodeChunks(inflate, cs)
  }

  function Header(width: nat, height: nat): seq<byte>
    requires width <= UINT32_MAX && height <= UINT32_MAX
  {
    WriteUInt32BE(width) + WriteUInt32BE(height) + [8, 6, 0, 0, 0]
  }

  function ImageChunks(width: nat, height: nat, z: seq<byte>): (cs: seq<Chunk>)
    requires width <= UINT32_MAX && height <= UINT32_MAX && |z| <= UINT32_MAX
    ensures forall c <- cs :: c.Valid()
  {
    [Chunk(IHDR, Header(width, height)), Chunk(IDAT, z), Chunk(IEND, [])]
  }

  lemma HeaderFields(width: nat, height: nat)
    requires width <= UINT32_MAX && height <= UINT32_MAX
    ensures var h := Header(width, height);
            RgbaHeader(h) && ReadUInt32BE(h[..4]) == width && ReadUInt32BE(h[4..8]) == height
  {
    var h := Header(width, height);
    assert h[..4] == WriteUInt32BE(width) && h[4..8] == WriteUInt32BE(height) && h[8..] == [8, 6, 0, 0, 0];
    ReadAfterWrite(width);
    ReadAfterWrite(height);
  }

  lemma JoinOne(z: seq<byte>)
    ensures JoinIdat([Chunk(IDAT, z)]) == Some(z)
  {
    assert [Chunk(IDAT, z)][1..] == [];
    assert z + [] == z;
  }

  /** Reading back the three chunks: nothing about the picture is lost on the way to inflate. */
  lemma DecodeImageChunks(
    inflate: seq<byte> -> Option<seq<byte>>, width: nat, height: nat, z: seq<byte>, raw: seq<byte>, rgba: seq<byte>)
    requires width <= UINT32_MAX && height <= UINT32_MAX && |z| <= UINT32_MAX
    requires inflate(z) == Some(raw) && Unfiltered(raw, width, height) == Some(rgba)
    ensures DecodeChunks(inflate, ImageChunks(width, height, z)) == Some(Image(width, height, rgba))
  {
    HeaderFields(width, height);
    assert ImageChunks(width, height, z)[1..2] == [Chunk(IDAT, z)];
    JoinOne(z);
  }

  lemma DecodeFramed(inflate: seq<byte> -> Option<seq<byte>>, cs: seq<Chunk>)
    requires forall c <- cs :: c.Valid()
    ensures Decode(inflate, SIGNATURE + FrameAll(cs)) == DecodeChunks(inflate, cs)
  {
    var png := SIGNATURE + FrameAll(cs);
    assert SIGNATURE <= png && png[8..] == FrameAll(cs);
    ParseFrameAll(cs);
  }

  lemma FrameCons(c: Chunk, rest: seq<Chunk>)
    requires c.Valid() && forall d <- rest :: d.Valid()
    ensures FrameAll([c] + rest) == Frame(c) + FrameAll(rest)
  {
    assert ([c] + rest)[1..] == rest;
  }

  lemma Appended<T>(a: seq<T>, b: seq<T>, c: seq<T>)
    ensures a + (b + (c + [])) == a + b + c
  {}

  lemma FrameThree(a: Chunk, b: Chunk, c: Chunk)
    requires a.Valid() && b.Valid() && c.Valid()
    ensures FrameAll([a, b, c]) == Frame(a) + Frame(b) + Frame(c)
  {
    FrameCons(c, []);
    FrameCons(b, [c]);
    FrameCons(a, [b, c]);
    assert [c] + [] == [c] && [b] + [c] == [b, c] && [a] + [b, c] == [a, b, c];
    Appended(Frame(a), Frame(b), Frame(c));
  }

  function ImageBytes(width: nat, height: nat, z: seq<byte>): seq<byte>
    requires width <= UINT32_MAX && height <= UINT32_MAX && |z| <= UINT32_MAX
  {
    SIGNATURE + FrameAll(ImageChunks(width, height, z))
  }

  /** The three frames decode to the picture whose scanlines were deflated to `z`. */
  lemma ImageBytesDecode(
    inflate: seq<byte> -> Option<seq<byte>>, width: nat, height: nat, rgba: seq<byte>, z: seq<byte>)
    requires width <= UINT32_MAX && height <= UINT32_MAX && |z| <= UINT32_MAX
    requires PixelBytes(width, height) <= |rgba|
    requires inflate(z) == Some(Filtered(rgba, width, height))
    ensures Decode(inflate, ImageBytes(width, height, z)) == Some(Image(width, height, rgba[..PixelBytes(width, height)]))
  {
    UnfilterFiltered(rgba, width, height);
    DecodeFramed(inflate, ImageChunks(width, height, z));
    DecodeImageChunks(inflate, width, height, z, Filtered(rgba, width, height), rgba[..PixelBytes(width, height)]);
  }

  lemma FrameIs(kind: seq<byte>, data: seq<byte>)
    requires |kind| == 4 && |data| <= UINT32_MAX
    ensures Frame(Chunk(kind, data)) ==
            WriteUInt32BE(|data|) + (kind + data) + WriteUInt32BE(BitSerialCrc(kind + data) as nat)
  {}

  /** The file byte by byte (sections 3.1, 3.2 and 4.1 of RFC 2083): signature, IHDR, IDAT, IEND. */
  lemma ImageLayout(width: nat, height: nat, z: seq<byte>)
    requires width <= UINT32_MAX && height <= UINT32_MAX && |z| <= UINT32_MAX
    ensures var ihdr := Chunk([73, 72, 68, 82], WriteUInt32BE(width) + WriteUInt32BE(height) + [8, 6, 0, 0, 0]);
            var idat, iend := Chunk([73, 68, 65, 84], z), Chunk([73, 69, 78, 68], []);
            && ihdr.Valid()
            && ImageBytes(width, height, z) ==
               [137, 80, 78, 71, 13, 10, 26, 10] + Frame(ihdr) + Frame(idat) + Frame(iend)
  {
    var cs := ImageChunks(width, height, z);
    FrameThree(cs[0], cs[1], cs[2]);
    assert cs == [cs[0], cs[1], cs[2]];
    Associate(SIGNATURE, Frame(cs[0]), Frame(cs[1]), Frame(cs[2]));
  }

  lemma EndChecksumBytes()
    ensures WriteUInt32BE(BitSerialCrc([73, 69, 78, 68]) as nat) == [0xae, 0x42, 0x60, 0x82]
  {
    KnownChecksum();
    EndNumber(BitSerialCrc([73, 69, 78, 68]));
    WriteAfterRead([0xae, 0x42, 0x60, 0x82]);
  }

  lemma EndNumber(c: word)
    requires c == 0xae42_6082
    ensures c as nat == ReadUInt32BE([0xae, 0x42, 0x60, 0x82])
  {}

  /** The last twelve bytes of every file. */
  lemma EndFrame()
    ensures Frame(Chunk([73, 69, 78, 68], [])) ==
            [0, 0, 0, 0] + [73, 69, 78, 68] + [0xae, 0x42, 0x60, 0x82]
  {
    var letters: seq<byte> := [73, 69, 78, 68];
    EndChecksumBytes();
    FrameIs(letters, []);
    assert letters + [] == letters;
    WriteAfterRead([0, 0, 0, 0]);
  }

  lemma Associate<T>(a: seq<T>, b: seq<T>, c: seq<T>, d: seq<T>)
    ensures a + (b + c + d) == a + b + c + d
  {}

  // --- what the decoder accepts -----------------------------------------------------------

  lemma OneMoreRow(above: seq<byte>, row: seq<byte>, width: nat, rows: nat)
    requires |above| == PixelBytes(width, rows) && |row| == width * 4
    ensures PixelBytes(width, rows + 1) == |above + row|
    ensures Filtered(above + row, width, rows + 1) == Filtered(above, width, rows) + [0] + row
  {
    NextRow(width, rows + 1, rows);
    FilteredPrefix(above, row, width, rows);
    assert (above + row)[|above|..|above + row|] == row;
  }

  lemma SplitRow(raw: seq<byte>, start: nat)
    requires start < |raw| && raw[start] == 0
    ensures raw == raw[..start] + [0] + raw[start + 1..]
  {}

  /** Scanlines that unfilter are the filtering of what comes out. */
  lemma {:induction false} FilteredUnfiltered(raw: seq<byte>, width: nat, rows: nat)
    requires Unfiltered(raw, width, rows).Some?
    ensures var rgba := Unfiltered(raw, width, rows).value;
            |rgba| == PixelBytes(width, rows) && Filtered(rgba, width, rows) == raw
    decreases rows
  {
    if rows > 0 {
      NextRow(width, rows, rows - 1);
      var start := RawBytes(width, rows - 1);
      var above, row := Unfiltered(raw[..start], width, rows - 1).value, raw[start + 1..];
      FilteredUnfiltered(raw[..start], width, rows - 1);
      OneMoreRow(above, row, width, rows - 1);
      SplitRow(raw, start);
    } else {
      assert raw == [];
    }
  }

  lemma {:induction false} FilteredPrefix(rgba: seq<byte>, more: seq<byte>, width: nat, rows: nat)
    requires PixelBytes(width, rows) <= |rgba|
    ensures Filtered(rgba + more, width, rows) == Filtered(rgba, width, rows)
    decreases rows
  {
    if rows > 0 {
      NextRow(width, rows, rows - 1);
      FilteredPrefix(rgba, more, width, rows - 1);
      var from, to := PixelBytes(width, rows - 1), PixelBytes(width, rows);
      assert (rgba + more)[from..to] == rgba[from..to];
    }
  }

  lemma {:induction false} JoinedAreIdat(cs: seq<Chunk>)
    ensures JoinIdat(cs).Some? <==> forall c <- cs :: c.kind == IDAT
    decreases |cs|
  {
    if cs != [] {
      JoinedAreIdat(cs[1..]);
      assert cs == [cs[0]] + cs[1..];
    }
  }

  lemma HeaderOfFields(data: seq<byte>)
    requires RgbaHeader(data)
    ensures ReadUInt32BE(data[..4]) <= UINT32_MAX && ReadUInt32BE(data[4..8]) <= UINT32_MAX
    ensures data == Header(ReadUInt32BE(data[..4]), ReadUInt32BE(data[4..8]))
  {
    WriteAfterRead(data[..4]);
    WriteAfterRead(data[4..8]);
    assert data == data[..4] + data[4..8] + data[8..];
  }

  lemma PixelsOf(header: seq<byte>, raw: seq<byte>)
    requires RgbaHeader(header) && DecodePixels(header, raw).Some?
    ensures var image := DecodePixels(header, raw).value;
            && image.width <= UINT32_MAX && image.height <= UINT32_MAX
            && header == Header(image.width, image.height)
            && |image.rgba| == PixelBytes(image.width, image.height)
            && raw == Filtered(image.rgba, image.width, image.height)
  {
    HeaderOfFields(header);
    FilteredUnfiltered(raw, ReadUInt32BE(header[..4]), ReadUInt32BE(header[4..8]));
  }

  /** The picture is the one whose scanlines the IDAT chunks hold. */
  ghost predicate Holds(inflate: seq<byte> -> Option<seq<byte>>, idats: seq<Chunk>, image: Image) {
    && image.width <= UINT32_MAX && image.height <= UINT32_MAX
    && |image.rgba| == PixelBytes(image.width, image.height)
    && (forall c <- idats :: c.Valid() && c.kind == IDAT) && JoinIdat(idats).Some?
    && inflate(JoinIdat(idats).value) == Some(Filtered(image.rgba, image.width, image.height))
  }

  lemma ImageOfChunks(inflate: seq<byte> -> Option<seq<byte>>, cs: seq<Chunk>) returns (idats: seq<Chunk>)
    requires (forall c <- cs :: c.Valid()) && DecodeChunks(inflate, cs).Some?
    ensures var image := DecodeChunks(inflate, cs).value;
            && Holds(inflate, idats, image)
            && cs == [Chunk(IHDR, Header(image.width, image.height))] + idats + [Chunk(IEND, [])]
  {
    idats := cs[1..|cs| - 1];
    JoinedAreIdat(idats);
    PixelsOf(cs[0].data, inflate(JoinIdat(idats).value).value);
    assert cs == [cs[0]] + idats + [cs[|cs| - 1]];
  }

  /**
   * The decoder is strict: what it accepts is the signature, the one header the
   * encoder writes, IDAT chunks only, and an empty IEND, each with its checksum,
   * and the inflated data are the picture's scanlines.
   */
  lemma DecodedIsEncoded(inflate: seq<byte> -> Option<seq<byte>>, png: seq<byte>) returns (idats: seq<Chunk>)
    requires Decode(inflate, png).Some?
    ensures var image := Decode(inflate, png).value;
            && Holds(inflate, idats, image)
            && png == SIGNATURE + FrameAll([Chunk(IHDR, Header(image.width, image.height))] + idats + [Chunk(IEND, [])])
  {
    var cs := ParseChunks(png[8..]).value;
    FrameAllOfParse(png[8..]);
    idats := ImageOfChunks(inflate, cs);
    assert Decode(inflate, png) == DecodeChunks(inflate, cs);
    assert png == png[..8] + png[8..] && png[..8] == SIGNATURE;
  }

  // ---------------------------------------------------------------------
  // The encoder
  // ---------------------------------------------------------------------

  method MakeChunk(crcTable: array<word>, kind: seq<byte>, data: seq<byte>) returns (chunk: Option<seq<byte>>)
    requires IsCrcTable(crcTable[..]) && |kind| == 4
    ensures chunk == if |data| <= UINT32_MAX then Some(Frame(Chunk(kind, data))) else None
  {
    if |data| > UINT32_MAX {
      return None;
    }
    var len := WriteUInt32BE(|data|);
    var body := kind + data;
    var crc := Crc32(crcTable, body);
    return Some(len + body + WriteUInt32BE(crc as nat));
  }

  /** The scanline buffer, written row by row at the offsets y * (width * 4 + 1). */
  method FilterRows(width: nat, height: nat, rgba: array<byte>) returns (raw: array<byte>)
    requires PixelBytes(width, height) <= rgba.Length
    ensures fresh(raw) && raw[..] == Filtered(rgba[..], width, height)
  {
    raw := new byte[RawBytes(width, height)](_ => 0);
    var y := 0;
    while y < height
      invariant y <= height && RawBytes(width, y) <= raw.Length && PixelBytes(width, y) <= rgba.Length
      invariant raw[..RawBytes(width, y)] == Filtered(rgba[..], width, y)
    {
      NextRow(width, height, y);
      FilterRow(raw, rgba, width, y);
      y := y + 1;
    }
    assert raw[..] == raw[..RawBytes(width, height)];
  }

  /** Row y: the rows before it stay, its filter byte and pixels follow them. */
  method FilterRow(raw: array<byte>, rgba: array<byte>, width: nat, y: nat)
    requires raw != rgba && RawBytes(width, y) + 1 + width * 4 == RawBytes(width, y + 1) <= raw.Length
    requires PixelBytes(width, y) + width * 4 == PixelBytes(width, y + 1) <= rgba.Length
    requires raw[..RawBytes(width, y)] == Filtered(rgba[..], width, y)
    modifies raw
    ensures raw[..RawBytes(width, y + 1)] == Filtered(rgba[..], width, y + 1)
  {
    var start, from := RawBytes(width, y), PixelBytes(width, y);
    CopyRow(raw, start, rgba, from, width * 4);
    assert rgba[..][from..from + width * 4] == rgba[from..from + width * 4];
  }

  /** A zero filter byte at `start`, then `n` pixel bytes. */
  method CopyRow(raw: array<byte>, start: nat, rgba: array<byte>, from: nat, n: nat)
    requires raw != rgba && start + 1 + n <= raw.Length && from + n <= rgba.Length
    modifies raw
    ensures raw[..start + 1 + n] == old(raw[..start]) + [0] + rgba[from..from + n]
  {
    raw[start] := 0;
    forall x | 0 <= x < n {
      raw[start + 1 + x] := rgba[from + x];
    }
  }

  /**
   * Main result: whatever the encoder returns decodes to the width, the height
   * and the pixels it was given; it throws exactly on the sizes that the
   * 32-bit fields, the pixel buffer or the largest buffer there is cannot hold.
   */
  method EncodePng(
    deflate: seq<byte> -> seq<byte>, ghost inflate: seq<byte> -> Option<seq<byte>>,
    width: nat, height: nat, rgba: array<byte>, maxBuffer: nat) returns (png: Option<seq<byte>>)
    ensures png.Some? <==>
            && width <= 0xffff_ffff && height <= 0xffff_ffff
            && height * (width * 4 + 1) <= maxBuffer && height * (width * 4) <= rgba.Length
            && |deflate(Filtered(rgba[..], width, height))| <= 0xffff_ffff
    ensures png.Some? && inflate(deflate(Filtered(rgba[..], width, height))) == Some(Filtered(rgba[..], width, height))
            ==> Decode(inflate, png.value) == Some(Image(width, height, rgba[..PixelBytes(width, height)]))
  {
    var crcTable := MakeCrcTable();
    if width > UINT32_MAX || height > UINT32_MAX {
      return None;
    }
    if RawBytes(width, height) > maxBuffer || PixelBytes(width, height) > rgba.Length {
      return None;
    }
    var raw := FilterRows(width, height, rgba);
    var z := deflate(raw[..]);
    png := Assemble(crcTable, width, height, z);
    if png.Some? && inflate(z) == Some(raw[..]) {
      ImageBytesDecode(inflate, width, height, rgba[..], z);
      assert rgba[..][..PixelBytes(width, height)] == rgba[..PixelBytes(width, height)];
    }
  }

  /** Signature, IHDR, the deflated scanlines, IEND. */
  method Assemble(crcTable: array<word>, width: nat, height: nat, z: seq<byte>) returns (png: Option<seq<byte>>)
    requires IsCrcTable(crcTable[..]) && width <= UINT32_MAX && height <= UINT32_MAX
    ensures png == if |z| <= UINT32_MAX then Some(ImageBytes(width, height, z)) else None
  {
    var ihdr := MakeHeader(width, height);
    var header := MakeChunk(crcTable, IHDR, ihdr[..]);
    var pixels := MakeChunk(crcTable, IDAT, z);
    var end := MakeChunk(crcTable, IEND, []);
    if pixels.None? {
      return None;
    }
    FrameThree(Chunk(IHDR, ihdr[..]), Chunk(IDAT, z), Chunk(IEND, []));
    png := Some(SIGNATURE + (header.value + pixels.value + end.value));
  }

  method PutUInt32BE(buf: array<byte>, offset: nat, n: nat)
    requires n <= UINT32_MAX && offset + 4 <= buf.Length
    modifies buf
    ensures buf[..] == old(buf[..offset]) + WriteUInt32BE(n) + old(buf[offset + 4..])
  {
    var w := WriteUInt32BE(n);
    forall i | 0 <= i < 4 {
      buf[offset + i] := w[i];
    }
  }

  /** The 13 bytes of IHDR; bytes 10 to 12 stay zero. */
  method MakeHeader(width: nat, height: nat) returns (ihdr: array<byte>)
    requires width <= UINT32_MAX && height <= UINT32_MAX
    ensures fresh(ihdr) && ihdr[..] == Header(width, height)
  {
    ihdr := new byte[13](_ => 0);
    PutUInt32BE(ihdr, 0, width);
    PutUInt32BE(ihdr, 4, height);
    ghost var fields := ihdr[..8];
    ihdr[8] := 8;
    ihdr[9] := 6;
    assert ihdr[..8] == fields == WriteUInt32BE(width) + WriteUInt32BE(height);
    assert ihdr[..] == ihdr[..8] + [8, 6, 0, 0, 0];
  }
}
