/**
 The PNG writer of the guest agent against a reader, for any compressor with
 an inverse and any checksum.
 */
module Png {
  import opened Options

  type Byte = x: int | 0 <= x < 256

  const TWO_32: int := 0x1_0000_0000

  /** zlib, as far as the writer and the reader use it. */
  datatype Zlib = Zlib(compress: seq<Byte> -> seq<Byte>, decompress: seq<Byte> -> seq<Byte>, crc32: seq<Byte> -> nat)

  ghost predicate Lossless(z: Zlib) {
    forall s: seq<Byte> :: z.decompress(z.compress(s)) == s
  }

  const SIGNATURE: seq<Byte> := [0x89, 0x50, 0x4E, 0x47, 0x0D, 0x0A, 0x1A, 0x0A]
  const IHDR: seq<Byte> := [0x49, 0x48, 0x44, 0x52]
  const IDAT: seq<Byte> := [0x49, 0x44, 0x41, 0x54]
  const IEND: seq<Byte> := [0x49, 0x45, 0x4E, 0x44]

  // ---------------------------------------------------------------- big-endian words

  function Word(n: int): (w: seq<Byte>)
    requires 0 <= n < TWO_32
    ensures |w| == 4
  {
    [n / 0x100_0000, n / 0x1_0000 % 256, n / 0x100 % 256, n % 256]
  }

  function ReadWord(w: seq<Byte>): int
    requires |w| >= 4
  {
    (w[0] as int) * 0x100_0000 + (w[1] as int) * 0x1_0000 + (w[2] as int) * 0x100 + w[3] as int
  }

  lemma WordRoundTrip(n: int)
    requires 0 <= n < TWO_32
    ensures ReadWord(Word(n)) == n
  {
    var high, middle := n / 0x1_0000, n / 0x100;
    assert n == 256 * middle + n % 256;
    assert middle == 256 * high + middle % 256 && middle / 256 == high;
    assert high == 256 * (high / 256) + high % 256 && high / 256 == n / 0x100_0000;
  }

  // ---------------------------------------------------------------- writing

  /** _png_chunk. */
  function Chunk(z: Zlib, kind: seq<Byte>, data: seq<Byte>): seq<Byte>
    requires |kind| == 4 && |data| < TWO_32
  {
    Word(|data|) + kind + data + Word(z.crc32(kind + data) % TWO_32)
  }

  /** The first `rows` scanlines, each behind its filter byte 0. */
  function Scanlines(pixels: seq<Byte>, stride: nat, rows: nat): seq<Byte>
    requires |pixels| >= rows * stride
  {
    if rows == 0 then []
    else
      RowFits(stride, rows);
      Scanlines(pixels, stride, rows - 1) + [0] + pixels[(rows - 1) * stride..rows * stride]
  }

  lemma RowFits(stride: nat, rows: nat)
    requires rows > 0
    ensures 0 <= (rows - 1) * stride <= rows * stride && rows * stride == (rows - 1) * stride + stride
  {
  }

  function Header(width: int, height: int): seq<Byte>
    requires 0 <= width < TWO_32 && 0 <= height < TWO_32
  {
    Word(width) + Word(height) + [8, 2, 0, 0, 0]
  }

  predicate Encodable(z: Zlib, width: nat, height: nat, pixels: seq<Byte>) {
    && |pixels| == height * (width * 3)
    && width < TWO_32 && height < TWO_32
    && |z.compress(Scanlines(pixels, width * 3, height))| < TWO_32
  }

  /** What follows the signature: header, data, end. */
  function ThreeChunks(z: Zlib, header: seq<Byte>, compressed: seq<Byte>): seq<Byte>
    requires |header| < TWO_32 && |compressed| < TWO_32
  {
    Chunk(z, IHDR, header) + (Chunk(z, IDAT, compressed) + (Chunk(z, IEND, []) + []))
  }

  /** encode_png; it raises on a wrong pixel count or on a length that does not fit its 32-bit field. */
  function Encode(z: Zlib, width: nat, height: nat, pixels: seq<Byte>): Option<seq<Byte>> {
    if !Encodable(z, width, height, pixels) then None
    else Some(SIGNATURE + ThreeChunks(z, Header(width, height), z.compress(Scanlines(pixels, width * 3, height))))
  }

  /** The loop that puts a filter byte before every scanline. */
  method FilterRows(pixels: seq<Byte>, stride: nat, height: nat) returns (raw: seq<Byte>)
    requires |pixels| == height * stride
    ensures raw == Scanlines(pixels, stride, height)
  {
    raw := [];
    for row := 0 to height
      invariant row * stride <= |pixels|
      invariant raw == Scanlines(pixels, stride, row)
    {
      Ordered(row + 1, height, stride);
      RowFits(stride, row + 1);
      raw := raw + [0];
      raw := raw + pixels[row * stride..(row + 1) * stride];
    }
  }

  method EncodePng(z: Zlib, width: nat, height: nat, pixels: seq<Byte>) returns (png: Option<seq<Byte>>)
    ensures png == Encode(z, width, height, pixels)
  {
    var stride := width * 3;
    if |pixels| != height * stride {
      return None;
    }
    var raw := FilterRows(pixels, stride, height);
    var compressed := z.compress(raw);
    if width >= TWO_32 || height >= TWO_32 || |compressed| >= TWO_32 {
      return None;
    }
    var header, data, end := Chunk(z, IHDR, Header(width, height)), Chunk(z, IDAT, compressed), Chunk(z, IEND, []);
    var out := SIGNATURE;
    out := out + header;
    out := out + data;
    out := out + end;
    InOrder(SIGNATURE, header, data, end);
    return Some(out);
  }

  lemma InOrder(a: seq<Byte>, b: seq<Byte>, c: seq<Byte>, d: seq<Byte>)
    ensures a + b + c + d == a + (b + (c + (d + [])))
  {
  }

  lemma Ordered(a: nat, b: nat, c: nat)
    requires a <= b
    ensures a * c <= b * c
  {
  }

  // ---------------------------------------------------------------- reading

  /** What the reader has collected so far. */
  datatype Found = Broken | Found(header: Option<seq<Byte>>, compressed: seq<Byte>, ended: bool)

  function Absorb(f: Found, kind: seq<Byte>, payload: seq<Byte>): Found
    requires f.Found?
  {
    if kind == IHDR then f.(header := Some(payload))
    else if kind == IDAT then f.(compressed := f.compressed + payload)
    else if kind == IEND then f.(ended := true)
    else f
  }

  /** Read chunk after chunk to the end of the data, checking every length and checksum. */
  function ReadChunks(z: Zlib, rest: seq<Byte>, f: Found): Found
    requires f.Found?
    decreases |rest|
  {
    if rest == [] then f
    else if |rest| < 12 then Broken
    else
      var length := ReadWord(rest);
      if |rest| < 12 + length then Broken
      else
        var kind, payload := rest[4..8], rest[8..8 + length];
        if ReadWord(rest[8 + length..]) != z.crc32(kind + payload) % TWO_32 then Broken
        else ReadChunks(z, rest[12 + length..], Absorb(f, kind, payload))
  }

  /** Strip the filter bytes of the first `rows` scanlines; only filter type 0 is accepted. */
  function Unfilter(raw: seq<Byte>, stride: nat, rows: nat): Option<seq<Byte>> {
    if rows == 0 then Some([])
    else
      var before := Unfilter(raw, stride, rows - 1);
      var start := (rows - 1) * (stride + 1);
      if before.None? || start < 0 || start + 1 + stride > |raw| || raw[start] != 0 then None
      else Some(before.value + raw[start + 1..start + 1 + stride])
  }

  datatype Image = Image(width: nat, height: nat, pixels: seq<Byte>)

  function Decode(z: Zlib, data: seq<Byte>): Option<Image> {
    if |data| < 8 || data[..8] != SIGNATURE then None
    else
      var f := ReadChunks(z, data[8..], Found(None, [], false));
      if f.Broken? || f.header.None? || !f.ended || |f.header.value| != 13 then None
      else
        var h := f.header.value;
        if h[8..] != [8, 2, 0, 0, 0] then None
        else
          var width, height := ReadWord(h), ReadWord(h[4..]);
          var pixels := Unfilter(z.decompress(f.compressed), width * 3, height);
          if pixels.None? then None else Some(Image(width, height, pixels.value))
  }

  // ---------------------------------------------------------------- round trip

  lemma ReadOneChunk(z: Zlib, kind: seq<Byte>, data: seq<Byte>, tail: seq<Byte>, f: Found)
    requires f.Found? && |kind| == 4 && |data| < TWO_32
    ensures ReadChunks(z, Chunk(z, kind, data) + tail, f) == ReadChunks(z, tail, Absorb(f, kind, data))
  {
    var crc := z.crc32(kind + data) % TWO_32;
    var rest := Chunk(z, kind, data) + tail;
    WordRoundTrip(|data|);
    WordRoundTrip(crc);
    assert rest[..4] == Word(|data|);
    assert ReadWord(rest) == |data|;
    assert rest[4..8] == kind;
    assert rest[8..8 + |data|] == data;
    assert rest[8 + |data|..][..4] == Word(crc);
    assert ReadWord(rest[8 + |data|..]) == crc;
    assert rest[12 + |data|..] == tail;
  }

  lemma {:induction false} ScanlinesLength(pixels: seq<Byte>, stride: nat, rows: nat)
    requires |pixels| >= rows * stride
    ensures |Scanlines(pixels, stride, rows)| == rows * (stride + 1)
  {
    if rows > 0 {
      RowFits(stride, rows);
      RowFits(stride + 1, rows);
      ScanlinesLength(pixels, stride, rows - 1);
    }
  }

  lemma {:induction false} UnfilterScanlines(pixels: seq<Byte>, stride: nat, rows: nat, more: seq<Byte>)
    requires |pixels| >= rows * stride
    ensures Unfilter(Scanlines(pixels, stride, rows) + more, stride, rows) == Some(pixels[..rows * stride])
    decreases rows
  {
    if rows > 0 {
      RowFits(stride, rows);
      RowFits(stride + 1, rows);
      var above := Scanlines(pixels, stride, rows - 1);
      var line := pixels[(rows - 1) * stride..rows * stride];
      var raw := Scanlines(pixels, stride, rows) + more;
      ScanlinesLength(pixels, stride, rows - 1);
      assert raw == above + ([0] + line + more);
      UnfilterScanlines(pixels, stride, rows - 1, [0] + line + more);
      var start := (rows - 1) * (stride + 1);
      assert raw[start] == 0;
      assert raw[start + 1..start + 1 + stride] == line;
      assert pixels[..(rows - 1) * stride] + line == pixels[..rows * stride];
    }
  }

  /** Reading back a written PNG returns the same size and the same pixels. */
  lemma RoundTrip(z: Zlib, width: nat, height: nat, pixels: seq<Byte>)
    requires Lossless(z)
    ensures var png := Encode(z, width, height, pixels);
            png.Some? ==> Decode(z, png.value) == Some(Image(width, height, pixels))
  {
    if Encodable(z, width, height, pixels) {
      ReadsBack(z, width, height, pixels);
    }
  }

  lemma ReadsBack(z: Zlib, width: nat, height: nat, pixels: seq<Byte>)
    requires Lossless(z) && Encodable(z, width, height, pixels)
    ensures Decode(z, Encode(z, width, height, pixels).value) == Some(Image(width, height, pixels))
  {
    var compressed := z.compress(Scanlines(pixels, width * 3, height));
    var header := Header(width, height);
    var data := Encode(z, width, height, pixels).value;
    assert data[..8] == SIGNATURE && data[8..] == ThreeChunks(z, header, compressed);
    ChunksReadBack(z, header, compressed);
    HeaderRoundTrip(width, height);
    PixelsReadBack(z, width * 3, height, pixels);
  }

  lemma ChunksReadBack(z: Zlib, header: seq<Byte>, compressed: seq<Byte>)
    requires |header| < TWO_32 && |compressed| < TWO_32
    ensures ReadChunks(z, ThreeChunks(z, header, compressed), Found(None, [], false)) ==
            Found(Some(header), compressed, true)
  {
    var end := Chunk(z, IEND, []) + [];
    var f0 := Found(None, [], false);
    ReadOneChunk(z, IHDR, header, Chunk(z, IDAT, compressed) + end, f0);
    var f1 := Absorb(f0, IHDR, header);
    ReadOneChunk(z, IDAT, compressed, end, f1);
    ReadOneChunk(z, IEND, [], [], Absorb(f1, IDAT, compressed));
    assert [] + compressed == compressed;
  }

  lemma PixelsReadBack(z: Zlib, stride: nat, height: nat, pixels: seq<Byte>)
    requires Lossless(z) && |pixels| == height * stride
    ensures Unfilter(z.decompress(z.compress(Scanlines(pixels, stride, height))), stride, height) == Some(pixels)
  {
    var raw := Scanlines(pixels, stride, height);
    UnfilterScanlines(pixels, stride, height, []);
    assert raw + [] == raw;
    assert pixels[..height * stride] == pixels;
  }

  lemma HeaderRoundTrip(width: int, height: int)
    requires 0 <= width < TWO_32 && 0 <= height < TWO_32
    ensures var h := Header(width, height);
            |h| == 13 && ReadWord(h) == width && ReadWord(h[4..]) == height && h[8..] == [8, 2, 0, 0, 0]
  {
    WordRoundTrip(width);
    WordRoundTrip(height);
    var h := Header(width, height);
    assert h[..4] == Word(width);
    assert h[4..][..4] == Word(height);
  }

  // ---------------------------------------------------------------- layout of the file

  /** The four bytes at place i as a number, most significant byte first. */
  function BigEndian(s: seq<Byte>, i: nat): int
    requires i + 4 <= |s|
  {
    ((s[i] as int * 256 + s[i + 1] as int) * 256 + s[i + 2] as int) * 256 + s[i + 3] as int
  }

  lemma WordIsBigEndian(n: int)
    requires 0 <= n < TWO_32
    ensures BigEndian(Word(n), 0) == n
  {
    WordRoundTrip(n);
  }

  /** A chunk: its data's length, its four-byte type, its data, and the checksum of type and data. */
  lemma ChunkLayout(z: Zlib, kind: seq<Byte>, data: seq<Byte>)
    requires |kind| == 4 && |data| < TWO_32
    ensures var c := Chunk(z, kind, data);
            && |c| == 12 + |data| && BigEndian(c, 0) == |data| && c[4..8] == kind && c[8..8 + |data|] == data
            && BigEndian(c, 8 + |data|) == z.crc32(kind + data) % TWO_32
  {
    var c := Chunk(z, kind, data);
    var crc := z.crc32(kind + data) % TWO_32;
    WordIsBigEndian(|data|);
    WordIsBigEndian(crc);
    assert c[..4] == Word(|data|);
    assert c[8 + |data|..] == Word(crc);
  }

  /** The pieces of the file, one behind the other. */
  lemma Pieces(z: Zlib, width: nat, height: nat, pixels: seq<Byte>)
    requires Encodable(z, width, height, pixels)
    ensures var png := Encode(z, width, height, pixels).value;
            var compressed := z.compress(Scanlines(pixels, width * 3, height));
            && |png| == 57 + |compressed| && png[..8] == SIGNATURE
            && png[8..33] == Chunk(z, IHDR, Header(width, height))
            && png[33..45 + |compressed|] == Chunk(z, IDAT, compressed)
            && png[45 + |compressed|..57 + |compressed|] == Chunk(z, IEND, [])
  {
    var compressed := z.compress(Scanlines(pixels, width * 3, height));
    FourPieces(SIGNATURE, Chunk(z, IHDR, Header(width, height)), Chunk(z, IDAT, compressed), Chunk(z, IEND, []));
  }

  lemma FourPieces(a: seq<Byte>, b: seq<Byte>, c: seq<Byte>, d: seq<Byte>)
    ensures var whole := a + (b + (c + (d + [])));
            && |whole| == |a| + |b| + |c| + |d| && whole[..|a|] == a
            && whole[|a|..|a| + |b|] == b
            && whole[|a| + |b|..|a| + |b| + |c|] == c
            && whole[|a| + |b| + |c|..|a| + |b| + |c| + |d|] == d
  {
    var whole := a + (b + (c + (d + [])));
    assert whole == a + b + (c + d) && whole == a + b + c + d;
  }

  /** A chunk with this type and data stands at a place: length, type, data and checksum. */
  ghost predicate ChunkStands(z: Zlib, png: seq<Byte>, at: nat, kind: seq<Byte>, data: seq<Byte>) {
    && at + 12 + |data| <= |png|
    && BigEndian(png, at) == |data| && png[at + 4..at + 8] == kind && png[at + 8..at + 8 + |data|] == data
    && BigEndian(png, at + 8 + |data|) == z.crc32(kind + data) % TWO_32
  }

  lemma ChunkAt(z: Zlib, png: seq<Byte>, at: nat, kind: seq<Byte>, data: seq<Byte>)
    requires |kind| == 4 && |data| < TWO_32 && at + 12 + |data| <= |png|
    requires png[at..at + 12 + |data|] == Chunk(z, kind, data)
    ensures ChunkStands(z, png, at, kind, data)
  {
    var c := Chunk(z, kind, data);
    ChunkLayout(z, kind, data);
    SameWord(png, c, at, 0);
    SameWord(png, c, at, 8 + |data|);
    SamePiece(png, c, at, 4, 8);
    SamePiece(png, c, at, 8, 8 + |data|);
  }

  lemma SamePiece(png: seq<Byte>, c: seq<Byte>, at: nat, i: nat, j: nat)
    requires at + |c| <= |png| && png[at..at + |c|] == c && i <= j <= |c|
    ensures png[at + i..at + j] == c[i..j]
  {
    forall k | 0 <= k < j - i ensures png[at + i..at + j][k] == c[i..j][k] {
      assert c[i + k] == png[at..at + |c|][i + k];
    }
  }

  /** A word inside a piece reads as it does in the whole. */
  lemma SameWord(png: seq<Byte>, c: seq<Byte>, at: nat, i: nat)
    requires at + |c| <= |png| && png[at..at + |c|] == c && i + 4 <= |c|
    ensures BigEndian(png, at + i) == BigEndian(c, i)
  {
    assert png[at + i] == c[i] && png[at + i + 1] == c[i + 1] && png[at + i + 2] == c[i + 2]
           && png[at + i + 3] == c[i + 3];
  }

  /**
   The file: the PNG signature; the IHDR chunk; one IDAT chunk with the
   compressed scanlines; and the empty IEND chunk, last. The header holds width
   and height, eight bits of depth, truecolour and no other options.
   */
  lemma FileLayout(z: Zlib, width: nat, height: nat, pixels: seq<Byte>)
    requires Encodable(z, width, height, pixels)
    ensures var png := Encode(z, width, height, pixels).value; var header := Header(width, height);
            var compressed := z.compress(Scanlines(pixels, width * 3, height));
            && |png| == 57 + |compressed| && png[..8] == [137, 80, 78, 71, 13, 10, 26, 10]
            && ChunkStands(z, png, 8, [73, 72, 68, 82], header)
            && ChunkStands(z, png, 33, [73, 68, 65, 84], compressed)
            && ChunkStands(z, png, 45 + |compressed|, [73, 69, 78, 68], [])
            && |header| == 13 && BigEndian(header, 0) == width && BigEndian(header, 4) == height
            && header[8..] == [8, 2, 0, 0, 0]
  {
    var png := Encode(z, width, height, pixels).value;
    var compressed := z.compress(Scanlines(pixels, width * 3, height));
    Pieces(z, width, height, pixels);
    HeaderLayout(width, height);
    ChunkAt(z, png, 8, IHDR, Header(width, height));
    ChunkAt(z, png, 33, IDAT, compressed);
    ChunkAt(z, png, 45 + |compressed|, IEND, []);
  }

  lemma HeaderLayout(width: int, height: int)
    requires 0 <= width < TWO_32 && 0 <= height < TWO_32
    ensures var h := Header(width, height);
            |h| == 13 && BigEndian(h, 0) == width && BigEndian(h, 4) == height && h[8..] == [8, 2, 0, 0, 0]
  {
    WordIsBigEndian(width);
    WordIsBigEndian(height);
    var h := Header(width, height);
    assert h[..4] == Word(width) && h[4..8] == Word(height);
  }

  /** A filter byte of 0, for no filter, and then the line. */
  predicate LineAt(raw: seq<Byte>, start: int, line: seq<Byte>) {
    0 <= start && start + 1 + |line| <= |raw| && raw[start] == 0 && raw[start + 1..start + 1 + |line|] == line
  }

  lemma LineStays(above: seq<Byte>, more: seq<Byte>, start: int, line: seq<Byte>)
    requires LineAt(above, start, line)
    ensures LineAt(above + more, start, line)
  {
    assert (above + more)[start + 1..start + 1 + |line|] == above[start + 1..start + 1 + |line|];
  }

  /** Every scanline stands behind its filter byte, in order. */
  lemma {:induction false} ScanlineAt(pixels: seq<Byte>, stride: nat, rows: nat, row: nat)
    requires |pixels| >= rows * stride && row < rows
    ensures 0 <= row * stride <= (row + 1) * stride <= |pixels|
    ensures LineAt(Scanlines(pixels, stride, rows), row * (stride + 1), pixels[row * stride..(row + 1) * stride])
    decreases rows
  {
    RowFits(stride, rows);
    RowFits(stride, row + 1);
    Ordered(row + 1, rows, stride);
    ScanlinesLength(pixels, stride, rows - 1);
    var above := Scanlines(pixels, stride, rows - 1);
    var more := [0] + pixels[(rows - 1) * stride..rows * stride];
    assert Scanlines(pixels, stride, rows) == above + more;
    if row < rows - 1 {
      ScanlineAt(pixels, stride, rows - 1, row);
      LineStays(above, more, row * (stride + 1), pixels[row * stride..(row + 1) * stride]);
    } else {
      assert (above + more)[|above| + 1..] == pixels[row * stride..(row + 1) * stride];
    }
  }

  // ---------------------------------------------------------------- from the captured buffer

  /** Where byte k of the RGB image comes from: pixel k/3, channel k%3 counted from the red end. */
  function SourceIndex(k: nat): int {
    4 * (k / 3) + 2 - k % 3
  }

  function Rgb(raw: seq<Byte>): (rgb: seq<Byte>)
    requires |raw| % 4 == 0
    ensures |rgb| == |raw| / 4 * 3
    ensures forall k: nat :: k < |rgb| ==> rgb[k] == raw[SourceIndex(k)]
  {
    seq(|raw| / 4 * 3, k requires 0 <= k < |raw| / 4 * 3 => raw[SourceIndex(k)])
  }

  /** One strided copy: every byte of channel c. */
  method CopyChannel(raw: seq<Byte>, n: nat, c: nat, buffer: array<Byte>)
    requires |raw| == 4 * n && buffer.Length == 3 * n && c < 3
    modifies buffer
    ensures forall k: nat :: k < 3 * n ==> buffer[k] == if k % 3 == c then raw[SourceIndex(k)] else old(buffer[k])
  {
    for p := 0 to n
      invariant forall k: nat :: k < 3 * n ==>
                buffer[k] == if k % 3 == c && k / 3 < p then raw[SourceIndex(k)] else old(buffer[k])
    {
      assert (3 * p + c) / 3 == p && (3 * p + c) % 3 == c;
      buffer[3 * p + c] := raw[4 * p + 2 - c];
    }
  }

  /** bgrx_to_rgb. */
  method BgrxToRgb(raw: seq<Byte>, width: nat, height: nat) returns (rgb: Option<seq<Byte>>)
    ensures rgb.Some? <==> |raw| == width * height * 4
    ensures rgb.Some? ==> |raw| % 4 == 0 && rgb.value == Rgb(raw)
  {
    if |raw| != width * height * 4 {
      return None;
    }
    var n := width * height;
    var buffer := new Byte[n * 3](_ => 0);
    CopyChannel(raw, n, 0, buffer);
    CopyChannel(raw, n, 1, buffer);
    CopyChannel(raw, n, 2, buffer);
    assert buffer[..] == Rgb(raw);
    return Some(buffer[..]);
  }

  lemma RgbAt(raw: seq<Byte>, n: nat, p: nat, c: nat)
    requires |raw| == 4 * n && p < n && c < 3
    ensures 3 * p + c < |Rgb(raw)| && Rgb(raw)[3 * p + c] == raw[4 * p + 2 - c]
  {
    assert SourceIndex(3 * p + c) == 4 * p + 2 - c;
  }

  /** A Windows capture survives the whole way: every channel of every pixel comes back from the file. */
  lemma CaptureRoundTrip(z: Zlib, width: nat, height: nat, raw: seq<Byte>, p: nat, c: nat)
    requires Lossless(z) && |raw| % 4 == 0 && p < |raw| / 4 && c < 3
    ensures var png := Encode(z, width, height, Rgb(raw));
            png.Some? ==>
              var image := Decode(z, png.value);
              && image.Some? && image.value.width == width && image.value.height == height
              && 3 * p + c < |image.value.pixels| && image.value.pixels[3 * p + c] == raw[4 * p + 2 - c]
  {
    RgbAt(raw, |raw| / 4, p, c);
    RoundTrip(z, width, height, Rgb(raw));
  }
}
