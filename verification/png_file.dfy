/** PNG files: the chunk reader, the encoder, and their round trip. */
module PngFile {
  import opened Bytes
  import opened Options
  import opened PngFilters

  const SIGNATURE: seq<Byte> := [137, 80, 78, 71, 13, 10, 26, 10]
  const IHDR: seq<Byte> := [73, 72, 68, 82]
  const IDAT: seq<Byte> := [73, 68, 65, 84]
  const IEND: seq<Byte> := [73, 69, 78, 68]

  // ----- Big-endian 32-bit numbers -----

  const LIMIT := 0x1_0000_0000

  function Pack(n: nat): (s: seq<Byte>)
    requires n < LIMIT
    ensures |s| == 4
  {
    [n / 0x100_0000, n / 0x1_0000 % 256, n / 0x100 % 256, n % 256]
  }

  function Unpack(s: seq<Byte>): (n: nat)
    requires |s| == 4
    ensures n < LIMIT
  {
    s[0] as int * 0x100_0000 + s[1] as int * 0x1_0000 + s[2] as int * 0x100 + s[3] as int
  }

  lemma UnpackPack(n: nat)
    requires n < LIMIT
    ensures Unpack(Pack(n)) == n
  {
    assert n / 0x100 == n / 0x1_0000 * 256 + n / 0x100 % 256;
    assert n / 0x1_0000 == n / 0x100_0000 * 256 + n / 0x1_0000 % 256;
  }

  // ----- Chunks -----

  datatype Chunk = Chunk(name: seq<Byte>, payload: seq<Byte>)

  predicate IsChunk(c: Chunk) { |c.name| == 4 && |c.payload| < LIMIT }

  datatype Header = Header(width: nat, height: nat, rgb: bool)

  datatype Progress = Progress(header: Option<Header>, compressed: seq<Byte>)

  datatype Failure = NotPng | Malformed | Unsupported | NoHeader | BadData

  datatype Result<T> = Ok(value: T) | Err(failure: Failure)

  /** What one chunk does to the reader's variables. */
  function Take(p: Progress, c: Chunk): Result<Progress> {
    if c.name == IHDR then
      if |c.payload| != 13 then Err(Malformed)
      else
        var kind := c.payload[8..];
        if kind != [8, 2, 0, 0, 0] && kind != [8, 6, 0, 0, 0] then Err(Unsupported)
        else Ok(p.(header := Some(Header(Unpack(c.payload[..4]), Unpack(c.payload[4..8]), kind[1] == 2))))
    else if c.name == IDAT then Ok(p.(compressed := p.compressed + c.payload))
    else Ok(p)
  }

  /** The chunk the reader sees at an offset: a length, a name and a payload, clamped to the file. */
  function ChunkAt(data: seq<Byte>, offset: nat): Chunk
    requires offset + 4 <= |data|
  {
    var length := Unpack(data[offset..offset + 4]);
    Chunk(Slice(data, offset + 4, offset + 8), Slice(data, offset + 8, offset + 8 + length))
  }

  function NextOffset(data: seq<Byte>, offset: nat): nat
    requires offset + 4 <= |data|
  {
    offset + Unpack(data[offset..offset + 4]) + 12
  }

  function ReadFrom(data: seq<Byte>, offset: nat, p: Progress): Result<Progress>
    decreases |data| - offset
  {
    if offset >= |data| then Ok(p)
    else if offset + 4 > |data| then Err(Malformed)
    else
      var c := ChunkAt(data, offset);
      if c.name == IEND then Ok(p)
      else
        var next := Take(p, c);
        if next.Err? then next else ReadFrom(data, NextOffset(data, offset), next.value)
  }

  method ReadChunks(data: seq<Byte>) returns (result: Result<Progress>)
    ensures result == ReadFrom(data, 8, Progress(None, []))
  {
    var p, offset := Progress(None, []), 8;
    while offset < |data|
      invariant ReadFrom(data, 8, Progress(None, [])) == ReadFrom(data, offset, p)
      decreases |data| - offset
    {
      if offset + 4 > |data| { return Err(Malformed); }
      var c := ChunkAt(data, offset);
      if c.name == IEND { break; }
      var next := Take(p, c);
      if next.Err? { return next; }
      p, offset := next.value, NextOffset(data, offset);
    }
    result := Ok(p);
  }

  // ----- A file written chunk by chunk -----

  /** A checksum of a chunk's name and payload, as 32 bits; the reader never looks at it. */
  type Checksum = seq<Byte> -> nat

  function Written(crc: Checksum, c: Chunk): (s: seq<Byte>)
    requires IsChunk(c)
    ensures |s| == |c.payload| + 12
  {
    Pack(|c.payload|) + c.name + c.payload + Pack(crc(c.name + c.payload) % LIMIT)
  }

  function WrittenAll(crc: Checksum, chunks: seq<Chunk>): seq<Byte>
    requires forall k :: 0 <= k < |chunks| ==> IsChunk(chunks[k])
  {
    if chunks == [] then [] else Written(crc, chunks[0]) + WrittenAll(crc, chunks[1..])
  }

  /** The meaning of a list of chunks: they are taken in order up to the first IEND. */
  function Meaning(chunks: seq<Chunk>, p: Progress): Result<Progress> {
    if chunks == [] || chunks[0].name == IEND then Ok(p)
    else
      var next := Take(p, chunks[0]);
      if next.Err? then next else Meaning(chunks[1..], next.value)
  }

  lemma ReadsOneChunk(crc: Checksum, before: seq<Byte>, c: Chunk, after: seq<Byte>)
    requires IsChunk(c)
    ensures var data := before + Written(crc, c) + after;
            && |before| + 4 <= |data| && ChunkAt(data, |before|) == c
            && NextOffset(data, |before|) == |before| + |Written(crc, c)|
  {
    var data, o := before + Written(crc, c) + after, |before|;
    var w := Written(crc, c);
    assert data[o..o + |w|] == w;
    assert data[o..o + 4] == w[..4] == Pack(|c.payload|);
    UnpackPack(|c.payload|);
    assert data[o + 4..o + 8] == w[4..8] == c.name;
    assert data[o + 8..o + 8 + |c.payload|] == w[8..8 + |c.payload|] == c.payload;
  }

  lemma ReadStep(data: seq<Byte>, offset: nat, p: Progress, c: Chunk, next: nat)
    requires offset + 4 <= |data| && ChunkAt(data, offset) == c && NextOffset(data, offset) == next
    ensures ReadFrom(data, offset, p) ==
            if c.name == IEND then Ok(p)
            else if Take(p, c).Err? then Take(p, c)
            else ReadFrom(data, next, Take(p, c).value)
  {
  }

  /** Reading a file made of any chunks gives the meaning of those chunks. */
  lemma {:induction false} ReadsChunks(crc: Checksum, before: seq<Byte>, chunks: seq<Chunk>, p: Progress)
    requires forall k :: 0 <= k < |chunks| ==> IsChunk(chunks[k])
    ensures ReadFrom(before + WrittenAll(crc, chunks), |before|, p) == Meaning(chunks, p)
    decreases chunks
  {
    if chunks == [] {
      assert before + WrittenAll(crc, chunks) == before;
    } else {
      var c, rest := chunks[0], chunks[1..];
      var w, after := Written(crc, c), WrittenAll(crc, rest);
      assert before + WrittenAll(crc, chunks) == before + w + after;
      ReadsOneChunk(crc, before, c, after);
      ReadStep(before + w + after, |before|, p, c, |before + w|);
      var next := Take(p, c);
      if next.Ok? { ReadsChunks(crc, before + w, rest, next.value); }
    }
  }

  // ----- The reader -----

  type Inflate = seq<Byte> -> Option<seq<Byte>>

  datatype Image = Image(width: nat, height: nat, rows: seq<seq<Byte>>)

  function AddAlpha(row: seq<Byte>): seq<Byte> {
    if row == [] then [] else Slice(row, 0, 3) + [255] + AddAlpha(row[Clamp(3, row)..])
  }

  function AddAlphaRows(rows: seq<seq<Byte>>): (out: seq<seq<Byte>>) {
    seq(|rows|, k requires 0 <= k < |rows| => AddAlpha(rows[k]))
  }

  function Channels(h: Header): nat { if h.rgb then 3 else 4 }

  function Finish(inflate: Inflate, p: Progress): Result<Image> {
    if p.header.None? then Err(NoHeader) else
    var h, decoded := p.header.value, inflate(p.compressed);
    if decoded.None? then Err(BadData) else
    var rows := RowsUpTo(decoded.value, h.width * Channels(h), Channels(h), h.height);
    if !rows.Rows? then Err(BadData)
    else Ok(Image(h.width, h.height, if h.rgb then AddAlphaRows(rows.rows) else rows.rows))
  }

  function Read(inflate: Inflate, data: seq<Byte>): Result<Image> {
    if !(SIGNATURE <= data) then Err(NotPng) else
    var p := ReadFrom(data, 8, Progress(None, []));
    if p.Err? then Err(p.failure) else Finish(inflate, p.value)
  }

  method ReadPng(inflate: Inflate, data: seq<Byte>) returns (result: Result<Image>)
    ensures result == Read(inflate, data)
  {
    if !(SIGNATURE <= data) { return Err(NotPng); }
    var p := ReadChunks(data);
    if p.Err? { return Err(p.failure); }
    if p.value.header.None? { return Err(NoHeader); }
    var h, decoded := p.value.header.value, inflate(p.value.compressed);
    if decoded.None? { return Err(BadData); }
    var rows := ReadRows(decoded.value, h.height, h.width * Channels(h), Channels(h));
    if !rows.Rows? { return Err(BadData); }
    result := Ok(Image(h.width, h.height, if h.rgb then AddAlphaRows(rows.rows) else rows.rows));
  }

  lemma {:induction false} AlphaLength(row: seq<Byte>, pixels: nat)
    requires |row| == 3 * pixels
    ensures |AddAlpha(row)| == 4 * pixels
    decreases pixels
  {
    if pixels > 0 { AlphaLength(row[3..], pixels - 1); }
  }

  /** Sample `s` of pixel `k`: the three colours keep their order and a fourth, opaque sample follows. */
  lemma {:induction false} AlphaIsOpaque(row: seq<Byte>, pixels: nat, k: nat, s: nat)
    requires |row| == 3 * pixels && k < pixels && s < 4
    ensures |AddAlpha(row)| == 4 * pixels
    ensures AddAlpha(row)[4 * k + s] == if s == 3 then 255 else row[3 * k + s]
    decreases pixels
  {
    AlphaLength(row, pixels);
    AlphaLength(row[3..], pixels - 1);
    if k > 0 {
      AlphaIsOpaque(row[3..], pixels - 1, k - 1, s);
      AlphaShifts(row, 4 * k + s);
    }
  }

  lemma AlphaShifts(row: seq<Byte>, i: nat)
    requires |row| >= 3 && 4 <= i < |AddAlpha(row)| == |AddAlpha(row[3..])| + 4
    ensures AddAlpha(row)[i] == AddAlpha(row[3..])[i - 4]
  {
    assert AddAlpha(row) == row[..3] + [255] + AddAlpha(row[3..]);
  }

  lemma ReadsFile(inflate: Inflate, crc: Checksum, chunks: seq<Chunk>, p: Progress)
    requires forall k :: 0 <= k < |chunks| ==> IsChunk(chunks[k])
    requires Meaning(chunks, Progress(None, [])) == Ok(p)
    ensures Read(inflate, SIGNATURE + WrittenAll(crc, chunks)) == Finish(inflate, p)
  {
    ReadsChunks(crc, SIGNATURE, chunks, Progress(None, []));
  }

  lemma FinishInverts(inflate: Inflate, p: Progress, h: Header, stride: nat, rows: seq<seq<Byte>>, filters: seq<Byte>)
    requires p.header == Some(h) && h.height == |rows| && stride == h.width * Channels(h)
    requires IsImage(rows, stride) && AreFilters(filters, rows)
    requires inflate(p.compressed) == Some(Encoded(rows, filters, stride, Channels(h)))
    ensures Finish(inflate, p) == Ok(Image(h.width, |rows|, if h.rgb then AddAlphaRows(rows) else rows))
  {
    ReaderInvertsFilters(rows, filters, stride, Channels(h));
  }

  /** A file of any chunks whose data inflates to any filtering of an image reads back as that image. */
  lemma ReadsAnyFiltering(inflate: Inflate, crc: Checksum, chunks: seq<Chunk>, p: Progress, rows: seq<seq<Byte>>,
                          filters: seq<Byte>)
    requires forall k :: 0 <= k < |chunks| ==> IsChunk(chunks[k])
    requires Meaning(chunks, Progress(None, [])) == Ok(p) && p.header.Some? && p.header.value.height == |rows|
    requires IsImage(rows, p.header.value.width * Channels(p.header.value)) && AreFilters(filters, rows)
    requires var h := p.header.value;
             inflate(p.compressed) == Some(Encoded(rows, filters, h.width * Channels(h), Channels(h)))
    ensures var h := p.header.value;
            Read(inflate, SIGNATURE + WrittenAll(crc, chunks)) ==
                Ok(Image(h.width, |rows|, if h.rgb then AddAlphaRows(rows) else rows))
  {
    ReadsFile(inflate, crc, chunks, p);
    FinishInverts(inflate, p, p.header.value, p.header.value.width * Channels(p.header.value), rows, filters);
  }

  // ----- The encoder -----

  type Deflate = seq<Byte> -> seq<Byte>

  /** The rows as the encoder joins them: a zero filter byte and the row itself. */
  function Raw(rows: seq<seq<Byte>>): seq<Byte> {
    if rows == [] then [] else Raw(rows[..|rows| - 1]) + [0] + rows[|rows| - 1]
  }

  function HeaderChunk(width: nat, height: nat): Chunk
    requires width < LIMIT && height < LIMIT
  {
    Chunk(IHDR, Pack(width) + Pack(height) + [8, 6, 0, 0, 0])
  }

  /** The whole file, or nothing when a number does not fit its 32-bit field. */
  function Encode(deflate: Deflate, crc: Checksum, width: nat, rows: seq<seq<Byte>>): Option<seq<Byte>> {
    var packed := deflate(Raw(rows));
    if width >= LIMIT || |rows| >= LIMIT || |packed| >= LIMIT then None
    else
      Some(SIGNATURE + Written(crc, HeaderChunk(width, |rows|)) + Written(crc, Chunk(IDAT, packed))
           + Written(crc, Chunk(IEND, [])))
  }

  lemma {:induction false} FilterNone(bpp: nat, row: seq<Byte>, prior: seq<Byte>, n: nat)
    requires n <= |row|
    ensures Filtered(PredictorOf(0), bpp, row, prior, n) == row[..n]
    decreases n
  {
    if n > 0 { FilterNone(bpp, row, prior, n - 1); }
  }

  lemma JoinedLast(lines: seq<seq<Byte>>, line: seq<Byte>)
    ensures Join(lines + [line]) == Join(lines) + line
  {
    assert (lines + [line])[..|lines|] == lines;
  }

  lemma RawMore(rows: seq<seq<Byte>>)
    requires rows != []
    ensures Raw(rows) == Raw(rows[..|rows| - 1]) + ([0] + rows[|rows| - 1])
  { }

  /** Under filter type 0 a scanline is a zero byte and the row. */
  lemma PlainLine(rows: seq<seq<Byte>>, stride: nat, bpp: nat, k: nat)
    requires IsImage(rows, stride) && k < |rows|
    ensures Scanline(rows, Zeros(|rows|), stride, bpp, k) == [0] + rows[k]
  {
    FilterNone(bpp, rows[k], Prior(rows[..k], stride), stride);
    assert rows[k][..stride] == rows[k];
  }

  function Plain(rows: seq<seq<Byte>>): seq<seq<Byte>> {
    seq(|rows|, k requires 0 <= k < |rows| => [0] + rows[k])
  }

  lemma PlainLines(rows: seq<seq<Byte>>, stride: nat, bpp: nat)
    requires IsImage(rows, stride)
    ensures Lines(rows, Zeros(|rows|), stride, bpp) == Plain(rows)
  {
    forall k | 0 <= k < |rows| ensures Lines(rows, Zeros(|rows|), stride, bpp)[k] == Plain(rows)[k] {
      PlainLine(rows, stride, bpp, k);
    }
  }

  lemma {:induction false} RawIsJoined(rows: seq<seq<Byte>>)
    ensures Raw(rows) == Join(Plain(rows))
  {
    if rows != [] {
      var n := |rows| - 1;
      RawIsJoined(rows[..n]);
      RawMore(rows);
      assert Plain(rows) == Plain(rows[..n]) + [[0] + rows[n]];
      JoinedLast(Plain(rows[..n]), [0] + rows[n]);
    }
  }

  lemma RawIsUnfiltered(rows: seq<seq<Byte>>, stride: nat, bpp: nat)
    requires IsImage(rows, stride)
    ensures Raw(rows) == Encoded(rows, Zeros(|rows|), stride, bpp)
  {
    RawIsJoined(rows);
    PlainLines(rows, stride, bpp);
  }

  lemma HeaderReads(width: nat, height: nat, p: Progress)
    requires width < LIMIT && height < LIMIT
    ensures Take(p, HeaderChunk(width, height)) == Ok(p.(header := Some(Header(width, height, false))))
  {
    var payload := HeaderChunk(width, height).payload;
    assert payload[..4] == Pack(width) && payload[4..8] == Pack(height) && payload[8..] == [8, 6, 0, 0, 0];
    UnpackPack(width);
    UnpackPack(height);
  }

  function FileChunks(width: nat, height: nat, packed: seq<Byte>): (chunks: seq<Chunk>)
    requires width < LIMIT && height < LIMIT && |packed| < LIMIT
    ensures forall k :: 0 <= k < |chunks| ==> IsChunk(chunks[k])
  {
    [HeaderChunk(width, height), Chunk(IDAT, packed), Chunk(IEND, [])]
  }

  lemma WrittenThree(crc: Checksum, a: Chunk, b: Chunk, c: Chunk)
    requires IsChunk(a) && IsChunk(b) && IsChunk(c)
    ensures SIGNATURE + WrittenAll(crc, [a, b, c]) == SIGNATURE + Written(crc, a) + Written(crc, b) + Written(crc, c)
  {
    assert [a, b, c][1..] == [b, c] && [b, c][1..] == [c] && [c][1..] == [];
    assert WrittenAll(crc, [c]) == Written(crc, c);
    assert WrittenAll(crc, [b, c]) == Written(crc, b) + Written(crc, c);
  }

  lemma FileMeaning(width: nat, height: nat, packed: seq<Byte>)
    requires width < LIMIT && height < LIMIT && |packed| < LIMIT
    ensures Meaning(FileChunks(width, height, packed), Progress(None, [])) ==
            Ok(Progress(Some(Header(width, height, false)), packed))
  {
    var chunks := FileChunks(width, height, packed);
    var p := Progress(Some(Header(width, height, false)), []);
    var q := Progress(Some(Header(width, height, false)), packed);
    HeaderReads(width, height, Progress(None, []));
    assert IDAT[1] != IEND[1] && IDAT[1] != IHDR[1] && IHDR[1] != IEND[1];
    assert [] + packed == packed;
    assert chunks[1..][1..] == chunks[2..];
    assert Meaning(chunks[2..], q) == Ok(q);
    assert Meaning(chunks[1..], p) == Ok(q);
  }

  /**
   * Reading what was encoded gives back the width, the height and the rows, if inflate undoes deflate
   * on those bytes.
   */
  lemma ReadEncodeRoundTrip(inflate: Inflate, deflate: Deflate, crc: Checksum, width: nat, rows: seq<seq<Byte>>)
    requires IsImage(rows, 4 * width) && inflate(deflate(Raw(rows))) == Some(Raw(rows))
    ensures match Encode(deflate, crc, width, rows)
            case Some(data) => Read(inflate, data) == Ok(Image(width, |rows|, rows))
            case None => width >= LIMIT || |rows| >= LIMIT || |deflate(Raw(rows))| >= LIMIT
  {
    var packed := deflate(Raw(rows));
    if width < LIMIT && |rows| < LIMIT && |packed| < LIMIT {
      var h := Header(width, |rows|, false);
      WrittenThree(crc, HeaderChunk(width, |rows|), Chunk(IDAT, packed), Chunk(IEND, []));
      FileMeaning(width, |rows|, packed);
      ReadsFile(inflate, crc, FileChunks(width, |rows|, packed), Progress(Some(h), packed));
      FinishRaw(inflate, Progress(Some(h), packed), h, 4 * width, rows);
    }
  }

  lemma FinishRaw(inflate: Inflate, p: Progress, h: Header, stride: nat, rows: seq<seq<Byte>>)
    requires p.header == Some(h) && !h.rgb && h.height == |rows| && stride == h.width * 4 && IsImage(rows, stride)
    requires inflate(p.compressed) == Some(Raw(rows))
    ensures Finish(inflate, p) == Ok(Image(h.width, |rows|, rows))
  {
    var filters := Zeros(|rows|);
    assert Channels(h) == 4 && AreFilters(filters, rows);
    RawIsUnfiltered(rows, stride, 4);
    FinishInverts(inflate, p, h, stride, rows, filters);
  }
}
