/** The WAV header writer, and a reader of RIFF/WAVE files that recovers what was written. */
module WavFile {
  import opened Prelude

  newtype Byte = b: int | 0 <= b < 256

  type Bytes = seq<Byte>

  const WAV_HEADER_SIZE := 44
  const BITS_PER_SAMPLE := 16
  const RIFF: Bytes := [0x52, 0x49, 0x46, 0x46]
  const WAVE: Bytes := [0x57, 0x41, 0x56, 0x45]
  const FMT: Bytes := [0x66, 0x6D, 0x74, 0x20]
  const DATA: Bytes := [0x64, 0x61, 0x74, 0x61]

  datatype WriteError = RangeError

  // ---------- Little-endian numbers ----------

  function Pow256(k: nat): nat { if k == 0 then 1 else 256 * Pow256(k - 1) }

  function Le(n: nat, width: nat): (r: Bytes)
    ensures |r| == width
  {
    if width == 0 then [] else [(n % 256) as Byte] + Le(n / 256, width - 1)
  }

  function FromLe(bytes: Bytes): nat {
    if bytes == [] then 0 else bytes[0] as nat + 256 * FromLe(bytes[1..])
  }

  /** A number that fits is read back. */
  lemma {:induction false} LeRoundTrip(n: nat, width: nat)
    requires n < Pow256(width)
    ensures FromLe(Le(n, width)) == n
  {
    if width > 0 {
      assert Pow256(width) == 256 * Pow256(width - 1);
      LeRoundTrip(n / 256, width - 1);
      assert Le(n, width)[1..] == Le(n / 256, width - 1);
    }
  }

  lemma Widths()
    ensures Pow256(2) == 0x1_0000 && Pow256(4) == 0x1_0000_0000
  {
    assert Pow256(1) == 256;
    assert Pow256(3) == 0x100_0000;
  }

  // ---------- The writer ----------

  function BlockAlign(channels: nat): nat { channels * (BITS_PER_SAMPLE / 8) }

  /** Every number fits the width of its field. */
  predicate Fits(pcmLength: nat, sampleRate: nat, channels: nat) {
    && 36 + pcmLength < 0x1_0000_0000 && channels < 0x1_0000 && sampleRate < 0x1_0000_0000
    && sampleRate * BlockAlign(channels) < 0x1_0000_0000 && BlockAlign(channels) < 0x1_0000
  }

  function FormatBody(sampleRate: nat, channels: nat): Bytes {
    Le(1, 2) + Le(channels, 2) + Le(sampleRate, 4) + Le(sampleRate * BlockAlign(channels), 4)
    + Le(BlockAlign(channels), 2) + Le(BITS_PER_SAMPLE, 2)
  }

  /** The file as the standard describes it: a RIFF form of type WAVE with a format and a data chunk. */
  function WavBytes(pcm: Bytes, sampleRate: nat, channels: nat): Bytes {
    RIFF + Le(36 + |pcm|, 4) + WAVE + (FMT + Le(16, 4) + FormatBody(sampleRate, channels)) + (DATA + Le(|pcm|, 4) + pcm)
  }

  method WriteBytes(header: array<Byte>, bytes: Bytes, offset: nat)
    requires offset + |bytes| <= header.Length
    modifies header
    ensures header[..offset + |bytes|] == old(header[..offset]) + bytes
  {
    var i := 0;
    while i < |bytes|
      invariant 0 <= i <= |bytes|
      invariant header[..offset + i] == old(header[..offset]) + bytes[..i]
    {
      header[offset + i] := bytes[i];
      i := i + 1;
    }
    assert bytes[..i] == bytes;
  }

  method WriteUIntLE(header: array<Byte>, value: nat, width: nat, offset: nat) returns (ok: bool)
    requires offset + width <= header.Length
    modifies header
    ensures ok <==> value < Pow256(width)
    ensures ok ==> header[..offset + width] == old(header[..offset]) + Le(value, width)
  {
    if value >= Pow256(width) {
      return false;
    }
    var rest, i := value, 0;
    while i < width
      invariant 0 <= i <= width
      invariant header[..offset + i] + Le(rest, width - i) == old(header[..offset]) + Le(value, width)
    {
      header[offset + i] := (rest % 256) as Byte;
      assert Le(rest, width - i) == [header[offset + i]] + Le(rest / 256, width - i - 1);
      rest := rest / 256;
      i := i + 1;
    }
    return true;
  }

  function FormHead(pcmLength: nat): Bytes {
    RIFF + Le(36 + pcmLength, 4) + WAVE + (FMT + Le(16, 4))
  }

  function DataHead(pcmLength: nat): Bytes {
    DATA + Le(pcmLength, 4)
  }

  /** The RIFF form header and the head of the format chunk. */
  method WriteForm(header: array<Byte>, pcmLength: nat) returns (ok: bool)
    requires header.Length == WAV_HEADER_SIZE
    modifies header
    ensures ok <==> 36 + pcmLength < Pow256(4)
    ensures ok ==> header[..20] == FormHead(pcmLength)
  {
    Widths();
    WriteBytes(header, RIFF, 0);
    ok := WriteUIntLE(header, 36 + pcmLength, 4, 4);
    if ok {
      WriteBytes(header, WAVE, 8);
      WriteBytes(header, FMT, 12);
      ok := WriteUIntLE(header, 16, 4, 16);
    }
  }

  method WriteFormat(header: array<Byte>, sampleRate: nat, channels: nat) returns (ok: bool)
    requires header.Length == WAV_HEADER_SIZE
    modifies header
    ensures ok <==> channels < Pow256(2) && sampleRate < Pow256(4)
                    && sampleRate * BlockAlign(channels) < Pow256(4) && BlockAlign(channels) < Pow256(2)
    ensures ok ==> header[..36] == old(header[..20]) + FormatBody(sampleRate, channels)
  {
    Widths();
    var blockAlign := channels * (BITS_PER_SAMPLE / 8);
    ok := WriteUIntLE(header, 1, 2, 20);
    ok := WriteUIntLE(header, channels, 2, 22);
    if !ok { return; }
    ok := WriteUIntLE(header, sampleRate, 4, 24);
    if !ok { return; }
    ok := WriteUIntLE(header, sampleRate * blockAlign, 4, 28);
    if !ok { return; }
    ok := WriteUIntLE(header, blockAlign, 2, 32);
    if !ok { return; }
    ok := WriteUIntLE(header, BITS_PER_SAMPLE, 2, 34);
    JoinFormat(old(header[..20]), Le(1, 2), Le(channels, 2), Le(sampleRate, 4), Le(sampleRate * blockAlign, 4),
               Le(blockAlign, 2), Le(BITS_PER_SAMPLE, 2));
  }

  lemma JoinFormat(start: Bytes, a: Bytes, b: Bytes, c: Bytes, d: Bytes, e: Bytes, f: Bytes)
    ensures start + a + b + c + d + e + f == start + (a + b + c + d + e + f)
  {
  }

  method WriteDataHead(header: array<Byte>, pcmLength: nat) returns (ok: bool)
    requires header.Length == WAV_HEADER_SIZE
    modifies header
    ensures ok <==> pcmLength < Pow256(4)
    ensures ok ==> header[..44] == old(header[..36]) + DataHead(pcmLength)
  {
    WriteBytes(header, DATA, 36);
    ok := WriteUIntLE(header, pcmLength, 4, 40);
  }

  /** Writes the 44-byte header field by field and puts the samples behind it; a number that does not
      fit its field throws. */
  method PcmToWav(pcm: Bytes, sampleRate: nat, channels: nat) returns (r: Result<Bytes, WriteError>)
    ensures r.Ok? <==> Fits(|pcm|, sampleRate, channels)
    ensures r.Ok? ==> r.value == WavBytes(pcm, sampleRate, channels)
  {
    Widths();
    var header := new Byte[WAV_HEADER_SIZE](_ => 0);
    var ok := WriteForm(header, |pcm|);
    if !ok { return Err(RangeError); }
    ok := WriteFormat(header, sampleRate, channels);
    if !ok { return Err(RangeError); }
    ok := WriteDataHead(header, |pcm|);
    if !ok { return Err(RangeError); }
    assert header[..44] == header[..];
    HeaderAndSamples(pcm, sampleRate, channels);
    return Ok(header[..] + pcm);
  }

  lemma HeaderAndSamples(pcm: Bytes, sampleRate: nat, channels: nat)
    ensures FormHead(|pcm|) + FormatBody(sampleRate, channels) + DataHead(|pcm|) + pcm
            == WavBytes(pcm, sampleRate, channels)
  {
    JoinHeader(RIFF + Le(36 + |pcm|, 4) + WAVE, FMT + Le(16, 4), FormatBody(sampleRate, channels),
               DATA + Le(|pcm|, 4), pcm);
  }

  lemma JoinHeader(form: Bytes, head: Bytes, format: Bytes, data: Bytes, pcm: Bytes)
    ensures form + head + format + data + pcm == form + (head + format) + (data + pcm)
  {
  }

  // ---------- The reader ----------

  datatype Chunk = Chunk(id: Bytes, body: Bytes)

  /** Format code, channels, rate, bytes per second, block size, bits per sample, and the sample data. */
  datatype Wave = Wave(format: nat, channels: nat, sampleRate: nat, byteRate: nat, blockAlign: nat, bits: nat,
                       samples: Bytes)

  /** A list of chunks: id, length, body, and a pad byte after an odd body unless the file ends there. */
  function ReadChunks(b: Bytes): Option<seq<Chunk>>
    decreases |b|
  {
    if b == [] then Some([])
    else if |b| < 8 then None
    else
      var size := FromLe(b[4..8]);
      if |b| < 8 + size then None
      else
        var next := if size % 2 == 1 && 8 + size < |b| then 9 + size else 8 + size;
        var tail := ReadChunks(b[next..]);
        if tail == None then None else Some([Chunk(b[..4], b[8..8 + size])] + tail.value)
  }

  function FindChunk(chunks: seq<Chunk>, id: Bytes): Option<Bytes> {
    if chunks == [] then None
    else if chunks[0].id == id then Some(chunks[0].body)
    else FindChunk(chunks[1..], id)
  }

  function ReadFormat(format: Bytes, samples: Bytes): Wave
    requires |format| >= 16
  {
    Wave(FromLe(format[..2]), FromLe(format[2..4]), FromLe(format[4..8]), FromLe(format[8..12]),
         FromLe(format[12..14]), FromLe(format[14..16]), samples)
  }

  function ReadWave(file: Bytes): Option<Wave> {
    if |file| < 12 || file[..4] != RIFF || file[8..12] != WAVE || FromLe(file[4..8]) != |file| - 8 then None
    else
      var chunks := ReadChunks(file[12..]);
      if chunks == None then None
      else
        var format, data := FindChunk(chunks.value, FMT), FindChunk(chunks.value, DATA);
        if format == None || |format.value| < 16 || data == None then None
        else Some(ReadFormat(format.value, data.value))
  }

  // ---------- Round trip ----------

  function ChunkBytes(id: Bytes, body: Bytes): Bytes {
    id + Le(|body|, 4) + body
  }

  /** Reading a chunk that is followed by more, or by nothing. */
  lemma ReadChunk(id: Bytes, body: Bytes, rest: Bytes)
    requires |id| == 4 && |body| < Pow256(4) && (|body| % 2 == 0 || rest == []) && ReadChunks(rest).Some?
    ensures ReadChunks(ChunkBytes(id, body) + rest) == Some([Chunk(id, body)] + ReadChunks(rest).value)
  {
    var b := ChunkBytes(id, body) + rest;
    LeRoundTrip(|body|, 4);
    assert b[..4] == id && b[4..8] == Le(|body|, 4) && b[8..8 + |body|] == body && b[8 + |body|..] == rest;
  }

  lemma FormatFields(a: Bytes, b: Bytes, c: Bytes, d: Bytes, e: Bytes, f: Bytes)
    requires |a| == 2 && |b| == 2 && |c| == 4 && |d| == 4 && |e| == 2 && |f| == 2
    ensures var x := a + b + c + d + e + f;
            x[..2] == a && x[2..4] == b && x[4..8] == c && x[8..12] == d && x[12..14] == e && x[14..16] == f
  {
  }

  lemma FormatRoundTrip(sampleRate: nat, channels: nat, samples: Bytes)
    requires Fits(0, sampleRate, channels)
    ensures ReadFormat(FormatBody(sampleRate, channels), samples)
            == Wave(1, channels, sampleRate, sampleRate * BlockAlign(channels), BlockAlign(channels), BITS_PER_SAMPLE,
                    samples)
  {
    Widths();
    LeRoundTrip(1, 2);
    LeRoundTrip(channels, 2);
    LeRoundTrip(sampleRate, 4);
    LeRoundTrip(sampleRate * BlockAlign(channels), 4);
    LeRoundTrip(BlockAlign(channels), 2);
    LeRoundTrip(BITS_PER_SAMPLE, 2);
    FormatFields(Le(1, 2), Le(channels, 2), Le(sampleRate, 4), Le(sampleRate * BlockAlign(channels), 4),
                 Le(BlockAlign(channels), 2), Le(BITS_PER_SAMPLE, 2));
  }

  lemma ReadTwoChunks(id1: Bytes, body1: Bytes, id2: Bytes, body2: Bytes)
    requires |id1| == 4 && |id2| == 4 && |body1| < Pow256(4) && |body2| < Pow256(4) && |body1| % 2 == 0
    ensures ReadChunks(ChunkBytes(id1, body1) + ChunkBytes(id2, body2)) == Some([Chunk(id1, body1), Chunk(id2, body2)])
  {
    assert ReadChunks([]) == Some([]);
    ReadChunk(id2, body2, []);
    assert ChunkBytes(id2, body2) + [] == ChunkBytes(id2, body2);
    assert [Chunk(id2, body2)] + [] == [Chunk(id2, body2)];
    ReadChunk(id1, body1, ChunkBytes(id2, body2));
    assert [Chunk(id1, body1)] + [Chunk(id2, body2)] == [Chunk(id1, body1), Chunk(id2, body2)];
  }

  /** A form of the right type and size with a format and a data chunk. */
  lemma ReadForm(size: Bytes, format: Bytes, data: Bytes)
    requires |size| == 4 && |format| == 16 && |data| < Pow256(4)
    requires FromLe(size) == 28 + |ChunkBytes(DATA, data)|
    ensures ReadWave(RIFF + size + WAVE + (ChunkBytes(FMT, format) + ChunkBytes(DATA, data)))
            == Some(ReadFormat(format, data))
  {
    Widths();
    FormSlices(size, ChunkBytes(FMT, format) + ChunkBytes(DATA, data));
    ReadTwoChunks(FMT, format, DATA, data);
    FindBoth(format, data);
    assert |ChunkBytes(FMT, format)| == 24;
  }

  lemma FormSlices(size: Bytes, rest: Bytes)
    requires |size| == 4
    ensures var file := RIFF + size + WAVE + rest;
            |file| == 12 + |rest| && file[..4] == RIFF && file[4..8] == size && file[8..12] == WAVE
            && file[12..] == rest
  {
  }

  lemma FindBoth(format: Bytes, data: Bytes)
    ensures var chunks := [Chunk(FMT, format), Chunk(DATA, data)];
            FindChunk(chunks, FMT) == Some(format) && FindChunk(chunks, DATA) == Some(data)
  {
    assert FMT[0] != DATA[0];
    assert [Chunk(FMT, format), Chunk(DATA, data)][1..] == [Chunk(DATA, data)];
  }

  lemma FormatLength(sampleRate: nat, channels: nat)
    ensures |FormatBody(sampleRate, channels)| == 16
  {
  }

  /** The tags of the chunks, in letters. */
  lemma TagsSpell(i: nat)
    requires i < 4
    ensures RIFF[i] as int == "RIFF"[i] as int && WAVE[i] as int == "WAVE"[i] as int
    ensures FMT[i] as int == "fmt "[i] as int && DATA[i] as int == "data"[i] as int
  {
  }

  lemma WavIsForm(pcm: Bytes, sampleRate: nat, channels: nat)
    ensures WavBytes(pcm, sampleRate, channels)
            == RIFF + Le(36 + |pcm|, 4) + WAVE
               + (ChunkBytes(FMT, FormatBody(sampleRate, channels)) + ChunkBytes(DATA, pcm))
    ensures |ChunkBytes(DATA, pcm)| == 8 + |pcm|
  {
    FormatLength(sampleRate, channels);
    Regroup(RIFF + Le(36 + |pcm|, 4) + WAVE, ChunkBytes(FMT, FormatBody(sampleRate, channels)), ChunkBytes(DATA, pcm));
  }

  lemma Regroup(a: Bytes, b: Bytes, c: Bytes)
    ensures a + b + c == a + (b + c)
  {
  }

  /** Main result: reading what was written recovers the samples, the rate and the channels, of two bytes a sample. */
  lemma ReadsBack(pcm: Bytes, sampleRate: nat, channels: nat)
    requires Fits(|pcm|, sampleRate, channels)
    ensures ReadWave(WavBytes(pcm, sampleRate, channels))
            == Some(Wave(1, channels, sampleRate, sampleRate * (channels * 2), channels * 2, 16, pcm))
  {
    Widths();
    LeRoundTrip(36 + |pcm|, 4);
    WavIsForm(pcm, sampleRate, channels);
    FormatLength(sampleRate, channels);
    FormatRoundTrip(sampleRate, channels, pcm);
    ReadForm(Le(36 + |pcm|, 4), FormatBody(sampleRate, channels), pcm);
  }

  // ---------- The reported duration ----------

  const AWS_POLLY_SAMPLE_RATE := 8000

  function Ceil(x: real): int {
    -((-x).Floor)
  }

  /** Seconds of mono speech in a file of this length. */
  function DurationSeconds(fileLength: nat): int {
    var pcmBytes := if fileLength > WAV_HEADER_SIZE then fileLength - WAV_HEADER_SIZE else 0;
    Ceil(pcmBytes as real / (AWS_POLLY_SAMPLE_RATE * 1 * 2) as real)
  }

  lemma WavLength(pcm: Bytes, sampleRate: nat, channels: nat)
    ensures |WavBytes(pcm, sampleRate, channels)| == WAV_HEADER_SIZE + |pcm|
  {
    FormatLength(sampleRate, channels);
  }

  /** The duration is the least whole number of seconds that holds all samples of the written file. */
  lemma DurationIsTight(pcm: Bytes)
    requires Fits(|pcm|, AWS_POLLY_SAMPLE_RATE, 1)
    ensures var file := WavBytes(pcm, AWS_POLLY_SAMPLE_RATE, 1);
            var (d, wave) := (DurationSeconds(|file|), ReadWave(file));
            wave.Some? && wave.value.byteRate * (d - 1) < |wave.value.samples| <= wave.value.byteRate * d
  {
    ReadsBack(pcm, AWS_POLLY_SAMPLE_RATE, 1);
    WavLength(pcm, AWS_POLLY_SAMPLE_RATE, 1);
    CeilBounds(|pcm|);
  }

  lemma CeilBounds(n: nat)
    ensures var d := Ceil(n as real / (AWS_POLLY_SAMPLE_RATE * 1 * 2) as real); 16000 * (d - 1) < n <= 16000 * d
  {
    var x := n as real / 16000.0;
    assert (AWS_POLLY_SAMPLE_RATE * 1 * 2) as real == 16000.0;
    var d := Ceil(x);
    assert (d - 1) as real < x <= d as real;
  }
}
