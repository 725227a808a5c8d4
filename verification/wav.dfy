/**
 * The iOS recording screen's WAV serialiser (AudioRecordView.swift): PCM
 * chunks gathered in arrival order, and `createWAV`, which puts a 44-byte
 * RIFF WAVE header (a `fmt ` chunk with format tag 3, WAVE_FORMAT_IEEE_FLOAT,
 * then a `data` chunk) in front of them, little-endian as the RIFF format of
 * the IBM/Microsoft Multimedia Programming Interface and Data Specifications
 * 1.0 lays it out.
 */
module Wav {
  import opened Wrappers

  type Byte = x: int | 0 <= x < 0x100
  type U16 = x: int | 0 <= x < 0x1_0000
  type U32 = x: int | 0 <= x < 0x1_0000_0000

  /** `append(uint16:)`: two bytes, least significant first. */
  function LE16(v: U16): (b: seq<Byte>)
    ensures |b| == 2
  {
    [v % 0x100, v / 0x100]
  }

  /** `append(uint32:)`: four bytes, least significant first. */
  function LE32(v: U32): (b: seq<Byte>)
    ensures |b| == 4
  {
    [v % 0x100, v / 0x100 % 0x100, v / 0x1_0000 % 0x100, v / 0x100_0000]
  }

  /** Reads back what `LE16` writes. */
  function FromLE16(b: seq<Byte>): U16
    requires |b| == 2
  {
    b[0] as int + 0x100 * (b[1] as int)
  }

  /** Reads back what `LE32` writes. */
  function FromLE32(b: seq<Byte>): U32
    requires |b| == 4
  {
    b[0] as int + 0x100 * (b[1] as int) + 0x1_0000 * (b[2] as int) + 0x100_0000 * (b[3] as int)
  }

  lemma LE16RoundTrip(v: U16, b: seq<Byte>)
    requires |b| == 2
    ensures FromLE16(LE16(v)) == v
    ensures LE16(FromLE16(b)) == b
  {
  }

  /** Splitting a 32-bit value into its four bytes. */
  lemma {:induction false} DigitsOf32(v: U32)
    ensures v == v % 0x100 + 0x100 * (v / 0x100 % 0x100) + 0x1_0000 * (v / 0x1_0000 % 0x100)
                 + 0x100_0000 * (v / 0x100_0000)
  {
    var q1 := v / 0x100;
    var q2 := q1 / 0x100;
    assert v == v % 0x100 + 0x100 * q1;
    assert q1 == q1 % 0x100 + 0x100 * q2;
    assert q2 == v / 0x1_0000;
    assert q2 == q2 % 0x100 + 0x100 * (q2 / 0x100);
    assert q2 / 0x100 == v / 0x100_0000;
  }

  /** The four bytes of a 32-bit value determine it, and every four bytes are
      the encoding of the value they read as. */
  lemma LE32RoundTrip(v: U32, b: seq<Byte>)
    requires |b| == 4
    ensures FromLE32(LE32(v)) == v
    ensures LE32(FromLE32(b)) == b
  {
    DigitsOf32(v);
    BytesOf32(b);
  }

  /** Reading four bytes and writing the value back gives the same bytes. */
  lemma BytesOf32(b: seq<Byte>)
    requires |b| == 4
    ensures LE32(FromLE32(b)) == b
  {
    var w := FromLE32(b);
    var u: int := b[2] as int + 0x100 * (b[3] as int);
    var t: int := b[1] as int + 0x100 * u;
    assert w == b[0] as int + 0x100 * t;
    DivModByte(w, b[0] as int, t);
    DivModByte(t, b[1] as int, u);
    DivModByte(u, b[2] as int, b[3] as int);
    assert w / 0x1_0000 == u;
    assert w / 0x100_0000 == b[3];
  }

  /** The low byte and the rest of `lo + 256 * hi`. */
  lemma DivModByte(x: int, lo: int, hi: int)
    requires 0 <= lo < 0x100 && x == lo + 0x100 * hi
    ensures x % 0x100 == lo && x / 0x100 == hi
  {
  }

  /** The tag bytes: the ASCII codes of "RIFF", "WAVE", "fmt " and "data". */
  const Riff: seq<Byte> := [0x52, 0x49, 0x46, 0x46]
  const Wave: seq<Byte> := [0x57, 0x41, 0x56, 0x45]
  const Fmt: seq<Byte> := [0x66, 0x6D, 0x74, 0x20]
  const DataTag: seq<Byte> := [0x64, 0x61, 0x74, 0x61]

  /** `[UInt8](s.utf8)` for ASCII text. */
  function Ascii(s: string): (b: seq<Byte>)
    requires forall i :: 0 <= i < |s| ==> s[i] as int < 0x80
    ensures |b| == |s| && forall i :: 0 <= i < |s| ==> b[i] == s[i] as int
  {
    if |s| == 0 then [] else [s[0] as int] + Ascii(s[1..])
  }

  lemma TagsAreAscii()
    ensures Riff == Ascii("RIFF") && Wave == Ascii("WAVE") && Fmt == Ascii("fmt ") && DataTag == Ascii("data")
  {
  }

  /** The header's numeric fields. */
  datatype Header = Header(riffSize: U32, fmtSize: U32, format: U16, channels: U16, sampleRate: U32,
                           byteRate: U32, blockAlign: U16, bitsPerSample: U16, dataSize: U32)

  /** The 44 header bytes, in the order `createWAV` appends them. */
  function EncodeHeader(h: Header): (b: seq<Byte>)
    ensures |b| == 44
  {
    Riff + LE32(h.riffSize) + Wave + Fmt + LE32(h.fmtSize) + LE16(h.format) + LE16(h.channels)
    + LE32(h.sampleRate) + LE32(h.byteRate) + LE16(h.blockAlign) + LE16(h.bitsPerSample)
    + DataTag + LE32(h.dataSize)
  }

  /** A reader for this layout: the tags at offsets 0, 8, 12 and 36, the
      fields between them, and the bytes after offset 44. */
  function ParseWav(b: seq<Byte>): Option<(Header, seq<Byte>)> {
    if |b| < 44 || b[0..4] != Riff || b[8..12] != Wave || b[12..16] != Fmt || b[36..40] != DataTag then None
    else
      Some((Header(FromLE32(b[4..8]), FromLE32(b[16..20]), FromLE16(b[20..22]), FromLE16(b[22..24]),
                   FromLE32(b[24..28]), FromLE32(b[28..32]), FromLE16(b[32..34]), FromLE16(b[34..36]),
                   FromLE32(b[40..44])),
            b[44..]))
  }

  /** Each field sits at its offset in the encoded header. */
  lemma HeaderLayout(h: Header, pcm: seq<Byte>)
    ensures var b := EncodeHeader(h) + pcm;
            && b[0..4] == Riff && b[4..8] == LE32(h.riffSize) && b[8..12] == Wave && b[12..16] == Fmt
            && b[16..20] == LE32(h.fmtSize) && b[20..22] == LE16(h.format) && b[22..24] == LE16(h.channels)
            && b[24..28] == LE32(h.sampleRate) && b[28..32] == LE32(h.byteRate)
            && b[32..34] == LE16(h.blockAlign) && b[34..36] == LE16(h.bitsPerSample)
            && b[36..40] == DataTag && b[40..44] == LE32(h.dataSize) && b[44..] == pcm
  {
  }

  /** Reading a written header and data gives them back. */
  lemma ParseEncoded(h: Header, pcm: seq<Byte>)
    ensures ParseWav(EncodeHeader(h) + pcm) == Some((h, pcm))
  {
    HeaderLayout(h, pcm);
    var b := EncodeHeader(h) + pcm;
    LE32RoundTrip(h.riffSize, b[4..8]);
    LE32RoundTrip(h.fmtSize, b[16..20]);
    LE16RoundTrip(h.format, b[20..22]);
    LE16RoundTrip(h.channels, b[22..24]);
    LE32RoundTrip(h.sampleRate, b[24..28]);
    LE32RoundTrip(h.byteRate, b[28..32]);
    LE16RoundTrip(h.blockAlign, b[32..34]);
    LE16RoundTrip(h.bitsPerSample, b[34..36]);
    LE32RoundTrip(h.dataSize, b[40..44]);
  }

  /** WAVE_FORMAT_IEEE_FLOAT. */
  const IeeeFloat: U16 := 3

  /** Whether `createWAV`'s conversions and unsigned arithmetic stay in range.
      Swift traps otherwise: `UInt32(pcmData.count)`, `UInt32(sampleRate)`,
      the two products of `byteRate`, `blockAlign` in 16 bits, and
      `36 + dataSize`. */
  predicate FitsWav(size: nat, sampleRate: int, channels: U16, bitsPerSample: U16) {
    && 36 + size < 0x1_0000_0000
    && 0 <= sampleRate < 0x1_0000_0000
    && sampleRate * channels < 0x1_0000_0000
    && sampleRate * channels * (bitsPerSample / 8) < 0x1_0000_0000
    && channels * (bitsPerSample / 8) < 0x1_0000
  }

  /** The header `createWAV` writes for `size` PCM bytes: RIFF size
      36 + data size, `fmt ` size 16, format 3, the channels, rate and bit depth
      given, byte rate rate * channels * bytes per sample, block align
      channels * bytes per sample, data size the PCM length. */
  function WavHeader(size: nat, sampleRate: int, channels: U16, bitsPerSample: U16): Header
    requires FitsWav(size, sampleRate, channels, bitsPerSample)
  {
    var bytesPerSample := bitsPerSample / 8;
    Header(36 + size, 16, IeeeFloat, channels, sampleRate, sampleRate * channels * bytesPerSample,
           channels * bytesPerSample, bitsPerSample, size)
  }

  /** `createWAV(from:sampleRate:channels:bitsPerSample:)`, with a whole-number
      sample rate. None stands for a runtime trap: the function never returns
      nil itself. The output is 44 header bytes followed by the PCM bytes
      unchanged. */
  function CreateWav(pcm: seq<Byte>, sampleRate: int, channels: U16, bitsPerSample: U16): (r: Option<seq<Byte>>)
    ensures r.Some? <==> FitsWav(|pcm|, sampleRate, channels, bitsPerSample)
    ensures r.Some? ==> |r.value| == 44 + |pcm| && r.value[44..] == pcm
  {
    if !FitsWav(|pcm|, sampleRate, channels, bitsPerSample) then None
    else Some(EncodeHeader(WavHeader(|pcm|, sampleRate, channels, bitsPerSample)) + pcm)
  }

  /** What `createWAV` writes reads back as its header fields and the PCM
      bytes: the tags at their offsets and every field little-endian. */
  lemma CreateWavReadsBack(pcm: seq<Byte>, sampleRate: int, channels: U16, bitsPerSample: U16)
    requires FitsWav(|pcm|, sampleRate, channels, bitsPerSample)
    ensures var r := CreateWav(pcm, sampleRate, channels, bitsPerSample);
            var bytesPerSample := bitsPerSample / 8;
            && r.Some?
            && ParseWav(r.value) == Some((Header(36 + |pcm|, 16, 3, channels, sampleRate,
                                                 sampleRate * channels * bytesPerSample, channels * bytesPerSample,
                                                 bitsPerSample, |pcm|), pcm))
  {
    ParseEncoded(WavHeader(|pcm|, sampleRate, channels, bitsPerSample), pcm);
  }

  /** The recorder's own format (`playRecording`): 48 kHz, mono, 32-bit
      float, so 192000 bytes a second in blocks of 4. */
  lemma PlaybackFormat(pcm: seq<Byte>)
    requires 36 + |pcm| < 0x1_0000_0000
    ensures var r := CreateWav(pcm, 48000, 1, 32);
            r.Some? && ParseWav(r.value) == Some((Header(36 + |pcm|, 16, 3, 1, 48000, 192000, 4, 32, |pcm|), pcm))
  {
    CreateWavReadsBack(pcm, 48000, 1, 32);
  }

  /** `UInt8(bitPattern:)` on a Kotlin `Byte`: the same eight bits, unsigned. */
  function BitPattern(b: int): (u: Byte)
    requires -0x80 <= b < 0x80
    ensures u == b || u == b + 0x100
  {
    if b < 0 then b + 0x100 else b
  }

  /** Reading the unsigned byte back as signed gives the original. */
  lemma BitPatternRoundTrip(b: int)
    requires -0x80 <= b < 0x80
    ensures var u := BitPattern(b); (if u >= 0x80 then u - 0x100 else u) == b
  {
  }

  /** A chunk as the recording callback copies it. */
  function CopyChunk(data: seq<int>): (chunk: seq<Byte>)
    requires forall i :: 0 <= i < |data| ==> -0x80 <= data[i] < 0x80
    ensures |chunk| == |data| && forall i :: 0 <= i < |data| ==> chunk[i] == BitPattern(data[i])
  {
    if |data| == 0 then [] else [BitPattern(data[0])] + CopyChunk(data[1..])
  }

  /** All chunks, one after another. */
  function Flatten(chunks: seq<seq<Byte>>): seq<Byte>
    decreases |chunks|
  {
    if |chunks| == 0 then [] else Flatten(chunks[..|chunks| - 1]) + chunks[|chunks| - 1]
  }

  function SumSizes(chunks: seq<seq<Byte>>): nat
    decreases |chunks|
  {
    if |chunks| == 0 then 0 else SumSizes(chunks[..|chunks| - 1]) + |chunks[|chunks| - 1]|
  }

  /** The played bytes are as many as all the chunks hold. */
  lemma {:induction false} FlattenLength(chunks: seq<seq<Byte>>)
    ensures |Flatten(chunks)| == SumSizes(chunks)
    decreases |chunks|
  {
    if |chunks| > 0 {
      FlattenLength(chunks[..|chunks| - 1]);
    }
  }

  /** Each chunk's bytes appear, in order, at the offset the earlier chunks
      add up to. */
  lemma {:induction false} FlattenPlacesChunks(chunks: seq<seq<Byte>>, k: nat)
    requires k < |chunks|
    ensures SumSizes(chunks[..k]) + |chunks[k]| <= |Flatten(chunks)|
    ensures Flatten(chunks)[SumSizes(chunks[..k])..SumSizes(chunks[..k]) + |chunks[k]|] == chunks[k]
    decreases |chunks|
  {
    var n := |chunks| - 1;
    FlattenLength(chunks[..n]);
    assert chunks[..n + 1] == chunks;
    if k < n {
      FlattenPlacesChunks(chunks[..n], k);
      assert chunks[..n][..k] == chunks[..k];
    } else {
      assert chunks[..k] == chunks[..n];
    }
  }

  /** The `for chunk in pcmChunks { rawPCM.append(chunk) }` loop. */
  method ConcatChunks(chunks: seq<seq<Byte>>) returns (raw: seq<Byte>)
    ensures raw == Flatten(chunks)
    ensures |raw| == SumSizes(chunks)
  {
    raw := [];
    var i := 0;
    while i < |chunks|
      invariant 0 <= i <= |chunks|
      invariant raw == Flatten(chunks[..i])
    {
      assert chunks[..i + 1][..i] == chunks[..i];
      raw := raw + chunks[i];
      i := i + 1;
    }
    assert chunks[..i] == chunks;
    FlattenLength(chunks);
  }

  /** The recording screen's PCM state: `totalBytes`, `pcmChunks`,
      `hasRecording`. */
  datatype Recording = Recording(totalBytes: nat, chunks: seq<seq<Byte>>, hasRecording: bool)

  /** `totalBytes` counts exactly the bytes held. */
  predicate Consistent(r: Recording) {
    r.totalBytes == SumSizes(r.chunks)
  }

  /** `startRecording`: counters and chunks cleared. */
  function StartRecording(): (r: Recording)
    ensures Consistent(r) && |r.chunks| == 0 && !r.hasRecording
  {
    Recording(0, [], false)
  }

  /** One callback delivery: the size added and the chunk appended, together. */
  function Receive(r: Recording, chunk: seq<Byte>): (r': Recording)
    ensures Consistent(r) ==> Consistent(r')
    ensures Flatten(r'.chunks) == Flatten(r.chunks) + chunk
    ensures r'.hasRecording == r.hasRecording
  {
    Recording(r.totalBytes + |chunk|, r.chunks + [chunk], r.hasRecording)
  }

  /** `stopRecording`: a recording exists once some bytes arrived (an earlier
      one stays marked). */
  function StopRecording(r: Recording): (r': Recording)
    ensures r'.hasRecording <==> r.hasRecording || r.totalBytes > 0
    ensures r'.chunks == r.chunks && r'.totalBytes == r.totalBytes
  {
    if r.totalBytes > 0 then r.(hasRecording := true) else r
  }

  function ReceiveAll(r: Recording, chunks: seq<seq<Byte>>): Recording
    decreases |chunks|
  {
    if |chunks| == 0 then r else Receive(ReceiveAll(r, chunks[..|chunks| - 1]), chunks[|chunks| - 1])
  }

  /** A fresh recording fed some chunks holds them in arrival order, counts
      their bytes, and is marked on stop exactly when they hold any. */
  lemma {:induction false} RecordingHoldsChunks(chunks: seq<seq<Byte>>)
    ensures var r := ReceiveAll(StartRecording(), chunks);
            && r.chunks == chunks && Consistent(r)
            && r.totalBytes == |Flatten(chunks)|
            && (StopRecording(r).hasRecording <==> |Flatten(chunks)| > 0)
    decreases |chunks|
  {
    if |chunks| > 0 {
      RecordingHoldsChunks(chunks[..|chunks| - 1]);
      assert chunks[..|chunks| - 1] + [chunks[|chunks| - 1]] == chunks;
    }
    FlattenLength(chunks);
  }

  /** `playRecording`'s bytes: nothing without chunks; otherwise the WAV of all
      chunks at 48 kHz, mono, 32 bits. */
  function PlaybackBytes(r: Recording): (w: Option<seq<Byte>>)
    ensures |r.chunks| == 0 ==> w.None?
    ensures |r.chunks| > 0 && 36 + |Flatten(r.chunks)| < 0x1_0000_0000 ==>
              w.Some? && |w.value| == 44 + |Flatten(r.chunks)| && w.value[44..] == Flatten(r.chunks)
  {
    if |r.chunks| == 0 then None else CreateWav(Flatten(r.chunks), 48000, 1, 32)
  }
}
