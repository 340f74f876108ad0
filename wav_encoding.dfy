/**
  The browser-side audio path of main.js:473-476: the speech reply arrives
  as base64 text holding raw 16-bit mono PCM at 24 kHz; it is decoded into
  bytes, prefixed with a 44-byte RIFF/WAVE header and played.

  `atob` is a browser built-in and is the parameter `atob`: `None` is the
  exception it throws on text that is not base64.
*/
module WavEncoding {
  import opened Wrappers

  newtype byte = x: int | 0 <= x < 256

  const SampleRate: nat := 24000
  const HeaderSize: nat := 44
  const TwoTo16: nat := 0x1_0000
  const TwoTo32: nat := 0x1_0000_0000

  /** The four ASCII tags of the header, as the 32-bit big-endian numbers main.js:474 writes. */
  const RiffTag: nat := 1380533830
  const WaveTag: nat := 1463899717
  const FmtTag: nat := 1718449184
  const DataTag: nat := 1684108385

  datatype WavError = InvalidCharacter | OddLength

  /* ---------------- base64ToArrayBuffer ---------------- */

  /** Byte i is the char code of character i, reduced modulo 256 as a `Uint8Array` store does. */
  function CharBytes(s: string): (bytes: seq<byte>)
    ensures |bytes| == |s|
  {
    seq(|s|, i requires 0 <= i < |s| => (s[i] as int % 256) as byte)
  }

  /** `base64ToArrayBuffer` of main.js:473: decode, then copy char codes one by one. */
  method Base64ToArrayBuffer(b: string, atob: string -> Option<string>) returns (r: Result<seq<byte>, WavError>)
    ensures r.Failure? <==> atob(b).None?
    ensures r.Failure? ==> r.error == InvalidCharacter
    ensures r.Success? ==> |r.value| == |atob(b).value|
    ensures r.Success? ==> forall i :: 0 <= i < |r.value| ==> r.value[i] as int == atob(b).value[i] as int % 256
  {
    var decoded := atob(b);
    if decoded.None? {
      return Failure(InvalidCharacter);
    }
    var s := decoded.value;
    var l := |s|;
    var buffer := new byte[l];
    var i := 0;
    while i < l
      invariant 0 <= i <= l
      invariant forall k :: 0 <= k < i ==> buffer[k] as int == s[k] as int % 256
    {
      buffer[i] := (s[i] as int % 256) as byte;
      i := i + 1;
    }
    r := Success(buffer[..]);
  }

  /** `atob` only yields characters below 256, and then every byte is exactly the char code. */
  lemma CharBytesExact(s: string)
    requires forall i :: 0 <= i < |s| ==> s[i] as int < 256
    ensures forall i :: 0 <= i < |s| ==> CharBytes(s)[i] as int == s[i] as int
  {
  }

  /* ---------------- DataView fields ---------------- */

  /** `DataView.setUint32`: the value taken modulo 2^32, in the requested byte order. */
  function Uint32Bytes(value: int, littleEndian: bool): (bytes: seq<byte>)
    ensures |bytes| == 4
  {
    var v := value % TwoTo32;
    var b0 := (v / 0x100_0000) as byte;
    var b1 := (v / 0x1_0000 % 256) as byte;
    var b2 := (v / 0x100 % 256) as byte;
    var b3 := (v % 256) as byte;
    if littleEndian then [b3, b2, b1, b0] else [b0, b1, b2, b3]
  }

  /** `DataView.setUint16`: the value taken modulo 2^16, in the requested byte order. */
  function Uint16Bytes(value: int, littleEndian: bool): (bytes: seq<byte>)
    ensures |bytes| == 2
  {
    var v := value % TwoTo16;
    var hi := (v / 256) as byte;
    var lo := (v % 256) as byte;
    if littleEndian then [lo, hi] else [hi, lo]
  }

  /** Reading four bytes back, as `DataView.getUint32` does. */
  function ReadUint32(b: seq<byte>, at: nat, littleEndian: bool): nat
    requires at + 4 <= |b|
  {
    if littleEndian then
      b[at] as nat + 0x100 * b[at + 1] as nat + 0x1_0000 * b[at + 2] as nat + 0x100_0000 * b[at + 3] as nat
    else
      b[at + 3] as nat + 0x100 * b[at + 2] as nat + 0x1_0000 * b[at + 1] as nat + 0x100_0000 * b[at] as nat
  }

  function ReadUint16(b: seq<byte>, at: nat, littleEndian: bool): nat
    requires at + 2 <= |b|
  {
    if littleEndian then b[at] as nat + 0x100 * b[at + 1] as nat
    else b[at + 1] as nat + 0x100 * b[at] as nat
  }

  /** A 32-bit field reads back as the value written, reduced modulo 2^32, in either byte order. */
  lemma Uint32RoundTrip(value: int, littleEndian: bool)
    ensures ReadUint32(Uint32Bytes(value, littleEndian), 0, littleEndian) == value % TwoTo32
  {
    var v := value % TwoTo32;
    var q1 := v / 0x100;
    var q2 := q1 / 0x100;
    assert v == v % 256 + 0x100 * q1;
    assert q1 == q1 % 256 + 0x100 * q2;
    assert q2 == q2 % 256 + 0x100 * (q2 / 0x100);
    assert v / 0x1_0000 == q2;
    assert v / 0x100_0000 == q2 / 0x100;
    assert q1 % 256 == v / 0x100 % 256;
  }

  /** A 16-bit field reads back as the value written, reduced modulo 2^16. */
  lemma Uint16RoundTrip(value: int, littleEndian: bool)
    ensures ReadUint16(Uint16Bytes(value, littleEndian), 0, littleEndian) == value % TwoTo16
  {
  }

  /** Reading a field of the middle part of a concatenation. */
  lemma ReadUint32In(a: seq<byte>, b: seq<byte>, c: seq<byte>, at: nat, littleEndian: bool)
    requires at + 4 <= |b|
    ensures ReadUint32(a + b + c, |a| + at, littleEndian) == ReadUint32(b, at, littleEndian)
  {
    var f := a + b + c;
    assert f[|a| + at] == b[at] && f[|a| + at + 1] == b[at + 1];
    assert f[|a| + at + 2] == b[at + 2] && f[|a| + at + 3] == b[at + 3];
  }

  lemma ReadUint16In(a: seq<byte>, b: seq<byte>, c: seq<byte>, at: nat, littleEndian: bool)
    requires at + 2 <= |b|
    ensures ReadUint16(a + b + c, |a| + at, littleEndian) == ReadUint16(b, at, littleEndian)
  {
    var f := a + b + c;
    assert f[|a| + at] == b[at] && f[|a| + at + 1] == b[at + 1];
  }

  /* ---------------- The header ---------------- */

  /** The RIFF chunk header: tag, chunk size 36 + n, form type. */
  function RiffHeader(n: nat): (h: seq<byte>)
    ensures |h| == 12
  {
    Uint32Bytes(RiffTag, false) + Uint32Bytes(36 + n, true) + Uint32Bytes(WaveTag, false)
  }

  /** The `fmt ` chunk: 16 bytes of PCM format, one channel, 24000 Hz, 16 bits. */
  function FmtChunk(): (h: seq<byte>)
    ensures |h| == 24
  {
    Uint32Bytes(FmtTag, false) + Uint32Bytes(16, true) + Uint16Bytes(1, true) + Uint16Bytes(1, true)
    + Uint32Bytes(SampleRate, true) + Uint32Bytes(SampleRate * 2, true) + Uint16Bytes(2, true)
    + Uint16Bytes(16, true)
  }

  /** The `data` chunk header: tag and byte count. */
  function DataHeader(n: nat): (h: seq<byte>)
    ensures |h| == 8
  {
    Uint32Bytes(DataTag, false) + Uint32Bytes(n, true)
  }

  /** The 44-byte header main.js:474 writes for `n` bytes of PCM. */
  function Header(n: nat): (h: seq<byte>)
    ensures |h| == HeaderSize
  {
    RiffHeader(n) + FmtChunk() + DataHeader(n)
  }

  lemma RiffHeaderFields(n: nat)
    ensures ReadUint32(RiffHeader(n), 0, false) == RiffTag
    ensures ReadUint32(RiffHeader(n), 4, true) == (36 + n) % TwoTo32
    ensures ReadUint32(RiffHeader(n), 8, false) == WaveTag
  {
    var f0, f1, f2 := Uint32Bytes(RiffTag, false), Uint32Bytes(36 + n, true), Uint32Bytes(WaveTag, false);
    Uint32RoundTrip(RiffTag, false);
    Uint32RoundTrip(36 + n, true);
    Uint32RoundTrip(WaveTag, false);
    ReadUint32In([], f0, f1 + f2, 0, false);
    assert [] + f0 + (f1 + f2) == RiffHeader(n);
    ReadUint32In(f0, f1, f2, 0, true);
    ReadUint32In(f0 + f1, f2, [], 0, false);
    assert f0 + f1 + f2 + [] == RiffHeader(n);
  }

  /** The `fmt ` chunk byte by byte: "fmt ", 16, 1, 1, 24000, 48000, 2, 16, the numbers little-endian. */
  lemma FmtChunkBytes()
    ensures FmtChunk() == [0x66, 0x6D, 0x74, 0x20, 0x10, 0x00, 0x00, 0x00, 0x01, 0x00, 0x01, 0x00,
                           0xC0, 0x5D, 0x00, 0x00, 0x80, 0xBB, 0x00, 0x00, 0x02, 0x00, 0x10, 0x00]
  {
  }

  lemma FmtChunkFields()
    ensures ReadUint32(FmtChunk(), 0, false) == FmtTag
    ensures ReadUint32(FmtChunk(), 4, true) == 16
    ensures ReadUint16(FmtChunk(), 8, true) == 1
    ensures ReadUint16(FmtChunk(), 10, true) == 1
    ensures ReadUint32(FmtChunk(), 12, true) == SampleRate
    ensures ReadUint32(FmtChunk(), 16, true) == SampleRate * 2
    ensures ReadUint16(FmtChunk(), 20, true) == 2
    ensures ReadUint16(FmtChunk(), 22, true) == 16
  {
    FmtChunkBytes();
  }

  lemma DataHeaderFields(n: nat)
    ensures ReadUint32(DataHeader(n), 0, false) == DataTag
    ensures ReadUint32(DataHeader(n), 4, true) == n % TwoTo32
  {
    var f0, f1 := Uint32Bytes(DataTag, false), Uint32Bytes(n, true);
    Uint32RoundTrip(DataTag, false);
    Uint32RoundTrip(n, true);
    ReadUint32In([], f0, f1, 0, false);
    ReadUint32In(f0, f1, [], 0, true);
    assert [] + f0 + f1 == DataHeader(n) == f0 + f1 + [];
  }

  /** The tags are the ASCII codes of "RIFF", "WAVE", "fmt " and "data". */
  lemma TagsSpellAscii()
    ensures Uint32Bytes(RiffTag, false) == [0x52, 0x49, 0x46, 0x46]
    ensures Uint32Bytes(WaveTag, false) == [0x57, 0x41, 0x56, 0x45]
    ensures Uint32Bytes(FmtTag, false) == [0x66, 0x6D, 0x74, 0x20]
    ensures Uint32Bytes(DataTag, false) == [0x64, 0x61, 0x74, 0x61]
  {
  }

  /** What a WAVE reader finds in the header fields. */
  datatype WavInfo = WavInfo(
    riff: nat, chunkSize: nat, wave: nat, fmt: nat, fmtSize: nat, format: nat, channels: nat,
    sampleRate: nat, byteRate: nat, blockAlign: nat, bitsPerSample: nat, data: nat, dataSize: nat,
    samples: seq<byte>)

  /** Reading a file back: the header fields at their offsets, then the sample bytes. */
  function ParseWav(file: seq<byte>): (r: Option<WavInfo>)
    ensures r.Some? <==> |file| >= HeaderSize
  {
    if |file| < HeaderSize then None
    else Some(WavInfo(
      ReadUint32(file, 0, false), ReadUint32(file, 4, true), ReadUint32(file, 8, false),
      ReadUint32(file, 12, false), ReadUint32(file, 16, true), ReadUint16(file, 20, true),
      ReadUint16(file, 22, true), ReadUint32(file, 24, true), ReadUint32(file, 28, true),
      ReadUint16(file, 32, true), ReadUint16(file, 34, true), ReadUint32(file, 36, false),
      ReadUint32(file, 40, true), file[HeaderSize..]))
  }

  lemma HeaderRiffReads(pcm: seq<byte>)
    ensures var file := Header(|pcm|) + pcm;
      && ReadUint32(file, 0, false) == RiffTag
      && ReadUint32(file, 4, true) == (36 + |pcm|) % TwoTo32
      && ReadUint32(file, 8, false) == WaveTag
  {
    var n := |pcm|;
    var riff, rest := RiffHeader(n), FmtChunk() + DataHeader(n) + pcm;
    RiffHeaderFields(n);
    assert Header(n) + pcm == [] + riff + rest;
    ReadUint32In([], riff, rest, 0, false);
    ReadUint32In([], riff, rest, 4, true);
    ReadUint32In([], riff, rest, 8, false);
  }

  lemma HeaderFmtReads(pcm: seq<byte>)
    ensures var file := Header(|pcm|) + pcm;
      && ReadUint32(file, 12, false) == FmtTag
      && ReadUint32(file, 16, true) == 16
      && ReadUint16(file, 20, true) == 1
      && ReadUint16(file, 22, true) == 1
      && ReadUint32(file, 24, true) == SampleRate
      && ReadUint32(file, 28, true) == SampleRate * 2
      && ReadUint16(file, 32, true) == 2
      && ReadUint16(file, 34, true) == 16
  {
    var n := |pcm|;
    var riff, fmt, rest := RiffHeader(n), FmtChunk(), DataHeader(n) + pcm;
    FmtChunkFields();
    assert Header(n) + pcm == riff + fmt + rest;
    ReadUint32In(riff, fmt, rest, 0, false);
    ReadUint32In(riff, fmt, rest, 4, true);
    ReadUint16In(riff, fmt, rest, 8, true);
    ReadUint16In(riff, fmt, rest, 10, true);
    ReadUint32In(riff, fmt, rest, 12, true);
    ReadUint32In(riff, fmt, rest, 16, true);
    ReadUint16In(riff, fmt, rest, 20, true);
    ReadUint16In(riff, fmt, rest, 22, true);
  }

  lemma HeaderDataReads(pcm: seq<byte>)
    ensures var file := Header(|pcm|) + pcm;
      && ReadUint32(file, 36, false) == DataTag
      && ReadUint32(file, 40, true) == |pcm| % TwoTo32
      && file[HeaderSize..] == pcm
  {
    var n := |pcm|;
    var front, data := RiffHeader(n) + FmtChunk(), DataHeader(n);
    DataHeaderFields(n);
    assert Header(n) + pcm == front + data + pcm;
    ReadUint32In(front, data, pcm, 0, false);
    ReadUint32In(front, data, pcm, 4, true);
  }

  /**
    The header reads back field by field: the tags, a RIFF chunk size of
    36 + n (the file length less 8), the PCM format with one channel at
    24000 Hz, 48000 bytes a second, two-byte frames of 16 bits, and a data
    size of n; after it come exactly the PCM bytes. The 32-bit sizes wrap at
    2^32 as `setUint32` does.
  */
  lemma HeaderRoundTrip(pcm: seq<byte>)
    ensures ParseWav(Header(|pcm|) + pcm) == Some(WavInfo(
      RiffTag, (36 + |pcm|) % TwoTo32, WaveTag, FmtTag, 16, 1, 1,
      SampleRate, SampleRate * 2, 2, 16, DataTag, |pcm| % TwoTo32, pcm))
  {
    HeaderRiffReads(pcm);
    HeaderFmtReads(pcm);
    HeaderDataReads(pcm);
  }

  /* ---------------- pcmToWavBlob ---------------- */

  /** What `pcmToWavBlob` yields for the base64 text `d`: the header, then the PCM bytes. */
  function WavBlob(d: string, atob: string -> Option<string>): (r: Result<seq<byte>, WavError>)
  {
    match atob(d)
    case None => Failure(InvalidCharacter)
    case Some(s) => if |s| % 2 == 1 then Failure(OddLength) else Success(Header(|s|) + CharBytes(s))
  }

  /** The blob is 44 bytes longer than the PCM, and its chunk size is its length less 8. */
  lemma WavBlobLength(d: string, atob: string -> Option<string>)
    requires WavBlob(d, atob).Success?
    ensures |WavBlob(d, atob).value| == HeaderSize + |atob(d).value|
    ensures ParseWav(WavBlob(d, atob).value).Some?
    ensures ParseWav(WavBlob(d, atob).value).value.chunkSize == (|WavBlob(d, atob).value| - 8) % TwoTo32
    ensures ParseWav(WavBlob(d, atob).value).value.samples == CharBytes(atob(d).value)
  {
    HeaderRoundTrip(CharBytes(atob(d).value));
  }

  /** `view.setUint32(offset, value, littleEndian)` on the header buffer. */
  method SetUint32(view: array<byte>, offset: nat, value: int, littleEndian: bool)
    requires offset + 4 <= view.Length
    modifies view
    ensures forall i :: 0 <= i < view.Length ==>
      view[i] == if offset <= i < offset + 4 then Uint32Bytes(value, littleEndian)[i - offset] else old(view[i])
  {
    var bytes := Uint32Bytes(value, littleEndian);
    view[offset] := bytes[0];
    view[offset + 1] := bytes[1];
    view[offset + 2] := bytes[2];
    view[offset + 3] := bytes[3];
  }

  /** `view.setUint16(offset, value, littleEndian)` on the header buffer. */
  method SetUint16(view: array<byte>, offset: nat, value: int, littleEndian: bool)
    requires offset + 2 <= view.Length
    modifies view
    ensures forall i :: 0 <= i < view.Length ==>
      view[i] == if offset <= i < offset + 2 then Uint16Bytes(value, littleEndian)[i - offset] else old(view[i])
  {
    var bytes := Uint16Bytes(value, littleEndian);
    view[offset] := bytes[0];
    view[offset + 1] := bytes[1];
  }

  /** The first three fields of main.js:474, bytes 0 to 11. */
  method WriteRiffHeader(h: array<byte>, byteLength: nat)
    requires h.Length == HeaderSize
    modifies h
    ensures forall i :: 0 <= i < 12 ==> h[i] == RiffHeader(byteLength)[i]
    ensures forall i :: 12 <= i < HeaderSize ==> h[i] == old(h[i])
  {
    SetUint32(h, 0, RiffTag, false);
    SetUint32(h, 4, 36 + byteLength, true);
    SetUint32(h, 8, WaveTag, false);
  }

  /** The `fmt ` chunk fields of main.js:474, bytes 12 to 35. */
  method WriteFmtChunk(h: array<byte>)
    requires h.Length == HeaderSize
    modifies h
    ensures forall i :: 12 <= i < 36 ==> h[i] == FmtChunk()[i - 12]
    ensures forall i :: 0 <= i < 12 || 36 <= i < HeaderSize ==> h[i] == old(h[i])
  {
    SetUint32(h, 12, FmtTag, false);
    SetUint32(h, 16, 16, true);
    SetUint16(h, 20, 1, true);
    SetUint16(h, 22, 1, true);
    assert h[12..24] == Uint32Bytes(FmtTag, false) + Uint32Bytes(16, true) + Uint16Bytes(1, true) + Uint16Bytes(1, true);
    ghost var h1 := h[..];
    SetUint32(h, 24, SampleRate, true);
    SetUint32(h, 28, SampleRate * 2, true);
    SetUint16(h, 32, 2, true);
    SetUint16(h, 34, 16, true);
    assert h[24..36] == Uint32Bytes(SampleRate, true) + Uint32Bytes(SampleRate * 2, true) + Uint16Bytes(2, true) + Uint16Bytes(16, true);
    assert h[12..24] == h1[12..24];
    assert h[12..36] == h[12..24] + h[24..36];
  }

  /** The `data` chunk fields of main.js:474, bytes 36 to 43. */
  method WriteDataHeader(h: array<byte>, byteLength: nat)
    requires h.Length == HeaderSize
    modifies h
    ensures forall i :: 36 <= i < HeaderSize ==> h[i] == DataHeader(byteLength)[i - 36]
    ensures forall i :: 0 <= i < 36 ==> h[i] == old(h[i])
  {
    SetUint32(h, 36, DataTag, false);
    SetUint32(h, 40, byteLength, true);
  }

  /** The header part of main.js:474: a fresh 44-byte buffer filled through the DataView setters. */
  method NewHeader(byteLength: nat) returns (h: array<byte>)
    ensures fresh(h) && h[..] == Header(byteLength)
  {
    h := new byte[HeaderSize];
    WriteRiffHeader(h, byteLength);
    WriteFmtChunk(h);
    WriteDataHeader(h, byteLength);
    forall i | 0 <= i < HeaderSize
      ensures h[i] == Header(byteLength)[i]
    {
      if i < 12 {
      } else if i < 36 {
      } else {
      }
    }
  }

  /**
    `pcmToWavBlob` of main.js:474: decode the PCM, view it as 16-bit samples
    (an odd byte count throws), fill a fresh 44-byte header through the
    DataView setters, and return header and PCM bytes together.
  */
  method PcmToWavBlob(d: string, atob: string -> Option<string>) returns (r: Result<seq<byte>, WavError>)
    ensures r == WavBlob(d, atob)
  {
    var decoded := Base64ToArrayBuffer(d, atob);
    if decoded.Failure? {
      return Failure(decoded.error);
    }
    var pcm := decoded.value;
    assert pcm == CharBytes(atob(d).value);
    if |pcm| % 2 == 1 {
      return Failure(OddLength);
    }
    var h := NewHeader(|pcm|);
    r := Success(h[..] + pcm);
  }

  /* ---------------- playAudioFromData ---------------- */

  /**
    `playAudioFromData` of main.js:476: nothing is played when speech is
    switched off or there is no audio (null or the empty string); otherwise
    the WAV is built and played, and a decoding failure or an odd byte count
    is caught and nothing is played. The result is the file handed to the
    audio element.
  */
  method PlayAudioFromData(ttsEnabled: bool, d: Option<string>, atob: string -> Option<string>)
    returns (played: Option<seq<byte>>)
    ensures played.Some? <==> ttsEnabled && d.Some? && d.value != "" && WavBlob(d.value, atob).Success?
    ensures played.Some? ==> played.value == WavBlob(d.value, atob).value
  {
    if !ttsEnabled || d.None? || d.value == "" {
      return None;
    }
    var blob := PcmToWavBlob(d.value, atob);
    if blob.Failure? {
      return None;
    }
    played := Some(blob.value);
  }
}
