/**
 * Decoding of the speech audio the text-to-speech service returns: base64
 * text becomes a binary string (`atob`), the binary string becomes a
 * `Uint8Array` one character code at a time, the bytes are read as signed
 * 16-bit little-endian PCM (`new Int16Array(data.buffer)`), and each sample
 * is scaled by 1/32768 into a mono channel at 24000 Hz.
 *
 * The same `decode` and `decodeAudioData` helpers appear in the voice
 * assistant and in the diet planner; both use this module.
 */
module Pcm {
  import opened Wrappers
  import Base64

  type byte = Base64.byte

  /** The sample rate of the audio context and of the buffer. */
  const SampleRate: nat := 24000

  /** The divisor that maps a 16-bit sample into [-1, 1). */
  const Scale: real := 32768.0

  /** A string whose characters all have codes below 256, as `atob` returns. */
  predicate IsBinaryString(s: string)
  {
    forall i :: 0 <= i < |s| ==> s[i] as int < 256
  }

  /**
   * `atob(s)`: one character per decoded byte, with that byte as its code;
   * `None` where `atob` throws.
   */
  function Atob(s: string): (r: Option<string>)
    ensures r.Some? <==> Base64.Decode(s).Some?
    ensures r.Some? ==> IsBinaryString(r.value)
    ensures r.Some? ==> |r.value| == |Base64.Decode(s).value|
    ensures r.Some? ==> forall i :: 0 <= i < |r.value| ==> r.value[i] as int == Base64.Decode(s).value[i]
  {
    match Base64.Decode(s)
    case None => None
    case Some(bytes) => Some(seq(|bytes|, i requires 0 <= i < |bytes| => bytes[i] as char))
  }

  /**
   * `decode`: `atob`, then a loop storing each character code into a fresh
   * `Uint8Array`. `None` where `atob` throws.
   */
  method Decode(base64: string) returns (r: Option<array<byte>>)
    ensures r.Some? <==> Base64.Decode(base64).Some?
    ensures r.Some? ==> r.value[..] == Base64.Decode(base64).value
  {
    var binary := Atob(base64);
    if binary.None? {
      return None;
    }
    var text := binary.value;
    var bytes := new byte[|text|];
    for i := 0 to |text|
      invariant forall j :: 0 <= j < i ==> bytes[j] == text[j] as int
    {
      bytes[i] := text[i] as int;
    }
    return Some(bytes);
  }

  /** The signed 16-bit integer stored little-endian in the bytes `lo`, `hi` (two's complement). */
  function Int16LE(lo: byte, hi: byte): (v: int)
    ensures -32768 <= v < 32768
    ensures (v - lo - 256 * hi) % 65536 == 0
  {
    var u := lo + 256 * hi;
    if u >= 32768 then u - 65536 else u
  }

  /** The two bytes, low first, that store a 16-bit signed value. */
  function Int16Bytes(v: int): (b: (byte, byte))
    requires -32768 <= v < 32768
  {
    var u := if v < 0 then v + 65536 else v;
    (u % 256, u / 256)
  }

  /** Reading back the bytes of a value gives the value. */
  lemma Int16BytesRoundTrip(v: int)
    requires -32768 <= v < 32768
    ensures Int16LE(Int16Bytes(v).0, Int16Bytes(v).1) == v
  {
  }

  /** Writing the value read from two bytes gives the bytes: no two byte pairs share a value. */
  lemma Int16LERoundTrip(lo: byte, hi: byte)
    ensures Int16Bytes(Int16LE(lo, hi)) == (lo, hi)
  {
  }

  /** `dataInt16[i] / 32768.0`: the sample a 16-bit value stands for, exactly (no Float32 rounding). */
  function Sample(v: int): (x: real)
    requires -32768 <= v < 32768
    ensures -1.0 <= x < 1.0
    ensures x * Scale == v as real
  {
    v as real / Scale
  }

  /** The channel data for a PCM byte sequence: sample i from bytes 2i and 2i+1. */
  function Samples(bytes: seq<byte>): seq<real>
  {
    seq(|bytes| / 2, i requires 0 <= i < |bytes| / 2 => Sample(Int16LE(bytes[2 * i], bytes[2 * i + 1])))
  }

  /**
   * Whether `decodeAudioData` can build a buffer: `new Int16Array(data.buffer)`
   * throws a `RangeError` on an odd byte length, and `createBuffer` refuses a
   * buffer of zero frames.
   */
  predicate Playable(bytes: seq<byte>)
  {
    |bytes| % 2 == 0 && |bytes| > 0
  }

  /**
   * `decodeAudioData`: the frame count is half the byte length, and a loop
   * fills the channel with the scaled samples. `None` where it throws.
   */
  method DecodeAudioData(data: array<byte>) returns (r: Option<array<real>>)
    ensures r.Some? <==> Playable(data[..])
    ensures r.Some? ==> fresh(r.value) && r.value.Length == data.Length / 2
    ensures r.Some? ==> forall i :: 0 <= i < r.value.Length ==>
      r.value[i] == Sample(Int16LE(data[2 * i], data[2 * i + 1]))
  {
    if data.Length % 2 != 0 || data.Length == 0 {
      return None;
    }
    var frameCount := data.Length / 2;
    var channelData := new real[frameCount];
    for i := 0 to frameCount
      invariant forall j :: 0 <= j < i ==> channelData[j] == Sample(Int16LE(data[2 * j], data[2 * j + 1]))
    {
      channelData[i] := Sample(Int16LE(data[2 * i], data[2 * i + 1]));
    }
    return Some(channelData);
  }

  /** What the whole chain yields for a payload: the samples, or `None` where a step throws. */
  function DecodePayload(base64: string): Option<seq<real>>
  {
    match Base64.Decode(base64)
    case None => None
    case Some(bytes) => if Playable(bytes) then Some(Samples(bytes)) else None
  }

  /**
   * The decoding half of `playAudio`'s `try` block (the part before the
   * buffer is handed to the audio output): `decode`, then `decodeAudioData`.
   */
  method DecodeForPlayback(base64: string) returns (r: Option<array<real>>)
    ensures r.Some? <==> DecodePayload(base64).Some?
    ensures r.Some? ==> fresh(r.value) && r.value[..] == DecodePayload(base64).value
  {
    var bytes := Decode(base64);
    if bytes.None? {
      return None;
    }
    r := DecodeAudioData(bytes.value);
    if r.Some? {
      assert r.value[..] == Samples(bytes.value[..]);
    }
  }

  /** Every decoded sample lies in [-1, 1), and there is one per byte pair. */
  lemma PayloadSamplesInRange(base64: string)
    requires DecodePayload(base64).Some?
    ensures |DecodePayload(base64).value| * 2 == |Base64.Decode(base64).value|
    ensures forall i :: 0 <= i < |DecodePayload(base64).value| ==>
      -1.0 <= DecodePayload(base64).value[i] < 1.0
  {
  }

  /** The little-endian bytes of a run of 16-bit values. */
  function PcmBytes(vs: seq<int>): (b: seq<byte>)
    requires forall i :: 0 <= i < |vs| ==> -32768 <= vs[i] < 32768
    ensures |b| == 2 * |vs|
  {
    if vs == [] then []
    else [Int16Bytes(vs[0]).0, Int16Bytes(vs[0]).1] + PcmBytes(vs[1..])
  }

  lemma {:induction false} PcmBytesAt(vs: seq<int>, i: nat)
    requires forall k :: 0 <= k < |vs| ==> -32768 <= vs[k] < 32768
    requires i < |vs|
    ensures PcmBytes(vs)[2 * i] == Int16Bytes(vs[i]).0
    ensures PcmBytes(vs)[2 * i + 1] == Int16Bytes(vs[i]).1
  {
    if i > 0 {
      PcmBytesAt(vs[1..], i - 1);
    }
  }

  /**
   * End to end: base64 of the little-endian bytes of any non-empty run of
   * 16-bit values decodes to exactly those values divided by 32768.
   */
  lemma DecodeEncodedPcm(vs: seq<int>)
    requires vs != []
    requires forall i :: 0 <= i < |vs| ==> -32768 <= vs[i] < 32768
    ensures DecodePayload(Base64.Encode(PcmBytes(vs))).Some?
    ensures var samples := DecodePayload(Base64.Encode(PcmBytes(vs))).value;
      |samples| == |vs| && forall i :: 0 <= i < |vs| ==> samples[i] == Sample(vs[i])
  {
    var b := PcmBytes(vs);
    PlayableRoundTrip(b);
    SamplesOfPcm(vs);
  }

  lemma PlayableRoundTrip(b: seq<byte>)
    requires Playable(b)
    ensures DecodePayload(Base64.Encode(b)) == Some(Samples(b))
  {
    Base64.DecodeEncode(b);
  }

  lemma SamplesOfPcm(vs: seq<int>)
    requires forall k :: 0 <= k < |vs| ==> -32768 <= vs[k] < 32768
    ensures |Samples(PcmBytes(vs))| == |vs|
    ensures forall i :: 0 <= i < |vs| ==> Samples(PcmBytes(vs))[i] == Sample(vs[i])
  {
    forall i | 0 <= i < |vs| ensures Samples(PcmBytes(vs))[i] == Sample(vs[i]) {
      SampleOfPcm(vs, i);
    }
  }

  lemma SampleOfPcm(vs: seq<int>, i: nat)
    requires forall k :: 0 <= k < |vs| ==> -32768 <= vs[k] < 32768
    requires i < |vs|
    ensures Samples(PcmBytes(vs))[i] == Sample(vs[i])
  {
    var b := PcmBytes(vs);
    PcmBytesAt(vs, i);
    var lo, hi := b[2 * i], b[2 * i + 1];
    assert (lo, hi) == Int16Bytes(vs[i]);
    Int16BytesRoundTrip(vs[i]);
    assert Int16LE(lo, hi) == vs[i];
    assert Samples(b)[i] == Sample(Int16LE(lo, hi));
  }

  /** A payload of an odd number of bytes never reaches the audio output. */
  lemma OddPayloadFails(bytes: seq<byte>)
    requires |bytes| % 2 == 1
    ensures DecodePayload(Base64.Encode(bytes)).None?
  {
    Base64.DecodeEncode(bytes);
  }
}
