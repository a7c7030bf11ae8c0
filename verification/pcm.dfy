/** 16-bit signed little-endian PCM: decoding the analysis block to mono samples and
    encoding the processed samples for the output file. Floating-point samples are
    modelled as reals. */
module Pcm {
  import opened Outcomes
  import opened JavaInt

  /** The bit pattern of one byte, read as an unsigned number. */
  newtype byte = x: int | 0 <= x < 256

  const SHORT_MIN: int := -32768
  const SHORT_MAX: int := 32767

  predicate IsShort(v: int) { SHORT_MIN <= v <= SHORT_MAX }

  /** A little-endian 16-bit sample: the low byte is unsigned, the high byte is a signed
      Java `byte`, so it carries the sign. */
  function DecodeSample(lo: byte, hi: byte): (v: int)
    ensures IsShort(v)
  {
    (if hi >= 128 then hi as int - 256 else hi as int) * 256 + lo as int
  }

  /** `Math.max(-1.0f, Math.min(1.0f, x))` */
  function Clamp(x: real): (c: real)
    ensures -1.0 <= c <= 1.0
    ensures -1.0 <= x <= 1.0 ==> c == x
    ensures x > 1.0 ==> c == 1.0
    ensures x < -1.0 ==> c == -1.0
  {
    if x < -1.0 then -1.0 else if x > 1.0 then 1.0 else x
  }

  /** The 16-bit value written for one sample: clamped, scaled by 32767 and truncated
      toward zero. Clamping keeps it within +-32767, so the cast to `short` never wraps. */
  function ToPcm(x: real): (v: int)
    ensures -SHORT_MAX <= v <= SHORT_MAX
    ensures 0.0 <= x ==> 0 <= v
    ensures x <= 0.0 ==> v <= 0
  {
    TruncToInt(Clamp(x) * 32767.0)
  }

  /** `v & 0xFF`: the byte congruent to `v` modulo 256. */
  function LowByte(v: int): (b: byte)
    ensures (v - b as int) % 256 == 0
  {
    (v % 256) as byte
  }

  /** `(v >> 8) & 0xFF`: the shift is arithmetic, which is floor division by 256. */
  function HighByte(v: int): (b: byte)
    ensures (v / 256 - b as int) % 256 == 0
  {
    ((v / 256) % 256) as byte
  }

  /** The two bytes written for one sample; they decode to its 16-bit value. */
  function EncodeSample(x: real): (bytes: seq<byte>)
    ensures |bytes| == 2 && DecodeSample(bytes[0], bytes[1]) == ToPcm(x)
  {
    DecodeEncodeSample(ToPcm(x));
    [LowByte(ToPcm(x)), HighByte(ToPcm(x))]
  }

  /** The bytes written for a run of samples, low byte first. */
  function EncodeAll(samples: seq<real>): (bytes: seq<byte>)
    ensures |bytes| == 2 * |samples|
  {
    if samples == [] then []
    else EncodeAll(samples[..|samples| - 1]) + EncodeSample(samples[|samples| - 1])
  }

  /** Reads a byte string as consecutive little-endian 16-bit samples. */
  function DecodeAll(bytes: seq<byte>): (values: seq<int>)
    requires |bytes| % 2 == 0
    ensures |values| == |bytes| / 2
  {
    if bytes == [] then []
    else DecodeAll(bytes[..|bytes| - 2]) + [DecodeSample(bytes[|bytes| - 2], bytes[|bytes| - 1])]
  }

  /** Decoding the two bytes written for a 16-bit value gives the value back. */
  lemma DecodeEncodeSample(v: int)
    requires IsShort(v)
    ensures DecodeSample(LowByte(v), HighByte(v)) == v
  {
    var q := v / 256;
    assert -128 <= q < 128;
    assert v == q * 256 + v % 256;
  }

  lemma {:induction false} EncodeAllAppend(a: seq<real>, b: seq<real>)
    ensures EncodeAll(a + b) == EncodeAll(a) + EncodeAll(b)
    decreases |b|
  {
    if b == [] {
      assert a + b == a;
    } else {
      var last := |b| - 1;
      assert (a + b)[..|a + b| - 1] == a + b[..last];
      EncodeAllAppend(a, b[..last]);
    }
  }

  /** The encoder's output decodes, pair by pair, to the clamped and truncated samples. */
  lemma {:induction false} DecodeEncodeAll(samples: seq<real>)
    ensures DecodeAll(EncodeAll(samples)) == seq(|samples|, i requires 0 <= i < |samples| => ToPcm(samples[i]))
    decreases |samples|
  {
    if samples != [] {
      var init := samples[..|samples| - 1];
      var bytes := EncodeAll(samples);
      assert bytes[..|bytes| - 2] == EncodeAll(init);
      DecodeEncodeAll(init);
      DecodeEncodeSample(ToPcm(samples[|samples| - 1]));
    }
  }

  /** Full scale: 1.0 and above give 32767, -1.0 and below give -32767 (not -32768), and
      silence gives 0. */
  lemma PcmFullScale(x: real)
    ensures x >= 1.0 ==> ToPcm(x) == SHORT_MAX
    ensures x <= -1.0 ==> ToPcm(x) == -SHORT_MAX
    ensures ToPcm(0.0) == 0
  {
  }

  /** A louder sample never encodes to a smaller value. */
  lemma ToPcmMonotone(x: real, y: real)
    requires x <= y
    ensures ToPcm(x) <= ToPcm(y)
  {
    TruncMonotone(Clamp(x) * 32767.0, Clamp(y) * 32767.0);
  }

  // ---- Down-mixing the analysis block -------------------------------------------------

  /** The value channel `channel` of frame `frame` contributes to the frame's sum: its
      decoded sample when both of its bytes lie before `bytesRead`, nothing otherwise. */
  function ChannelValue(buffer: seq<byte>, bytesRead: nat, frameSize: nat, frame: nat, channel: nat): (v: int)
    requires bytesRead <= |buffer|
    ensures IsShort(v)
  {
    var offset := frame * frameSize + channel * 2;
    if offset + 1 < bytesRead then DecodeSample(buffer[offset], buffer[offset + 1]) else 0
  }

  /** The sum of the first `k` channels of a frame. */
  function ChannelSum(buffer: seq<byte>, bytesRead: nat, frameSize: nat, frame: nat, k: nat): int
    requires bytesRead <= |buffer|
  {
    if k == 0 then 0
    else ChannelSum(buffer, bytesRead, frameSize, frame, k - 1) + ChannelValue(buffer, bytesRead, frameSize, frame, k - 1)
  }

  /** One mono sample: the mean of the frame's channels, scaled so that the most negative
      16-bit value is -1.0. */
  function MonoSample(buffer: seq<byte>, bytesRead: nat, frameSize: nat, channels: nat, frame: nat): (x: real)
    requires bytesRead <= |buffer| && channels > 0
    ensures -1.0 <= x < 1.0
  {
    var sum := ChannelSum(buffer, bytesRead, frameSize, frame, channels);
    ChannelSumBounds(buffer, bytesRead, frameSize, frame, channels);
    QuotientBounds(sum as real, channels as real, -32768.0, 32767.0);
    (sum as real / channels as real) / 32768.0
  }

  /** The mono samples of every whole frame read, in order. */
  function MonoBlock(buffer: seq<byte>, bytesRead: nat, frameSize: nat, channels: nat): (s: seq<real>)
    requires bytesRead <= |buffer| && channels > 0
    ensures frameSize > 0 ==> |s| == bytesRead / frameSize
    ensures forall f :: 0 <= f < |s| ==> s[f] == MonoSample(buffer, bytesRead, frameSize, channels, f)
  {
    if frameSize == 0 then []
    else seq(bytesRead / frameSize, f requires 0 <= f => MonoSample(buffer, bytesRead, frameSize, channels, f))
  }

  lemma {:induction false} ChannelSumBounds(buffer: seq<byte>, bytesRead: nat, frameSize: nat, frame: nat, k: nat)
    requires bytesRead <= |buffer|
    ensures SHORT_MIN * k <= ChannelSum(buffer, bytesRead, frameSize, frame, k) <= SHORT_MAX * k
  {
    if k > 0 {
      ChannelSumBounds(buffer, bytesRead, frameSize, frame, k - 1);
    }
  }

  lemma QuotientBounds(s: real, n: real, lo: real, hi: real)
    requires n > 0.0 && lo * n <= s <= hi * n
    ensures lo <= s / n <= hi
  {
    var q := s / n;
    assert q * n == s;
    assert (q - lo) * n == s - lo * n;
    assert (hi - q) * n == hi * n - s;
  }

  lemma {:induction false} ChannelSumEqual(buffer: seq<byte>, bytesRead: nat, frameSize: nat, frame: nat, k: nat, x: int)
    requires bytesRead <= |buffer|
    requires forall c: nat :: c < k ==> ChannelValue(buffer, bytesRead, frameSize, frame, c) == x
    ensures ChannelSum(buffer, bytesRead, frameSize, frame, k) == k * x
  {
    if k > 0 {
      ChannelSumEqual(buffer, bytesRead, frameSize, frame, k - 1, x);
      assert ChannelValue(buffer, bytesRead, frameSize, frame, k - 1) == x;
      assert (k - 1) * x + x == k * x;
    }
  }

  lemma ScaleCancels(n: real, v: real)
    requires n > 0.0
    ensures (n * v) / n == v
  {
  }

  /** Down-mixing keeps a signal that is the same on every channel: the mono sample is that
      channel value, scaled. With one channel this is a pass-through. */
  lemma EqualChannelsDownmix(buffer: seq<byte>, bytesRead: nat, frameSize: nat, channels: nat, frame: nat, x: int)
    requires bytesRead <= |buffer| && channels > 0
    requires forall c: nat :: c < channels ==> ChannelValue(buffer, bytesRead, frameSize, frame, c) == x
    ensures MonoSample(buffer, bytesRead, frameSize, channels, frame) == x as real / 32768.0
  {
    ChannelSumEqual(buffer, bytesRead, frameSize, frame, channels, x);
    var sum := ChannelSum(buffer, bytesRead, frameSize, frame, channels);
    var n, v := channels as real, x as real;
    assert sum as real == n * v;
    ScaleCancels(n, v);
    assert sum as real / n == v;
  }

  /** Turns the bytes read into one mono sample per whole frame. A channel sample is read
      only when both of its bytes lie before `bytesRead`; partial frames at the end are
      dropped. */
  method ConvertToMonoFloat(buffer: seq<byte>, bytesRead: nat, frameSize: nat, channels: nat)
    returns (samples: array<real>)
    requires bytesRead <= |buffer| && frameSize > 0 && channels > 0
    ensures samples.Length == bytesRead / frameSize
    ensures forall f :: 0 <= f < samples.Length ==>
              samples[f] == MonoSample(buffer, bytesRead, frameSize, channels, f)
    ensures samples[..] == MonoBlock(buffer, bytesRead, frameSize, channels)
  {
    var frames := bytesRead / frameSize;
    samples := new real[frames];
    var frame := 0;
    while frame < frames
      invariant 0 <= frame <= frames
      invariant forall f :: 0 <= f < frame ==>
                  samples[f] == MonoSample(buffer, bytesRead, frameSize, channels, f)
    {
      var sum := 0;
      var channel := 0;
      while channel < channels
        invariant 0 <= channel <= channels
        invariant sum == ChannelSum(buffer, bytesRead, frameSize, frame, channel)
      {
        var offset := frame * frameSize + channel * 2;
        if offset + 1 < bytesRead {
          var sample := DecodeSample(buffer[offset], buffer[offset + 1]);
          sum := sum + sample;
        }
        channel := channel + 1;
      }
      samples[frame] := (sum as real / channels as real) / 32768.0;
      frame := frame + 1;
    }
  }

  // ---- The output writer --------------------------------------------------------------

  /** What is handed to the WAV container writer: the audio format and the PCM payload. */
  datatype WavOutput = WavOutput(sampleRate: real, channels: nat, bitsPerSample: nat, frames: nat, data: seq<byte>)

  /** The last stage of the processing chain. It encodes every processed block into a
      growing byte buffer and, when the stream ends, hands the buffer to the WAV writer as
      mono 16-bit frames at the input's sample rate -- unless no byte was produced. */
  class PcmFileWriter {
    const sampleRate: real
    var buffer: seq<byte>
    var written: Option<WavOutput>
    ghost var Consumed: seq<real>

    ghost predicate Valid()
      reads this
    {
      buffer == EncodeAll(Consumed)
    }

    constructor (inputSampleRate: real)
      ensures Valid()
      ensures sampleRate == inputSampleRate && buffer == [] && Consumed == [] && written == None
    {
      sampleRate := inputSampleRate;
      buffer := [];
      written := None;
      Consumed := [];
    }

    /** Appends two bytes per sample, low byte first; the chain always continues. */
    method Process(block: seq<real>) returns (continueChain: bool)
      requires Valid()
      modifies this
      ensures Valid()
      ensures Consumed == old(Consumed) + block
      ensures buffer == old(buffer) + EncodeAll(block)
      ensures |buffer| == |old(buffer)| + 2 * |block|
      ensures written == old(written)
      ensures continueChain
    {
      var i := 0;
      while i < |block|
        invariant 0 <= i <= |block|
        invariant buffer == old(buffer) + EncodeAll(block[..i])
        invariant written == old(written) && Consumed == old(Consumed)
      {
        var sample := Clamp(block[i]);
        var pcm := TruncToInt(sample * 32767.0);
        assert pcm == ToPcm(block[i]);
        buffer := buffer + [LowByte(pcm)];
        buffer := buffer + [HighByte(pcm)];
        assert block[..i + 1][..i] == block[..i];
        assert EncodeAll(block[..i + 1]) == EncodeAll(block[..i]) + [LowByte(pcm), HighByte(pcm)];
        i := i + 1;
      }
      assert block[..i] == block;
      EncodeAllAppend(Consumed, block);
      Consumed := Consumed + block;
      continueChain := true;
    }

    /** At the end of the stream a non-empty buffer is written out, one frame per sample
        consumed; an empty buffer writes nothing. */
    method ProcessingFinished()
      requires Valid()
      modifies this
      ensures Valid() && buffer == old(buffer) && Consumed == old(Consumed)
      ensures |buffer| > 0 ==> written == Some(WavOutput(sampleRate, 1, 16, |Consumed|, buffer))
      ensures |buffer| == 0 ==> written == old(written)
    {
      if |buffer| > 0 {
        var frameSize := 2;
        written := Some(WavOutput(sampleRate, 1, 16, |buffer| / frameSize, buffer));
      }
    }
  }
}
