/**
 * The PCM side of the voice session in App.tsx: `decodeAudioData`
 * (lines 31-42) reads received bytes as little-endian signed 16-bit samples
 * and de-interleaves them into channel buffers scaled by 1/32768; the capture
 * callback (lines 154-160) stores each microphone sample times 32768 into an
 * Int16Array and sends that array's bytes, Base64-encoded, with the mime type
 * "audio/pcm;rate=16000".
 */
module Pcm {
  import opened Wrappers
  import opened Base64
  import Transport

  /** The exceptions `decodeAudioData` can raise: an Int16Array over a
    * buffer of odd length throws RangeError; `createBuffer` throws
    * NotSupportedError for zero channels, more channels than supported, or
    * zero frames. */
  datatype AudioError = RangeError | NotSupportedError

  /** Channels an AudioContext supports at least. */
  const MaxChannels := 32

  /** The rate of the output context and of received audio. */
  const OutputSampleRate := 24000

  const CaptureMimeType := "audio/pcm;rate=16000"

  /** Signed 16-bit sample number k of a little-endian byte buffer. */
  function Int16At(data: seq<byte>, k: nat): (v: int)
    requires 2 * k + 1 < |data|
    ensures -32768 <= v < 32768
  {
    var u := data[2 * k] as int + 256 * data[2 * k + 1] as int;
    if u >= 32768 then u - 65536 else u
  }

  /** The two little-endian bytes of a signed 16-bit value. */
  function Int16Bytes(v: int): (b: seq<byte>)
    requires -32768 <= v < 32768
    ensures |b| == 2
  {
    var u := if v < 0 then v + 65536 else v;
    [(u % 256) as byte, (u / 256) as byte]
  }

  /** The bytes of an Int16Array holding the given samples. */
  function PcmBytes(s: seq<int>): (b: seq<byte>)
    requires forall k :: 0 <= k < |s| ==> -32768 <= s[k] < 32768
    ensures |b| == 2 * |s|
  {
    seq(2 * |s|, j requires 0 <= j < 2 * |s| => Int16Bytes(s[j / 2])[j % 2])
  }

  lemma Int16AtBytes(v: int)
    requires -32768 <= v < 32768
    ensures Int16At(Int16Bytes(v), 0) == v
  {
  }

  /** Reading an Int16Array's bytes back as samples gives the samples. */
  lemma Int16AtPcmBytes(s: seq<int>, k: nat)
    requires forall k :: 0 <= k < |s| ==> -32768 <= s[k] < 32768
    requires k < |s|
    ensures Int16At(PcmBytes(s), k) == s[k]
  {
    var b := PcmBytes(s);
    assert (2 * k) / 2 == k && (2 * k) % 2 == 0;
    assert (2 * k + 1) / 2 == k && (2 * k + 1) % 2 == 1;
    assert b[2 * k..2 * k + 2] == Int16Bytes(s[k]);
    Int16AtBytes(s[k]);
  }

  /** `createBuffer` succeeds: an even byte length, a supported channel count
    * and at least one whole frame. */
  predicate ValidLayout(byteLength: nat, numChannels: nat) {
    byteLength % 2 == 0 && 1 <= numChannels <= MaxChannels && (byteLength / 2) / numChannels >= 1
  }

  /** `dataInt16.length / numChannels`, truncated by the WebIDL conversion
    * to `unsigned long` that `createBuffer` applies. */
  function FrameCount(byteLength: nat, numChannels: nat): (n: nat)
    requires numChannels >= 1
    ensures n * numChannels <= byteLength / 2 < (n + 1) * numChannels
  {
    (byteLength / 2) / numChannels
  }

  lemma FrameIndexInRange(byteLength: nat, numChannels: nat, c: nat, i: nat)
    requires 1 <= numChannels && c < numChannels
    requires i < FrameCount(byteLength, numChannels)
    ensures 2 * (i * numChannels + c) + 1 < byteLength
  {
    var n := FrameCount(byteLength, numChannels);
    assert i * numChannels <= (n - 1) * numChannels by {
      assert i <= n - 1;
    }
    assert (n - 1) * numChannels + numChannels == n * numChannels;
  }

  /** Channel c, frame i of the decoded buffer. */
  function Sample(data: seq<byte>, numChannels: nat, c: nat, i: nat): real
    requires 1 <= numChannels && c < numChannels
    requires i < FrameCount(|data|, numChannels)
  {
    FrameIndexInRange(|data|, numChannels, c, i);
    Int16At(data, i * numChannels + c) as real / 32768.0
  }

  /** Every decoded sample lies in [-1, 1). */
  lemma SampleRange(data: seq<byte>, numChannels: nat, c: nat, i: nat)
    requires 1 <= numChannels && c < numChannels
    requires i < FrameCount(|data|, numChannels)
    ensures -1.0 <= Sample(data, numChannels, c, i) < 1.0
  {
  }

  /** Channels below `channels` of the buffer hold their decoded samples. */
  ghost predicate Decoded(buffer: array2<real>, data: seq<byte>, numChannels: nat, channels: nat)
    reads buffer
    requires 1 <= numChannels && buffer.Length1 == FrameCount(|data|, numChannels)
    requires channels <= buffer.Length0 == numChannels
  {
    forall c, i :: 0 <= c < channels && 0 <= i < buffer.Length1 ==> buffer[c, i] == Sample(data, numChannels, c, i)
  }

  /** App.tsx `decodeAudioData`: fails as the browser does, and otherwise
    * returns numChannels channels of FrameCount frames, channel c frame i
    * being 16-bit sample i*numChannels+c scaled by 1/32768. */
  method DecodeAudioData(data: array<byte>, numChannels: nat) returns (r: Result<array2<real>, AudioError>)
    ensures data.Length % 2 == 1 ==> r == Err(RangeError)
    ensures data.Length % 2 == 0 && !ValidLayout(data.Length, numChannels) ==> r == Err(NotSupportedError)
    ensures r.Ok? <==> ValidLayout(data.Length, numChannels)
    ensures r.Ok? ==> r.value.Length0 == numChannels && r.value.Length1 == FrameCount(data.Length, numChannels)
    ensures r.Ok? ==> forall c, i :: 0 <= c < r.value.Length0 && 0 <= i < r.value.Length1 ==>
      r.value[c, i] == Sample(data[..], numChannels, c, i)
  {
    if data.Length % 2 == 1 {
      return Err(RangeError);
    }
    if !(1 <= numChannels <= MaxChannels) || (data.Length / 2) / numChannels == 0 {
      return Err(NotSupportedError);
    }
    var bytes := data[..];
    var frameCount := FrameCount(data.Length, numChannels);
    var buffer := new real[numChannels, frameCount];
    var channel := 0;
    while channel < numChannels
      invariant 0 <= channel <= numChannels
      invariant Decoded(buffer, bytes, numChannels, channel)
    {
      var i := 0;
      while i < frameCount
        invariant 0 <= i <= frameCount
        invariant Decoded(buffer, bytes, numChannels, channel)
        invariant forall j :: 0 <= j < i ==> buffer[channel, j] == Sample(bytes, numChannels, channel, j)
      {
        FrameIndexInRange(data.Length, numChannels, channel, i);
        buffer[channel, i] := Int16At(bytes, i * numChannels + channel) as real / 32768.0;
        i := i + 1;
      }
      channel := channel + 1;
    }
    r := Ok(buffer);
  }

  /** The length in seconds of a buffer of the given frames at the output rate. */
  function Duration(frames: nat): (d: real)
    ensures d >= 0.0
    ensures frames > 0 ==> d > 0.0
  {
    frames as real / OutputSampleRate as real
  }

  /** Truncation toward zero, as ECMAScript ToIntegerOrInfinity does. */
  function Trunc(x: real): (n: int)
    ensures x >= 0.0 ==> 0.0 <= x - n as real < 1.0
    ensures x < 0.0 ==> 0.0 <= n as real - x < 1.0
  {
    if x >= 0.0 then x.Floor else -((-x).Floor)
  }

  /** ECMAScript ToInt16 of an integral value: wrap modulo 2^16 into the
    * signed range. */
  function ToInt16(n: int): (v: int)
    ensures -32768 <= v < 32768
    ensures (v - n) % 65536 == 0
  {
    var m := n % 65536;
    if m >= 32768 then m - 65536 else m
  }

  /** The value stored by `int16[i] = inputData[i] * 32768`, for a finite
    * sample x; nothing clamps before the store. */
  function CaptureSample(x: real): (v: int)
    ensures -32768 <= v < 32768
  {
    ToInt16(Trunc(x * 32768.0))
  }

  lemma ToInt16Identity(n: int)
    requires -32768 <= n < 32768
    ensures ToInt16(n) == n
  {
  }

  /** A sample strictly inside (-1, 1) is truncated without wrapping, lands
    * in [-32767, 32767], and is within one step of x*32768. */
  lemma CaptureInRange(x: real)
    requires -1.0 < x < 1.0
    ensures CaptureSample(x) == Trunc(x * 32768.0)
    ensures -32767 <= CaptureSample(x) <= 32767
    ensures -1.0 < CaptureSample(x) as real - x * 32768.0 < 1.0
  {
    ToInt16Identity(Trunc(x * 32768.0));
  }

  /** Full-scale samples: -1.0 is exact, while +1.0 gives 32768, which the
    * store wraps to -32768, the opposite extreme. */
  lemma CaptureFullScale()
    ensures CaptureSample(-1.0) == -32768
    ensures CaptureSample(1.0) == -32768
  {
    assert Trunc(32768.0) == 32768;
    assert Trunc(-32768.0) == -32768;
  }

  /** The capture loop: one Int16 per input sample. */
  method CaptureFrame(inputData: array<real>) returns (int16: array<int>)
    ensures int16.Length == inputData.Length
    ensures forall i :: 0 <= i < inputData.Length ==> int16[i] == CaptureSample(inputData[i])
  {
    int16 := new int[inputData.Length];
    var i := 0;
    while i < inputData.Length
      invariant 0 <= i <= inputData.Length
      invariant forall j :: 0 <= j < i ==> int16[j] == CaptureSample(inputData[j])
    {
      int16[i] := CaptureSample(inputData[i]);
      i := i + 1;
    }
  }

  datatype Blob = Blob(data: string, mimeType: string)

  /** The blob sent for one capture callback: decoding its data gives two
    * bytes per input sample, which read back as the stored Int16 values. */
  method CaptureBlob(inputData: array<real>) returns (blob: Blob)
    ensures blob.mimeType == CaptureMimeType
    ensures Base64.Decode(blob.data).Some?
    ensures var b := Base64.Decode(blob.data).value;
      |b| == 2 * inputData.Length &&
      forall i :: 0 <= i < inputData.Length ==> Int16At(b, i) == CaptureSample(inputData[i])
  {
    var int16 := CaptureFrame(inputData);
    var samples := int16[..];
    var pcm := PcmBytes(samples);
    var bytes := new byte[|pcm|](j requires 0 <= j < |pcm| => pcm[j]);
    var text := Transport.Encode(bytes);
    assert bytes[..] == pcm;
    Transport.DecodeEncode(pcm);
    blob := Blob(text, CaptureMimeType);
    forall i | 0 <= i < inputData.Length
      ensures Int16At(pcm, i) == CaptureSample(inputData[i])
    {
      Int16AtPcmBytes(samples, i);
    }
  }

  /** Mono audio made of Int16 samples decodes to those samples over 32768:
    * what the capture side sends is what the playback side plays. */
  lemma MonoSamples(s: seq<int>, i: nat)
    requires forall k :: 0 <= k < |s| ==> -32768 <= s[k] < 32768
    requires i < |s|
    ensures FrameCount(|PcmBytes(s)|, 1) == |s|
    ensures Sample(PcmBytes(s), 1, 0, i) == s[i] as real / 32768.0
  {
    Int16AtPcmBytes(s, i);
  }

  /** Capture then playback: a sample strictly inside (-1, 1) comes back
    * from the 16-bit stream within one step, 1/32768, of where it was;
    * full scale 1.0 does not (CaptureFullScale). */
  lemma PcmRoundTrip(x: real)
    requires -1.0 < x < 1.0
    ensures var v := CaptureSample(x);
      -1.0 / 32768.0 < Sample(PcmBytes([v]), 1, 0, 0) - x < 1.0 / 32768.0
  {
    CaptureInRange(x);
    MonoSamples([CaptureSample(x)], 0);
  }
}
