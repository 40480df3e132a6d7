/** The recording hook (src/hooks/useRecording.js): the readiness guard in front of the
    microphone, the WAV encoding of the decoded audio, and what happens to a
    transcription afterwards (notifications, the optional AI pass, the save).

    The WAV file is the 44-byte PCM header of the RIFF WAVE form (Microsoft/IBM
    "Multimedia Programming Interface and Data Specifications 1.0") followed by
    interleaved 16-bit little-endian samples.  Samples are taken already quantised to
    16 bits; the float scaling `sample * 0x7FFF` is not modelled.
 */
module Recording {
  import opened Wrappers
  import opened Json
  import TextProcessing

  type Byte = b: int | 0 <= b < 256

  const HeaderSize: nat := 44
  const BytesPerSample: nat := 2

  // ---------------------------------------------------------------------------
  // Little-endian fields

  /** `DataView.setUint16(_, v, true)`: v modulo 2^16, low byte first. */
  function U16(v: int): (r: seq<Byte>)
    ensures |r| == 2
  {
    var w := v % 0x1_0000;
    [w % 256, w / 256]
  }

  /** `DataView.setUint32(_, v, true)`: v modulo 2^32, low byte first. */
  function U32(v: int): (r: seq<Byte>)
    ensures |r| == 4
  {
    var w := v % 0x1_0000_0000;
    [w % 256, (w / 256) % 256, (w / 0x1_0000) % 256, w / 0x100_0000]
  }

  function ReadU16(b: seq<Byte>, off: nat): int
    requires off + 2 <= |b|
  {
    (b[off] as int) + 256 * (b[off + 1] as int)
  }

  function ReadU32(b: seq<Byte>, off: nat): int
    requires off + 4 <= |b|
  {
    (b[off] as int) + 256 * (b[off + 1] as int) + 0x1_0000 * (b[off + 2] as int)
    + 0x100_0000 * (b[off + 3] as int)
  }

  /** A 16-bit field read as a signed sample. */
  function ReadI16(b: seq<Byte>, off: nat): int
    requires off + 2 <= |b|
  {
    var u := ReadU16(b, off);
    if u >= 0x8000 then u - 0x1_0000 else u
  }

  predicate IsSample(q: int) {
    -0x8000 <= q < 0x8000
  }

  lemma U16RoundTrip(v: int)
    ensures ReadU16(U16(v), 0) == v % 0x1_0000
    ensures IsSample(v) ==> ReadI16(U16(v), 0) == v
  {
  }

  lemma U32RoundTrip(v: int)
    ensures ReadU32(U32(v), 0) == v % 0x1_0000_0000
  {
    var w := v % 0x1_0000_0000;
    var q1, q2, q3 := w / 256, w / 0x1_0000, w / 0x100_0000;
    assert q2 == q1 / 256 && q3 == q2 / 256;
    assert w == w % 256 + 256 * q1;
    assert q1 == q1 % 256 + 256 * q2;
    assert q2 == q2 % 256 + 256 * q3;
    assert q3 < 256;
  }

  // ---------------------------------------------------------------------------
  // The header

  const Riff: seq<Byte> := [0x52, 0x49, 0x46, 0x46]   // "RIFF"
  const Wave: seq<Byte> := [0x57, 0x41, 0x56, 0x45]   // "WAVE"
  const Fmt: seq<Byte> := [0x66, 0x6D, 0x74, 0x20]    // "fmt "
  const Data: seq<Byte> := [0x64, 0x61, 0x74, 0x61]   // "data"

  function DataSize(frames: nat, channels: nat): nat {
    frames * channels * BytesPerSample
  }

  /** The header `audioBufferToWav` writes for `frames` frames of `channels` channels. */
  function Header(frames: nat, sampleRate: nat, channels: nat): (h: seq<Byte>)
    ensures |h| == HeaderSize
  {
    var blockAlign := channels * BytesPerSample;
    var dataSize := DataSize(frames, channels);
    Layout(U32(HeaderSize + dataSize - 8), U32(16), U16(1), U16(channels), U32(sampleRate),
           U32(sampleRate * blockAlign), U16(blockAlign), U16(BytesPerSample * 8), U32(dataSize))
  }

  /** The 44 header bytes around already encoded fields. */
  function Layout(riffSize: seq<Byte>, chunk: seq<Byte>, format: seq<Byte>, chans: seq<Byte>,
                  rate: seq<Byte>, byteRate: seq<Byte>, align: seq<Byte>, bits: seq<Byte>,
                  size: seq<Byte>): (h: seq<Byte>)
    requires |riffSize| == |chunk| == |rate| == |byteRate| == |size| == 4
    requires |format| == |chans| == |align| == |bits| == 2
    ensures |h| == HeaderSize
  {
    [Riff[0], Riff[1], Riff[2], Riff[3], riffSize[0], riffSize[1], riffSize[2], riffSize[3],
     Wave[0], Wave[1], Wave[2], Wave[3], Fmt[0], Fmt[1], Fmt[2], Fmt[3],
     chunk[0], chunk[1], chunk[2], chunk[3], format[0], format[1], chans[0], chans[1],
     rate[0], rate[1], rate[2], rate[3], byteRate[0], byteRate[1], byteRate[2], byteRate[3],
     align[0], align[1], bits[0], bits[1], Data[0], Data[1], Data[2], Data[3],
     size[0], size[1], size[2], size[3]]
  }

  /** Where each field sits in the layout. */
  lemma LayoutFields(riffSize: seq<Byte>, chunk: seq<Byte>, format: seq<Byte>, chans: seq<Byte>,
                     rate: seq<Byte>, byteRate: seq<Byte>, align: seq<Byte>, bits: seq<Byte>,
                     size: seq<Byte>)
    requires |riffSize| == |chunk| == |rate| == |byteRate| == |size| == 4
    requires |format| == |chans| == |align| == |bits| == 2
    ensures var h := Layout(riffSize, chunk, format, chans, rate, byteRate, align, bits, size);
      && h[0..4] == Riff && h[8..12] == Wave && h[12..16] == Fmt && h[36..40] == Data
      && h[4..8] == riffSize && h[16..20] == chunk && h[20..22] == format && h[22..24] == chans
      && h[24..28] == rate && h[28..32] == byteRate && h[32..34] == align && h[34..36] == bits
      && h[40..44] == size
  {
    LayoutTags(riffSize, chunk, format, chans, rate, byteRate, align, bits, size);
    LayoutFront(riffSize, chunk, format, chans, rate, byteRate, align, bits, size);
    LayoutBack(riffSize, chunk, format, chans, rate, byteRate, align, bits, size);
  }

  lemma LayoutTags(riffSize: seq<Byte>, chunk: seq<Byte>, format: seq<Byte>, chans: seq<Byte>,
                     rate: seq<Byte>, byteRate: seq<Byte>, align: seq<Byte>, bits: seq<Byte>,
                     size: seq<Byte>)
    requires |riffSize| == |chunk| == |rate| == |byteRate| == |size| == 4
    requires |format| == |chans| == |align| == |bits| == 2
    ensures var h := Layout(riffSize, chunk, format, chans, rate, byteRate, align, bits, size);
      h[0..4] == Riff && h[8..12] == Wave && h[12..16] == Fmt && h[36..40] == Data
  {
    var h := Layout(riffSize, chunk, format, chans, rate, byteRate, align, bits, size);
    assert h[0] == Riff[0] && h[1] == Riff[1] && h[2] == Riff[2] && h[3] == Riff[3];
    assert h[0..4] == [h[0], h[1], h[2], h[3]];
    assert h[8] == Wave[0] && h[9] == Wave[1] && h[10] == Wave[2] && h[11] == Wave[3];
    assert h[8..12] == [h[8], h[9], h[10], h[11]];
    assert h[12] == Fmt[0] && h[13] == Fmt[1] && h[14] == Fmt[2] && h[15] == Fmt[3];
    assert h[12..16] == [h[12], h[13], h[14], h[15]];
    assert h[36] == Data[0] && h[37] == Data[1] && h[38] == Data[2] && h[39] == Data[3];
    assert h[36..40] == [h[36], h[37], h[38], h[39]];
  }

  lemma LayoutFront(riffSize: seq<Byte>, chunk: seq<Byte>, format: seq<Byte>, chans: seq<Byte>,
                     rate: seq<Byte>, byteRate: seq<Byte>, align: seq<Byte>, bits: seq<Byte>,
                     size: seq<Byte>)
    requires |riffSize| == |chunk| == |rate| == |byteRate| == |size| == 4
    requires |format| == |chans| == |align| == |bits| == 2
    ensures var h := Layout(riffSize, chunk, format, chans, rate, byteRate, align, bits, size);
      && h[4..8] == riffSize && h[16..20] == chunk && h[20..22] == format && h[22..24] == chans
  {
    var h := Layout(riffSize, chunk, format, chans, rate, byteRate, align, bits, size);
    assert h[4] == riffSize[0] && h[5] == riffSize[1] && h[6] == riffSize[2] && h[7] == riffSize[3];
    assert h[4..8] == [h[4], h[5], h[6], h[7]];
    assert h[16] == chunk[0] && h[17] == chunk[1] && h[18] == chunk[2] && h[19] == chunk[3];
    assert h[16..20] == [h[16], h[17], h[18], h[19]];
    assert h[20] == format[0] && h[21] == format[1] && h[22] == chans[0] && h[23] == chans[1];
    assert h[20..22] == [h[20], h[21]];
    assert h[22..24] == [h[22], h[23]];
  }

  lemma LayoutBack(riffSize: seq<Byte>, chunk: seq<Byte>, format: seq<Byte>, chans: seq<Byte>,
                     rate: seq<Byte>, byteRate: seq<Byte>, align: seq<Byte>, bits: seq<Byte>,
                     size: seq<Byte>)
    requires |riffSize| == |chunk| == |rate| == |byteRate| == |size| == 4
    requires |format| == |chans| == |align| == |bits| == 2
    ensures var h := Layout(riffSize, chunk, format, chans, rate, byteRate, align, bits, size);
      && h[24..28] == rate && h[28..32] == byteRate && h[32..34] == align && h[34..36] == bits
      && h[40..44] == size
  {
    var h := Layout(riffSize, chunk, format, chans, rate, byteRate, align, bits, size);
    assert h[24..28] == [h[24], h[25], h[26], h[27]];
    assert h[28..32] == [h[28], h[29], h[30], h[31]];
    assert h[32..34] == [h[32], h[33]];
    assert h[34..36] == [h[34], h[35]];
    assert h[40..44] == [h[40], h[41], h[42], h[43]];
  }

  /** The four chunk tags of the header. */
  lemma HeaderTags(frames: nat, sampleRate: nat, channels: nat)
    ensures var h := Header(frames, sampleRate, channels);
      h[0..4] == Riff && h[8..12] == Wave && h[12..16] == Fmt && h[36..40] == Data
  {
    HeaderLayout(frames, sampleRate, channels);
  }

  /** The header's fields, each at its offset. */
  lemma HeaderLayout(frames: nat, sampleRate: nat, channels: nat)
    ensures var h := Header(frames, sampleRate, channels);
      var blockAlign := channels * BytesPerSample;
      var dataSize := DataSize(frames, channels);
      && h[0..4] == Riff && h[8..12] == Wave && h[12..16] == Fmt && h[36..40] == Data
      && h[4..8] == U32(HeaderSize + dataSize - 8) && h[16..20] == U32(16) && h[20..22] == U16(1)
      && h[22..24] == U16(channels) && h[24..28] == U32(sampleRate)
      && h[28..32] == U32(sampleRate * blockAlign) && h[32..34] == U16(blockAlign)
      && h[34..36] == U16(BytesPerSample * 8) && h[40..44] == U32(dataSize)
  {
    var blockAlign := channels * BytesPerSample;
    var dataSize := DataSize(frames, channels);
    var riffSize, chunk, format, chans := U32(HeaderSize + dataSize - 8), U32(16), U16(1), U16(channels);
    var rate, byteRate, align := U32(sampleRate), U32(sampleRate * blockAlign), U16(blockAlign);
    var bits, size := U16(BytesPerSample * 8), U32(dataSize);
    assert Header(frames, sampleRate, channels)
        == Layout(riffSize, chunk, format, chans, rate, byteRate, align, bits, size);
    LayoutFields(riffSize, chunk, format, chans, rate, byteRate, align, bits, size);
  }

  /** The size fields: the RIFF chunk size and the data size, both modulo 2^32. */
  lemma HeaderSizes(frames: nat, sampleRate: nat, channels: nat)
    ensures var h := Header(frames, sampleRate, channels);
      var dataSize := DataSize(frames, channels);
      && ReadU32(h, 4) == (36 + dataSize) % 0x1_0000_0000
      && ReadU32(h, 40) == dataSize % 0x1_0000_0000
  {
    var h := Header(frames, sampleRate, channels);
    HeaderLayout(frames, sampleRate, channels);
    U32Read(h, 4, HeaderSize + DataSize(frames, channels) - 8);
    U32Read(h, 40, DataSize(frames, channels));
  }

  /** The format chunk: PCM, the channel count, the rate, the byte rate, the block
      alignment and 16 bits per sample. */
  lemma HeaderFormat(frames: nat, sampleRate: nat, channels: nat)
    ensures var h := Header(frames, sampleRate, channels);
      && ReadU32(h, 16) == 16
      && ReadU16(h, 20) == 1
      && ReadU16(h, 22) == channels % 0x1_0000
      && ReadU32(h, 24) == sampleRate % 0x1_0000_0000
      && ReadU32(h, 28) == (sampleRate * (channels * 2)) % 0x1_0000_0000
      && ReadU16(h, 32) == (channels * 2) % 0x1_0000
      && ReadU16(h, 34) == 16
  {
    var h := Header(frames, sampleRate, channels);
    HeaderLayout(frames, sampleRate, channels);
    U32Read(h, 16, 16);
    U16Read(h, 20, 1);
    U16Read(h, 22, channels);
    U32Read(h, 24, sampleRate);
    U32Read(h, 28, sampleRate * (channels * 2));
    U16Read(h, 32, channels * 2);
    U16Read(h, 34, 16);
  }

  lemma U32Read(b: seq<Byte>, off: nat, v: int)
    requires off + 4 <= |b| && b[off..off + 4] == U32(v)
    ensures ReadU32(b, off) == v % 0x1_0000_0000
  {
    var f := U32(v);
    assert b[off] == f[0] && b[off + 1] == f[1] && b[off + 2] == f[2] && b[off + 3] == f[3];
    U32RoundTrip(v);
  }

  lemma U16Read(b: seq<Byte>, off: nat, v: int)
    requires off + 2 <= |b| && b[off..off + 2] == U16(v)
    ensures ReadU16(b, off) == v % 0x1_0000
    ensures IsSample(v) ==> ReadI16(b, off) == v
  {
    var f := U16(v);
    assert b[off] == f[0] && b[off + 1] == f[1];
    U16RoundTrip(v);
  }

  // ---------------------------------------------------------------------------
  // Samples

  /** Decoded audio: one sequence of quantised samples per channel, all `frames` long. */
  predicate WellFormedAudio(channels: seq<seq<int>>, frames: nat) {
    forall c :: 0 <= c < |channels| ==>
      (|channels[c]| == frames && forall i :: 0 <= i < frames ==> IsSample(channels[c][i]))
  }

  /** The samples of one frame, channel by channel. */
  function Frame(channels: seq<seq<int>>, frames: nat, i: nat): (f: seq<int>)
    requires WellFormedAudio(channels, frames) && i < frames
    ensures |f| == |channels| && forall c :: 0 <= c < |f| ==> f[c] == channels[c][i]
  {
    seq(|channels|, c requires 0 <= c < |channels| => channels[c][i])
  }

  /** The first `n` frames, interleaved. */
  function Interleaved(channels: seq<seq<int>>, frames: nat, n: nat): (s: seq<int>)
    requires WellFormedAudio(channels, frames) && n <= frames
    ensures |s| == n * |channels|
  {
    if n == 0 then [] else Interleaved(channels, frames, n - 1) + Frame(channels, frames, n - 1)
  }

  /** Samples as consecutive little-endian 16-bit fields. */
  function EncodeSamples(xs: seq<int>): (b: seq<Byte>)
    ensures |b| == 2 * |xs|
  {
    if xs == [] then [] else EncodeSamples(xs[..|xs| - 1]) + U16(xs[|xs| - 1])
  }

  /** `audioBufferToWav`: the header, then the frames in order, each frame's samples in
      channel order. */
  method AudioBufferToWav(channels: seq<seq<int>>, frames: nat, sampleRate: nat) returns (wav: seq<Byte>)
    requires WellFormedAudio(channels, frames)
    ensures |wav| == HeaderSize + DataSize(frames, |channels|)
    ensures wav[..HeaderSize] == Header(frames, sampleRate, |channels|)
    ensures forall i, c :: 0 <= i < frames && 0 <= c < |channels| ==>
      && HeaderSize + 2 * (i * |channels| + c) + 2 <= |wav|
      && ReadI16(wav, HeaderSize + 2 * (i * |channels| + c)) == channels[c][i]
  {
    var header := Header(frames, sampleRate, |channels|);
    var body := EncodeFrames(channels, frames);
    wav := header + body;
    assert wav[..HeaderSize] == header;
    EncodedAudio(wav, header, channels, frames);
  }

  /** The loop of `audioBufferToWav`: frame by frame, channel by channel. */
  method EncodeFrames(channels: seq<seq<int>>, frames: nat) returns (body: seq<Byte>)
    requires WellFormedAudio(channels, frames)
    ensures body == EncodeSamples(Interleaved(channels, frames, frames))
  {
    body := [];
    var i := 0;
    while i < frames
      invariant 0 <= i <= frames
      invariant body == EncodeSamples(Interleaved(channels, frames, i))
    {
      var done := Interleaved(channels, frames, i);
      var f := Frame(channels, frames, i);
      body := EncodeFrame(body, done, f);
      assert Interleaved(channels, frames, i + 1) == done + f;
      i := i + 1;
    }
  }

  /** The inner loop of `audioBufferToWav`: one frame's samples in channel order. */
  method EncodeFrame(body: seq<Byte>, done: seq<int>, f: seq<int>) returns (r: seq<Byte>)
    requires body == EncodeSamples(done)
    ensures r == EncodeSamples(done + f)
  {
    r := body;
    var c := 0;
    assert done + f[..0] == done;
    while c < |f|
      invariant 0 <= c <= |f|
      invariant r == EncodeSamples(done + f[..c])
    {
      NextField(done, f, c);
      r := r + U16(f[c]);
      c := c + 1;
    }
    assert f[..|f|] == f;
  }

  /** Taking one more sample of the frame appends its field to the encoding. */
  lemma NextField(done: seq<int>, f: seq<int>, c: nat)
    requires c < |f|
    ensures EncodeSamples(done + f[..c + 1]) == EncodeSamples(done + f[..c]) + U16(f[c])
  {
    var t := done + f[..c + 1];
    assert t == (done + f[..c]) + [f[c]];
    assert t[..|t| - 1] == done + f[..c];
  }

  /** The encoded frames read back sample by sample after the header. */
  lemma EncodedAudio(wav: seq<Byte>, header: seq<Byte>, channels: seq<seq<int>>, frames: nat)
    requires WellFormedAudio(channels, frames) && |header| == HeaderSize
    requires wav == header + EncodeSamples(Interleaved(channels, frames, frames))
    ensures forall i, c :: 0 <= i < frames && 0 <= c < |channels| ==>
      && HeaderSize + 2 * (i * |channels| + c) + 2 <= |wav|
      && ReadI16(wav, HeaderSize + 2 * (i * |channels| + c)) == channels[c][i]
  {
    forall i, c | 0 <= i < frames && 0 <= c < |channels|
      ensures HeaderSize + 2 * (i * |channels| + c) + 2 <= |wav|
      ensures ReadI16(wav, HeaderSize + 2 * (i * |channels| + c)) == channels[c][i]
    {
      EncodedSample(wav, header, channels, frames, i, c);
    }
  }

  lemma EncodedSample(wav: seq<Byte>, header: seq<Byte>, channels: seq<seq<int>>, frames: nat, i: nat, c: nat)
    requires WellFormedAudio(channels, frames) && |header| == HeaderSize
    requires wav == header + EncodeSamples(Interleaved(channels, frames, frames))
    requires i < frames && c < |channels|
    ensures HeaderSize + 2 * (i * |channels| + c) + 2 <= |wav|
    ensures ReadI16(wav, HeaderSize + 2 * (i * |channels| + c)) == channels[c][i]
  {
    var all := Interleaved(channels, frames, frames);
    var k := i * |channels| + c;
    InterleavedAt(channels, frames, frames, i, c);
    EncodedAt(all, k);
    assert wav[HeaderSize + 2 * k..HeaderSize + 2 * k + 2] == EncodeSamples(all)[2 * k..2 * k + 2];
    U16Read(wav, HeaderSize + 2 * k, all[k]);
  }

  /** Sample `c` of frame `i` sits at position `i * channels + c`. */
  lemma {:induction false} InterleavedAt(channels: seq<seq<int>>, frames: nat, n: nat, i: nat, c: nat)
    requires WellFormedAudio(channels, frames) && n <= frames && i < n && c < |channels|
    ensures i * |channels| + c < n * |channels|
    ensures Interleaved(channels, frames, n)[i * |channels| + c] == channels[c][i]
    decreases n
  {
    MulBound(i, c, n, |channels|);
    if i < n - 1 {
      MulBound(i, c, n - 1, |channels|);
      InterleavedAt(channels, frames, n - 1, i, c);
    } else {
      assert (n - 1) * |channels| == |Interleaved(channels, frames, n - 1)|;
    }
  }

  lemma MulBound(i: nat, c: nat, n: nat, k: nat)
    requires i < n && c < k
    ensures i * k + c < n * k
  {
    assert i * k + c < i * k + k == (i + 1) * k <= n * k;
  }

  /** Field `k` of the encoding holds sample `k`. */
  lemma {:induction false} EncodedAt(xs: seq<int>, k: nat)
    requires k < |xs|
    ensures EncodeSamples(xs)[2 * k..2 * k + 2] == U16(xs[k])
    decreases |xs|
  {
    var ys := xs[..|xs| - 1];
    var e := EncodeSamples(xs);
    assert e == EncodeSamples(ys) + U16(xs[|xs| - 1]);
    if k < |xs| - 1 {
      EncodedAt(ys, k);
      assert ys[k] == xs[k];
      assert e[2 * k..2 * k + 2] == EncodeSamples(ys)[2 * k..2 * k + 2];
    } else {
      assert 2 * k == |EncodeSamples(ys)|;
    }
  }

  // ---------------------------------------------------------------------------
  // Starting

  /** What the model-status hook reports. */
  datatype Readiness = Readiness(isReady: bool, isLoading: bool, error: string)

  const StartPrefix: string := "无法开始录音: "

  /** `startRecording`: whether recording begins, and the error set otherwise.  The
      microphone's refusal (`micError`) arrives after the two checks. */
  function StartRecording(model: Readiness, mediaSupported: bool, micError: Option<string>): (r: (bool, Option<string>))
    ensures r.0 <==> model.isReady && mediaSupported && micError.None?
    ensures r.0 <==> r.1.None?
  {
    if !model.isReady then
      (false, Some(StartPrefix + (if model.isLoading then "FunASR服务器正在启动中，请稍候..."
                                  else if model.error != [] then "FunASR服务器未就绪，请检查配置"
                                  else "正在准备FunASR服务器，请稍候...")))
    else if !mediaSupported then (false, Some(StartPrefix + "您的浏览器不支持录音功能"))
    else match micError
      case Some(m) => (false, Some(StartPrefix + m))
      case None => (true, None)
  }

  // ---------------------------------------------------------------------------
  // After the recording: processAudio

  /** The recogniser's answer. */
  datatype Transcription = Transcription(success: bool, text: string, error: string)

  /** What the UI is told, in order. */
  datatype Notice =
    | TranscriptionComplete(text: string, enhancedByAi: bool)
    | AiComplete(text: string, enhancedByAi: bool)

  datatype Processed = Processed(
    notices: seq<Notice>,
    saved: Option<TextProcessing.Record>,
    result: Result<string>)      // the text returned, or the thrown message

  const AudioPrefix: string := "音频处理失败: "

  /** `enable_ai_optimization`, read with default true: off only when stored falsy. */
  predicate AiEnabled(stored: Option<Json>) {
    stored.None? || JsTruthy(stored.value)
  }

  /** The record with the AI's text, when the AI answered with success. */
  function AiRecord(raw: string, ai: TextProcessing.AiAnswer): (r: TextProcessing.Record)
    ensures r.rawText == raw
    ensures r.processedText.Some? <==> ai.Answer? && ai.success
  {
    if ai.Answer? && ai.success then
      TextProcessing.Record(if ai.text != [] && Text.Trim(ai.text) != Text.Trim(raw) then ai.text else raw,
                            raw, Some(ai.text))
    else TextProcessing.Record(raw, raw, None)
  }

  /** The AI completion notice: enhanced when the processed text is non-empty and differs
      from the raw text, compared without trimming. */
  function AiNotice(raw: string, record: TextProcessing.Record): (n: Notice)
    ensures n.enhancedByAi <==> record.processedText.Some? && record.processedText.value != []
                                 && record.processedText.value != raw
    ensures n.enhancedByAi ==> n.text == record.processedText.value
    ensures !n.enhancedByAi ==> n.text == raw
  {
    match record.processedText
    case Some(p) => if p != [] && p != raw then AiComplete(p, true) else AiComplete(raw, false)
    case None => AiComplete(raw, false)
  }

  /** `processAudio` after the WAV conversion, given the recogniser's answer, the stored
      AI flag, the AI's answer and whether the save succeeds.  The AI pass runs after the
      function has returned; its effects are listed all the same. */
  function ProcessAudio(t: Transcription, aiFlag: Option<Json>, ai: TextProcessing.AiAnswer,
                        saveSucceeds: bool): (p: Processed)
    ensures !t.success ==> p.notices == [] && p.saved.None?
    ensures !t.success ==> p.result == Failure(AudioPrefix + (if t.error != [] then t.error else "语音识别失败"))
    ensures t.success ==> p.result == Success(t.text) && p.saved.Some? && p.saved.value.rawText == t.text
    ensures t.success ==> |p.notices| >= 1 && p.notices[0] == TranscriptionComplete(t.text, false)
    ensures t.success && !AiEnabled(aiFlag) ==> p.saved == Some(TextProcessing.Record(t.text, t.text, None))
  {
    if !t.success then
      Processed([], None, Failure(AudioPrefix + (if t.error != [] then t.error else "语音识别失败")))
    else
      var raw := t.text;
      var first := TranscriptionComplete(raw, false);
      if !AiEnabled(aiFlag) then
        var record := TextProcessing.Record(raw, raw, None);
        Processed([first] + (if saveSucceeds then [AiComplete(raw, false)] else []), Some(record), Success(raw))
      else
        var record := AiRecord(raw, ai);
        Processed([first] + (if saveSucceeds then [AiNotice(raw, record)] else []), Some(record), Success(raw))
  }

  /** The error the recorder's stop handler shows for a failure of `processAudio`, as
      written: the prefix is added a second time to a message that already has it. */
  function StopErrorAsWritten(p: Processed): (e: Option<string>)
    ensures e.Some? <==> p.result.Failure?
    ensures e.Some? ==> Text.StartsWith(e.value, AudioPrefix) && e.value[|AudioPrefix|..] == p.result.error
  {
    if p.result.Failure? then Some(AudioPrefix + p.result.error) else None
  }

  /** The stop handler's error with the prefix once. */
  function StopErrorCorrected(p: Processed): (e: Option<string>)
    ensures e.Some? <==> p.result.Failure?
    ensures p.result.Failure? && Text.StartsWith(p.result.error, AudioPrefix) ==> e == Some(p.result.error)
  {
    if p.result.Failure? then
      Some(if Text.StartsWith(p.result.error, AudioPrefix) then p.result.error else AudioPrefix + p.result.error)
    else None
  }

  // ---------------------------------------------------------------------------
  // Properties

  /** Every recognition failure is shown with the prefix twice. */
  lemma StopErrorDoublesPrefix(t: Transcription, aiFlag: Option<Json>, ai: TextProcessing.AiAnswer, saveSucceeds: bool)
    requires !t.success
    ensures var p := ProcessAudio(t, aiFlag, ai, saveSucceeds);
      var e := StopErrorAsWritten(p).value;
      Text.StartsWith(e, AudioPrefix + AudioPrefix)
  {
  }

  /** The corrected handler shows the thrown message itself, prefixed once. */
  lemma StopErrorOnce(t: Transcription, aiFlag: Option<Json>, ai: TextProcessing.AiAnswer, saveSucceeds: bool)
    requires !t.success
    ensures var p := ProcessAudio(t, aiFlag, ai, saveSucceeds);
      StopErrorCorrected(p) == Some(AudioPrefix + (if t.error != [] then t.error else "语音识别失败"))
  {
    var p := ProcessAudio(t, aiFlag, ai, saveSucceeds);
    assert Text.StartsWith(p.result.error, AudioPrefix);
  }

  /** The saved text is the AI's only when it succeeded and differs after trimming; the
      notice is enhanced only when the AI's text is non-empty and differs untrimmed. */
  lemma AiPassChoices(raw: string, ai: TextProcessing.AiAnswer)
    requires ai.Answer? && ai.success
    ensures var p := ProcessAudio(Transcription(true, raw, []), None, ai, true);
      && p.saved.value.text == (if ai.text != [] && Text.Trim(ai.text) != Text.Trim(raw) then ai.text else raw)
      && p.notices[1].enhancedByAi == (ai.text != [] && ai.text != raw)
  {
  }

  /** A failed AI pass saves and pastes the raw text, not enhanced. */
  lemma AiFailureKeepsRaw(raw: string, ai: TextProcessing.AiAnswer)
    requires !(ai.Answer? && ai.success)
    ensures ProcessAudio(Transcription(true, raw, []), None, ai, true)
      == Processed([TranscriptionComplete(raw, false), AiComplete(raw, false)],
                   Some(TextProcessing.Record(raw, raw, None)), Success(raw))
  {
  }

  /** A model that is not ready never lets the recording start. */
  lemma NotReadyRefuses(model: Readiness, mediaSupported: bool, micError: Option<string>)
    requires !model.isReady
    ensures var r := StartRecording(model, mediaSupported, micError);
      !r.0 && r.1.Some? && Text.StartsWith(r.1.value, StartPrefix)
  {
  }
}
