/** The frame demultiplexer: `process_audio_samples` splits an interleaved
    stereo capture into its left and right channels. */
module FrameDemux {
  import opened Outcomes
  import opened LeBytes

  /** The two channels returned by a successful demultiplex. */
  datatype Stereo = Stereo(left: seq<int>, right: seq<int>)

  /** The left sample of frame `k`: bytes [8k, 8k+4) as a little-endian `i32`. */
  function LeftSample(buf: seq<byte>, k: nat): int
    requires 8 * k + 8 <= |buf|
  {
    FromLeBytes(buf[8 * k .. 8 * k + 4])
  }

  /** The right sample of frame `k`: bytes [8k+4, 8k+8) as a little-endian `i32`. */
  function RightSample(buf: seq<byte>, k: nat): int
    requires 8 * k + 8 <= |buf|
  {
    FromLeBytes(buf[8 * k + 4 .. 8 * k + 8])
  }

  /** Frame-by-frame split of a frame-aligned buffer. */
  function Split(buf: seq<byte>): (s: Stereo)
    requires |buf| % 8 == 0
    ensures 8 * |s.left| == |buf| && |s.right| == |s.left|
  {
    Stereo(seq(|buf| / 8, k requires 0 <= k < |buf| / 8 => LeftSample(buf, k)),
           seq(|buf| / 8, k requires 0 <= k < |buf| / 8 => RightSample(buf, k)))
  }

  /** Splitting peels off the first frame and splits the rest. */
  lemma SplitRest(buf: seq<byte>)
    requires |buf| % 8 == 0 && |buf| > 0
    ensures Split(buf) == Stereo([LeftSample(buf, 0)] + Split(buf[8..]).left, [RightSample(buf, 0)] + Split(buf[8..]).right)
  {
    var s, rest := Split(buf), Split(buf[8..]);
    forall k | 1 <= k < |s.left| {
      SamplesOfRest(buf, k);
    }
    assert s.left == [LeftSample(buf, 0)] + rest.left;
    assert s.right == [RightSample(buf, 0)] + rest.right;
  }

  /** Frame k of a buffer is frame k - 1 of the buffer without its first frame. */
  lemma SamplesOfRest(buf: seq<byte>, k: nat)
    requires 1 <= k && 8 * k + 8 <= |buf|
    ensures LeftSample(buf[8..], k - 1) == LeftSample(buf, k)
    ensures RightSample(buf[8..], k - 1) == RightSample(buf, k)
  {
    assert buf[8..][8 * (k - 1) .. 8 * (k - 1) + 4] == buf[8 * k .. 8 * k + 4];
    assert buf[8..][8 * (k - 1) + 4 .. 8 * (k - 1) + 8] == buf[8 * k + 4 .. 8 * k + 8];
  }

  /** The value `process_audio_samples` returns for `buf`. */
  function Demux(buf: seq<byte>): (r: Result<Stereo>)
    ensures r.Err? <==> |buf| % 8 != 0
    ensures r.Err? ==> r.error == MalformedBuffer
    ensures r.Ok? ==> 8 * |r.value.left| == |buf| && |r.value.right| == |r.value.left|
  {
    if |buf| % 8 != 0 then Err(MalformedBuffer) else Ok(Split(buf))
  }

  /** Every sample of a channel fits in an `i32`. */
  predicate AllI32(s: seq<int>) {
    forall k :: 0 <= k < |s| ==> IsI32(s[k])
  }

  /** The inverse direction: `left[k].to_le_bytes() ++ right[k].to_le_bytes()` for every frame k. */
  function Interleave(left: seq<int>, right: seq<int>): (buf: seq<byte>)
    requires |left| == |right| && AllI32(left) && AllI32(right)
    ensures |buf| == 8 * |left| && |buf| % 8 == 0
  {
    if |left| == 0 then []
    else ToLeBytes(left[0]) + ToLeBytes(right[0]) + Interleave(left[1..], right[1..])
  }

  /** `process_audio_samples`: reject a buffer that is not frame-aligned, otherwise
      push each frame's left and right sample onto the two channels. */
  method ProcessAudioSamples(buffer: seq<byte>) returns (r: Result<Stereo>)
    ensures r == Demux(buffer)
    ensures r.Err? <==> |buffer| % 8 != 0
    ensures r.Err? ==> r.error == MalformedBuffer
    ensures r.Ok? ==> |r.value.left| == |buffer| / 8 && |r.value.right| == |buffer| / 8
    ensures r.Ok? ==> forall k :: 0 <= k < |buffer| / 8 ==>
      r.value.left[k] == FromLeBytes(buffer[8 * k .. 8 * k + 4]) &&
      r.value.right[k] == FromLeBytes(buffer[8 * k + 4 .. 8 * k + 8])
  {
    if |buffer| % 8 != 0 {
      return Err(MalformedBuffer);
    }
    var leftSamples: seq<int> := [];
    var rightSamples: seq<int> := [];
    var k := 0;
    while k < |buffer| / 8
      invariant 0 <= k <= |buffer| / 8
      invariant |leftSamples| == k && |rightSamples| == k
      invariant forall j :: 0 <= j < k ==> leftSamples[j] == LeftSample(buffer, j)
      invariant forall j :: 0 <= j < k ==> rightSamples[j] == RightSample(buffer, j)
    {
      var chunk := buffer[8 * k .. 8 * k + 8];
      assert chunk[0..4] == buffer[8 * k .. 8 * k + 4] && chunk[4..8] == buffer[8 * k + 4 .. 8 * k + 8];
      leftSamples := leftSamples + [FromLeBytes(chunk[0..4])];
      rightSamples := rightSamples + [FromLeBytes(chunk[4..8])];
      k := k + 1;
    }
    assert leftSamples == Split(buffer).left && rightSamples == Split(buffer).right;
    r := Ok(Stereo(leftSamples, rightSamples));
  }

  /** Round trip: re-interleaving the demultiplexed channels rebuilds the buffer. */
  lemma {:induction false} InterleaveDemux(buf: seq<byte>)
    requires |buf| % 8 == 0
    ensures Demux(buf).Ok?
    ensures AllI32(Demux(buf).value.left) && AllI32(Demux(buf).value.right)
    ensures Interleave(Demux(buf).value.left, Demux(buf).value.right) == buf
    decreases |buf|
  {
    if |buf| > 0 {
      var rest := buf[8..];
      InterleaveDemux(rest);
      SplitRest(buf);
      var s := Split(buf);
      assert s.left[1..] == Split(rest).left && s.right[1..] == Split(rest).right;
      ToFromLeBytes(buf[0..4]);
      ToFromLeBytes(buf[4..8]);
      assert buf == buf[0..4] + buf[4..8] + rest;
    }
  }

  /** Round trip the other way: demultiplexing an interleaved pair of channels
      gives those channels back. */
  lemma {:induction false} DemuxInterleave(left: seq<int>, right: seq<int>)
    requires |left| == |right| && AllI32(left) && AllI32(right)
    ensures Demux(Interleave(left, right)) == Ok(Stereo(left, right))
    decreases |left|
  {
    if |left| > 0 {
      var buf := Interleave(left, right);
      DemuxInterleave(left[1..], right[1..]);
      assert buf[0..4] == ToLeBytes(left[0]) && buf[4..8] == ToLeBytes(right[0]);
      assert buf[8..] == Interleave(left[1..], right[1..]);
      FromToLeBytes(left[0]);
      FromToLeBytes(right[0]);
      SplitRest(buf);
      assert left == [left[0]] + left[1..] && right == [right[0]] + right[1..];
    }
  }
}
