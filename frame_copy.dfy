/** What the three native decode-unit shims have in common: a decode unit is a
  * list of `(data, length)` fragments plus a `fullLength`, and each shim walks
  * the list with a running offset, `memcpy`-ing every fragment into one
  * contiguous buffer. The audio shims share the Opus output arithmetic. */
module FrameCopy {
  import opened Common

  /** The bytes of a decode unit's fragment list, in list order. */
  function Concat(frags: seq<seq<byte>>): (r: seq<byte>)
    ensures |r| == TotalLength(frags)
  {
    if frags == [] then [] else Concat(frags[..|frags| - 1]) + frags[|frags| - 1]
  }

  /** The sum of the fragment lengths (the shims never compare it with `fullLength`). */
  function TotalLength(frags: seq<seq<byte>>): nat
  {
    if frags == [] then 0 else TotalLength(frags[..|frags| - 1]) + |frags[|frags| - 1]|
  }

  lemma {:induction false} ConcatAppend(frags: seq<seq<byte>>, k: nat)
    requires k < |frags|
    ensures Concat(frags[..k + 1]) == Concat(frags[..k]) + frags[k]
  {
    assert frags[..k + 1][..k] == frags[..k];
  }

  lemma {:induction false} TotalLengthPrefix(frags: seq<seq<byte>>, k: nat)
    requires k <= |frags|
    ensures TotalLength(frags[..k]) <= TotalLength(frags)
    decreases |frags| - k
  {
    if k < |frags| {
      TotalLengthPrefix(frags, k + 1);
      ConcatAppend(frags, k);
    } else {
      assert frags[..k] == frags;
    }
  }

  /** One `memcpy(&buffer[offset], data, length)`. */
  method CopyFragment(buffer: array<byte>, offset: nat, data: seq<byte>)
    requires offset + |data| <= buffer.Length
    modifies buffer
    ensures buffer[..] == old(buffer[..offset]) + data + old(buffer[offset + |data|..])
  {
    var j := 0;
    while j < |data|
      invariant 0 <= j <= |data|
      invariant forall k :: 0 <= k < offset ==> buffer[k] == old(buffer[k])
      invariant forall k :: 0 <= k < j ==> buffer[offset + k] == data[k]
      invariant forall k :: offset + j <= k < buffer.Length ==> buffer[k] == old(buffer[k])
    {
      buffer[offset + j] := data[j];
      j := j + 1;
    }
    var written := old(buffer[..offset]) + data + old(buffer[offset + |data|..]);
    forall k | 0 <= k < buffer.Length
      ensures buffer[k] == written[k]
    {
      if offset <= k < offset + |data| {
        assert buffer[offset + (k - offset)] == data[k - offset];
      }
    }
    assert buffer[..] == written;
  }

  /** The fragment-list walk: each fragment lands at the sum of the lengths
    * before it, so the buffer starts with the unit's concatenation and the
    * bytes after it are untouched. The caller must make room for all of it. */
  method CopyFragments(buffer: array<byte>, frags: seq<seq<byte>>)
    requires TotalLength(frags) <= buffer.Length
    modifies buffer
    ensures buffer[..TotalLength(frags)] == Concat(frags)
    ensures buffer[TotalLength(frags)..] == old(buffer[TotalLength(frags)..])
  {
    var offset := 0;
    var k := 0;
    while k < |frags|
      invariant 0 <= k <= |frags|
      invariant offset == TotalLength(frags[..k]) <= TotalLength(frags)
      invariant buffer[..offset] == Concat(frags[..k])
      invariant buffer[offset..] == old(buffer[offset..])
    {
      ConcatAppend(frags, k);
      TotalLengthPrefix(frags, k + 1);
      CopyFragment(buffer, offset, frags[k]);
      offset := offset + |frags[k]|;
      k := k + 1;
    }
    assert frags[..k] == frags;
  }

  /** Audio decode parameters shared by both audio shims. */
  const MAX_OUTPUT_SHORTS_PER_CHANNEL: nat := 240
  const CHANNEL_COUNT: nat := 2
  const SAMPLE_RATE_HZ: nat := 48000
  const SIZEOF_OPUS_INT16: nat := 2

  /** What `ArShimDecodeAndPlaySample` hands to `PlaySample` for an
    * `opus_decode` result: nothing for zero or an error code, otherwise
    * the decoded interleaved 16-bit samples of both channels. */
  function PlaybackBytes(decodedSamples: int): (r: Option<nat>)
    requires decodedSamples <= MAX_OUTPUT_SHORTS_PER_CHANNEL
    ensures r.Some? <==> decodedSamples > 0
    ensures r.Some? ==> r.value == decodedSamples * 4
    ensures r.Some? ==> 4 <= r.value <= 960
  {
    if decodedSamples > 0 then Some(decodedSamples * CHANNEL_COUNT * SIZEOF_OPUS_INT16) else None
  }
}
