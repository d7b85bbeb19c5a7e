/** The two Limelight media-stream sources. Each splits the decoder's byte
  * stream into NAL units with the Annex B scan, queues them with their frame
  * number, and hands queued units to the media pipeline for as many sample
  * requests as are outstanding. `AvStreamSource` also declares an audio side
  * whose queue is never created; `VideoStreamSource` refuses audio requests.
  * Locks, the shutdown event and the pipeline's `ReportGetSampleCompleted`
  * are modelled as a flag and a log of reports on a single thread. */
module StreamSources {
  import opened Common
  import opened HexText
  import opened AnnexB

  datatype MediaType = Audio | Video

  /** A queued NAL unit and the frame number it was tagged with. */
  datatype VideoSample = VideoSample(data: seq<byte>, frame: nat)

  /** One `ReportGetSampleCompleted` call: the stream, the sample's bytes
    * (`None` for the empty sample that `Shutdown` sends) and its timestamp. */
  datatype Report = Report(stream: MediaType, data: Option<seq<byte>>, timestamp: nat)

  /** The scan's contract (the postcondition of `FindNals`) as one predicate. */
  ghost predicate IsNalSplit(buf: seq<byte>, f0: nat, cuts: seq<NalCut>, fAfter: nat)
  {
    (forall k :: 0 <= k < |cuts| ==>
       0 < cuts[k].start && Detected(buf, cuts[k].start) && cuts[k].start + 3 <= cuts[k].end <= |buf|) &&
    (forall p :: 0 < p < |buf| ==> (Detected(buf, p) <==> p in Starts(cuts))) &&
    (forall k :: 0 <= k < |cuts| - 1 ==> cuts[k].end == CutEnd(buf, cuts[k + 1].start)) &&
    (forall k, j :: 0 <= k < j < |cuts| ==> cuts[k].end <= cuts[j].start) &&
    (|cuts| > 0 ==> cuts[|cuts| - 1].end == |buf|) &&
    (forall k :: 0 <= k < |cuts| - 1 ==> cuts[k].frame == f0 + LongCount(buf, cuts[k + 1].start + 1)) &&
    (|cuts| > 0 ==> cuts[|cuts| - 1].frame == fAfter) &&
    fAfter == f0 + LongCount(buf, |buf|)
  }

  predicate WellCut(buf: seq<byte>, cuts: seq<NalCut>)
  {
    forall k :: 0 <= k < |cuts| ==> cuts[k].start <= cuts[k].end <= |buf|
  }

  /** The samples `EnqueueNal` builds from the cuts: a copy of each range and its tag. */
  function NalSamples(buf: seq<byte>, cuts: seq<NalCut>): (r: seq<VideoSample>)
    requires WellCut(buf, cuts)
    ensures |r| == |cuts|
  {
    seq(|cuts|, k requires 0 <= k < |cuts| => VideoSample(buf[cuts[k].start..cuts[k].end], cuts[k].frame))
  }

  function VideoReports(samples: seq<VideoSample>): (r: seq<Report>)
    ensures |r| == |samples|
  {
    seq(|samples|, k requires 0 <= k < |samples| => Report(Video, Some(samples[k].data), samples[k].frame))
  }

  function AudioReports(samples: seq<seq<byte>>, timestamp: nat): (r: seq<Report>)
    ensures |r| == |samples|
  {
    seq(|samples|, k requires 0 <= k < |samples| => Report(Audio, Some(samples[k]), timestamp))
  }

  lemma VideoReportsAppend(a: seq<VideoSample>, b: seq<VideoSample>)
    ensures VideoReports(a + b) == VideoReports(a) + VideoReports(b)
  {
  }

  /** Every unit a scan produces starts with the `00 00 01` prefix. */
  lemma NalSamplesStartCode(buf: seq<byte>, f0: nat, cuts: seq<NalCut>, fAfter: nat)
    requires IsNalSplit(buf, f0, cuts, fAfter)
    ensures WellCut(buf, cuts)
    ensures forall s <- NalSamples(buf, cuts) :: |s.data| >= 3 && s.data[..3] == [0, 0, 1]
  {
    var r := NalSamples(buf, cuts);
    forall k | 0 <= k < |cuts|
      ensures |r[k].data| >= 3 && r[k].data[..3] == [0, 0, 1]
    {
      assert StartCodeAt(buf, cuts[k].start);
      assert r[k].data[..3] == buf[cuts[k].start..cuts[k].start + 3];
    }
  }

  /** Frame tags lie between the counter before and after the scan and never
    * decrease along the queue. */
  lemma NalSamplesFrames(buf: seq<byte>, f0: nat, cuts: seq<NalCut>, fAfter: nat)
    requires IsNalSplit(buf, f0, cuts, fAfter)
    ensures forall k :: 0 <= k < |cuts| ==> f0 <= cuts[k].frame <= fAfter
    ensures forall k, j :: 0 <= k < j < |cuts| ==> cuts[k].frame <= cuts[j].frame
  {
    assert forall k :: 0 <= k < |cuts| ==> cuts[k].start + 3 <= cuts[k].end <= |buf|;
    FramesFollowCounts(buf, f0, cuts, fAfter);
  }

  /** The frame tags read the 4-byte prefix count at increasing positions. */
  lemma FramesFollowCounts(buf: seq<byte>, f0: nat, cuts: seq<NalCut>, fAfter: nat)
    requires forall k :: 0 <= k < |cuts| ==> cuts[k].start + 3 <= cuts[k].end <= |buf|
    requires forall k, j :: 0 <= k < j < |cuts| ==> cuts[k].end <= cuts[j].start
    requires forall k :: 0 <= k < |cuts| - 1 ==> cuts[k].frame == f0 + LongCount(buf, cuts[k + 1].start + 1)
    requires |cuts| > 0 ==> cuts[|cuts| - 1].frame == fAfter
    requires fAfter == f0 + LongCount(buf, |buf|)
    ensures forall k :: 0 <= k < |cuts| ==> f0 <= cuts[k].frame <= fAfter
    ensures forall k, j :: 0 <= k < j < |cuts| ==> cuts[k].frame <= cuts[j].frame
  {
    forall k | 0 <= k < |cuts| - 1
      ensures f0 <= cuts[k].frame <= fAfter
    {
      LongCountMonotone(buf, cuts[k + 1].start + 1, |buf|);
    }
    forall k, j | 0 <= k < j < |cuts|
      ensures cuts[k].frame <= cuts[j].frame
    {
      if j < |cuts| - 1 {
        assert cuts[k + 1].start <= cuts[k + 1].end;
        if k + 1 < j + 1 {
          assert cuts[k + 1].end <= cuts[j + 1].start;
        }
        LongCountMonotone(buf, cuts[k + 1].start + 1, cuts[j + 1].start + 1);
      } else {
        LongCountMonotone(buf, cuts[k + 1].start + 1, |buf|);
      }
    }
  }

  /** The drain loop shared by `SendVideoSamples`, `SendAudioSamples` and
    * `SendSamples`: it stops as soon as no request is outstanding or the queue
    * is empty, so it hands out the oldest `min(outstanding, queued)` entries,
    * in order, and one request is used up per entry. */
  method Drain<T>(queue: seq<T>, outstanding: nat) returns (sent: seq<T>, rest: seq<T>, left: nat)
    ensures sent + rest == queue
    ensures |sent| == Min(outstanding, |queue|)
    ensures left == outstanding - |sent|
    ensures left == 0 || rest == []
  {
    sent, rest, left := [], queue, outstanding;
    while true
      invariant sent + rest == queue && left + |sent| == outstanding
      decreases left
    {
      if left == 0 {
        return;
      }
      if |rest| == 0 {
        return;
      }
      sent, rest, left := sent + [rest[0]], rest[1..], left - 1;
    }
  }

  /** `Limelight/AvStreamSource.cs`: audio and video behind one media source.
    * `frameNumber` is unbounded here (the source's is a `ulong`). */
  class AvStreamSource {
    var frameNumber: nat
    var outstandingVideo: nat
    var outstandingAudio: nat
    var nalQueue: seq<VideoSample>
    /** Declared but never created by any member: `None` is the null reference. */
    var audioQueue: Option<seq<seq<byte>>>
    /** The shutdown event has been set. */
    var shutdown: bool
    var reported: seq<Report>

    constructor ()
      ensures frameNumber == 0 && outstandingVideo == 0 && outstandingAudio == 0
      ensures nalQueue == [] && audioQueue == None && !shutdown && reported == []
    {
      frameNumber := 0;
      outstandingVideo := 0;
      outstandingAudio := 0;
      nalQueue := [];
      audioQueue := None;
      shutdown := false;
      reported := [];
    }

    /** Sets the event, then answers each stream's outstanding requests with a
      * single empty sample and forgets them. */
    method Shutdown()
      modifies this
      ensures shutdown && outstandingVideo == 0 && outstandingAudio == 0
      ensures reported == old(reported)
                          + (if old(outstandingVideo) > 0 then [Report(Video, None, 0)] else [])
                          + (if old(outstandingAudio) > 0 then [Report(Audio, None, 0)] else [])
      ensures frameNumber == old(frameNumber) && nalQueue == old(nalQueue) && audioQueue == old(audioQueue)
    {
      shutdown := true;
      if outstandingVideo > 0 {
        reported := reported + [Report(Video, None, 0)];
        outstandingVideo := 0;
      }
      if outstandingAudio > 0 {
        reported := reported + [Report(Audio, None, 0)];
        outstandingAudio := 0;
      }
    }

    method EnqueueNal(buf: seq<byte>, nalStart: nat, nalEnd: nat, frame: nat)
      requires nalStart <= nalEnd <= |buf|
      modifies this
      ensures nalQueue == old(nalQueue) + [VideoSample(buf[nalStart..nalEnd], frame)]
      ensures frameNumber == old(frameNumber) && outstandingVideo == old(outstandingVideo)
      ensures outstandingAudio == old(outstandingAudio) && audioQueue == old(audioQueue)
      ensures shutdown == old(shutdown) && reported == old(reported)
    {
      nalQueue := nalQueue + [VideoSample(buf[nalStart..nalEnd], frame)];
    }

    /** `EnqueueNal` for each cut, in order. */
    method EnqueueCuts(buf: seq<byte>, cuts: seq<NalCut>)
      requires WellCut(buf, cuts)
      modifies this
      ensures nalQueue == old(nalQueue) + NalSamples(buf, cuts)
      ensures frameNumber == old(frameNumber) && outstandingVideo == old(outstandingVideo)
      ensures outstandingAudio == old(outstandingAudio) && audioQueue == old(audioQueue)
      ensures shutdown == old(shutdown) && reported == old(reported)
    {
      var k := 0;
      while k < |cuts|
        invariant k <= |cuts|
        invariant nalQueue == old(nalQueue) + NalSamples(buf, cuts[..k])
        invariant frameNumber == old(frameNumber) && outstandingVideo == old(outstandingVideo)
        invariant outstandingAudio == old(outstandingAudio) && audioQueue == old(audioQueue)
        invariant shutdown == old(shutdown) && reported == old(reported)
      {
        EnqueueNal(buf, cuts[k].start, cuts[k].end, cuts[k].frame);
        assert NalSamples(buf, cuts[..k + 1]) == NalSamples(buf, cuts[..k]) + [NalSamples(buf, cuts)[k]];
        k := k + 1;
      }
      assert cuts[..k] == cuts;
    }

    /** Nothing once shut down; otherwise the oldest `min(outstanding, queued)`
      * units are reported, in order, each with its frame number as timestamp. */
    method SendVideoSamples()
      modifies this
      ensures old(shutdown) ==>
                nalQueue == old(nalQueue) && outstandingVideo == old(outstandingVideo) && reported == old(reported)
      ensures !old(shutdown) ==>
                var m := Min(old(outstandingVideo), |old(nalQueue)|);
                nalQueue == old(nalQueue)[m..] && outstandingVideo == old(outstandingVideo) - m &&
                reported == old(reported) + VideoReports(old(nalQueue)[..m])
      ensures !old(shutdown) ==> outstandingVideo == 0 || nalQueue == []
      ensures frameNumber == old(frameNumber) && outstandingAudio == old(outstandingAudio)
      ensures audioQueue == old(audioQueue) && shutdown == old(shutdown)
    {
      if shutdown {
        return;
      }
      var sent, rest, left := Drain(nalQueue, outstandingVideo);
      assert sent == nalQueue[..|sent|] && rest == nalQueue[|sent|..];
      nalQueue := rest;
      outstandingVideo := left;
      reported := reported + VideoReports(sent);
    }

    /** Scans `buf`, queues every unit the scan cuts (each a copy of its byte
      * range, tagged with the frame count at the time) and then drains the
      * queue. The frame counter advances by the 4-byte prefixes seen. */
    method EnqueueVideoSamples(buf: seq<byte>) returns (ghost cuts: seq<NalCut>)
      modifies this
      ensures IsNalSplit(buf, old(frameNumber), cuts, frameNumber) && WellCut(buf, cuts)
      ensures frameNumber >= old(frameNumber)
      ensures var pending := old(nalQueue) + NalSamples(buf, cuts);
              if old(shutdown) then
                nalQueue == pending && outstandingVideo == old(outstandingVideo) && reported == old(reported)
              else
                var m := Min(old(outstandingVideo), |pending|);
                nalQueue == pending[m..] && outstandingVideo == old(outstandingVideo) - m &&
                reported == old(reported) + VideoReports(pending[..m])
      ensures outstandingAudio == old(outstandingAudio) && audioQueue == old(audioQueue) && shutdown == old(shutdown)
    {
      var found, frameAfter := FindNals(buf, frameNumber);
      cuts := found;
      assert IsNalSplit(buf, frameNumber, found, frameAfter);
      NalSamplesStartCode(buf, frameNumber, found, frameAfter);
      EnqueueCuts(buf, found);
      LongCountMonotone(buf, 0, |buf|);
      frameNumber := frameAfter;
      SendVideoSamples();
    }

    /** The audio queue was never created, so the call dereferences null
      * whenever `audioQueue` is `None`. */
    method EnqueueAudioSamples(buf: seq<byte>) returns (thrown: Option<Error>)
      modifies this
      ensures old(audioQueue) == None ==>
                thrown == Some(NullReference) && audioQueue == None &&
                outstandingAudio == old(outstandingAudio) && reported == old(reported)
      ensures old(audioQueue).Some? ==> thrown == None
      ensures old(audioQueue).Some? ==>
                (var pending := old(audioQueue).value + [buf];
                 if old(shutdown) then
                   audioQueue == Some(pending) && outstandingAudio == old(outstandingAudio) && reported == old(reported)
                 else
                   var m := Min(old(outstandingAudio), |pending|);
                   audioQueue == Some(pending[m..]) && outstandingAudio == old(outstandingAudio) - m &&
                   reported == old(reported) + AudioReports(pending[..m], frameNumber))
      ensures frameNumber == old(frameNumber) && nalQueue == old(nalQueue) && outstandingVideo == old(outstandingVideo)
      ensures shutdown == old(shutdown)
    {
      if audioQueue == None {
        return Some(NullReference);
      }
      audioQueue := Some(audioQueue.value + [buf]);
      thrown := SendAudioSamples();
    }

    /** Like `SendVideoSamples`, but every audio sample is stamped with the
      * current video frame number, and an empty outstanding count returns
      * before the (possibly null) queue is touched. The queue is counted with
      * the LINQ `Count()` extension, which rejects a null queue with
      * `ArgumentNullException` before anything is dereferenced. */
    method SendAudioSamples() returns (thrown: Option<Error>)
      modifies this
      ensures old(shutdown) || old(outstandingAudio) == 0 ==>
                thrown == None && audioQueue == old(audioQueue) &&
                outstandingAudio == old(outstandingAudio) && reported == old(reported)
      ensures !old(shutdown) && old(outstandingAudio) > 0 && old(audioQueue) == None ==>
                thrown == Some(ArgumentNull) && audioQueue == None &&
                outstandingAudio == old(outstandingAudio) && reported == old(reported)
      ensures !old(shutdown) && old(outstandingAudio) > 0 && old(audioQueue).Some? ==>
                var q := old(audioQueue).value;
                var m := Min(old(outstandingAudio), |q|);
                thrown == None && audioQueue == Some(q[m..]) && outstandingAudio == old(outstandingAudio) - m &&
                reported == old(reported) + AudioReports(q[..m], frameNumber)
      ensures frameNumber == old(frameNumber) && nalQueue == old(nalQueue) && outstandingVideo == old(outstandingVideo)
      ensures shutdown == old(shutdown)
    {
      if shutdown || outstandingAudio == 0 {
        return None;
      }
      if audioQueue == None {
        return Some(ArgumentNull);
      }
      var sent, rest, left := Drain(audioQueue.value, outstandingAudio);
      assert sent == audioQueue.value[..|sent|] && rest == audioQueue.value[|sent|..];
      audioQueue := Some(rest);
      outstandingAudio := left;
      reported := reported + AudioReports(sent, frameNumber);
      thrown := None;
    }

    /** A request only raises the stream's outstanding count; nothing is sent. */
    method GetSampleAsync(stream: MediaType)
      modifies this
      ensures stream == Audio ==> outstandingAudio == old(outstandingAudio) + 1 && outstandingVideo == old(outstandingVideo)
      ensures stream == Video ==> outstandingVideo == old(outstandingVideo) + 1 && outstandingAudio == old(outstandingAudio)
      ensures frameNumber == old(frameNumber) && nalQueue == old(nalQueue) && audioQueue == old(audioQueue)
      ensures shutdown == old(shutdown) && reported == old(reported)
    {
      if stream == Audio {
        outstandingAudio := outstandingAudio + 1;
      } else {
        outstandingVideo := outstandingVideo + 1;
      }
    }
  }

  /** `Limelight/VideoStreamSource.cs`: the video-only variant. */
  class VideoStreamSource {
    var frameNumber: nat
    var outstandingVideo: nat
    var nalQueue: seq<VideoSample>
    var shutdown: bool
    var reported: seq<Report>

    constructor ()
      ensures frameNumber == 0 && outstandingVideo == 0 && nalQueue == [] && !shutdown && reported == []
    {
      frameNumber := 0;
      outstandingVideo := 0;
      nalQueue := [];
      shutdown := false;
      reported := [];
    }

    /** One empty sample only when requests are outstanding, which are then dropped. */
    method Shutdown()
      modifies this
      ensures shutdown && outstandingVideo == 0
      ensures reported == old(reported) + (if old(outstandingVideo) > 0 then [Report(Video, None, 0)] else [])
      ensures frameNumber == old(frameNumber) && nalQueue == old(nalQueue)
    {
      shutdown := true;
      if outstandingVideo > 0 {
        reported := reported + [Report(Video, None, 0)];
        outstandingVideo := 0;
      }
    }

    method EnqueueNal(buf: seq<byte>, nalStart: nat, nalEnd: nat, frame: nat)
      requires nalStart <= nalEnd <= |buf|
      modifies this
      ensures nalQueue == old(nalQueue) + [VideoSample(buf[nalStart..nalEnd], frame)]
      ensures frameNumber == old(frameNumber) && outstandingVideo == old(outstandingVideo)
      ensures shutdown == old(shutdown) && reported == old(reported)
    {
      nalQueue := nalQueue + [VideoSample(buf[nalStart..nalEnd], frame)];
    }

    /** `EnqueueNal` for each cut, in order. */
    method EnqueueCuts(buf: seq<byte>, cuts: seq<NalCut>)
      requires WellCut(buf, cuts)
      modifies this
      ensures nalQueue == old(nalQueue) + NalSamples(buf, cuts)
      ensures frameNumber == old(frameNumber) && outstandingVideo == old(outstandingVideo)
      ensures shutdown == old(shutdown) && reported == old(reported)
    {
      var k := 0;
      while k < |cuts|
        invariant k <= |cuts|
        invariant nalQueue == old(nalQueue) + NalSamples(buf, cuts[..k])
        invariant frameNumber == old(frameNumber) && outstandingVideo == old(outstandingVideo)
        invariant shutdown == old(shutdown) && reported == old(reported)
      {
        EnqueueNal(buf, cuts[k].start, cuts[k].end, cuts[k].frame);
        assert NalSamples(buf, cuts[..k + 1]) == NalSamples(buf, cuts[..k]) + [NalSamples(buf, cuts)[k]];
        k := k + 1;
      }
      assert cuts[..k] == cuts;
    }

    method SendSamples()
      modifies this
      ensures old(shutdown) ==>
                nalQueue == old(nalQueue) && outstandingVideo == old(outstandingVideo) && reported == old(reported)
      ensures !old(shutdown) ==>
                var m := Min(old(outstandingVideo), |old(nalQueue)|);
                nalQueue == old(nalQueue)[m..] && outstandingVideo == old(outstandingVideo) - m &&
                reported == old(reported) + VideoReports(old(nalQueue)[..m])
      ensures !old(shutdown) ==> outstandingVideo == 0 || nalQueue == []
      ensures frameNumber == old(frameNumber) && shutdown == old(shutdown)
    {
      if shutdown {
        return;
      }
      var sent, rest, left := Drain(nalQueue, outstandingVideo);
      assert sent == nalQueue[..|sent|] && rest == nalQueue[|sent|..];
      nalQueue := rest;
      outstandingVideo := left;
      reported := reported + VideoReports(sent);
    }

    method EnqueueSamples(buf: seq<byte>) returns (ghost cuts: seq<NalCut>)
      modifies this
      ensures IsNalSplit(buf, old(frameNumber), cuts, frameNumber) && WellCut(buf, cuts)
      ensures frameNumber >= old(frameNumber)
      ensures var pending := old(nalQueue) + NalSamples(buf, cuts);
              if old(shutdown) then
                nalQueue == pending && outstandingVideo == old(outstandingVideo) && reported == old(reported)
              else
                var m := Min(old(outstandingVideo), |pending|);
                nalQueue == pending[m..] && outstandingVideo == old(outstandingVideo) - m &&
                reported == old(reported) + VideoReports(pending[..m])
      ensures shutdown == old(shutdown)
    {
      var found, frameAfter := FindNals(buf, frameNumber);
      cuts := found;
      assert IsNalSplit(buf, frameNumber, found, frameAfter);
      NalSamplesStartCode(buf, frameNumber, found, frameAfter);
      EnqueueCuts(buf, found);
      LongCountMonotone(buf, 0, |buf|);
      frameNumber := frameAfter;
      SendSamples();
    }

    /** Video requests are counted; an audio request throws `NotImplementedException`. */
    method GetSampleAsync(stream: MediaType) returns (thrown: Option<Error>)
      modifies this
      ensures stream == Audio ==> thrown == Some(NotImplemented) && outstandingVideo == old(outstandingVideo)
      ensures stream == Video ==> thrown == None && outstandingVideo == old(outstandingVideo) + 1
      ensures frameNumber == old(frameNumber) && nalQueue == old(nalQueue)
      ensures shutdown == old(shutdown) && reported == old(reported)
    {
      if stream == Audio {
        return Some(NotImplemented);
      }
      outstandingVideo := outstandingVideo + 1;
      thrown := None;
    }
  }

  /** `ByteToBase16Str` applied to the low and then the high byte of a 16-bit
    * value: little-endian hex, as the WAVEFORMATEX codec data needs. */
  function ShortToBase16Str(x: int): (s: string)
    requires IsShort(x)
    ensures |s| == 4
  {
    ByteHex(x % 256) + ByteHex((x / 256) % 256)
  }

  /** The four bytes of a 32-bit value, lowest first, each as `"X2"`. */
  function IntToBase16Str(x: int): (s: string)
    requires INT_MIN <= x <= INT_MAX
    ensures |s| == 8
  {
    ByteHex(x % 256) + ByteHex((x / 256) % 256) + ByteHex((x / 0x1_0000) % 256) + ByteHex((x / 0x100_0000) % 256)
  }

  /** Text made of whole upper-case hex pairs. */
  predicate HexPairs(s: string)
  {
    |s| % 2 == 0 && (|s| == 0 || (IsUpperHexChar(s[0]) && IsUpperHexChar(s[1]) && HexPairs(s[2..])))
  }

  /** Hex pairs read back as a little-endian number: the inverse of the two
    * formatters. */
  function LeHexValue(s: string): nat
    requires HexPairs(s)
  {
    if |s| == 0 then 0 else HexPairValue(s[..2]) + 256 * LeHexValue(s[2..])
  }

  lemma LeHexValueCons(b: byte, rest: string)
    requires HexPairs(rest)
    ensures HexPairs(ByteHex(b) + rest)
    ensures LeHexValue(ByteHex(b) + rest) == b + 256 * LeHexValue(rest)
  {
    var h := ByteHex(b);
    var s := h + rest;
    assert s[0] == h[0] && s[1] == h[1];
    assert s[..2] == h && s[2..] == rest;
    assert HexPairs(s);
    assert LeHexValue(s) == HexPairValue(h) + 256 * LeHexValue(rest);
  }

  /** A 16-bit pattern is the sum of its two bytes. */
  lemma ByteSplit16(x: int)
    ensures x % 0x1_0000 == x % 256 + 256 * ((x / 256) % 256)
  {
    var q, r := x / 256, x % 256;
    var q2, r2 := q / 256, q % 256;
    assert x == 0x1_0000 * q2 + (256 * r2 + r);
    assert 0 <= 256 * r2 + r < 0x1_0000;
  }

  /** The 16-bit formatter's text is upper-case hex that reads back as the
    * value's 16-bit pattern. */
  lemma ShortToBase16StrValue(x: int)
    requires IsShort(x)
    ensures HexPairs(ShortToBase16Str(x)) && LeHexValue(ShortToBase16Str(x)) == x % 0x1_0000
  {
    var hi := (x / 256) % 256;
    LeHexValueCons(hi, []);
    assert ByteHex(hi) + [] == ByteHex(hi);
    LeHexValueCons(x % 256, ByteHex(hi));
    ByteSplit16(x);
  }

  /** The 32-bit formatter's text is upper-case hex that reads back as the
    * value's 32-bit pattern. */
  lemma IntToBase16StrValue(x: int)
    requires INT_MIN <= x <= INT_MAX
    ensures HexPairs(IntToBase16Str(x)) && LeHexValue(IntToBase16Str(x)) == x % 0x1_0000_0000
  {
    var b1 := ByteHex((x / 256) % 256);
    var b2 := ByteHex((x / 0x1_0000) % 256);
    var b3 := ByteHex((x / 0x100_0000) % 256);
    LeHexValueCons((x / 0x100_0000) % 256, []);
    LeHexValueCons((x / 0x1_0000) % 256, b3);
    LeHexValueCons((x / 256) % 256, b2 + b3);
    LeHexValueCons(x % 256, b1 + b2 + b3);
    assert ByteHex(x % 256) + (b1 + b2 + b3) == IntToBase16Str(x);
    ByteSplit32(x);
  }

  /** A 32-bit pattern is the sum of its four bytes. */
  lemma ByteSplit32(x: int)
    ensures x % 0x1_0000_0000 ==
            x % 256 + 256 * ((x / 256) % 256) + 0x1_0000 * ((x / 0x1_0000) % 256) + 0x100_0000 * ((x / 0x100_0000) % 256)
  {
    var q1, r0 := x / 256, x % 256;
    var q2, r1 := q1 / 256, q1 % 256;
    var q3, r2 := q2 / 256, q2 % 256;
    var q4, r3 := q3 / 256, q3 % 256;
    assert x == 0x1_0000_0000 * q4 + (0x100_0000 * r3 + 0x1_0000 * r2 + 256 * r1 + r0);
    assert q2 == x / 0x1_0000 by {
      assert x == 0x1_0000 * q2 + (256 * r1 + r0);
    }
    assert q3 == x / 0x100_0000 by {
      assert x == 0x100_0000 * q3 + (0x1_0000 * r2 + 256 * r1 + r0);
    }
  }

  /** A WAVEFORMATEX record as `PrepareAudio` writes it into the codec private
    * data: each field in little-endian hex, in declaration order. `PrepareAudio`
    * passes 16-bit stereo PCM at 48 kHz: tag 1, 2 channels, 48000 samples/s,
    * 192000 bytes/s, 4-byte blocks, 16 bits and no extra bytes. */
  function WaveFormatEx(formatTag: int, channels: int, samplesPerSec: int, avgBytesPerSec: int,
                        blockAlign: int, bitsPerSample: int, cbSize: int): (s: string)
    requires IsShort(formatTag) && IsShort(channels) && IsShort(blockAlign) && IsShort(bitsPerSample) && IsShort(cbSize)
    requires INT_MIN <= samplesPerSec <= INT_MAX && INT_MIN <= avgBytesPerSec <= INT_MAX
    ensures |s| == 36
  {
    ShortToBase16Str(formatTag) + ShortToBase16Str(channels) + IntToBase16Str(samplesPerSec) +
    IntToBase16Str(avgBytesPerSec) + ShortToBase16Str(blockAlign) + ShortToBase16Str(bitsPerSample) +
    ShortToBase16Str(cbSize)
  }

  /** The fields of a 4-4-8-8-4-4-4 character record sit at fixed ranges. */
  lemma SevenFields(a: string, b: string, c: string, d: string, e: string, f: string, g: string)
    requires |a| == 4 && |b| == 4 && |c| == 8 && |d| == 8 && |e| == 4 && |f| == 4 && |g| == 4
    ensures var s := a + b + c + d + e + f + g;
            s[0..4] == a && s[4..8] == b && s[8..16] == c && s[16..24] == d &&
            s[24..28] == e && s[28..32] == f && s[32..36] == g
  {
    var p1 := a + b;
    var p2 := p1 + c;
    var p3 := p2 + d;
    var p4 := p3 + e;
    var p5 := p4 + f;
    var s := p5 + g;
    PartOf(p5, g);
    PartOf(p4, f);
    PartOf(p3, e);
    PartOf(p2, d);
    PartOf(p1, c);
    PartOf(a, b);
    PrefixSlice(s, p5, 28, 32);
    PrefixSlice(s, p4, 24, 28);
    PrefixSlice(s, p3, 16, 24);
    PrefixSlice(s, p2, 8, 16);
    PrefixSlice(s, p1, 4, 8);
    PrefixSlice(s, a, 0, 4);
  }

  /** Both halves of a concatenation are slices of it. */
  lemma PartOf(x: string, y: string)
    ensures (x + y)[..|x|] == x && (x + y)[|x|..] == y
  {
  }

  /** A slice inside a prefix of `s` is the same slice of that prefix. */
  lemma PrefixSlice(s: string, p: string, i: nat, j: nat)
    requires p <= s && i <= j == |p|
    ensures s[i..j] == p[i..]
  {
    assert s[..j] == p;
  }

  /** Each field reads back from its fixed character range. */
  lemma WaveFormatExFields(formatTag: int, channels: int, samplesPerSec: int, avgBytesPerSec: int,
                           blockAlign: int, bitsPerSample: int, cbSize: int)
    requires IsShort(formatTag) && IsShort(channels) && IsShort(blockAlign) && IsShort(bitsPerSample) && IsShort(cbSize)
    requires INT_MIN <= samplesPerSec <= INT_MAX && INT_MIN <= avgBytesPerSec <= INT_MAX
    ensures var s := WaveFormatEx(formatTag, channels, samplesPerSec, avgBytesPerSec, blockAlign, bitsPerSample, cbSize);
            HexPairs(s[0..4]) && LeHexValue(s[0..4]) == formatTag % 0x1_0000 &&
            HexPairs(s[4..8]) && LeHexValue(s[4..8]) == channels % 0x1_0000 &&
            HexPairs(s[8..16]) && LeHexValue(s[8..16]) == samplesPerSec % 0x1_0000_0000 &&
            HexPairs(s[16..24]) && LeHexValue(s[16..24]) == avgBytesPerSec % 0x1_0000_0000 &&
            HexPairs(s[24..28]) && LeHexValue(s[24..28]) == blockAlign % 0x1_0000 &&
            HexPairs(s[28..32]) && LeHexValue(s[28..32]) == bitsPerSample % 0x1_0000 &&
            HexPairs(s[32..36]) && LeHexValue(s[32..36]) == cbSize % 0x1_0000
  {
    SevenFields(ShortToBase16Str(formatTag), ShortToBase16Str(channels), IntToBase16Str(samplesPerSec),
                IntToBase16Str(avgBytesPerSec), ShortToBase16Str(blockAlign), ShortToBase16Str(bitsPerSample),
                ShortToBase16Str(cbSize));
    ShortToBase16StrValue(formatTag);
    ShortToBase16StrValue(channels);
    IntToBase16StrValue(samplesPerSec);
    IntToBase16StrValue(avgBytesPerSec);
    ShortToBase16StrValue(blockAlign);
    ShortToBase16StrValue(bitsPerSample);
    ShortToBase16StrValue(cbSize);
  }
}
