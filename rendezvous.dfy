/** The sample rendezvous of the Limelight stream page's media source: a
  * sample request is answered from a queue when a sample is waiting, or is
  * parked until the next sample arrives. Requests are identified by number;
  * the pipeline's `Request.Sample = …; Complete()` is a completion appended to
  * a log. The locks are dropped (single-threaded), the video `Task.Run`
  * completion is taken as immediate (it captures the request and sample and
  * touches nothing shared), and the audio `Task.Run` dequeue, which does touch
  * the queue, is kept as a separate step `RunDeferredAudio`. */
module SampleRendezvous {
  import opened Common

  /** A request answered with a sample. */
  datatype Completion = Completion(request: nat, sample: seq<byte>)

  function SamplesOf(log: seq<Completion>): (r: seq<seq<byte>>)
    ensures |r| == |log| && forall k :: 0 <= k < |log| ==> r[k] == log[k].sample
  {
    seq(|log|, k requires 0 <= k < |log| => log[k].sample)
  }

  lemma SamplesOfAppend(log: seq<Completion>, c: Completion)
    ensures SamplesOf(log + [c]) == SamplesOf(log) + [c.sample]
  {
  }

  class AvStreamSource {
    var pendingVideo: Option<nat>
    var pendingAudio: Option<nat>
    var videoQueue: seq<seq<byte>>
    var audioQueue: seq<seq<byte>>
    /** Requests answered so far, per stream, in order. */
    var videoCompleted: seq<Completion>
    var audioCompleted: seq<Completion>
    /** Audio requests whose dequeue task has been started but has not run. */
    var deferredAudio: seq<nat>
    /** Every sample ever enqueued, per stream. */
    ghost var videoEnqueued: seq<seq<byte>>
    ghost var audioEnqueued: seq<seq<byte>>

    /** A request is parked only while its queue is empty, and every enqueued
      * sample has either gone to exactly one request, in arrival order, or is
      * still queued. */
    ghost predicate Valid()
      reads this
    {
      (pendingVideo.Some? ==> videoQueue == []) &&
      (pendingAudio.Some? ==> audioQueue == []) &&
      SamplesOf(videoCompleted) + videoQueue == videoEnqueued &&
      SamplesOf(audioCompleted) + audioQueue == audioEnqueued
    }

    constructor ()
      ensures Valid()
      ensures pendingVideo == None && pendingAudio == None && videoQueue == [] && audioQueue == []
      ensures videoCompleted == [] && audioCompleted == [] && deferredAudio == []
    {
      pendingVideo, pendingAudio := None, None;
      videoQueue, audioQueue := [], [];
      videoCompleted, audioCompleted := [], [];
      deferredAudio := [];
      videoEnqueued, audioEnqueued := [], [];
    }

    /** Answered with the oldest queued sample if there is one; otherwise the
      * request is parked, replacing (and so abandoning) any parked request. */
    method VideoSampleRequested(request: nat)
      requires Valid()
      modifies this
      ensures Valid()
      ensures old(videoQueue) != [] ==>
                videoCompleted == old(videoCompleted) + [Completion(request, old(videoQueue)[0])] &&
                videoQueue == old(videoQueue)[1..] && pendingVideo == old(pendingVideo)
      ensures old(videoQueue) == [] ==>
                pendingVideo == Some(request) && videoCompleted == old(videoCompleted) && videoQueue == []
      ensures pendingAudio == old(pendingAudio) && audioQueue == old(audioQueue)
      ensures audioCompleted == old(audioCompleted) && deferredAudio == old(deferredAudio)
      ensures videoEnqueued == old(videoEnqueued) && audioEnqueued == old(audioEnqueued)
    {
      if |videoQueue| > 0 {
        SamplesOfAppend(videoCompleted, Completion(request, videoQueue[0]));
        videoCompleted := videoCompleted + [Completion(request, videoQueue[0])];
        videoQueue := videoQueue[1..];
      } else {
        pendingVideo := Some(request);
      }
    }

    /** With a sample waiting, the dequeue is only scheduled; otherwise the
      * request is parked, replacing any parked one. */
    method AudioSampleRequested(request: nat)
      requires Valid()
      modifies this
      ensures Valid()
      ensures old(audioQueue) != [] ==>
                deferredAudio == old(deferredAudio) + [request] && pendingAudio == old(pendingAudio)
      ensures old(audioQueue) == [] ==> pendingAudio == Some(request) && deferredAudio == old(deferredAudio)
      ensures audioQueue == old(audioQueue) && audioCompleted == old(audioCompleted)
      ensures pendingVideo == old(pendingVideo) && videoQueue == old(videoQueue) && videoCompleted == old(videoCompleted)
      ensures videoEnqueued == old(videoEnqueued) && audioEnqueued == old(audioEnqueued)
    {
      if |audioQueue| > 0 {
        deferredAudio := deferredAudio + [request];
      } else {
        pendingAudio := Some(request);
      }
    }

    /** The oldest scheduled audio task runs: it dequeues for its request, and
      * `Queue.Dequeue` throws `InvalidOperationException` when an earlier task
      * has already taken the last sample. */
    method RunDeferredAudio() returns (thrown: Option<Error>)
      requires Valid() && deferredAudio != []
      modifies this
      ensures Valid()
      ensures deferredAudio == old(deferredAudio)[1..]
      ensures old(audioQueue) == [] ==>
                thrown == Some(InvalidOperation) && audioCompleted == old(audioCompleted) && audioQueue == []
      ensures old(audioQueue) != [] ==>
                thrown == None && audioQueue == old(audioQueue)[1..] &&
                audioCompleted == old(audioCompleted) + [Completion(old(deferredAudio)[0], old(audioQueue)[0])]
      ensures pendingAudio == old(pendingAudio)
      ensures pendingVideo == old(pendingVideo) && videoQueue == old(videoQueue) && videoCompleted == old(videoCompleted)
      ensures videoEnqueued == old(videoEnqueued) && audioEnqueued == old(audioEnqueued)
    {
      var request := deferredAudio[0];
      deferredAudio := deferredAudio[1..];
      if |audioQueue| == 0 {
        return Some(InvalidOperation);
      }
      SamplesOfAppend(audioCompleted, Completion(request, audioQueue[0]));
      audioCompleted := audioCompleted + [Completion(request, audioQueue[0])];
      audioQueue := audioQueue[1..];
      thrown := None;
    }

    /** A parked request takes the new sample and is cleared; otherwise the
      * sample joins the back of the queue. */
    method EnqueueVideoSample(buf: seq<byte>)
      requires Valid()
      modifies this
      ensures Valid()
      ensures videoEnqueued == old(videoEnqueued) + [buf]
      ensures old(pendingVideo).Some? ==>
                videoCompleted == old(videoCompleted) + [Completion(old(pendingVideo).value, buf)] &&
                pendingVideo == None && videoQueue == old(videoQueue)
      ensures old(pendingVideo).None? ==>
                videoQueue == old(videoQueue) + [buf] && videoCompleted == old(videoCompleted) && pendingVideo == None
      ensures pendingAudio == old(pendingAudio) && audioQueue == old(audioQueue)
      ensures audioCompleted == old(audioCompleted) && deferredAudio == old(deferredAudio)
      ensures audioEnqueued == old(audioEnqueued)
    {
      videoEnqueued := videoEnqueued + [buf];
      if pendingVideo.Some? {
        var request := pendingVideo.value;
        pendingVideo := None;
        SamplesOfAppend(videoCompleted, Completion(request, buf));
        videoCompleted := videoCompleted + [Completion(request, buf)];
      } else {
        videoQueue := videoQueue + [buf];
      }
    }

    /** As for video, but the parked request is completed synchronously. */
    method EnqueueAudioSample(buf: seq<byte>)
      requires Valid()
      modifies this
      ensures Valid()
      ensures audioEnqueued == old(audioEnqueued) + [buf]
      ensures old(pendingAudio).Some? ==>
                audioCompleted == old(audioCompleted) + [Completion(old(pendingAudio).value, buf)] &&
                pendingAudio == None && audioQueue == old(audioQueue)
      ensures old(pendingAudio).None? ==>
                audioQueue == old(audioQueue) + [buf] && audioCompleted == old(audioCompleted) && pendingAudio == None
      ensures pendingVideo == old(pendingVideo) && videoQueue == old(videoQueue)
      ensures videoCompleted == old(videoCompleted) && deferredAudio == old(deferredAudio)
      ensures videoEnqueued == old(videoEnqueued)
    {
      audioEnqueued := audioEnqueued + [buf];
      if pendingAudio.Some? {
        SamplesOfAppend(audioCompleted, Completion(pendingAudio.value, buf));
        audioCompleted := audioCompleted + [Completion(pendingAudio.value, buf)];
        pendingAudio := None;
      } else {
        audioQueue := audioQueue + [buf];
      }
    }
  }
}
