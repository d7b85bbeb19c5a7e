/** The connection listener of the three stream pages: the stage numbers the
  * native library reports, the progress and failure texts shown for them,
  * and the page state the callbacks and the connection start sequence
  * share (`stageFailureText`, the controller poller, mouse capture). */
module ConnectionFlow {
  import opened Common
  import opened Decimal
  import opened PointerInput
  import opened XInputPolling
  import opened SampleRendezvous

  const STAGE_NONE: int := 0
  const STAGE_PLATFORM_INIT: int := 1
  const STAGE_HANDSHAKE: int := 2
  const STAGE_CONTROL_STREAM_INIT: int := 3
  const STAGE_VIDEO_STREAM_INIT: int := 4
  const STAGE_AUDIO_STREAM_INIT: int := 5
  const STAGE_INPUT_STREAM_INIT: int := 6
  const STAGE_CONTROL_STREAM_START: int := 7
  const STAGE_VIDEO_STREAM_START: int := 8
  const STAGE_AUDIO_STREAM_START: int := 9
  const STAGE_INPUT_STREAM_START: int := 10
  const STAGE_MAX: int := 11

  /** The phrase each listed stage is shown with; `STAGE_NONE`, `STAGE_MAX`
    * and every other number have none. */
  function StagePhrase(stage: int): (phrase: Option<string>)
    ensures phrase.Some? <==> STAGE_PLATFORM_INIT <= stage <= STAGE_INPUT_STREAM_START
    ensures phrase.Some? ==> |phrase.value| >= 14
  {
    if stage == STAGE_PLATFORM_INIT then Some("Initializing platform")
    else if stage == STAGE_HANDSHAKE then Some("Starting handshake")
    else if stage == STAGE_CONTROL_STREAM_INIT then Some("Initializing control stream")
    else if stage == STAGE_VIDEO_STREAM_INIT then Some("Initializing video stream")
    else if stage == STAGE_AUDIO_STREAM_INIT then Some("Initializing audio stream")
    else if stage == STAGE_INPUT_STREAM_INIT then Some("Initializing input stream")
    else if stage == STAGE_CONTROL_STREAM_START then Some("Starting control stream")
    else if stage == STAGE_VIDEO_STREAM_START then Some("Starting video stream")
    else if stage == STAGE_AUDIO_STREAM_START then Some("Starting audio stream")
    else if stage == STAGE_INPUT_STREAM_START then Some("Starting input stream")
    else None
  }

  /** Two different stages have phrases that differ at character 0, 9 or 13. */
  lemma PhrasesDiffer(s1: int, s2: int)
    requires StagePhrase(s1).Some? && StagePhrase(s2).Some? && s1 != s2
    ensures var p1, p2 := StagePhrase(s1).value, StagePhrase(s2).value;
            p1[0] != p2[0] || p1[9] != p2[9] || p1[13] != p2[13]
  {
  }

  /** Strings that start with the phrases of two different stages differ. */
  lemma DifferentPhrasePrefixes(s1: int, s2: int, t1: string, t2: string)
    requires StagePhrase(s1).Some? && StagePhrase(s2).Some? && s1 != s2
    requires StagePhrase(s1).value <= t1 && StagePhrase(s2).value <= t2
    ensures t1 != t2
  {
    PhrasesDiffer(s1, s2);
    var p1, p2 := StagePhrase(s1).value, StagePhrase(s2).value;
    assert t1[0] == p1[0] && t1[9] == p1[9] && t1[13] == p1[13];
    assert t2[0] == p2[0] && t2[9] == p2[9] && t2[13] == p2[13];
  }

  /** `ClStageStarting`: the phrase followed by "..." (the source spells
    * each text out in full), and "" for any other stage. */
  function StageStartingText(stage: int): (text: string)
    ensures text == "" <==> StagePhrase(stage).None?
  {
    match StagePhrase(stage)
    case None => ""
    case Some(phrase) => phrase + "..."
  }

  /** The ten progress texts are pairwise different, so the text shown
    * identifies the stage. */
  lemma StageStartingTextsDistinct(s1: int, s2: int)
    requires StagePhrase(s1).Some? && StagePhrase(s2).Some? && s1 != s2
    ensures StageStartingText(s1) != StageStartingText(s2)
  {
    var p1, p2 := StagePhrase(s1).value, StagePhrase(s2).value;
    assert p1 <= p1 + "..." && p2 <= p2 + "...";
    DifferentPhrasePrefixes(s1, s2, p1 + "...", p2 + "...");
  }

  const FAILED_INFIX: string := " failed. Error: "

  /** The `stageFailureText` `ClStageFailed` assigns: the phrase, " failed.
    * Error: " and the error code in decimal; `None` for a stage it ignores. */
  function FailureText(stage: int, errorCode: int): (text: Option<string>)
    ensures text.Some? <==> StagePhrase(stage).Some?
  {
    match StagePhrase(stage)
    case None => None
    case Some(phrase) => Some(phrase + FAILED_INFIX + IntToString(errorCode))
  }

  /** A failure text determines both the stage and the error code. */
  lemma FailureTextDecodes(s1: int, e1: int, s2: int, e2: int)
    requires FailureText(s1, e1).Some? && FailureText(s1, e1) == FailureText(s2, e2)
    ensures s1 == s2 && e1 == e2
  {
    var t := FailureText(s1, e1).value;
    var p1, p2 := StagePhrase(s1).value, StagePhrase(s2).value;
    if s1 != s2 {
      assert p1 <= t && p2 <= t;
      DifferentPhrasePrefixes(s1, s2, t, t);
    }
    var n := |p1 + FAILED_INFIX|;
    assert t[n..] == IntToString(e1);
    assert t[n..] == IntToString(e2);
    IntToStringInjective(e1, e2);
  }

  /** A failure text is never mistaken for a progress text. */
  lemma FailureTextIsNotProgress(stage: int, errorCode: int, other: int)
    requires FailureText(stage, errorCode).Some?
    ensures FailureText(stage, errorCode).value != StageStartingText(other)
  {
    var t := FailureText(stage, errorCode).value;
    var p := StagePhrase(stage).value;
    if StagePhrase(other).Some? {
      if other != stage {
        assert p <= t && StagePhrase(other).value <= StageStartingText(other);
        DifferentPhrasePrefixes(stage, other, t, StageStartingText(other));
      } else {
        assert t[|p|] == ' ' && StageStartingText(other)[|p|] == '.';
      }
    }
  }

  /** The new failure text after `ClStageFailed(stage, errorCode)`. */
  function AfterStageFailed(current: Option<string>, stage: int, errorCode: int): (next: Option<string>)
    ensures StagePhrase(stage).None? ==> next == current
    ensures StagePhrase(stage).Some? ==> next.Some? && next == FailureText(stage, errorCode)
  {
    var text := FailureText(stage, errorCode);
    if text.Some? then text else current
  }

  /** How a start attempt or a session ended, as the page reports it:
    * `ConnectionFailed` shows a dialog with `stageFailureText`,
    * `ConnectionSuccess` reveals the stream, and `ClConnectionTerminated`
    * shows its own dialog. */
  datatype Report = FailedDialog(text: Option<string>) | Succeeded | TerminatedDialog

  const RESOLVE_FAILED: string := "Error resolving hostname"
  const APP_LAUNCH_FAILED: string := "Error launching App"
  const STEAM_LAUNCH_FAILED: string := "Error launching Steam"

  /** The report at the end of a start sequence that got as far as the
    * native call: success exactly when no failure text was set. */
  function FinalReport(stageFailureText: Option<string>): (r: Report)
    ensures r == Succeeded <==> stageFailureText.None?
    ensures r != Succeeded ==> r == FailedDialog(stageFailureText)
  {
    if stageFailureText.Some? then FailedDialog(stageFailureText) else Succeeded
  }

  /** A listener callback the native `StartConnection` fires before it
    * returns, in the order it fires them. `ClStageComplete` and the two
    * display-message callbacks only write to the debug log. */
  datatype NativeCallback =
    | StageStarting(stage: int)
    | StageComplete(stage: int)
    | StageFailed(stage: int, errorCode: int)
    | ConnectionStarted
    | DisplayMessage(message: string)

  /** The failure text after `ClStageFailed` has run for each failure among
    * `callbacks`, in order. */
  function FailureAfter(prior: Option<string>, callbacks: seq<NativeCallback>): Option<string>
  {
    if callbacks == [] then prior
    else
      var before := FailureAfter(prior, callbacks[..|callbacks| - 1]);
      match callbacks[|callbacks| - 1]
      case StageFailed(stage, errorCode) => AfterStageFailed(before, stage, errorCode)
      case _ => before
  }

  /** The index of the last `ClStageStarting` among the callbacks, or -1
    * when none fired. */
  function LastProgress(callbacks: seq<NativeCallback>): (i: int)
    ensures -1 <= i < |callbacks|
    ensures i >= 0 ==> callbacks[i].StageStarting?
    ensures forall m :: i < m < |callbacks| ==> !callbacks[m].StageStarting?
  {
    if callbacks == [] then -1
    else if callbacks[|callbacks| - 1].StageStarting? then |callbacks| - 1
    else LastProgress(callbacks[..|callbacks| - 1])
  }

  /** The state text after `ClStageStarting` has run for each progress
    * callback in order. */
  function TextAfter(prior: string, callbacks: seq<NativeCallback>): (text: string)
    ensures var i := LastProgress(callbacks);
            text == if i < 0 then prior else StageStartingText(callbacks[i].stage)
  {
    if callbacks == [] then prior
    else
      var last := callbacks[|callbacks| - 1];
      if last.StageStarting? then StageStartingText(last.stage)
      else TextAfter(prior, callbacks[..|callbacks| - 1])
  }

  /** Whether the native call reported the connection as started. */
  predicate StartsConnection(callbacks: seq<NativeCallback>)
  {
    exists k :: 0 <= k < |callbacks| && callbacks[k].ConnectionStarted?
  }

  /** A start that reaches the native call succeeds exactly when no failure
    * text was set before it and the native call reported no listed stage
    * as failed. */
  lemma {:induction false} NativeStartSucceedsIff(prior: Option<string>, callbacks: seq<NativeCallback>)
    ensures FinalReport(FailureAfter(prior, callbacks)) == Succeeded <==>
              prior.None? &&
              forall k :: 0 <= k < |callbacks| && callbacks[k].StageFailed? ==> StagePhrase(callbacks[k].stage).None?
  {
    if callbacks != [] {
      var front := callbacks[..|callbacks| - 1];
      NativeStartSucceedsIff(prior, front);
      assert forall k :: 0 <= k < |front| ==> front[k] == callbacks[k];
    }
  }

  /** The Moonlight stream page's connection state. The decoder and audio
    * renderers hand units to the page's own stream source, which is not part
    * of this model: what they forward is logged. */
  class MoonlightSession {
    const frame: MoonlightStreamFrame
    var stateText: string
    var stageFailureText: Option<string>
    var controllers: XInput?
    var forwardedVideo: seq<seq<byte>>
    var forwardedAudio: seq<seq<byte>>
    /** Server addresses passed to the native `StartConnection`, in order;
      * `None` is a null address. */
    var nativeStarts: seq<Option<string>>
    var stopConnectionRequests: nat
    var reports: seq<Report>

    constructor (frame: MoonlightStreamFrame)
      ensures this.frame == frame
      ensures stateText == "" && stageFailureText == None && controllers == null
      ensures forwardedVideo == [] && forwardedAudio == [] && nativeStarts == []
      ensures stopConnectionRequests == 0 && reports == []
    {
      this.frame := frame;
      stateText := "";
      stageFailureText := None;
      controllers := null;
      forwardedVideo := [];
      forwardedAudio := [];
      nativeStarts := [];
      stopConnectionRequests := 0;
      reports := [];
    }

    method ClStageStarting(stage: int)
      modifies this
      ensures stateText == StageStartingText(stage)
      ensures stageFailureText == old(stageFailureText) && controllers == old(controllers)
      ensures forwardedVideo == old(forwardedVideo) && forwardedAudio == old(forwardedAudio)
      ensures nativeStarts == old(nativeStarts) && stopConnectionRequests == old(stopConnectionRequests)
      ensures reports == old(reports)
    {
      stateText := StageStartingText(stage);
    }

    method ClStageFailed(stage: int, errorCode: int)
      modifies this
      ensures stageFailureText == AfterStageFailed(old(stageFailureText), stage, errorCode)
      ensures stateText == old(stateText) && controllers == old(controllers)
      ensures forwardedVideo == old(forwardedVideo) && forwardedAudio == old(forwardedAudio)
      ensures nativeStarts == old(nativeStarts) && stopConnectionRequests == old(stopConnectionRequests)
      ensures reports == old(reports)
    {
      var text := FailureText(stage, errorCode);
      if text.Some? {
        stageFailureText := text;
      }
    }

    /** Forwards the unit and always answers 0. */
    method DrSubmitDecodeUnit(data: seq<byte>) returns (status: int)
      modifies this
      ensures status == 0
      ensures forwardedVideo == old(forwardedVideo) + [data]
      ensures stateText == old(stateText) && stageFailureText == old(stageFailureText) && controllers == old(controllers)
      ensures forwardedAudio == old(forwardedAudio) && nativeStarts == old(nativeStarts)
      ensures stopConnectionRequests == old(stopConnectionRequests) && reports == old(reports)
    {
      forwardedVideo := forwardedVideo + [data];
      status := 0;
    }

    method ArPlaySample(data: seq<byte>)
      modifies this
      ensures forwardedAudio == old(forwardedAudio) + [data]
      ensures stateText == old(stateText) && stageFailureText == old(stageFailureText) && controllers == old(controllers)
      ensures forwardedVideo == old(forwardedVideo) && nativeStarts == old(nativeStarts)
      ensures stopConnectionRequests == old(stopConnectionRequests) && reports == old(reports)
    {
      forwardedAudio := forwardedAudio + [data];
    }

    /** Captures the mouse, then creates and starts a fresh controller poller. */
    method ClConnectionStarted()
      modifies this, frame
      ensures frame.capturingMouse
      ensures controllers != null && fresh(controllers)
      ensures controllers.controllers == Some([0, 1, 2, 3]) && controllers.workerStarted && !controllers.stopPolling
      ensures frame.sent == old(frame.sent) && frame.hasMoved == old(frame.hasMoved)
      ensures frame.mouseButtonFlag == old(frame.mouseButtonFlag) && frame.lastX == old(frame.lastX) && frame.lastY == old(frame.lastY)
      ensures stateText == old(stateText) && stageFailureText == old(stageFailureText)
      ensures forwardedVideo == old(forwardedVideo) && forwardedAudio == old(forwardedAudio)
      ensures nativeStarts == old(nativeStarts) && stopConnectionRequests == old(stopConnectionRequests)
      ensures reports == old(reports)
    {
      frame.CaptureMouse();
      var poller := new XInput();
      poller.Start();
      controllers := poller;
    }

    /** Stops the poller only if one was started, then requests the native
      * `StopConnection` and shows the termination dialog. */
    method ClConnectionTerminated(errorCode: int)
      modifies this, controllers
      ensures controllers == old(controllers)
      ensures controllers != null ==>
                controllers.stopPolling &&
                controllers.controllers == old(controllers.controllers) &&
                controllers.workerStarted == old(controllers.workerStarted)
      ensures stopConnectionRequests == old(stopConnectionRequests) + 1
      ensures reports == old(reports) + [TerminatedDialog]
      ensures stateText == old(stateText) && stageFailureText == old(stageFailureText)
      ensures forwardedVideo == old(forwardedVideo) && forwardedAudio == old(forwardedAudio)
      ensures nativeStarts == old(nativeStarts)
    {
      if controllers != null {
        controllers.Stop();
      }
      stopConnectionRequests := stopConnectionRequests + 1;
      reports := reports + [TerminatedDialog];
    }

    /** The listener callbacks the native `StartConnection` fires, run in
      * order on this page: the state text ends as the last progress text,
      * the failure text as `FailureAfter`, and a `ClConnectionStarted`
      * leaves the mouse captured and a fresh poller running. */
    method ApplyNativeCallbacks(callbacks: seq<NativeCallback>)
      modifies this, frame
      ensures stateText == TextAfter(old(stateText), callbacks)
      ensures stageFailureText == FailureAfter(old(stageFailureText), callbacks)
      ensures StartsConnection(callbacks) ==>
                controllers != null && fresh(controllers) && frame.capturingMouse &&
                controllers.controllers == Some([0, 1, 2, 3]) && controllers.workerStarted && !controllers.stopPolling
      ensures !StartsConnection(callbacks) ==>
                controllers == old(controllers) && frame.capturingMouse == old(frame.capturingMouse)
      ensures frame.sent == old(frame.sent) && frame.hasMoved == old(frame.hasMoved)
      ensures frame.mouseButtonFlag == old(frame.mouseButtonFlag) && frame.lastX == old(frame.lastX) && frame.lastY == old(frame.lastY)
      ensures forwardedVideo == old(forwardedVideo) && forwardedAudio == old(forwardedAudio)
      ensures nativeStarts == old(nativeStarts) && stopConnectionRequests == old(stopConnectionRequests)
      ensures reports == old(reports)
    {
      var i := 0;
      while i < |callbacks|
        invariant 0 <= i <= |callbacks|
        invariant stateText == TextAfter(old(stateText), callbacks[..i])
        invariant stageFailureText == FailureAfter(old(stageFailureText), callbacks[..i])
        invariant StartsConnection(callbacks[..i]) ==>
                    controllers != null && fresh(controllers) && frame.capturingMouse &&
                    controllers.controllers == Some([0, 1, 2, 3]) && controllers.workerStarted && !controllers.stopPolling
        invariant !StartsConnection(callbacks[..i]) ==>
                    controllers == old(controllers) && frame.capturingMouse == old(frame.capturingMouse)
        invariant frame.sent == old(frame.sent) && frame.hasMoved == old(frame.hasMoved)
        invariant frame.mouseButtonFlag == old(frame.mouseButtonFlag) && frame.lastX == old(frame.lastX) && frame.lastY == old(frame.lastY)
        invariant forwardedVideo == old(forwardedVideo) && forwardedAudio == old(forwardedAudio)
        invariant nativeStarts == old(nativeStarts) && stopConnectionRequests == old(stopConnectionRequests)
        invariant reports == old(reports)
      {
        var next := callbacks[..i + 1];
        assert next[..i] == callbacks[..i] && next[i] == callbacks[i];
        assert StartsConnection(next) <==> StartsConnection(callbacks[..i]) || callbacks[i].ConnectionStarted?;
        match callbacks[i] {
          case StageStarting(stage) => ClStageStarting(stage);
          case StageFailed(stage, errorCode) => ClStageFailed(stage, errorCode);
          case ConnectionStarted => ClConnectionStarted();
          case StageComplete(_) =>
          case DisplayMessage(_) =>
        }
        i := i + 1;
      }
      assert callbacks[..i] == callbacks;
    }

    /** The start sequence. The `NvHttp` constructor does not throw here, so
      * its catch is never taken. `resolution` is how `ResolveServerIPAddress`
      * ended: `Err` when it threw, `Ok(None)` when it returned null because the
      * socket could not connect, `Ok(Some(ip))` otherwise. Only a throw stops
      * the sequence; a null address goes on to the launch and to the native
      * `StartConnection`. `app` is how `StartOrResumeApp` ended
      * (`AppLaunch.MoonlightStartOrResumeApp`): its exception is not caught, so
      * it escapes the sequence with no dialog. `callbacks` are the listener
      * callbacks the native call fires before it returns. */
    method StartConnection(resolution: Result<Option<string>>, app: Result<bool>, callbacks: seq<NativeCallback>)
      returns (escaped: Option<Error>)
      modifies this, frame
      ensures resolution.Err? ==>
                escaped == None && stateText == "Resolving hostname..." &&
                stageFailureText == Some(RESOLVE_FAILED) && nativeStarts == old(nativeStarts) &&
                reports == old(reports) + [FailedDialog(Some(RESOLVE_FAILED))]
      ensures resolution.Ok? && app.Err? ==>
                escaped == Some(app.error) && stateText == "Launching Steam" &&
                stageFailureText == old(stageFailureText) && nativeStarts == old(nativeStarts) &&
                reports == old(reports)
      ensures resolution.Ok? && app == Ok(false) ==>
                escaped == None && stateText == "Launching Steam" &&
                stageFailureText == Some(APP_LAUNCH_FAILED) && nativeStarts == old(nativeStarts) &&
                reports == old(reports) + [FailedDialog(Some(APP_LAUNCH_FAILED))]
      ensures resolution.Ok? && app == Ok(true) ==>
                escaped == None && stateText == TextAfter("Launching Steam", callbacks) &&
                nativeStarts == old(nativeStarts) + [resolution.value] &&
                stageFailureText == FailureAfter(old(stageFailureText), callbacks) &&
                reports == old(reports) + [FinalReport(stageFailureText)]
      ensures resolution.Ok? && app == Ok(true) && StartsConnection(callbacks) ==>
                controllers != null && fresh(controllers) && frame.capturingMouse &&
                controllers.controllers == Some([0, 1, 2, 3]) && controllers.workerStarted && !controllers.stopPolling
      ensures !(resolution.Ok? && app == Ok(true) && StartsConnection(callbacks)) ==>
                controllers == old(controllers) && frame.capturingMouse == old(frame.capturingMouse)
      ensures frame.sent == old(frame.sent) && frame.hasMoved == old(frame.hasMoved)
      ensures frame.mouseButtonFlag == old(frame.mouseButtonFlag) && frame.lastX == old(frame.lastX) && frame.lastY == old(frame.lastY)
      ensures forwardedVideo == old(forwardedVideo) && forwardedAudio == old(forwardedAudio)
      ensures stopConnectionRequests == old(stopConnectionRequests)
    {
      escaped := None;
      stateText := "Resolving hostname...";
      if resolution.Err? {
        stageFailureText := Some(RESOLVE_FAILED);
        reports := reports + [FailedDialog(stageFailureText)];
        return;
      }
      stateText := "Launching Steam";
      if app.Err? {
        escaped := Some(app.error);
        return;
      }
      if !app.value {
        stageFailureText := Some(APP_LAUNCH_FAILED);
        reports := reports + [FailedDialog(stageFailureText)];
        return;
      }
      nativeStarts := nativeStarts + [resolution.value];
      ApplyNativeCallbacks(callbacks);
      if stageFailureText.Some? {
        reports := reports + [FailedDialog(stageFailureText)];
      } else {
        reports := reports + [Succeeded];
      }
    }
  }

  /** The early Limelight page: stage texts, and decode units forwarded to
    * its sample rendezvous. */
  class LimelightSession {
    const avStream: AvStreamSource
    var stateText: string
    var stageFailureText: Option<string>

    constructor (avStream: AvStreamSource)
      ensures this.avStream == avStream && stateText == "" && stageFailureText == None
    {
      this.avStream := avStream;
      stateText := "";
      stageFailureText := None;
    }

    method ClStageStarting(stage: int)
      modifies this
      ensures stateText == StageStartingText(stage) && stageFailureText == old(stageFailureText)
    {
      stateText := StageStartingText(stage);
    }

    method ClStageFailed(stage: int, errorCode: int)
      modifies this
      ensures stageFailureText == AfterStageFailed(old(stageFailureText), stage, errorCode)
      ensures stateText == old(stateText)
    {
      var text := FailureText(stage, errorCode);
      if text.Some? {
        stageFailureText := text;
      }
    }

    /** Every unit goes to the stream source's video queue or straight to a
      * parked request. */
    method DrSubmitDecodeUnit(data: seq<byte>)
      requires avStream.Valid()
      modifies avStream
      ensures avStream.Valid()
      ensures avStream.videoEnqueued == old(avStream.videoEnqueued) + [data]
      ensures old(avStream.pendingVideo).Some? ==>
                avStream.videoCompleted == old(avStream.videoCompleted) + [Completion(old(avStream.pendingVideo).value, data)] &&
                avStream.videoQueue == old(avStream.videoQueue)
      ensures old(avStream.pendingVideo).None? ==>
                avStream.videoQueue == old(avStream.videoQueue) + [data] &&
                avStream.videoCompleted == old(avStream.videoCompleted)
      ensures avStream.pendingVideo == None
      ensures avStream.audioQueue == old(avStream.audioQueue) && avStream.audioEnqueued == old(avStream.audioEnqueued)
    {
      avStream.EnqueueVideoSample(data);
    }
  }

  /** How `new NvHttp(host)` ends on the rewritten Limelight page. */
  datatype HostOutcome =
    | Accepted      // the host resolved and the base URL was built
    | NullHost      // `ArgumentNullException` for a null host
    | ResolveThrew  // `new HostName` or `ConnectAsync` failed inside `Task.Run(...).Wait()`

  /** The rewritten Limelight page: the same stage texts and a start sequence
    * whose native call is commented out. */
  class NewSession {
    var stateText: string
    var stageFailureText: Option<string>
    var reports: seq<Report>

    constructor ()
      ensures stateText == "" && stageFailureText == None && reports == []
    {
      stateText := "";
      stageFailureText := None;
      reports := [];
    }

    method ClStageStarting(stage: int)
      modifies this
      ensures stateText == StageStartingText(stage)
      ensures stageFailureText == old(stageFailureText) && reports == old(reports)
    {
      stateText := StageStartingText(stage);
    }

    method ClStageFailed(stage: int, errorCode: int)
      modifies this
      ensures stageFailureText == AfterStageFailed(old(stageFailureText), stage, errorCode)
      ensures stateText == old(stateText) && reports == old(reports)
    {
      var text := FailureText(stage, errorCode);
      if text.Some? {
        stageFailureText := text;
      }
    }

    /** `host` is how `new NvHttp` ended and `launchQueryBuilt` whether
      * building the launch query returned. Only a null host is caught: it is
      * reported and the sequence goes on with a null `nv`, whose use then
      * lands in the launch catch, so that path reports failure twice. A host
      * that fails to resolve throws out of `Wait()` as an
      * `AggregateException`, which no catch here names: it escapes the
      * sequence with the resolving text still shown and nothing reported. */
    method StartConnection(host: HostOutcome, launchQueryBuilt: bool) returns (escaped: Option<Error>)
      modifies this
      ensures host == ResolveThrew ==>
                escaped == Some(Aggregate) && stateText == "Resolving hostname..." &&
                stageFailureText == old(stageFailureText) && reports == old(reports)
      ensures host == NullHost ==>
                stageFailureText == Some(STEAM_LAUNCH_FAILED) &&
                reports == old(reports) + [FailedDialog(Some(RESOLVE_FAILED)), FailedDialog(Some(STEAM_LAUNCH_FAILED))]
      ensures host == Accepted && !launchQueryBuilt ==>
                stageFailureText == Some(STEAM_LAUNCH_FAILED) &&
                reports == old(reports) + [FailedDialog(Some(STEAM_LAUNCH_FAILED))]
      ensures host == Accepted && launchQueryBuilt ==>
                stageFailureText == old(stageFailureText) &&
                reports == old(reports) + [FinalReport(old(stageFailureText))]
      ensures host != ResolveThrew ==> escaped == None && stateText == "Launching Steam"
    {
      stateText := "Resolving hostname...";
      if host == ResolveThrew {
        return Some(Aggregate);
      }
      if host == NullHost {
        stageFailureText := Some(RESOLVE_FAILED);
        reports := reports + [FailedDialog(stageFailureText)];
      }
      stateText := "Launching Steam";
      escaped := None;
      if host == NullHost || !launchQueryBuilt {
        stageFailureText := Some(STEAM_LAUNCH_FAILED);
        reports := reports + [FailedDialog(stageFailureText)];
        return;
      }
      if stageFailureText.Some? {
        reports := reports + [FailedDialog(stageFailureText)];
      } else {
        reports := reports + [Succeeded];
      }
    }
  }
}
