/** The native shim of the shared Limelight binding: static callback handles,
  * a grow-only frame buffer that decode units are reassembled into, and an
  * Opus decoder handle. The statics are the fields of one `NativeShim`
  * object; `malloc`, `opus_decoder_create`, `opus_decode` and the renderer
  * delegates are outcomes passed in as parameters. */
module SharedBinding {
  import opened Common
  import opened FrameCopy

  const INITIAL_FRAME_BUFFER_SIZE: nat := 1048576

  /** The managed configuration object the connection call reads from. */
  datatype LimelightStreamConfiguration = LimelightStreamConfiguration(
    width: int, height: int, fps: int, bitrate: int, packetSize: int)

  /** What `LiStartConnection` receives: the host address and the native
    * `STREAM_CONFIGURATION`. */
  datatype NativeConfig = NativeConfig(hostAddress: nat, width: int, height: int, fps: int, bitrate: int, packetSize: int)

  /** The three managed callback objects, by identity. */
  datatype CallbackHandles = CallbackHandles(listener: nat, decoder: nat, audio: nat)

  /** How one decode unit ended. `NullBuffer` is the case the source leaves as a
    * FIXME: the allocation failed and the fragments would be copied to NULL. */
  datatype SubmitOutcome = Submitted | NullBuffer

  class NativeShim {
    var frameBuffer: array?<byte>
    var frameBufferSize: int
    /** Set by `DrShimRelease`: the buffer pointer is then dangling. */
    var released: bool
    /** Buffers replaced by a larger one and never freed. */
    var abandonedBuffers: nat
    /** Every byte array handed to the renderer's `SubmitDecodeUnit`, in order. */
    var rendered: seq<seq<byte>>
    /** `s_OpusDecoder != NULL`. */
    var opusDecoder: bool
    var decoderDestroys: nat
    /** Byte counts handed to the audio renderer's `PlaySample`, in order. */
    var played: seq<nat>
    var callbacks: Option<CallbackHandles>
    /** The arguments of the last `LiStartConnection` call. */
    var lastConfig: Option<NativeConfig>

    ghost predicate Valid()
      reads this
    {
      frameBuffer != null ==> frameBuffer.Length == frameBufferSize
    }

    /** Static storage starts zeroed. */
    constructor ()
      ensures Valid()
      ensures frameBuffer == null && frameBufferSize == 0 && !released && abandonedBuffers == 0
      ensures rendered == [] && !opusDecoder && decoderDestroys == 0 && played == []
      ensures callbacks == None && lastConfig == None
    {
      frameBuffer := null;
      frameBufferSize := 0;
      released := false;
      abandonedBuffers := 0;
      rendered := [];
      opusDecoder := false;
      decoderDestroys := 0;
      played := [];
      callbacks := None;
      lastConfig := None;
    }

    /** Capacity becomes exactly 1 MiB; on allocation failure the buffer address is NULL
      * and the size is still 1 MiB. */
    method DrShimSetup(allocOk: bool)
      modifies this
      ensures Valid()
      ensures frameBufferSize == INITIAL_FRAME_BUFFER_SIZE
      ensures allocOk ==> frameBuffer != null && fresh(frameBuffer)
      ensures !allocOk ==> frameBuffer == null
      ensures !released
      ensures abandonedBuffers == old(abandonedBuffers) && rendered == old(rendered)
      ensures opusDecoder == old(opusDecoder) && decoderDestroys == old(decoderDestroys) && played == old(played)
      ensures callbacks == old(callbacks) && lastConfig == old(lastConfig)
    {
      frameBufferSize := INITIAL_FRAME_BUFFER_SIZE;
      if allocOk {
        frameBuffer := new byte[INITIAL_FRAME_BUFFER_SIZE];
      } else {
        frameBuffer := null;
      }
      released := false;
    }

    /** `free` leaves the buffer address and the size as they were. */
    method DrShimRelease()
      modifies this
      ensures released
      ensures frameBuffer == old(frameBuffer) && frameBufferSize == old(frameBufferSize)
      ensures abandonedBuffers == old(abandonedBuffers) && rendered == old(rendered)
      ensures opusDecoder == old(opusDecoder) && decoderDestroys == old(decoderDestroys) && played == old(played)
      ensures callbacks == old(callbacks) && lastConfig == old(lastConfig)
    {
      released := true;
    }

    /** Grows the buffer to exactly `fullLength` when it is too small (dropping
      * the old allocation), copies the fragments in list order from offset 0
      * and hands bytes `[0, fullLength)` to the renderer. The fragments must
      * fit in the (grown) buffer: the source never checks their sum. */
    method DrShimSubmitDecodeUnit(frags: seq<seq<byte>>, fullLength: nat, allocOk: bool) returns (outcome: SubmitOutcome)
      requires Valid() && !released
      requires TotalLength(frags) <= if frameBufferSize < fullLength then fullLength else frameBufferSize
      modifies this, frameBuffer
      ensures Valid() && !released
      ensures frameBufferSize == if old(frameBufferSize) < fullLength then fullLength else old(frameBufferSize)
      ensures frameBufferSize >= old(frameBufferSize)
      ensures old(frameBufferSize) < fullLength ==>
                (if allocOk then frameBuffer != null && fresh(frameBuffer) else frameBuffer == null) &&
                abandonedBuffers == old(abandonedBuffers) + (if old(frameBuffer) != null then 1 else 0)
      ensures old(frameBufferSize) >= fullLength ==>
                frameBuffer == old(frameBuffer) && abandonedBuffers == old(abandonedBuffers)
      ensures outcome == NullBuffer <==> frameBuffer == null
      ensures outcome == NullBuffer ==> rendered == old(rendered)
      ensures outcome == Submitted ==>
                frameBuffer[..TotalLength(frags)] == Concat(frags) &&
                |rendered| == |old(rendered)| + 1 && rendered[..|old(rendered)|] == old(rendered) &&
                rendered[|old(rendered)|] == frameBuffer[..fullLength] &&
                (TotalLength(frags) <= fullLength ==> rendered[|old(rendered)|][..TotalLength(frags)] == Concat(frags)) &&
                (fullLength <= TotalLength(frags) ==> rendered[|old(rendered)|] == Concat(frags)[..fullLength])
      ensures opusDecoder == old(opusDecoder) && decoderDestroys == old(decoderDestroys) && played == old(played)
      ensures callbacks == old(callbacks) && lastConfig == old(lastConfig)
    {
      if frameBufferSize < fullLength {
        if frameBuffer != null {
          abandonedBuffers := abandonedBuffers + 1;
        }
        frameBufferSize := fullLength;
        if allocOk {
          frameBuffer := new byte[fullLength];
        } else {
          frameBuffer := null;
        }
      }
      if frameBuffer == null {
        return NullBuffer;
      }
      CopyFragments(frameBuffer, frags);
      rendered := rendered + [frameBuffer[..fullLength]];
      outcome := Submitted;
    }

    /** `opus_decoder_create(48000, 2)`; its failure leaves the handle NULL. */
    method ArShimInit(created: bool)
      modifies this
      ensures opusDecoder == created
      ensures decoderDestroys == old(decoderDestroys) && played == old(played)
      ensures frameBuffer == old(frameBuffer) && frameBufferSize == old(frameBufferSize) && released == old(released)
      ensures abandonedBuffers == old(abandonedBuffers) && rendered == old(rendered)
      ensures callbacks == old(callbacks) && lastConfig == old(lastConfig)
    {
      opusDecoder := created;
    }

    /** Destroys the decoder only if there is one and then forgets it, so a
      * second release destroys nothing. */
    method ArShimRelease()
      modifies this
      ensures !opusDecoder
      ensures decoderDestroys == old(decoderDestroys) + (if old(opusDecoder) then 1 else 0)
      ensures played == old(played)
      ensures frameBuffer == old(frameBuffer) && frameBufferSize == old(frameBufferSize) && released == old(released)
      ensures abandonedBuffers == old(abandonedBuffers) && rendered == old(rendered)
      ensures callbacks == old(callbacks) && lastConfig == old(lastConfig)
    {
      if opusDecoder {
        decoderDestroys := decoderDestroys + 1;
        opusDecoder := false;
      }
    }

    /** `opus_decode` into a 240-sample-per-channel buffer; `PlaySample`
      * receives the decoded bytes only for a positive sample count. */
    method ArShimDecodeAndPlaySample(decodedSamples: int)
      requires decodedSamples <= MAX_OUTPUT_SHORTS_PER_CHANNEL
      modifies this
      ensures decodedSamples > 0 ==> played == old(played) + [decodedSamples * CHANNEL_COUNT * SIZEOF_OPUS_INT16]
      ensures decodedSamples <= 0 ==> played == old(played)
      ensures opusDecoder == old(opusDecoder) && decoderDestroys == old(decoderDestroys)
      ensures frameBuffer == old(frameBuffer) && frameBufferSize == old(frameBufferSize) && released == old(released)
      ensures abandonedBuffers == old(abandonedBuffers) && rendered == old(rendered)
      ensures callbacks == old(callbacks) && lastConfig == old(lastConfig)
    {
      var bytes := PlaybackBytes(decodedSamples);
      if bytes.Some? {
        played := played + [bytes.value];
      }
    }

    /** Passes the host address on, copies the five numeric settings,
      * overwrites the static callback handles (a second start is not refused)
      * and returns `LiStartConnection`'s status unchanged. */
    method StartConnection(hostAddress: nat, config: LimelightStreamConfiguration, handles: CallbackHandles, nativeStatus: int)
      returns (status: int)
      modifies this
      ensures status == nativeStatus
      ensures callbacks == Some(handles)
      ensures lastConfig == Some(NativeConfig(hostAddress, config.width, config.height, config.fps, config.bitrate, config.packetSize))
      ensures frameBuffer == old(frameBuffer) && frameBufferSize == old(frameBufferSize) && released == old(released)
      ensures abandonedBuffers == old(abandonedBuffers) && rendered == old(rendered)
      ensures opusDecoder == old(opusDecoder) && decoderDestroys == old(decoderDestroys) && played == old(played)
    {
      lastConfig := Some(NativeConfig(hostAddress, config.width, config.height, config.fps, config.bitrate, config.packetSize));
      callbacks := Some(handles);
      status := nativeStatus;
    }
  }

  /** `sendControllerInput` is a placeholder: it ignores the controller state
    * and reports success. */
  function SendControllerInput(buttonFlags: int, leftTrigger: byte, rightTrigger: byte,
                               leftStickX: int, leftStickY: int, rightStickX: int, rightStickY: int): (status: int)
    ensures status == 0
  {
    0
  }
}
