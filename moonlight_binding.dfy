/** The native shim of the Moonlight binding (a file compiled out as a whole,
  * modelled as written). Unlike the shared Limelight shim its frame buffer
  * starts empty, setup allocates nothing, and a missing buffer is reported to
  * the library as "need an IDR frame" instead of being written through. */
module MoonlightBinding {
  import opened Common
  import opened FrameCopy
  import opened BindingTypes

  /** Defined in the file but never used. */
  const INITIAL_FRAME_BUFFER_SIZE: nat := 1048576

  /** What `LiStartConnection` receives: the host address and the native
    * `STREAM_CONFIGURATION`, including the remote-input key and IV. */
  datatype NativeConfig = NativeConfig(hostAddress: nat, width: int, height: int, fps: int, bitrate: int, packetSize: int,
                                       remoteInputAesKey: seq<byte>, remoteInputAesIv: seq<byte>)

  datatype CallbackHandles = CallbackHandles(listener: nat, decoder: nat, audio: nat, platform: nat)

  /** The shim's answer to the library. `DR_NEED_IDR` is returned explicitly;
    * the success path falls off the end of the function without a `return`,
    * and the model gives it the name `Submitted`. */
  datatype SubmitStatus = NeedIdr | Submitted

  class NativeShim {
    var frameBuffer: array?<byte>
    var frameBufferSize: int
    /** Set by `DrShimCleanup`, which frees the buffer but leaves pointer and size stale. */
    var cleanedUp: bool
    var abandonedBuffers: nat
    var rendered: seq<seq<byte>>
    var opusDecoder: bool
    var decoderDestroys: nat
    var played: seq<nat>
    var callbacks: Option<CallbackHandles>
    var lastConfig: Option<NativeConfig>

    ghost predicate Valid()
      reads this
    {
      frameBuffer != null ==> frameBuffer.Length == frameBufferSize
    }

    constructor ()
      ensures Valid()
      ensures frameBuffer == null && frameBufferSize == 0 && !cleanedUp && abandonedBuffers == 0
      ensures rendered == [] && !opusDecoder && decoderDestroys == 0 && played == []
      ensures callbacks == None && lastConfig == None
    {
      frameBuffer := null;
      frameBufferSize := 0;
      cleanedUp := false;
      abandonedBuffers := 0;
      rendered := [];
      opusDecoder := false;
      decoderDestroys := 0;
      played := [];
      callbacks := None;
      lastConfig := None;
    }

    /** Only forwards to the renderer: no buffer is allocated here. */
    method DrShimSetup()
      modifies this
      ensures frameBuffer == old(frameBuffer) && frameBufferSize == old(frameBufferSize)
      ensures cleanedUp == old(cleanedUp) && abandonedBuffers == old(abandonedBuffers) && rendered == old(rendered)
      ensures opusDecoder == old(opusDecoder) && decoderDestroys == old(decoderDestroys) && played == old(played)
      ensures callbacks == old(callbacks) && lastConfig == old(lastConfig)
    {
    }

    method DrShimCleanup()
      modifies this
      ensures cleanedUp
      ensures frameBuffer == old(frameBuffer) && frameBufferSize == old(frameBufferSize)
      ensures abandonedBuffers == old(abandonedBuffers) && rendered == old(rendered)
      ensures opusDecoder == old(opusDecoder) && decoderDestroys == old(decoderDestroys) && played == old(played)
      ensures callbacks == old(callbacks) && lastConfig == old(lastConfig)
    {
      cleanedUp := true;
    }

    /** Grows the buffer to exactly `fullLength` when it is too small; answers
      * `NeedIdr` whenever the buffer is then NULL (a failed allocation, or a
      * first unit of length 0 that never allocated); otherwise copies the
      * fragments in order and hands the renderer bytes `[0, fullLength)`,
      * whose own result is dropped. */
    method DrShimSubmitDecodeUnit(frags: seq<seq<byte>>, fullLength: nat, allocOk: bool) returns (status: SubmitStatus)
      requires Valid() && !cleanedUp
      requires TotalLength(frags) <= if frameBufferSize < fullLength then fullLength else frameBufferSize
      modifies this, frameBuffer
      ensures Valid() && !cleanedUp
      ensures frameBufferSize == if old(frameBufferSize) < fullLength then fullLength else old(frameBufferSize)
      ensures frameBufferSize >= old(frameBufferSize)
      ensures old(frameBufferSize) < fullLength ==>
                (if allocOk then frameBuffer != null && fresh(frameBuffer) else frameBuffer == null) &&
                abandonedBuffers == old(abandonedBuffers) + (if old(frameBuffer) != null then 1 else 0)
      ensures old(frameBufferSize) >= fullLength ==>
                frameBuffer == old(frameBuffer) && abandonedBuffers == old(abandonedBuffers)
      ensures status == NeedIdr <==> frameBuffer == null
      ensures status == NeedIdr ==> rendered == old(rendered)
      ensures status == Submitted ==>
                frameBuffer[..TotalLength(frags)] == Concat(frags) &&
                rendered == old(rendered) + [frameBuffer[..fullLength]]
      ensures opusDecoder == old(opusDecoder) && decoderDestroys == old(decoderDestroys) && played == old(played)
      ensures callbacks == old(callbacks) && lastConfig == old(lastConfig)
    {
      if frameBufferSize < fullLength {
        if frameBuffer != null {
          abandonedBuffers := abandonedBuffers + 1;
        }
        frameBufferSize := fullLength;
        if allocOk {
          frameBuffer := new byte[fullLength];
        } else {
          frameBuffer := null;
        }
      }
      if frameBuffer == null {
        return NeedIdr;
      }
      CopyFragments(frameBuffer, frags);
      rendered := rendered + [frameBuffer[..fullLength]];
      status := Submitted;
    }

    method ArShimInit(created: bool)
      modifies this
      ensures opusDecoder == created
      ensures decoderDestroys == old(decoderDestroys) && played == old(played)
      ensures frameBuffer == old(frameBuffer) && frameBufferSize == old(frameBufferSize) && cleanedUp == old(cleanedUp)
      ensures abandonedBuffers == old(abandonedBuffers) && rendered == old(rendered)
      ensures callbacks == old(callbacks) && lastConfig == old(lastConfig)
    {
      opusDecoder := created;
    }

    /** Destroys the decoder at most once and nulls the handle. */
    method ArShimCleanup()
      modifies this
      ensures !opusDecoder
      ensures decoderDestroys == old(decoderDestroys) + (if old(opusDecoder) then 1 else 0)
      ensures played == old(played)
      ensures frameBuffer == old(frameBuffer) && frameBufferSize == old(frameBufferSize) && cleanedUp == old(cleanedUp)
      ensures abandonedBuffers == old(abandonedBuffers) && rendered == old(rendered)
      ensures callbacks == old(callbacks) && lastConfig == old(lastConfig)
    {
      if opusDecoder {
        decoderDestroys := decoderDestroys + 1;
        opusDecoder := false;
      }
    }

    method ArShimDecodeAndPlaySample(decodedSamples: int)
      requires decodedSamples <= MAX_OUTPUT_SHORTS_PER_CHANNEL
      modifies this
      ensures decodedSamples > 0 ==> played == old(played) + [decodedSamples * CHANNEL_COUNT * SIZEOF_OPUS_INT16]
      ensures decodedSamples <= 0 ==> played == old(played)
      ensures opusDecoder == old(opusDecoder) && decoderDestroys == old(decoderDestroys)
      ensures frameBuffer == old(frameBuffer) && frameBufferSize == old(frameBufferSize) && cleanedUp == old(cleanedUp)
      ensures abandonedBuffers == old(abandonedBuffers) && rendered == old(rendered)
      ensures callbacks == old(callbacks) && lastConfig == old(lastConfig)
    {
      var bytes := PlaybackBytes(decodedSamples);
      if bytes.Some? {
        played := played + [bytes.value];
      }
    }

    /** Passes the host address on, copies the numeric settings and exactly
      * 16 bytes each of the remote-input key and IV, overwrites the callback
      * handles and returns `LiStartConnection`'s status unchanged. */
    method StartConnection(hostAddress: nat, config: MoonlightStreamConfiguration, handles: CallbackHandles, nativeStatus: int)
      returns (status: int)
      requires config.Valid()
      modifies this
      ensures status == nativeStatus
      ensures callbacks == Some(handles)
      ensures lastConfig.Some? && lastConfig.value.hostAddress == hostAddress
      ensures lastConfig.value.remoteInputAesKey == config.riAesKey[..AES_BLOCK_BYTES]
      ensures lastConfig.value.remoteInputAesIv == config.riAesIv[..AES_BLOCK_BYTES]
      ensures lastConfig.value.width == config.width && lastConfig.value.height == config.height
      ensures lastConfig.value.fps == config.fps && lastConfig.value.bitrate == config.bitrate
      ensures lastConfig.value.packetSize == config.packetSize
      ensures frameBuffer == old(frameBuffer) && frameBufferSize == old(frameBufferSize) && cleanedUp == old(cleanedUp)
      ensures abandonedBuffers == old(abandonedBuffers) && rendered == old(rendered)
      ensures opusDecoder == old(opusDecoder) && decoderDestroys == old(decoderDestroys) && played == old(played)
    {
      lastConfig := Some(NativeConfig(hostAddress, config.width, config.height, config.fps, config.bitrate, config.packetSize,
                                      config.riAesKey[..AES_BLOCK_BYTES], config.riAesIv[..AES_BLOCK_BYTES]));
      callbacks := Some(handles);
      status := nativeStatus;
    }
  }
}
