/** The early Limelight binding: a three-field stream configuration and a
  * decoder callback that reassembles every decode unit into a buffer of its
  * own, logs its length and frees it again. Nothing is kept between units. */
module LimelightBinding {
  import opened Common
  import opened FrameCopy

  /** The configuration object; its three getters each return one field. */
  datatype LimelightStreamConfiguration = LimelightStreamConfiguration(width: int, height: int, fps: int)

  /** What one call of `DrSubmitDecodeUnit` produced: the bytes of the fresh
    * buffer just before it was freed and the length it printed, or nothing when
    * `malloc` failed. */
  datatype UnitTrace = UnitTrace(assembled: seq<byte>, loggedLength: nat)

  /** A fresh `fullLength`-byte buffer is filled with the fragments in list
    * order and released again; if the allocation fails nothing is copied or
    * logged. The fragments must fit: their sum is never compared with
    * `fullLength`. */
  method DrSubmitDecodeUnit(frags: seq<seq<byte>>, fullLength: nat, allocOk: bool) returns (trace: Option<UnitTrace>)
    requires TotalLength(frags) <= fullLength
    ensures trace.Some? <==> allocOk
    ensures trace.Some? ==> |trace.value.assembled| == fullLength && trace.value.loggedLength == fullLength
    ensures trace.Some? ==> trace.value.assembled[..TotalLength(frags)] == Concat(frags)
  {
    if !allocOk {
      return None;
    }
    var fullData := new byte[fullLength];
    CopyFragments(fullData, frags);
    trace := Some(UnitTrace(fullData[..], fullLength));
  }

  /** The native configuration and callback tables handed to `LiStartConnection`.
    * The decoder table built in the function is never passed on. */
  datatype StartRequest = StartRequest(hostAddress: nat, width: int, height: int, fps: int,
                                       rendererInstalled: bool, listenerInstalled: bool)

  /** Reads the three settings through the getters, fills a decoder table that
    * is never used, and returns `LiStartConnection`'s status unchanged. */
  function StartConnection(hostAddress: nat, config: LimelightStreamConfiguration, nativeStatus: int)
    : (r: (StartRequest, int))
    ensures r.0.hostAddress == hostAddress
    ensures r.0.width == config.width && r.0.height == config.height && r.0.fps == config.fps
    ensures !r.0.rendererInstalled && !r.0.listenerInstalled
    ensures r.1 == nativeStatus
  {
    (StartRequest(hostAddress, config.width, config.height, config.fps, false, false), nativeStatus)
  }
}
