/** Moonlight's settings page: the stream's resolution and frame rate, read
  * from the index selected in the resolution/frame-rate box (-1 when nothing
  * is selected). The four choices are 720p at 30 and 60 frames per second,
  * then 1080p at 30 and 60. */
module SettingsPage {
  /** `GetStreamWidth`. */
  function StreamWidth(selectedIndex: int): (width: int)
    ensures width == 1280 || width == 1920
  {
    if selectedIndex == 0 || selectedIndex == 1 then 1280 else 1920
  }

  /** `GetStreamHeight`: always the 16:9 partner of the width. */
  function StreamHeight(selectedIndex: int): (height: int)
    ensures height * 16 == StreamWidth(selectedIndex) * 9
  {
    if selectedIndex == 0 || selectedIndex == 1 then 720 else 1080
  }

  /** `GetStreamFps`. */
  function StreamFps(selectedIndex: int): (fps: int)
    ensures fps == 30 || fps == 60
  {
    if selectedIndex == 1 || selectedIndex == 3 then 60 else 30
  }

  /** What a choice asks the server for. */
  datatype StreamMode = StreamMode(width: int, height: int, fps: int)

  function ModeOf(selectedIndex: int): StreamMode
  {
    StreamMode(StreamWidth(selectedIndex), StreamHeight(selectedIndex), StreamFps(selectedIndex))
  }

  /** Each of the four resolution and frame-rate pairs is offered by exactly
    * one of the four choices. */
  lemma EachModeOneChoice(height: int, fps: int)
    requires (height == 720 || height == 1080) && (fps == 30 || fps == 60)
    ensures exists i :: 0 <= i < 4 && ModeOf(i).height == height && ModeOf(i).fps == fps
    ensures forall i, j :: 0 <= i < 4 && 0 <= j < 4 && ModeOf(i) == ModeOf(j) ==> i == j
  {
    var i := (if height == 720 then 0 else 2) + (if fps == 60 then 1 else 0);
    assert ModeOf(i).height == height && ModeOf(i).fps == fps;
  }

  /** With nothing selected, and for any index outside the box, the stream
    * is 1080p at 30 frames per second. */
  lemma UnselectedIs1080p30(selectedIndex: int)
    requires selectedIndex < 0 || selectedIndex > 3
    ensures ModeOf(selectedIndex) == StreamMode(1920, 1080, 30)
  {
  }
}
