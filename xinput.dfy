/** The Moonlight controller poller: four XInput controllers are polled in
  * rounds, and each connected controller's state is converted to the
  * binding's `ButtonFlags` and sent as a multi-controller packet. */
module XInputPolling {
  import opened Common
  import opened BindingTypes

  /** The members of `SharpDX.XInput.GamepadButtonFlags`; a controller's
    * button word is the set of members it has (`HasFlag` is membership). */
  datatype GamepadButton =
    | DPadUp | DPadDown | DPadLeft | DPadRight | Start | BackButton | LeftThumb | RightThumb
    | LeftShoulder | RightShoulder | GamepadA | GamepadB | GamepadX | GamepadY

  /** The XInput bit of each member. */
  function GamepadBit(g: GamepadButton): int
  {
    match g
    case DPadUp => 0x0001
    case DPadDown => 0x0002
    case DPadLeft => 0x0004
    case DPadRight => 0x0008
    case Start => 0x0010
    case BackButton => 0x0020
    case LeftThumb => 0x0040
    case RightThumb => 0x0080
    case LeftShoulder => 0x0100
    case RightShoulder => 0x0200
    case GamepadA => 0x1000
    case GamepadB => 0x2000
    case GamepadX => 0x4000
    case GamepadY => 0x8000
  }

  /** Which `ButtonFlags` member each XInput test ORs in. */
  function BindingButton(g: GamepadButton): (b: Button)
    ensures b != Special
  {
    match g
    case DPadUp => Up
    case DPadDown => Down
    case DPadLeft => Left
    case DPadRight => Right
    case Start => Play
    case BackButton => Back
    case LeftThumb => LS
    case RightThumb => RS
    case LeftShoulder => LB
    case RightShoulder => RB
    case GamepadA => A
    case GamepadB => B
    case GamepadX => X
    case GamepadY => Y
  }

  /** The binding flag at the same bit as its XInput button, so the
    * conversion keeps each pressed button where XInput put it. */
  lemma BindingKeepsBitPositions(g: GamepadButton)
    ensures ButtonFlag(BindingButton(g)) as int == GamepadBit(g)
  {
  }

  /** The XInput button a binding flag comes from; `Special` has none. */
  function XInputButton(b: Button): (g: Option<GamepadButton>)
    ensures g.Some? <==> b != Special
    ensures g.Some? ==> BindingButton(g.value) == b
  {
    match b
    case Up => Some(DPadUp)
    case Down => Some(DPadDown)
    case Left => Some(DPadLeft)
    case Right => Some(DPadRight)
    case Play => Some(Start)
    case Back => Some(BackButton)
    case LS => Some(LeftThumb)
    case RS => Some(RightThumb)
    case LB => Some(LeftShoulder)
    case RB => Some(RightShoulder)
    case A => Some(GamepadA)
    case B => Some(GamepadB)
    case X => Some(GamepadX)
    case Y => Some(GamepadY)
    case Special => None
  }

  /** No two XInput buttons share a binding flag. */
  lemma BindingButtonInjective(g: GamepadButton, h: GamepadButton)
    requires BindingButton(g) == BindingButton(h)
    ensures g == h
  {
    assert XInputButton(BindingButton(g)) == Some(g);
  }

  /** The fourteen `HasFlag` tests of the poll loop, each ORing one
    * `ButtonFlags` member into the accumulator: the flags are the image of
    * the pressed buttons under the table `BindingButton`. */
  function ConvertButtons(pressed: set<GamepadButton>): set<Button>
  {
    set g | g in pressed :: BindingButton(g)
  }

  /** A flag is set exactly when its XInput button is pressed; `Special`
    * (the guide button) is never set. */
  lemma ConvertButtonsExact(pressed: set<GamepadButton>, b: Button)
    ensures b in ConvertButtons(pressed) <==> XInputButton(b).Some? && XInputButton(b).value in pressed
    ensures Special !in ConvertButtons(pressed)
  {
    if b in ConvertButtons(pressed) {
      var g :| g in pressed && BindingButton(g) == b;
      BindingButtonInjective(g, XInputButton(b).value);
    }
    if XInputButton(b).Some? && XInputButton(b).value in pressed {
      assert BindingButton(XInputButton(b).value) in ConvertButtons(pressed);
    }
  }

  /** No button is lost or merged: there are as many flags as pressed buttons. */
  lemma {:induction false} ConvertButtonsSize(pressed: set<GamepadButton>)
    ensures |ConvertButtons(pressed)| == |pressed|
    decreases |pressed|
  {
    if pressed != {} {
      var g :| g in pressed;
      var rest := pressed - {g};
      ConvertButtonsSize(rest);
      assert ConvertButtons(pressed) == ConvertButtons(rest) + {BindingButton(g)};
      if BindingButton(g) in ConvertButtons(rest) {
        var h :| h in rest && BindingButton(h) == BindingButton(g);
        BindingButtonInjective(g, h);
        assert false;
      }
    }
  }

  /** `ButtonFlag` as an `int`. */
  function FlagValue(b: Button): (v: int)
    ensures v == ButtonFlag(b) as int
  {
    match b
    case A => 0x1000
    case B => 0x2000
    case X => 0x4000
    case Y => 0x8000
    case Up => 0x0001
    case Down => 0x0002
    case Left => 0x0004
    case Right => 0x0008
    case LB => 0x0100
    case RB => 0x0200
    case Play => 0x0010
    case Back => 0x0020
    case LS => 0x0040
    case RS => 0x0080
    case Special => 0x0400
  }

  function Bit(flags: set<Button>, b: Button): int
  {
    if b in flags then FlagValue(b) else 0
  }

  /** The `int` the accumulated ORs leave: the flags occupy distinct bits
    * (`ButtonFlagsDisjoint`), so their OR is the sum of their values. */
  function FlagWord(flags: set<Button>): int
  {
    Bit(flags, A) + Bit(flags, B) + Bit(flags, X) + Bit(flags, Y) +
    Bit(flags, Up) + Bit(flags, Down) + Bit(flags, Left) + Bit(flags, Right) +
    Bit(flags, LB) + Bit(flags, RB) + Bit(flags, Play) + Bit(flags, Back) +
    Bit(flags, LS) + Bit(flags, RS) + Bit(flags, Special)
  }

  /** The word fits 16 bits and its top bit is Y's: the `(short)` cast makes
    * the packet's flags negative exactly when Y is held. */
  lemma FlagWordSign(flags: set<Button>)
    ensures 0 <= FlagWord(flags) < 0x1_0000
    ensures FlagWord(flags) >= 0x8000 <==> Y in flags
    ensures ToShort(FlagWord(flags)) < 0 <==> Y in flags
  {
  }

  /** `XInput.State` as one poll sees it. */
  datatype ControllerState = ControllerState(
    connected: bool, packetNumber: int, buttons: set<GamepadButton>,
    leftTrigger: byte, rightTrigger: byte,
    leftThumbX: int, leftThumbY: int, rightThumbX: int, rightThumbY: int)

  /** The arguments of one `SendMultiControllerInput` (or, for the reset that
    * is never reached, `SendControllerInput`) call. */
  datatype ControllerPacket = ControllerPacket(
    controllerNumber: int, buttonFlags: int,
    leftTrigger: byte, rightTrigger: byte,
    leftStickX: int, leftStickY: int, rightStickX: int, rightStickY: int)

  /** The packet for a connected controller: its user index and the
    * converted flag word, both cast to `short`. */
  function PacketFor(userIndex: nat, s: ControllerState): ControllerPacket
  {
    ControllerPacket(ToShort(userIndex), ToShort(FlagWord(ConvertButtons(s.buttons))),
                     s.leftTrigger, s.rightTrigger, s.leftThumbX, s.leftThumbY, s.rightThumbX, s.rightThumbY)
  }

  /** A held Y (bit 0x8000) makes the packet's button flags negative. */
  lemma PacketSign(userIndex: nat, s: ControllerState)
    ensures PacketFor(userIndex, s).buttonFlags < 0 <==> GamepadY in s.buttons
  {
    FlagWordSign(ConvertButtons(s.buttons));
    ConvertButtonsExact(s.buttons, Y);
  }

  /** A controller is sent a packet when it is connected and its packet number
    * differs from `lastPacketNumber`, which is never anything but -1. */
  predicate Sends(s: ControllerState) { s.connected && s.packetNumber != -1 }

  /** The packets of one pass over the controllers. */
  function RoundPackets(indices: seq<nat>, states: seq<ControllerState>): seq<ControllerPacket>
    requires |indices| == |states|
  {
    if |states| == 0 then []
    else
      var k := |states| - 1;
      RoundPackets(indices[..k], states[..k]) + (if Sends(states[k]) then [PacketFor(indices[k], states[k])] else [])
  }

  /** The packets of several passes, in order. */
  function WorkerPackets(indices: seq<nat>, rounds: seq<seq<ControllerState>>): seq<ControllerPacket>
    requires forall r :: 0 <= r < |rounds| ==> |rounds[r]| == |indices|
  {
    if |rounds| == 0 then []
    else WorkerPackets(indices, rounds[..|rounds| - 1]) + RoundPackets(indices, rounds[|rounds| - 1])
  }

  /** Every packet of a pass comes from a connected controller with a packet
    * number other than -1, one per such controller, in controller order: the
    * disconnect reset is never sent and an unchanged state is resent. */
  lemma {:induction false} RoundPacketsExact(indices: seq<nat>, states: seq<ControllerState>)
    requires |indices| == |states|
    ensures |RoundPackets(indices, states)| == |set k | 0 <= k < |states| && Sends(states[k])|
    decreases |states|
  {
    if |states| > 0 {
      var k := |states| - 1;
      RoundPacketsExact(indices[..k], states[..k]);
      var before := set j | 0 <= j < k && Sends(states[..k][j]);
      var all := set j | 0 <= j < |states| && Sends(states[j]);
      assert before == set j | 0 <= j < k && Sends(states[j]);
      if Sends(states[k]) {
        assert all == before + {k};
      } else {
        assert all == before;
      }
    }
  }

  class XInput {
    /** `null` until `Start`; then the user indices of the controllers. */
    var controllers: Option<seq<nat>>
    var stopPolling: bool
    /** Whether `Start` has launched the polling task. */
    var workerStarted: bool

    constructor ()
      ensures controllers == None && !stopPolling && !workerStarted
    {
      controllers, stopPolling, workerStarted := None, false, false;
    }

    /** Creates controllers One to Four (user indices 0 to 3) and launches the
      * polling task. */
    method Start()
      modifies this
      ensures controllers == Some([0, 1, 2, 3]) && workerStarted
      ensures stopPolling == old(stopPolling)
    {
      controllers := Some([0, 1, 2, 3]);
      workerStarted := true;
    }

    /** Only raises the flag; the worker leaves its loop at its next check. */
    method Stop()
      modifies this
      ensures stopPolling
      ensures controllers == old(controllers) && workerStarted == old(workerStarted)
    {
      stopPolling := true;
    }

    /** `PollControllerWorker`: each element of `rounds` is what the
      * controllers report in one pass of the `while (!stopPolling)` loop; how
      * many passes run before `Stop` is observed is the length of `rounds`. */
    method PollControllerWorker(rounds: seq<seq<ControllerState>>) returns (sent: seq<ControllerPacket>)
      requires controllers.Some?
      requires forall r :: 0 <= r < |rounds| ==> |rounds[r]| == |controllers.value|
      requires stopPolling ==> rounds == []
      ensures sent == WorkerPackets(controllers.value, rounds)
    {
      var indices := controllers.value;
      var lastPacketNumber := -1;
      sent := [];
      var r := 0;
      while r < |rounds|
        invariant 0 <= r <= |rounds|
        invariant lastPacketNumber == -1
        invariant sent == WorkerPackets(indices, rounds[..r])
      {
        var states := rounds[r];
        var k := 0;
        while k < |indices|
          invariant 0 <= k <= |indices|
          invariant lastPacketNumber == -1
          invariant sent == WorkerPackets(indices, rounds[..r]) + RoundPackets(indices[..k], states[..k])
        {
          var state := states[k];
          var reset := ControllerPacket(ToShort(indices[k]), 0, 0, 0, 0, 0, 0, 0);
          if !state.connected {
            if lastPacketNumber != -1 {
              sent := sent + [reset];
              lastPacketNumber := -1;
            }
          } else if state.packetNumber != lastPacketNumber {
            var flags := ConvertButtons(state.buttons);
            sent := sent + [ControllerPacket(ToShort(indices[k]), ToShort(FlagWord(flags)),
                                             state.leftTrigger, state.rightTrigger, state.leftThumbX,
                                             state.leftThumbY, state.rightThumbX, state.rightThumbY)];
          }
          assert indices[..k + 1][..k] == indices[..k] && states[..k + 1][..k] == states[..k];
          k := k + 1;
        }
        assert indices[..k] == indices && states[..k] == states;
        assert rounds[..r + 1][..r] == rounds[..r];
        r := r + 1;
      }
      assert rounds[..r] == rounds;
    }
  }
}
