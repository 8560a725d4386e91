/** include/glfwpp/joystick.h: the `Joystick` id wrapper and the loops that
    turn GLFW's raw button and hat arrays into wrapper values. */
module Joysticks {
  import opened Glfw
  import opened Input

  /** `GLFW_JOYSTICK_1` .. `GLFW_JOYSTICK_16`. */
  const JOYSTICK_1: int := 0
  const JOYSTICK_LAST: int := 15

  /** `GLFW_CONNECTED` / `GLFW_DISCONNECTED`, the `JoystickEvent` values. */
  const CONNECTED: int := 0x0004_0001
  const DISCONNECTED: int := 0x0004_0002

  /** The number of buttons in a `GLFWgamepadstate` and a `GamepadState`. */
  const GAMEPAD_BUTTONS: nat := 15

  /** An `unsigned char` of a native state array. */
  type Byte = b: int | 0 <= b < 256

  /** `Joystick`: a copyable value holding the native joystick id. */
  datatype Joystick = Joystick(id: int)

  /** `Joystick(EnumType)`: wraps a native id, unchanged. */
  function FromId(jid: int): (j: Joystick)
    ensures j.id == jid
  {
    Joystick(jid)
  }

  /** `operator EnumType`: the wrapped id. */
  function ToId(j: Joystick): (jid: int)
    ensures FromId(jid) == j
  {
    j.id
  }

  /** Wrapping and unwrapping are inverse, so two joysticks are equal exactly
      when their ids are. */
  lemma JoystickIdRoundTrip(jid: int, j: Joystick, k: Joystick)
    ensures ToId(FromId(jid)) == jid
    ensures FromId(ToId(j)) == j
    ensures j == k <==> ToId(j) == ToId(k)
  {
  }

  /** The `bool` each raw button state becomes: pressed unless RELEASE. */
  function DownStates(raw: seq<Byte>): (down: seq<bool>)
    ensures |down| == |raw|
    ensures forall i :: 0 <= i < |raw| ==> (down[i] <==> raw[i] != RELEASE)
  {
    seq(|raw|, i requires 0 <= i < |raw| => IsDown(raw[i]))
  }

  /** `getButtons`: `glfwGetJoystickButtons` yields `count` states starting at
      `pButtons` (no states, `count` 0, for an absent joystick); each is
      pushed as "not RELEASE", in order. */
  method GetButtons(pButtons: seq<Byte>, count: int) returns (buttons: seq<bool>)
    requires 0 <= count <= |pButtons|
    ensures buttons == DownStates(pButtons[..count])
    ensures |buttons| == count
  {
    buttons := [];
    var i := 0;
    while i < count
      invariant 0 <= i <= count
      invariant buttons == DownStates(pButtons[..i])
    {
      buttons := buttons + [pButtons[i] != RELEASE];
      i := i + 1;
    }
  }

  /** With the states GLFW reports (RELEASE or PRESS), a button is down
      exactly when it is pressed. */
  lemma DownStatesPressed(raw: seq<Byte>)
    requires forall i :: 0 <= i < |raw| ==> raw[i] == RELEASE || raw[i] == PRESS
    ensures forall i :: 0 <= i < |raw| ==> (DownStates(raw)[i] <==> raw[i] == PRESS)
  {
  }

  /** `JoystickHatStateBit`: a hat position as a set of direction bits. */
  datatype HatState = HatState(bits: bv8)

  const HAT_CENTERED: bv8 := 0
  const HAT_UP: bv8 := 1
  const HAT_RIGHT: bv8 := 2
  const HAT_DOWN: bv8 := 4
  const HAT_LEFT: bv8 := 8
  const HAT_RIGHT_UP: bv8 := 3
  const HAT_RIGHT_DOWN: bv8 := 6
  const HAT_LEFT_UP: bv8 := 9
  const HAT_LEFT_DOWN: bv8 := 12

  /** Whether a hat state includes the direction bit `dir`. */
  predicate Has(h: HatState, dir: bv8)
  {
    h.bits & dir != 0
  }

  /** `static_cast<JoystickHatStateBit>(raw)`: the value is kept, so the hat
      state includes exactly the directions whose bits GLFW set. */
  function HatOf(raw: bv8): (h: HatState)
    ensures h.bits == raw
    ensures forall dir :: Has(h, dir) <==> raw & dir != 0
  {
    HatState(raw)
  }

  /** `getHats`: `glfwGetJoystickHats` yields `count` hat values starting at
      `pHats` (`unsigned char`s, as bit patterns); each is cast to a hat
      state, in order. */
  method GetHats(pHats: seq<bv8>, count: int) returns (hats: seq<HatState>)
    requires 0 <= count <= |pHats|
    ensures |hats| == count
    ensures forall i :: 0 <= i < count ==> hats[i] == HatOf(pHats[i])
  {
    hats := [];
    var i := 0;
    while i < count
      invariant 0 <= i <= count
      invariant |hats| == i
      invariant forall k :: 0 <= k < i ==> hats[k] == HatOf(pHats[k])
    {
      hats := hats + [HatOf(pHats[i])];
      i := i + 1;
    }
  }

  /** A diagonal position that `getHats` reads includes both of its
      directions and neither of the other two; the centered position includes
      no direction. */
  lemma DiagonalHats()
    ensures Has(HatOf(HAT_RIGHT_UP), HAT_RIGHT) && Has(HatOf(HAT_RIGHT_UP), HAT_UP)
    ensures !Has(HatOf(HAT_RIGHT_UP), HAT_DOWN) && !Has(HatOf(HAT_RIGHT_UP), HAT_LEFT)
    ensures Has(HatOf(HAT_RIGHT_DOWN), HAT_RIGHT) && Has(HatOf(HAT_RIGHT_DOWN), HAT_DOWN)
    ensures !Has(HatOf(HAT_RIGHT_DOWN), HAT_UP) && !Has(HatOf(HAT_RIGHT_DOWN), HAT_LEFT)
    ensures Has(HatOf(HAT_LEFT_UP), HAT_LEFT) && Has(HatOf(HAT_LEFT_UP), HAT_UP)
    ensures !Has(HatOf(HAT_LEFT_UP), HAT_DOWN) && !Has(HatOf(HAT_LEFT_UP), HAT_RIGHT)
    ensures Has(HatOf(HAT_LEFT_DOWN), HAT_LEFT) && Has(HatOf(HAT_LEFT_DOWN), HAT_DOWN)
    ensures !Has(HatOf(HAT_LEFT_DOWN), HAT_UP) && !Has(HatOf(HAT_LEFT_DOWN), HAT_RIGHT)
    ensures forall dir :: dir in {HAT_UP, HAT_RIGHT, HAT_DOWN, HAT_LEFT} ==> !Has(HatOf(HAT_CENTERED), dir)
  {
  }

  /** `GamepadState`: 15 button flags and 6 axes, value-initialised. */
  class GamepadState {
    const buttons: array<bool>
    const axes: array<Float32>

    constructor ()
      ensures buttons.Length == GAMEPAD_BUTTONS && axes.Length == 6
      ensures forall i :: 0 <= i < buttons.Length ==> !buttons[i]
      ensures forall i :: 0 <= i < axes.Length ==> axes[i] == 0
      ensures fresh(buttons) && fresh(axes)
    {
      buttons := new bool[GAMEPAD_BUTTONS](_ => false);
      axes := new Float32[6](_ => 0);
    }
  }

  /** `getGamepadState`: `glfwGetGamepadState` fills a native state (all zero
      when the joystick is absent or not a gamepad; the wrapper ignores its
      result), then every button slot is set to "not RELEASE" and every axis
      copied, slot by slot. */
  method GetGamepadState(nativeButtons: seq<Byte>, nativeAxes: seq<Float32>) returns (result: GamepadState)
    requires |nativeButtons| == GAMEPAD_BUTTONS && |nativeAxes| == 6
    ensures fresh(result.buttons) && fresh(result.axes)
    ensures result.buttons[..] == DownStates(nativeButtons)
    ensures result.axes[..] == nativeAxes
  {
    result := new GamepadState();
    var i := 0;
    while i < result.buttons.Length
      invariant 0 <= i <= result.buttons.Length
      invariant result.buttons[..i] == DownStates(nativeButtons[..i])
      modifies result.buttons
    {
      result.buttons[i] := nativeButtons[i] != RELEASE;
      i := i + 1;
    }
    assert nativeButtons[..i] == nativeButtons;
    i := 0;
    while i < result.axes.Length
      invariant 0 <= i <= result.axes.Length
      invariant result.axes[..i] == nativeAxes[..i]
      invariant result.buttons[..] == DownStates(nativeButtons)
      modifies result.axes
    {
      result.axes[i] := nativeAxes[i];
      i := i + 1;
    }
  }

  /** An absent joystick reads as a gamepad with every button up. */
  lemma AbsentGamepadAllUp()
    ensures true !in DownStates(seq(GAMEPAD_BUTTONS, _ => 0))
  {
    var zeros: seq<Byte> := seq(GAMEPAD_BUTTONS, _ => 0);
    var down := DownStates(zeros);
    forall i | 0 <= i < |down| ensures !down[i] {
      assert zeros[i] == RELEASE;
    }
  }
}
