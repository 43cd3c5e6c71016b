/** The evdev key codes, key tables and plain data used by correction replay. */
module Keys {
  type Key = nat

  const BACKSPACE: Key := 14
  const LEFTCTRL: Key := 29
  const LEFTSHIFT: Key := 42
  const RIGHTSHIFT: Key := 54
  const LEFTALT: Key := 56
  const SPACE: Key := 57
  const CAPSLOCK: Key := 58
  const RIGHTCTRL: Key := 97
  const RIGHTALT: Key := 100
  const LEFTMETA: Key := 125
  const RIGHTMETA: Key := 126

  const SHIFTS: set<Key> := {LEFTSHIFT, RIGHTSHIFT}
  const MODIFIERS: set<Key> := {LEFTCTRL, RIGHTCTRL, LEFTSHIFT, RIGHTSHIFT, LEFTALT, RIGHTALT, LEFTMETA, RIGHTMETA}

  /** `is_case_sensitive_letter_key`: the three letter rows with the brackets, semicolon, apostrophe,
      grave, comma and dot, which carry letters in the Russian layout. */
  predicate IsCaseSensitive(key: Key) {
    16 <= key <= 27 || 30 <= key <= 41 || 44 <= key <= 52
  }

  /** A key that types a character: neither a modifier nor one of the two editing keys used here. */
  predicate IsTextKey(key: Key) {
    key !in MODIFIERS && key != BACKSPACE && key != CAPSLOCK
  }

  datatype ModifierState = ModifierState(
    leftShift: bool, rightShift: bool, leftCtrl: bool, rightCtrl: bool,
    leftAlt: bool, rightAlt: bool, leftMeta: bool, rightMeta: bool, capsLock: bool)

  function Held(down: bool, key: Key): seq<Key> {
    if down then [key] else []
  }

  /** `pressed_modifier_keys`, the order of the Cinnamon replay. */
  function PressedModifierKeys(m: ModifierState): seq<Key> {
    Held(m.leftCtrl, LEFTCTRL) + Held(m.rightCtrl, RIGHTCTRL)
    + Held(m.leftShift, LEFTSHIFT) + Held(m.rightShift, RIGHTSHIFT)
    + Held(m.leftAlt, LEFTALT) + Held(m.rightAlt, RIGHTALT) + Held(m.leftMeta, LEFTMETA) + Held(m.rightMeta, RIGHTMETA)
  }

  /** `pressed_uinput_modifier_evdev_keys`, the order of the generic replay. */
  function PressedUinputModifierKeys(m: ModifierState): seq<Key> {
    Held(m.leftShift, LEFTSHIFT) + Held(m.rightShift, RIGHTSHIFT)
    + Held(m.leftCtrl, LEFTCTRL) + Held(m.rightCtrl, RIGHTCTRL)
    + Held(m.leftAlt, LEFTALT) + Held(m.rightAlt, RIGHTALT) + Held(m.leftMeta, LEFTMETA) + Held(m.rightMeta, RIGHTMETA)
  }

  function HeldSet(m: ModifierState): set<Key> {
    set k | k in MODIFIERS &&
      match k
      case 29 => m.leftCtrl
      case 97 => m.rightCtrl
      case 42 => m.leftShift
      case 54 => m.rightShift
      case 56 => m.leftAlt
      case 100 => m.rightAlt
      case 125 => m.leftMeta
      case _ => m.rightMeta
  }

  datatype Combo =
    | CtrlShift | AltShift | CtrlSpace | SuperSpace
    | LeftCtrlLeftShift | RightCtrlRightShift | LeftAltLeftShift | RightAltRightShift | CapsLockCombo

  /** `synthetic_layout_combo_sequence`: the modifiers and then the trigger, if there is one. */
  function ComboSequence(combo: Combo): seq<Key> {
    match combo
    case CtrlShift => [LEFTCTRL, LEFTSHIFT]
    case AltShift => [LEFTALT, LEFTSHIFT]
    case CtrlSpace => [LEFTCTRL, SPACE]
    case SuperSpace => [LEFTMETA, SPACE]
    case LeftCtrlLeftShift => [LEFTCTRL, LEFTSHIFT]
    case RightCtrlRightShift => [RIGHTCTRL, RIGHTSHIFT]
    case LeftAltLeftShift => [LEFTALT, LEFTSHIFT]
    case RightAltRightShift => [RIGHTALT, RIGHTSHIFT]
    case CapsLockCombo => [CAPSLOCK]
  }

  /** `stroke.shift` is the intended visible case. */
  datatype Keystroke = Keystroke(key: Key, shift: bool)

  datatype Plan = Plan(buffer: seq<Keystroke>, extraBackspaces: nat)

  datatype Config = Config(combo: Combo, layoutDelayMs: nat, backspaceMs: nat, typingMs: nat)

  /** `replay_shift_for_stroke` */
  function ReplayShift(stroke: Keystroke, capsLock: bool): bool {
    if IsCaseSensitive(stroke.key) then stroke.shift != capsLock else stroke.shift
  }
}
