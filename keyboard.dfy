/** Virtual-key translation for the stream page: a Windows `VirtualKey` (by
  * its numeric value) becomes the key code sent to the host, and the held
  * modifier keys become the binding's modifier bits. The Moonlight table and
  * the older shared Limelight table differ only in the punctuation keys the
  * latter has commented out. */
module Keyboard {
  import opened Common
  import opened BindingTypes

  /** `Windows.System.VirtualKey` values the tables mention. */
  const VK_NUMBER0: int := 48
  const VK_NUMBER9: int := 57
  const VK_A_KEY: int := 65
  const VK_Z_KEY: int := 90
  const VK_NUMBER_PAD0: int := 96
  const VK_NUMBER_PAD9: int := 105
  const VK_F1_KEY: int := 112
  const VK_F12_KEY: int := 123
  const VK_BACK: int := 8
  const VK_TAB_KEY: int := 9
  const VK_CLEAR_KEY: int := 12
  const VK_ENTER: int := 13
  const VK_SHIFT_KEY: int := 16
  const VK_CONTROL_KEY: int := 17
  const VK_MENU: int := 18
  const VK_CAPITAL_LOCK: int := 20
  const VK_ESCAPE_KEY: int := 27
  const VK_SPACE_KEY: int := 32
  const VK_PAGE_UP_KEY: int := 33
  const VK_PAGE_DOWN_KEY: int := 34
  const VK_END_KEY: int := 35
  const VK_HOME_KEY: int := 36
  const VK_LEFT_KEY: int := 37
  const VK_UP_KEY: int := 38
  const VK_RIGHT_KEY: int := 39
  const VK_DOWN_KEY: int := 40
  const VK_SNAPSHOT: int := 44
  const VK_INSERT_KEY: int := 45
  const VK_DELETE: int := 46
  const VK_LEFT_WINDOWS: int := 91
  const VK_RIGHT_WINDOWS: int := 92
  const VK_NUMBER_KEY_LOCK: int := 144
  const VK_SCROLL: int := 145
  const VK_LEFT_SHIFT: int := 160
  const VK_RIGHT_SHIFT: int := 161
  const VK_LEFT_CONTROL: int := 162
  const VK_RIGHT_CONTROL: int := 163
  const VK_LEFT_MENU: int := 164
  const VK_RIGHT_MENU: int := 165

  /** The OEM punctuation keys, by the numbers the Moonlight table casts. */
  const VIRTUAL_KEY_SEMICOLON: int := 186
  const VIRTUAL_KEY_EQUALS: int := 187
  const VIRTUAL_KEY_COMMA: int := 188
  const VIRTUAL_KEY_MINUS: int := 189
  const VIRTUAL_KEY_PERIOD: int := 190
  const VIRTUAL_KEY_SLASH: int := 191
  const VIRTUAL_KEY_GRAVE: int := 192
  const VIRTUAL_KEY_LEFT_BRACKET: int := 219
  const VIRTUAL_KEY_BACKSLASH: int := 220
  const VIRTUAL_KEY_RIGHT_BRACKET: int := 221
  const VIRTUAL_KEY_APOSTROPHE: int := 222

  /** Host key numbers used as `translated`. */
  const VK_0: int := 48
  const VK_A: int := 65
  const VK_NUMPAD0: int := 96
  const VK_F1: int := 112
  const VK_ALT: int := 18
  const VK_BACK_SLASH: int := 92
  const VK_CAPS_LOCK: int := 20
  const VK_CLEAR: int := 12
  const VK_COMMA: int := 44
  const VK_CONTROL: int := 17
  const VK_EQUALS: int := 61
  const VK_ESCAPE: int := 27
  const VK_PERIOD: int := 46
  const VK_WINDOWS: int := 524
  const VK_END: int := 35
  const VK_HOME: int := 36
  const VK_NUM_LOCK: int := 144
  const VK_PAGE_UP: int := 33
  const VK_PAGE_DOWN: int := 34
  const VK_SCROLL_LOCK: int := 145
  const VK_SHIFT: int := 16
  const VK_SPACE: int := 32
  const VK_PRINTSCREEN: int := 154
  const VK_TAB: int := 9
  const VK_LEFT: int := 37
  const VK_RIGHT: int := 39
  const VK_UP: int := 38
  const VK_DOWN: int := 40
  const VK_BACK_QUOTE: int := 192

  const KEY_PREFIX: bv16 := 0x80

  /** The four contiguous ranges, translated by offset. */
  function RangeTranslated(key: int): Option<int>
  {
    if VK_NUMBER0 <= key <= VK_NUMBER9 then Some(key - VK_NUMBER0 + VK_0)
    else if VK_A_KEY <= key <= VK_Z_KEY then Some(key - VK_A_KEY + VK_A)
    else if VK_NUMBER_PAD0 <= key <= VK_NUMBER_PAD9 then Some(key - VK_NUMBER_PAD0 + VK_NUMPAD0)
    else if VK_F1_KEY <= key <= VK_F12_KEY then Some(key - VK_F1_KEY + VK_F1)
    else None
  }

  /** The cases both tables share. */
  function CommonSwitch(key: int): Option<int>
  {
    if key == VK_LEFT_MENU || key == VK_RIGHT_MENU || key == VK_MENU then Some(VK_ALT)
    else if key == VK_CAPITAL_LOCK then Some(VK_CAPS_LOCK)
    else if key == VK_CLEAR_KEY then Some(VK_CLEAR)
    else if key == VK_CONTROL_KEY || key == VK_LEFT_CONTROL || key == VK_RIGHT_CONTROL then Some(VK_CONTROL)
    else if key == VK_ENTER then Some(0x0d)
    else if key == VK_ESCAPE_KEY then Some(VK_ESCAPE)
    else if key == VK_DELETE then Some(VK_PERIOD)
    else if key == VK_INSERT_KEY then Some(-1)
    else if key == VK_LEFT_WINDOWS || key == VK_RIGHT_WINDOWS then Some(VK_WINDOWS)
    else if key == VK_END_KEY then Some(VK_END)
    else if key == VK_HOME_KEY then Some(VK_HOME)
    else if key == VK_NUMBER_KEY_LOCK then Some(VK_NUM_LOCK)
    else if key == VK_PAGE_DOWN_KEY then Some(VK_PAGE_DOWN)
    else if key == VK_PAGE_UP_KEY then Some(VK_PAGE_UP)
    else if key == VK_SCROLL then Some(VK_SCROLL_LOCK)
    else if key == VK_SHIFT_KEY || key == VK_LEFT_SHIFT || key == VK_RIGHT_SHIFT then Some(VK_SHIFT)
    else if key == VK_SPACE_KEY then Some(VK_SPACE)
    else if key == VK_TAB_KEY then Some(VK_TAB)
    else if key == VK_LEFT_KEY then Some(VK_LEFT)
    else if key == VK_RIGHT_KEY then Some(VK_RIGHT)
    else if key == VK_UP_KEY then Some(VK_UP)
    else if key == VK_DOWN_KEY then Some(VK_DOWN)
    else None
  }

  /** The cases only the Moonlight table has: the OEM punctuation keys and
    * Print Screen. */
  function MoonlightOnlySwitch(key: int): Option<int>
  {
    if key == VIRTUAL_KEY_BACKSLASH then Some(VK_BACK_SLASH)
    else if key == VIRTUAL_KEY_COMMA then Some(VK_COMMA)
    else if key == VIRTUAL_KEY_EQUALS then Some(VK_EQUALS)
    else if key == VIRTUAL_KEY_LEFT_BRACKET then Some(0xdb)
    else if key == VIRTUAL_KEY_MINUS then Some(0xbd)
    else if key == VIRTUAL_KEY_PERIOD then Some(0xbe)
    else if key == VIRTUAL_KEY_RIGHT_BRACKET then Some(0xdd)
    else if key == VIRTUAL_KEY_SEMICOLON then Some(0xba)
    else if key == VIRTUAL_KEY_SLASH then Some(0xbf)
    else if key == VK_SNAPSHOT then Some(VK_PRINTSCREEN)
    else if key == VIRTUAL_KEY_GRAVE then Some(VK_BACK_QUOTE)
    else if key == VIRTUAL_KEY_APOSTROPHE then Some(0xde)
    else None
  }

  /** `translated` of the Moonlight table, or `None` for the `default` case. */
  function MoonlightTranslated(key: int): Option<int>
  {
    if RangeTranslated(key).Some? then RangeTranslated(key)
    else if CommonSwitch(key).Some? then CommonSwitch(key)
    else MoonlightOnlySwitch(key)
  }

  /** `translated` of the shared Limelight table. */
  function SharedTranslated(key: int): Option<int>
  {
    if RangeTranslated(key).Some? then RangeTranslated(key) else CommonSwitch(key)
  }

  /** Every value a table assigns to `translated`: -1 for Insert, otherwise
    * a number below 0x8000. */
  predicate IsTranslation(t: int) { t == -1 || 0 <= t < 0x8000 }

  lemma TranslationsInRange(key: int)
    ensures MoonlightTranslated(key).Some? ==> IsTranslation(MoonlightTranslated(key).value)
    ensures SharedTranslated(key).Some? ==> IsTranslation(SharedTranslated(key).value)
  {
  }

  /** `0x8000 | u` on a 16-bit value: bit 15 is set, the others are kept. */
  function OrKeyPrefix(u: nat): (r: nat)
    requires u < 0x1_0000
  {
    if u < 0x8000 then u + 0x8000 else u
  }

  /** The arithmetic form agrees with the bitwise OR on every 16-bit value. */
  lemma OrKeyPrefixIsBitwiseOr(low: bv16)
    ensures low as int < 0x1_0000 && ((KEY_PREFIX << 8) | low) as int == OrKeyPrefix(low as int)
  {
    OrWithTopBit(low);
  }

  lemma OrWithTopBit(low: bv16)
    ensures ((KEY_PREFIX << 8) | low) as int == if low as int < 0x8000 then low as int + 0x8000 else low as int
  {
  }

  /** `(short)((KEY_PREFIX << 8) | translated)`: the cast keeps the low 16 bits
    * of the OR, and those are the OR of the low 16 bits of `translated`. */
  function KeyCode(t: int): (code: int)
    requires IsTranslation(t)
    ensures t == -1 ==> code == -1
    ensures 0 <= t ==> code == t - 0x8000
    ensures SHORT_MIN <= code < 0
  {
    ToShort(OrKeyPrefix(t % 0x1_0000))
  }

  /** Moonlight's `TranslateVirtualKey`: 0 for an unrecognised key (Backspace
    * among them), otherwise the negative prefixed code of its translation. */
  function TranslateVirtualKey(key: int): (code: int)
    ensures code == 0 <==> MoonlightTranslated(key).None?
    ensures MoonlightTranslated(key).Some? ==> code == KeyCode(MoonlightTranslated(key).value) && code < 0
  {
    match MoonlightTranslated(key)
    case None => 0
    case Some(t) => TranslationsInRange(key); KeyCode(t)
  }

  /** The shared Limelight `TranslateVirtualKey`. */
  function SharedTranslateVirtualKey(key: int): (code: int)
    ensures code == 0 <==> SharedTranslated(key).None?
    ensures SharedTranslated(key).Some? ==> code == KeyCode(SharedTranslated(key).value) && code < 0
  {
    match SharedTranslated(key)
    case None => 0
    case Some(t) => TranslationsInRange(key); KeyCode(t)
  }

  /** Digits, letters, number-pad digits and F1-F12 are sent as the prefixed
    * form of the same number in both tables. */
  lemma RangeKeys(key: int)
    requires VK_NUMBER0 <= key <= VK_NUMBER9 || VK_A_KEY <= key <= VK_Z_KEY ||
             VK_NUMBER_PAD0 <= key <= VK_NUMBER_PAD9 || VK_F1_KEY <= key <= VK_F12_KEY
    ensures TranslateVirtualKey(key) == key - 0x8000
    ensures SharedTranslateVirtualKey(key) == key - 0x8000
  {
  }

  /** Insert is sent as -1, Delete as the period code 46, Enter as 0x0d, and
    * Backspace is not sent. */
  lemma SpecialKeys()
    ensures TranslateVirtualKey(VK_INSERT_KEY) == -1 && SharedTranslateVirtualKey(VK_INSERT_KEY) == -1
    ensures MoonlightTranslated(VK_DELETE) == Some(46) && SharedTranslated(VK_DELETE) == Some(46)
    ensures MoonlightTranslated(VK_ENTER) == Some(0x0d) && SharedTranslated(VK_ENTER) == Some(0x0d)
    ensures TranslateVirtualKey(VK_BACK) == 0 && SharedTranslateVirtualKey(VK_BACK) == 0
  {
  }

  /** Left, right and generic Alt, Control and Shift are one key each. */
  lemma ModifierVariantsCollapse()
    ensures MoonlightTranslated(VK_LEFT_MENU) == MoonlightTranslated(VK_RIGHT_MENU) == MoonlightTranslated(VK_MENU) == Some(VK_ALT)
    ensures MoonlightTranslated(VK_LEFT_CONTROL) == MoonlightTranslated(VK_RIGHT_CONTROL) == MoonlightTranslated(VK_CONTROL_KEY) == Some(VK_CONTROL)
    ensures MoonlightTranslated(VK_LEFT_SHIFT) == MoonlightTranslated(VK_RIGHT_SHIFT) == MoonlightTranslated(VK_SHIFT_KEY) == Some(VK_SHIFT)
  {
  }

  predicate IsMoonlightOnlyKey(key: int)
  {
    key == VIRTUAL_KEY_BACKSLASH || key == VIRTUAL_KEY_COMMA || key == VIRTUAL_KEY_EQUALS ||
    key == VIRTUAL_KEY_LEFT_BRACKET || key == VIRTUAL_KEY_MINUS || key == VIRTUAL_KEY_PERIOD ||
    key == VIRTUAL_KEY_RIGHT_BRACKET || key == VIRTUAL_KEY_SEMICOLON || key == VIRTUAL_KEY_SLASH ||
    key == VK_SNAPSHOT || key == VIRTUAL_KEY_GRAVE || key == VIRTUAL_KEY_APOSTROPHE
  }

  /** The shared table is the Moonlight table with the OEM punctuation keys and
    * Print Screen removed: both send the same code wherever the shared one
    * sends anything, and the shared one is silent exactly on those twelve keys
    * besides the keys neither recognises. */
  lemma SharedIsRestriction(key: int)
    ensures SharedTranslateVirtualKey(key) != 0 ==> SharedTranslateVirtualKey(key) == TranslateVirtualKey(key)
    ensures (TranslateVirtualKey(key) != 0 && SharedTranslateVirtualKey(key) == 0) <==> IsMoonlightOnlyKey(key)
  {
  }

  /** `GetModifierFlags`: one bit per held key, ORed into a byte. */
  function GetModifierFlags(shiftDown: bool, menuDown: bool, controlDown: bool): (flags: bv8)
    ensures (flags & MODIFIER_SHIFT != 0) <==> shiftDown
    ensures (flags & MODIFIER_ALT != 0) <==> menuDown
    ensures (flags & MODIFIER_CTRL != 0) <==> controlDown
    ensures flags as int < 8
  {
    var f0: bv8 := 0;
    var f1 := if shiftDown then f0 | MODIFIER_SHIFT else f0;
    var f2 := if menuDown then f1 | MODIFIER_ALT else f1;
    if controlDown then f2 | MODIFIER_CTRL else f2
  }
}
