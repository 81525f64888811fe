/** The older host's key interpreter. It has the same shape as the current
    one; its sym handler also accepts an upper-case `'C'` for clear-buffer.
    The result and modifier types are the current interpreter's. */
module LegacyKeyHandler {
  import opened Bytes
  import opened KeyHandler
  import Config

  const LEGACY_KEY_START_MARKER: byte := 0xFD
  const LEGACY_KEY_END_MARKER: byte := 0xFE
  const LEGACY_KEY_MODIFIER_SHIFT: byte := 0x10
  const LEGACY_KEY_MODIFIER_SYM: byte := 0x11

  /** `_handle_shift_key`, written with `ord('0')` .. `ord('3')`. */
  function LegacyShiftKey(key: byte): KeyResult
  {
    if Val(key) == '0' as int then FontChange(0)
    else if Val(key) == '1' as int then FontChange(1)
    else if Val(key) == '2' as int then FontChange(2)
    else if Val(key) == '3' as int then FontChange(3)
    else if key == 0x08 then Backspace
    else PrintableOrNothing(key)
  }

  /** `_handle_sym_key`: `'c'` or `'C'` clears the buffer. */
  function LegacySymKey(key: byte): KeyResult
  {
    if Val(key) == 'c' as int || Val(key) == 'C' as int then ClearBuffer else PrintableOrNothing(key)
  }

  /** `_handle_regular_key`. */
  function LegacyRegularKey(key: byte): KeyResult
  {
    if key == 0x08 then Enter
    else if key == 0x7F then Backspace
    else if 32 <= key <= 126 then Character(Val(key) as char)
    else NoResult
  }

  /** `process_key`. */
  function LegacyProcess(m: Modifier, key: byte): (Modifier, KeyResult)
  {
    if key == LEGACY_KEY_MODIFIER_SHIFT then (Shift, NoResult)
    else if key == LEGACY_KEY_MODIFIER_SYM then (Sym, NoResult)
    else if m == Shift then (NoModifier, LegacyShiftKey(key))
    else if m == Sym then (NoModifier, LegacySymKey(key))
    else (NoModifier, LegacyRegularKey(key))
  }

  class LegacyKeyboardHandler {
    var modifierActive: Modifier

    constructor ()
      ensures modifierActive == NoModifier
    {
      modifierActive := NoModifier;
    }

    method ProcessKey(key: byte) returns (result: KeyResult)
      modifies this
      ensures (modifierActive, result) == LegacyProcess(old(modifierActive), key)
    {
      if key == LEGACY_KEY_MODIFIER_SHIFT {
        modifierActive := Shift;
        return NoResult;
      }
      if key == LEGACY_KEY_MODIFIER_SYM {
        modifierActive := Sym;
        return NoResult;
      }
      if modifierActive == Shift {
        result := LegacyShiftKey(key);
        modifierActive := NoModifier;
        return;
      }
      if modifierActive == Sym {
        result := LegacySymKey(key);
        modifierActive := NoModifier;
        return;
      }
      result := LegacyRegularKey(key);
    }
  }

  /** The legacy constants are the current ones. */
  lemma SameConstants()
    ensures LEGACY_KEY_START_MARKER == Config.KEY_START_MARKER && LEGACY_KEY_END_MARKER == Config.KEY_END_MARKER
    ensures LEGACY_KEY_MODIFIER_SHIFT == Config.KEY_MODIFIER_SHIFT && LEGACY_KEY_MODIFIER_SYM == Config.KEY_MODIFIER_SYM
  {
  }

  /** The two interpreters agree on every modifier and key except sym
      followed by `'C'`, where the legacy one clears the buffer and the
      current one returns the character. */
  lemma AgreesWithCurrent(m: Modifier, key: byte)
    ensures LegacyProcess(m, key) == Process(m, key) <==> !(m == Sym && Val(key) == 'C' as int)
    ensures m == Sym && Val(key) == 'C' as int ==>
      LegacyProcess(m, key).1 == ClearBuffer && Process(m, key).1 == Character('C')
  {
  }
}
