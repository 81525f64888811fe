/** The host's key interpreter. The device sends a modifier (shift or sym)
    as a key packet of its own just before the key it modifies; the
    handler remembers the modifier and applies it to the next key only.

    `Process` is the interpreter as a function of the remembered modifier
    and one key; `KeyboardHandler` is the object the host holds, and its
    `ProcessKey` is proved to do what `Process` says. */
module KeyHandler {
  import opened Bytes
  import opened Config

  /** `modifier_active`: `None`, `'shift'` or `'sym'`. */
  datatype Modifier = NoModifier | Shift | Sym

  /** What `process_key` returns: `None`, a character, or an action dict. */
  datatype KeyResult =
    | NoResult
    | Character(c: char)
    | Enter
    | Backspace
    | FontChange(font: FontId)
    | ClearBuffer

  predicate IsModifierKey(key: byte)
  {
    key == KEY_MODIFIER_SHIFT || key == KEY_MODIFIER_SYM
  }

  predicate Printable(key: byte)
  {
    32 <= key <= 126
  }

  /** `chr(key) if 32 <= key <= 126 else None`. */
  function PrintableOrNothing(key: byte): (r: KeyResult)
    ensures r.NoResult? || r.Character?
    ensures r.Character? <==> Printable(key)
    ensures r.Character? ==> r.c as int == Val(key)
  {
    if Printable(key) then Character(Val(key) as char) else NoResult
  }

  /** `_handle_shift_key`. */
  function ShiftKey(key: byte): KeyResult
  {
    if key == 0x30 then FontChange(0)
    else if key == 0x31 then FontChange(1)
    else if key == 0x32 then FontChange(2)
    else if key == 0x33 then FontChange(3)
    else if key == 0x08 then Backspace
    else PrintableOrNothing(key)
  }

  /** `_handle_sym_key`. */
  function SymKey(key: byte): KeyResult
  {
    if key == 0x63 then ClearBuffer else PrintableOrNothing(key)
  }

  /** `_handle_regular_key`. */
  function RegularKey(key: byte): KeyResult
  {
    if key == 0x08 then Enter
    else if key == 0x7F then Backspace
    else PrintableOrNothing(key)
  }

  /** `process_key`: the new modifier and the result. */
  function Process(m: Modifier, key: byte): (Modifier, KeyResult)
  {
    if key == KEY_MODIFIER_SHIFT then (Shift, NoResult)
    else if key == KEY_MODIFIER_SYM then (Sym, NoResult)
    else if m == Shift then (NoModifier, ShiftKey(key))
    else if m == Sym then (NoModifier, SymKey(key))
    else (NoModifier, RegularKey(key))
  }

  /** A stream of keys through `process_key`: the final modifier and every
      result, in order. */
  function Run(m: Modifier, keys: seq<byte>): (r: (Modifier, seq<KeyResult>))
    ensures |r.1| == |keys|
    decreases |keys|
  {
    if keys == [] then (m, [])
    else
      var step := Process(m, keys[0]);
      var rest := Run(step.0, keys[1..]);
      (rest.0, [step.1] + rest.1)
  }

  class KeyboardHandler {
    var modifierActive: Modifier

    constructor ()
      ensures modifierActive == NoModifier
    {
      modifierActive := NoModifier;
    }

    method ProcessKey(key: byte) returns (result: KeyResult)
      modifies this
      ensures (modifierActive, result) == Process(old(modifierActive), key)
    {
      if key == KEY_MODIFIER_SHIFT {
        modifierActive := Shift;
        return NoResult;
      }
      if key == KEY_MODIFIER_SYM {
        modifierActive := Sym;
        return NoResult;
      }
      if modifierActive == Shift {
        result := ShiftKey(key);
        modifierActive := NoModifier;
        return;
      }
      if modifierActive == Sym {
        result := SymKey(key);
        modifierActive := NoModifier;
        return;
      }
      result := RegularKey(key);
    }
  }

  /** The two modifier keys set the modifier, whatever was active, and
      return nothing; every other key leaves no modifier behind. */
  lemma ModifierKeys(m: Modifier, key: byte)
    ensures Process(m, KEY_MODIFIER_SHIFT) == (Shift, NoResult)
    ensures Process(m, KEY_MODIFIER_SYM) == (Sym, NoResult)
    ensures !IsModifierKey(key) ==> Process(m, key).0 == NoModifier
    ensures Process(m, key).1 == NoResult && IsModifierKey(key) ==> Process(m, key).0 != NoModifier
  {
  }

  /** A modifier followed by a non-modifier key gives that key's modified
      meaning, and the key after it is read unmodified again. */
  lemma {:induction false} ModifierAppliesOnce(modifierKey: byte, key: byte, next: byte)
    requires IsModifierKey(modifierKey) && !IsModifierKey(key) && !IsModifierKey(next)
    ensures Run(NoModifier, [modifierKey, key, next]).1
      == [NoResult, if modifierKey == KEY_MODIFIER_SHIFT then ShiftKey(key) else SymKey(key), RegularKey(next)]
    ensures Run(NoModifier, [modifierKey, key, next]).0 == NoModifier
  {
    var m1 := if modifierKey == KEY_MODIFIER_SHIFT then Shift else Sym;
    var r1 := if modifierKey == KEY_MODIFIER_SHIFT then ShiftKey(key) else SymKey(key);
    assert [next][1..] == [];
    assert Process(NoModifier, next) == (NoModifier, RegularKey(next));
    assert Run(NoModifier, []) == (NoModifier, []);
    assert [RegularKey(next)] + [] == [RegularKey(next)];
    assert Run(NoModifier, [next]) == (NoModifier, [RegularKey(next)]);
    assert [key, next][1..] == [next];
    assert Process(m1, key) == (NoModifier, r1);
    assert [r1] + [RegularKey(next)] == [r1, RegularKey(next)];
    assert Run(m1, [key, next]) == (NoModifier, [r1, RegularKey(next)]);
    assert [modifierKey, key, next][1..] == [key, next];
  }

  /** After a stream of keys the modifier is active exactly when the last
      key was a modifier key, and it is the one that key names. */
  lemma {:induction false} RunFinalModifier(m: Modifier, keys: seq<byte>)
    requires keys != []
    ensures Run(m, keys).0 == if keys[|keys| - 1] == KEY_MODIFIER_SHIFT then Shift
                          else if keys[|keys| - 1] == KEY_MODIFIER_SYM then Sym
                          else NoModifier
    decreases |keys|
  {
    if |keys| > 1 {
      RunFinalModifier(Process(m, keys[0]).0, keys[1..]);
    }
  }

  /** Which inputs give a font change: shift then `'0'`..`'3'`. */
  lemma FontChangeExactly(m: Modifier, key: byte, f: FontId)
    ensures Process(m, key).1 == FontChange(f) <==> m == Shift && Val(key) == 0x30 + f
  {
  }

  /** Which inputs give enter, backspace, and clear-buffer. */
  lemma ActionsExactly(m: Modifier, key: byte)
    ensures Process(m, key).1 == Enter <==> m == NoModifier && key == 0x08
    ensures Process(m, key).1 == Backspace <==>
      (m == Shift && key == 0x08) || (m == NoModifier && key == 0x7F)
    ensures Process(m, key).1 == ClearBuffer <==> m == Sym && key == 0x63
  {
  }

  /** A character comes out exactly for a printable key that no active
      modifier turns into an action, and it is the key's own character. */
  lemma CharacterExactly(m: Modifier, key: byte)
    ensures Process(m, key).1.Character? <==>
      Printable(key)
      && !(m == Shift && 0x30 <= key <= 0x33)
      && !(m == Sym && key == 0x63)
    ensures Process(m, key).1.Character? ==> Process(m, key).1.c as int == Val(key)
  {
  }
}
