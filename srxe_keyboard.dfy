/** The device's keyboard reader: which key codes it accepts, when it sends
    a modifier packet ahead of a key, and the repeat rule that keeps a held
    key from being sent again within 25 ms.

    The scanned key, the modifier byte of the key map, the three key maps
    and the clock readings are inputs. `Step` is one `readKeyboard` call as a
    function; the class `SrxeKeyboard` holds `lastKey`, `lastKeyTime` and the
    bytes written to serial, and its `ReadKeyboard` is proved to do what
    `Step` says. */
module SrxeKeyboard {
  import opened Bytes
  import opened Config
  import opened SerialHelpers

  const KEY_DEBOUNCE_MS: bv32 := 25
  const BAD_KEYBOARD: bool := true

  /** The keys this keyboard reports as noise. */
  const BAD_KEYS: seq<byte> := [0x0A, 0xAA, 0xF8, 0xF7, 0x98, 0x97, 0x96, 0xF6, 0xF3, 0xF0, 0xF1]

  /** The number of key positions the reverse lookup scans (6 rows of 10). */
  const KEY_POSITIONS: nat := 60

  /** The library's three key maps, indexed by key position. */
  datatype KeyMaps = KeyMaps(original: seq<byte>, shifted: seq<byte>, sym: seq<byte>)

  predicate MapsCover(maps: KeyMaps)
  {
    |maps.original| >= KEY_POSITIONS && |maps.shifted| >= KEY_POSITIONS && |maps.sym| >= KEY_POSITIONS
  }

  /** The codes `isValidKey` lets through when no bad-key list applies. */
  predicate KnownKey(key: byte)
  {
    (32 <= key <= 126) || key == 0x09 || key == 0x1B || key == 0x0A || key == 0x08
    || (0xE0 <= key <= 0xE3) || (0xF0 <= key <= 0xF8)
  }

  /** `isValidKey`: not a bad key, and a known key. */
  predicate ValidKey(key: byte)
  {
    !(BAD_KEYBOARD && key in BAD_KEYS) && KnownKey(key)
  }

  /** `shouldSendModifier`: the shifted (or sym) map gives this position no
      key of its own, so the host must be told about the modifier. */
  function ShouldSendModifier(maps: KeyMaps, keyPosition: nat, isShift: bool, isSym: bool): bool
    requires MapsCover(maps) && keyPosition < KEY_POSITIONS
  {
    var originalKey := maps.original[keyPosition];
    if isShift && maps.shifted[keyPosition] == originalKey && originalKey != 0 then true
    else if isSym && (maps.sym[keyPosition] == originalKey || maps.sym[keyPosition] == 0) && originalKey != 0 then true
    else false
  }

  /** Position `i` of the key maps could have produced `key`. */
  predicate Produces(maps: KeyMaps, i: nat, key: byte, shiftPressed: bool, symPressed: bool)
    requires MapsCover(maps) && i < KEY_POSITIONS
  {
    maps.original[i] == key || (shiftPressed && maps.shifted[i] == key) || (symPressed && maps.sym[i] == key)
  }

  /** The first position at or after `i` that produces `key`, or -1. */
  function KeyPositionFrom(maps: KeyMaps, key: byte, shiftPressed: bool, symPressed: bool, i: nat): (p: int)
    requires MapsCover(maps) && i <= KEY_POSITIONS
    ensures p == -1 || i <= p < KEY_POSITIONS
    decreases KEY_POSITIONS - i
  {
    if i == KEY_POSITIONS then -1
    else if Produces(maps, i, key, shiftPressed, symPressed) then i
    else KeyPositionFrom(maps, key, shiftPressed, symPressed, i + 1)
  }

  /** The reverse lookup of the key's position. */
  function KeyPosition(maps: KeyMaps, key: byte, shiftPressed: bool, symPressed: bool): (p: int)
    requires MapsCover(maps)
    ensures -1 <= p < KEY_POSITIONS
  {
    KeyPositionFrom(maps, key, shiftPressed, symPressed, 0)
  }

  /** The modifier packet, if any, that goes ahead of the key: shift is
      considered first, and sym only when the shift packet is not sent. */
  function ModifierPackets(maps: KeyMaps, key: byte, shiftPressed: bool, symPressed: bool): seq<byte>
    requires MapsCover(maps)
  {
    var p := KeyPosition(maps, key, shiftPressed, symPressed);
    if p >= 0 && shiftPressed && ShouldSendModifier(maps, p, true, false) then KeyPacket(KEY_MODIFIER_SHIFT)
    else if p >= 0 && symPressed && ShouldSendModifier(maps, p, false, true) then KeyPacket(KEY_MODIFIER_SYM)
    else []
  }

  /** What the keyboard remembers between calls. */
  datatype KeyState = KeyState(lastKey: byte, lastKeyTime: bv32)

  /** The repeat rule: a key other than the last one, or the same key once
      more than 25 ms have passed (on the wrapping 32-bit millisecond clock). */
  predicate Due(s: KeyState, key: byte, now: bv32)
  {
    key != s.lastKey || Elapsed(now, s.lastKeyTime) > KEY_DEBOUNCE_MS
  }

  /** `millis() - lastKeyTime` on `unsigned long`: wraps modulo 2^32. */
  function Elapsed(now: bv32, since: bv32): bv32
  {
    now - since
  }

  /** One `readKeyboard` call: the new state and the bytes written. `now` is
      the clock read for the repeat rule and `sentAt` the clock read after
      sending. */
  function Step(s: KeyState, key: byte, modifierBits: byte, maps: KeyMaps, now: bv32, sentAt: bv32): (KeyState, seq<byte>)
    requires MapsCover(maps)
  {
    if key != 0 && ValidKey(key) then
      if Due(s, key, now) then
        var shiftPressed := modifierBits & 0x08 != 0;
        var symPressed := modifierBits & 0x10 != 0;
        (KeyState(key, sentAt), ModifierPackets(maps, key, shiftPressed, symPressed) + KeyPacket(key))
      else (s, [])
    else if key == 0 then (s.(lastKey := 0), [])
    else (s, [])
  }

  class SrxeKeyboard {
    var lastKey: byte
    var lastKeyTime: bv32
    /** Everything written to serial, in order. */
    var sent: seq<byte>

    constructor ()
      ensures lastKey == 0 && lastKeyTime == 0 && sent == []
    {
      lastKey := 0;
      lastKeyTime := 0;
      sent := [];
    }

    function Model(): KeyState
      reads this
    {
      KeyState(lastKey, lastKeyTime)
    }

    /** `isBadKey`: a search of the bad-key list. */
    method IsBadKey(key: byte) returns (bad: bool)
      ensures bad <==> BAD_KEYBOARD && key in BAD_KEYS
    {
      if !BAD_KEYBOARD {
        return false;
      }
      var i := 0;
      while i < |BAD_KEYS|
        invariant 0 <= i <= |BAD_KEYS|
        invariant forall j :: 0 <= j < i ==> BAD_KEYS[j] != key
      {
        if key == BAD_KEYS[i] {
          return true;
        }
        i := i + 1;
      }
      return false;
    }

    method IsValidKey(key: byte) returns (valid: bool)
      ensures valid == ValidKey(key)
    {
      var bad := IsBadKey(key);
      if bad {
        return false;
      }
      if key >= 32 && key <= 126 {
        return true;
      }
      if key == 0x09 {
        return true;
      }
      if key == 0x1B {
        return true;
      }
      if key == 0x0A {
        return true;
      }
      if key == 0x08 {
        return true;
      }
      if key >= 0xE0 && key <= 0xE3 {
        return true;
      }
      if key >= 0xF0 && key <= 0xF8 {
        return true;
      }
      return false;
    }

    /** The reverse lookup loop, stopping at the first position that matches. */
    method FindKeyPosition(maps: KeyMaps, key: byte, shiftPressed: bool, symPressed: bool) returns (keyPosition: int)
      requires MapsCover(maps)
      ensures keyPosition == KeyPosition(maps, key, shiftPressed, symPressed)
    {
      keyPosition := -1;
      var i := 0;
      while i < KEY_POSITIONS
        invariant 0 <= i <= KEY_POSITIONS
        invariant KeyPositionFrom(maps, key, shiftPressed, symPressed, i) == KeyPosition(maps, key, shiftPressed, symPressed)
      {
        if maps.original[i] == key || (shiftPressed && maps.shifted[i] == key) || (symPressed && maps.sym[i] == key) {
          keyPosition := i;
          break;
        }
        i := i + 1;
      }
    }

    method SendKeyPacket(key: byte)
      modifies this
      ensures sent == old(sent) + KeyPacket(key)
      ensures lastKey == old(lastKey) && lastKeyTime == old(lastKeyTime)
    {
      sent := sent + [KEY_START_MARKER, key, KEY_START_MARKER ^ key, KEY_END_MARKER];
    }

    /** The part of `readKeyboard` that writes: the modifier packet the key
        needs, if any, then the key packet. */
    method SendModifierAndKey(maps: KeyMaps, key: byte, shiftPressed: bool, symPressed: bool)
      requires MapsCover(maps)
      modifies this
      ensures sent == old(sent) + ModifierPackets(maps, key, shiftPressed, symPressed) + KeyPacket(key)
      ensures lastKey == old(lastKey) && lastKeyTime == old(lastKeyTime)
    {
      var keyPosition := FindKeyPosition(maps, key, shiftPressed, symPressed);
      if keyPosition >= 0 {
        if shiftPressed && ShouldSendModifier(maps, keyPosition, true, false) {
          SendKeyPacket(KEY_MODIFIER_SHIFT);
        } else if symPressed && ShouldSendModifier(maps, keyPosition, false, true) {
          SendKeyPacket(KEY_MODIFIER_SYM);
        }
      }
      SendKeyPacket(key);
    }

    method ReadKeyboard(key: byte, modifierBits: byte, maps: KeyMaps, now: bv32, sentAt: bv32)
      requires MapsCover(maps)
      modifies this
      ensures Model() == Step(old(Model()), key, modifierBits, maps, now, sentAt).0
      ensures sent == old(sent) + Step(old(Model()), key, modifierBits, maps, now, sentAt).1
    {
      ghost var s := Model();
      var valid := IsValidKey(key);
      if key != 0 && valid {
        if key != lastKey || Elapsed(now, lastKeyTime) > KEY_DEBOUNCE_MS {
          var shiftPressed := modifierBits & 0x08 != 0;
          var symPressed := modifierBits & 0x10 != 0;
          assert Step(s, key, modifierBits, maps, now, sentAt)
            == (KeyState(key, sentAt), ModifierPackets(maps, key, shiftPressed, symPressed) + KeyPacket(key));
          SendModifierAndKey(maps, key, shiftPressed, symPressed);
          lastKey := key;
          lastKeyTime := sentAt;
        } else {
          assert Step(s, key, modifierBits, maps, now, sentAt) == (s, []);
        }
      } else if key == 0 {
        assert Step(s, key, modifierBits, maps, now, sentAt) == (s.(lastKey := 0), []);
        lastKey := 0;
      } else {
        assert Step(s, key, modifierBits, maps, now, sentAt) == (s, []);
      }
    }
  }

  /** Every listed bad key is refused, whatever range it falls in. */
  lemma BadKeysRejected(key: byte)
    requires key in BAD_KEYS
    ensures !ValidKey(key)
  {
  }

  /** The keys accepted, written out: printable ASCII, backspace, tab,
      escape, the four arrows, and the three screen keys the bad-key list
      leaves (line feed and the other screen keys are refused as noise). */
  lemma ValidKeysExactly(key: byte)
    ensures ValidKey(key) <==>
      (32 <= key <= 126) || key == 0x08 || key == 0x09 || key == 0x1B
      || (0xE0 <= key <= 0xE3) || key == 0xF2 || key == 0xF4 || key == 0xF5
  {
  }

  /** Shift needs a packet of its own exactly where the shifted map repeats
      a non-zero original key; sym exactly where the sym map repeats it or
      has nothing. */
  lemma ShouldSendModifierExactly(maps: KeyMaps, p: nat)
    requires MapsCover(maps) && p < KEY_POSITIONS
    ensures ShouldSendModifier(maps, p, true, false) <==> maps.original[p] == maps.shifted[p] && maps.original[p] != 0
    ensures ShouldSendModifier(maps, p, false, true) <==>
      (maps.sym[p] == maps.original[p] || maps.sym[p] == 0) && maps.original[p] != 0
    ensures !ShouldSendModifier(maps, p, false, false)
  {
  }

  /** The lookup from `i` finds the first producing position at or after `i`. */
  lemma {:induction false} KeyPositionFromIsFirst(maps: KeyMaps, key: byte, shiftPressed: bool, symPressed: bool, i: nat)
    requires MapsCover(maps) && i <= KEY_POSITIONS
    ensures var p := KeyPositionFrom(maps, key, shiftPressed, symPressed, i);
      (p >= 0 ==> Produces(maps, p, key, shiftPressed, symPressed))
      && forall j :: i <= j < KEY_POSITIONS && (p == -1 || j < p) ==> !Produces(maps, j, key, shiftPressed, symPressed)
    decreases KEY_POSITIONS - i
  {
    if i < KEY_POSITIONS && !Produces(maps, i, key, shiftPressed, symPressed) {
      KeyPositionFromIsFirst(maps, key, shiftPressed, symPressed, i + 1);
    }
  }

  /** The reverse lookup gives the first position that could have produced
      the key, or -1 when none of the 60 could. */
  lemma KeyPositionIsFirst(maps: KeyMaps, key: byte, shiftPressed: bool, symPressed: bool)
    requires MapsCover(maps)
    ensures var p := KeyPosition(maps, key, shiftPressed, symPressed);
      (p >= 0 ==> Produces(maps, p, key, shiftPressed, symPressed)
                  && forall j :: 0 <= j < p ==> !Produces(maps, j, key, shiftPressed, symPressed))
      && (p == -1 <==> forall j :: 0 <= j < KEY_POSITIONS ==> !Produces(maps, j, key, shiftPressed, symPressed))
  {
    KeyPositionFromIsFirst(maps, key, shiftPressed, symPressed, 0);
  }

  /** A reported key goes out as its own key packet, preceded by at most one
      modifier packet; shift wins over sym when both would be sent. */
  lemma AtMostOneModifier(s: KeyState, key: byte, modifierBits: byte, maps: KeyMaps, now: bv32, sentAt: bv32)
    requires MapsCover(maps)
    ensures var out := Step(s, key, modifierBits, maps, now, sentAt).1;
      out == [] || out == KeyPacket(key)
      || out == KeyPacket(KEY_MODIFIER_SHIFT) + KeyPacket(key) || out == KeyPacket(KEY_MODIFIER_SYM) + KeyPacket(key)
    ensures var p := KeyPosition(maps, key, modifierBits & 0x08 != 0, modifierBits & 0x10 != 0);
      Step(s, key, modifierBits, maps, now, sentAt).1 != [] && modifierBits & 0x08 != 0
      && p >= 0 && ShouldSendModifier(maps, p, true, false)
      ==> Step(s, key, modifierBits, maps, now, sentAt).1 == KeyPacket(KEY_MODIFIER_SHIFT) + KeyPacket(key)
  {
  }

  /** Something is sent exactly for a valid non-zero key that is new or
      whose last send is more than 25 ms ago; then it becomes the last key,
      stamped with the send time. */
  lemma SendsExactlyWhenDue(s: KeyState, key: byte, modifierBits: byte, maps: KeyMaps, now: bv32, sentAt: bv32)
    requires MapsCover(maps)
    ensures Step(s, key, modifierBits, maps, now, sentAt).1 != [] <==> key != 0 && ValidKey(key) && Due(s, key, now)
    ensures Step(s, key, modifierBits, maps, now, sentAt).1 != [] ==>
      Step(s, key, modifierBits, maps, now, sentAt).0 == KeyState(key, sentAt)
    ensures Step(s, key, modifierBits, maps, now, sentAt).1 == [] ==>
      Step(s, key, modifierBits, maps, now, sentAt).0.lastKeyTime == s.lastKeyTime
  {
  }

  /** A held key is not sent again within 25 ms; releasing all keys (key 0)
      forgets the last key, so the next press is sent at once. */
  lemma RepeatRule(s: KeyState, key: byte, modifierBits: byte, maps: KeyMaps, now: bv32, later: bv32, sentAt: bv32)
    requires MapsCover(maps)
    ensures key == s.lastKey && Elapsed(now, s.lastKeyTime) <= KEY_DEBOUNCE_MS ==>
      Step(s, key, modifierBits, maps, now, sentAt) == (s, [])
    ensures Step(s, 0, modifierBits, maps, now, sentAt) == (s.(lastKey := 0), [])
    ensures key != 0 && ValidKey(key) ==>
      Step(Step(s, 0, modifierBits, maps, now, sentAt).0, key, modifierBits, maps, later, sentAt).1 != []
  {
  }

  /** The repeat rule measures time across the wrap of the millisecond
      counter: 32 ms after a send at 2^32 - 16 the key is due again. */
  lemma ElapsedAcrossWrap()
    ensures Elapsed(0x10, 0xFFFF_FFF0) == 32
    ensures Due(KeyState(0x61, 0xFFFF_FFF0), 0x61, 0x10)
    ensures !Due(KeyState(0x61, 0xFFFF_FFF0), 0x61, 0x08)
  {
  }
}
