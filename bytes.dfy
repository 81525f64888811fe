/** Byte-level helpers shared by the host and the device models: the XOR fold
    used by every checksum, 16-bit big-endian fields, and the bytes of ASCII
    literals. */
module Bytes {

  /** One octet on the wire. Checksums are XORs, so bytes are bit-vectors. */
  type byte = bv8

  /** An unsigned 16-bit value (`uint16_t`, Python's struct code `H`). */
  type uint16 = x: int | 0 <= x < 0x1_0000

  /** The XOR of all bytes of `s`, folded from the left starting at 0 (the way
      the `checksum ^= b` loops on both sides compute it). */
  function XorAll(s: seq<byte>): byte
  {
    if s == [] then 0 else XorAll(s[..|s| - 1]) ^ s[|s| - 1]
  }

  /** One more byte of a prefix XOR-ed in. */
  lemma XorAllStep(s: seq<byte>, i: nat)
    requires i < |s|
    ensures XorAll(s[..i + 1]) == XorAll(s[..i]) ^ s[i]
  {
    assert s[..i + 1][..i] == s[..i];
  }

  lemma {:induction false} XorAllAppend(s: seq<byte>, t: seq<byte>)
    ensures XorAll(s + t) == XorAll(s) ^ XorAll(t)
    decreases |t|
  {
    if t == [] {
      assert s + t == s;
    } else {
      var t' := t[..|t| - 1];
      assert (s + t)[..|s + t| - 1] == s + t';
      XorAllAppend(s, t');
    }
  }

  /** A byte value as an int (for lengths and positions). */
  function Val(b: byte): (n: nat)
    ensures n < 256
  {
    b as nat
  }

  /** The byte of an int in 0..255 (counted up from zero: the solver
      proves this far more cheaply than a direct conversion). */
  function B(n: int): (b: byte)
    requires 0 <= n < 256
    ensures Val(b) == n
    decreases n
  {
    if n == 0 then 0 else B(n - 1) + 1
  }

  /** `struct.pack('>H', n)`: high byte first. */
  function Uint16BE(n: uint16): (r: seq<byte>)
    ensures |r| == 2 && Val(r[0]) * 256 + Val(r[1]) == n
  {
    [B(n / 256), B(n % 256)]
  }

  /** The bytes of an ASCII literal. */
  function Ascii(s: string): (r: seq<byte>)
    requires forall i :: 0 <= i < |s| ==> s[i] as int < 128
    ensures |r| == |s|
    ensures forall i :: 0 <= i < |s| ==> Val(r[i]) == s[i] as int
  {
    seq(|s|, i requires 0 <= i < |s| => B(s[i] as int))
  }

  /** Concatenation is associative (stated once, so that callers need not
      prove sequence equality element by element). */
  lemma AppendAssoc<T>(a: seq<T>, b: seq<T>, c: seq<T>)
    ensures a + b + c == a + (b + c)
  {
  }

  /** Slicing a suffix is slicing the whole. */
  lemma SliceOfSlice<T>(s: seq<T>, a: nat, n: nat)
    requires a + n <= |s|
    ensures s[a..][..n] == s[a..a + n] && s[a..][n..] == s[a + n..]
  {
  }
}
