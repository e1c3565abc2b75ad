/** Byte strings and the fixed-width integers the wire formats use. */
module Bytes {

  type byte = x: int | 0 <= x < 256

  type bytes = seq<byte>

  datatype Option<+T> = None | Some(value: T)

  /** `Buffer.alloc(n)`. */
  function Zeros(n: nat): (r: bytes)
    ensures |r| == n && forall i :: 0 <= i < n ==> r[i] == 0
  {
    seq(n, _ => 0)
  }

  function U16BE(v: int): bytes {
    var w := v % 0x1_0000;
    [w / 256, w % 256]
  }

  function U16LE(v: int): bytes {
    var w := v % 0x1_0000;
    [w % 256, w / 256]
  }

  function ReadU16BE(b: bytes, at: nat): nat
    requires at + 2 <= |b|
  {
    (b[at] as int) * 256 + b[at + 1]
  }

  function ReadU16LE(b: bytes, at: nat): nat
    requires at + 2 <= |b|
  {
    (b[at] as int) + (b[at + 1] as int) * 256
  }

  function ReadU32LE(b: bytes, at: nat): nat
    requires at + 4 <= |b|
  {
    ReadU16LE(b, at) + ReadU16LE(b, at + 2) * 0x1_0000
  }

  function U32BE(v: nat): bytes
    requires v < 0x1_0000_0000
  {
    U16BE(v / 0x1_0000) + U16BE(v % 0x1_0000)
  }

  function ReadU32BE(b: bytes, at: nat): nat
    requires at + 4 <= |b|
  {
    ReadU16BE(b, at) * 0x1_0000 + ReadU16BE(b, at + 2)
  }

  /** `readInt8`: two's complement of one byte. */
  function Int8(b: byte): int {
    if b < 128 then b else b - 256
  }

  lemma SliceAfterDrop<T>(s: seq<T>, cut: nat, i: nat, j: nat)
    requires cut + i <= cut + j <= |s|
    ensures s[cut..][i..j] == s[cut + i..cut + j]
  {
  }

  lemma DropAfterDrop<T>(s: seq<T>, cut: nat, i: nat)
    requires cut + i <= |s|
    ensures s[cut..][i..] == s[cut + i..]
  {
  }

  function Flatten<T>(parts: seq<seq<T>>): seq<T> {
    if parts == [] then [] else parts[0] + Flatten(parts[1..])
  }

  lemma {:induction false} FlattenAppend<T>(parts: seq<seq<T>>, last: seq<T>)
    ensures Flatten(parts + [last]) == Flatten(parts) + last
  {
    if parts == [] {
      assert parts + [last] == [last];
      assert Flatten([last]) == last + Flatten<T>([]);
    } else {
      assert (parts + [last])[1..] == parts[1..] + [last];
      FlattenAppend(parts[1..], last);
    }
  }
}
