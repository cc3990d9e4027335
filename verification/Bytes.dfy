/** Machine integers, fixed-width encodings and byte-string helpers shared by every module. */
module Bytes {
  type Byte = x: int | 0 <= x < 0x100
  type U16 = x: int | 0 <= x < 0x1_0000
  type U32 = x: int | 0 <= x < 0x1_0000_0000
  type Data = seq<Byte>
  type Mac = m: Data | |m| == 6 witness [0, 0, 0, 0, 0, 0]

  datatype Option<+T> = None | Some(value: T)

  datatype Result<+T, +E> = Ok(value: T) | Err(error: E)

  // ---------------------------------------------------------------- integers

  function Le16(v: U16): Data { [v % 0x100, v / 0x100] }

  function Le32(v: U32): Data { Le16(v % 0x1_0000) + Le16(v / 0x1_0000) }

  function Be16(v: U16): Data { [v / 0x100, v % 0x100] }

  function FromLe16(lo: Byte, hi: Byte): U16 { lo + 0x100 * hi }

  function FromLe32(b0: Byte, b1: Byte, b2: Byte, b3: Byte): U32 {
    FromLe16(b0, b1) + 0x1_0000 * FromLe16(b2, b3)
  }

  function FromBe16(hi: Byte, lo: Byte): U16 { 0x100 * hi + lo }

  lemma Le32RoundTrip(v: U32)
    ensures var b := Le32(v); FromLe32(b[0], b[1], b[2], b[3]) == v
  {
  }

  // ------------------------------------------------------------ byte strings

  function Zeros(n: nat): (z: Data)
    ensures |z| == n && forall i | 0 <= i < n :: z[i] == 0
  {
    seq(n, _ => 0)
  }

  /** At most the newest n elements. */
  function Newest<T>(all: seq<T>, n: nat): seq<T> {
    if |all| <= n then all else all[|all| - n..]
  }

  lemma Associates<T>(a: seq<T>, b: seq<T>, c: seq<T>)
    ensures a + b + c == a + (b + c)
  {
  }

  /** The concatenation of a list of sequences, in order. */
  function Flatten<T>(parts: seq<seq<T>>): seq<T> {
    if parts == [] then [] else parts[0] + Flatten(parts[1..])
  }

  lemma {:induction false} FlattenAppend<T>(a: seq<seq<T>>, b: seq<seq<T>>)
    ensures Flatten(a + b) == Flatten(a) + Flatten(b)
  {
    if a == [] {
      assert a + b == b;
    } else {
      FlattenAppend(a[1..], b);
      assert (a + b)[1..] == a[1..] + b;
      Associates(a[0], Flatten(a[1..]), Flatten(b));
    }
  }

  lemma FlattenAt<T>(parts: seq<seq<T>>, i: nat)
    requires i < |parts|
    ensures Flatten(parts) == Flatten(parts[..i]) + (parts[i] + Flatten(parts[i + 1..]))
  {
    var tail := parts[i..];
    FlattenAppend(parts[..i], tail);
    assert parts == parts[..i] + tail;
    assert tail[0] == parts[i] && tail[1..] == parts[i + 1..];
  }

  lemma FlattenSnoc<T>(a: seq<seq<T>>, x: seq<T>)
    ensures Flatten(a + [x]) == Flatten(a) + x
  {
    FlattenAppend(a, [x]);
    assert Flatten([x]) == x + Flatten<T>([]);
  }
}
