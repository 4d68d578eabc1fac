/** Bytes, big-endian integers and the text encoding of the wire. */
module Bytes {
  import opened Wrappers

  newtype byte = x: int | 0 <= x < 256

  function Tag(c: char): byte
    requires c < '\U{80}'
  {
    c as int as byte
  }

  /**
    UTF-8, left opaque: `strict` is `str::from_utf8`, `lossy` is
    `String::from_utf8_lossy`, and `encode` gives the bytes of a string.
   */
  datatype Codec = Codec(
    strict: seq<byte> -> Option<string>,
    lossy: seq<byte> -> string,
    encode: string -> seq<byte>)

  ghost predicate CodecOk(c: Codec) {
    forall s {:trigger c.encode(s)} :: c.strict(c.encode(s)) == Some(s) && c.lossy(c.encode(s)) == s
  }

  function Pow256(w: nat): (p: nat)
    ensures p > 0
  {
    if w == 0 then 1 else 256 * Pow256(w - 1)
  }

  /** The unsigned big-endian reading of `bs`. */
  function Uint(bs: seq<byte>): (n: nat) {
    if bs == [] then 0 else 256 * Uint(bs[..|bs| - 1]) + bs[|bs| - 1] as nat
  }

  /** The `w` low-order bytes of `n`, most significant first. */
  function BigEndian(n: nat, w: nat): (bs: seq<byte>)
    ensures |bs| == w
  {
    if w == 0 then [] else BigEndian(n / 256, w - 1) + [(n % 256) as byte]
  }

  lemma {:induction false} UintOfBigEndian(n: nat, w: nat)
    requires n < Pow256(w)
    ensures Uint(BigEndian(n, w)) == n
  {
    if w > 0 {
      UintOfBigEndian(n / 256, w - 1);
      var bs := BigEndian(n, w);
      assert bs[..w - 1] == BigEndian(n / 256, w - 1);
    }
  }

  /** Two's complement over `w` bytes. */
  function Signed(n: nat, w: nat): int
    requires w > 0
  {
    if n < 128 * Pow256(w - 1) then n else n - Pow256(w)
  }

  predicate FitsSigned(x: int, w: nat)
    requires w > 0
  {
    -128 * Pow256(w - 1) <= x < 128 * Pow256(w - 1)
  }

  function Unsigned(x: int, w: nat): nat
    requires w > 0 && FitsSigned(x, w)
  {
    if x < 0 then x + Pow256(w) else x
  }

  lemma {:induction false} SignedOfUnsigned(x: int, w: nat)
    requires w > 0 && FitsSigned(x, w)
    ensures Unsigned(x, w) < Pow256(w) && Signed(Unsigned(x, w), w) == x
  {
  }

  lemma {:induction false} UintBelow(bs: seq<byte>)
    ensures Uint(bs) < Pow256(|bs|)
  {
    if bs != [] {
      UintBelow(bs[..|bs| - 1]);
    }
  }

  /** The bytes of a number are those it was read from. */
  lemma {:induction false} BytesOfUint(bs: seq<byte>)
    ensures Uint(bs) < Pow256(|bs|) && BigEndian(Uint(bs), |bs|) == bs
  {
    UintBelow(bs);
    if bs != [] {
      var init := bs[..|bs| - 1];
      BytesOfUint(init);
      assert Uint(bs) / 256 == Uint(init) && Uint(bs) % 256 == bs[|bs| - 1] as nat;
      assert bs == init + [bs[|bs| - 1]];
    }
  }

  lemma {:induction false} UnsignedOfSigned(n: nat, w: nat)
    requires w > 0 && n < Pow256(w)
    ensures FitsSigned(Signed(n, w), w) && Unsigned(Signed(n, w), w) == n
  {
    assert Pow256(w) == 256 * Pow256(w - 1);
  }

  lemma {:induction false} Widths()
    ensures Pow256(1) == 0x100 && Pow256(2) == 0x1_0000 && Pow256(3) == 0x100_0000
    ensures Pow256(4) == 0x1_0000_0000 && Pow256(7) == 0x100_0000_0000_0000
    ensures Pow256(8) == 0x1_0000_0000_0000_0000
  {
    assert Pow256(5) == 0x100_0000_0000;
    assert Pow256(6) == 0x1_0000_0000_0000;
  }

  predicate U16(n: nat) { n < 0x1_0000 }
  predicate U32(n: nat) { n < 0x1_0000_0000 }
  predicate U64(n: nat) { n < 0x1_0000_0000_0000_0000 }
  predicate I32(x: int) { -0x8000_0000 <= x < 0x8000_0000 }
  predicate I64(x: int) { -0x8000_0000_0000_0000 <= x < 0x8000_0000_0000_0000 }

  function I32Bytes(x: int): seq<byte>
    requires I32(x)
  {
    Widths();
    BigEndian(Unsigned(x, 4), 4)
  }

  function I64Bytes(x: int): seq<byte>
    requires I64(x)
  {
    Widths();
    BigEndian(Unsigned(x, 8), 8)
  }

  lemma {:induction false} Assoc<T>(a: seq<T>, b: seq<T>, c: seq<T>)
    ensures a + b + c == a + (b + c)
  {
  }

  function HexDigit(n: nat): char
    requires n < 16
  {
    "0123456789abcdef"[n]
  }

  function Hex(bs: seq<byte>): string {
    if bs == [] then ""
    else [HexDigit(bs[0] as nat / 16), HexDigit(bs[0] as nat % 16)] + Hex(bs[1..])
  }

  function DigitChar(d: nat): char
    requires d < 10
  {
    ['0', '1', '2', '3', '4', '5', '6', '7', '8', '9'][d]
  }

  /** A number in decimal, without superfluous zeros. */
  function Decimal(v: nat): string {
    if v < 10 then [DigitChar(v)] else Decimal(v / 10) + [DigitChar(v % 10)]
  }
}
