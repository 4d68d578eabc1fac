/** The bytes of the database's decimal numbers: a length, a weight, a sign, a scale, and digits in base 10000. */
module NumericMeaning {
  import opened Bytes
  import opened Numeric

  datatype PgNumeric = PgNumeric(weight: int, sign: nat, dscale: int, digits: seq<int>)

  predicate I16(x: int) { -0x8000 <= x < 0x8000 }

  function I16Bytes(x: int): (bs: seq<byte>)
    requires I16(x)
    ensures |bs| == 2
  {
    Widths();
    BigEndian(Unsigned(x, 2), 2)
  }

  /** What the wire has room for. */
  ghost predicate Fits(n: PgNumeric) {
    && I16(n.weight) && U16(n.sign) && 0 <= n.dscale && I16(n.dscale)
    && I16(|n.digits|) && forall i :: 0 <= i < |n.digits| ==> I16(n.digits[i])
  }

  function DigitBytes(ds: seq<int>): (bs: seq<byte>)
    requires forall i :: 0 <= i < |ds| ==> I16(ds[i])
    ensures |bs| == 2 * |ds|
  {
    if ds == [] then [] else DigitBytes(ds[..|ds| - 1]) + I16Bytes(ds[|ds| - 1])
  }

  function Encode(n: PgNumeric): seq<byte>
    requires Fits(n)
  {
    I16Bytes(|n.digits|) + I16Bytes(n.weight) + BigEndian(n.sign, 2) + I16Bytes(n.dscale) + DigitBytes(n.digits)
  }

  lemma {:induction false} WordExactly(raw: seq<byte>, off: nat, n: nat)
    requires off + 2 <= |raw|
    ensures Word(raw, off) == n <==> U16(n) && raw[off..off + 2] == BigEndian(n, 2)
  {
    var bs := raw[off..off + 2];
    Widths();
    assert bs[..1][..0] == [] && Uint(bs[..1]) == bs[0] as nat;
    assert Word(raw, off) == Uint(bs);
    BytesOfUint(bs);
    if U16(n) {
      UintOfBigEndian(n, 2);
    }
  }

  lemma {:induction false} Int16Exactly(raw: seq<byte>, off: nat, x: int)
    requires off + 2 <= |raw|
    ensures Int16(raw, off) == x <==> I16(x) && raw[off..off + 2] == I16Bytes(x)
  {
    Widths();
    var w := Word(raw, off);
    WordExactly(raw, off, w);
    assert Int16(raw, off) == Signed(w, 2);
    UnsignedOfSigned(w, 2);
    if I16(x) {
      SignedOfUnsigned(x, 2);
      WordExactly(raw, off, Unsigned(x, 2));
    }
  }

  lemma {:induction false} DigitAt(ds: seq<int>, i: nat)
    requires (forall j :: 0 <= j < |ds| ==> I16(ds[j])) && i < |ds|
    ensures DigitBytes(ds)[2 * i..2 * i + 2] == I16Bytes(ds[i])
    decreases |ds|
  {
    var init := ds[..|ds| - 1];
    if i < |init| {
      DigitAt(init, i);
      assert DigitBytes(ds)[2 * i..2 * i + 2] == DigitBytes(init)[2 * i..2 * i + 2];
    }
  }

  /** The fields of an encoded number are found where they are read. */
  lemma {:induction false} FieldsFound(n: PgNumeric, more: seq<byte>)
    requires Fits(n)
    ensures var raw := Encode(n) + more;
            && Header(raw) && Int16(raw, 0) == |n.digits| && Int16(raw, 2) == n.weight && Word(raw, 4) == n.sign
            && Int16(raw, 6) == n.dscale && Digits(raw) == n.digits
  {
    var raw := Encode(n) + more;
    assert raw[0..2] == I16Bytes(|n.digits|) && raw[2..4] == I16Bytes(n.weight);
    assert raw[4..6] == BigEndian(n.sign, 2) && raw[6..8] == I16Bytes(n.dscale);
    Int16Exactly(raw, 0, |n.digits|);
    Int16Exactly(raw, 2, n.weight);
    WordExactly(raw, 4, n.sign);
    Int16Exactly(raw, 6, n.dscale);
    forall i | 0 <= i < |n.digits| ensures Int16(raw, 8 + 2 * i) == n.digits[i] {
      DigitAt(n.digits, i);
      assert raw[8 + 2 * i..8 + 2 * i + 2] == DigitBytes(n.digits)[2 * i..2 * i + 2];
      Int16Exactly(raw, 8 + 2 * i, n.digits[i]);
    }
  }

  lemma {:induction false} DigitsWritten(raw: seq<byte>, k: nat)
    requires 8 + 2 * k <= |raw|
    ensures var ds := seq(k, i requires 0 <= i < k => Int16(raw, 8 + 2 * i));
            (forall i :: 0 <= i < k ==> I16(ds[i])) && DigitBytes(ds) == raw[8..8 + 2 * k]
  {
    var ds := seq(k, i requires 0 <= i < k => Int16(raw, 8 + 2 * i));
    if k > 0 {
      DigitsWritten(raw, k - 1);
      assert ds[..k - 1] == seq(k - 1, i requires 0 <= i < k - 1 => Int16(raw, 8 + 2 * i));
      Int16Exactly(raw, 8 + 2 * (k - 1), ds[k - 1]);
      assert raw[8..8 + 2 * k] == raw[8..8 + 2 * (k - 1)] + raw[8 + 2 * (k - 1)..8 + 2 * k];
    }
  }

  ghost predicate Begins(raw: seq<byte>, n: PgNumeric) {
    Fits(n) && Encode(n) <= raw
  }

  /** Bytes are read as a number exactly when they begin with one, and then as that one. */
  lemma {:induction false} HeaderExactly(raw: seq<byte>)
    ensures Header(raw) <==> exists n :: Begins(raw, n)
    ensures forall n :: Begins(raw, n) ==>
              Int16(raw, 2) == n.weight && Word(raw, 4) == n.sign && Int16(raw, 6) == n.dscale && Digits(raw) == n.digits
  {
    forall n | Begins(raw, n)
      ensures Header(raw) && Int16(raw, 2) == n.weight && Word(raw, 4) == n.sign
      ensures Int16(raw, 6) == n.dscale && Digits(raw) == n.digits
    {
      FieldsFound(n, raw[|Encode(n)|..]);
      assert Encode(n) + raw[|Encode(n)|..] == raw;
    }
    if Header(raw) {
      HeaderWritten(raw);
    }
  }

  lemma {:induction false} FiveParts(raw: seq<byte>, k: nat)
    requires 8 + 2 * k <= |raw|
    ensures raw[0..2] + raw[2..4] + raw[4..6] + raw[6..8] + raw[8..8 + 2 * k] == raw[..8 + 2 * k]
  {
  }

  lemma {:induction false} HeaderWritten(raw: seq<byte>)
    requires Header(raw)
    ensures Begins(raw, PgNumeric(Int16(raw, 2), Word(raw, 4), Int16(raw, 6), Digits(raw)))
  {
    var ds := Digits(raw);
    var n := PgNumeric(Int16(raw, 2), Word(raw, 4), Int16(raw, 6), ds);
    DigitsWritten(raw, |ds|);
    assert ds == seq(|ds|, i requires 0 <= i < |ds| => Int16(raw, 8 + 2 * i));
    Int16Exactly(raw, 0, |ds|);
    Int16Exactly(raw, 2, n.weight);
    WordExactly(raw, 4, n.sign);
    Int16Exactly(raw, 6, n.dscale);
    FiveParts(raw, |ds|);
    assert Encode(n) == raw[..8 + 2 * |ds|];
  }

  /** Each digit counts ten thousand times the next. */
  lemma {:induction false} BaseDigitsMeans(d: int, ds: seq<int>)
    ensures BaseDigits([]) == 0 && BaseDigits([d] + ds) == d * Pow10(4 * |ds|) + BaseDigits(ds)
  {
    if ds == [] {
      assert [d] + ds == [d] && [d][..0] == [];
    } else {
      var init, last := ds[..|ds| - 1], ds[|ds| - 1];
      BaseDigitsMeans(d, init);
      assert ([d] + ds)[..|ds|] == [d] + init;
      FourTens(4 * |init|);
      Moved(d, Pow10(4 * |init|));
    }
  }

  lemma {:induction false} FourTens(k: nat)
    ensures Pow10(k + 4) == 10000 * Pow10(k)
  {
    assert Pow10(k + 2) == 100 * Pow10(k);
  }

  lemma {:induction false} Moved(d: int, p: nat)
    ensures 10000 * (d * p) == d * (10000 * p)
  {
  }
}
