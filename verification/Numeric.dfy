/** Printing the database's binary decimal numbers: base-10000 digits to decimal text. */
module Numeric {
  import opened Wrappers
  import opened Bytes

  // ── Decimal texts ─────────────────────────────────────────────────────────

  function Pow10(k: nat): (p: nat)
    ensures p > 0
  {
    if k == 0 then 1 else 10 * Pow10(k - 1)
  }

  function DigitValue(c: char): nat {
    if '0' <= c <= '9' then c as int - '0' as int else 0
  }

  predicate AllDigits(s: string) {
    forall i :: 0 <= i < |s| ==> '0' <= s[i] <= '9'
  }

  /** The number a string of digits denotes. */
  function ValueOf(s: string): nat {
    if s == [] then 0 else 10 * ValueOf(s[..|s| - 1]) + DigitValue(s[|s| - 1])
  }

  function Zeros(k: nat): (s: string)
    ensures |s| == k && AllDigits(s)
  {
    if k == 0 then [] else Zeros(k - 1) + ['0']
  }

  lemma {:induction false} DigitRoundTrip(c: char)
    requires '0' <= c <= '9'
    ensures DigitValue(c) < 10 && DigitChar(DigitValue(c)) == c
  {
  }

  lemma {:induction false} DigitCharIsDigit(d: nat)
    requires d < 10
    ensures '0' <= DigitChar(d) <= '9' && DigitValue(DigitChar(d)) == d
  {
  }

  function TrimZeros(s: string): string {
    if s != [] && s[0] == '0' then TrimZeros(s[1..]) else s
  }

  function OrZero(s: string): string {
    if s == [] then "0" else s
  }

  /** A whole number without superfluous zeros. */
  predicate Canonical(s: string) {
    s != [] && AllDigits(s) && (s[0] == '0' ==> |s| == 1)
  }

  /** Dropping leading zeros, all but one, keeps the number and makes it canonical, whatever follows. */
  lemma {:induction false} TrimKeeps(s: string, rest: string)
    requires AllDigits(s)
    ensures ValueOf(OrZero(TrimZeros(s)) + rest) == ValueOf(s + rest)
    ensures Canonical(OrZero(TrimZeros(s)))
    decreases |s|
  {
    if s == [] {
      ZeroBefore(rest);
      assert s + rest == rest;
    } else if s[0] == '0' {
      TrimKeeps(s[1..], rest);
      ZeroBefore(s[1..] + rest);
      assert s + rest == ['0'] + (s[1..] + rest);
    }
  }

  lemma {:induction false} LeadingZero(s: string)
    requires s != [] && s[0] == '0'
    ensures ValueOf(s) == ValueOf(s[1..])
    decreases |s|
  {
    if |s| > 1 {
      LeadingZero(s[..|s| - 1]);
      assert s[..|s| - 1][1..] == s[1..][..|s| - 2];
    }
  }

  // ── Shifting the point ────────────────────────────────────────────────────

  function Times10(v: nat, k: nat): nat {
    if k == 0 then v else 10 * Times10(v, k - 1)
  }

  lemma {:induction false} TimesPower(v: nat, k: nat)
    ensures Times10(v, k) == v * Pow10(k)
  {
    if k > 0 {
      TimesPower(v, k - 1);
      Factors(v, Pow10(k - 1));
    }
  }

  lemma {:induction false} Factors(x: nat, y: nat)
    ensures 10 * (x * y) == x * (10 * y)
  {
  }

  /** `w` is `v` times ten to the `e`, rounded towards zero when `e` is negative. */
  predicate IsShift(v: nat, e: int, w: nat) {
    if e >= 0 then w == Times10(v, e) else Times10(w, -e) <= v < Times10(w + 1, -e)
  }

  /** In ordinary arithmetic: a product with a power of ten, or a quotient without its remainder. */
  lemma {:induction false} ShiftMeans(v: nat, e: int, w: nat)
    ensures IsShift(v, e, w) <==>
            if e >= 0 then w == v * Pow10(e) else w * Pow10(-e) <= v < (w + 1) * Pow10(-e)
  {
    if e >= 0 {
      TimesPower(v, e);
    } else {
      TimesPower(w, -e);
      TimesPower(w + 1, -e);
    }
  }

  lemma {:induction false} ShiftedTwice(v: nat, k: nat, m: nat)
    ensures Times10(Times10(v, k), m) == Times10(v, k + m)
  {
    if m > 0 {
      ShiftedTwice(v, k, m - 1);
    }
  }

  /** A string of digits cut or extended at its end. */
  function Fitted(s: string, len: nat): (t: string)
    ensures |t| == len
    ensures AllDigits(s) ==> AllDigits(t)
  {
    if |s| > len then s[..len] else s + Zeros(len - |s|)
  }

  lemma {:induction false} CutDivides(s: string, len: nat)
    requires AllDigits(s) && len <= |s|
    ensures Times10(ValueOf(s[..len]), |s| - len) <= ValueOf(s) < Times10(ValueOf(s[..len]) + 1, |s| - len)
    decreases |s|
  {
    if len == |s| {
      assert s[..len] == s;
    } else {
      var init := s[..|s| - 1];
      CutDivides(init, len);
      assert init[..len] == s[..len];
      DigitRoundTrip(s[|s| - 1]);
    }
  }

  lemma {:induction false} OneMore(s: string, c: char)
    ensures ValueOf(s + [c]) == 10 * ValueOf(s) + DigitValue(c)
  {
    assert (s + [c])[..|s|] == s;
  }

  lemma {:induction false} ZerosShift(s: string, k: nat)
    ensures ValueOf(s + Zeros(k)) == Times10(ValueOf(s), k)
  {
    if k == 0 {
      assert s + Zeros(0) == s;
    } else {
      ZerosShift(s, k - 1);
      OneMore(s + Zeros(k - 1), '0');
      assert s + Zeros(k) == s + Zeros(k - 1) + ['0'];
    }
  }

  lemma {:induction false} LeadingZeros(s: string, k: nat)
    ensures ValueOf(Zeros(k) + s) == ValueOf(s)
    decreases |s|, k
  {
    if s != [] {
      LeadingZeros(s[..|s| - 1], k);
      assert (Zeros(k) + s)[..k + |s| - 1] == Zeros(k) + s[..|s| - 1];
    } else if k > 0 {
      LeadingZeros(s, k - 1);
      assert (Zeros(k) + s)[..k - 1] == Zeros(k - 1) + s;
    }
  }

  lemma {:induction false} CutShifts(s: string, len: nat)
    requires AllDigits(s) && |s| > len
    ensures IsShift(ValueOf(s), len - |s|, ValueOf(s[..len]))
  {
    CutDivides(s, len);
  }

  lemma {:induction false} ExtensionShifts(s: string, len: nat)
    requires |s| <= len
    ensures IsShift(ValueOf(s), len - |s|, ValueOf(s + Zeros(len - |s|)))
  {
    ZerosShift(s, len - |s|);
  }

  lemma {:induction false} FittedShifts(s: string, len: nat, t: string)
    requires AllDigits(s) && t == Fitted(s, len)
    ensures IsShift(ValueOf(s), len - |s|, ValueOf(t))
  {
    if |s| > len {
      CutShifts(s, len);
    } else {
      ExtensionShifts(s, len);
    }
  }

  lemma {:induction false} FourMore(s: string, t: string)
    requires |t| == 4
    ensures ValueOf(s + t) == 10000 * ValueOf(s) + ValueOf(t)
  {
    OneMore(s, t[0]);
    OneMore(s + [t[0]], t[1]);
    OneMore(s + [t[0]] + [t[1]], t[2]);
    OneMore(s + [t[0]] + [t[1]] + [t[2]], t[3]);
    assert s + t == s + [t[0]] + [t[1]] + [t[2]] + [t[3]];
    OneMore([], t[0]);
    OneMore([] + [t[0]], t[1]);
    OneMore([] + [t[0]] + [t[1]], t[2]);
    OneMore([] + [t[0]] + [t[1]] + [t[2]], t[3]);
    assert t == [] + [t[0]] + [t[1]] + [t[2]] + [t[3]];
  }

  // ── The binary layout ─────────────────────────────────────────────────────

  /** The digits, most significant first, as one number in base 10000. */
  function BaseDigits(ds: seq<int>): int {
    if ds == [] then 0 else 10000 * BaseDigits(ds[..|ds| - 1]) + ds[|ds| - 1]
  }

  function Word(raw: seq<byte>, off: nat): nat
    requires off + 2 <= |raw|
  {
    raw[off] as nat * 256 + raw[off + 1] as nat
  }

  function Int16(raw: seq<byte>, off: nat): int
    requires off + 2 <= |raw|
  {
    var w := Word(raw, off);
    if w < 0x8000 then w else w - 0x1_0000
  }

  predicate Header(raw: seq<byte>) {
    |raw| >= 8 && Int16(raw, 0) >= 0 && Int16(raw, 6) >= 0 && |raw| >= 8 + 2 * Int16(raw, 0)
  }

  function Digits(raw: seq<byte>): seq<int>
    requires Header(raw)
  {
    seq(Int16(raw, 0), i requires 0 <= i < Int16(raw, 0) => Int16(raw, 8 + 2 * i))
  }

  predicate DigitsInRange(ds: seq<int>) {
    forall i :: 0 <= i < |ds| ==> 0 <= ds[i] < 10000
  }

  /**
    A sign, a whole part without superfluous zeros and exactly `dscale` digits
    after the point, which together denote `v` times ten to the `e`.
   */
  ghost predicate Shows(text: string, negative: bool, v: nat, e: int, dscale: nat) {
    exists whole, frac ::
      && text == (if negative then "-" else "") + whole + (if dscale == 0 then "" else "." + frac)
      && ShowsParts(whole, frac, v, e, dscale)
  }

  predicate ShowsParts(whole: string, frac: string, v: nat, e: int, dscale: nat) {
    Canonical(whole) && AllDigits(frac) && |frac| == dscale && IsShift(v, e + dscale, ValueOf(whole + frac))
  }

  // ── What is shown is determined ───────────────────────────────────────────

  lemma {:induction false} SameDigits(s: string, t: string)
    requires AllDigits(s) && AllDigits(t) && |s| == |t| && ValueOf(s) == ValueOf(t)
    ensures s == t
  {
    if s != [] {
      var a, b := s[|s| - 1], t[|t| - 1];
      DigitRoundTrip(a);
      DigitRoundTrip(b);
      assert DigitValue(a) == DigitValue(b) && a == b;
      SameDigits(s[..|s| - 1], t[..|t| - 1]);
      assert s == s[..|s| - 1] + [a] && t == t[..|t| - 1] + [b];
    }
  }

  lemma {:induction false} Times10Grows(a: nat, b: nat, k: nat, m: nat)
    requires a <= b
    ensures Times10(a, k) <= Times10(b, k) <= Times10(b, k + m)
    decreases k + m, m
  {
    if m > 0 {
      Times10Grows(a, b, k, m - 1);
    } else if k > 0 {
      Times10Grows(a, b, k - 1, 0);
    }
  }

  /** The size of a number without leading zeros is known from its length. */
  lemma {:induction false} SizeOf(s: string)
    requires AllDigits(s)
    ensures ValueOf(s) < Times10(1, |s|)
    ensures s != [] && s[0] != '0' ==> ValueOf(s) >= Times10(1, |s| - 1)
  {
    if s != [] {
      SizeOf(s[..|s| - 1]);
      DigitRoundTrip(s[|s| - 1]);
    }
  }

  lemma {:induction false} ShiftedOnce(v: nat, e: int, w: nat, w': nat)
    requires IsShift(v, e, w) && IsShift(v, e, w')
    ensures w == w'
  {
    if e < 0 && w < w' {
      Times10Grows(w + 1, w', -e, 0);
    } else if e < 0 && w' < w {
      Times10Grows(w' + 1, w, -e, 0);
    }
  }

  lemma {:induction false} LongerIsLarger(s: string, t: string)
    requires AllDigits(s) && AllDigits(t) && |s| < |t| && t[0] != '0'
    ensures ValueOf(s) < ValueOf(t)
  {
    SizeOf(s);
    SizeOf(t);
    Times10Grows(1, 1, |s|, |t| - 1 - |s|);
  }

  lemma {:induction false} PartsOnce(whole: string, frac: string, whole': string, frac': string, v: nat, e: int,
      dscale: nat)
    requires ShowsParts(whole, frac, v, e, dscale) && ShowsParts(whole', frac', v, e, dscale)
    ensures whole == whole' && frac == frac'
  {
    ShiftedOnce(v, e + dscale, ValueOf(whole + frac), ValueOf(whole' + frac'));
    if |whole| < |whole'| {
      LongerIsLarger(whole + frac, whole' + frac');
    } else if |whole'| < |whole| {
      LongerIsLarger(whole' + frac', whole + frac);
    }
    SameDigits(whole + frac, whole' + frac');
    assert whole == (whole + frac)[..|whole|] && frac == (whole + frac)[|whole|..];
    assert whole' == (whole' + frac')[..|whole'|] && frac' == (whole' + frac')[|whole'|..];
  }

  /** A number has one text at each scale, so what is printed is the only text that shows the value. */
  lemma {:induction false} ShownOnce(text: string, text': string, negative: bool, v: nat, e: int, dscale: nat)
    requires Shows(text, negative, v, e, dscale) && Shows(text', negative, v, e, dscale)
    ensures text == text'
  {
    var whole, frac :|
      && text == (if negative then "-" else "") + whole + (if dscale == 0 then "" else "." + frac)
      && ShowsParts(whole, frac, v, e, dscale);
    var whole', frac' :|
      && text' == (if negative then "-" else "") + whole' + (if dscale == 0 then "" else "." + frac')
      && ShowsParts(whole', frac', v, e, dscale);
    PartsOnce(whole, frac, whole', frac', v, e, dscale);
  }

  // ── Printing ──────────────────────────────────────────────────────────────

  /** A digit in at least four places; a sign counts as one. */
  function FourPlaces(d: int): string {
    if d >= 0 then Zeros(4 - Min(4, |Decimal(d)|)) + Decimal(d)
    else "-" + Zeros(3 - Min(3, |Decimal(-d)|)) + Decimal(-d)
  }

  lemma {:induction false} DecimalDenotes(v: nat, k: nat)
    requires k > 0 && v < Pow10(k)
    ensures ValueOf(Decimal(v)) == v && AllDigits(Decimal(v)) && 0 < |Decimal(v)| <= k
    decreases v
  {
    DigitCharIsDigit(v % 10);
    var s := Decimal(v);
    if v >= 10 {
      assert Pow10(1) == 10 * Pow10(0);
      DecimalDenotes(v / 10, k - 1);
      assert s[..|s| - 1] == Decimal(v / 10);
    } else {
      assert ValueOf(s[..0]) == 0;
    }
  }

  lemma {:induction false} FourPlacesExact(d: int)
    requires 0 <= d < 10000
    ensures |FourPlaces(d)| == 4 && AllDigits(FourPlaces(d)) && ValueOf(FourPlaces(d)) == d
  {
    assert Pow10(4) == 10000;
    DecimalDenotes(d, 4);
    LeadingZeros(Decimal(d), 4 - |Decimal(d)|);
  }

  lemma {:induction false} FittedAtPoint(all: string, point: nat, dscale: nat, pre: string, frac: string)
    requires AllDigits(all) && point <= |all| && pre == all[..point] && frac == Fitted(all[point..], dscale)
    ensures pre + frac == Fitted(all, point + dscale) && AllDigits(pre) && AllDigits(frac)
  {
    if |all| > point + dscale {
      assert all[point..][..dscale] == all[point..point + dscale];
    } else {
      assert all == pre + all[point..];
    }
  }

  lemma {:induction false} TrimShows(pre: string, frac: string, v: nat, e: int)
    requires AllDigits(pre) && AllDigits(frac) && IsShift(v, e + |frac|, ValueOf(pre + frac))
    ensures ShowsParts(OrZero(TrimZeros(pre)), frac, v, e, |frac|)
  {
    TrimKeeps(pre, frac);
  }

  lemma {:induction false} FitShows(all: string, fit: string, point: nat, dscale: nat, pre: string, frac: string)
    requires AllDigits(all) && AllDigits(pre) && AllDigits(frac) && |frac| == dscale
    requires fit == Fitted(all, point + dscale) && fit == pre + frac
    ensures ShowsParts(OrZero(TrimZeros(pre)), frac, ValueOf(all), point - |all|, dscale)
  {
    FittedShifts(all, point + dscale, fit);
    TrimShows(pre, frac, ValueOf(all), point - |all|);
  }

  /** A string of digits cut at the point and fitted to the scale shows its number with the point there. */
  lemma {:induction false} CutAtPoint(all: string, point: nat, dscale: nat, pre: string, frac: string)
    requires AllDigits(all) && point <= |all| && pre == all[..point] && frac == Fitted(all[point..], dscale)
    ensures ShowsParts(OrZero(TrimZeros(pre)), frac, ValueOf(all), point - |all|, dscale)
  {
    FittedAtPoint(all, point, dscale, pre, frac);
    FitShows(all, Fitted(all, point + dscale), point, dscale, pre, frac);
  }

  lemma {:induction false} ZeroBefore(rest: string)
    ensures var all := ['0'] + rest;
            ValueOf(all) == ValueOf(rest) && all[..1] == "0" && all[1..] == rest && OrZero(TrimZeros("0")) == "0"
  {
    var all := ['0'] + rest;
    assert all[1..] == rest;
    LeadingZero(all);
    assert "0"[1..] == [];
    assert TrimZeros("0") == TrimZeros([]);
  }

  /** Three layouts: the point before the digits, behind them, or among them. */
  lemma {:induction false} LeadingLayout(digits: string, intChars: int, dscale: nat, rest: string)
    requires AllDigits(digits) && intChars <= 0 && rest == Zeros(-intChars) + digits
    ensures ShowsParts("0", Fitted(rest, dscale), ValueOf(digits), intChars - |digits|, dscale)
  {
    LeadingZeros(digits, -intChars);
    ZeroBefore(rest);
    CutAtPoint(['0'] + rest, 1, dscale, "0", Fitted(rest, dscale));
  }

  lemma {:induction false} TrailingLayout(digits: string, intChars: int, dscale: nat)
    requires AllDigits(digits) && intChars >= |digits|
    ensures ShowsParts(OrZero(TrimZeros(digits + Zeros(intChars - |digits|))), Fitted("", dscale),
                       ValueOf(digits), intChars - |digits|, dscale)
  {
    var all := digits + Zeros(intChars - |digits|);
    ZerosShift(digits, intChars - |digits|);
    assert all[..intChars] == all && all[intChars..] == "";
    CutAtPoint(all, intChars, dscale, all, Fitted("", dscale));
    ShiftedTwice(ValueOf(digits), intChars - |digits|, dscale);
  }

  /** The digits of the wire one after the other, four places each. */
  method DigitString(ds: seq<int>) returns (digits: string)
    ensures DigitsInRange(ds) ==>
              BaseDigits(ds) >= 0 && AllDigits(digits) && |digits| == 4 * |ds| && ValueOf(digits) == BaseDigits(ds)
  {
    digits := "";
    for i := 0 to |ds|
      invariant DigitsInRange(ds) ==>
                  && AllDigits(digits) && |digits| == 4 * i
                  && BaseDigits(ds[..i]) >= 0 && ValueOf(digits) == BaseDigits(ds[..i])
    {
      assert ds[..i + 1][..i] == ds[..i];
      if DigitsInRange(ds) {
        FourPlacesExact(ds[i]);
        FourMore(digits, FourPlaces(ds[i]));
      }
      digits := digits + FourPlaces(ds[i]);
    }
    assert ds[..|ds|] == ds;
  }

  /** The text before and after the point. */
  method Parts(digits: string, intChars: int, dscale: nat) returns (integer: string, frac: string)
    ensures AllDigits(digits) ==>
              ShowsParts(integer, frac, ValueOf(digits), intChars - |digits|, dscale)
  {
    if intChars <= 0 {
      integer, frac := "0", Zeros(-intChars) + digits;
    } else if intChars >= |digits| {
      integer, frac := TrimZeros(digits + Zeros(intChars - |digits|)), "";
    } else {
      integer, frac := TrimZeros(digits[..intChars]), digits[intChars..];
    }
    if integer == "" {
      integer := "0";
    }
    ghost var unfitted := frac;
    if |frac| > dscale {
      frac := frac[..dscale];
    } else if |frac| < dscale {
      frac := frac + Zeros(dscale - |frac|);
    }
    assert frac == Fitted(unfitted, dscale);
    if AllDigits(digits) {
      if intChars <= 0 {
        LeadingLayout(digits, intChars, dscale, unfitted);
      } else if intChars >= |digits| {
        TrailingLayout(digits, intChars, dscale);
      } else {
        CutAtPoint(digits, intChars, dscale, digits[..intChars], frac);
      }
    }
  }

  /**
    Exactly the well-formed values are printed, and what is printed is the
    sign times the sum of the digits' powers, cut to the display scale.
   */
  method PgNumericToString(raw: seq<byte>) returns (out: Option<string>)
    ensures out.Some? <==> Header(raw) && Word(raw, 4) in {0xC000, 0xD000, 0xF000, 0x0000, 0x4000}
    ensures out.Some? && Word(raw, 4) == 0xC000 ==> out.value == "NaN"
    ensures out.Some? && Word(raw, 4) == 0xD000 ==> out.value == "Infinity"
    ensures out.Some? && Word(raw, 4) == 0xF000 ==> out.value == "-Infinity"
    ensures out.Some? && Word(raw, 4) in {0x0000, 0x4000} && DigitsInRange(Digits(raw)) ==>
              && BaseDigits(Digits(raw)) >= 0
              && Shows(out.value, Word(raw, 4) == 0x4000, BaseDigits(Digits(raw)), 4 * (Int16(raw, 2) + 1 - Int16(raw, 0)), Int16(raw, 6))
  {
    if |raw| < 8 {
      return None;
    }
    var ndigits, weight, sign, dscale := Int16(raw, 0), Int16(raw, 2), Word(raw, 4), Int16(raw, 6);
    if ndigits < 0 || dscale < 0 || |raw| < 8 + 2 * ndigits {
      return None;
    }
    if sign == 0xC000 {
      return Some("NaN");
    } else if sign == 0xD000 {
      return Some("Infinity");
    } else if sign == 0xF000 {
      return Some("-Infinity");
    } else if sign != 0x0000 && sign != 0x4000 {
      return None;
    }
    var digits := DigitString(Digits(raw));
    var integer, frac := Parts(digits, (weight + 1) * 4, dscale);
    var text := "";
    if sign == 0x4000 {
      text := text + "-";
    }
    text := text + integer;
    if dscale > 0 {
      text := text + "." + frac;
    }
    out := Some(text);
    if DigitsInRange(Digits(raw)) {
      assert Shows(text, sign == 0x4000, BaseDigits(Digits(raw)), 4 * (weight + 1 - ndigits), dscale);
    }
  }
}
