/** Label text for one channel value: the `%d` conversion of ISO C11
    (section 7.21.6.1) for integer elements, with every integer type except
    `uint8` first narrowed to `short`, and the precision rules for floats.
    The `%f` and `%e` renderings themselves are parameters. */
module Format {
  import Atlas

  type uint8 = x: int | 0 <= x < 0x100
  type int16 = x: int | -0x8000 <= x < 0x8000
  type uint16 = x: int | 0 <= x < 0x1_0000
  type int32 = x: int | -0x8000_0000 <= x < 0x8000_0000
  type uint32 = x: int | 0 <= x < 0x1_0000_0000

  /** An IEEE-754 single kept as its bit pattern; the model never interprets it. */
  datatype Float32 = Float32(bits: bv32)

  /** One decoded channel value, tagged with the buffer's element type. */
  datatype Element =
    | F32(f: Float32)
    | U8(b: uint8)
    | I16(s: int16)
    | U16(u: uint16)
    | I32(i: int32)
    | U32(w: uint32)

  /** The C library's renderings of a float: `%.3f`, `%.4f` and `%.2e`. */
  datatype FloatFormatters = FloatFormatters(fixed3: Float32 -> string,
                                             fixed4: Float32 -> string,
                                             scientific2: Float32 -> string)

  /** Longest `%.3f` rendering a single-channel label keeps. */
  const MaxFixedLength: nat := 7

  /** Characters `%d` can print. */
  const IntegerChars: set<char> := {'0', '1', '2', '3', '4', '5', '6', '7', '8', '9', '-'}

  /** Characters the `%f` and `%e` conversions of the C library print for a
      float: digits, the point, both signs, the exponent letter, and the
      letters of "inf" and "nan". */
  const FloatChars: set<char> := IntegerChars + {'.', '+', 'e', 'i', 'n', 'f', 'a'}

  predicate IsDigit(ch: char)
  {
    '0' <= ch <= '9'
  }

  predicate AllIn(s: string, chars: set<char>)
  {
    forall i :: 0 <= i < |s| ==> s[i] in chars
  }

  /** The float renderings draw only on the characters listed above. */
  ghost predicate PrintfCharset(fmt: FloatFormatters)
  {
    forall f: Float32 ::
      && AllIn(fmt.fixed3(f), FloatChars)
      && AllIn(fmt.fixed4(f), FloatChars)
      && AllIn(fmt.scientific2(f), FloatChars)
  }

  function DigitChar(d: nat): (ch: char)
    requires d < 10
    ensures IsDigit(ch) && ch as int - '0' as int == d
  {
    ('0' as int + d) as char
  }

  /** Decimal digits of `n`, most significant first, without leading zeros. */
  function NatToDecimal(n: nat): (s: string)
    ensures 1 <= |s|
    ensures forall i :: 0 <= i < |s| ==> IsDigit(s[i])
    ensures s[0] == '0' ==> n == 0
  {
    if n < 10 then [DigitChar(n)] else NatToDecimal(n / 10) + [DigitChar(n % 10)]
  }

  /** `%d`: an optional minus sign followed by the digits of the magnitude. */
  function IntToDecimal(n: int): string
  {
    if n < 0 then "-" + NatToDecimal(-n) else NatToDecimal(n)
  }

  function DigitValue(ch: char): (d: nat)
    requires IsDigit(ch)
    ensures d < 10
  {
    ch as int - '0' as int
  }

  /** The value a string of decimal digits denotes. */
  function DigitsValue(s: string): nat
    requires forall i :: 0 <= i < |s| ==> IsDigit(s[i])
  {
    if |s| == 0 then 0
    else 10 * DigitsValue(s[..|s| - 1]) + DigitValue(s[|s| - 1])
  }

  /** The digits after an optional leading minus sign. */
  function Magnitude(s: string): string
  {
    if |s| > 0 && s[0] == '-' then s[1..] else s
  }

  /** Strings `%d` can print: digits without a leading zero, possibly after a minus sign. */
  predicate IsIntegerText(s: string)
  {
    var digits := Magnitude(s);
    && 1 <= |digits|
    && (forall i :: 0 <= i < |digits| ==> IsDigit(digits[i]))
    && (digits[0] == '0' ==> |digits| == 1 && digits == s)
  }

  /** Reads back what `%d` printed. */
  function ParseInteger(s: string): int
    requires IsIntegerText(s)
  {
    var v: int := DigitsValue(Magnitude(s));
    if s[0] == '-' then -v else v
  }

  lemma {:induction false} NatToDecimalRoundTrip(n: nat)
    ensures DigitsValue(NatToDecimal(n)) == n
  {
    if n >= 10 {
      var s := NatToDecimal(n);
      assert s[..|s| - 1] == NatToDecimal(n / 10);
      NatToDecimalRoundTrip(n / 10);
    }
  }

  /** `%d` output reads back as the printed integer. */
  lemma IntToDecimalRoundTrip(n: int)
    ensures IsIntegerText(IntToDecimal(n))
    ensures ParseInteger(IntToDecimal(n)) == n
  {
    var s := IntToDecimal(n);
    if n < 0 {
      var digits := NatToDecimal(-n);
      assert s[0] == '-' && s[1..] == digits;
      assert Magnitude(s) == digits;
      assert digits[0] != '0';
      NatToDecimalRoundTrip(-n);
    } else {
      var digits := NatToDecimal(n);
      assert IsDigit(digits[0]);
      assert s == digits && Magnitude(s) == digits;
      NatToDecimalRoundTrip(n);
    }
  }

  function Pow10(k: nat): nat
  {
    if k == 0 then 1 else 10 * Pow10(k - 1)
  }

  /** Numbers below 10^k take at most k digits. */
  lemma {:induction false} NatToDecimalLength(n: nat, k: nat)
    requires 1 <= k && n < Pow10(k)
    ensures |NatToDecimal(n)| <= k
    decreases k
  {
    if n >= 10 {
      assert k >= 2;
      NatToDecimalLength(n / 10, k - 1);
    }
  }

  /** Conversion of an integer to `short`: the value modulo 2^16, brought
      into [-32768, 32767]. */
  function ToShort(v: int): (r: int16)
    ensures (v - r) % 0x1_0000 == 0
    ensures -0x8000 <= v < 0x8000 ==> r == v
  {
    (v + 0x8000) % 0x1_0000 - 0x8000
  }

  /** Only one `short` is congruent to `v` modulo 2^16. */
  lemma ToShortUnique(v: int, r: int)
    requires -0x8000 <= r < 0x8000 && (v - r) % 0x1_0000 == 0
    ensures r == ToShort(v)
  {
    var q := (v - r) / 0x1_0000;
    assert v - r == 0x1_0000 * q;
    var q' := (v - ToShort(v)) / 0x1_0000;
    assert v - ToShort(v) == 0x1_0000 * q';
    assert r - ToShort(v) == 0x1_0000 * (q' - q);
  }

  /** The integer each type's branch hands to `%d`: a `uint8` is promoted as
      is, every other integer type is first stored into a `short`. */
  function PrintedInteger(e: Element): (v: int)
    requires !e.F32?
    ensures e.U8? ==> v == e.b
    ensures e.I16? ==> v == e.s
    ensures !e.U8? ==> -0x8000 <= v < 0x8000
    ensures e.U16? ==> (e.u - v) % 0x1_0000 == 0 && (e.u < 0x8000 <==> v == e.u)
    ensures e.I32? ==> (e.i - v) % 0x1_0000 == 0
    ensures e.U32? ==> (e.w - v) % 0x1_0000 == 0
  {
    match e
    case U8(b) => b
    case I16(s) => ToShort(s)
    case U16(u) => ToShort(u)
    case I32(i) => ToShort(i)
    case U32(w) => ToShort(w)
  }

  /** Shape of `%d` output: its characters, and its length for the ranges
      a label meets. */
  lemma IntToDecimalShape(n: int)
    ensures AllIn(IntToDecimal(n), IntegerChars)
    ensures 0 <= n < 1000 ==> |IntToDecimal(n)| <= 3
    ensures -100000 < n < 100000 ==> |IntToDecimal(n)| <= 6
  {
    var s := IntToDecimal(n);
    var m := if n < 0 then -n else n;
    assert Pow10(3) == 1000 && Pow10(5) == 100000;
    if m < 1000 {
      NatToDecimalLength(m, 3);
    }
    if m < 100000 {
      NatToDecimalLength(m, 5);
    }
    forall i | 0 <= i < |s|
      ensures s[i] in IntegerChars
    {
      if n >= 0 || i > 0 {
        assert IsDigit(s[i]);
      }
    }
  }

  /** The label of an integer element. */
  function IntegerLabel(e: Element): (s: string)
    requires !e.F32?
    ensures AllIn(s, IntegerChars)
    ensures IsIntegerText(s) && ParseInteger(s) == PrintedInteger(e)
    ensures 1 <= |s| <= 6
    ensures e.U8? ==> |s| <= 3
  {
    var v := PrintedInteger(e);
    IntToDecimalRoundTrip(v);
    IntToDecimalShape(v);
    IntToDecimal(v)
  }

  /** Single-channel float rule: `%.3f`, replaced by `%.2e` when longer
      than seven characters. */
  function SingleChannelFloatLabel(fmt: FloatFormatters, f: Float32): (s: string)
    ensures s == fmt.fixed3(f) || s == fmt.scientific2(f)
    ensures |fmt.fixed3(f)| <= MaxFixedLength ==> s == fmt.fixed3(f)
    ensures |s| <= MaxFixedLength || s == fmt.scientific2(f)
  {
    var fixed := fmt.fixed3(f);
    if |fixed| > MaxFixedLength then fmt.scientific2(f) else fixed
  }

  /** Label text of one channel value. A float in a multi-channel buffer is
      always printed with four decimals, with no fallback. */
  function LabelText(e: Element, singleChannel: bool, fmt: FloatFormatters): (s: string)
    ensures e.F32? && singleChannel ==> s == SingleChannelFloatLabel(fmt, e.f)
    ensures e.F32? && !singleChannel ==> s == fmt.fixed4(e.f)
    ensures !e.F32? ==> s == IntegerLabel(e)
  {
    match e
    case F32(f) => if singleChannel then SingleChannelFloatLabel(fmt, f) else fmt.fixed4(f)
    case _ => IntegerLabel(e)
  }

  /** Integer labels only use characters the atlas holds. */
  lemma IntegerLabelInAlphabet(e: Element)
    requires !e.F32?
    ensures forall i :: 0 <= i < |IntegerLabel(e)| ==> IntegerLabel(e)[i] in Atlas.Alphabet
  {
    var s := IntegerLabel(e);
    forall i | 0 <= i < |s|
      ensures s[i] in Atlas.Alphabet
    {
      IntegerCharInAlphabet(s[i]);
    }
  }

  lemma IntegerCharInAlphabet(ch: char)
    requires ch in IntegerChars
    ensures ch in Atlas.Alphabet
  {
    var a := Atlas.Alphabet;
    assert a[0] == '0' && a[1] == '1' && a[2] == '2' && a[3] == '3' && a[4] == '4';
    assert a[5] == '5' && a[6] == '6' && a[7] == '7' && a[8] == '8' && a[9] == '9';
    assert a[13] == '-';
  }

  lemma FloatCharInCorrectedAlphabet(ch: char)
    requires ch in FloatChars
    ensures ch in Atlas.CorrectedAlphabet
  {
    var a := Atlas.CorrectedAlphabet;
    assert a[0] == '0' && a[1] == '1' && a[2] == '2' && a[3] == '3' && a[4] == '4';
    assert a[5] == '5' && a[6] == '6' && a[7] == '7' && a[8] == '8' && a[9] == '9';
    assert a[10] == '.' && a[13] == '-' && a[14] == 'e' && a[15] == 'n' && a[16] == 'a';
    assert a[18] == 'i' && a[20] == 'f' && a[21] == '+';
  }

  /** With the exponent sign added to the atlas, every label of every
      element type and channel layout is drawn from the atlas characters. */
  lemma LabelInCorrectedAlphabet(e: Element, singleChannel: bool, fmt: FloatFormatters)
    requires PrintfCharset(fmt)
    ensures forall i :: 0 <= i < |LabelText(e, singleChannel, fmt)| ==>
              LabelText(e, singleChannel, fmt)[i] in Atlas.CorrectedAlphabet
  {
    var s := LabelText(e, singleChannel, fmt);
    assert AllIn(s, FloatChars);
    forall i | 0 <= i < |s|
      ensures s[i] in Atlas.CorrectedAlphabet
    {
      FloatCharInCorrectedAlphabet(s[i]);
    }
  }

  /** As written the atlas lacks '+': the single-channel float 1234.5678
      renders as "1234.568" under `%.3f` (eight characters), falls back to
      "1.23e+03" under `%.2e`, and that label holds a character with no
      glyph. */
  lemma ScientificFallbackLeavesAlphabet()
    ensures var fmt := FloatFormatters(_ => "1234.568", _ => "1234.5677", _ => "1.23e+03");
            var s := SingleChannelFloatLabel(fmt, Float32(0x449A_522B));
            && PrintfCharset(fmt)
            && s == "1.23e+03"
            && s[5] == '+' && s[5] !in Atlas.Alphabet
  {
    var fmt := FloatFormatters(_ => "1234.568", _ => "1234.5677", _ => "1.23e+03");
    assert |fmt.fixed3(Float32(0x449A_522B))| == 8;
    assert AllIn("1234.568", FloatChars);
    assert AllIn("1234.5677", FloatChars);
    assert AllIn("1.23e+03", FloatChars);
    assert forall i :: 0 <= i < |Atlas.Alphabet| ==> Atlas.Alphabet[i] != '+';
  }

  /** Size of the label buffer `draw` formats into, terminating NUL included. */
  const LabelBufferSize: nat := 30

  /** Most integer digits `%f` prints for a finite float: the largest one,
      about 3.4 * 10^38, is below 10^39. */
  const MaxFloatIntegerDigits: nat := 39

  /** A buffer of `size` bytes holds `s` and its terminating NUL. */
  predicate FitsIn(s: string, size: nat)
  {
    |s| + 1 <= size
  }

  /** Lengths of the C library's float renderings: an optional sign, at
      most 39 integer digits, the point and the requested decimals; `%.2e`
      prints at most "-d.dde+dd". Infinities and NaNs are shorter. */
  ghost predicate PrintfWidths(fmt: FloatFormatters)
  {
    forall f: Float32 ::
      && |fmt.fixed3(f)| <= 1 + MaxFloatIntegerDigits + 1 + 3
      && |fmt.fixed4(f)| <= 1 + MaxFloatIntegerDigits + 1 + 4
      && |fmt.scientific2(f)| <= 9
  }

  /** Every text `sprintf` writes into the label buffer for one value, in
      order: a single-channel float is first printed with `%.3f`, and only
      then measured and, if too long, printed again with `%.2e`. */
  function WrittenTexts(e: Element, singleChannel: bool, fmt: FloatFormatters): (w: seq<string>)
    ensures 1 <= |w| <= 2 && w[|w| - 1] == LabelText(e, singleChannel, fmt)
    ensures e.F32? && singleChannel ==> w[0] == fmt.fixed3(e.f)
    ensures e.F32? && !singleChannel ==> w == [fmt.fixed4(e.f)]
    ensures !e.F32? ==> w == [IntegerLabel(e)]
  {
    match e
    case F32(f) =>
      if !singleChannel then [fmt.fixed4(f)]
      else if |fmt.fixed3(f)| > MaxFixedLength then [fmt.fixed3(f), fmt.scientific2(f)]
      else [fmt.fixed3(f)]
    case _ => [IntegerLabel(e)]
  }

  /** Every write for this value stays inside a buffer of `size` bytes. */
  predicate WritesFit(e: Element, singleChannel: bool, fmt: FloatFormatters, size: nat)
  {
    forall i :: 0 <= i < |WrittenTexts(e, singleChannel, fmt)| ==> FitsIn(WrittenTexts(e, singleChannel, fmt)[i], size)
  }

  /** As written a single-channel float overflows the label buffer before
      the length test can replace its text: `%.3f` of 1e30 (bits 0x7149F2CA)
      is 35 characters, although the label finally drawn is its 8-character
      `%.2e` text. */
  lemma SingleChannelFixedOverflows(fmt: FloatFormatters)
    requires fmt.fixed3(Float32(0x7149_F2CA)) == "1000000015047466219876688855040.000"
    requires fmt.scientific2(Float32(0x7149_F2CA)) == "1.00e+30"
    ensures FitsIn(LabelText(F32(Float32(0x7149_F2CA)), true, fmt), LabelBufferSize)
    ensures !WritesFit(F32(Float32(0x7149_F2CA)), true, fmt, LabelBufferSize)
  {
    assert !FitsIn(WrittenTexts(F32(Float32(0x7149_F2CA)), true, fmt)[0], LabelBufferSize);
  }

  /** As written a multi-channel float overflows the label buffer with no
      fallback: `%.4f` of 1e24 (bits 0x6753C21C) is 30 characters, and its
      NUL is the 31st byte. */
  lemma MultiChannelFixedOverflows(fmt: FloatFormatters)
    requires fmt.fixed4(Float32(0x6753_C21C)) == "1000000013848427855085568.0000"
    ensures !FitsIn(LabelText(F32(Float32(0x6753_C21C)), false, fmt), LabelBufferSize)
    ensures !WritesFit(F32(Float32(0x6753_C21C)), false, fmt, LabelBufferSize)
  {
    assert !FitsIn(WrittenTexts(F32(Float32(0x6753_C21C)), false, fmt)[0], LabelBufferSize);
  }

  /** A label buffer large enough for the longest float rendering. */
  const CorrectedLabelBufferSize: nat := 1 + MaxFloatIntegerDigits + 1 + 4 + 1

  /** With the corrected buffer size every write for every value, and so
      every label, fits, whatever the element type and channel layout. */
  lemma WritesFitCorrectedBuffer(e: Element, singleChannel: bool, fmt: FloatFormatters)
    requires PrintfWidths(fmt)
    ensures WritesFit(e, singleChannel, fmt, CorrectedLabelBufferSize)
    ensures FitsIn(LabelText(e, singleChannel, fmt), CorrectedLabelBufferSize)
  {
    var w := WrittenTexts(e, singleChannel, fmt);
    if e.F32? {
      assert |fmt.fixed3(e.f)| <= 44 && |fmt.fixed4(e.f)| <= 45 && |fmt.scientific2(e.f)| <= 9;
    }
    assert FitsIn(w[|w| - 1], CorrectedLabelBufferSize);
  }
}
