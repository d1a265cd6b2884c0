/**
 * Utilities/Colors.swift: the integer part of `Color.init(hex:)` and the
 * state-to-colour lookups of `AppColors`. The conversion of the components
 * to sRGB doubles is not modelled; a colour constant is its hex text and its
 * opacity in percent.
 */
module Colors {
  import opened PomodoroState

  predicate IsAlphanumeric(c: char) {
    ('a' <= c <= 'z') || ('A' <= c <= 'Z') || ('0' <= c <= '9')
  }

  /** The index of the first alphanumeric character at or after `i`, or `|s|` when there is none. */
  function FirstKept(s: string, i: nat): (lo: nat)
    requires i <= |s|
    ensures i <= lo <= |s|
    ensures lo < |s| ==> IsAlphanumeric(s[lo])
    ensures forall k :: i <= k < lo ==> !IsAlphanumeric(s[k])
    decreases |s| - i
  {
    if i == |s| || IsAlphanumeric(s[i]) then i else FirstKept(s, i + 1)
  }

  /** One past the last alphanumeric character of `s[lo..j]`, or `lo` when there is none. */
  function LastKept(s: string, lo: nat, j: nat): (hi: nat)
    requires lo <= j <= |s|
    ensures lo <= hi <= j
    ensures hi > lo ==> IsAlphanumeric(s[hi - 1])
    ensures forall k :: hi <= k < j ==> !IsAlphanumeric(s[k])
    decreases j
  {
    if j == lo || IsAlphanumeric(s[j - 1]) then j else LastKept(s, lo, j - 1)
  }

  /**
   * `hex.trimmingCharacters(in: CharacterSet.alphanumerics.inverted)`: the
   * stretch from the first to the last alphanumeric character.
   */
  function Trim(s: string): (r: string)
    ensures r == [] || (IsAlphanumeric(r[0]) && IsAlphanumeric(r[|r| - 1]))
    ensures var lo := FirstKept(s, 0);
      && lo + |r| <= |s| && r == s[lo..lo + |r|]
      && (forall i :: 0 <= i < lo ==> !IsAlphanumeric(s[i]))
      && (forall i :: lo + |r| <= i < |s| ==> !IsAlphanumeric(s[i]))
  {
    var lo := FirstKept(s, 0);
    s[lo..LastKept(s, lo, |s|)]
  }

  /** A leading "#" is dropped; text that is alphanumeric throughout is kept whole. */
  lemma TrimDropsHash(s: string)
    requires forall i :: 0 <= i < |s| ==> IsAlphanumeric(s[i])
    ensures Trim(s) == s
    ensures Trim("#" + s) == s
  {
    assert FirstKept(s, 0) == 0;
    if s != [] {
      assert IsAlphanumeric(s[|s| - 1]);
    }
    assert LastKept(s, 0, |s|) == |s|;
    var h := "#" + s;
    assert !IsAlphanumeric(h[0]) && h[1..] == s;
    assert forall i :: 1 <= i < |h| ==> h[i] == s[i - 1];
    if s != [] {
      assert IsAlphanumeric(h[1]) && IsAlphanumeric(h[|h| - 1]);
    }
    assert FirstKept(h, 1) == 1;
    assert FirstKept(h, 0) == 1;
    assert LastKept(h, 1, |h|) == |h|;
  }

  predicate IsHexDigit(c: char) {
    ('0' <= c <= '9') || ('a' <= c <= 'f') || ('A' <= c <= 'F')
  }

  predicate AllHexDigits(s: string) {
    forall i :: 0 <= i < |s| ==> IsHexDigit(s[i])
  }

  function HexDigitValue(c: char): (d: nat)
    requires IsHexDigit(c)
    ensures d < 16
  {
    if '0' <= c <= '9' then c as int - '0' as int
    else if 'a' <= c <= 'f' then c as int - 'a' as int + 10
    else c as int - 'A' as int + 10
  }

  function Pow16(n: nat): (p: nat)
    ensures p >= 1
  {
    if n == 0 then 1 else 16 * Pow16(n - 1)
  }

  lemma Pow16Values()
    ensures Pow16(3) == 0x1000 && Pow16(6) == 0x100_0000 && Pow16(8) == 0x1_0000_0000
    ensures Pow16(16) == UInt64Limit
  {
    assert Pow16(1) == 0x10;
    assert Pow16(2) == 0x100;
    assert Pow16(3) == 0x1000;
    assert Pow16(4) == 0x1_0000;
    assert Pow16(5) == 0x10_0000;
    assert Pow16(6) == 0x100_0000;
    assert Pow16(7) == 0x1000_0000;
    assert Pow16(8) == 0x1_0000_0000;
    assert Pow16(9) == 0x10_0000_0000;
    assert Pow16(10) == 0x100_0000_0000;
    assert Pow16(11) == 0x1000_0000_0000;
    assert Pow16(12) == 0x1_0000_0000_0000;
    assert Pow16(13) == 0x10_0000_0000_0000;
    assert Pow16(14) == 0x100_0000_0000_0000;
    assert Pow16(15) == 0x1000_0000_0000_0000;
  }

  lemma {:induction false} Pow16Monotone(m: nat, n: nat)
    requires m <= n
    ensures Pow16(m) <= Pow16(n)
    decreases n
  {
    if m < n {
      Pow16Monotone(m, n - 1);
    }
  }

  /** What the scanner reads from a string made only of hex digits. */
  function HexValue(s: string): (v: nat)
    requires AllHexDigits(s)
    ensures v < Pow16(|s|)
    decreases |s|
  {
    if s == [] then 0 else 16 * HexValue(s[..|s| - 1]) + HexDigitValue(s[|s| - 1])
  }

  /** The bound of `UInt64`, the type of the scanned value. */
  const UInt64Limit: nat := 0x1_0000_0000_0000_0000

  /** Alpha, red, green and blue, each 0 to 255 for well-formed input. */
  datatype Argb = Argb(a: int, r: int, g: int, b: int)

  predicate ByteSized(c: Argb) {
    0 <= c.a <= 255 && 0 <= c.r <= 255 && 0 <= c.g <= 255 && 0 <= c.b <= 255
  }

  /**
   * The switch on the digit count. A right shift of an unsigned value is a
   * division by a power of two and a mask is a remainder. The scanned value
   * never has more hex digits than the text it came from.
   */
  function Components(value: nat, digits: nat): (c: Argb)
    requires value < UInt64Limit && value < Pow16(digits)
    ensures digits in {3, 6, 8} ==> ByteSized(c)
    ensures digits == 3 ==>
              && c.a == 255 && c.r % 17 == 0 && c.g % 17 == 0 && c.b % 17 == 0
              && (c.r / 17) * 0x100 + (c.g / 17) * 0x10 + c.b / 17 == value
    ensures digits == 6 ==> c.a == 255 && c.r * 0x10000 + c.g * 0x100 + c.b == value
    ensures digits == 8 ==> c.a * 0x100_0000 + c.r * 0x10000 + c.g * 0x100 + c.b == value
    ensures digits !in {3, 6, 8} ==> c == Argb(1, 1, 1, 0)
  {
    Pow16Values();
    if digits == 3 then
      Nibbles(value);
      Argb(255, (value / 0x100) * 17, (value / 0x10 % 0x10) * 17, (value % 0x10) * 17)
    else if digits == 6 then
      Bytes(value);
      Argb(255, value / 0x10000, value / 0x100 % 0x100, value % 0x100)
    else if digits == 8 then
      Bytes(value);
      Argb(value / 0x100_0000, value / 0x10000 % 0x100, value / 0x100 % 0x100, value % 0x100)
    else
      Argb(1, 1, 1, 0)
  }

  /** A 12-bit value is its three nibbles, and 17 times a nibble is a byte. */
  lemma Nibbles(v: nat)
    requires v < 0x1000
    ensures v / 0x100 < 0x10
    ensures (v / 0x100) * 0x100 + (v / 0x10 % 0x10) * 0x10 + v % 0x10 == v
    ensures forall n: nat :: n < 0x10 ==> n * 17 <= 255 && (n * 17) % 17 == 0 && (n * 17) / 17 == n
  {
    var hi, lo := v / 0x10, v % 0x10;
    assert v == hi * 0x10 + lo;
    assert hi == (hi / 0x10) * 0x10 + hi % 0x10;
    assert hi / 0x10 == v / 0x100;
  }

  /** A 32-bit value is its four bytes. */
  lemma Bytes(v: nat)
    requires v < 0x1_0000_0000
    ensures v / 0x100_0000 < 0x100
    ensures v < 0x100_0000 ==> v / 0x10000 < 0x100
    ensures v / 0x100_0000 * 0x100_0000 + (v / 0x10000 % 0x100) * 0x10000 + (v / 0x100 % 0x100) * 0x100 + v % 0x100 == v
    ensures v / 0x10000 == v / 0x100_0000 * 0x100 + v / 0x10000 % 0x100
  {
    var q1 := v / 0x100;
    var q2 := q1 / 0x100;
    var q3 := q2 / 0x100;
    assert v == q1 * 0x100 + v % 0x100;
    assert q1 == q2 * 0x100 + q1 % 0x100;
    assert q2 == q3 * 0x100 + q2 % 0x100;
    assert q2 == v / 0x10000;
    assert q3 == v / 0x100_0000;
  }

  /** `Color(hex:)` up to the integer components, given what the scanner read. */
  function ColorFromHex(hex: string, scanned: nat): (c: Argb)
    requires scanned < UInt64Limit && scanned < Pow16(|Trim(hex)|)
    ensures |Trim(hex)| in {3, 6, 8} ==> ByteSized(c)
    ensures |Trim(hex)| !in {3, 6, 8} ==> c == Argb(1, 1, 1, 0)
  {
    Components(scanned, |Trim(hex)|)
  }

  /** The case of the colour constants: the trimmed text is all hex digits and is read whole. */
  function ColorFromHexDigits(hex: string): (c: Argb)
    requires AllHexDigits(Trim(hex)) && |Trim(hex)| <= 16
    ensures |Trim(hex)| == 6 ==> c.a == 255 && c.r * 0x10000 + c.g * 0x100 + c.b == HexValue(Trim(hex))
    ensures |Trim(hex)| in {3, 6, 8} ==> ByteSized(c)
  {
    Pow16Monotone(|Trim(hex)|, 16);
    Pow16Values();
    ColorFromHex(hex, HexValue(Trim(hex)))
  }

  // ---------------------------------------------------------------------------
  // AppColors

  /** A colour constant: the hex text it is built from and its opacity in percent. */
  datatype Paint = Paint(hex: string, opacityPercent: nat)

  const AccentFocus: Paint := Paint("e87b5f", 100)
  const AccentBreak: Paint := Paint("5eb89e", 100)
  const AccentPaused: Paint := Paint("d4a94d", 100)

  /** `.opacity(0.25)`. */
  const GlowPercent: nat := 25

  /** `AppColors.accentColor(for:)`: idle shares the focus colour. */
  function AccentColor(state: TimerState): (p: Paint)
    ensures p.opacityPercent == 100
    ensures p == AccentFocus <==> state == Idle || state == Focus
    ensures p == AccentBreak <==> state == Break
    ensures p == AccentPaused <==> state == Paused
  {
    match state
    case Focus => AccentFocus
    case Break => AccentBreak
    case Paused => AccentPaused
    case Idle => AccentFocus
  }

  /** `AppColors.glowColor(for:)`: the accent of the same state at a quarter opacity. */
  function GlowColor(state: TimerState): (p: Paint)
    ensures p.hex == AccentColor(state).hex && p.opacityPercent == GlowPercent
  {
    match state
    case Focus => AccentFocus.(opacityPercent := GlowPercent)
    case Break => AccentBreak.(opacityPercent := GlowPercent)
    case Paused => AccentPaused.(opacityPercent := GlowPercent)
    case Idle => AccentFocus.(opacityPercent := GlowPercent)
  }

  lemma HexValueSnoc(s: string, c: char)
    requires AllHexDigits(s) && IsHexDigit(c)
    ensures AllHexDigits(s + [c]) && HexValue(s + [c]) == 16 * HexValue(s) + HexDigitValue(c)
  {
    assert (s + [c])[..|s|] == s;
  }

  /** The scanner reads the focus accent's text as 0xe87b5f. */
  lemma AccentFocusValue()
    ensures AllHexDigits(AccentFocus.hex) && HexValue(AccentFocus.hex) == 0xe87b5f
  {
    var s := AccentFocus.hex;
    assert s == ['e', '8', '7', 'b', '5', 'f'];
    HexValueSnoc("", 'e');
    assert "" + ['e'] == "e";
    HexValueSnoc("e", '8');
    assert "e" + ['8'] == "e8";
    HexValueSnoc("e8", '7');
    assert "e8" + ['7'] == "e87";
    HexValueSnoc("e87", 'b');
    assert "e87" + ['b'] == "e87b";
    HexValueSnoc("e87b", '5');
    assert "e87b" + ['5'] == "e87b5";
    HexValueSnoc("e87b5", 'f');
    assert "e87b5" + ['f'] == s;
  }

  /** The focus accent decodes to opaque (232, 123, 95). */
  lemma AccentFocusComponents()
    ensures Trim(AccentFocus.hex) == AccentFocus.hex && AllHexDigits(AccentFocus.hex)
    ensures ColorFromHexDigits(AccentFocus.hex) == Argb(255, 0xe8, 0x7b, 0x5f)
  {
    AccentFocusValue();
    TrimDropsHash(AccentFocus.hex);
    Pow16Values();
  }
}
