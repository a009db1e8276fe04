/**
 * The tag colour of a card tag (`getTagColors`, src/utils/utils.ts): the sum of
 * the tag's UTF-16 code units picks a hue, and the hue picks a light background
 * and a dark text colour, both as CSS `hsl(...)` strings.
 */
module TagColors {

  const SATURATION: nat := 70
  /** The background lightness; above 70 it calls for dark text. */
  const LIGHTNESS: nat := 85
  const DARK_TEXT_LIGHTNESS: nat := 20
  const LIGHT_TEXT_LIGHTNESS: nat := 95

  datatype TagColors = TagColors(backgroundColor: string, color: string)

  /** The UTF-16 code units of one character: itself below U+10000, else a surrogate pair. */
  function CodeUnits(c: char): (r: seq<nat>)
    ensures |r| == 1 || |r| == 2
    ensures c as int < 0x1_0000 ==> r == [c as int]
    ensures c as int >= 0x1_0000 ==>
      && |r| == 2
      && 0xD800 <= r[0] < 0xDC00 <= r[1] < 0xE000
      && (r[0] - 0xD800) * 0x400 + (r[1] - 0xDC00) + 0x1_0000 == c as int
  {
    var v := c as int;
    if v < 0x1_0000 then [v]
    else [0xD800 + (v - 0x1_0000) / 0x400, 0xDC00 + (v - 0x1_0000) % 0x400]
  }

  /** `tag.split("")`: the string's code units, in order. */
  function Utf16(tag: string): seq<nat> {
    if tag == [] then [] else Utf16(tag[..|tag| - 1]) + CodeUnits(tag[|tag| - 1])
  }

  /** `reduce((acc, unit) => acc + unit, 0)`: the left fold adding up the code units. */
  function SumCodes(units: seq<nat>): nat {
    if units == [] then 0 else SumCodes(units[..|units| - 1]) + units[|units| - 1]
  }

  /** The tag's hash: the sum of its code units. */
  function Hash(tag: string): nat {
    SumCodes(Utf16(tag))
  }

  lemma {:induction false} SumCodesConcat(a: seq<nat>, b: seq<nat>)
    ensures SumCodes(a + b) == SumCodes(a) + SumCodes(b)
    decreases |b|
  {
    if b != [] {
      assert (a + b)[..|a + b| - 1] == a + b[..|b| - 1];
      SumCodesConcat(a, b[..|b| - 1]);
    } else {
      assert a + b == a;
    }
  }

  lemma {:induction false} Utf16Concat(a: string, b: string)
    ensures Utf16(a + b) == Utf16(a) + Utf16(b)
    decreases |b|
  {
    if b != [] {
      assert (a + b)[..|a + b| - 1] == a + b[..|b| - 1];
      Utf16Concat(a, b[..|b| - 1]);
    } else {
      assert a + b == a;
    }
  }

  /** The hash of a concatenation is the sum of the hashes. */
  lemma HashConcat(a: string, b: string)
    ensures Hash(a + b) == Hash(a) + Hash(b)
  {
    Utf16Concat(a, b);
    SumCodesConcat(Utf16(a), Utf16(b));
  }

  /** The hash ignores the order of the characters: a tag and any rearrangement of it hash alike. */
  lemma {:induction false} HashPermutation(a: string, b: string)
    requires multiset(a) == multiset(b)
    ensures Hash(a) == Hash(b)
    decreases |a|
  {
    if a == [] {
      assert |b| == |multiset(b)| == 0;
    } else {
      var init := a[..|a| - 1];
      var x := a[|a| - 1];
      assert a == init + [x];
      assert x in multiset(b);
      var i :| 0 <= i < |b| && b[i] == x;
      var rest := b[..i] + b[i + 1..];
      assert b == b[..i] + [x] + b[i + 1..];
      assert multiset(rest) == multiset(b) - multiset{x};
      assert multiset(init) == multiset(a) - multiset{x};
      HashPermutation(init, rest);
      HashConcat(init, [x]);
      HashConcat(b[..i], [x]);
      HashConcat(b[..i] + [x], b[i + 1..]);
      HashConcat(b[..i], b[i + 1..]);
    }
  }

  /** The hue: the hash modulo 360. */
  function Hue(tag: string): (r: nat)
    ensures r < 360
    ensures tag == "" ==> r == 0
  {
    Hash(tag) % 360
  }

  predicate IsDigit(c: char) {
    '0' <= c <= '9'
  }

  function Digit(d: nat): (r: char)
    requires d < 10
    ensures IsDigit(r)
  {
    ('0' as int + d) as char
  }

  /** A non-negative integer in a template literal: its decimal digits, without leading zeros. */
  function ToDecimal(n: nat): (r: string)
    ensures |r| >= 1 && forall i :: 0 <= i < |r| ==> IsDigit(r[i])
    ensures |r| == 1 <==> n < 10
  {
    if n < 10 then [Digit(n)] else ToDecimal(n / 10) + [Digit(n % 10)]
  }

  /** Distinct numbers print differently. */
  lemma {:induction false} ToDecimalInjective(a: nat, b: nat)
    requires ToDecimal(a) == ToDecimal(b)
    ensures a == b
    decreases a
  {
    if a >= 10 && b >= 10 {
      var s := ToDecimal(a);
      assert s[..|s| - 1] == ToDecimal(a / 10) && s[..|s| - 1] == ToDecimal(b / 10);
      ToDecimalInjective(a / 10, b / 10);
    }
  }

  /** A run of digits followed by a non-digit (or nothing) is read back unambiguously. */
  lemma {:induction false} DigitsPrefix(d1: string, d2: string, t1: string, t2: string)
    requires forall i :: 0 <= i < |d1| ==> IsDigit(d1[i])
    requires forall i :: 0 <= i < |d2| ==> IsDigit(d2[i])
    requires (t1 == [] || !IsDigit(t1[0])) && (t2 == [] || !IsDigit(t2[0]))
    requires d1 + t1 == d2 + t2
    ensures d1 == d2 && t1 == t2
    decreases |d1|
  {
    assert d1 == [] ==> d1 + t1 == t1;
    assert d2 == [] ==> d2 + t2 == t2;
    if d1 != [] && d2 != [] {
      assert d1[0] == (d1 + t1)[0] == d2[0];
      assert (d1 + t1)[1..] == d1[1..] + t1 && (d2 + t2)[1..] == d2[1..] + t2;
      DigitsPrefix(d1[1..], d2[1..], t1, t2);
      assert d1 == [d1[0]] + d1[1..] && d2 == [d2[0]] + d2[1..];
    }
  }

  /** `hsl(${hue}, ${saturation}%, ${lightness}%)`. */
  function Hsl(hue: nat, saturation: nat, lightness: nat): string {
    "hsl(" + ToDecimal(hue) + HslTail(saturation, lightness)
  }

  /** What follows the hue in `hsl(...)`. */
  function HslTail(saturation: nat, lightness: nat): string {
    ", " + ToDecimal(saturation) + "%, " + ToDecimal(lightness) + "%)"
  }

  /** After `hsl(` come the hue's digits and then a comma. */
  lemma HslSuffix(hue: nat, saturation: nat, lightness: nat)
    ensures Hsl(hue, saturation, lightness)[4..] == ToDecimal(hue) + HslTail(saturation, lightness)
    ensures HslTail(saturation, lightness)[0] == ','
  {
    var d, t := ToDecimal(hue), HslTail(saturation, lightness);
    assert ("hsl(" + d) + t == "hsl(" + (d + t);
  }

  /** Different hues give different `hsl(...)` strings. */
  lemma HslInjective(h1: nat, h2: nat, saturation: nat, lightness: nat)
    requires Hsl(h1, saturation, lightness) == Hsl(h2, saturation, lightness)
    ensures h1 == h2
  {
    HslSuffix(h1, saturation, lightness);
    HslSuffix(h2, saturation, lightness);
    var tail := HslTail(saturation, lightness);
    DigitsPrefix(ToDecimal(h1), ToDecimal(h2), tail, tail);
    ToDecimalInjective(h1, h2);
  }

  /**
   * `getTagColors`: the background is the hue at 70% saturation and 85% lightness;
   * since 85 is above 70, the text is always the same hue at 20% lightness.
   */
  function GetTagColors(tag: string): (r: TagColors)
    ensures r.backgroundColor == Hsl(Hue(tag), SATURATION, LIGHTNESS)
    ensures r.color == Hsl(Hue(tag), SATURATION, DARK_TEXT_LIGHTNESS)
  {
    var hue := Hue(tag);
    var bgLightness := LIGHTNESS;
    var color :=
      if bgLightness > 70 then Hsl(hue, SATURATION, DARK_TEXT_LIGHTNESS)
      else Hsl(hue, SATURATION, LIGHT_TEXT_LIGHTNESS);
    TagColors(Hsl(hue, SATURATION, LIGHTNESS), color)
  }

  /** Two tags get the same colours exactly when their hashes agree modulo 360. */
  lemma SameColorsIffSameHue(a: string, b: string)
    ensures GetTagColors(a) == GetTagColors(b) <==> Hash(a) % 360 == Hash(b) % 360
  {
    if GetTagColors(a) == GetTagColors(b) {
      HslInjective(Hue(a), Hue(b), SATURATION, LIGHTNESS);
    }
  }

  /** Tags that are rearrangements of each other get the same colours. */
  lemma PermutedTagsSameColors(a: string, b: string)
    requires multiset(a) == multiset(b)
    ensures GetTagColors(a) == GetTagColors(b)
  {
    HashPermutation(a, b);
  }

  /** The empty tag has hue 0: `hsl(0, 70%, 85%)` on `hsl(0, 70%, 20%)`. */
  lemma EmptyTagColors()
    ensures GetTagColors("") == TagColors("hsl(0, 70%, 85%)", "hsl(0, 70%, 20%)")
  {
    assert Hue("") == 0;
    HueZero(LIGHTNESS);
    HueZero(DARK_TEXT_LIGHTNESS);
  }

  /** At hue 0 and 70% saturation, a two-digit lightness prints as `hsl(0, 70%, ..%)`. */
  lemma HueZero(lightness: nat)
    requires 10 <= lightness < 100
    ensures Hsl(0, SATURATION, lightness) == "hsl(0, 70%, " + [Digit(lightness / 10), Digit(lightness % 10)] + "%)"
  {
    TwoDigits(SATURATION);
    TwoDigits(lightness);
    assert ToDecimal(0) == "0";
  }

  /** A two-digit number prints as its tens digit followed by its units digit. */
  lemma TwoDigits(n: nat)
    requires 10 <= n < 100
    ensures ToDecimal(n) == [Digit(n / 10), Digit(n % 10)]
  {
    assert ToDecimal(n / 10) == [Digit(n / 10)];
  }
}
