/**
 * The colour palette: RGB triples rendered as a CSS colour string or as a
 * LaTeX colour command, and a list of colours turned into a dictionary
 * keyed 'A', 'B', 'C', ... in list order.
 *
 * Colour components are natural numbers. `Array.prototype.toString`
 * writes each as its decimal numeral and joins them with commas; that is
 * Number#toString only up to 2^53 (above it JavaScript writes the shortest
 * digits of the nearest double, and from 10^21 on an exponent form). The
 * scene's components are all below 256. The decoders below are not part of
 * the scene; they are the inverses the renderings are proved against.
 */
module Palette {
  import opened Options

  /**
   * A UTF-16 code unit. `String.fromCharCode` keeps its argument modulo
   * 2^16, and every dictionary key is a one-unit string, so a key is
   * modelled by its single code unit.
   */
  newtype CodeUnit = x: int | 0 <= x < 0x1_0000

  const RGB_L_WHITE: seq<nat> := [255, 255, 255]
  const RGB_L_GREY: seq<nat> := [128, 128, 128]
  const RGB_L_CAT: seq<seq<nat>> := [
    [46, 234, 162],
    [46, 165, 234],
    [68, 46, 234],
    [209, 46, 234],
    [234, 46, 118],
    [234, 115, 46],
    [212, 234, 46],
    [71, 234, 46]
  ]

  const RGB_PREFIX: string := "rgb("
  const RGB_SUFFIX: string := ")"
  const TEX_PREFIX: string := "\\color[RGB]{"
  const TEX_SUFFIX: string := "}"

  // ---------------------------------------------------------------------
  // Decimal numerals

  predicate IsDigit(c: char) {
    '0' <= c <= '9'
  }

  predicate AllDigits(s: string) {
    forall i :: 0 <= i < |s| ==> IsDigit(s[i])
  }

  function DigitChar(d: nat): (c: char)
    requires d < 10
    ensures IsDigit(c)
  {
    ('0' as int + d) as char
  }

  /** The decimal numeral of `n`, without leading zeros. */
  function Decimal(n: nat): (s: string)
    ensures |s| > 0 && AllDigits(s)
    ensures s[0] == '0' ==> n == 0
  {
    if n < 10 then [DigitChar(n)] else Decimal(n / 10) + [DigitChar(n % 10)]
  }

  function DigitsValue(s: string): nat
    requires AllDigits(s)
  {
    if s == [] then 0
    else
      assert AllDigits(s[..|s| - 1]);
      DigitsValue(s[..|s| - 1]) * 10 + (s[|s| - 1] as int - '0' as int)
  }

  /** Reads a non-empty numeral back; anything else is rejected. */
  function ParseDecimal(s: string): Option<nat> {
    if s != [] && AllDigits(s) then Some(DigitsValue(s)) else None
  }

  lemma {:induction false} DecimalRoundTrip(n: nat)
    ensures ParseDecimal(Decimal(n)) == Some(n)
  {
    var s := Decimal(n);
    if n < 10 {
      assert s == [DigitChar(n)] && s[..0] == [];
      assert DigitsValue(s) == DigitsValue([]) * 10 + n;
    } else {
      DecimalRoundTrip(n / 10);
      assert s[..|s| - 1] == Decimal(n / 10);
      assert s[|s| - 1] == DigitChar(n % 10);
      assert DigitsValue(s) == (n / 10) * 10 + n % 10;
    }
  }

  // ---------------------------------------------------------------------
  // Comma-joined lists

  /** `arr.toString()` on an array of numbers: the numerals joined by commas. */
  function Join(xs: seq<nat>): (s: string)
    ensures s == [] <==> xs == []
  {
    if xs == [] then ""
    else if |xs| == 1 then Decimal(xs[0])
    else Decimal(xs[0]) + "," + Join(xs[1..])
  }

  /** The position of the first comma of `s`, or |s| when there is none. */
  function FirstComma(s: string): (k: nat)
    ensures k <= |s|
    ensures k < |s| ==> s[k] == ','
    ensures forall i :: 0 <= i < k ==> s[i] != ','
  {
    if s == [] || s[0] == ',' then 0 else 1 + FirstComma(s[1..])
  }

  /** Reads one or more comma-separated numerals. */
  function ParseFields(s: string): Option<seq<nat>>
    decreases |s|
  {
    var k := FirstComma(s);
    var head := ParseDecimal(s[..k]);
    if head.None? then None
    else if k == |s| then Some([head.value])
    else
      var rest := ParseFields(s[k + 1..]);
      if rest.None? then None else Some([head.value] + rest.value)
  }

  /** Reads a comma-joined list; the empty string is the empty list. */
  function ParseList(s: string): Option<seq<nat>> {
    if s == [] then Some([]) else ParseFields(s)
  }

  /** A numeral holds no comma. */
  lemma DecimalNoComma(n: nat)
    ensures forall i :: 0 <= i < |Decimal(n)| ==> Decimal(n)[i] != ','
  {
    var d := Decimal(n);
    forall i | 0 <= i < |d| ensures d[i] != ',' {
      assert IsDigit(d[i]);
    }
  }

  /** A numeral followed by a comma and fields that read back reads back one field longer. */
  lemma ParseFieldsCons(d: string, n: nat, rest: string, tail: seq<nat>)
    requires ParseDecimal(d) == Some(n)
    requires forall i :: 0 <= i < |d| ==> d[i] != ','
    requires ParseFields(rest) == Some(tail)
    ensures ParseFields(d + "," + rest) == Some([n] + tail)
  {
    var s := d + "," + rest;
    FirstCommaAfter(d, "," + rest);
    assert s == d + ("," + rest);
    assert s[..|d|] == d;
    assert s[|d| + 1..] == rest;
  }

  /** A lone numeral reads back as a single field. */
  lemma ParseFieldsSingle(d: string, n: nat)
    requires ParseDecimal(d) == Some(n)
    requires forall i :: 0 <= i < |d| ==> d[i] != ','
    ensures ParseFields(d) == Some([n])
  {
    FirstCommaAfter(d, []);
    assert d == d + [];
    assert d[..|d|] == d;
  }

  /** Behind a comma-free field, the first comma is where the rest begins with one. */
  lemma {:induction false} FirstCommaAfter(d: string, t: string)
    requires forall i :: 0 <= i < |d| ==> d[i] != ','
    requires t == [] || t[0] == ','
    ensures FirstComma(d + t) == |d|
  {
    if d != [] {
      assert (d + t)[0] == d[0];
      assert (d + t)[1..] == d[1..] + t;
      FirstCommaAfter(d[1..], t);
    }
  }

  lemma {:induction false} ParseFieldsJoin(xs: seq<nat>)
    requires xs != []
    ensures ParseFields(Join(xs)) == Some(xs)
  {
    DecimalRoundTrip(xs[0]);
    DecimalNoComma(xs[0]);
    if |xs| == 1 {
      assert xs == [xs[0]];
      ParseFieldsSingle(Decimal(xs[0]), xs[0]);
    } else {
      ParseFieldsJoin(xs[1..]);
      ParseFieldsCons(Decimal(xs[0]), xs[0], Join(xs[1..]), xs[1..]);
      assert [xs[0]] + xs[1..] == xs;
    }
  }

  /** Joining loses nothing: the list can be read back from its rendering. */
  lemma JoinRoundTrip(xs: seq<nat>)
    ensures ParseList(Join(xs)) == Some(xs)
  {
    if xs != [] {
      ParseFieldsJoin(xs);
      assert Decimal(xs[0]) != [];
    }
  }

  // ---------------------------------------------------------------------
  // The two colour renderings

  function Wrap(prefix: string, arr: seq<nat>, suffix: string): string {
    prefix + Join(arr) + suffix
  }

  function Unwrap(prefix: string, s: string, suffix: string): Option<seq<nat>> {
    if |prefix| + |suffix| <= |s| && s[..|prefix|] == prefix && s[|s| - |suffix|..] == suffix
    then ParseList(s[|prefix|..|s| - |suffix|])
    else None
  }

  lemma WrapRoundTrip(prefix: string, arr: seq<nat>, suffix: string)
    ensures Unwrap(prefix, Wrap(prefix, arr, suffix), suffix) == Some(arr)
  {
    var s := Wrap(prefix, arr, suffix);
    assert s[..|prefix|] == prefix;
    assert s[|s| - |suffix|..] == suffix;
    assert s[|prefix|..|s| - |suffix|] == Join(arr);
    JoinRoundTrip(arr);
  }

  /** to_rgb: 'rgb(' + arr.toString() + ')'. */
  function ToRgb(arr: seq<nat>): string {
    Wrap(RGB_PREFIX, arr, RGB_SUFFIX)
  }

  /** to_tex_rgb: '\color[RGB]{' + arr.toString() + '}'. */
  function ToTexRgb(arr: seq<nat>): string {
    Wrap(TEX_PREFIX, arr, TEX_SUFFIX)
  }

  /** Reads a CSS colour string produced by ToRgb. */
  function ParseRgb(s: string): Option<seq<nat>> {
    Unwrap(RGB_PREFIX, s, RGB_SUFFIX)
  }

  /** Reads a LaTeX colour command produced by ToTexRgb. */
  function ParseTexRgb(s: string): Option<seq<nat>> {
    Unwrap(TEX_PREFIX, s, TEX_SUFFIX)
  }

  /**
   * to_rgb keeps every component, in order: its string starts with "rgb(",
   * ends with ")" and reads back to the same triple; so distinct colours
   * get distinct strings.
   */
  lemma RgbRoundTrip(arr: seq<nat>, other: seq<nat>)
    ensures ToRgb(arr)[..4] == "rgb(" && ToRgb(arr)[|ToRgb(arr)| - 1] == ')'
    ensures ParseRgb(ToRgb(arr)) == Some(arr)
    ensures ToRgb(arr) == ToRgb(other) ==> arr == other
  {
    WrapRoundTrip(RGB_PREFIX, arr, RGB_SUFFIX);
    WrapRoundTrip(RGB_PREFIX, other, RGB_SUFFIX);
  }

  /** The same for to_tex_rgb and its "\color[RGB]{" ... "}" form. */
  lemma TexRgbRoundTrip(arr: seq<nat>, other: seq<nat>)
    ensures ToTexRgb(arr)[..12] == "\\color[RGB]{" && ToTexRgb(arr)[|ToTexRgb(arr)| - 1] == '}'
    ensures ParseTexRgb(ToTexRgb(arr)) == Some(arr)
    ensures ToTexRgb(arr) == ToTexRgb(other) ==> arr == other
  {
    WrapRoundTrip(TEX_PREFIX, arr, TEX_SUFFIX);
    WrapRoundTrip(TEX_PREFIX, other, TEX_SUFFIX);
  }

  // ---------------------------------------------------------------------
  // The letter-keyed dictionary

  /** String.fromCharCode(65 + index): 'A' for 0, 'B' for 1, ... modulo 2^16. */
  function KeyOf(index: nat): CodeUnit {
    ((65 + index) % 0x1_0000) as CodeUnit
  }

  /** The code unit of a character of the Basic Multilingual Plane. */
  function Unit(c: char): CodeUnit
    requires c as int < 0x1_0000
  {
    c as int as CodeUnit
  }

  /** The `reduce` step: stores each pair in turn, a later key overwriting an earlier one. */
  function Reduce(pairs: seq<(CodeUnit, string)>, acc: map<CodeUnit, string>): map<CodeUnit, string>
    decreases |pairs|
  {
    if pairs == [] then acc
    else Reduce(pairs[1..], acc[pairs[0].0 := pairs[0].1])
  }

  /** The first `map`: each colour rendered by `fn`. */
  function Rendered(colorList: seq<seq<nat>>, fn: seq<nat> -> string): seq<string> {
    seq(|colorList|, i requires 0 <= i < |colorList| => fn(colorList[i]))
  }

  /** The second `map`: each rendering paired with the letter of its position. */
  function Lettered(values: seq<string>): seq<(CodeUnit, string)> {
    seq(|values|, i requires 0 <= i < |values| => (KeyOf(i), values[i]))
  }

  /** map_nested_color_list: map, map, then reduce into a dictionary. */
  function MapNestedColorList(colorList: seq<seq<nat>>, fn: seq<nat> -> string): map<CodeUnit, string> {
    Reduce(Lettered(Rendered(colorList, fn)), map[])
  }

  /** The reduce keeps exactly the keys it was given, and those it started with. */
  lemma {:induction false} ReduceKeys(pairs: seq<(CodeUnit, string)>, acc: map<CodeUnit, string>)
    ensures forall k :: k in Reduce(pairs, acc) <==> k in acc || exists j :: 0 <= j < |pairs| && pairs[j].0 == k
  {
    if pairs != [] {
      var acc' := acc[pairs[0].0 := pairs[0].1];
      var rest := pairs[1..];
      ReduceKeys(rest, acc');
      forall k ensures k in Reduce(pairs, acc) <==> k in acc || exists j :: 0 <= j < |pairs| && pairs[j].0 == k {
        if exists j :: 0 <= j < |rest| && rest[j].0 == k {
          var j :| 0 <= j < |rest| && rest[j].0 == k;
          assert pairs[j + 1].0 == k;
        }
        if exists j :: 0 <= j < |pairs| && pairs[j].0 == k {
          var j :| 0 <= j < |pairs| && pairs[j].0 == k;
          if j > 0 {
            assert rest[j - 1].0 == k;
          }
        }
      }
    }
  }

  /** Each key holds the value of its last occurrence in the pairs. */
  lemma {:induction false} ReduceLast(pairs: seq<(CodeUnit, string)>, acc: map<CodeUnit, string>, j: nat)
    requires j < |pairs|
    requires forall j' :: j < j' < |pairs| ==> pairs[j'].0 != pairs[j].0
    ensures pairs[j].0 in Reduce(pairs, acc)
    ensures Reduce(pairs, acc)[pairs[j].0] == pairs[j].1
  {
    var acc' := acc[pairs[0].0 := pairs[0].1];
    var rest := pairs[1..];
    if j == 0 {
      ReduceUntouched(rest, acc', pairs[0].0);
    } else {
      assert rest[j - 1] == pairs[j];
      forall j' | j - 1 < j' < |rest| ensures rest[j'].0 != rest[j - 1].0 {
        assert rest[j'] == pairs[j' + 1];
      }
      ReduceLast(rest, acc', j - 1);
    }
  }

  /** A key that no pair mentions keeps its starting value. */
  lemma {:induction false} ReduceUntouched(pairs: seq<(CodeUnit, string)>, acc: map<CodeUnit, string>, k: CodeUnit)
    requires k in acc
    requires forall j :: 0 <= j < |pairs| ==> pairs[j].0 != k
    ensures k in Reduce(pairs, acc) && Reduce(pairs, acc)[k] == acc[k]
  {
    if pairs != [] {
      var rest := pairs[1..];
      forall j | 0 <= j < |rest| ensures rest[j].0 != k {
        assert rest[j] == pairs[j + 1];
      }
      ReduceUntouched(rest, acc[pairs[0].0 := pairs[0].1], k);
    }
  }

  /** Two positions less than 2^16 apart get different letters. */
  lemma KeyOfDistinct(i: nat, j: nat)
    requires i < j < i + 0x1_0000
    ensures KeyOf(i) != KeyOf(j)
  {
  }

  /** The dictionary has one key per list position: 'A' for the first, 'B' for the second, ... */
  lemma MapNestedColorListKeys(colorList: seq<seq<nat>>, fn: seq<nat> -> string)
    ensures MapNestedColorList(colorList, fn).Keys == KeySet(|colorList|)
  {
    var pairs := Lettered(Rendered(colorList, fn));
    ReduceKeys(pairs, map[]);
    var m := MapNestedColorList(colorList, fn);
    forall k | k in m ensures k in KeySet(|colorList|) {
      var j :| 0 <= j < |pairs| && pairs[j].0 == k;
    }
    forall i | 0 <= i < |colorList| ensures KeyOf(i) in m {
      assert pairs[i].0 == KeyOf(i);
    }
  }

  /**
   * Each colour is stored, rendered by `fn`, under its own letter, unless a
   * colour 2^16 places later shares that letter and overwrites it.
   */
  lemma MapNestedColorListValues(colorList: seq<seq<nat>>, fn: seq<nat> -> string, i: nat)
    requires i < |colorList| <= i + 0x1_0000
    ensures KeyOf(i) in MapNestedColorList(colorList, fn)
    ensures MapNestedColorList(colorList, fn)[KeyOf(i)] == fn(colorList[i])
  {
    var pairs := Lettered(Rendered(colorList, fn));
    forall j' | i < j' < |pairs| ensures pairs[j'].0 != pairs[i].0 {
      KeyOfDistinct(i, j');
    }
    ReduceLast(pairs, map[], i);
  }

  /** Up to 2^16 colours, the keys are distinct, so the dictionary has one entry per colour. */
  lemma {:induction false} MapNestedColorListSize(colorList: seq<seq<nat>>, fn: seq<nat> -> string)
    requires |colorList| <= 0x1_0000
    ensures |MapNestedColorList(colorList, fn)| == |colorList|
  {
    MapNestedColorListKeys(colorList, fn);
    KeySetSize(|colorList|);
  }

  function KeySet(n: nat): set<CodeUnit> {
    set i | 0 <= i < n :: KeyOf(i)
  }

  lemma {:induction false} KeySetSize(n: nat)
    requires n <= 0x1_0000
    ensures |KeySet(n)| == n
  {
    if n > 0 {
      KeySetSize(n - 1);
      assert KeySet(n) == KeySet(n - 1) + {KeyOf(n - 1)};
      assert KeyOf(n - 1) !in KeySet(n - 1) by {
        forall i | 0 <= i < n - 1
          ensures KeyOf(i) != KeyOf(n - 1)
        {
          KeyOfDistinct(i, n - 1);
        }
      }
    }
  }

  // ---------------------------------------------------------------------
  // The scene's palette: CLR (CSS colours) and CLRT (LaTeX colours)

  const WHITE: string := ToRgb(RGB_L_WHITE)
  const GREY: string := ToRgb(RGB_L_GREY)
  const CAT: map<CodeUnit, string> := MapNestedColorList(RGB_L_CAT, ToRgb)

  const TEX_WHITE: string := ToTexRgb(RGB_L_WHITE)
  const TEX_GREY: string := ToTexRgb(RGB_L_GREY)
  const TEX_CAT: map<CodeUnit, string> := MapNestedColorList(RGB_L_CAT, ToTexRgb)

  /** The eight categorical colours are keyed 'A' to 'H', each holding its own colour. */
  lemma CatPalette()
    ensures CAT.Keys == TEX_CAT.Keys == {Unit('A'), Unit('B'), Unit('C'), Unit('D'), Unit('E'), Unit('F'), Unit('G'), Unit('H')}
    ensures |CAT| == |TEX_CAT| == 8
    ensures forall i :: 0 <= i < 8 ==> CAT[KeyOf(i)] == ToRgb(RGB_L_CAT[i]) && TEX_CAT[KeyOf(i)] == ToTexRgb(RGB_L_CAT[i])
  {
    MapNestedColorListKeys(RGB_L_CAT, ToRgb);
    MapNestedColorListKeys(RGB_L_CAT, ToTexRgb);
    MapNestedColorListSize(RGB_L_CAT, ToRgb);
    MapNestedColorListSize(RGB_L_CAT, ToTexRgb);
    forall i | 0 <= i < 8 ensures CAT[KeyOf(i)] == ToRgb(RGB_L_CAT[i]) && TEX_CAT[KeyOf(i)] == ToTexRgb(RGB_L_CAT[i]) {
      MapNestedColorListValues(RGB_L_CAT, ToRgb, i);
      MapNestedColorListValues(RGB_L_CAT, ToTexRgb, i);
    }
    EightLetters();
  }

  lemma EightLetters()
    ensures KeySet(8) == {Unit('A'), Unit('B'), Unit('C'), Unit('D'), Unit('E'), Unit('F'), Unit('G'), Unit('H')}
  {
    var letters := {Unit('A'), Unit('B'), Unit('C'), Unit('D'), Unit('E'), Unit('F'), Unit('G'), Unit('H')};
    forall k | k in KeySet(8) ensures k in letters {
      var i :| 0 <= i < 8 && KeyOf(i) == k;
      assert k == (65 + i) as CodeUnit;
    }
    assert Unit('A') == KeyOf(0) && Unit('B') == KeyOf(1) && Unit('C') == KeyOf(2) && Unit('D') == KeyOf(3);
    assert Unit('E') == KeyOf(4) && Unit('F') == KeyOf(5) && Unit('G') == KeyOf(6) && Unit('H') == KeyOf(7);
  }

  /** White's component list, as arr.toString() writes it. */
  lemma WhiteJoin()
    ensures Join(RGB_L_WHITE) == "255,255,255"
  {
    assert Decimal(25) == "25" && Decimal(255) == "255";
  }

  /** Grey's component list, as arr.toString() writes it. */
  lemma GreyJoin()
    ensures Join(RGB_L_GREY) == "128,128,128"
  {
    assert Decimal(12) == "12" && Decimal(128) == "128";
  }

  /** White as the scene writes it into strokes. */
  lemma WhiteColour()
    ensures WHITE == "rgb(255,255,255)"
  {
    WhiteJoin();
    assert WHITE == "rgb(" + "255,255,255" + ")";
  }

  /** Grey as the scene writes it into strokes. */
  lemma GreyColour()
    ensures GREY == "rgb(128,128,128)"
  {
    GreyJoin();
    assert GREY == "rgb(" + "128,128,128" + ")";
  }

  /** White as the scene writes it into LaTeX labels. */
  lemma TexWhite()
    ensures TEX_WHITE == "\\color[RGB]{255,255,255}"
  {
    WhiteJoin();
    assert TEX_WHITE == "\\color[RGB]{" + "255,255,255" + "}";
  }

  /** Grey as the scene writes it into LaTeX labels. */
  lemma TexGrey()
    ensures TEX_GREY == "\\color[RGB]{128,128,128}"
  {
    GreyJoin();
    assert TEX_GREY == "\\color[RGB]{" + "128,128,128" + "}";
  }
}
