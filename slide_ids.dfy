/**
 * The DOM id of a slide card encodes its position in the slide list as
 * `slide-<i>` with i in decimal; the drag-end handler recovers i by taking the
 * second field of the id split at '-' and passing it to parseInt.
 */
module SlideIds {
  import opened Wrappers

  predicate IsDigit(c: char) { '0' <= c <= '9' }

  function DigitChar(d: nat): (c: char)
    requires d < 10
    ensures IsDigit(c) && CharValue(c) == d
  {
    (d + '0' as int) as char
  }

  /**
   * The value parseInt gives a character as a digit: '0'..'9' are 0..9 and
   * the letters, in either case, 10..35; any other character is no digit.
   */
  function CharValue(c: char): (v: nat)
    ensures v <= 36 && (IsDigit(c) <==> v < 10)
  {
    if '0' <= c <= '9' then c as int - '0' as int
    else if 'a' <= c <= 'z' then c as int - 'a' as int + 10
    else if 'A' <= c <= 'Z' then c as int - 'A' as int + 10
    else 36
  }

  predicate IsDigitIn(c: char, radix: nat) { CharValue(c) < radix }

  /** The decimal rendering of a natural number, as a template literal produces it. */
  function Decimal(n: nat): (s: string)
    ensures |s| >= 1
    ensures forall k :: 0 <= k < |s| ==> IsDigit(s[k])
  {
    if n < 10 then [DigitChar(n)] else Decimal(n / 10) + [DigitChar(n % 10)]
  }

  /** The value of a run of digits in the given radix, most significant first (0 for the empty run). */
  function DigitsValue(s: string, radix: nat): nat
    requires radix == 10 || radix == 16
    requires forall k :: 0 <= k < |s| ==> IsDigitIn(s[k], radix)
  {
    if s == [] then 0
    else
      var high := DigitsValue(s[..|s| - 1], radix);
      (if radix == 16 then high * 16 else high * 10) + CharValue(s[|s| - 1])
  }

  /** The id given to the slide card rendered at position i: "slide-" followed by i in decimal. */
  function SlideElementId(i: nat): string
  {
    "slide-" + Decimal(i)
  }

  /** What follows the first occurrence of sep, or None when sep does not occur. */
  function AfterFirst(s: string, sep: char): (r: Option<string>)
    ensures r.None? <==> sep !in s
    ensures r.Some? ==> exists k :: 0 <= k < |s| && s[k] == sep && sep !in s[..k] && r.value == s[k + 1..]
  {
    if s == [] then None
    else if s[0] == sep then Some(s[1..])
    else
      var r := AfterFirst(s[1..], sep);
      if r.Some? then
        var k :| 0 <= k < |s[1..]| && s[1..][k] == sep && sep !in s[1..][..k] && r.value == s[1..][k + 1..];
        assert s[..k + 1] == [s[0]] + s[1..][..k];
        r
      else r
  }

  /** The part of s before the first occurrence of sep (all of s when sep does not occur). */
  function UpTo(s: string, sep: char): (r: string)
    ensures r <= s && sep !in r
    ensures |r| < |s| ==> s[|r|] == sep
  {
    if s == [] || s[0] == sep then [] else [s[0]] + UpTo(s[1..], sep)
  }

  /** `s.split(sep)[1]`: the second field, or undefined (None) when sep does not occur. */
  function SecondField(s: string, sep: char): (r: Option<string>)
    ensures r.None? <==> sep !in s
    ensures r.Some? ==> (sep !in r.value &&
      exists k :: 0 <= k < |s| && s[k] == sep && sep !in s[..k] && r.value <= s[k + 1..] &&
        (k + 1 + |r.value| == |s| || s[k + 1 + |r.value|] == sep))
  {
    match AfterFirst(s, sep)
    case None => None
    case Some(rest) => Some(UpTo(rest, sep))
  }

  /** The longest prefix of s made of digits in the given radix. */
  function LeadingDigits(s: string, radix: nat): (r: string)
    ensures r <= s
    ensures forall k :: 0 <= k < |r| ==> IsDigitIn(r[k], radix)
    ensures |r| < |s| ==> !IsDigitIn(s[|r|], radix)
  {
    if s == [] || !IsDigitIn(s[0], radix) then [] else [s[0]] + LeadingDigits(s[1..], radix)
  }

  /** s starts with "0x" or "0X", which makes parseInt without a radix read base 16. */
  predicate HasHexPrefix(s: string)
  {
    |s| >= 2 && s[0] == '0' && (s[1] == 'x' || s[1] == 'X')
  }

  /**
   * parseInt without a radix, on a string without sign or leading blanks: a
   * "0x"/"0X" prefix selects base 16, otherwise base 10; the longest run of
   * digits after it is read, and no digit at all gives NaN (None).
   */
  function ParseInt(s: string): (r: Option<nat>)
    ensures HasHexPrefix(s) ==> (r.None? <==> (|s| == 2 || !IsDigitIn(s[2], 16)))
    ensures !HasHexPrefix(s) ==> (r.None? <==> (s == [] || !IsDigit(s[0])))
  {
    var radix := if HasHexPrefix(s) then 16 else 10;
    var body := if HasHexPrefix(s) then s[2..] else s;
    var digits := LeadingDigits(body, radix);
    if digits == [] then None else Some(DigitsValue(digits, radix))
  }

  /** `parseInt(id.split("-")[1])`, with NaN as None: an id without '-' gives NaN. */
  function ParseSlideId(id: string): (r: Option<nat>)
    ensures '-' !in id ==> r.None?
  {
    match SecondField(id, '-')
    case None => None
    case Some(field) => ParseInt(field)
  }

  /** parseInt reads "0x1A" in base 16 and finds no digit in "0x". */
  lemma ParseIntHexExamples()
    ensures ParseInt("0x1A") == Some(26)
    ensures ParseInt("0x") == None
    ensures ParseInt("12ab") == Some(12)
  {
    assert "0x1A"[2..] == "1A" && "1A"[1..] == "A" && "A"[1..] == [];
    assert LeadingDigits("1A", 16) == "1A";
    assert "1A"[..1] == "1" && "1"[..0] == [];
    assert DigitsValue("1A", 16) == 26;
    assert "12ab"[1..] == "2ab" && "2ab"[1..] == "ab";
    assert LeadingDigits("12ab", 10) == "12";
    assert "12"[..1] == "1" && "1"[..0] == [];
    assert DigitsValue("12", 10) == 12;
  }

  /** Reading the digits of Decimal(n) back gives n. */
  lemma {:induction false} DecimalValueOfDecimal(n: nat)
    ensures DigitsValue(Decimal(n), 10) == n
  {
    var s := Decimal(n);
    if n >= 10 {
      assert s[..|s| - 1] == Decimal(n / 10);
      DecimalValueOfDecimal(n / 10);
    }
  }

  /** parseInt(`${n}`) == n for every natural n. */
  lemma ParseIntOfDecimal(n: nat)
    ensures ParseInt(Decimal(n)) == Some(n)
  {
    var s := Decimal(n);
    assert !HasHexPrefix(s) by {
      if |s| >= 2 { assert IsDigit(s[1]); }
    }
    assert LeadingDigits(s, 10) == s;
    DecimalValueOfDecimal(n);
  }
  /**
   * Round trip: the drag-end handler recovers from a card's id exactly the
   * position the render encoded into it.
   */
  lemma ParseSlideIdOfSlideElementId(i: nat)
    ensures ParseSlideId(SlideElementId(i)) == Some(i)
  {
    var id := SlideElementId(i);
    var digits := Decimal(i);
    assert id[5] == '-' && '-' !in id[..5];
    assert id[6..] == digits;
    assert AfterFirst(id, '-') == Some(digits);
    assert '-' !in digits by {
      forall k | 0 <= k < |digits| ensures digits[k] != '-' {
        assert IsDigit(digits[k]);
      }
    }
    assert UpTo(digits, '-') == digits;
    ParseIntOfDecimal(i);
  }

  /** Distinct positions get distinct card ids. */
  lemma SlideElementIdInjective(i: nat, j: nat)
    ensures SlideElementId(i) == SlideElementId(j) <==> i == j
  {
    if SlideElementId(i) == SlideElementId(j) {
      ParseSlideIdOfSlideElementId(i);
      ParseSlideIdOfSlideElementId(j);
    }
  }
}
