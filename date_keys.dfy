/**
 * Date keys: the `YYYY-MM-DD` strings that slots carry and that the
 * booking screen shifts by one day.
 *
 * src/App.jsx:121-123 (and 128-130) read a key with `new Date(key)`,
 * move it with `setDate(getDate() -/+ 1)` and write it back with
 * `toISOString().split('T')[0]`. Here that is `Parse`, `Calendar.Prev` /
 * `Calendar.Next` and `Format`, on calendar components only. The reading
 * is strict: a key that does not parse stands for JavaScript's invalid
 * date (engines may read more forms), on which `toISOString` throws;
 * `NextKey` and `PrevKey` then return `None`.
 */
module DateKeys {
  import opened Calendar

  datatype Option<+T> = None | Some(value: T)

  predicate IsDigit(c: char)
  {
    '0' <= c <= '9'
  }

  predicate AllDigits(s: string)
  {
    forall i :: 0 <= i < |s| ==> IsDigit(s[i])
  }

  function Pow10(n: nat): (p: nat)
    ensures p >= 1
  {
    if n == 0 then 1 else 10 * Pow10(n - 1)
  }

  function DigitChar(k: int): (c: char)
    requires 0 <= k < 10
    ensures IsDigit(c)
  {
    ('0' as int + k) as char
  }

  /** Decimal value of a string of digits, most significant first. */
  function DigitsValue(s: string): (n: nat)
    requires AllDigits(s)
  {
    if s == [] then 0 else DigitsValue(s[..|s| - 1]) * 10 + (s[|s| - 1] as int - '0' as int)
  }

  /** The last `width` decimal digits of `n`, zero-padded on the left. */
  function Pad(n: nat, width: nat): (s: string)
    ensures |s| == width && AllDigits(s)
  {
    if width == 0 then [] else Pad(n / 10, width - 1) + [DigitChar(n % 10)]
  }

  lemma {:induction false} DigitsValueBound(s: string)
    requires AllDigits(s)
    ensures DigitsValue(s) < Pow10(|s|)
  {
    if s != [] {
      DigitsValueBound(s[..|s| - 1]);
    }
  }

  /** Padding a number that fits the width and reading it back gives the number. */
  lemma {:induction false} ValueOfPad(n: nat, width: nat)
    requires n < Pow10(width)
    ensures DigitsValue(Pad(n, width)) == n
  {
    if width > 0 {
      var s := Pad(n, width);
      assert s[..width - 1] == Pad(n / 10, width - 1);
      ValueOfPad(n / 10, width - 1);
    }
  }

  /** Reading a digit string and padding it back to its length gives the string. */
  lemma {:induction false} PadOfValue(s: string)
    requires AllDigits(s)
    ensures Pad(DigitsValue(s), |s|) == s
  {
    if s != [] {
      var init := s[..|s| - 1];
      var n := DigitsValue(s);
      assert n / 10 == DigitsValue(init) && n % 10 == s[|s| - 1] as int - '0' as int;
      PadOfValue(init);
      assert s == init + [s[|s| - 1]];
    }
  }

  /**
   * The year as `toISOString` writes it: four digits for years 0 to 9999,
   * otherwise a sign and six digits.
   */
  function YearText(y: int): (s: string)
    ensures 0 <= y <= 9999 ==> |s| == 4 && AllDigits(s)
    ensures !(0 <= y <= 9999) ==> |s| == 7 && !IsDigit(s[0])
  {
    if 0 <= y <= 9999 then Pad(y, 4)
    else if y > 9999 then "+" + Pad(y, 6)
    else "-" + Pad(-y, 6)
  }

  /** The date part of `toISOString()`: `YYYY-MM-DD`. */
  function Format(d: Date): (k: string)
    requires ValidDate(d)
    ensures '|' !in k
  {
    YearText(d.year) + "-" + Pad(d.month, 2) + "-" + Pad(d.day, 2)
  }

  /** Whether `k` has the shape `DDDD-DD-DD` with a digit wherever a `D` stands. */
  predicate KeyShape(k: string)
  {
    |k| == 10 && k[4] == '-' && k[7] == '-'
    && AllDigits(k[0..4]) && AllDigits(k[5..7]) && AllDigits(k[8..10])
  }

  /** `new Date(k)` for a date-only ISO key; `None` is an invalid date. */
  function Parse(k: string): (r: Option<Date>)
    ensures r.Some? ==> ValidDate(r.value) && 0 <= r.value.year <= 9999
    ensures r.Some? <==> KeyShape(k) && ValidDate(Date(DigitsValue(k[0..4]), DigitsValue(k[5..7]), DigitsValue(k[8..10])))
  {
    if !KeyShape(k) then None
    else
      var d := Date(DigitsValue(k[0..4]), DigitsValue(k[5..7]), DigitsValue(k[8..10]));
      DigitsValueBound(k[0..4]);
      if ValidDate(d) then Some(d) else None
  }

  /** The pieces of a key assembled from a four-digit year, a month and a day. */
  lemma KeyPieces(y: string, m: string, d: string)
    requires |y| == 4 && |m| == 2 && |d| == 2
    ensures var k := y + "-" + m + "-" + d;
      |k| == 10 && k[0..4] == y && k[4] == '-' && k[5..7] == m && k[7] == '-' && k[8..10] == d
  {
  }

  /** The key written for a date in years 0 to 9999 is read back as that date. */
  lemma ParseFormat(d: Date)
    requires ValidDate(d) && 0 <= d.year <= 9999
    ensures Parse(Format(d)) == Some(d)
  {
    var y, m, dd := Pad(d.year, 4), Pad(d.month, 2), Pad(d.day, 2);
    KeyPieces(y, m, dd);
    assert Format(d) == y + "-" + m + "-" + dd;
    ValueOfPad(d.year, 4);
    ValueOfPad(d.month, 2);
    ValueOfPad(d.day, 2);
  }

  /** A key that parses is the canonical key of its date: writing it back gives it unchanged. */
  lemma FormatParse(k: string)
    requires Parse(k).Some?
    ensures Format(Parse(k).value) == k
  {
    var d := Parse(k).value;
    PadOfValue(k[0..4]);
    PadOfValue(k[5..7]);
    PadOfValue(k[8..10]);
    assert k == k[0..4] + "-" + k[5..7] + "-" + k[8..10];
  }

  /** A key outside years 0 to 9999 (only reachable by shifting) is refused by the strict reading. */
  lemma FormatOutOfRangeDoesNotParse(d: Date)
    requires ValidDate(d) && !(0 <= d.year <= 9999)
    ensures Parse(Format(d)) == None
    ensures |Format(d)| == 13
  {
  }

  /** Shifting a key one day forward; `None` where JavaScript throws on an invalid date. */
  function NextKey(k: string): (r: Option<string>)
    ensures r.Some? <==> Parse(k).Some?
    ensures r.Some? ==> '|' !in r.value
  {
    match Parse(k)
    case None => None
    case Some(d) => Some(Format(Next(d)))
  }

  /** Shifting a key one day back; `None` where JavaScript throws on an invalid date. */
  function PrevKey(k: string): (r: Option<string>)
    ensures r.Some? <==> Parse(k).Some?
    ensures r.Some? ==> '|' !in r.value
  {
    match Parse(k)
    case None => None
    case Some(d) => Some(Format(Prev(d)))
  }

  /**
   * On keys that parse, "k2 is the day after k1" reads the same forward
   * and backward, and means one calendar day apart.
   */
  lemma NextKeyPrevKey(k1: string, k2: string)
    requires Parse(k1).Some? && Parse(k2).Some?
    ensures NextKey(k1) == Some(k2) <==> Next(Parse(k1).value) == Parse(k2).value
    ensures PrevKey(k2) == Some(k1) <==> Next(Parse(k1).value) == Parse(k2).value
  {
    var d1, d2 := Parse(k1).value, Parse(k2).value;
    FormatParse(k1);
    FormatParse(k2);
    PrevNext(d1);
    PrevNext(d2);
    if Next(d1) == d2 {
      assert NextKey(k1) == Some(k2);
      assert PrevKey(k2) == Some(k1);
    }
    if NextKey(k1) == Some(k2) {
      assert 0 <= Next(d1).year <= 9999;
      ParseFormat(Next(d1));
    }
    if PrevKey(k2) == Some(k1) {
      assert 0 <= Prev(d2).year <= 9999;
      ParseFormat(Prev(d2));
    }
  }

  /** Shifting a valid key forward and then back returns the key; only 9999-12-31 has no four-digit successor. */
  lemma PrevKeyOfNextKey(k: string)
    requires Parse(k).Some? && Parse(k).value != Date(9999, 12, 31)
    ensures NextKey(k).Some? && PrevKey(NextKey(k).value) == Some(k)
  {
    var d := Parse(k).value;
    ParseFormat(Next(d));
    NextKeyPrevKey(k, NextKey(k).value);
  }

  /** Shifting a valid key back and then forward returns the key; only 0000-01-01 has no four-digit predecessor. */
  lemma NextKeyOfPrevKey(k: string)
    requires Parse(k).Some? && Parse(k).value != Date(0, 1, 1)
    ensures PrevKey(k).Some? && NextKey(PrevKey(k).value) == Some(k)
  {
    var d := Parse(k).value;
    ParseFormat(Prev(d));
    NextKeyPrevKey(PrevKey(k).value, k);
  }

  // ---------------------------------------------------------------------
  // Shifting keys that `Format` wrote.
  // ---------------------------------------------------------------------

  /** The shifted key of a key written by `Format` is the key of the shifted date. */
  lemma NextKeyOfFormat(d: Date)
    requires ValidDate(d) && 0 <= d.year <= 9999
    ensures NextKey(Format(d)) == Some(Format(Next(d)))
  {
    ParseFormat(d);
  }

  /** The shifted key of a key written by `Format` is the key of the shifted date. */
  lemma PrevKeyOfFormat(d: Date)
    requires ValidDate(d) && 0 <= d.year <= 9999
    ensures PrevKey(Format(d)) == Some(Format(Prev(d)))
  {
    ParseFormat(d);
  }

  /** In the strict reading, a key naming a day that February does not have is an invalid date. */
  lemma NextKeyOfImpossibleDate()
    ensures NextKey("2025-02-30") == None
  {
    var k := "2025-02-30";
    assert k[0..4] == "2025" && k[5..7] == "02" && k[8..10] == "30";
    assert DigitsValue("02") == 2;
  }
}
