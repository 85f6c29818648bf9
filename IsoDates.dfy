/**
 * Calendar dates written `YYYY-MM-DD`, the form the deadline patterns capture and
 * `datetime.fromisoformat` reads as midnight of that date.
 */
module IsoDates {
  import opened Wrappers
  import opened Text
  import opened Calendar

  function Pow10(w: nat): (p: nat)
    ensures p >= 1
  {
    if w == 0 then 1 else 10 * Pow10(w - 1)
  }

  function DigitChar(d: nat): (c: char)
    requires d < 10
    ensures IsDigit(c) && c as int - '0' as int == d
  {
    ('0' as int + d) as char
  }

  /** `n` written with exactly `width` decimal digits, zero-padded on the left. */
  function Digits(n: nat, width: nat): (s: string)
    ensures |s| == width && AllDigits(s)
  {
    if width == 0 then [] else Digits(n / 10, width - 1) + [DigitChar(n % 10)]
  }

  /** Reading back `width` digits gives the number when it fits in them. */
  lemma {:induction false} DigitsValueOfDigits(n: nat, width: nat)
    requires n < Pow10(width)
    ensures DigitsValue(Digits(n, width)) == n
  {
    if width > 0 {
      var s := Digits(n, width);
      assert s[..width - 1] == Digits(n / 10, width - 1);
      DigitsValueOfDigits(n / 10, width - 1);
    } else {
      assert n == 0;
    }
  }

  /** Writing back the value of a digit string with its own width gives the string. */
  lemma {:induction false} DigitsOfDigitsValue(s: string)
    requires AllDigits(s)
    ensures DigitsValue(s) < Pow10(|s|)
    ensures Digits(DigitsValue(s), |s|) == s
  {
    if s != [] {
      var n := |s| - 1;
      var init := s[..n];
      DigitsOfDigitsValue(init);
      var v := DigitsValue(s);
      var d := s[n] as int - '0' as int;
      assert v == 10 * DigitsValue(init) + d;
      assert v / 10 == DigitsValue(init) && v % 10 == d;
      assert s == init + [s[n]];
    }
  }

  /** `date(y, m, d).isoformat()` */
  function IsoFormat(y: nat, m: nat, d: nat): (s: string)
    requires y < 10000 && m < 100 && d < 100
    ensures |s| == 10 && s[4] == '-' && s[7] == '-'
  {
    Digits(y, 4) + "-" + Digits(m, 2) + "-" + Digits(d, 2)
  }

  /**
   * `datetime.fromisoformat(s)` on a date string: `YYYY-MM-DD` naming a real date gives
   * midnight of that date; `None` stands for the `ValueError` raised otherwise.
   */
  function IsoDate(s: string): (r: Option<DateTime>)
    ensures r.Some? ==> ValidDateTime(r.value) && r.value.hour == 0 && r.value.minute == 0 && r.value.second == 0
  {
    if |s| == 10 && s[4] == '-' && s[7] == '-' && AllDigits(s[..4]) && AllDigits(s[5..7]) && AllDigits(s[8..])
       && ValidDate(DigitsValue(s[..4]), DigitsValue(s[5..7]), DigitsValue(s[8..]))
    then Some(DateTime(DigitsValue(s[..4]), DigitsValue(s[5..7]), DigitsValue(s[8..]), 0, 0, 0))
    else None
  }

  /** Every real date written `YYYY-MM-DD` reads back as midnight of that date. */
  lemma IsoDateOfIsoFormat(y: nat, m: nat, d: nat)
    requires ValidDate(y, m, d)
    ensures IsoDate(IsoFormat(y, m, d)) == Some(DateTime(y, m, d, 0, 0, 0))
  {
    var s := IsoFormat(y, m, d);
    assert s[..4] == Digits(y, 4) && s[5..7] == Digits(m, 2) && s[8..] == Digits(d, 2);
    DigitsValueOfDigits(y, 4);
    DigitsValueOfDigits(m, 2);
    DigitsValueOfDigits(d, 2);
  }

  /** A string that reads as a date is that date written `YYYY-MM-DD`. */
  lemma IsoFormatOfIsoDate(s: string)
    requires IsoDate(s).Some?
    ensures var t := IsoDate(s).value; s == IsoFormat(t.year, t.month, t.day)
  {
    DigitsOfDigitsValue(s[..4]);
    DigitsOfDigitsValue(s[5..7]);
    DigitsOfDigitsValue(s[8..]);
    assert s == s[..4] + "-" + s[5..7] + "-" + s[8..];
  }
}
