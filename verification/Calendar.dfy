/** The dates of the calendar, and that the ledger accepts exactly their ISO forms. */
module Calendar {
  import opened Ledger

  const MONTHS: seq<nat> := [31, 28, 31, 30, 31, 30, 31, 31, 30, 31, 30, 31]

  datatype Date = Date(year: nat, month: nat, day: nat)

  predicate Leap(year: nat) { year % 400 == 0 || (year % 4 == 0 && year % 100 != 0) }

  predicate Exists(d: Date) {
    && 1 <= d.year <= 9999 && 1 <= d.month <= 12
    && 1 <= d.day <= MONTHS[d.month - 1] + if d.month == 2 && Leap(d.year) then 1 else 0
  }

  function Power(width: nat): nat { if width == 0 then 1 else 10 * Power(width - 1) }

  /** The last digits of n, with leading zeros. */
  function Digits(n: nat, width: nat): (s: string)
    ensures |s| == width && forall k | 0 <= k < |s| :: IsDigit(s[k])
  {
    if width == 0 then "" else Digits(n / 10, width - 1) + ['0' + (n % 10) as char]
  }

  function Iso(d: Date): string { Digits(d.year, 4) + "-" + Digits(d.month, 2) + "-" + Digits(d.day, 2) }

  lemma {:induction false} NumberOfDigits(n: nat, width: nat)
    requires n < Power(width)
    ensures Number(Digits(n, width)) == n
  {
    if width > 0 {
      NumberOfDigits(n / 10, width - 1);
      var s := Digits(n, width);
      assert s[..|s| - 1] == Digits(n / 10, width - 1) && s[|s| - 1] == '0' + (n % 10) as char;
    }
  }

  lemma LastDigit(front: nat, ch: char)
    requires IsDigit(ch)
    ensures var n := 10 * front + (ch as int - '0' as int); n / 10 == front && '0' + (n % 10) as char == ch
  {
  }

  lemma {:induction false} DigitsOfNumber(s: string)
    requires forall k | 0 <= k < |s| :: IsDigit(s[k])
    ensures Number(s) < Power(|s|) && Digits(Number(s), |s|) == s
  {
    if s != "" {
      var front, last := s[..|s| - 1], s[|s| - 1];
      DigitsOfNumber(front);
      assert IsDigit(last);
      LastDigit(Number(front), last);
      assert Digits(Number(s), |s|) == front + [last];
      assert s == front + [last];
    }
  }

  lemma Powers()
    ensures Power(2) == 100 && Power(4) == 10000
  {
  }

  lemma MonthsIs(year: nat, month: nat)
    requires 1 <= month <= 12
    ensures DaysIn(year, month) == MONTHS[month - 1] + if month == 2 && Leap(year) then 1 else 0
  {
    Quadruple(year);
    hide Leap;
    assert Leap(year) <==> year % 4 == 0 && (year % 100 != 0 || year % 400 == 0);
    assert |MONTHS| == 12 && MONTHS[1] == 28 && MONTHS[3] == MONTHS[5] == MONTHS[8] == MONTHS[10] == 30;
  }

  lemma Quadruple(year: nat)
    ensures Leap(year) <==> year % 4 == 0 && (year % 100 != 0 || year % 400 == 0)
  {
    if year % 400 == 0 {
      var n := year / 400;
      assert year == 4 * (100 * n);
    }
  }

  /** The ledger's dates are the ISO forms of the dates that exist, each of one date. */
  lemma DateIff(s: string)
    ensures IsDate(s) <==> exists d :: Exists(d) && s == Iso(d)
  {
    hide Number, Digits;
    if IsDate(s) {
      var y, m, d := s[..4], s[5..7], s[8..];
      DigitsOfNumber(y);
      DigitsOfNumber(m);
      DigitsOfNumber(d);
      Powers();
      var at := Date(Number(y), Number(m), Number(d));
      MonthsIs(at.year, at.month);
      assert s == y + "-" + m + "-" + d == Iso(at);
    }
    if d :| Exists(d) && s == Iso(d) {
      IsoIsDate(d);
    }
  }

  lemma IsoIsDate(d: Date)
    requires Exists(d)
    ensures IsDate(Iso(d))
    ensures var s := Iso(d); Number(s[..4]) == d.year && Number(s[5..7]) == d.month && Number(s[8..]) == d.day
  {
    hide Number, Digits;
    Powers();
    NumberOfDigits(d.year, 4);
    NumberOfDigits(d.month, 2);
    NumberOfDigits(d.day, 2);
    MonthsIs(d.year, d.month);
    var s := Iso(d);
    assert s[..4] == Digits(d.year, 4) && s[5..7] == Digits(d.month, 2) && s[8..] == Digits(d.day, 2);
    forall k | 0 <= k < 10 && k != 4 && k != 7 ensures IsDigit(s[k]) {
      assert k < 4 ==> s[k] == s[..4][k];
      assert 5 <= k < 7 ==> s[k] == s[5..7][k - 5];
      assert k >= 8 ==> s[k] == s[8..][k - 8];
    }
  }
}
