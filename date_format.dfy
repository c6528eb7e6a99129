/** `formatDate` of config/balldontlie_api.js: a Date as the provider's
    `YYYY-MM-DD` query parameter. */
module BalldontlieApi {
  import opened Wrappers
  import opened Text

  /** The local calendar fields of a Date: `getFullYear()`, `getMonth()`
      (counted from 0) and `getDate()`. */
  datatype DateParts = DateParts(year: int, month: nat, day: nat)

  predicate ValidParts(d: DateParts) {
    d.month < 12 && 1 <= d.day <= 31
  }

  /** `String(n).padStart(2, '0')`. */
  function TwoDigits(n: nat): string {
    PadStart(NatToString(n), 2, '0')
  }

  /** `formatDate(date)`; `None` stands for an argument that is not a Date. */
  function FormatDate(date: Option<DateParts>): string {
    match date
    case None => "Invalid Date"
    case Some(d) => IntToString(d.year) + "-" + TwoDigits(d.month + 1) + "-" + TwoDigits(d.day)
  }

  /** A number below 100 takes exactly two digits, which read back as it. */
  lemma TwoDigitsMeaning(n: nat)
    requires n < 100
    ensures |TwoDigits(n)| == 2 && AllDigits(TwoDigits(n))
    ensures ParseDigits(TwoDigits(n)) == n
  {
    ParseNatToString(n);
    if n < 10 {
      assert TwoDigits(n) == ['0'] + NatToString(n);
      assert TwoDigits(n)[..1] == ['0'];
      assert ['0'][..0] == [];
    } else {
      NatToStringLength(n, 2);
    }
  }

  /** The text is "Invalid Date" exactly when the argument is not a Date. */
  lemma InvalidDateOnlyForNonDates(date: Option<DateParts>)
    ensures FormatDate(date) == "Invalid Date" <==> date.None?
  {
    if date.Some? {
      var s := FormatDate(date);
      var y := IntToString(date.value.year);
      assert s[0] == y[0];
      assert y[0] == '-' || IsDigit(y[0]);
      assert s[0] != "Invalid Date"[0];
    }
  }

  /** A date of a four-digit year is ten characters long. */
  lemma FormatDateLength(d: DateParts)
    requires ValidParts(d) && 1000 <= d.year <= 9999
    ensures |FormatDate(Some(d))| == 10
  {
    assert Pow10(1) == 10 && Pow10(2) == 100 && Pow10(3) == 1000 && Pow10(4) == 10000;
    NatToStringLength(d.year, 4);
    TwoDigitsMeaning(d.month + 1);
    TwoDigitsMeaning(d.day);
  }

  /** Splitting on '-' gives back the year, the month counted from 1 and the
      day, each month and day part two characters long. */
  lemma FormatDateSplit(d: DateParts)
    requires ValidParts(d) && d.year >= 0
    ensures var parts := Split(FormatDate(Some(d)), '-');
      && |parts| == 3
      && AllDigits(parts[0]) && AllDigits(parts[1]) && AllDigits(parts[2])
      && |parts[1]| == 2 && |parts[2]| == 2
      && ParseDigits(parts[0]) == d.year
      && ParseDigits(parts[1]) == d.month + 1
      && ParseDigits(parts[2]) == d.day
  {
    var y, m, dd := NatToString(d.year), TwoDigits(d.month + 1), TwoDigits(d.day);
    TwoDigitsMeaning(d.month + 1);
    TwoDigitsMeaning(d.day);
    ParseNatToString(d.year);
    DigitsExclude(y, '-');
    DigitsExclude(m, '-');
    DigitsExclude(dd, '-');
    assert FormatDate(Some(d)) == y + ['-'] + (m + ['-'] + dd);
    SplitThree(y, m, dd, '-');
  }
}
