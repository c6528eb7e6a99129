/** `myDateTime` of myfirstmodule.js: the time of day on a 12-hour clock,
    with the hour and minute of the clock as parameters. */
module MyFirstModule {
  import opened Text

  /** The hour shown: 12 for hours 0 and 12, otherwise the hour modulo 12. */
  function DisplayHour(hour: nat): nat {
    if hour == 12 || hour == 0 then 12 else hour % 12
  }

  function Meridian(hour: nat): string {
    if hour < 12 then "AM" else "PM"
  }

  /** `${hour}:${minute}${meridian}`. */
  function MyDateTime(hour: nat, minute: nat): string {
    NatToString(DisplayHour(hour)) + ":" + PadStart(NatToString(minute), 2, '0') + Meridian(hour)
  }

  /** The shown hour lies in 1..12, and hours 12 apart show the same hour. */
  lemma DisplayHourRange(hour: nat)
    requires hour < 24
    ensures 1 <= DisplayHour(hour) <= 12
    ensures DisplayHour(hour) == DisplayHour((hour + 12) % 24)
  {
  }

  /** The text splits back into the shown hour, a two-digit minute and the
      suffix, which is "AM" exactly before noon. */
  lemma MyDateTimeParts(hour: nat, minute: nat)
    requires hour < 24 && minute < 60
    ensures var s := MyDateTime(hour, minute); var h := NatToString(DisplayHour(hour));
      && |s| == |h| + 5
      && s[..|h|] == h && s[|h|] == ':'
      && AllDigits(s[|h| + 1..|h| + 3]) && ParseDigits(s[|h| + 1..|h| + 3]) == minute
      && (s[|h| + 3..] == "AM" <==> hour < 12)
      && (s[|h| + 3..] == "AM" || s[|h| + 3..] == "PM")
  {
    var h := NatToString(DisplayHour(hour));
    var mm := PadStart(NatToString(minute), 2, '0');
    ParseNatToString(minute);
    if minute < 10 {
      assert mm == ['0'] + NatToString(minute);
      assert mm[..1] == ['0'];
      assert ['0'][..0] == [];
    } else {
      NatToStringLength(minute, 2);
    }
    var s := MyDateTime(hour, minute);
    assert s == h + [':'] + mm + Meridian(hour);
    assert s[|h| + 1..|h| + 3] == mm;
    assert s[|h| + 3..] == Meridian(hour);
  }

  /** The shown hour and the half of the day determine the hour. */
  lemma DisplayHourAndHalf(h1: nat, h2: nat)
    requires h1 < 24 && h2 < 24
    requires DisplayHour(h1) == DisplayHour(h2) && (h1 < 12 <==> h2 < 12)
    ensures h1 == h2
  {
  }

  /** Different times of day give different texts. */
  lemma MyDateTimeInjective(h1: nat, m1: nat, h2: nat, m2: nat)
    requires h1 < 24 && m1 < 60 && h2 < 24 && m2 < 60
    requires MyDateTime(h1, m1) == MyDateTime(h2, m2)
    ensures h1 == h2 && m1 == m2
  {
    var s := MyDateTime(h1, m1);
    var a, b := NatToString(DisplayHour(h1)), NatToString(DisplayHour(h2));
    MyDateTimeParts(h1, m1);
    MyDateTimeParts(h2, m2);
    assert |a| == |b|;
    assert a == s[..|a|] == b;
    NatToStringInjective(DisplayHour(h1), DisplayHour(h2));
    var suffix := s[|a| + 3..];
    assert suffix == "AM" <==> h1 < 12;
    assert suffix == "AM" <==> h2 < 12;
    DisplayHourAndHalf(h1, h2);
  }
}
