/** The `YYYY-MM-DD HH:MM:SS` timestamps stamped on sessions and events
    (lib/analytics.ts `pad` and `changeCurrentDateTime`). The clock reading
    is a parameter; the identity keys of events are built from these texts,
    so the layout and its injectivity matter. */
module Timestamp {
  import opened Strings

  /** The calendar fields of one local clock reading: `getFullYear()`,
      `getMonth() + 1`, `getDate()`, `getHours()`, `getMinutes()`,
      `getSeconds()`. */
  datatype DateTime = DateTime(year: nat, month: nat, day: nat, hour: nat, minute: nat, second: nat)

  /** The ranges a real clock reading stays in, with a four-digit year. */
  predicate ValidDateTime(t: DateTime) {
    1000 <= t.year <= 9999 && 1 <= t.month <= 12 && 1 <= t.day <= 31
    && t.hour < 24 && t.minute < 60 && t.second < 60
  }

  /** `num.toString().padStart(2, "0")`: a leading zero below 10, the plain
      decimal text otherwise. */
  function Pad(n: nat): (r: string)
    ensures AllDigits(r) && DigitsValue(r) == n
    ensures |r| >= 2 && (n < 100 ==> |r| == 2)
    ensures n >= 10 ==> r == NatToString(n)
  {
    DigitsValueOfNatToString(n);
    if n < 10 then
      DigitsValueLeadingZero(NatToString(n));
      "0" + NatToString(n)
    else
      assert n / 10 < 10 ==> |NatToString(n / 10)| == 1;
      NatToString(n)
  }

  /** `changeCurrentDateTime()` for the clock reading `t`. */
  function Format(t: DateTime): string {
    NatToString(t.year) + "-" + Pad(t.month) + "-" + Pad(t.day) + " "
      + Pad(t.hour) + ":" + Pad(t.minute) + ":" + Pad(t.second)
  }

  lemma {:induction false} FourDigitYear(y: nat)
    requires 1000 <= y <= 9999
    ensures |NatToString(y)| == 4
  {
    var a := y / 10;
    assert 100 <= a < 1000;
    var b := a / 10;
    assert 10 <= b < 100;
    assert |NatToString(b / 10)| == 1;
    assert |NatToString(b)| == 2;
    assert |NatToString(a)| == 3;
  }

  /** A timestamp of a valid reading is 19 characters long, has its
      separators at fixed places, and each field reads back as the number it
      came from. */
  lemma FormatLayout(t: DateTime)
    requires ValidDateTime(t)
    ensures var r := Format(t);
      && |r| == 19
      && r[4] == '-' && r[7] == '-' && r[10] == ' ' && r[13] == ':' && r[16] == ':'
      && AllDigits(r[0..4]) && DigitsValue(r[0..4]) == t.year
      && AllDigits(r[5..7]) && DigitsValue(r[5..7]) == t.month
      && AllDigits(r[8..10]) && DigitsValue(r[8..10]) == t.day
      && AllDigits(r[11..13]) && DigitsValue(r[11..13]) == t.hour
      && AllDigits(r[14..16]) && DigitsValue(r[14..16]) == t.minute
      && AllDigits(r[17..19]) && DigitsValue(r[17..19]) == t.second
  {
    FourDigitYear(t.year);
    DigitsValueOfNatToString(t.year);
    var y, mo, d := NatToString(t.year), Pad(t.month), Pad(t.day);
    var h, mi, s := Pad(t.hour), Pad(t.minute), Pad(t.second);
    FieldsAt(y, mo, d, h, mi, s);
  }

  /** Where the fields sit in a joined timestamp, for any four-character
      year and two-character fields. */
  lemma FieldsAt(y: string, mo: string, d: string, h: string, mi: string, s: string)
    requires |y| == 4 && |mo| == 2 && |d| == 2 && |h| == 2 && |mi| == 2 && |s| == 2
    ensures var r := y + "-" + mo + "-" + d + " " + h + ":" + mi + ":" + s;
      && |r| == 19
      && r[4] == '-' && r[7] == '-' && r[10] == ' ' && r[13] == ':' && r[16] == ':'
      && r[0..4] == y && r[5..7] == mo && r[8..10] == d
      && r[11..13] == h && r[14..16] == mi && r[17..19] == s
  {
    var front := y + "-" + mo + "-" + d;
    var back := h + ":" + mi + ":" + s;
    var r := y + "-" + mo + "-" + d + " " + h + ":" + mi + ":" + s;
    assert r == front + " " + back;
    assert |front| == 10 && |back| == 8;
    assert r[..10] == front && r[11..] == back;
    assert front[0..4] == y && front[5..7] == mo && front[8..10] == d;
    assert back[0..2] == h && back[3..5] == mi && back[6..8] == s;
  }

  /** Distinct valid clock readings give distinct timestamps, so a timestamp
      identifies its second. */
  lemma FormatInjective(a: DateTime, b: DateTime)
    requires ValidDateTime(a) && ValidDateTime(b)
    requires Format(a) == Format(b)
    ensures a == b
  {
    FormatLayout(a);
    FormatLayout(b);
  }

  /** Example: 5 March 2024, 09:07:03. */
  lemma FormatExample()
    ensures Format(DateTime(2024, 3, 5, 9, 7, 3)) == "2024-03-05 09:07:03"
  {
    assert NatToString(2024) == "2024" by {
      assert NatToString(2) == "2";
      assert NatToString(20) == NatToString(2) + "0";
      assert NatToString(202) == NatToString(20) + "2";
      assert NatToString(2024) == NatToString(202) + "4";
    }
  }
}
