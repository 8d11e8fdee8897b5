/** The report date stamp (`formatDate`): `DD/MM/YYYY` from the calendar
    fields of a date. The clock read that supplies the date is not modelled;
    the fields are parameters. */
module DateFormat {
  import opened Text

  /** A calendar field rendered in decimal and left-padded with `0` to at
      least two characters. */
  function TwoDigitField(n: nat): (s: string)
    ensures AllDigits(s) && DigitsValue(s) == n
    ensures n < 100 ==> |s| == 2
    ensures |s| >= 2
    ensures n < 10 ==> s == ['0', DigitChar(n)]
  {
    var digits := NatToString(n);
    var s := PadStart(digits, 2, '0');
    LeadingZeros(s[..|s| - |digits|], digits);
    assert s == s[..|s| - |digits|] + digits;
    s
  }

  /** `formatDate` over the values of `getDate()` (the day of the month),
      `getMonth()` (the month counted from 0) and `getFullYear()`. */
  function FormatDate(day: nat, monthIndex: nat, year: int): (r: string)
    ensures |r| >= 7
    // day and month read back as numbers from the two fixed-width fields
    ensures day < 100 && monthIndex < 99 ==>
      |r| >= 7 && r[2] == '/' && r[5] == '/'
      && AllDigits(r[..2]) && DigitsValue(r[..2]) == day
      && AllDigits(r[3..5]) && DigitsValue(r[3..5]) == monthIndex + 1
      && r[6..] == IntToString(year)
    // a single-digit day or month gets exactly one leading zero
    ensures day < 10 ==> r[0] == '0' && r[1] == DigitChar(day)
    ensures monthIndex < 9 && day < 100 ==> r[3] == '0' && r[4] == DigitChar(monthIndex + 1)
    // so every real calendar date is `DD/MM/` followed by the unpadded year
    ensures 1 <= day <= 31 && monthIndex <= 11 ==> |r| == 6 + |IntToString(year)|
  {
    var dd := TwoDigitField(day);
    var mm := TwoDigitField(monthIndex + 1);
    var yyyy := IntToString(year);
    SlashJoin(dd, mm, yyyy);
    dd + "/" + mm + "/" + yyyy
  }

  /** Where the parts of `a/b/c` sit. */
  lemma SlashJoin(a: string, b: string, c: string)
    ensures var r := a + "/" + b + "/" + c;
      |r| == |a| + |b| + |c| + 2
      && r[..|a|] == a && r[|a|] == '/'
      && r[|a| + 1..|a| + 1 + |b|] == b && r[|a| + 1 + |b|] == '/'
      && r[|a| + |b| + 2..] == c
    ensures var r := a + "/" + b + "/" + c;
      |a| == 2 && |b| == 2 ==> r[0] == a[0] && r[1] == a[1] && r[3] == b[0] && r[4] == b[1]
  {
  }
}
