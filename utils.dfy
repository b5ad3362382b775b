/**
 * The string helpers of frontend/src/lib/utils.ts: the initials shown in
 * an avatar and the zero-padded `dd/mm/yyyy` and `hh:mm` texts. The date
 * helpers take the values a JS `Date`'s local getters return (day of the
 * month 1..31, zero-based month 0..11, full year, hours 0..23, minutes
 * 0..59) instead of the `Date` itself.
 */
module Utils {
  import opened Text

  // ------------------------------------------------------------- initials

  /**
   * The letters `toUpperCase` maps to one other character: ASCII and Latin-1
   * lower-case letters. 'µ' (U+00B5), which `toUpperCase` maps to Greek 'Μ',
   * is not among them and is kept as it is.
   */
  predicate IsLower(c: char)
  {
    ('a' <= c <= 'z') || ('à' <= c <= 'ÿ' && c != '÷')
  }

  /** `toUpperCase` on one character, for the letters `IsLower` names; every other character is kept. */
  function ToUpper(c: char): (u: char)
    ensures !IsLower(u)
    ensures !IsLower(c) ==> u == c
  {
    if 'a' <= c <= 'z' then (c as int - 32) as char
    else if 'à' <= c <= 'þ' && c != '÷' then (c as int - 0x20) as char
    else if c == 'ÿ' then 'Ÿ'
    else c
  }

  function UpperAll(s: string): (r: string)
    ensures |r| == |s| && forall i :: 0 <= i < |s| ==> r[i] == ToUpper(s[i])
  {
    seq(|s|, i requires 0 <= i < |s| => ToUpper(s[i]))
  }

  /** `word.charAt(0)` for every word, joined: an empty word adds nothing. */
  function Firsts(words: seq<string>): string
  {
    if words == [] then "" else (if words[0] == "" then "" else [words[0][0]]) + Firsts(words[1..])
  }

  /** The words that are not empty, in order. */
  function NonEmptyWords(words: seq<string>): (r: seq<string>)
    ensures |r| <= |words|
    ensures forall i :: 0 <= i < |r| ==> r[i] != ""
  {
    if words == [] then []
    else if words[0] == "" then NonEmptyWords(words[1..])
    else [words[0]] + NonEmptyWords(words[1..])
  }

  /** The joined first characters are the first characters of the non-empty words, in order. */
  lemma {:induction false} FirstsOfWords(words: seq<string>)
    ensures |Firsts(words)| == |NonEmptyWords(words)|
    ensures forall i :: 0 <= i < |Firsts(words)| ==> Firsts(words)[i] == NonEmptyWords(words)[i][0]
  {
    if words != [] {
      FirstsOfWords(words[1..]);
    }
  }

  /**
   * `getInitials`: split the name on single spaces, keep the first
   * character of every word, upper-case, keep the first two.
   */
  function GetInitials(name: string): (r: string)
    ensures |r| <= 2
    ensures forall i :: 0 <= i < |r| ==> !IsLower(r[i])
  {
    InitialsOf(Split(name, ' '))
  }

  /** The first two upper-cased first characters of a list of words. */
  function InitialsOf(words: seq<string>): (r: string)
    ensures |r| <= 2
    ensures forall i :: 0 <= i < |r| ==> !IsLower(r[i])
  {
    var letters := UpperAll(Firsts(words));
    if |letters| <= 2 then letters else letters[..2]
  }

  /**
   * The initials are the upper-cased first characters of the first two
   * non-empty words, in order, and there are as many as such words, up to two.
   */
  lemma InitialsOfWords(name: string)
    ensures var words := NonEmptyWords(Split(name, ' '));
      && |GetInitials(name)| == (if |words| < 2 then |words| else 2)
      && forall i :: 0 <= i < |GetInitials(name)| ==> GetInitials(name)[i] == ToUpper(words[i][0])
  {
    FirstsOfWords(Split(name, ' '));
  }

  /** A first and a last name give their two capitals. */
  lemma TwoWordInitials(first: string, last: string)
    requires first != "" && last != "" && ' ' !in first && ' ' !in last
    ensures GetInitials(first + " " + last) == [ToUpper(first[0]), ToUpper(last[0])]
  {
    SplitAfterPiece(first, last, ' ');
    SplitNoSeparator(last, ' ');
    assert first + " " + last == first + [' '] + last;
    assert Split(first + " " + last, ' ') == [first, last];
    NamePairInitials(first, last);
  }

  lemma NamePairInitials(first: string, last: string)
    requires first != "" && last != ""
    ensures InitialsOf([first, last]) == [ToUpper(first[0]), ToUpper(last[0])]
  {
    assert [first, last][1..] == [last];
    assert [last][1..] == [];
    assert Firsts([last]) == [last[0]];
    assert Firsts([first, last]) == [first[0]] + [last[0]];
  }

  /** A second space between the names makes an empty word, which adds no initial. */
  lemma DoubleSpaceInitials(first: string, last: string)
    requires first != "" && last != "" && ' ' !in first && ' ' !in last
    ensures GetInitials(first + "  " + last) == GetInitials(first + " " + last)
  {
    SplitAfterPiece(first, " " + last, ' ');
    SplitAfterPiece("", last, ' ');
    SplitNoSeparator(last, ' ');
    assert first + "  " + last == first + [' '] + (" " + last);
    assert " " + last == [] + [' '] + last;
    assert Split(first + "  " + last, ' ') == [first, "", last];
    TwoWordInitials(first, last);
    assert [first, "", last][1..] == ["", last];
    assert ["", last][1..] == [last];
    assert [first, last][1..] == [last];
    assert Firsts([first, "", last]) == Firsts([first, last]);
  }

  /** `getInitials('João Silva')` is `JS`. */
  lemma JoaoSilva()
    ensures GetInitials("João Silva") == "JS"
  {
    TwoWordInitials("João", "Silva");
    assert "João" + " " + "Silva" == "João Silva";
  }

  // ---------------------------------------------------------------- dates

  /** `formatDateSafe`: day and month on two digits, the month counted from one, then the year as printed. */
  function FormatDateSafe(day: int, month: int, year: int): (r: string)
    requires 1 <= day <= 31 && 0 <= month <= 11
    ensures |r| == 6 + |IntToString(year)| && r[6..] == IntToString(year)
  {
    var date := TwoDigits(day) + ['/'] + TwoDigits(month + 1) + ['/'];
    assert |date| == 6;
    assert (date + IntToString(year))[6..] == IntToString(year);
    date + IntToString(year)
  }

  /** `formatDate` computes exactly what `formatDateSafe` does. */
  function FormatDate(day: int, month: int, year: int): (r: string)
    requires 1 <= day <= 31 && 0 <= month <= 11
    ensures r == FormatDateSafe(day, month, year)
  {
    TwoDigits(day) + ['/'] + TwoDigits(month + 1) + ['/'] + IntToString(year)
  }

  /** `formatTimeSafe`: hours and minutes on two digits each. */
  function FormatTimeSafe(hours: int, minutes: int): (r: string)
    requires 0 <= hours <= 23 && 0 <= minutes <= 59
    ensures |r| == 5
  {
    TwoDigits(hours) + [':'] + TwoDigits(minutes)
  }

  /** `formatDateTime`: the date, a space, the time. */
  function FormatDateTime(day: int, month: int, year: int, hours: int, minutes: int): (r: string)
    requires 1 <= day <= 31 && 0 <= month <= 11 && 0 <= hours <= 23 && 0 <= minutes <= 59
    ensures r == FormatDate(day, month, year) + [' '] + FormatTimeSafe(hours, minutes)
  {
    var d, m, y, h, mi := TwoDigits(day), TwoDigits(month + 1), IntToString(year), TwoDigits(hours), TwoDigits(minutes);
    Regroup(d, m, y, h, mi);
    d + ['/'] + m + ['/'] + y + [' '] + h + [':'] + mi
  }

  lemma Regroup(d: string, m: string, y: string, h: string, mi: string)
    ensures d + ['/'] + m + ['/'] + y + [' '] + h + [':'] + mi == (d + ['/'] + m + ['/'] + y) + [' '] + (h + [':'] + mi)
  {
  }

  /** The date text reads back as its day, its one-based month and its year. */
  lemma DateReadsBack(day: int, month: int, year: int)
    requires 1 <= day <= 31 && 0 <= month <= 11
    ensures var r := FormatDateSafe(day, month, year);
      && |r| >= 7 && r[2] == '/' && r[5] == '/'
      && AllDigits(r[..2]) && DigitsValue(r[..2]) == day
      && AllDigits(r[3..5]) && DigitsValue(r[3..5]) == month + 1
      && (year >= 0 ==> AllDigits(r[6..]) && DigitsValue(r[6..]) == year)
      && (year < 0 ==> r[6] == '-' && AllDigits(r[7..]) && DigitsValue(r[7..]) == -year)
  {
    var d, m, y := TwoDigits(day), TwoDigits(month + 1), IntToString(year);
    assert FormatDateSafe(day, month, year) == d + ['/'] + m + ['/'] + y;
    Slashes(d, m, y, '/');
  }

  /** Two two-character fields and a third, each followed by a separator but the last. */
  lemma Slashes(a: string, b: string, c: string, sep: char)
    requires |a| == 2 && |b| == 2 && |c| >= 1
    ensures var r := a + [sep] + b + [sep] + c;
      && |r| == 6 + |c| && r[2] == sep && r[5] == sep && r[..2] == a && r[3..5] == b && r[6..] == c && r[7..] == c[1..]
  {
  }

  /** Different dates never print the same text. */
  lemma DateInjective(d1: int, m1: int, y1: int, d2: int, m2: int, y2: int)
    requires 1 <= d1 <= 31 && 0 <= m1 <= 11 && 1 <= d2 <= 31 && 0 <= m2 <= 11
    requires FormatDateSafe(d1, m1, y1) == FormatDateSafe(d2, m2, y2)
    ensures d1 == d2 && m1 == m2 && y1 == y2
  {
    DateReadsBack(d1, m1, y1);
    DateReadsBack(d2, m2, y2);
    FieldsUnique(FormatDateSafe(d1, m1, y1), d1, m1, y1, d2, m2, y2);
  }

  /** One text cannot read back as two different dates. */
  lemma FieldsUnique(r: string, d1: int, m1: int, y1: int, d2: int, m2: int, y2: int)
    requires |r| >= 7 && AllDigits(r[..2]) && AllDigits(r[3..5])
    requires DigitsValue(r[..2]) == d1 && DigitsValue(r[..2]) == d2
    requires DigitsValue(r[3..5]) == m1 + 1 && DigitsValue(r[3..5]) == m2 + 1
    requires y1 >= 0 ==> AllDigits(r[6..]) && DigitsValue(r[6..]) == y1
    requires y1 < 0 ==> r[6] == '-' && AllDigits(r[7..]) && DigitsValue(r[7..]) == -y1
    requires y2 >= 0 ==> AllDigits(r[6..]) && DigitsValue(r[6..]) == y2
    requires y2 < 0 ==> r[6] == '-' && AllDigits(r[7..]) && DigitsValue(r[7..]) == -y2
    ensures d1 == d2 && m1 == m2 && y1 == y2
  {
    assert r[6..][0] == r[6];
  }

  /** A four-digit year makes the ten characters `dd/mm/yyyy`. */
  lemma FourDigitYearDate(day: int, month: int, year: int)
    requires 1 <= day <= 31 && 0 <= month <= 11 && 1000 <= year <= 9999
    ensures |FormatDateSafe(day, month, year)| == 10
  {
    YearWidth(year);
  }

  lemma {:induction false} YearWidth(n: nat)
    requires 1000 <= n <= 9999
    ensures |NatToString(n)| == 4
  {
    assert |NatToString(n / 10)| == 3 by {
      assert |NatToString(n / 100)| == 2;
    }
  }

  /** The time text reads back as its hours and minutes around the colon. */
  lemma TimeReadsBack(hours: int, minutes: int)
    requires 0 <= hours <= 23 && 0 <= minutes <= 59
    ensures var r := FormatTimeSafe(hours, minutes);
      && r[2] == ':'
      && AllDigits(r[..2]) && DigitsValue(r[..2]) == hours
      && AllDigits(r[3..]) && DigitsValue(r[3..]) == minutes
  {
    Around(FormatTimeSafe(hours, minutes), TwoDigits(hours), TwoDigits(minutes), ':');
  }

  /** A two-character field, a separator, and the rest. */
  lemma Around(r: string, a: string, b: string, sep: char)
    requires |a| == 2 && r == a + [sep] + b
    ensures |r| == 3 + |b| && r[2] == sep && r[..2] == a && r[3..] == b
  {
  }

  /** With a four-digit year the date and time fill `dd/mm/yyyy hh:mm`, sixteen characters. */
  lemma DateTimeLayout(day: int, month: int, year: int, hours: int, minutes: int)
    requires 1 <= day <= 31 && 0 <= month <= 11 && 1000 <= year <= 9999 && 0 <= hours <= 23 && 0 <= minutes <= 59
    ensures var r := FormatDateTime(day, month, year, hours, minutes);
      && |r| == 16 && r[10] == ' '
      && r[..10] == FormatDateSafe(day, month, year) && r[11..] == FormatTimeSafe(hours, minutes)
  {
    FourDigitYearDate(day, month, year);
    Joined(FormatDateTime(day, month, year, hours, minutes), FormatDateSafe(day, month, year), FormatTimeSafe(hours, minutes), ' ');
  }

  /** Two texts joined by a separator. */
  lemma Joined(r: string, a: string, b: string, sep: char)
    requires r == a + [sep] + b
    ensures |r| == |a| + 1 + |b| && r[|a|] == sep && r[..|a|] == a && r[|a| + 1..] == b
  {
  }
}
