/** The date repair cascade of `ModsTransformer.fix_dates`: a raw date string is cleaned and
    then tried against an ordered list of rules; the first rule that applies decides whether a
    new value is stored, a value is computed and returned without being stored, or nothing
    is stored. The `re` patterns of the source are written out as recognizers. */
module DateRepair {
  import opened PyStr
  import opened PyTree

  /** What `fix_dates` does to the stored value. */
  datatype DateOutcome =
    | Stored(value: string)     // `self.summary[key] = value`
    | Discarded(value: string)  // `return value`: computed, but the stored value is not touched
    | Reported                  // a diagnostic is printed and the stored value is not touched

  /** `months` (and its copy `month_map`): full English month names to month numbers. */
  function MonthNumber(name: string): Option<string> {
    match name
    case "January" => Some("01")
    case "February" => Some("02")
    case "March" => Some("03")
    case "April" => Some("04")
    case "May" => Some("05")
    case "June" => Some("06")
    case "July" => Some("07")
    case "August" => Some("08")
    case "September" => Some("09")
    case "October" => Some("10")
    case "November" => Some("11")
    case "December" => Some("12")
    case _ => None
  }

  /** `mistakes`: known malformed dates and their replacements. */
  function Correction(date: string): Option<string> {
    match date
    case "8 Feb 1990" => Some("1990-02-08")
    case "Sept 1993" => Some("1993-09")
    case "Winter 2005" => Some("2005-24")
    case "November. 2008" => Some("2008-11")
    case "Between 1949 and 1965" => Some("1949-1965")
    case "Between 1953 and 1966" => Some("1953-1966")
    case "[before 1970]" => Some("-1970")
    case _ => None
  }

  /** The value the rules see: stripped, corrected by the table, then without `;` and `,`. */
  function Cleaned(raw: string): (date: string)
    ensures ';' !in date && ',' !in date
  {
    var stripped := Strip(raw);
    var corrected := match Correction(stripped) case Some(c) => c case None => stripped;
    ReplaceChar(ReplaceChar(corrected, ';', ""), ',', "")
  }

  /** The character classes the patterns repeat: `\w`, `\s` and `[A-Za-z]`. */
  datatype CharClass = WordChars | Spaces | Letters

  predicate InClass(c: char, p: CharClass) {
    match p
    case WordChars => IsWordChar(c)
    case Spaces => IsSpace(c)
    case Letters => IsAlpha(c)
  }

  /** End of the maximal run of characters of class `p` that starts at `i`. */
  function RunEnd(s: string, i: nat, p: CharClass): (j: nat)
    requires i <= |s|
    ensures i <= j <= |s|
    ensures forall k :: i <= k < j ==> InClass(s[k], p)
    ensures j < |s| ==> !InClass(s[j], p)
    decreases |s| - i
  {
    if i == |s| || !InClass(s[i], p) then i else RunEnd(s, i + 1, p)
  }

  /** Four digits start at `k`. */
  predicate YearAt(s: string, k: nat) {
    k + 4 <= |s| && forall q :: k <= q < k + 4 ==> IsDigit(s[q])
  }

  /** The word `s[i..j]`, the whitespace `s[j..k]` and the four digits from `k`. */
  predicate WordYearParts(s: string, i: nat, j: nat, k: nat) {
    i < j < k && k + 4 <= |s| && (forall q :: i <= q < j ==> IsWordChar(s[q])) &&
    (forall q :: j <= q < k ==> IsSpace(s[q])) && YearAt(s, k)
  }

  /** `(\w+)\s+(\d{4})` matches at position `i`. */
  predicate WordYearAt(s: string, i: nat) {
    i < |s| && IsWordChar(s[i]) &&
    var j := RunEnd(s, i, WordChars);
    var k := RunEnd(s, j, Spaces);
    j < k && YearAt(s, k)
  }

  /** `re.search(r'(\w+)\s+(\d{4})', s)` from position `i`: the leftmost match. */
  function SearchWordYear(s: string, i: nat): (r: Option<nat>)
    requires i <= |s|
    ensures r.Some? ==> i <= r.value < |s| && WordYearAt(s, r.value)
    ensures r.Some? ==> forall p :: i <= p < r.value ==> !WordYearAt(s, p)
    ensures r.None? ==> forall p :: i <= p < |s| ==> !WordYearAt(s, p)
    decreases |s| - i
  {
    if i == |s| then None else if WordYearAt(s, i) then Some(i) else SearchWordYear(s, i + 1)
  }

  /** The value the `January 1973` rule stores for a match at `i`: the year, a dash, and the
      month number of the word, or `??` when the word is not a full month name. */
  function WordYearValue(s: string, i: nat): (v: string)
    requires WordYearAt(s, i)
    ensures |v| == 7 && v[4] == '-' && AllDigits(v[..4])
  {
    var j := RunEnd(s, i, WordChars);
    var k := RunEnd(s, j, Spaces);
    s[k..k + 4] + "-" + MonthOrUnknown(s[i..j])
  }

  /** The stored value is the matched year, a dash and the month number of the matched word:
      the word, the whitespace after it and the four digits lie where the pattern puts them. */
  lemma WordYearValueParts(s: string, i: nat)
    requires WordYearAt(s, i)
    ensures exists j: nat, k: nat :: (WordYearParts(s, i, j, k) &&
      WordYearValue(s, i) == s[k..k + 4] + "-" + MonthOrUnknown(s[i..j]))
  {
    var j := RunEnd(s, i, WordChars);
    var k := RunEnd(s, j, Spaces);
    WordYearValueAt(s, i, j, k);
    assert WordYearParts(s, i, j, k);
  }

  /** The stored value in terms of where the word and the year lie. */
  lemma WordYearValueAt(s: string, i: nat, j: nat, k: nat)
    requires WordYearAt(s, i) && j == RunEnd(s, i, WordChars) && k == RunEnd(s, j, Spaces)
    ensures WordYearValue(s, i) == s[k..k + 4] + "-" + MonthOrUnknown(s[i..j])
  {
  }

  /** The stored value from the matched word and year. */
  lemma WordYearValueOf(s: string, i: nat, j: nat, k: nat, word: string, year: string)
    requires WordYearAt(s, i) && j == RunEnd(s, i, WordChars) && k == RunEnd(s, j, Spaces)
    requires s[i..j] == word && s[k..k + 4] == year
    ensures WordYearValue(s, i) == year + "-" + MonthOrUnknown(word)
  {
    WordYearValueAt(s, i, j, k);
  }

  /** `month_map.get(word, "??")`. */
  function MonthOrUnknown(word: string): (m: string)
    ensures m == "??" <==> MonthNumber(word).None?
    ensures MonthNumber(word).Some? ==> m == MonthNumber(word).value
  {
    match MonthNumber(word) case Some(m) => m case None => "??"
  }

  /** `,?\s*(\d{4})` from position `j`: where the year starts. */
  function CommaSpaceYear(s: string, j: nat): Option<nat>
    requires j <= |s|
  {
    var c := if j < |s| && s[j] == ',' then j + 1 else j;
    var k := RunEnd(s, c, Spaces);
    if YearAt(s, k) then Some(k) else None
  }

  /** `re.match(r"([A-Za-z]+),?\s*(\d{4})", s)`: the month word and the year. */
  function MonthYearMatch(s: string): Option<(string, string)> {
    if s == [] || !IsAlpha(s[0]) then None
    else
      var j := RunEnd(s, 0, Letters);
      match CommaSpaceYear(s, j)
      case Some(k) => Some((s[..j], s[k..k + 4]))
      case None => None
  }

  /** `re.match(r"([A-Za-z]+)-([A-Za-z]+),?\s*(\d{4})", s)`: both month words and the year. */
  function MonthRangeMatch(s: string): Option<(string, string, string)> {
    if s == [] || !IsAlpha(s[0]) then None
    else
      var j1 := RunEnd(s, 0, Letters);
      if j1 + 1 < |s| && s[j1] == '-' && IsAlpha(s[j1 + 1]) then
        var j2 := RunEnd(s, j1 + 1, Letters);
        match CommaSpaceYear(s, j2)
        case Some(k) => Some((s[..j1], s[j1 + 1..j2], s[k..k + 4]))
        case None => None
      else None
  }

  /** `re.match(r"\b(18|19|20)\d{2}-(\d{2})\b", s)`. */
  predicate ShortRange(s: string) {
    |s| >= 7 && ((s[0] == '1' && (s[1] == '8' || s[1] == '9')) || (s[0] == '2' && s[1] == '0')) && IsDigit(s[2]) && IsDigit(s[3]) && s[4] == '-'
    && IsDigit(s[5]) && IsDigit(s[6]) && (|s| == 7 || !IsWordChar(s[7]))
  }

  /** The value the `1982-83` rule stores from `years = date.split('-')`: `years[0]`, a slash,
      and `years[1]` prefixed with the century of `years[0]`, which is `20` when `years[0]` is
      1999. The match puts the first dash at index 4. */
  function ShortRangeValue(s: string): string
    requires ShortRange(s)
  {
    var first := s[..4];
    var rest := s[5..];
    var second := rest[..IndexOf(rest, '-')];
    var century := if first == "1999" then "20" else first[..2];
    first + "/" + century + second
  }

  /** The two pieces `ShortRangeValue` uses are the first two pieces of `s.split('-')`. */
  lemma ShortRangePieces(s: string)
    requires ShortRange(s)
    ensures |SplitOn(s, '-')| >= 2
    ensures SplitOn(s, '-')[0] == s[..4]
    ensures SplitOn(s, '-')[1] == s[5..][..IndexOf(s[5..], '-')]
  {
    assert IndexOf(s, '-') == 4;
    assert SplitOn(s, '-') == [s[..4]] + SplitOn(s[5..], '-');
  }

  /** Where `re.match(r"^(January|...|December) \d{1,2},\s?\d{4}$", s)` matches: the month
      name, the day digits and the year digits. */
  function FullDateMatch(s: string): Option<(string, string, string)> {
    var sp := IndexOf(s, ' ');
    if MonthNumber(s[..sp]).None? || sp + 1 >= |s| || !IsDigit(s[sp + 1]) then None
    else
      var q := if sp + 2 < |s| && IsDigit(s[sp + 2]) then sp + 3 else sp + 2;
      if q >= |s| || s[q] != ',' then None
      else
        var y := if q + 1 < |s| && IsSpace(s[q + 1]) then q + 2 else q + 1;
        if YearAt(s, y) && (y + 4 == |s| || s[y + 4..] == "\n") then
          Some((s[..sp], s[sp + 1..q], s[y..y + 4]))
        else None
  }

  /** A full-date match needs a comma, which `Cleaned` has removed: the rule never applies. */
  lemma FullDateNeedsComma(s: string)
    requires FullDateMatch(s).Some?
    ensures ',' in s
  {
    var sp := IndexOf(s, ' ');
    var q := if sp + 2 < |s| && IsDigit(s[sp + 2]) then sp + 3 else sp + 2;
    assert s[q] == ',';
  }

  function DigitValue(c: char): nat requires IsDigit(c) { (c - '0') as nat }

  /** The value of a string of decimal digits. */
  function Decimal(s: string): nat
    requires AllDigits(s)
  {
    if s == [] then 0 else 10 * Decimal(s[..|s| - 1]) + DigitValue(s[|s| - 1])
  }

  predicate IsLeapYear(y: nat) { y % 4 == 0 && (y % 100 != 0 || y % 400 == 0) }

  function DaysInMonth(month: string, year: nat): nat {
    if month in {"04", "06", "09", "11"} then 30
    else if month == "02" then (if IsLeapYear(year) then 29 else 28)
    else 31
  }

  /** `datetime.strptime(f"{month} {day}, {year}", "%B %d, %Y").strftime("%Y-%m-%d")`, or
      `None` where `strptime` raises `ValueError` (no such month name, malformed numbers, or a
      day that is not in the calendar). */
  function CalendarDate(month: string, day: string, year: string): Option<string> {
    if MonthNumber(month).None? || !(1 <= |day| <= 2) || !AllDigits(day) || |year| != 4 || !AllDigits(year) then None
    else
    var m := MonthNumber(month).value;
    var d := Decimal(day);
    if Decimal(year) == 0 || d == 0 || d > DaysInMonth(m, Decimal(year)) then None
    else Some(year + "-" + m + "-" + (if |day| == 1 then "0" + day else day))
  }

  /** `re.match(r"\d{4}-\d{4}", s)`. */
  predicate YearRange(s: string) {
    YearAt(s, 0) && |s| >= 9 && s[4] == '-' && YearAt(s, 5)
  }

  /** `fix_dates` applied to the stored string `raw`, with `isEdtf` standing for
      `edtf_validate.valid_edtf.is_valid`: the rules see the cleaned value. */
  function RepairDate(raw: string, isEdtf: string -> bool): DateOutcome {
    WordRules(Cleaned(raw), isEdtf)
  }

  /** The `January 1973` rule, which searches anywhere in the value, then the month rules. */
  function WordRules(date: string, isEdtf: string -> bool): DateOutcome {
    match SearchWordYear(date, 0)
    case Some(i) => Stored(WordYearValue(date, i))
    case None => MonthRules(date, isEdtf)
  }

  /** The `Jan 1999` and `November-December, 2010` rules: their value is returned, not stored. */
  function MonthRules(date: string, isEdtf: string -> bool): DateOutcome {
    var my := MonthYearMatch(date);
    var mr := MonthRangeMatch(date);
    if my.Some? && MonthNumber(my.value.0).Some? then
      Discarded(my.value.1 + "-" + MonthNumber(my.value.0).value)
    else if mr.Some? && MonthNumber(mr.value.0).Some? && MonthNumber(mr.value.1).Some? then
      var year := mr.value.2;
      Discarded(year + "-" + MonthNumber(mr.value.0).value + "/" + year + "-" + MonthNumber(mr.value.1).value)
    else
      NumericRules(date, isEdtf)
  }

  /** The `1982-83` and `February 27, 2010` rules. */
  function NumericRules(date: string, isEdtf: string -> bool): DateOutcome {
    if ShortRange(date) then
      Stored(ShortRangeValue(date))
    else if FullDateMatch(date).Some? then
      FullDateRule(date)
    else
      FinalRules(date, isEdtf)
  }

  /** The `February 27, 2010` rule once it matches: the value is parsed with the calendar, and
      a date the calendar rejects is reported. */
  function FullDateRule(date: string): DateOutcome {
    // The one date the source corrects before parsing: 1990 is not a leap year.
    var fixed := if date == "February 29, 1990" then "February 28, 1990" else date;
    match FullDateMatch(fixed)
    case Some((month, day, year)) =>
      (match CalendarDate(month, day, year) case Some(v) => Stored(v) case None => Reported)
    case None => Reported
  }

  /** The year-range and `ca.` rules, then the EDTF check. */
  function FinalRules(date: string, isEdtf: string -> bool): DateOutcome {
    if YearRange(date) then
      Stored(ReplaceChar(date, '-', "/"))
    else if Contains(date, "ca.") then
      ContainsVisible(date, "ca.");
      Stored(LastWord(date) + "~")
    else if isEdtf(date) then
      Stored(date)
    else
      Reported
  }

  /** `s.split()[-1]`. */
  function LastWord(s: string): string
    requires exists i :: 0 <= i < |s| && !IsSpace(s[i])
  {
    var ws := Words(s);
    ws[|ws| - 1]
  }

  /** A string that contains a piece starting with a visible character has a visible character. */
  lemma {:induction false} ContainsVisible(s: string, sub: string)
    requires Contains(s, sub) && sub != [] && !IsSpace(sub[0])
    ensures exists i :: 0 <= i < |s| && !IsSpace(s[i])
    decreases |s|
  {
    if StartsWith(s, sub) {
      assert s[0] == sub[0];
    } else {
      ContainsVisible(s[1..], sub);
      var i :| 0 <= i < |s| - 1 && !IsSpace(s[1..][i]);
      assert !IsSpace(s[i + 1]);
    }
  }

  // ---------------------------------------------------------------------------------------
  // Properties of the cascade

  /** Every full month name is a non-empty run of letters. */
  lemma MonthNamesAreLetters(m: string)
    requires MonthNumber(m).Some?
    ensures m != [] && forall i :: 0 <= i < |m| ==> IsAlpha(m[i])
  {
  }

  /** Every mistake the table corrects contains a space. */
  lemma CorrectionsHaveSpace(s: string)
    requires Correction(s).Some?
    ensures ' ' in s
  {
    if s == "8 Feb 1990" || s == "Sept 1993" || s == "Winter 2005" || s == "November. 2008" {
      assert s[|s| - 5] == ' ';
    } else {
      assert s[7] == ' ';
    }
  }

  /** The `Month D, YYYY` rule can never apply: its pattern needs a comma, and every comma has
      been removed before the rules run. */
  lemma CalendarRuleUnreachable(raw: string)
    ensures FullDateMatch(Cleaned(raw)).None?
  {
    var date := Cleaned(raw);
    if FullDateMatch(date).Some? {
      FullDateNeedsComma(date);
    }
  }

  /** A date is reported only when the cleaned value is not valid EDTF and neither the
      `January 1973` nor the `1982-83` rule matched. (A `Discarded` value also leaves the stored
      date unchanged.) */
  lemma ReportedOnlyWhenInvalid(raw: string, isEdtf: string -> bool)
    ensures RepairDate(raw, isEdtf) == Reported ==> !isEdtf(Cleaned(raw))
    ensures RepairDate(raw, isEdtf) == Reported ==> SearchWordYear(Cleaned(raw), 0).None? && !ShortRange(Cleaned(raw))
  {
    CalendarRuleUnreachable(raw);
  }

  /** A cleaned value without whitespace never matches the `January 1973` rule. */
  lemma NoSpaceNoWordYear(s: string, i: nat)
    requires i <= |s|
    requires forall k :: 0 <= k < |s| ==> !IsSpace(s[k])
    ensures SearchWordYear(s, i).None?
  {
  }

  /** `Month YYYY`, and any other word followed by a year: the year and the month number are
      stored, with `??` exactly when the word is not a full month name. */
  lemma WordYearStored(w: string, y: string, isEdtf: string -> bool)
    requires w != [] && forall i :: 0 <= i < |w| ==> IsWordChar(w[i])
    requires |y| == 4 && AllDigits(y)
    requires w != "Sept" && w != "Winter"
    ensures RepairDate(w + " " + y, isEdtf) == Stored(y + "-" + MonthOrUnknown(w))
  {
    WordYearCleaned(w, y);
    WordYearMatch(w, y);
    WordYearRule(w + " " + y, isEdtf);
  }

  /** When the cleaned value has a word followed by a year, the leftmost such match decides. */
  lemma WordYearRule(raw: string, isEdtf: string -> bool)
    requires SearchWordYear(Cleaned(raw), 0).Some?
    ensures RepairDate(raw, isEdtf) == Stored(WordYearValue(Cleaned(raw), SearchWordYear(Cleaned(raw), 0).value))
  {
  }

  /** The same rule, stated on a cleaned value and a match position already known. */
  lemma WordYearFound(raw: string, t: string, i: nat, isEdtf: string -> bool)
    requires Cleaned(raw) == t && SearchWordYear(t, 0) == Some(i)
    ensures WordYearAt(t, i) && RepairDate(raw, isEdtf) == Stored(WordYearValue(t, i))
  {
    WordYearRule(raw, isEdtf);
  }

  /** Cleaning leaves a word, a space and a year as they are. */
  lemma WordYearCleaned(w: string, y: string)
    requires w != [] && forall i :: 0 <= i < |w| ==> IsWordChar(w[i])
    requires |y| == 4 && AllDigits(y)
    requires w != "Sept" && w != "Winter"
    ensures Cleaned(w + " " + y) == w + " " + y
  {
    var s := w + " " + y;
    assert Strip(s) == s;
    NotACorrection(w, y);
    assert ';' !in s && ',' !in s by {
      assert forall k :: 0 <= k < |s| ==> s[k] != ';' && s[k] != ',' by {
        forall k | 0 <= k < |s| ensures s[k] != ';' && s[k] != ',' {
          if k < |w| { assert s[k] == w[k]; } else if k > |w| { assert s[k] == y[k - |w| - 1]; } else { assert s[k] == ' '; }
        }
      }
    }
  }

  /** The leftmost match in a word, a space and a year is at the start, and its value is the
      year and the word's month number. */
  lemma WordYearMatch(w: string, y: string)
    requires w != [] && forall i :: 0 <= i < |w| ==> IsWordChar(w[i])
    requires |y| == 4 && AllDigits(y)
    ensures SearchWordYear(w + " " + y, 0) == Some(0)
    ensures WordYearValue(w + " " + y, 0) == y + "-" + MonthOrUnknown(w)
  {
    var s := w + " " + y;
    assert RunEnd(s, 0, WordChars) == |w| by {
      assert forall k :: 0 <= k < |w| ==> s[k] == w[k];
      RunEndAt(s, 0, |w|, WordChars);
    }
    assert RunEnd(s, |w|, Spaces) == |w| + 1 by {
      assert s[|w| + 1] == y[0];
      RunEndAt(s, |w|, |w| + 1, Spaces);
    }
    assert s[|w| + 1..|w| + 5] == y;
    assert s[0..|w|] == w;
  }

  /** A run of class `p` from `i` that stops at `j` ends at `j`. */
  lemma {:induction false} RunEndAt(s: string, i: nat, j: nat, p: CharClass)
    requires i <= j <= |s|
    requires forall k :: i <= k < j ==> InClass(s[k], p)
    requires j < |s| ==> !InClass(s[j], p)
    ensures RunEnd(s, i, p) == j
    decreases j - i
  {
    if i < j {
      RunEndAt(s, i + 1, j, p);
    }
  }

  /** Of the mistakes the table corrects, only `Sept 1993` and `Winter 2005` have the shape
      word, space, four digits. */
  lemma NotACorrection(w: string, y: string)
    requires w != [] && forall i :: 0 <= i < |w| ==> IsWordChar(w[i])
    requires |y| == 4 && AllDigits(y)
    requires w != "Sept" && w != "Winter"
    ensures Correction(w + " " + y).None?
  {
    var s := w + " " + y;
    assert s[..|w|] == w;
    assert s[|w| + 1..] == y;
    assert s != "8 Feb 1990" by { if |s| == 10 { assert s[1] == w[1]; } }
    assert s != "November. 2008" by { if |s| == 14 { assert s[8] == w[8]; } }
    assert s != "Between 1949 and 1965" by { if |s| == 21 { assert s[7] == w[7]; } }
    assert s != "Between 1953 and 1966" by { if |s| == 21 { assert s[7] == w[7]; } }
    assert s != "[before 1970]" by { if |s| == 13 { assert s[12] == y[3]; } }
    assert s != "Sept 1993" by { if |s| == 9 { assert s[..4] == w; } }
    assert s != "Winter 2005" by { if |s| == 11 { assert s[..6] == w; } }
  }

  /** A cleaned value without whitespace, `;` or `,` that is not a known mistake is itself. */
  lemma CleanedNoSpace(s: string)
    requires s != [] && forall k :: 0 <= k < |s| ==> !IsSpace(s[k]) && s[k] != ';' && s[k] != ','
    ensures Cleaned(s) == s
  {
    assert Strip(s) == s;
    if Correction(s).Some? {
      CorrectionsHaveSpace(s);
      assert false;
    }
  }

  /** A month name written against its year (`May2005`) matches only the `Jan 1999` rule, whose
      value is returned and never stored. */
  lemma MonthGluedDiscarded(m: string, y: string, isEdtf: string -> bool)
    requires MonthNumber(m).Some?
    requires |y| == 4 && AllDigits(y)
    ensures RepairDate(m + y, isEdtf) == Discarded(y + "-" + MonthNumber(m).value)
  {
    MonthGluedCleaned(m, y);
    MonthGluedMatch(m, y);
  }

  /** Cleaning leaves a month name glued to a year as it is, and no word-year match exists. */
  lemma MonthGluedCleaned(m: string, y: string)
    requires MonthNumber(m).Some?
    requires |y| == 4 && AllDigits(y)
    ensures Cleaned(m + y) == m + y && SearchWordYear(m + y, 0).None?
  {
    var s := m + y;
    MonthNamesAreLetters(m);
    assert forall k :: 0 <= k < |s| ==> !IsSpace(s[k]) && s[k] != ';' && s[k] != ',' by {
      forall k | 0 <= k < |s| ensures !IsSpace(s[k]) && s[k] != ';' && s[k] != ',' {
        if k < |m| { assert s[k] == m[k]; } else { assert s[k] == y[k - |m|]; }
      }
    }
    CleanedNoSpace(s);
    NoSpaceNoWordYear(s, 0);
  }

  /** The `Jan 1999` pattern reads a month name glued to a year as that month and year. */
  lemma MonthGluedMatch(m: string, y: string)
    requires MonthNumber(m).Some?
    requires |y| == 4 && AllDigits(y)
    ensures MonthYearMatch(m + y) == Some((m, y))
  {
    var s := m + y;
    MonthNamesAreLetters(m);
    assert forall k :: 0 <= k < |m| ==> s[k] == m[k];
    assert forall k :: |m| <= k < |s| ==> s[k] == y[k - |m|];
    RunEndAt(s, 0, |m|, Letters);
    RunEndAt(s, |m|, |m|, Spaces);
    assert s[..|m|] == m && s[|m|..|m| + 4] == y;
  }

  /** `1982-83`: a four-digit year from 1800 to 2099, a dash and two digits become a range
      whose second year takes the century of the first, except that `1999-00` ends in 2000. */
  lemma ShortRangeStored(s: string, isEdtf: string -> bool)
    requires |s| == 7 && ShortRange(s)
    ensures RepairDate(s, isEdtf) == Stored(s[..4] + "/" + (if s[..4] == "1999" then "20" else s[..2]) + s[5..])
  {
    CleanedNoSpace(s);
    NoSpaceNoWordYear(s, 0);
    ShortRangeRule(s, isEdtf);
    ShortRangeSplit(s);
  }

  /** A cleaned value that starts with a digit and has no word followed by a year is decided by
      the `1982-83` rule when that rule matches. */
  lemma ShortRangeRule(raw: string, isEdtf: string -> bool)
    requires SearchWordYear(Cleaned(raw), 0).None?
    requires ShortRange(Cleaned(raw))
    ensures RepairDate(raw, isEdtf) == Stored(ShortRangeValue(Cleaned(raw)))
  {
  }

  /** The pieces of a seven-character `CCYY-YY`. */
  lemma ShortRangeSplit(s: string)
    requires |s| == 7 && ShortRange(s)
    ensures ShortRangeValue(s) == s[..4] + "/" + (if s[..4] == "1999" then "20" else s[..2]) + s[5..]
  {
    assert IndexOf(s[5..], '-') == 2;
  }

  /** A seven-character short range has no whitespace, `;` or `,`. */
  lemma ShortRangePlain(s: string)
    requires |s| == 7 && ShortRange(s)
    ensures forall k :: 0 <= k < |s| ==> !IsSpace(s[k]) && s[k] != ';' && s[k] != ','
  {
  }

  /** In `CCYY-MM-DD` the `1982-83` rule keeps the year and the month and drops the day. */
  lemma DayRangeSplit(s: string)
    requires |s| == 10 && ShortRange(s) && s[7] == '-' && IsDigit(s[8]) && IsDigit(s[9])
    ensures ShortRangeValue(s) == s[..4] + "/" + (if s[..4] == "1999" then "20" else s[..2]) + s[5..7]
  {
    assert IndexOf(s[5..], '-') == 2;
  }

  /** A mistake whose correction `fixed` matches the `1982-83` rule is stored as that rule's
      expansion `out` of the correction. */
  lemma CorrectedShortRange(raw: string, fixed: string, out: string, isEdtf: string -> bool)
    requires Strip(raw) == raw && Correction(raw) == Some(fixed)
    requires ShortRange(fixed) && ShortRangeValue(fixed) == out
    requires forall k :: 0 <= k < |fixed| ==> !IsSpace(fixed[k]) && fixed[k] != ';' && fixed[k] != ','
    ensures RepairDate(raw, isEdtf) == Stored(out)
  {
    assert Cleaned(raw) == fixed;
    NoSpaceNoWordYear(fixed, 0);
    ShortRangeRule(raw, isEdtf);
  }

  /** The table entry for `8 Feb 1990`. */
  lemma FebruaryEntry()
    ensures Strip("8 Feb 1990") == "8 Feb 1990" && Correction("8 Feb 1990") == Some("1990-02-08")
  {
  }

  /** How the `1982-83` rule reads `1990-02-08`. */
  lemma FebruaryCorrectionValue()
    ensures ShortRange("1990-02-08") && ShortRangeValue("1990-02-08") == "1990/1902"
    ensures forall k :: 0 <= k < |"1990-02-08"| ==> !IsSpace("1990-02-08"[k]) && "1990-02-08"[k] != ';' && "1990-02-08"[k] != ','
  {
    DayRangeSplit("1990-02-08");
  }

  /** The table corrects `8 Feb 1990` to `1990-02-08`, but the `1982-83` rule then reads its
      first seven characters as a range of years, so `1990/1902` is stored. */
  lemma FebruaryCorrectionReprocessed(isEdtf: string -> bool)
    ensures RepairDate("8 Feb 1990", isEdtf) == Stored("1990/1902")
  {
    FebruaryEntry();
    FebruaryCorrectionValue();
    CorrectedShortRange("8 Feb 1990", "1990-02-08", "1990/1902", isEdtf);
  }

  /** The search finds `k` when nothing between `i` and `k` matches and `k` does. */
  lemma {:induction false} SearchWordYearFinds(s: string, i: nat, k: nat)
    requires i <= k < |s| && WordYearAt(s, k)
    requires forall p :: i <= p < k ==> !WordYearAt(s, p)
    ensures SearchWordYear(s, i) == Some(k)
    decreases k - i
  {
    if i < k {
      SearchWordYearFinds(s, i + 1, k);
    }
  }

  /** None of the mistakes the table corrects contains a comma. */
  lemma CorrectionsHaveNoComma(s: string)
    requires ',' in s
    ensures Correction(s).None?
  {
  }

  /** `February 27, 2010`: the calendar rule meant for a full date never runs, and once the comma
      is gone the `January 1973` search finds the day followed by the year, which is not a month
      name; so the year with `??` is stored and the month and day are lost. */
  lemma FullDateLosesMonth(m: string, d: string, y: string, isEdtf: string -> bool)
    requires MonthNumber(m).Some?
    requires 1 <= |d| <= 2 && AllDigits(d)
    requires |y| == 4 && AllDigits(y)
    ensures RepairDate(m + " " + d + ", " + y, isEdtf) == Stored(y + "-??")
  {
    var raw, t := m + " " + d + ", " + y, m + " " + d + " " + y;
    FullDateSteps(m, d, y);
    FullDateUnknown(m, d, y);
    WordYearFound(raw, t, |m| + 1, isEdtf);
  }

  /** The steps `FullDateLosesMonth` chains: cleaning drops the comma and the search finds the
      day and year. */
  lemma FullDateSteps(m: string, d: string, y: string)
    requires MonthNumber(m).Some?
    requires 1 <= |d| <= 2 && AllDigits(d)
    requires |y| == 4 && AllDigits(y)
    ensures Cleaned(m + " " + d + ", " + y) == m + " " + d + " " + y
    ensures SearchWordYear(m + " " + d + " " + y, 0) == Some(|m| + 1)
  {
    MonthNamesAreLetters(m);
    assert Cleaned(m + " " + d + ", " + y) == m + " " + d + " " + y by {
      FullDateCleaned(m, d, y);
    }
    FullDateSearch(m, d, y);
  }

  /** The day found before the year is no month name, so the stored month is `??`. */
  lemma FullDateUnknown(m: string, d: string, y: string)
    requires 1 <= |d| <= 2 && AllDigits(d)
    requires |y| == 4 && AllDigits(y)
    ensures WordYearAt(m + " " + d + " " + y, |m| + 1)
    ensures WordYearValue(m + " " + d + " " + y, |m| + 1) == y + "-??"
  {
    FullDateValue(m, d, y);
    DigitsAreNoMonth(d);
  }

  /** A number is never a month name. */
  lemma DigitsAreNoMonth(d: string)
    requires d != [] && AllDigits(d)
    ensures MonthNumber(d).None? && MonthOrUnknown(d) == "??"
  {
    assert IsDigit(d[0]);
    if MonthNumber(d).Some? {
      MonthNamesAreLetters(d);
    }
  }

  /** Cleaning `Word D, YYYY` only removes the comma. */
  lemma FullDateCleaned(m: string, d: string, y: string)
    requires m != [] && forall k :: 0 <= k < |m| ==> IsAlpha(m[k])
    requires 1 <= |d| <= 2 && AllDigits(d)
    requires |y| == 4 && AllDigits(y)
    ensures Cleaned(m + " " + d + ", " + y) == m + " " + d + " " + y
  {
    var a, b := m + " " + d, " " + y;
    assert a + "," + b == m + " " + d + ", " + y;
    assert a + b == m + " " + d + " " + y;
    NoSeparators(m, d, y);
    assert a[0] == m[0] && b[|b| - 1] == y[3];
    CleanedJoin(a, b);
  }

  /** `a,b` with no separator in `a` or `b`, and not starting or ending in space, is cleaned
      to `ab`: the comma rules out every correction. */
  lemma CleanedJoin(a: string, b: string)
    requires a != [] && b != [] && !IsSpace(a[0]) && !IsSpace(b[|b| - 1])
    requires ',' !in a && ',' !in b && ';' !in a && ';' !in b
    ensures Cleaned(a + "," + b) == a + b
  {
    var s := a + "," + b;
    assert Strip(s) == s by {
      assert s[0] == a[0] && s[|s| - 1] == b[|b| - 1];
    }
    assert Correction(s).None? by {
      assert s[|a|] == ',';
      CorrectionsHaveNoComma(s);
    }
    CommaRemoved(a, b);
  }

  /** Dropping commas from `a,b` with none in `a` or `b` just joins the two. */
  lemma CommaRemoved(a: string, b: string)
    requires ',' !in a && ',' !in b && ';' !in a && ';' !in b
    ensures ReplaceChar(ReplaceChar(a + "," + b, ';', ""), ',', "") == a + b
  {
    var s := a + ("," + b);
    assert s == a + "," + b;
    assert ReplaceChar(s, ';', "") == s by {
      assert ';' !in "," + b;
    }
    ReplaceCharAppend(a, "," + b, ',', "");
    ReplaceCharAppend(",", b, ',', "");
  }

  /** The parts of `Word D, YYYY` around the comma hold no `;` and no `,`. */
  lemma NoSeparators(m: string, d: string, y: string)
    requires forall k :: 0 <= k < |m| ==> IsAlpha(m[k])
    requires AllDigits(d) && AllDigits(y)
    ensures ',' !in m + " " + d && ';' !in m + " " + d && ',' !in " " + y && ';' !in " " + y
  {
    var a, b := m + " " + d, " " + y;
    forall k | 0 <= k < |a| ensures a[k] != ',' && a[k] != ';' {
      if k < |m| { assert a[k] == m[k]; } else if k > |m| { assert a[k] == d[k - |m| - 1]; }
    }
    forall k | 0 <= k < |b| ensures b[k] != ',' && b[k] != ';' {
      if k > 0 { assert b[k] == y[k - 1]; }
    }
  }

  /** In `Word D YYYY` the leftmost word-year match is the day and the year. */
  lemma FullDateSearch(m: string, d: string, y: string)
    requires m != [] && forall k :: 0 <= k < |m| ==> IsAlpha(m[k])
    requires 1 <= |d| <= 2 && AllDigits(d)
    requires |y| == 4 && AllDigits(y)
    ensures SearchWordYear(m + " " + d + " " + y, 0) == Some(|m| + 1)
    ensures WordYearAt(m + " " + d + " " + y, |m| + 1)
  {
    var t := m + " " + d + " " + y;
    var n := |m|;
    DayYearParts(m, d, y);
    RunEndAt(t, n, n + 1, Spaces);
    forall p | 0 <= p < n ensures !WordYearAt(t, p) {
      RunEndAt(t, p, n, WordChars);
      assert !IsDigit(t[n + 1 + |d|]);
    }
    assert !WordYearAt(t, n);
    DayYearAt(m, d, y);
    SearchWordYearFinds(t, 0, n + 1);
  }

  /** After `Word ` come the day, a space and the year: a word-year match. */
  lemma DayYearAt(m: string, d: string, y: string)
    requires 1 <= |d| <= 2 && AllDigits(d)
    requires |y| == 4 && AllDigits(y)
    ensures WordYearAt(m + " " + d + " " + y, |m| + 1)
    ensures RunEnd(m + " " + d + " " + y, |m| + 1, WordChars) == |m| + 1 + |d|
    ensures RunEnd(m + " " + d + " " + y, |m| + 1 + |d|, Spaces) == |m| + 2 + |d|
  {
    var t := m + " " + d + " " + y;
    var n := |m|;
    DayYearParts(m, d, y);
    RunEndAt(t, n + 1, n + 1 + |d|, WordChars);
    RunEndAt(t, n + 1 + |d|, n + 2 + |d|, Spaces);
  }

  /** The characters of `Word D YYYY`, position by position. */
  lemma DayYearParts(m: string, d: string, y: string)
    ensures var t := m + " " + d + " " + y;
      |t| == |m| + |d| + |y| + 2 && t[|m|] == ' ' && t[|m| + 1 + |d|] == ' ' &&
      (forall k :: 0 <= k < |m| ==> t[k] == m[k]) &&
      (forall k :: 0 <= k < |d| ==> t[|m| + 1 + k] == d[k]) &&
      (forall k :: 0 <= k < |y| ==> t[|m| + 2 + |d| + k] == y[k])
  {
  }

  /** The value stored for `Word D YYYY`: the year and the month number of the day. */
  lemma FullDateValue(m: string, d: string, y: string)
    requires 1 <= |d| <= 2 && AllDigits(d)
    requires |y| == 4 && AllDigits(y)
    ensures WordYearAt(m + " " + d + " " + y, |m| + 1)
    ensures WordYearValue(m + " " + d + " " + y, |m| + 1) == y + "-" + MonthOrUnknown(d)
  {
    DayYearAt(m, d, y);
    DayYearSlices(m, d, y);
    WordYearValueOf(m + " " + d + " " + y, |m| + 1, |m| + 1 + |d|, |m| + 2 + |d|, d, y);
  }

  /** Where the day and the year lie in `Word D YYYY`. */
  lemma DayYearSlices(m: string, d: string, y: string)
    requires |y| == 4
    ensures (m + " " + d + " " + y)[|m| + 1..|m| + 1 + |d|] == d
    ensures (m + " " + d + " " + y)[|m| + 2 + |d|..|m| + 2 + |d| + 4] == y
  {
    DayYearParts(m, d, y);
  }

  // ----- Month ranges, and the corrections the `1982-83` rule reads again -----

  /** The characters of `Month1-Month2YYYY`, position by position. */
  lemma RangeGluedParts(m1: string, m2: string, y: string)
    ensures var t := m1 + "-" + m2 + y;
      |t| == |m1| + |m2| + |y| + 1 && t[|m1|] == '-' &&
      (forall k :: 0 <= k < |m1| ==> t[k] == m1[k]) &&
      (forall k :: |m1| < k <= |m1| + |m2| ==> t[k] == m2[k - |m1| - 1]) &&
      (forall k :: |m1| + |m2| < k < |t| ==> t[k] == y[k - |m1| - |m2| - 1])
  {
  }

  /** The characters of `Month1-Month2 YYYY`, position by position. */
  lemma RangeSpacedParts(m1: string, m2: string, y: string)
    ensures var t := m1 + "-" + m2 + " " + y;
      |t| == |m1| + |m2| + |y| + 2 && t[|m1|] == '-' && t[|m1| + 1 + |m2|] == ' ' &&
      (forall k :: 0 <= k < |m1| ==> t[k] == m1[k]) &&
      (forall k :: |m1| < k <= |m1| + |m2| ==> t[k] == m2[k - |m1| - 1]) &&
      (forall k :: |m1| + |m2| + 1 < k < |t| ==> t[k] == y[k - |m1| - |m2| - 2])
  {
  }

  /** Two month names written against their year (`November-December2010`) match only the
      `November-December, 2010` rule, whose value is returned and never stored. */
  lemma MonthRangeGluedDiscarded(m1: string, m2: string, y: string, isEdtf: string -> bool)
    requires MonthNumber(m1).Some? && MonthNumber(m2).Some?
    requires |y| == 4 && AllDigits(y)
    ensures RepairDate(m1 + "-" + m2 + y, isEdtf) ==
      Discarded(y + "-" + MonthNumber(m1).value + "/" + y + "-" + MonthNumber(m2).value)
  {
    MonthNamesAreLetters(m1);
    MonthNamesAreLetters(m2);
    MonthRangeGluedCleaned(m1, m2, y);
    MonthRangeGluedStops(m1, m2, y);
    MonthRangeGluedMatch(m1, m2, y);
  }

  /** Cleaning leaves `Month1-Month2YYYY` as it is, and no word-year match exists in it. */
  lemma MonthRangeGluedCleaned(m1: string, m2: string, y: string)
    requires m1 != [] && forall k :: 0 <= k < |m1| ==> IsAlpha(m1[k])
    requires forall k :: 0 <= k < |m2| ==> IsAlpha(m2[k])
    requires |y| == 4 && AllDigits(y)
    ensures Cleaned(m1 + "-" + m2 + y) == m1 + "-" + m2 + y
    ensures SearchWordYear(m1 + "-" + m2 + y, 0).None?
  {
    var s := m1 + "-" + m2 + y;
    var n := |m1|;
    RangeGluedParts(m1, m2, y);
    forall k | 0 <= k < |s| ensures IsWordChar(s[k]) || s[k] == '-' {
      if k < n {
        assert IsAlpha(m1[k]);
      } else if n < k <= n + |m2| {
        assert IsAlpha(m2[k - n - 1]);
      } else if k > n + |m2| {
        assert IsDigit(y[k - n - 1 - |m2|]);
      }
    }
    CleanedNoSpace(s);
    NoSpaceNoWordYear(s, 0);
  }

  /** The `Jan 1999` pattern stops at the dash of `Month1-Month2YYYY`. */
  lemma MonthRangeGluedStops(m1: string, m2: string, y: string)
    requires m1 != [] && forall k :: 0 <= k < |m1| ==> IsAlpha(m1[k])
    ensures MonthYearMatch(m1 + "-" + m2 + y).None?
  {
    var s := m1 + "-" + m2 + y;
    var n := |m1|;
    RangeGluedParts(m1, m2, y);
    RunEndAt(s, 0, n, Letters);
    RunEndAt(s, n, n, Spaces);
    assert !YearAt(s, n);
  }

  /** The `November-December, 2010` pattern reads both months of `Month1-Month2YYYY` and the
      year. */
  lemma MonthRangeGluedMatch(m1: string, m2: string, y: string)
    requires m1 != [] && forall k :: 0 <= k < |m1| ==> IsAlpha(m1[k])
    requires m2 != [] && forall k :: 0 <= k < |m2| ==> IsAlpha(m2[k])
    requires |y| == 4 && AllDigits(y)
    ensures MonthRangeMatch(m1 + "-" + m2 + y) == Some((m1, m2, y))
  {
    var s := m1 + "-" + m2 + y;
    MonthRangeGluedShape(m1, m2, y);
    RangeMatchAt(s, |m1|, |m1| + 1 + |m2|);
  }

  /** `Month1-Month2YYYY` has the letters, the dash and the year where the range pattern
      expects them. */
  lemma MonthRangeGluedShape(m1: string, m2: string, y: string)
    requires m1 != [] && forall k :: 0 <= k < |m1| ==> IsAlpha(m1[k])
    requires m2 != [] && forall k :: 0 <= k < |m2| ==> IsAlpha(m2[k])
    requires |y| == 4 && AllDigits(y)
    ensures var s, n := m1 + "-" + m2 + y, |m1|; var j := n + 1 + |m2|;
      j + 4 <= |s| && s[n] == '-' && YearAt(s, j) &&
      (forall k :: 0 <= k < n ==> IsAlpha(s[k])) &&
      (forall k :: n + 1 <= k < j ==> IsAlpha(s[k])) &&
      s[..n] == m1 && s[n + 1..j] == m2 && s[j..j + 4] == y
  {
    var s, n := m1 + "-" + m2 + y, |m1|;
    var j := n + 1 + |m2|;
    RangeGluedParts(m1, m2, y);
    forall k | n + 1 <= k < j ensures IsAlpha(s[k]) {
      assert IsAlpha(m2[k - n - 1]);
    }
    forall q | j <= q < j + 4 ensures IsDigit(s[q]) {
      assert IsDigit(y[q - j]);
    }
    assert s[..n] == m1 && s[n + 1..j] == m2 && s[j..j + 4] == y;
  }

  /** Letters up to a dash at `n`, letters up to `j` and a year at `j`: the range pattern
      matches with the two words and the year. */
  lemma RangeMatchAt(s: string, n: nat, j: nat)
    requires 0 < n && n + 1 < j && j + 4 <= |s| && s[n] == '-' && YearAt(s, j)
    requires forall k :: 0 <= k < n ==> IsAlpha(s[k])
    requires forall k :: n + 1 <= k < j ==> IsAlpha(s[k])
    ensures MonthRangeMatch(s) == Some((s[..n], s[n + 1..j], s[j..j + 4]))
  {
    RunEndAt(s, 0, n, Letters);
    RunEndAt(s, n + 1, j, Letters);
    RunEndAt(s, j, j, Spaces);
  }

  /** `November-December, 2010`: once the comma is gone the `January 1973` search finds the
      second month followed by the year, so only the second month is stored. */
  lemma MonthRangeSpacedStored(m1: string, m2: string, y: string, isEdtf: string -> bool)
    requires MonthNumber(m1).Some? && MonthNumber(m2).Some?
    requires |y| == 4 && AllDigits(y)
    ensures RepairDate(m1 + "-" + m2 + ", " + y, isEdtf) == Stored(y + "-" + MonthNumber(m2).value)
  {
    MonthNamesAreLetters(m1);
    MonthNamesAreLetters(m2);
    MonthRangeSpacedSteps(m1, m2, y);
    WordYearFound(m1 + "-" + m2 + ", " + y, m1 + "-" + m2 + " " + y, |m1| + 1, isEdtf);
  }

  /** The steps for `Month1-Month2, YYYY`: cleaning, the search and the value it finds. */
  lemma MonthRangeSpacedSteps(m1: string, m2: string, y: string)
    requires m1 != [] && forall k :: 0 <= k < |m1| ==> IsAlpha(m1[k])
    requires m2 != [] && forall k :: 0 <= k < |m2| ==> IsAlpha(m2[k])
    requires |y| == 4 && AllDigits(y)
    ensures var t := m1 + "-" + m2 + " " + y;
      Cleaned(m1 + "-" + m2 + ", " + y) == t && SearchWordYear(t, 0) == Some(|m1| + 1) &&
      WordYearValue(t, |m1| + 1) == y + "-" + MonthOrUnknown(m2)
  {
    MonthRangeSpacedCleaned(m1, m2, y);
    MonthRangeSpacedSearch(m1, m2, y);
    MonthRangeSpacedValue(m1, m2, y);
  }

  /** Cleaning `Month1-Month2, YYYY` only removes the comma. */
  lemma MonthRangeSpacedCleaned(m1: string, m2: string, y: string)
    requires m1 != [] && forall k :: 0 <= k < |m1| ==> IsAlpha(m1[k])
    requires forall k :: 0 <= k < |m2| ==> IsAlpha(m2[k])
    requires |y| == 4 && AllDigits(y)
    ensures Cleaned(m1 + "-" + m2 + ", " + y) == m1 + "-" + m2 + " " + y
  {
    var a, b := m1 + "-" + m2, " " + y;
    assert a + "," + b == m1 + "-" + m2 + ", " + y;
    assert a + b == m1 + "-" + m2 + " " + y;
    forall k | 0 <= k < |a| ensures a[k] != ',' && a[k] != ';' {
      if k < |m1| { assert a[k] == m1[k]; } else if k > |m1| { assert a[k] == m2[k - |m1| - 1]; }
    }
    forall k | 0 <= k < |b| ensures b[k] != ',' && b[k] != ';' {
      if k > 0 { assert b[k] == y[k - 1]; }
    }
    assert a[0] == m1[0] && b[|b| - 1] == y[3];
    CleanedJoin(a, b);
  }

  /** A word from `i` to `j`, one space and four digits: a word-year match at `i`. */
  lemma WordSpaceYear(t: string, i: nat, j: nat)
    requires i < j && j + 5 <= |t|
    requires forall k :: i <= k < j ==> IsWordChar(t[k])
    requires t[j] == ' ' && YearAt(t, j + 1)
    ensures WordYearAt(t, i)
    ensures RunEnd(t, i, WordChars) == j && RunEnd(t, j, Spaces) == j + 1
  {
    RunEndAt(t, i, j, WordChars);
    RunEndAt(t, j, j + 1, Spaces);
  }

  /** In `Month1-Month2 YYYY` the second month, a space and the year match the `January 1973`
      pattern. */
  lemma MonthRangeSpacedAt(m1: string, m2: string, y: string)
    requires m2 != [] && forall k :: 0 <= k < |m2| ==> IsAlpha(m2[k])
    requires |y| == 4 && AllDigits(y)
    ensures WordYearAt(m1 + "-" + m2 + " " + y, |m1| + 1)
    ensures RunEnd(m1 + "-" + m2 + " " + y, |m1| + 1, WordChars) == |m1| + 1 + |m2|
    ensures RunEnd(m1 + "-" + m2 + " " + y, |m1| + 1 + |m2|, Spaces) == |m1| + 2 + |m2|
  {
    MonthRangeSpacedShape(m1, m2, y);
    WordSpaceYear(m1 + "-" + m2 + " " + y, |m1| + 1, |m1| + 1 + |m2|);
  }

  /** `Month1-Month2 YYYY` has the second month, a space and the year where the `January 1973`
      pattern expects them. */
  lemma MonthRangeSpacedShape(m1: string, m2: string, y: string)
    requires m2 != [] && forall k :: 0 <= k < |m2| ==> IsAlpha(m2[k])
    requires |y| == 4 && AllDigits(y)
    ensures var t, j := m1 + "-" + m2 + " " + y, |m1| + 1 + |m2|;
      j + 5 <= |t| && t[j] == ' ' && YearAt(t, j + 1) &&
      forall k :: |m1| + 1 <= k < j ==> IsWordChar(t[k])
  {
    var t := m1 + "-" + m2 + " " + y;
    var n := |m1|;
    var j := n + 1 + |m2|;
    RangeSpacedParts(m1, m2, y);
    forall k | n + 1 <= k < j ensures IsWordChar(t[k]) {
      assert IsAlpha(m2[k - n - 1]);
    }
    forall k | j + 1 <= k < j + 5 ensures IsDigit(t[k]) {
      assert IsDigit(y[k - j - 1]);
    }
  }

  /** In `Month1-Month2 YYYY` the leftmost word-year match is the second month and the year. */
  lemma MonthRangeSpacedSearch(m1: string, m2: string, y: string)
    requires m1 != [] && forall k :: 0 <= k < |m1| ==> IsAlpha(m1[k])
    requires m2 != [] && forall k :: 0 <= k < |m2| ==> IsAlpha(m2[k])
    requires |y| == 4 && AllDigits(y)
    ensures SearchWordYear(m1 + "-" + m2 + " " + y, 0) == Some(|m1| + 1)
  {
    var t := m1 + "-" + m2 + " " + y;
    var n := |m1|;
    RangeSpacedParts(m1, m2, y);
    forall k | 0 <= k < n ensures IsWordChar(t[k]) {
      assert IsAlpha(m1[k]);
    }
    NoMatchBeforeDash(t, n);
    MonthRangeSpacedAt(m1, m2, y);
    SearchWordYearFinds(t, 0, n + 1);
  }

  /** A word that ends in a dash has no word-year match up to the dash. */
  lemma NoMatchBeforeDash(t: string, n: nat)
    requires n < |t| && t[n] == '-'
    requires forall k :: 0 <= k < n ==> IsWordChar(t[k])
    ensures forall p :: 0 <= p < n + 1 ==> !WordYearAt(t, p)
  {
    forall p | 0 <= p < n ensures !WordYearAt(t, p) {
      RunEndAt(t, p, n, WordChars);
      RunEndAt(t, n, n, Spaces);
    }
  }

  /** The value stored for `Month1-Month2 YYYY`: the year and the second month's number. */
  lemma MonthRangeSpacedValue(m1: string, m2: string, y: string)
    requires m2 != [] && forall k :: 0 <= k < |m2| ==> IsAlpha(m2[k])
    requires |y| == 4 && AllDigits(y)
    ensures WordYearAt(m1 + "-" + m2 + " " + y, |m1| + 1)
    ensures WordYearValue(m1 + "-" + m2 + " " + y, |m1| + 1) == y + "-" + MonthOrUnknown(m2)
  {
    var t := m1 + "-" + m2 + " " + y;
    var n := |m1|;
    var j := n + 1 + |m2|;
    MonthRangeSpacedAt(m1, m2, y);
    RangeSpacedParts(m1, m2, y);
    assert t[n + 1..j] == m2 && t[j + 1..j + 5] == y;
    WordYearValueOf(t, n + 1, j, j + 1, m2, y);
  }

  /** The table entry for `Sept 1993`. */
  lemma SeptEntry()
    ensures Strip("Sept 1993") == "Sept 1993" && Correction("Sept 1993") == Some("1993-09")
  {
  }

  /** The table entry for `Winter 2005`. */
  lemma WinterEntry()
    ensures Strip("Winter 2005") == "Winter 2005" && Correction("Winter 2005") == Some("2005-24")
  {
  }

  /** The table entry for `November. 2008`. */
  lemma NovemberEntry()
    ensures Strip("November. 2008") == "November. 2008" && Correction("November. 2008") == Some("2008-11")
  {
  }

  /** `Sept 1993` is corrected to `1993-09`, which the `1982-83` rule then reads as the range
      `1993/1909`. */
  lemma SeptCorrectionReprocessed(isEdtf: string -> bool)
    ensures RepairDate("Sept 1993", isEdtf) == Stored("1993/1909")
  {
    SeptEntry();
    ShortRangeSplit("1993-09");
    CorrectedShortRange("Sept 1993", "1993-09", "1993/1909", isEdtf);
  }

  /** `Winter 2005` is corrected to `2005-24`, which the `1982-83` rule then reads as the range
      `2005/2024`. */
  lemma WinterCorrectionReprocessed(isEdtf: string -> bool)
    ensures RepairDate("Winter 2005", isEdtf) == Stored("2005/2024")
  {
    WinterEntry();
    ShortRangeSplit("2005-24");
    CorrectedShortRange("Winter 2005", "2005-24", "2005/2024", isEdtf);
  }

  /** `November. 2008` is corrected to `2008-11`, which the `1982-83` rule then reads as the
      range `2008/2011`. */
  lemma NovemberCorrectionReprocessed(isEdtf: string -> bool)
    ensures RepairDate("November. 2008", isEdtf) == Stored("2008/2011")
  {
    NovemberEntry();
    ShortRangeSplit("2008-11");
    CorrectedShortRange("November. 2008", "2008-11", "2008/2011", isEdtf);
  }
}
