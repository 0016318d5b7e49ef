/** The timestamp of a point feature (makeCurrentGeoJSON.py:130-146, 161-162):
    the advisory-hour check of the first forecast point, the labelled time
    of the later forecast points, and the UTC fields of a historical point. */
module Timestamps {
  import opened Results
  import opened Strings
  import opened Records

  /** `dateparser.parse(text, settings={"TO_TIMEZONE": "UTC"})` followed by
      `.replace(tzinfo=None).isoformat()`, left uninterpreted: the ISO-8601
      text of the parsed UTC time, or `None` where dateparser returns `None`. */
  type DateParser = string -> Option<string>

  /** Hands `text` to the date parser; a `None` from it makes the following
      `.replace` raise. */
  function ParseDate(parse: DateParser, text: string): (r: Result<string>)
    ensures parse(text).Some? ==> r == Ok(parse(text).value)
    ensures parse(text).None? ==> r == Err(UnparsedDate(text))
  {
    match parse(text)
    case Some(iso) => Ok(iso)
    case None => Err(UnparsedDate(text))
  }

  /** `s.split(" ")[0]`: the leading token of a date field. */
  function FirstToken(s: string): string {
    Before(s, ' ')
  }

  /** The advisory hour fragment is usable: Python's `isdigit()` and a
      length of 3 or 4 ("900", "1500"). */
  predicate HourWellFormed(fragment: string) {
    IsDigitString(fragment) && 3 <= |fragment| <= 4
  }

  /** `fragment[:-2] + ":" + fragment[-2:]`: a colon before the last two
      digits, so "900" reads "9:00" and "1500" reads "15:00". */
  function ColonHour(fragment: string): (r: string)
    requires |fragment| >= 2
    ensures |r| == |fragment| + 1 && r[|fragment| - 2] == ':'
    ensures r[..|fragment| - 2] + r[|fragment| - 1..] == fragment
  {
    var cut := |fragment| - 2;
    var r := fragment[..cut] + ":" + fragment[cut..];
    assert r[..cut] == fragment[..cut] && r[cut + 1..] == fragment[cut..];
    r
  }

  /** The advisory date and its display label agree: the advisory's hour
      token is well formed, the label's first token is that hour with the
      colon inserted, and a date follows the hour. */
  predicate AdvisoryAgrees(p: Attributes) {
    && "ADVDATE" in p && "DATELBL" in p
    && var hour := FirstToken(p["ADVDATE"]);
    && HourWellFormed(hour)
    && FirstToken(p["DATELBL"]) == ColonHour(hour)
    && |hour| < |p["ADVDATE"]|
  }

  /** The text handed to the date parser: the advisory date with its hour
      token rewritten as "H:MM". */
  function AdvisoryText(p: Attributes): string
    requires AdvisoryAgrees(p)
  {
    var advisory := p["ADVDATE"];
    var hour := FirstToken(advisory);
    ColonHour(hour) + advisory[|hour|..]
  }

  /** The timestamp of the first forecast point (makeCurrentGeoJSON.py:133-144).
      It fails with `HourFragment` when the advisory hour token is not 3-4
      digits, with `HourMismatch` when the reformatted hour differs from the
      label's first token, and otherwise is the date parser's reading of the
      advisory date with the colon inserted in its hour. */
  function AdvisoryTimestamp(p: Attributes, parse: DateParser): (r: Result<string>)
    ensures "ADVDATE" !in p ==> r == Err(MissingField("ADVDATE"))
    ensures "ADVDATE" in p && !HourWellFormed(FirstToken(p["ADVDATE"])) ==>
              r == Err(HourFragment(p["ADVDATE"]))
    ensures "ADVDATE" in p && HourWellFormed(FirstToken(p["ADVDATE"])) && "DATELBL" in p
            && FirstToken(p["DATELBL"]) != ColonHour(FirstToken(p["ADVDATE"])) ==>
              r == Err(HourMismatch(ColonHour(FirstToken(p["ADVDATE"])), FirstToken(p["DATELBL"])))
    // the label is read only once the hour is well formed
    ensures "ADVDATE" in p && HourWellFormed(FirstToken(p["ADVDATE"])) && "DATELBL" !in p ==>
              r == Err(MissingField("DATELBL"))
    // agreeing hours with nothing after the hour token: `split(" ", 1)[1]` fails
    ensures "ADVDATE" in p && HourWellFormed(FirstToken(p["ADVDATE"])) && "DATELBL" in p
            && FirstToken(p["DATELBL"]) == ColonHour(FirstToken(p["ADVDATE"])) && ' ' !in p["ADVDATE"] ==>
              r == Err(NoDateAfterHour(p["ADVDATE"]))
    ensures r.Ok? <==> AdvisoryAgrees(p) && parse(AdvisoryText(p)).Some?
    ensures r.Ok? ==> r.value == parse(AdvisoryText(p)).value
  {
    var advisory :- Field(p, "ADVDATE");
    var hour := FirstToken(advisory);
    if !HourWellFormed(hour) then Err(HourFragment(advisory))
    else
      var formatted := ColonHour(hour);
      var dateLabel :- Field(p, "DATELBL");
      if formatted != FirstToken(dateLabel) then Err(HourMismatch(formatted, FirstToken(dateLabel)))
      else
        match After(advisory, ' ')
        case None => Err(NoDateAfterHour(advisory))
        case Some(rest) =>
          assert advisory == hour + " " + rest;
          assert advisory[|hour|..] == " " + rest;
          assert AdvisoryAgrees(p);
          assert formatted + " " + rest == AdvisoryText(p);
          ParseDate(parse, formatted + " " + rest)
  }

  /** When the advisory and its label agree, the timestamp is whatever the
      date parser makes of the advisory text, failure included. */
  lemma AgreeingAdvisoryParsed(p: Attributes, parse: DateParser)
    requires AdvisoryAgrees(p)
    ensures AdvisoryTimestamp(p, parse) == ParseDate(parse, AdvisoryText(p))
  {
    var advisory := p["ADVDATE"];
    var hour := FirstToken(advisory);
    assert advisory[|hour|] == ' ';
    var rest := After(advisory, ' ').value;
    assert advisory[|hour|..] == " " + rest;
    assert ColonHour(hour) + " " + rest == AdvisoryText(p);
  }

  /** The timestamp of forecast point `index` (makeCurrentGeoJSON.py:133-146):
      the advisory date for the first point, the `FLDATELBL` label after it. */
  function ForecastTimestamp(p: Attributes, index: nat, parse: DateParser): (r: Result<string>)
    ensures index == 0 ==> r == AdvisoryTimestamp(p, parse)
    ensures index > 0 && "FLDATELBL" in p ==> r == ParseDate(parse, p["FLDATELBL"])
    ensures index > 0 && "FLDATELBL" !in p ==> r == Err(MissingField("FLDATELBL"))
  {
    if index == 0 then AdvisoryTimestamp(p, parse)
    else
      var forecastLabel :- Field(p, "FLDATELBL");
      ParseDate(parse, forecastLabel)
  }

  // ---------------------------------------------------------------------
  // Historical points: `datetime.datetime(year, month, day, hour).isoformat()`
  // ---------------------------------------------------------------------

  predicate IsLeapYear(year: int) {
    year % 4 == 0 && (year % 100 != 0 || year % 400 == 0)
  }

  function DaysInMonth(year: int, month: int): int
    requires 1 <= month <= 12
  {
    if month == 2 then (if IsLeapYear(year) then 29 else 28)
    else if month in {4, 6, 9, 11} then 30
    else 31
  }

  /** The arguments `datetime.datetime` accepts; anything else raises. */
  predicate ValidDateHour(year: int, month: int, day: int, hour: int) {
    && 1 <= year <= 9999
    && 1 <= month <= 12
    && 1 <= day <= DaysInMonth(year, month)
    && 0 <= hour <= 23
  }

  /** `isoformat()` of a whole-hour datetime: "YYYY-MM-DDTHH:00:00". */
  function IsoFormat(year: int, month: int, day: int, hour: int): (iso: string)
    requires ValidDateHour(year, month, day, hour)
    ensures |iso| == 19
    ensures iso[4] == '-' && iso[7] == '-' && iso[10] == 'T' && iso[13..] == ":00:00"
    ensures AllDigits(iso[..4]) && DigitsValue(iso[..4]) == year
    ensures AllDigits(iso[5..7]) && DigitsValue(iso[5..7]) == month
    ensures AllDigits(iso[8..10]) && DigitsValue(iso[8..10]) == day
    ensures AllDigits(iso[11..13]) && DigitsValue(iso[11..13]) == hour
  {
    assert Pow10(2) == 100 && Pow10(4) == 10000;
    DecimalLength(year, 4);
    DecimalLength(month, 2);
    DecimalLength(day, 2);
    DecimalLength(hour, 2);
    var y, m, d, h := Pad(year, 4), Pad(month, 2), Pad(day, 2), Pad(hour, 2);
    var iso := y + "-" + m + "-" + d + "T" + h + ":00:00";
    assert iso[..4] == y && iso[5..7] == m && iso[8..10] == d && iso[11..13] == h;
    iso
  }

  /** `p["HHMM"][0:2]`: the hour digits of a packed "HHMM" field. */
  function HourDigits(hhmm: string): string {
    if |hhmm| < 2 then hhmm else hhmm[..2]
  }

  /** The timestamp of a historical point (makeCurrentGeoJSON.py:162): the
      record's UTC year, month, day and the hour read from the first two
      characters of `HHMM`; the minutes are dropped. */
  function HistoricalTimestamp(p: Attributes): (r: Result<string>)
    ensures r.Ok? ==>
              && "HHMM" in p
              && |r.value| == 19 && r.value[13..] == ":00:00"
              && r.value[4] == '-' && r.value[7] == '-' && r.value[10] == 'T'
              && AllDigits(r.value[..4]) && IntField(p, "YEAR") == Ok(DigitsValue(r.value[..4]))
              && AllDigits(r.value[5..7]) && IntField(p, "MONTH") == Ok(DigitsValue(r.value[5..7]))
              && AllDigits(r.value[8..10]) && IntField(p, "DAY") == Ok(DigitsValue(r.value[8..10]))
              && AllDigits(r.value[11..13]) && ParseInt(HourDigits(p["HHMM"])) == Ok(DigitsValue(r.value[11..13]))
    ensures IntField(p, "YEAR").Ok? && IntField(p, "MONTH").Ok? && IntField(p, "DAY").Ok?
            && "HHMM" in p && ParseInt(HourDigits(p["HHMM"])).Ok? ==>
              (r.Ok? <==> ValidDateHour(IntField(p, "YEAR").value, IntField(p, "MONTH").value,
                                        IntField(p, "DAY").value, ParseInt(HourDigits(p["HHMM"])).value))
    // the errors come in argument order: YEAR, MONTH, DAY, HHMM, its hour, then the date
    ensures IntField(p, "YEAR").Err? ==> r == Err(IntField(p, "YEAR").error)
    ensures IntField(p, "YEAR").Ok? && IntField(p, "MONTH").Err? ==> r == Err(IntField(p, "MONTH").error)
    ensures IntField(p, "YEAR").Ok? && IntField(p, "MONTH").Ok? && IntField(p, "DAY").Err? ==>
              r == Err(IntField(p, "DAY").error)
    ensures IntField(p, "YEAR").Ok? && IntField(p, "MONTH").Ok? && IntField(p, "DAY").Ok? && "HHMM" !in p ==>
              r == Err(MissingField("HHMM"))
    ensures IntField(p, "YEAR").Ok? && IntField(p, "MONTH").Ok? && IntField(p, "DAY").Ok?
            && "HHMM" in p && ParseInt(HourDigits(p["HHMM"])).Err? ==>
              r == Err(ParseInt(HourDigits(p["HHMM"])).error)
    ensures IntField(p, "YEAR").Ok? && IntField(p, "MONTH").Ok? && IntField(p, "DAY").Ok?
            && "HHMM" in p && ParseInt(HourDigits(p["HHMM"])).Ok?
            && !ValidDateHour(IntField(p, "YEAR").value, IntField(p, "MONTH").value,
                              IntField(p, "DAY").value, ParseInt(HourDigits(p["HHMM"])).value) ==>
              r == Err(InvalidDate(IntField(p, "YEAR").value, IntField(p, "MONTH").value,
                                   IntField(p, "DAY").value, ParseInt(HourDigits(p["HHMM"])).value))
  {
    var year :- IntField(p, "YEAR");
    var month :- IntField(p, "MONTH");
    var day :- IntField(p, "DAY");
    var hhmm :- Field(p, "HHMM");
    var hour :- ParseInt(HourDigits(hhmm));
    if ValidDateHour(year, month, day, hour) then Ok(IsoFormat(year, month, day, hour))
    else Err(InvalidDate(year, month, day, hour))
  }

  /** Only the hour of `HHMM` counts: records that differ in the minutes
      alone get the same timestamp. */
  lemma HistoricalIgnoresMinutes(p: Attributes, hour: string, m1: string, m2: string)
    requires |hour| == 2
    ensures HistoricalTimestamp(p["HHMM" := hour + m1]) == HistoricalTimestamp(p["HHMM" := hour + m2])
  {
    assert HourDigits(hour + m1) == hour == HourDigits(hour + m2);
  }

  /** An advisory issued at "0900 AM EDT" whose label reads "09:00": the
      hours agree and the parser gets "09:00 AM EDT". */
  lemma AdvisoryExample(parse: DateParser)
    ensures AdvisoryTimestamp(map["ADVDATE" := "0900 AM EDT", "DATELBL" := "09:00"], parse)
            == ParseDate(parse, "09:00 AM EDT")
  {
    var p := map["ADVDATE" := "0900 AM EDT", "DATELBL" := "09:00"];
    var advisory := p["ADVDATE"];
    assert FirstToken(advisory) == "0900" && HourWellFormed("0900") by {
      BeforeIs(advisory, ' ', 4);
    }
    assert FirstToken(p["DATELBL"]) == ColonHour("0900") by {
      assert p["DATELBL"][..5] == p["DATELBL"];
      BeforeIs(p["DATELBL"], ' ', 5);
      assert ColonHour("0900") == "09:00";
    }
    assert AdvisoryText(p) == "09:00 AM EDT" by {
      assert AdvisoryAgrees(p);
      assert AdvisoryText(p) == ColonHour("0900") + advisory[4..];
      assert ColonHour("0900") == "09:00";
      assert advisory[4..] == " AM EDT";
    }
    AgreeingAdvisoryParsed(p, parse);
  }

  /** The same advisory against a label reading "10:00" is rejected rather
      than parsed. */
  lemma AdvisoryMismatchExample(parse: DateParser)
    ensures AdvisoryTimestamp(map["ADVDATE" := "0900 AM EDT", "DATELBL" := "10:00"], parse)
            == Err(HourMismatch("09:00", "10:00"))
  {
    var p := map["ADVDATE" := "0900 AM EDT", "DATELBL" := "10:00"];
    BeforeIs(p["ADVDATE"], ' ', 4);
    assert p["DATELBL"][..5] == p["DATELBL"];
    BeforeIs(p["DATELBL"], ' ', 5);
    assert FirstToken(p["ADVDATE"]) == "0900";
    assert FirstToken(p["DATELBL"]) == "10:00";
    assert HourWellFormed("0900");
    assert ColonHour("0900") == "09:00";
  }

  /** The comparison is textual: a three-digit "900" becomes "9:00", which a
      zero-padded label "09:00" does not match. */
  lemma AdvisoryPaddingExample(parse: DateParser)
    ensures AdvisoryTimestamp(map["ADVDATE" := "900 PM AST", "DATELBL" := "09:00 PM"], parse)
            == Err(HourMismatch("9:00", "09:00"))
  {
    var p := map["ADVDATE" := "900 PM AST", "DATELBL" := "09:00 PM"];
    BeforeIs(p["ADVDATE"], ' ', 3);
    BeforeIs(p["DATELBL"], ' ', 5);
    assert FirstToken(p["ADVDATE"]) == "900";
    assert FirstToken(p["DATELBL"]) == "09:00";
    assert HourWellFormed("900");
    assert ColonHour("900") == "9:00";
  }

  /** A two-digit hour token is not an hour fragment. */
  lemma AdvisoryFragmentExample(parse: DateParser)
    ensures AdvisoryTimestamp(map["ADVDATE" := "11 AM EDT", "DATELBL" := "11:00 AM"], parse)
            == Err(HourFragment("11 AM EDT"))
  {
    BeforeIs("11 AM EDT", ' ', 2);
  }
}
