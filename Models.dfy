/** The PIREP record, the three field validators and the report formatter
    of `pirep_cli/models.py`. */
module Models {
  import opened Wrappers
  import opened Text

  /** The dictionary that the collector fills and the store persists. Optional
      fields are `None` when absent (the source's `data.get(...)` of a missing
      key gives `None` as well). */
  datatype PirepData = PirepData(
    reportType: string,
    icaoCode: string,
    airportName: string,
    time: string,
    altitude: string,
    aircraftType: string,
    phenomena: seq<string>,
    temperature: Option<string>,
    wind: Option<string>,
    remarks: Option<string>)

  // ---------------------------------------------------------------------
  // Validators
  // ---------------------------------------------------------------------

  /** `re.fullmatch` of the pattern `[cls]{n}`: exactly `n` characters, each in `cls`. */
  predicate FullMatchRepeat(s: string, cls: char -> bool, n: nat)
  {
    if n == 0 then s == []
    else |s| > 0 && cls(s[0]) && FullMatchRepeat(s[1..], cls, n - 1)
  }

  /** The pattern matches exactly the strings of length `n` made of `cls` characters. */
  lemma {:induction false} FullMatchRepeatIff(s: string, cls: char -> bool, n: nat)
    ensures FullMatchRepeat(s, cls, n) <==> |s| == n && forall i :: 0 <= i < |s| ==> cls(s[i])
  {
    if n > 0 && |s| > 0 {
      FullMatchRepeatIff(s[1..], cls, n - 1);
      if cls(s[0]) && |s| == n && (forall i :: 0 <= i < |s| - 1 ==> cls(s[1..][i])) {
        forall i | 0 <= i < |s| ensures cls(s[i]) {
          if i > 0 { assert s[i] == s[1..][i - 1]; }
        }
      }
    }
  }

  /** `validate_icao`: the regular expression `[A-Z]{4}` matches all of `s`. */
  predicate ValidateIcao(s: string)
  {
    FullMatchRepeat(s, IsUpperLetter, 4)
  }

  /** Hours and minutes of a four-digit `HHMM` string. */
  function Hours(s: string): (r: nat)
    requires |s| == 4 && AllDigits(s)
  {
    10 * DigitValue(s[0]) + DigitValue(s[1])
  }

  function Minutes(s: string): (r: nat)
    requires |s| == 4 && AllDigits(s)
  {
    10 * DigitValue(s[2]) + DigitValue(s[3])
  }

  /** `validate_time`: four digits (`\d{4}`), which `strptime(..., '%H%M')`
      accepts exactly when they name a clock time, hours 00-23 and minutes 00-59. */
  predicate ValidateTime(s: string)
  {
    FullMatchRepeatIff(s, IsDigit, 4);
    if !FullMatchRepeat(s, IsDigit, 4) then false
    else Hours(s) <= 23 && Minutes(s) <= 59
  }

  /** `validate_altitude`: the regular expression `(SFC|\d{3})` matches all of `s`. */
  predicate ValidateAltitude(s: string)
  {
    s == "SFC" || FullMatchRepeat(s, IsDigit, 3)
  }

  lemma ValidateIcaoIff(s: string)
    ensures ValidateIcao(s) <==> |s| == 4 && forall i :: 0 <= i < 4 ==> 'A' <= s[i] <= 'Z'
  {
    FullMatchRepeatIff(s, IsUpperLetter, 4);
  }

  lemma ValidateTimeIff(s: string)
    ensures !(|s| == 4 && AllDigits(s)) ==> !ValidateTime(s)
    ensures |s| == 4 && AllDigits(s) ==>
      (ValidateTime(s) <==> Hours(s) <= 23 && Minutes(s) <= 59)
  {
    FullMatchRepeatIff(s, IsDigit, 4);
  }

  lemma ValidateAltitudeIff(s: string)
    ensures ValidateAltitude(s) <==> s == "SFC" || (|s| == 3 && AllDigits(s))
  {
    FullMatchRepeatIff(s, IsDigit, 3);
  }

  /** Examples. */
  lemma IcaoExamples()
    ensures ValidateIcao("KJFK") && !ValidateIcao("kjfk") && !ValidateIcao("KJF")
  {
    ValidateIcaoIff("KJFK");
    ValidateIcaoIff("kjfk");
    ValidateIcaoIff("KJF");
  }

  lemma TimeExamples()
    ensures !ValidateTime("2460") && ValidateTime("0000") && !ValidateTime("935")
    ensures ValidateTime("2359") && !ValidateTime("1260")
  {
    ValidateTimeIff("2460");
    ValidateTimeIff("0000");
    ValidateTimeIff("935");
    ValidateTimeIff("2359");
    ValidateTimeIff("1260");
    assert Hours("2460") == 24;
    assert Minutes("1260") == 60;
  }

  lemma AltitudeExamples()
    ensures ValidateAltitude("SFC") && ValidateAltitude("050")
    ensures !ValidateAltitude("50") && !ValidateAltitude("abc")
  {
    ValidateAltitudeIff("050");
    ValidateAltitudeIff("50");
    ValidateAltitudeIff("abc");
    assert "abc"[0] == 'a';
  }

  // ---------------------------------------------------------------------
  // Well-formed records
  // ---------------------------------------------------------------------

  /** A phenomenon as the collector keeps it: non-empty, stripped, upper-case and
      not the `DONE` sentinel. */
  predicate ValidPhenomenon(s: string)
  {
    s != "" && s != "DONE" && Trimmed(s) && UpperCase(s)
  }

  /** An optional field as the collector stores it: absent, or non-empty and
      stripped, and upper-case when `upper` is set. */
  predicate NormalizedOptional(field: Option<string>, upper: bool)
  {
    field.Some? ==> field.value != "" && Trimmed(field.value) && (upper ==> UpperCase(field.value))
  }

  /** Everything the collector guarantees of the record it returns. */
  predicate ValidReport(d: PirepData)
  {
    (d.reportType == "UUA" || d.reportType == "ROA")
    && ValidateIcao(d.icaoCode)
    && d.airportName != "" && Trimmed(d.airportName)
    && ValidateTime(d.time)
    && ValidateAltitude(d.altitude)
    && d.aircraftType != "" && Trimmed(d.aircraftType) && UpperCase(d.aircraftType)
    && |d.phenomena| > 0
    && (forall i :: 0 <= i < |d.phenomena| ==> ValidPhenomenon(d.phenomena[i]))
    && NormalizedOptional(d.temperature, true)
    && NormalizedOptional(d.wind, true)
    && NormalizedOptional(d.remarks, false)
  }

  // ---------------------------------------------------------------------
  // Formatter
  // ---------------------------------------------------------------------

  /** An optional field is written only when it is present and non-empty
      (Python's truthiness of `data.get(...)`). */
  predicate Present(field: Option<string>)
  {
    field.Some? && field.value != ""
  }

  function OptionalSegment(tag: string, field: Option<string>): (r: seq<string>)
  {
    if Present(field) then [tag + field.value] else []
  }

  /** The `parts` list of `format_pirep`, in order. */
  function Segments(d: PirepData): (r: seq<string>)
  {
    [ d.reportType + " PIREP " + d.icaoCode,
      "/TM " + d.time,
      "/FL" + d.altitude,
      "/TP " + d.aircraftType,
      "/WX " + Join(d.phenomena, " ") ]
    + OptionalSegment("/TA ", d.temperature)
    + OptionalSegment("/WV ", d.wind)
    + OptionalSegment("/RM ", d.remarks)
  }

  /** `format_pirep`: the segments joined by single spaces. */
  function FormatPirep(d: PirepData): (r: string)
  {
    Join(Segments(d), " ")
  }

  /** The text contributed by an optional segment after the mandatory ones:
      nothing at all for an absent or empty field. */
  function Suffix(tag: string, field: Option<string>): (r: string)
  {
    if Present(field) then " " + tag + field.value else ""
  }

  lemma {:induction false} JoinSnoc(parts: seq<string>, last: string, sep: string)
    requires |parts| > 0
    ensures Join(parts + [last], sep) == Join(parts, sep) + sep + last
  {
    if |parts| > 1 {
      assert (parts + [last])[1..] == parts[1..] + [last];
      JoinSnoc(parts[1..], last, sep);
    }
  }

  lemma Regroup(a: string, b: string, c: string, e: string)
    ensures a + b + (c + e) == a + (b + c) + e
  {
  }

  lemma JoinOptional(parts: seq<string>, tag: string, field: Option<string>)
    requires |parts| > 0
    ensures Join(parts + OptionalSegment(tag, field), " ") == Join(parts, " ") + Suffix(tag, field)
  {
    if Present(field) {
      JoinSnoc(parts, tag + field.value, " ");
      Regroup(Join(parts, " "), " ", tag, field.value);
    } else {
      assert parts + [] == parts;
    }
  }

  /** The five mandatory segments joined by single spaces. */
  lemma {:induction false} MandatoryLayout(s0: string, s1: string, s2: string, s3: string, s4: string)
    ensures Join([s0, s1, s2, s3, s4], " ") == s0 + " " + s1 + " " + s2 + " " + s3 + " " + s4
  {
    assert [s0, s1, s2, s3, s4][1..] == [s1, s2, s3, s4];
    assert [s1, s2, s3, s4][1..] == [s2, s3, s4];
    assert [s2, s3, s4][1..] == [s3, s4];
    assert [s3, s4][1..] == [s4];
    assert Join([s3, s4], " ") == s3 + " " + s4;
    assert Join([s2, s3, s4], " ") == s2 + " " + (s3 + " " + s4);
    assert Join([s1, s2, s3, s4], " ") == s1 + " " + (s2 + " " + (s3 + " " + s4));
  }

  /** The report text, written out: the five mandatory segments in their fixed
      order, then `/TA`, `/WV` and `/RM` in that order, each only when present. */
  lemma FormatLayout(d: PirepData)
    ensures FormatPirep(d) ==
      d.reportType + " PIREP " + d.icaoCode + " /TM " + d.time + " /FL" + d.altitude
      + " /TP " + d.aircraftType + " /WX " + Join(d.phenomena, " ")
      + Suffix("/TA ", d.temperature) + Suffix("/WV ", d.wind) + Suffix("/RM ", d.remarks)
  {
    var s0, s1, s2, s3, s4 := d.reportType + " PIREP " + d.icaoCode, "/TM " + d.time,
      "/FL" + d.altitude, "/TP " + d.aircraftType, "/WX " + Join(d.phenomena, " ");
    var base := [s0, s1, s2, s3, s4];
    MandatoryLayout(s0, s1, s2, s3, s4);
    var withTa := base + OptionalSegment("/TA ", d.temperature);
    var withWv := withTa + OptionalSegment("/WV ", d.wind);
    assert Segments(d) == withWv + OptionalSegment("/RM ", d.remarks);
    JoinOptional(base, "/TA ", d.temperature);
    JoinOptional(withTa, "/WV ", d.wind);
    JoinOptional(withWv, "/RM ", d.remarks);
    var m1 := s0 + " /TM " + d.time;
    assert s0 + " " + s1 == m1 by { Regroup(s0, " ", "/TM ", d.time); }
    var m2 := m1 + " /FL" + d.altitude;
    assert m1 + " " + s2 == m2 by { Regroup(m1, " ", "/FL", d.altitude); }
    var m3 := m2 + " /TP " + d.aircraftType;
    assert m2 + " " + s3 == m3 by { Regroup(m2, " ", "/TP ", d.aircraftType); }
    var m4 := m3 + " /WX " + Join(d.phenomena, " ");
    assert m3 + " " + s4 == m4 by { Regroup(m3, " ", "/WX ", Join(d.phenomena, " ")); }
  }

  /** A report without optional fields ends with its `/WX` segment. */
  lemma FormatWithoutOptionals(d: PirepData)
    requires d.temperature == None && d.wind == None && d.remarks == None
    ensures FormatPirep(d) ==
      d.reportType + " PIREP " + d.icaoCode + " /TM " + d.time + " /FL" + d.altitude
      + " /TP " + d.aircraftType + " /WX " + Join(d.phenomena, " ")
  {
    FormatLayout(d);
  }

  /** The airport name is not part of the report text. */
  lemma FormatIgnoresAirportName(d: PirepData, name: string)
    ensures FormatPirep(d.(airportName := name)) == FormatPirep(d)
  {
  }

  /** A worked example. */
  lemma FormatExample()
    ensures FormatPirep(PirepData("ROA", "KJFK", "John F Kennedy", "1430", "050", "B737",
                                  ["TURB", "ICE"], Some("M05"), None, None))
            == "ROA PIREP KJFK /TM 1430 /FL050 /TP B737 /WX TURB ICE /TA M05"
  {
    var d := PirepData("ROA", "KJFK", "John F Kennedy", "1430", "050", "B737",
                       ["TURB", "ICE"], Some("M05"), None, None);
    FormatLayout(d);
    assert Join(d.phenomena, " ") == "TURB ICE";
    assert Suffix("/TA ", d.temperature) == " /TA M05";
    assert Suffix("/WV ", d.wind) == "" && Suffix("/RM ", d.remarks) == "";
    ExampleText();
  }

  lemma ExampleText()
    ensures "ROA" + " PIREP " + "KJFK" + " /TM " + "1430" + " /FL" + "050" + " /TP " + "B737"
            + " /WX " + "TURB ICE" + " /TA M05" + "" + ""
            == "ROA PIREP KJFK /TM 1430 /FL050 /TP B737 /WX TURB ICE /TA M05"
  {
    assert "ROA" + " PIREP " == "ROA PIREP ";
    assert "ROA PIREP " + "KJFK" == "ROA PIREP KJFK";
    assert "ROA PIREP KJFK" + " /TM " == "ROA PIREP KJFK /TM ";
    assert "ROA PIREP KJFK /TM " + "1430" == "ROA PIREP KJFK /TM 1430";
    assert "ROA PIREP KJFK /TM 1430" + " /FL" == "ROA PIREP KJFK /TM 1430 /FL";
    assert "ROA PIREP KJFK /TM 1430 /FL" + "050" == "ROA PIREP KJFK /TM 1430 /FL050";
    assert "ROA PIREP KJFK /TM 1430 /FL050" + " /TP " == "ROA PIREP KJFK /TM 1430 /FL050 /TP ";
    assert "ROA PIREP KJFK /TM 1430 /FL050 /TP " + "B737" == "ROA PIREP KJFK /TM 1430 /FL050 /TP B737";
    assert "ROA PIREP KJFK /TM 1430 /FL050 /TP B737" + " /WX "
        == "ROA PIREP KJFK /TM 1430 /FL050 /TP B737 /WX ";
    assert "ROA PIREP KJFK /TM 1430 /FL050 /TP B737 /WX " + "TURB ICE"
        == "ROA PIREP KJFK /TM 1430 /FL050 /TP B737 /WX TURB ICE";
    assert "ROA PIREP KJFK /TM 1430 /FL050 /TP B737 /WX TURB ICE" + " /TA M05"
        == "ROA PIREP KJFK /TM 1430 /FL050 /TP B737 /WX TURB ICE /TA M05";
  }
}
