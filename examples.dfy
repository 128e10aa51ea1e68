/**
 * Concrete inputs: the strings the source's header comment documents, and
 * the inputs that show how the parser treats text outside the grammar.
 */
module DurationExamples {
  import opened Wrappers
  import opened Split
  import opened Numerals
  import opened Extractor
  import opened ISO8601Duration
  import opened Canonical
  import opened DurationProperties

  /** Two separator-free texts around one separator are two runs. */
  lemma TwoRuns(x: string, c: char, y: string, seps: set<char>)
    requires c in seps && x != [] && y != [] && Plain(x, seps) && Plain(y, seps)
    ensures Runs(x + [c] + y, seps) == [x, y]
  {
    RunsAtSeparator(x, c, y, seps);
    RunsOfPlain(x, seps);
    RunsOfPlain(y, seps);
  }

  lemma TwelveHours()
    ensures Duration("PT12H") == Unset.(hour := Some(12))
  {
    var dc := Unset.(hour := Some(12));
    assert Render(dc) == "PT12H";
    RenderRoundTrip(dc);
  }

  lemma ThreeDays()
    ensures Duration("P3D") == Unset.(day := Some(3))
  {
    var dc := Unset.(day := Some(3));
    assert Render(dc) == "P3D";
    RenderRoundTrip(dc);
  }

  lemma ThreeDaysTwelveHours()
    ensures Duration("P3DT12H") == Unset.(day := Some(3), hour := Some(12))
  {
    var dc := Unset.(day := Some(3), hour := Some(12));
    assert Render(dc) == "P3DT12H";
    RenderRoundTrip(dc);
  }

  lemma AllSixFields()
    ensures Duration("P3Y6M4DT12H30M5S") == DateComponents(Some(3), Some(6), Some(4), Some(12), Some(30), Some(5))
  {
    var dc := DateComponents(Some(3), Some(6), Some(4), Some(12), Some(30), Some(5));
    assert Render(dc) == "P3Y6M4DT12H30M5S" by {
      assert PeriodPart(dc) == [(3, 'Y'), (6, 'M'), (4, 'D')];
      assert TimePart(dc) == [(12, 'H'), (30, 'M'), (5, 'S')];
    }
    RenderRoundTrip(dc);
  }

  lemma TenWeeks()
    ensures Duration("P10W") == Unset.(day := Some(70))
  {
    assert RenderWeeks(10) == "P10W";
    WeeksRoundTrip(10);
  }

  /** `M` before the `T` is a month. */
  lemma OneMonth()
    ensures Duration("P1M") == Unset.(month := Some(1))
  {
    var dc := Unset.(month := Some(1));
    assert Render(dc) == "P1M";
    RenderRoundTrip(dc);
  }

  /** `M` after the `T` is a minute. */
  lemma OneMinute()
    ensures Duration("PT1M") == Unset.(minute := Some(1))
  {
    var dc := Unset.(minute := Some(1));
    assert Render(dc) == "PT1M";
    RenderRoundTrip(dc);
  }

  /** An explicit zero is set, not absent. */
  lemma ZeroDays()
    ensures Duration("P0D") == Unset.(day := Some(0))
  {
    var dc := Unset.(day := Some(0));
    assert Render(dc) == "P0D";
    RenderRoundTrip(dc);
  }

  /** A `P` at the end is removed like a leading one. */
  lemma TrailingP()
    ensures Duration("3DP") == Unset.(day := Some(3))
  {
    OnlyFirstPRemoved("3D", []);
    assert "3D" + ['P'] + [] == "3DP";
    assert ['P'] + ("3D" + []) == "P3D";
    ThreeDays();
  }

  lemma AdjacentDesignatorsExtract(n: nat)
    ensures Extract(Numeral(n) + "YM", PeriodDesignators) == map["YM" := Numeral(n)]
  {
    var numeral, letters := Numeral(n), "YM";
    var section := numeral + letters;
    assert Runs(section, PeriodDesignators) == [numeral] by {
      LoneRun([], numeral, letters, PeriodDesignators);
      assert [] + numeral + letters == section;
    }
    assert Runs(section, Digits) == [letters] by {
      assert Plain(letters, Digits);
      LoneRun(numeral, letters, [], Digits);
      assert numeral + letters + [] == section;
    }
    assert ZipMap([letters], [numeral]) == map[letters := numeral] by {
      assert [letters][..0] == [] && [numeral][..0] == [];
    }
  }

  /** Adjacent designators form one key, `YM`, that names no field: `P3YM` sets nothing. */
  lemma AdjacentDesignators(n: nat)
    ensures Duration("P" + Numeral(n) + "YM") == Unset
  {
    var section := Numeral(n) + "YM";
    assert 'W' !in [] + section && Sections([] + section, section, []) by {
      assert [] + section == section;
      assert 'W' !in section && 'T' !in section;
    }
    AdjacentDesignatorsExtract(n);
    ExtractEmpty(TimeDesignators);
    CalendarFormFields([], section, section, []);
    assert "Y" != "YM" && "M" != "YM" && "D" != "YM";
    assert [] + ['P'] + section == "P" + Numeral(n) + "YM";
  }

  /** A period section with digits after its last designator, such as `3D4`. */
  function TrailingDigits(d: nat, x: nat): string
  {
    Numeral(d) + "D" + Numeral(x)
  }

  lemma TrailingDigitsExtract(d: nat, x: nat)
    ensures Extract(TrailingDigits(d, x), PeriodDesignators) == map[]
  {
    var section := TrailingDigits(d, x);
    TwoRuns(Numeral(d), 'D', Numeral(x), PeriodDesignators);
    LoneRun(Numeral(d), "D", Numeral(x), Digits);
    ExtractKeys(section, PeriodDesignators);
  }

  lemma HoursExtract(h: nat)
    ensures Extract(Numeral(h) + "H", TimeDesignators) == map["H" := Numeral(h)]
  {
    var ps := [(h, 'H')];
    assert Designated(ps) == Numeral(h) + "H" by {
      assert Designated(ps[1..]) == [];
    }
    ExtractDesignated(ps, TimeDesignators);
    assert LettersOf(ps) == ["H"] && NumeralsOf(ps) == [Numeral(h)];
    assert LettersOf(ps)[..0] == [];
  }

  /** How the driver cuts `P3D4T5H`: a leading `P`, no `W`, and the period and time sections around the `T`. */
  lemma MalformedPeriodSections(d: nat, x: nat, h: nat)
    ensures "P" + TrailingDigits(d, x) + "T" + (Numeral(h) + "H") == [] + ['P'] + (TrailingDigits(d, x) + "T" + (Numeral(h) + "H"))
    ensures 'W' !in TrailingDigits(d, x) + "T" + (Numeral(h) + "H")
    ensures Sections(TrailingDigits(d, x) + "T" + (Numeral(h) + "H"), TrailingDigits(d, x), Numeral(h) + "H")
  {
    var period, numeral := TrailingDigits(d, x), Numeral(h);
    assert AllDigits(Numeral(d)) && AllDigits(Numeral(x)) && AllDigits(numeral);
    assert 'W' !in numeral && 'T' !in numeral;
    assert 'W' !in period && 'T' !in period;
  }

  /** Digits after the last period designator (`P3D4T5H`) void the period section only; the hours are still read. */
  lemma MalformedPeriod(d: nat, x: nat, h: nat)
    ensures Duration("P" + TrailingDigits(d, x) + "T" + (Numeral(h) + "H")) == Unset.(hour := Some(h))
  {
    var period, time := TrailingDigits(d, x), Numeral(h) + "H";
    MalformedPeriodSections(d, x, h);
    TrailingDigitsExtract(d, x);
    HoursExtract(h);
    CalendarFormFields([], period + "T" + time, period, time);
    IntegerValueOfNumeral(h);
  }

  lemma DesignatorBeforeNumberExtract(n: nat)
    ensures Extract("D" + Numeral(n), PeriodDesignators) == map["D" := Numeral(n)]
  {
    var numeral := Numeral(n);
    var section := "D" + numeral;
    LoneRun("D", numeral, [], PeriodDesignators);
    assert "D" + numeral + [] == section;
    LoneRun([], "D", numeral, Digits);
    assert [] + "D" + numeral == section;
    assert Runs(section, PeriodDesignators) == [numeral];
    assert Runs(section, Digits) == ["D"];
    assert ZipMap(["D"], [numeral]) == map["D" := numeral] by {
      assert ["D"][..0] == [] && [numeral][..0] == [];
    }
  }

  /** Pairing is by position only: in `PD3` the designator comes first and still takes the `3`. */
  lemma DesignatorBeforeNumber(n: nat)
    ensures Duration("PD" + Numeral(n)) == Unset.(day := Some(n))
  {
    var section := "D" + Numeral(n);
    assert 'W' !in section && 'T' !in section;
    DesignatorBeforeNumberExtract(n);
    ExtractEmpty(TimeDesignators);
    CalendarFormFields([], section, section, []);
    assert [] + ['P'] + section == "PD" + Numeral(n);
    IntegerValueOfNumeral(n);
  }

  /** A repeated designator keeps its last value. */
  lemma RepeatedDesignator()
    ensures Duration("P1D2D") == Unset.(day := Some(2))
  {
    var ps := [(1, 'D'), (2, 'D')];
    assert Written(ps, []) == "P1D2D";
    WrittenFields(ps, []);
  }

  /** The order of the designators does not matter. */
  lemma DesignatorsInAnyOrder()
    ensures Duration("P4D3YT5S6H") == Unset.(year := Some(3), day := Some(4), hour := Some(6), second := Some(5))
  {
    var ps: seq<(nat, char)>, ts: seq<(nat, char)> := [(4, 'D'), (3, 'Y')], [(5, 'S'), (6, 'H')];
    assert Written(ps, ts) == "P4D3YT5S6H" by {
      assert Designated(ps) == "4D3Y" && Designated(ts) == "5S6H";
    }
    assert Lookup(ps, 'Y') == Some(3) && Lookup(ps, 'M') == None && Lookup(ps, 'D') == Some(4) by {
      assert ps[..1] == [ps[0]] && ps[..1][..0] == ps[..0];
    }
    assert Lookup(ts, 'H') == Some(6) && Lookup(ts, 'M') == None && Lookup(ts, 'S') == Some(5) by {
      assert ts[..1] == [ts[0]] && ts[..1][..0] == ts[..0];
    }
    WrittenFields(ps, ts);
  }
}
