/**
 * What `durationFrom8601String` promises, stated over the model: the role
 * of `P`, the week short cut, the split at `T`, the independence of the two
 * sections, the positional pairing, and which fields stay unset.
 */
module DurationProperties {
  import opened Wrappers
  import opened Split
  import opened Numerals
  import opened Extractor
  import opened ISO8601Duration

  /** Without a `P` nothing is set. */
  lemma NoPeriodDesignator(s: string)
    requires 'P' !in s
    ensures Duration(s) == Unset
  {
  }

  /** The first `c` of `a + [c] + b` is the one after `a` when `a` holds none. */
  lemma FirstIndexAfter(a: string, c: char, b: string)
    requires c !in a
    ensures FirstIndex(a + [c] + b, c) == Some(|a|)
  {
    var s := a + [c] + b;
    var i := FirstIndex(s, c).value;
    var k := if i < |a| then i else |a|;
    assert s[k] == c && s[..|a|] == a;
  }

  /** Removing the first `P` of `a + ['P'] + b` leaves `a + b`; the `W` test sees the same letters. */
  lemma FirstPCut(a: string, b: string)
    requires 'P' !in a
    ensures FirstIndex(a + ['P'] + b, 'P') == Some(|a|)
    ensures Duration(a + ['P'] + b) == AfterP(a + b, 'W' in a + b)
  {
    var s := a + ['P'] + b;
    FirstIndexAfter(a, 'P', b);
    assert s[..|a|] == a && s[|a| + 1..] == b;
    assert 'W' in s <==> 'W' in a + b by {
      assert 'W' in s <==> 'W' in a || 'W' in ['P'] || 'W' in b;
    }
  }

  /** Only the first `P` is removed, wherever it stands: the text around it is read as if the `P` led. */
  lemma OnlyFirstPRemoved(a: string, b: string)
    requires 'P' !in a
    ensures Duration(a + ['P'] + b) == Duration(['P'] + (a + b))
  {
    FirstPCut(a, b);
    LeadingPCut(a + b);
  }

  /** A leading `P` is removed and the rest is read. */
  lemma LeadingPCut(rest: string)
    ensures Duration(['P'] + rest) == AfterP(rest, 'W' in rest)
  {
    FirstPCut([], rest);
    assert [] + ['P'] + rest == ['P'] + rest;
    assert [] + rest == rest;
  }

  lemma WeekFormCut(a: string, b: string)
    requires 'P' !in a && 'W' in a + b
    ensures Duration(a + ['P'] + b) == WeekForm(a + b)
  {
    FirstPCut(a, b);
  }

  /**
   * A `W` anywhere selects the week form: only the day can be set, to 7
   * times the value paired with the key `W`, and only when there is such a key.
   */
  lemma WeekFormSetsOnlyDays(a: string, b: string)
    requires 'P' !in a && 'W' in a + b
    ensures var d := Duration(a + ['P'] + b);
            var weekValues := Extract(a + b, WeekDesignators);
            d.year == None && d.month == None && d.hour == None && d.minute == None && d.second == None &&
            d.day == (if "W" in weekValues then Some(7 * IntegerValue(weekValues["W"])) else None)
    ensures var d := Duration(a + ['P'] + b);
            d.day.Some? ==> d.day.value >= 0 && d.day.value % 7 == 0
  {
    WeekFormCut(a, b);
    WeekFormDays(a + b);
  }

  /** The week form sets the day alone, to a whole number of weeks. */
  lemma WeekFormDays(rest: string)
    ensures var d := WeekForm(rest);
            d.day.Some? ==> d.day.value >= 0 && d.day.value % 7 == 0
  {
    var weekValues := Extract(rest, WeekDesignators);
    if "W" in weekValues {
      var weeks := IntegerValue(weekValues["W"]);
      assert (7 * weeks) % 7 == 0;
    }
  }

  /** The period section and the time section of `a + b`, cut at its first `T`. */
  predicate Sections(rest: string, period: string, time: string)
  {
    if 'T' in rest then rest == period + ['T'] + time && 'T' !in period
    else period == rest && time == []
  }

  /** The value a dictionary holds for `key`, converted as the driver converts it. */
  function FieldValue(m: map<string, string>, key: string): Option<int>
  {
    if key in m then Some(IntegerValue(m[key])) else None
  }

  /**
   * Without `W`, the period section fills year, month and day from the keys
   * `Y`, `M`, `D`, and the time section fills hour, minute and second from
   * the keys `H`, `M`, `S`: the section decides what `M` means.
   */
  lemma CalendarFormFields(a: string, b: string, period: string, time: string)
    requires 'P' !in a && 'W' !in a + b
    requires Sections(a + b, period, time)
    ensures var d := Duration(a + ['P'] + b);
            var periodValues := Extract(period, PeriodDesignators);
            var timeValues := Extract(time, TimeDesignators);
            d.year == FieldValue(periodValues, "Y") && d.month == FieldValue(periodValues, "M") &&
            d.day == FieldValue(periodValues, "D") && d.hour == FieldValue(timeValues, "H") &&
            d.minute == FieldValue(timeValues, "M") && d.second == FieldValue(timeValues, "S")
  {
    FirstPCut(a, b);
    var (p, t) := SplitAtT(a + b);
    if 'T' in a + b {
      FirstCutUnique(p, t, period, time, 'T');
    }
  }

  /**
   * A section whose numeric runs and designator runs differ in number sets
   * none of its fields, and the other section is read as usual.
   */
  lemma MalformedSectionSetsNothing(a: string, b: string, period: string, time: string)
    requires 'P' !in a && 'W' !in a + b
    requires Sections(a + b, period, time)
    ensures |Runs(period, PeriodDesignators)| != |Runs(period, Digits)| ==>
      var d := Duration(a + ['P'] + b);
      d.year == None && d.month == None && d.day == None &&
      d.hour == FieldValue(Extract(time, TimeDesignators), "H") &&
      d.minute == FieldValue(Extract(time, TimeDesignators), "M") &&
      d.second == FieldValue(Extract(time, TimeDesignators), "S")
    ensures |Runs(time, TimeDesignators)| != |Runs(time, Digits)| ==>
      var d := Duration(a + ['P'] + b);
      d.hour == None && d.minute == None && d.second == None &&
      d.year == FieldValue(Extract(period, PeriodDesignators), "Y") &&
      d.month == FieldValue(Extract(period, PeriodDesignators), "M") &&
      d.day == FieldValue(Extract(period, PeriodDesignators), "D")
  {
    CalendarFormFields(a, b, period, time);
    ExtractKeys(period, PeriodDesignators);
    ExtractKeys(time, TimeDesignators);
  }

  /** Every character of a key of the extracted dictionary comes from the section. */
  lemma KeyChars(section: string, designatorSet: set<char>, key: string, c: char)
    requires key in Extract(section, designatorSet) && c in key
    ensures c in section
  {
    ExtractKeys(section, designatorSet);
    RunsChars(section, Digits, key);
  }

  /** A field stays unset when its designator letter occurs nowhere in the input. */
  lemma {:induction false} UnmentionedFieldsUnset(s: string)
    ensures 'Y' !in s ==> Duration(s).year == None
    ensures 'M' !in s ==> Duration(s).month == None && Duration(s).minute == None
    ensures 'D' !in s && 'W' !in s ==> Duration(s).day == None
    ensures 'H' !in s ==> Duration(s).hour == None
    ensures 'S' !in s ==> Duration(s).second == None
  {
    if 'P' in s {
      var p := FirstIndex(s, 'P').value;
      var a, b := s[..p], s[p + 1..];
      assert s == a + ['P'] + b;
      assert forall c :: c in a + b ==> c in s by {
        assert multiset(s) == multiset(a + b) + multiset{'P'};
      }
      if 'W' in a + b {
        WeekFormSetsOnlyDays(a, b);
      } else {
        var (period, time) := SplitAtT(a + b);
        assert forall c :: c in period ==> c in a + b;
        assert forall c :: c in time ==> c in a + b;
        CalendarFormFields(a, b, period, time);
        var periodValues := Extract(period, PeriodDesignators);
        var timeValues := Extract(time, TimeDesignators);
        if "Y" in periodValues { KeyChars(period, PeriodDesignators, "Y", 'Y'); }
        if "M" in periodValues { KeyChars(period, PeriodDesignators, "M", 'M'); }
        if "D" in periodValues { KeyChars(period, PeriodDesignators, "D", 'D'); }
        if "H" in timeValues { KeyChars(time, TimeDesignators, "H", 'H'); }
        if "M" in timeValues { KeyChars(time, TimeDesignators, "M", 'M'); }
        if "S" in timeValues { KeyChars(time, TimeDesignators, "S", 'S'); }
      }
    }
  }
}
