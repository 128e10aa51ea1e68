/**
 * The driver (`durationFrom8601String`): locates and removes the `P`, takes
 * the week short cut when the string holds a `W`, otherwise splits the rest
 * at its first `T` into a period section and a time section, runs the
 * extractor on each and copies the values of the known designators into the
 * date components.
 */
module ISO8601Duration {
  import opened Wrappers
  import opened Split
  import opened Numerals
  import opened Extractor

  /** `NSDateComponents` restricted to the six fields the parser sets; `None` is a field never set. */
  datatype DateComponents = DateComponents(
    year: Option<int>, month: Option<int>, day: Option<int>,
    hour: Option<int>, minute: Option<int>, second: Option<int>)

  /** Freshly created components: no field set. */
  const Unset := DateComponents(None, None, None, None, None, None)

  const PeriodDesignators: set<char> := {'Y', 'M', 'D'}
  const TimeDesignators: set<char> := {'H', 'M', 'S'}
  const WeekDesignators: set<char> := {'W'}

  /** `rangeOfString` for a one-character pattern: the position of the first `c` in `s`, if any. */
  function FirstIndex(s: string, c: char): (r: Option<nat>)
    ensures r.None? <==> c !in s
    ensures r.Some? ==> r.value < |s| && s[r.value] == c && c !in s[..r.value]
  {
    if s == [] then None
    else if s[0] == c then Some(0)
    else match FirstIndex(s[1..], c)
      case None => None
      case Some(i) =>
        assert s[..i + 1] == [s[0]] + s[1..][..i];
        Some(i + 1)
  }

  /** The week form: 7 days per week, stored as a day count and nothing else. */
  function WeekForm(rest: string): (r: DateComponents)
    ensures r.year.None? && r.month.None? && r.hour.None? && r.minute.None? && r.second.None?
    ensures r.day.Some? <==> "W" in Extract(rest, WeekDesignators)
  {
    var weekValues := Extract(rest, WeekDesignators);
    if "W" in weekValues then Unset.(day := Some(7 * IntegerValue(weekValues["W"]))) else Unset
  }

  /**
   * The period section and the time section of `rest`: the text before and
   * after its first `T`; all of `rest` and nothing when there is no `T`.
   */
  function SplitAtT(rest: string): (r: (string, string))
    ensures 'T' !in rest ==> r == (rest, [])
    ensures 'T' in rest ==> rest == r.0 + ['T'] + r.1 && 'T' !in r.0
  {
    match FirstIndex(rest, 'T')
    case None => (rest, [])
    case Some(t) =>
      assert rest == rest[..t] + ['T'] + rest[t + 1..];
      (rest[..t], rest[t + 1..])
  }

  /** Two ways of cutting a string at its first `c` agree. */
  lemma FirstCutUnique(x: string, y: string, x': string, y': string, c: char)
    requires x + [c] + y == x' + [c] + y'
    requires c !in x && c !in x'
    ensures x == x' && y == y'
  {
    var s := x + [c] + y;
    var k := if |x| < |x'| then |x| else |x'|;
    assert s[k] == c;
    assert x == s[..|x|] == x';
    assert y == s[|x| + 1..] == y';
  }

  /** `dc` after the period loop has visited the keys `done` of `m`: `D`, `M`, `Y` set day, month, year. */
  function WithPeriod(dc: DateComponents, m: map<string, string>, done: set<string>): (r: DateComponents)
    requires done <= m.Keys
    ensures r.hour == dc.hour && r.minute == dc.minute && r.second == dc.second
    ensures "Y" !in done && "M" !in done && "D" !in done ==> r == dc
  {
    dc.(year := if "Y" in done then Some(IntegerValue(m["Y"])) else dc.year,
        month := if "M" in done then Some(IntegerValue(m["M"])) else dc.month,
        day := if "D" in done then Some(IntegerValue(m["D"])) else dc.day)
  }

  /** `dc` after the time loop has visited the keys `done` of `m`: `H`, `M`, `S` set hour, minute, second. */
  function WithTime(dc: DateComponents, m: map<string, string>, done: set<string>): (r: DateComponents)
    requires done <= m.Keys
    ensures r.year == dc.year && r.month == dc.month && r.day == dc.day
    ensures "H" !in done && "M" !in done && "S" !in done ==> r == dc
  {
    dc.(hour := if "H" in done then Some(IntegerValue(m["H"])) else dc.hour,
        minute := if "M" in done then Some(IntegerValue(m["M"])) else dc.minute,
        second := if "S" in done then Some(IntegerValue(m["S"])) else dc.second)
  }

  /** What the driver makes of the text left once the `P` is removed; `weekForm` is whether the input holds a `W`. */
  function AfterP(rest: string, weekForm: bool): (r: DateComponents)
    ensures weekForm ==> r.year.None? && r.month.None? && r.hour.None? && r.minute.None? && r.second.None?
    ensures !weekForm && rest == [] ==> r == Unset
  {
    if weekForm then WeekForm(rest)
    else
      var (period, time) := SplitAtT(rest);
      var periodValues := Extract(period, PeriodDesignators);
      var timeValues := Extract(time, TimeDesignators);
      WithTime(WithPeriod(Unset, periodValues, periodValues.Keys), timeValues, timeValues.Keys)
  }

  /** The components `durationFrom8601String` returns for `s`. */
  function Duration(s: string): (r: DateComponents)
    ensures 'P' !in s ==> r == Unset
  {
    match FirstIndex(s, 'P')
    case None => Unset
    case Some(p) => AfterP(s[..p] + s[p + 1..], 'W' in s)
  }

  /** The loop over the period dictionary: each of its keys `D`, `M`, `Y` sets its field, in whatever order the keys come. */
  method AssignPeriodFields(dc: DateComponents, periodValues: map<string, string>) returns (dateComponents: DateComponents)
    ensures dateComponents == WithPeriod(dc, periodValues, periodValues.Keys)
  {
    dateComponents := dc;
    var pending := periodValues.Keys;
    while pending != {}
      invariant pending <= periodValues.Keys
      invariant dateComponents == WithPeriod(dc, periodValues, periodValues.Keys - pending)
      decreases pending
    {
      var key :| key in pending;
      var value := IntegerValue(periodValues[key]);
      if key == "D" {
        dateComponents := dateComponents.(day := Some(value));
      } else if key == "M" {
        dateComponents := dateComponents.(month := Some(value));
      } else if key == "Y" {
        dateComponents := dateComponents.(year := Some(value));
      }
      pending := pending - {key};
    }
  }

  /** The loop over the time dictionary: each of its keys `S`, `M`, `H` sets its field, in whatever order the keys come. */
  method AssignTimeFields(dc: DateComponents, timeValues: map<string, string>) returns (dateComponents: DateComponents)
    ensures dateComponents == WithTime(dc, timeValues, timeValues.Keys)
  {
    dateComponents := dc;
    var pending := timeValues.Keys;
    while pending != {}
      invariant pending <= timeValues.Keys
      invariant dateComponents == WithTime(dc, timeValues, timeValues.Keys - pending)
      decreases pending
    {
      var key :| key in pending;
      var value := IntegerValue(timeValues[key]);
      if key == "S" {
        dateComponents := dateComponents.(second := Some(value));
      } else if key == "M" {
        dateComponents := dateComponents.(minute := Some(value));
      } else if key == "H" {
        dateComponents := dateComponents.(hour := Some(value));
      }
      pending := pending - {key};
    }
  }

  /** `durationFrom8601String`; the diagnostics it prints on a missing `P` are left out. */
  method DurationFrom8601String(durationString: string) returns (dateComponents: DateComponents)
    ensures dateComponents == Duration(durationString)
  {
    dateComponents := Unset;
    var mutableDurationString := durationString;

    var pRange := FirstIndex(mutableDurationString, 'P');
    if pRange.None? {
      return;
    }
    mutableDurationString := mutableDurationString[..pRange.value] + mutableDurationString[pRange.value + 1..];

    if 'W' in durationString {
      var weekValues := ComponentsForString(mutableDurationString, WeekDesignators);
      if "W" in weekValues {
        dateComponents := dateComponents.(day := Some(7 * IntegerValue(weekValues["W"])));
      }
      return;
    }

    var tRange := FirstIndex(mutableDurationString, 'T');
    var periodString, timeString := "", "";
    if tRange.None? {
      periodString := mutableDurationString;
    } else {
      periodString := mutableDurationString[..tRange.value];
      timeString := mutableDurationString[tRange.value + 1..];
    }

    var periodValues := ComponentsForString(periodString, PeriodDesignators);
    dateComponents := AssignPeriodFields(dateComponents, periodValues);
    var timeValues := ComponentsForString(timeString, TimeDesignators);
    dateComponents := AssignTimeFields(dateComponents, timeValues);
  }
}
