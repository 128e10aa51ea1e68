/**
 * The canonical duration strings `PnYnMnDTnHnMnS` (each part present only
 * when its field is set, `T` only when a time field is set) and `PnW`, and
 * the proof that the parser reads every such string back into the
 * components it was written from.
 */
module Canonical {
  import opened Wrappers
  import opened Split
  import opened Numerals
  import opened Extractor
  import opened ISO8601Duration

  /** A numeral followed by its designator letter, for each pair in turn. */
  function Designated(ps: seq<(nat, char)>): string
  {
    if ps == [] then [] else Numeral(ps[0].0) + [ps[0].1] + Designated(ps[1..])
  }

  function LettersOf(ps: seq<(nat, char)>): seq<string>
  {
    seq(|ps|, i requires 0 <= i < |ps| => [ps[i].1])
  }

  function NumeralsOf(ps: seq<(nat, char)>): seq<string>
  {
    seq(|ps|, i requires 0 <= i < |ps| => Numeral(ps[i].0))
  }

  /** The value written with designator `c`, the last one when there are several. */
  function Lookup(ps: seq<(nat, char)>, c: char): Option<int>
  {
    if ps == [] then None
    else if ps[|ps| - 1].1 == c then Some(ps[|ps| - 1].0)
    else Lookup(ps[..|ps| - 1], c)
  }

  predicate NonNegative(v: Option<int>)
  {
    v.Some? ==> v.value >= 0
  }

  /** Every set field holds a value a designator numeral can express. */
  predicate Renderable(dc: DateComponents)
  {
    NonNegative(dc.year) && NonNegative(dc.month) && NonNegative(dc.day) &&
    NonNegative(dc.hour) && NonNegative(dc.minute) && NonNegative(dc.second)
  }

  function Part(v: Option<int>, c: char): seq<(nat, char)>
    requires NonNegative(v)
  {
    if v.Some? then [(v.value, c)] else []
  }

  function PeriodPart(dc: DateComponents): seq<(nat, char)>
    requires Renderable(dc)
  {
    Part(dc.year, 'Y') + Part(dc.month, 'M') + Part(dc.day, 'D')
  }

  function TimePart(dc: DateComponents): seq<(nat, char)>
    requires Renderable(dc)
  {
    Part(dc.hour, 'H') + Part(dc.minute, 'M') + Part(dc.second, 'S')
  }

  /**
   * `P`, the designated period pairs `ps`, and, when there are time pairs
   * `ts`, `T` and those: the calendar form, with the designators in any order
   * and possibly repeated.
   */
  function Written(ps: seq<(nat, char)>, ts: seq<(nat, char)>): string
  {
    "P" + Designated(ps) + (if ts == [] then "" else "T" + Designated(ts))
  }

  /** The canonical string for `dc`. */
  function Render(dc: DateComponents): string
    requires Renderable(dc)
  {
    Written(PeriodPart(dc), TimePart(dc))
  }

  /** The week form for `n` weeks. */
  function RenderWeeks(n: nat): string
  {
    "P" + Numeral(n) + "W"
  }

  predicate NoDigitIn(seps: set<char>)
  {
    forall c :: c in seps ==> !IsDigit(c)
  }

  predicate LettersIn(ps: seq<(nat, char)>, seps: set<char>)
  {
    forall i :: 0 <= i < |ps| ==> ps[i].1 in seps
  }

  /** A designated string holds digits and its designator letters only. */
  lemma {:induction false} DesignatedChars(ps: seq<(nat, char)>, seps: set<char>)
    requires LettersIn(ps, seps)
    ensures forall i :: 0 <= i < |Designated(ps)| ==> IsDigit(Designated(ps)[i]) || Designated(ps)[i] in seps
  {
    if ps != [] {
      DesignatedChars(ps[1..], seps);
      var head, tail := Numeral(ps[0].0) + [ps[0].1], Designated(ps[1..]);
      assert Designated(ps) == head + tail;
      forall i | 0 <= i < |Designated(ps)|
        ensures IsDigit(Designated(ps)[i]) || Designated(ps)[i] in seps
      {
        if i >= |head| {
          assert Designated(ps)[i] == tail[i - |head|];
        }
      }
    }
  }

  /** The numeric runs of a designated string are its numerals. */
  lemma {:induction false} DesignatedValueRuns(ps: seq<(nat, char)>, seps: set<char>)
    requires LettersIn(ps, seps) && NoDigitIn(seps)
    ensures Runs(Designated(ps), seps) == NumeralsOf(ps)
  {
    if ps == [] {
      RunsOfPlain([], seps);
    } else {
      DesignatedValueRuns(ps[1..], seps);
      NumeralRun(Numeral(ps[0].0), ps[0].1, Designated(ps[1..]), seps);
      NumeralsOfCons(ps);
    }
  }

  /** A numeral ended by a designator is a numeric run on its own. */
  lemma NumeralRun(numeral: string, c: char, tail: string, seps: set<char>)
    requires numeral != [] && AllDigits(numeral) && NoDigitIn(seps) && c in seps
    ensures Runs(numeral + [c] + tail, seps) == [numeral] + Runs(tail, seps)
  {
    assert Plain(numeral, seps) by {
      forall j | 0 <= j < |numeral|
        ensures numeral[j] !in seps
      {
        assert IsDigit(numeral[j]);
      }
    }
    RunsAtSeparator(numeral, c, tail, seps);
    RunsOfPlain(numeral, seps);
  }

  lemma NumeralsOfCons(ps: seq<(nat, char)>)
    requires ps != []
    ensures NumeralsOf(ps) == [Numeral(ps[0].0)] + NumeralsOf(ps[1..])
  {
  }

  /** A numeral, then a letter followed by a digit or by nothing: the letter is a designator run on its own. */
  lemma LetterRun(numeral: string, c: char, tail: string)
    requires AllDigits(numeral) && !IsDigit(c)
    requires tail == [] || IsDigit(tail[0])
    ensures Runs(numeral + ([c] + tail), Digits) == [[c]] + Runs(tail, Digits)
  {
    AllInDigits(numeral);
    RunsAfterSeparators(numeral, [c] + tail, Digits);
    DigitsAreDigits(c);
    if tail != [] {
      DigitsAreDigits(tail[0]);
    }
    SingleRun(c, tail, Digits);
  }

  lemma LettersOfCons(ps: seq<(nat, char)>)
    requires ps != []
    ensures LettersOf(ps) == [[ps[0].1]] + LettersOf(ps[1..])
  {
  }

  /** The designator runs of a designated string are its letters, one run each. */
  lemma {:induction false} DesignatedLetterRuns(ps: seq<(nat, char)>, seps: set<char>)
    requires LettersIn(ps, seps) && NoDigitIn(seps)
    ensures Runs(Designated(ps), Digits) == LettersOf(ps)
  {
    if ps == [] {
      RunsOfPlain([], Digits);
    } else {
      var numeral, c, tail := Numeral(ps[0].0), ps[0].1, Designated(ps[1..]);
      DesignatedLetterRuns(ps[1..], seps);
      assert Designated(ps) == numeral + ([c] + tail);
      if tail != [] {
        assert tail[0] == Numeral(ps[1].0)[0];
      }
      LetterRun(numeral, c, tail);
      LettersOfCons(ps);
    }
  }

  /** The extractor pairs each letter of a designated string with its numeral. */
  lemma ExtractDesignated(ps: seq<(nat, char)>, seps: set<char>)
    requires LettersIn(ps, seps) && NoDigitIn(seps)
    ensures Extract(Designated(ps), seps) == ZipMap(LettersOf(ps), NumeralsOf(ps))
  {
    DesignatedValueRuns(ps, seps);
    DesignatedLetterRuns(ps, seps);
  }

  /** Looking a letter up in the zipped dictionary finds the value `Lookup` names. */
  lemma {:induction false} ZipMapLookup(ps: seq<(nat, char)>, c: char)
    ensures [c] in ZipMap(LettersOf(ps), NumeralsOf(ps)) <==> Lookup(ps, c).Some?
    ensures [c] in ZipMap(LettersOf(ps), NumeralsOf(ps)) ==>
      IntegerValue(ZipMap(LettersOf(ps), NumeralsOf(ps))[[c]]) == Lookup(ps, c).value
  {
    if ps != [] {
      var n := |ps| - 1;
      ZipMapLookup(ps[..n], c);
      assert LettersOf(ps)[..n] == LettersOf(ps[..n]);
      assert NumeralsOf(ps)[..n] == NumeralsOf(ps[..n]);
      IntegerValueOfNumeral(ps[n].0);
    }
  }

  lemma {:induction false} LookupAppend(x: seq<(nat, char)>, y: seq<(nat, char)>, c: char)
    ensures Lookup(x + y, c) == if Lookup(y, c).Some? then Lookup(y, c) else Lookup(x, c)
  {
    if y == [] {
      assert x + y == x;
    } else {
      var n := |y| - 1;
      assert (x + y)[..|x + y| - 1] == x + y[..n];
      LookupAppend(x, y[..n], c);
    }
  }

  lemma LookupPart(v: Option<int>, d: char, c: char)
    requires NonNegative(v)
    ensures Lookup(Part(v, d), c) == if c == d then v else None
  {
    if v.Some? {
      assert Part(v, d)[..0] == [];
    }
  }

  /** The period part names each period field under its own letter. */
  lemma LookupPeriodPart(dc: DateComponents)
    requires Renderable(dc)
    ensures Lookup(PeriodPart(dc), 'Y') == dc.year
    ensures Lookup(PeriodPart(dc), 'M') == dc.month
    ensures Lookup(PeriodPart(dc), 'D') == dc.day
  {
    var y, m, d := Part(dc.year, 'Y'), Part(dc.month, 'M'), Part(dc.day, 'D');
    forall c | c in {'Y', 'M', 'D'}
      ensures Lookup(PeriodPart(dc), c) == if c == 'Y' then dc.year else if c == 'M' then dc.month else dc.day
    {
      LookupAppend(y + m, d, c);
      LookupAppend(y, m, c);
      LookupPart(dc.year, 'Y', c);
      LookupPart(dc.month, 'M', c);
      LookupPart(dc.day, 'D', c);
    }
  }

  /** The time part names each time field under its own letter. */
  lemma LookupTimePart(dc: DateComponents)
    requires Renderable(dc)
    ensures Lookup(TimePart(dc), 'H') == dc.hour
    ensures Lookup(TimePart(dc), 'M') == dc.minute
    ensures Lookup(TimePart(dc), 'S') == dc.second
  {
    var h, m, s := Part(dc.hour, 'H'), Part(dc.minute, 'M'), Part(dc.second, 'S');
    forall c | c in {'H', 'M', 'S'}
      ensures Lookup(TimePart(dc), c) == if c == 'H' then dc.hour else if c == 'M' then dc.minute else dc.second
    {
      LookupAppend(h + m, s, c);
      LookupAppend(h, m, c);
      LookupPart(dc.hour, 'H', c);
      LookupPart(dc.minute, 'M', c);
      LookupPart(dc.second, 'S', c);
    }
  }

  /** The text of the time section of a written string. */
  function TimeText(ts: seq<(nat, char)>): string
  {
    if ts == [] then [] else Designated(ts)
  }

  /** A character that is neither a digit nor a designator does not occur in a designated string. */
  lemma Absent(ps: seq<(nat, char)>, seps: set<char>, ch: char)
    requires LettersIn(ps, seps) && !IsDigit(ch) && ch !in seps
    ensures ch !in Designated(ps)
  {
    DesignatedChars(ps, seps);
  }

  /** The sections of `P`, a period text without `T`, and optionally `T` and a time text. */
  lemma SectionShape(ps: string, ts: string, hasTime: bool)
    requires 'T' !in ps && 'W' !in ps && 'W' !in ts
    ensures var s := ['P'] + ps + (if hasTime then ['T'] + ts else []);
            FirstIndex(s, 'P') == Some(0) && 'W' !in s &&
            SplitAtT(s[1..]) == (ps, if hasTime then ts else [])
  {
    var s := ['P'] + ps + (if hasTime then ['T'] + ts else []);
    var rest := s[1..];
    if hasTime {
      assert rest == ps + ['T'] + ts;
      var (periodString, timeString) := SplitAtT(rest);
      FirstCutUnique(ps, ts, periodString, timeString, 'T');
    } else {
      assert rest == ps;
    }
  }

  /** A written string starts with its only `P`, holds no `W`, and its first `T` opens the time section. */
  lemma WrittenSections(ps: seq<(nat, char)>, ts: seq<(nat, char)>)
    requires LettersIn(ps, PeriodDesignators) && LettersIn(ts, TimeDesignators)
    ensures FirstIndex(Written(ps, ts), 'P') == Some(0)
    ensures 'W' !in Written(ps, ts)
    ensures SplitAtT(Written(ps, ts)[1..]) == (Designated(ps), TimeText(ts))
  {
    var period, time := Designated(ps), Designated(ts);
    Absent(ps, PeriodDesignators, 'W');
    Absent(ts, TimeDesignators, 'W');
    Absent(ps, PeriodDesignators, 'T');
    SectionShape(period, time, ts != []);
    assert Written(ps, ts) == ['P'] + period + (if ts != [] then ['T'] + time else []);
  }

  /** The two dictionaries read from the sections of a written string fill in the last value written for each field. */
  lemma SectionsFields(ps: seq<(nat, char)>, ts: seq<(nat, char)>)
    requires LettersIn(ps, PeriodDesignators) && LettersIn(ts, TimeDesignators)
    ensures var periodValues := Extract(Designated(ps), PeriodDesignators);
            var timeValues := Extract(TimeText(ts), TimeDesignators);
            WithTime(WithPeriod(Unset, periodValues, periodValues.Keys), timeValues, timeValues.Keys) ==
              DateComponents(Lookup(ps, 'Y'), Lookup(ps, 'M'), Lookup(ps, 'D'),
                             Lookup(ts, 'H'), Lookup(ts, 'M'), Lookup(ts, 'S'))
  {
    ExtractDesignated(ps, PeriodDesignators);
    ExtractDesignated(ts, TimeDesignators);
    if ts == [] {
      ExtractEmpty(TimeDesignators);
    }
    ZipMapLookup(ps, 'Y');
    ZipMapLookup(ps, 'M');
    ZipMapLookup(ps, 'D');
    ZipMapLookup(ts, 'H');
    ZipMapLookup(ts, 'M');
    ZipMapLookup(ts, 'S');
  }

  /**
   * Parsing a written string sets each field to the value last written with
   * its designator, and leaves the fields without one unset, whatever the
   * order of the designators and however often they repeat.
   */
  lemma WrittenFields(ps: seq<(nat, char)>, ts: seq<(nat, char)>)
    requires LettersIn(ps, PeriodDesignators) && LettersIn(ts, TimeDesignators)
    ensures Duration(Written(ps, ts)) ==
      DateComponents(Lookup(ps, 'Y'), Lookup(ps, 'M'), Lookup(ps, 'D'),
                     Lookup(ts, 'H'), Lookup(ts, 'M'), Lookup(ts, 'S'))
  {
    var s := Written(ps, ts);
    WrittenSections(ps, ts);
    assert s[..0] + s[1..] == s[1..];
    SectionsFields(ps, ts);
  }

  /** Parsing the canonical string gives back the components it was written from. */
  lemma RenderRoundTrip(dc: DateComponents)
    requires Renderable(dc)
    ensures Duration(Render(dc)) == dc
  {
    WrittenFields(PeriodPart(dc), TimePart(dc));
    LookupPeriodPart(dc);
    LookupTimePart(dc);
  }

  /** Parsing the week form for `n` weeks gives `7 * n` days and nothing else. */
  lemma WeeksRoundTrip(n: nat)
    ensures Duration(RenderWeeks(n)) == Unset.(day := Some(7 * n))
  {
    var s := RenderWeeks(n);
    var numeral := Numeral(n);
    var rest := numeral + "W";
    assert s == ['P'] + rest;
    assert FirstIndex(s, 'P') == Some(0);
    assert s[..0] + s[1..] == rest;
    assert s[|s| - 1] == 'W';
    var ps := [(n, 'W')];
    assert Designated(ps) == rest by {
      assert Designated(ps[1..]) == [];
    }
    ExtractDesignated(ps, WeekDesignators);
    ZipMapLookup(ps, 'W');
    assert ps[..0] == [];
  }
}
