/**
 * The designator extractor (`componentsForString`): pairs the numeric runs of
 * a section with its designator runs, by position, into a dictionary.
 */
module Extractor {
  import opened Split
  import opened Numerals

  /**
   * The dictionary obtained by storing `vals[i]` under `keys[i]` for
   * i = 0, 1, ... in turn, so that a later key overwrites an earlier one.
   */
  function ZipMap(keys: seq<string>, vals: seq<string>): (r: map<string, string>)
    requires |keys| == |vals|
    ensures r == map[] <==> keys == []
  {
    if keys == [] then map[]
    else
      var r := ZipMap(keys[..|keys| - 1], vals[..|vals| - 1])[keys[|keys| - 1] := vals[|vals| - 1]];
      assert keys[|keys| - 1] in r;
      r
  }

  /** Zipping one more position stores one more value. */
  lemma ZipMapExtend(keys: seq<string>, vals: seq<string>, i: nat)
    requires |keys| == |vals| && i < |keys|
    ensures ZipMap(keys[..i + 1], vals[..i + 1]) == ZipMap(keys[..i], vals[..i])[keys[i] := vals[i]]
  {
    assert keys[..i + 1][..i] == keys[..i];
    assert vals[..i + 1][..i] == vals[..i];
  }

  /** Every key of the zipped dictionary is one of `keys`, and every one of `keys` is a key. */
  lemma {:induction false} ZipMapKeys(keys: seq<string>, vals: seq<string>)
    requires |keys| == |vals|
    ensures forall k :: k in ZipMap(keys, vals) <==> k in keys
  {
    if keys != [] {
      var n := |keys| - 1;
      ZipMapKeys(keys[..n], vals[..n]);
      assert keys == keys[..n] + [keys[n]];
    }
  }

  /** Last one wins: a key is paired with the value at its last position. */
  lemma {:induction false} ZipMapLastWins(keys: seq<string>, vals: seq<string>, i: nat)
    requires |keys| == |vals| && i < |keys|
    requires forall j :: i < j < |keys| ==> keys[j] != keys[i]
    ensures keys[i] in ZipMap(keys, vals) && ZipMap(keys, vals)[keys[i]] == vals[i]
  {
    var n := |keys| - 1;
    if i < n {
      ZipMapLastWins(keys[..n], vals[..n], i);
    }
  }

  /** Each value of the zipped dictionary is one of `vals`. */
  lemma {:induction false} ZipMapValues(keys: seq<string>, vals: seq<string>)
    requires |keys| == |vals|
    ensures forall k :: k in ZipMap(keys, vals) ==> ZipMap(keys, vals)[k] in vals
  {
    if keys != [] {
      var n := |keys| - 1;
      ZipMapValues(keys[..n], vals[..n]);
      assert vals == vals[..n] + [vals[n]];
    }
  }

  /**
   * What `componentsForString` returns for `section`: the numeric runs
   * (split at the designators) and the designator runs (split at the digits)
   * zipped by position when there are as many of each; otherwise, and for an
   * empty section, the empty dictionary.
   */
  function Extract(section: string, designatorSet: set<char>): (r: map<string, string>)
    ensures r != map[] ==> |section| > 0 && |Runs(section, designatorSet)| == |Runs(section, Digits)|
  {
    if |section| == 0 then map[]
    else
      var values := Runs(section, designatorSet);
      var designators := Runs(section, Digits);
      if |values| == |designators| then ZipMap(designators, values) else map[]
  }

  /** Every key is a non-empty run of non-digits, every value a non-empty run of non-designators. */
  lemma ExtractShape(section: string, designatorSet: set<char>)
    ensures var m := Extract(section, designatorSet);
            forall k :: k in m ==> k != [] && Plain(k, Digits) && m[k] != [] && Plain(m[k], designatorSet)
  {
    var values := Runs(section, designatorSet);
    var designators := Runs(section, Digits);
    if |section| != 0 && |values| == |designators| {
      RunsPlain(section, designatorSet);
      RunsPlain(section, Digits);
      ZipMapKeys(designators, values);
      ZipMapValues(designators, values);
    }
  }

  /** `removeObject("")`: deletes every empty string from `pieces`, in place, keeping the order of the rest. */
  method RemoveEmpty(pieces: seq<string>) returns (runs: seq<string>)
    ensures runs == DropEmpty(pieces)
  {
    runs := pieces;
    var i := 0;
    while i < |runs|
      invariant 0 <= i <= |runs|
      invariant forall j :: 0 <= j < i ==> runs[j] != []
      invariant DropEmpty(runs) == DropEmpty(pieces)
      decreases |runs| - i
    {
      if runs[i] == [] {
        DropEmptyRemove(runs, i);
        runs := runs[..i] + runs[i + 1..];
      } else {
        i := i + 1;
      }
    }
    DropEmptyOfNonEmpty(runs);
  }

  /** `componentsForString`. */
  method ComponentsForString(section: string, designatorSet: set<char>) returns (dictionary: map<string, string>)
    ensures dictionary == Extract(section, designatorSet)
  {
    if |section| == 0 {
      return map[];
    }
    var componentValues := RemoveEmpty(Components(section, designatorSet));
    var designatorValues := RemoveEmpty(Components(section, Digits));
    if |componentValues| == |designatorValues| {
      dictionary := map[];
      for i := 0 to |componentValues|
        invariant dictionary == ZipMap(designatorValues[..i], componentValues[..i])
      {
        ZipMapExtend(designatorValues, componentValues, i);
        dictionary := dictionary[designatorValues[i] := componentValues[i]];
      }
      assert designatorValues[..|designatorValues|] == designatorValues;
      assert componentValues[..|componentValues|] == componentValues;
      return dictionary;
    }
    return map[];
  }

  /** An empty section gives the empty dictionary, and so does the guard-free computation. */
  lemma ExtractEmpty(designatorSet: set<char>)
    ensures Extract([], designatorSet) == map[]
    ensures Runs([], designatorSet) == [] && Runs([], Digits) == []
  {
    RunsOfPlain([], designatorSet);
    RunsOfPlain([], Digits);
  }

  /** As many numeric runs as designator runs: each designator run is a key holding the value at its last position. */
  lemma ExtractPairs(section: string, designatorSet: set<char>, i: nat)
    requires |Runs(section, designatorSet)| == |Runs(section, Digits)|
    requires i < |Runs(section, Digits)|
    requires forall j :: i < j < |Runs(section, Digits)| ==> Runs(section, Digits)[j] != Runs(section, Digits)[i]
    ensures Runs(section, Digits)[i] in Extract(section, designatorSet)
    ensures Extract(section, designatorSet)[Runs(section, Digits)[i]] == Runs(section, designatorSet)[i]
  {
    ZipMapLastWins(Runs(section, Digits), Runs(section, designatorSet), i);
  }

  /** The keys are exactly the designator runs, or there are none when the counts differ. */
  lemma ExtractKeys(section: string, designatorSet: set<char>)
    ensures |Runs(section, designatorSet)| != |Runs(section, Digits)| ==> Extract(section, designatorSet) == map[]
    ensures |Runs(section, designatorSet)| == |Runs(section, Digits)| ==>
      forall k :: k in Extract(section, designatorSet) <==> k in Runs(section, Digits)
  {
    if section == [] {
      ExtractEmpty(designatorSet);
    }
    if |Runs(section, designatorSet)| == |Runs(section, Digits)| {
      ZipMapKeys(Runs(section, Digits), Runs(section, designatorSet));
    }
  }
}
