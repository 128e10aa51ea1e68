/**
 * Splitting a string at the characters of a character set, as Foundation's
 * `componentsSeparatedByCharactersInSet` does, and dropping the empty pieces,
 * as `removeObject("")` on the resulting array does.
 */
module Split {

  /** `x` holds no character of `seps`. */
  predicate Plain(x: string, seps: set<char>)
  {
    forall j :: 0 <= j < |x| ==> x[j] !in seps
  }

  /** The characters of `s` that belong to `seps`, in order. */
  function Separators(s: string, seps: set<char>): (r: string)
    ensures forall i :: 0 <= i < |r| ==> r[i] in seps
  {
    if s == [] then []
    else (if s[0] in seps then [s[0]] else []) + Separators(s[1..], seps)
  }

  /** The characters of `s` that do not belong to `seps`, in order. */
  function Strip(s: string, seps: set<char>): (r: string)
    ensures forall i :: 0 <= i < |r| ==> r[i] !in seps
  {
    if s == [] then []
    else (if s[0] in seps then [] else [s[0]]) + Strip(s[1..], seps)
  }

  /**
   * The pieces of `s` between consecutive separators, empty pieces included:
   * one more piece than there are separators (`ComponentsPlain` shows that
   * no piece holds a separator).
   */
  function Components(s: string, seps: set<char>): (r: seq<string>)
    ensures |r| == |Separators(s, seps)| + 1
  {
    if s == [] then [[]]
    else
      var rest := Components(s[1..], seps);
      if s[0] in seps then [[]] + rest
      else [[s[0]] + rest[0]] + rest[1..]
  }

  /** Glues `pieces` back together, putting `glue[i]` between piece `i` and piece `i + 1`. */
  function Interleave(pieces: seq<string>, glue: string): string
    requires |pieces| == |glue| + 1
  {
    if glue == [] then pieces[0]
    else pieces[0] + [glue[0]] + Interleave(pieces[1..], glue[1..])
  }

  /** The concatenation of all `pieces`. */
  function Flatten(pieces: seq<string>): string
  {
    if pieces == [] then [] else pieces[0] + Flatten(pieces[1..])
  }

  /** `pieces` with every empty string removed, order kept. */
  function DropEmpty(pieces: seq<string>): (r: seq<string>)
    ensures |r| <= |pieces|
  {
    if pieces == [] then []
    else (if pieces[0] == [] then [] else [pieces[0]]) + DropEmpty(pieces[1..])
  }

  /** What is left are non-empty strings of `pieces`. */
  lemma {:induction false} DropEmptyKept(pieces: seq<string>)
    ensures forall i :: 0 <= i < |DropEmpty(pieces)| ==> DropEmpty(pieces)[i] != [] && DropEmpty(pieces)[i] in pieces
  {
    if pieces != [] {
      DropEmptyKept(pieces[1..]);
    }
  }

  /** The maximal runs of `s` free of characters in `seps`. */
  function Runs(s: string, seps: set<char>): (r: seq<string>)
    ensures |r| <= |Separators(s, seps)| + 1
  {
    DropEmpty(Components(s, seps))
  }

  /** Every run is non-empty and holds no separator. */
  lemma RunsPlain(s: string, seps: set<char>)
    ensures forall i :: 0 <= i < |Runs(s, seps)| ==> Runs(s, seps)[i] != [] && Plain(Runs(s, seps)[i], seps)
  {
    ComponentsPlain(s, seps);
    DropEmptyKept(Components(s, seps));
  }

  /** No piece of `Components(s, seps)` holds a separator. */
  lemma {:induction false} ComponentsPlain(s: string, seps: set<char>)
    ensures forall i :: 0 <= i < |Components(s, seps)| ==> Plain(Components(s, seps)[i], seps)
  {
    if s != [] {
      ComponentsPlain(s[1..], seps);
    }
  }

  /** Splitting loses nothing: the pieces and the separators give back `s`. */
  lemma {:induction false} ComponentsRoundTrip(s: string, seps: set<char>)
    ensures Interleave(Components(s, seps), Separators(s, seps)) == s
  {
    if s != [] {
      var rest, glue := Components(s[1..], seps), Separators(s[1..], seps);
      ComponentsRoundTrip(s[1..], seps);
      if s[0] in seps {
        assert Components(s, seps) == [[]] + rest;
        assert Separators(s, seps) == [s[0]] + glue;
        assert ([[]] + rest)[1..] == rest;
      } else {
        assert Separators(s, seps) == glue;
        var pieces := Components(s, seps);
        assert pieces == [[s[0]] + rest[0]] + rest[1..];
        if glue == [] {
          assert Interleave(rest, glue) == rest[0];
        } else {
          assert pieces[1..] == rest[1..];
          assert Interleave(rest, glue) == rest[0] + [glue[0]] + Interleave(rest[1..], glue[1..]);
          assert Interleave(pieces, glue) == [s[0]] + rest[0] + [glue[0]] + Interleave(rest[1..], glue[1..]);
        }
        assert s == [s[0]] + s[1..];
      }
    }
  }

  /** Extending the first of several pieces commutes with appending more pieces. */
  lemma JoinFirst(x: string, left: seq<string>, right: seq<string>)
    requires left != []
    ensures [x + (left + right)[0]] + (left + right)[1..] == ([x + left[0]] + left[1..]) + right
  {
    assert (left + right)[1..] == left[1..] + right;
  }

  /** A separator cuts the string in two: the pieces on either side are those of each half. */
  lemma {:induction false} ComponentsAtSeparator(a: string, c: char, b: string, seps: set<char>)
    requires c in seps
    ensures Components(a + [c] + b, seps) == Components(a, seps) + Components(b, seps)
  {
    var s := a + [c] + b;
    if a == [] {
      assert s[1..] == b;
    } else {
      assert s[1..] == a[1..] + [c] + b;
      var left, right := Components(a[1..], seps), Components(b, seps);
      ComponentsAtSeparator(a[1..], c, b, seps);
      if a[0] in seps {
        assert [[]] + (left + right) == ([[]] + left) + right;
      } else {
        JoinFirst([a[0]], left, right);
      }
    }
  }

  /** A string free of separators is a single piece. */
  lemma {:induction false} ComponentsOfPlain(a: string, seps: set<char>)
    requires Plain(a, seps)
    ensures Components(a, seps) == [a]
  {
    if a != [] {
      ComponentsOfPlain(a[1..], seps);
      assert a == [a[0]] + a[1..];
    }
  }

  lemma {:induction false} DropEmptyAppend(x: seq<string>, y: seq<string>)
    ensures DropEmpty(x + y) == DropEmpty(x) + DropEmpty(y)
  {
    if x != [] {
      DropEmptyAppend(x[1..], y);
      assert (x + y)[1..] == x[1..] + y;
    } else {
      assert x + y == y;
    }
  }

  /** Deleting one empty string leaves the non-empty ones as they were. */
  lemma {:induction false} DropEmptyRemove(x: seq<string>, i: nat)
    requires i < |x| && x[i] == []
    ensures DropEmpty(x[..i] + x[i + 1..]) == DropEmpty(x)
  {
    var y := x[..i] + x[i + 1..];
    if i == 0 {
      assert y == x[1..];
    } else {
      DropEmptyRemove(x[1..], i - 1);
      assert y[0] == x[0];
      assert y[1..] == x[1..][..i - 1] + x[1..][i..];
    }
  }

  /** Dropping empty strings changes nothing when there are none. */
  lemma {:induction false} DropEmptyOfNonEmpty(x: seq<string>)
    requires forall i :: 0 <= i < |x| ==> x[i] != []
    ensures DropEmpty(x) == x
  {
    if x != [] {
      DropEmptyOfNonEmpty(x[1..]);
    }
  }

  lemma {:induction false} FlattenAppend(x: seq<string>, y: seq<string>)
    ensures Flatten(x + y) == Flatten(x) + Flatten(y)
  {
    if x == [] {
      assert x + y == y;
    } else {
      var rest := x[1..] + y;
      FlattenAppend(x[1..], y);
      assert x + y == [x[0]] + rest;
      assert ([x[0]] + rest)[1..] == rest;
      var h, f, g := x[0], Flatten(x[1..]), Flatten(y);
      assert h + (f + g) == (h + f) + g;
    }
  }

  lemma {:induction false} DropEmptyKeepsText(x: seq<string>)
    ensures Flatten(DropEmpty(x)) == Flatten(x)
  {
    if x != [] {
      DropEmptyKeepsText(x[1..]);
      var head := if x[0] == [] then [] else [x[0]];
      FlattenAppend(head, DropEmpty(x[1..]));
    }
  }

  lemma {:induction false} ComponentsKeepText(s: string, seps: set<char>)
    ensures Flatten(Components(s, seps)) == Strip(s, seps)
  {
    if s != [] {
      ComponentsKeepText(s[1..], seps);
      var rest := Components(s[1..], seps);
      assert rest == [rest[0]] + rest[1..];
      if s[0] !in seps {
        assert Flatten(rest) == rest[0] + Flatten(rest[1..]);
      }
    }
  }

  /** The runs hold exactly the non-separator characters of `s`, in order. */
  lemma RunsKeepText(s: string, seps: set<char>)
    ensures Flatten(Runs(s, seps)) == Strip(s, seps)
  {
    DropEmptyKeepsText(Components(s, seps));
    ComponentsKeepText(s, seps);
  }

  /** A separator ends one run: the runs of `a + [c] + b` are those of `a` followed by those of `b`. */
  lemma RunsAtSeparator(a: string, c: char, b: string, seps: set<char>)
    requires c in seps
    ensures Runs(a + [c] + b, seps) == Runs(a, seps) + Runs(b, seps)
  {
    ComponentsAtSeparator(a, c, b, seps);
    DropEmptyAppend(Components(a, seps), Components(b, seps));
  }

  /** A non-empty string free of separators is one run; the empty string has none. */
  lemma RunsOfPlain(a: string, seps: set<char>)
    requires Plain(a, seps)
    ensures Runs(a, seps) == if a == [] then [] else [a]
  {
    ComponentsOfPlain(a, seps);
  }

  /** A separator at the front starts no run. */
  lemma RunsAfterSeparator(c: char, b: string, seps: set<char>)
    requires c in seps
    ensures Runs([c] + b, seps) == Runs(b, seps)
  {
    assert [c] + b == [] + [c] + b;
    RunsAtSeparator([], c, b, seps);
    RunsOfPlain([], seps);
  }

  /** A lone non-separator followed by a separator, or by nothing, is a run of its own. */
  lemma SingleRun(c: char, tail: string, seps: set<char>)
    requires c !in seps
    requires tail == [] || tail[0] in seps
    ensures Runs([c] + tail, seps) == [[c]] + Runs(tail, seps)
  {
    assert Plain([c], seps);
    RunsOfPlain([c], seps);
    if tail == [] {
      assert [c] + tail == [c];
      RunsOfPlain([], seps);
    } else {
      var after := tail[1..];
      assert [c] + tail == [c] + [tail[0]] + after && tail == [tail[0]] + after;
      RunsAtSeparator([c], tail[0], after, seps);
      RunsAfterSeparator(tail[0], after, seps);
    }
  }

  /** Leading separators start no run. */
  lemma {:induction false} RunsAfterSeparators(d: string, b: string, seps: set<char>)
    requires forall i :: 0 <= i < |d| ==> d[i] in seps
    ensures Runs(d + b, seps) == Runs(b, seps)
  {
    if d != [] {
      var tail := d[1..] + b;
      RunsAfterSeparators(d[1..], b, seps);
      assert d + b == [] + [d[0]] + tail;
      RunsAtSeparator([], d[0], tail, seps);
      RunsOfPlain([], seps);
      assert Runs(d + b, seps) == Runs([], seps) + Runs(tail, seps);
    } else {
      assert d + b == b;
    }
  }

  /** Every character of every piece comes from `s`. */
  lemma {:induction false} ComponentsChars(s: string, seps: set<char>, i: nat, j: nat)
    requires i < |Components(s, seps)| && j < |Components(s, seps)[i]|
    ensures Components(s, seps)[i][j] in s
  {
    var rest := Components(s[1..], seps);
    if s[0] in seps {
      ComponentsChars(s[1..], seps, i - 1, j);
    } else if i == 0 && j == 0 {
    } else if i == 0 {
      ComponentsChars(s[1..], seps, 0, j - 1);
    } else {
      ComponentsChars(s[1..], seps, i, j);
    }
  }

  /** Every character of a run comes from `s`. */
  lemma RunsChars(s: string, seps: set<char>, x: string)
    requires x in Runs(s, seps)
    ensures forall j :: 0 <= j < |x| ==> x[j] in s
  {
    var pieces := Components(s, seps);
    DropEmptyKept(pieces);
    var i :| 0 <= i < |pieces| && pieces[i] == x;
    forall j | 0 <= j < |x| ensures x[j] in s {
      ComponentsChars(s, seps, i, j);
    }
  }

  /** A separator-free text with only separators around it is the one run. */
  lemma LoneRun(before: string, x: string, after: string, seps: set<char>)
    requires forall i :: 0 <= i < |before| ==> before[i] in seps
    requires forall i :: 0 <= i < |after| ==> after[i] in seps
    requires x != [] && Plain(x, seps)
    ensures Runs(before + x + after, seps) == [x]
  {
    assert before + x + after == before + (x + after);
    RunsAfterSeparators(before, x + after, seps);
    RunsOfPlain(x, seps);
    if after != [] {
      assert x + after == x + [after[0]] + after[1..];
      RunsAtSeparator(x, after[0], after[1..], seps);
      RunsAfterSeparators(after[1..], [], seps);
      assert after[1..] + [] == after[1..];
      RunsOfPlain([], seps);
    } else {
      assert x + after == x;
    }
  }
}
