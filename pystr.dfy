/**
 * The few Python built-ins on `str` and `list` that the generator relies on:
 * the `in` operator on strings, `str.startswith`, `str.splitlines`,
 * `str.join` and slicing with a step of one.  Strings are `seq<char>`.
 */
module PyStr {

  /** `sub` occurs in `s` starting at index `i`. */
  ghost predicate OccursAt(s: string, sub: string, i: int) {
    0 <= i && i + |sub| <= |s| && s[i..i + |sub|] == sub
  }

  /** Python's `sub in s` for two strings: a case-sensitive substring test. */
  function Contains(s: string, sub: string): (r: bool)
    ensures r ==> |sub| <= |s|
    decreases |s|
  {
    if |s| < |sub| then false
    else s[..|sub|] == sub || Contains(s[1..], sub)
  }

  /** `Contains` agrees with the positional definition of a substring. */
  lemma {:induction false} ContainsIff(s: string, sub: string)
    ensures Contains(s, sub) <==> exists i :: OccursAt(s, sub, i)
    decreases |s|
  {
    if |s| < |sub| {
      assert !exists i :: OccursAt(s, sub, i);
    } else if s[..|sub|] == sub {
      assert OccursAt(s, sub, 0);
    } else {
      ContainsIff(s[1..], sub);
      if Contains(s[1..], sub) {
        var i :| OccursAt(s[1..], sub, i);
        assert s[i + 1..i + 1 + |sub|] == s[1..][i..i + |sub|];
        assert OccursAt(s, sub, i + 1);
      } else {
        forall i | OccursAt(s, sub, i)
          ensures i > 0 && OccursAt(s[1..], sub, i - 1)
        {
          assert s[1..][i - 1..i - 1 + |sub|] == s[i..i + |sub|];
        }
      }
    }
  }

  /** Python's `s.startswith(prefix)`. */
  predicate StartsWith(s: string, prefix: string) {
    |prefix| <= |s| && s[..|prefix|] == prefix
  }

  /** The start index Python uses for a slice bound `i` of a sequence of length `n`:
      a negative bound counts from the end, and the result is clipped to `0..n`. */
  function Clamp(i: int, n: nat): (k: nat)
    ensures k <= n
    ensures 0 <= i <= n ==> k == i
    ensures i < 0 && -i <= n ==> k == n + i
  {
    if i < 0 then (if i + n < 0 then 0 else i + n)
    else if i > n then n
    else i
  }

  /** Python's `s[lo:hi]`. */
  function Slice<T>(s: seq<T>, lo: int, hi: int): (r: seq<T>)
    ensures |r| <= |s|
    ensures |r| == if Clamp(lo, |s|) < Clamp(hi, |s|) then Clamp(hi, |s|) - Clamp(lo, |s|) else 0
    ensures Clamp(lo, |s|) + |r| <= |s| && r == s[Clamp(lo, |s|)..Clamp(lo, |s|) + |r|]
  {
    var a, b := Clamp(lo, |s|), Clamp(hi, |s|);
    if a < b then s[a..b] else []
  }

  /** Python's `sep.join(xs)`. */
  function Join(xs: seq<string>, sep: string): string {
    if |xs| == 0 then ""
    else if |xs| == 1 then xs[0]
    else Join(xs[..|xs| - 1], sep) + sep + xs[|xs| - 1]
  }

  lemma {:induction false} JoinCons(x: string, ys: seq<string>, sep: string)
    requires |ys| >= 1
    ensures Join([x] + ys, sep) == x + sep + Join(ys, sep)
    decreases |ys|
  {
    var xs := [x] + ys;
    if |ys| > 1 {
      assert xs[..|xs| - 1] == [x] + ys[..|ys| - 1];
      JoinCons(x, ys[..|ys| - 1], sep);
    } else {
      assert xs[..|xs| - 1] == [x];
    }
  }

  /** The joined text is empty exactly when there is nothing to join but empty text. */
  lemma {:induction false} JoinEmpty(xs: seq<string>, sep: string)
    requires sep != ""
    ensures Join(xs, sep) == "" <==> xs == [] || (|xs| == 1 && xs[0] == "")
  {
  }

  /** The joined text ends with the last element. */
  lemma JoinEndsWithLast(xs: seq<string>, sep: string)
    requires xs != []
    ensures |xs[|xs| - 1]| <= |Join(xs, sep)|
    ensures Join(xs, sep)[|Join(xs, sep)| - |xs[|xs| - 1]|..] == xs[|xs| - 1]
  {
  }

  /** The joined text begins with the first element. */
  lemma {:induction false} JoinStartsWithFirst(xs: seq<string>, sep: string)
    requires xs != []
    ensures StartsWith(Join(xs, sep), xs[0])
    decreases |xs|
  {
    if |xs| > 1 {
      var p := xs[..|xs| - 1];
      JoinStartsWithFirst(p, sep);
      assert p[0] == xs[0];
      assert Join(xs, sep) == Join(p, sep) + (sep + xs[|xs| - 1]);
    }
  }

  /** The line boundaries of `str.splitlines`. */
  predicate IsLineBreak(c: char) {
    c == '\n' || c == '\r' || c == '\U{0B}' || c == '\U{0C}' || c == '\U{1C}' || c == '\U{1D}'
    || c == '\U{1E}' || c == '\U{85}' || c == '\U{2028}' || c == '\U{2029}'
  }

  /** Index of the first line boundary in `s`, or `|s|` when there is none. */
  function FirstBreak(s: string): (i: nat)
    ensures i <= |s|
    ensures i < |s| ==> IsLineBreak(s[i])
  {
    if s == [] then 0
    else if IsLineBreak(s[0]) then 0
    else 1 + FirstBreak(s[1..])
  }

  /** No boundary comes before the first one. */
  lemma {:induction false} FirstBreakIsFirst(s: string)
    ensures NoBreakIn(s[..FirstBreak(s)])
    decreases |s|
  {
    if s != [] && !IsLineBreak(s[0]) {
      FirstBreakIsFirst(s[1..]);
      var line := s[..FirstBreak(s)];
      forall j | 0 <= j < |line|
        ensures !IsLineBreak(line[j])
      {
        if j > 0 {
          assert line[j] == s[1..][..FirstBreak(s[1..])][j - 1];
        }
      }
    }
  }

  /** The width of the boundary at `i`: 2 for "\r\n", 1 otherwise. */
  function BreakWidth(s: string, i: nat): (w: nat)
    requires i < |s|
    ensures w == 1 || w == 2
    ensures w == 2 <==> s[i] == '\r' && i + 1 < |s| && s[i + 1] == '\n'
  {
    if s[i] == '\r' && i + 1 < |s| && s[i + 1] == '\n' then 2 else 1
  }

  /** Python's `s.splitlines()`: "\r\n" is one boundary, and a final boundary
      does not start an empty last line. */
  function SplitLines(s: string): (lines: seq<string>)
    ensures s != [] <==> lines != []
    decreases |s|
  {
    if s == [] then []
    else
      var i := FirstBreak(s);
      if i == |s| then [s]
      else
        [s[..i]] + SplitLines(s[i + BreakWidth(s, i)..])
  }

  /** "\n" when `s` ends with a newline, "" otherwise. */
  function TrailingNewline(s: string): string {
    if s != [] && s[|s| - 1] == '\n' then "\n" else ""
  }

  /** The only line boundary in `s`, if any, is '\n'. */
  predicate OnlyNewlineBreaks(s: string) {
    forall j :: 0 <= j < |s| && IsLineBreak(s[j]) ==> s[j] == '\n'
  }

  /** For text whose only line boundary is '\n', splitting into lines and
      joining them with "\n" gives the text back, less one final '\n'. */
  lemma {:induction false} SplitLinesJoin(s: string)
    requires OnlyNewlineBreaks(s)
    ensures Join(SplitLines(s), "\n") + TrailingNewline(s) == s
    decreases |s|
  {
    if s != [] {
      var i := FirstBreak(s);
      if i == |s| {
        assert SplitLines(s) == [s];
        FirstBreakIsFirst(s);
        assert s[..i] == s;
        assert !IsLineBreak(s[|s| - 1]);
      } else {
        var rest := s[i + 1..];
        SplitLinesStep(s, i);
        if rest != [] {
          var lines := SplitLines(rest);
          SplitLinesJoin(rest);
          JoinCons(s[..i], lines, "\n");
          calc {
            Join(SplitLines(s), "\n") + TrailingNewline(s);
            Join([s[..i]] + lines, "\n") + TrailingNewline(rest);
            s[..i] + "\n" + Join(lines, "\n") + TrailingNewline(rest);
            s[..i] + "\n" + (Join(lines, "\n") + TrailingNewline(rest));
            s;
          }
        }
      }
    }
  }

  /** One line of `SplitLinesJoin`: the line ends at a '\n' and the rest keeps the premise. */
  lemma {:induction false} SplitLinesStep(s: string, i: nat)
    requires OnlyNewlineBreaks(s) && i == FirstBreak(s) < |s|
    ensures s[i] == '\n' && s == s[..i] + "\n" + s[i + 1..]
    ensures SplitLines(s) == [s[..i]] + SplitLines(s[i + 1..])
    ensures OnlyNewlineBreaks(s[i + 1..])
    ensures s[i + 1..] == [] ==> TrailingNewline(s) == "\n" && SplitLines(s) == [s[..i]]
    ensures s[i + 1..] != [] ==> TrailingNewline(s) == TrailingNewline(s[i + 1..])
  {
    NewlineAt(s, i);
    SplitLinesAtNewline(s, i);
    OnlyNewlineBreaksSuffix(s, i + 1);
  }

  /** The character facts of `SplitLinesStep`. */
  lemma NewlineAt(s: string, i: nat)
    requires i < |s| && s[i] == '\n'
    ensures s == s[..i] + "\n" + s[i + 1..]
    ensures s[i + 1..] == [] ==> TrailingNewline(s) == "\n"
    ensures s[i + 1..] != [] ==> TrailingNewline(s) == TrailingNewline(s[i + 1..])
  {
    assert s == s[..i] + s[i..i + 1] + s[i + 1..];
    if s[i + 1..] != [] {
      assert s[|s| - 1] == s[i + 1..][|s[i + 1..]| - 1];
    }
  }

  /** A '\n' at the first boundary ends the first line. */
  lemma {:induction false} SplitLinesAtNewline(s: string, i: nat)
    requires i == FirstBreak(s) < |s| && s[i] == '\n'
    ensures SplitLines(s) == [s[..i]] + SplitLines(s[i + 1..])
  {
    assert s[i] != '\r';
    SplitLinesAtBreak(s, i);
  }

  /** A first boundary other than "\r\n" is one character wide: it ends the
      first line, and the rest is split on its own.  When it is the last
      character, no empty line follows it. */
  lemma {:induction false} SplitLinesAtBreak(s: string, i: nat)
    requires i == FirstBreak(s) < |s|
    requires !(s[i] == '\r' && i + 1 < |s| && s[i + 1] == '\n')
    ensures SplitLines(s) == [s[..i]] + SplitLines(s[i + 1..])
    ensures i + 1 == |s| ==> SplitLines(s) == [s[..i]]
  {
    SplitLinesUnfold(s, i);
    assert BreakWidth(s, i) == 1;
    if i + 1 == |s| {
      assert s[i + 1..] == [];
    }
  }

  /** "\r\n" at the first boundary is consumed as one boundary: no empty line
      is cut between the '\r' and the '\n'. */
  lemma {:induction false} SplitLinesAtCrLf(s: string, i: nat)
    requires i == FirstBreak(s) && i + 1 < |s| && s[i] == '\r' && s[i + 1] == '\n'
    ensures SplitLines(s) == [s[..i]] + SplitLines(s[i + 2..])
    ensures i + 2 == |s| ==> SplitLines(s) == [s[..i]]
  {
    SplitLinesUnfold(s, i);
    assert BreakWidth(s, i) == 2;
    if i + 2 == |s| {
      assert s[i + 2..] == [];
    }
  }

  /** One step of `SplitLines` at its first boundary. */
  lemma {:induction false} SplitLinesUnfold(s: string, i: nat)
    ensures i == FirstBreak(s) < |s| ==>
      i + BreakWidth(s, i) <= |s| && SplitLines(s) == [s[..i]] + SplitLines(s[i + BreakWidth(s, i)..])
  {
  }

  /** No line boundary occurs in `line`. */
  predicate NoBreakIn(line: string) {
    forall j :: 0 <= j < |line| ==> !IsLineBreak(line[j])
  }

  /** The lines `splitlines` returns contain no line boundary: every
      boundary character of the text is consumed by a split. */
  lemma {:induction false} SplitLinesNoBreaks(s: string)
    ensures forall k :: 0 <= k < |SplitLines(s)| ==> NoBreakIn(SplitLines(s)[k])
    decreases |s|
  {
    if s != [] {
      var i := FirstBreak(s);
      var lines := SplitLines(s);
      FirstBreakIsFirst(s);
      if i == |s| {
        assert lines == [s];
        assert s[..i] == s;
      } else {
        var rest := s[i + BreakWidth(s, i)..];
        SplitLinesNoBreaks(rest);
        assert lines == [s[..i]] + SplitLines(rest);
        forall k | 0 <= k < |lines|
          ensures NoBreakIn(lines[k])
        {
          if k > 0 {
            assert lines[k] == SplitLines(rest)[k - 1];
          }
        }
      }
    }
  }

  /** A suffix of text whose only line boundary is '\n' has the same property. */
  lemma OnlyNewlineBreaksSuffix(s: string, k: nat)
    requires OnlyNewlineBreaks(s) && k <= |s|
    ensures OnlyNewlineBreaks(s[k..])
  {
    var rest := s[k..];
    forall j | 0 <= j < |rest| && IsLineBreak(rest[j])
      ensures rest[j] == '\n'
    {
      assert rest[j] == s[k + j];
    }
  }
}
