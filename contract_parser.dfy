/**
 * The line-scanning extractor of function blocks from Solidity source text
 * (class ContractParser): it cuts out every block that runs from the last
 * line beginning with "    function" or "    receive" to a line beginning
 * with "    }", and reads the function name off each block with the
 * pattern `\s+(function)\s+(\w+)\s*` anchored at the start of the block.
 */
module ContractParser {
  import opened PyStr

  datatype Option<T> = None | Some(value: T)

  const FunctionStart := "    function"
  const ReceiveStart := "    receive"
  const BlockEnd := "    }"
  const Keyword := "function"

  /** A line that opens a function block. */
  predicate IsStartLine(line: string) {
    StartsWith(line, FunctionStart) || StartsWith(line, ReceiveStart)
  }

  /** A line that closes a block: exactly four spaces, then a closing brace. */
  predicate IsEndLine(line: string) {
    StartsWith(line, BlockEnd)
  }

  lemma StartIsNotEnd(line: string)
    requires IsStartLine(line)
    ensures !IsEndLine(line)
  {
    assert line[4] != '}';
  }

  // ---------------------------------------------------------------------
  // Scanning lines

  /** The 1-based number of the last start line among the first `n` lines,
      or 0 when none of them is a start line: the value of `start_idx`
      after `n` lines have been scanned (it is never reset). */
  function LastStart(lines: seq<string>, n: nat): (s: nat)
    requires n <= |lines|
    ensures s <= n
    ensures s > 0 ==> IsStartLine(lines[s - 1])
  {
    if n == 0 then 0
    else if IsStartLine(lines[n - 1]) then n
    else LastStart(lines, n - 1)
  }

  /** No line after the one `LastStart` names is a start line. */
  lemma {:induction false} LastStartIsLast(lines: seq<string>, n: nat)
    requires n <= |lines|
    ensures forall j :: LastStart(lines, n) <= j < n ==> !IsStartLine(lines[j])
  {
    if n > 0 && !IsStartLine(lines[n - 1]) {
      LastStartIsLast(lines, n - 1);
    }
  }

  /** The text cut out when the line at index `c` closes a block: the lines
      numbered `start_idx` through `c + 1`, sliced the Python way (a start
      index of 0 becomes the slice bound -1) and joined with "\n". */
  function ChunkAt(lines: seq<string>, c: nat): string
    requires c < |lines|
  {
    Join(Slice(lines, LastStart(lines, c + 1) as int - 1, c + 1), "\n")
  }

  /** The blocks collected from the first `n` lines: one per end line whose
      cut-out text is not empty, in the order of the lines. */
  function Chunks(lines: seq<string>, n: nat): seq<string>
    requires n <= |lines|
  {
    if n == 0 then []
    else if IsEndLine(lines[n - 1]) && ChunkAt(lines, n - 1) != "" then Chunks(lines, n - 1) + [ChunkAt(lines, n - 1)]
    else Chunks(lines, n - 1)
  }

  /** The blocks `str_functions_with_names` finds in a contract's source text. */
  function StrFunctions(contract: string): seq<string> {
    Chunks(SplitLines(contract), |SplitLines(contract)|)
  }

  /** Number of end lines among the first `n` lines. */
  function EndLineCount(lines: seq<string>, n: nat): nat
    requires n <= |lines|
  {
    if n == 0 then 0
    else EndLineCount(lines, n - 1) + (if IsEndLine(lines[n - 1]) then 1 else 0)
  }

  /** The scan: blocks and their names, index-aligned. */
  method StrFunctionsWithNames(contract: string) returns (strFunctions: seq<string>, functionNames: seq<Option<string>>)
    ensures strFunctions == StrFunctions(contract)
    ensures |functionNames| == |strFunctions|
    ensures forall i :: 0 <= i < |strFunctions| ==> functionNames[i] == ExtractFunctionName(strFunctions[i])
  {
    var startIdx := 0;
    strFunctions := [];
    var lines := SplitLines(contract);
    for i := 0 to |lines|
      invariant startIdx == LastStart(lines, i)
      invariant strFunctions == Chunks(lines, i)
    {
      var line, lineNum := lines[i], i + 1;
      if IsStartLine(line) {
        startIdx := lineNum;
      }
      assert startIdx == LastStart(lines, i + 1);
      if IsEndLine(line) {
        var funcCode := Join(Slice(lines, startIdx - 1, lineNum), "\n");
        assert funcCode == ChunkAt(lines, i);
        if funcCode != "" {
          strFunctions := strFunctions + [funcCode];
        }
      }
    }
    functionNames := seq(|strFunctions|, i requires 0 <= i < |strFunctions| => ExtractFunctionName(strFunctions[i]));
  }

  /** There are never more blocks than end lines. */
  lemma {:induction false} ChunkCountBound(lines: seq<string>, n: nat)
    requires n <= |lines|
    ensures |Chunks(lines, n)| <= EndLineCount(lines, n)
  {
    if n > 0 {
      ChunkCountBound(lines, n - 1);
    }
  }

  /** Every block is non-empty and is the text cut out at some end line. */
  lemma {:induction false} ChunksComeFromEndLines(lines: seq<string>, n: nat)
    requires n <= |lines|
    ensures forall k :: 0 <= k < |Chunks(lines, n)| ==>
      Chunks(lines, n)[k] != "" &&
      exists c :: 0 <= c < n && IsEndLine(lines[c]) && Chunks(lines, n)[k] == ChunkAt(lines, c)
  {
    if n > 0 {
      ChunksComeFromEndLines(lines, n - 1);
      var prev, cur := Chunks(lines, n - 1), Chunks(lines, n);
      forall k | 0 <= k < |cur|
        ensures cur[k] != "" && exists c :: 0 <= c < n && IsEndLine(lines[c]) && cur[k] == ChunkAt(lines, c)
      {
        if k < |prev| {
          assert cur[k] == prev[k];
          var c :| 0 <= c < n - 1 && IsEndLine(lines[c]) && prev[k] == ChunkAt(lines, c);
        } else {
          assert cur[k] == ChunkAt(lines, n - 1);
        }
      }
    }
  }

  /** Once a start line has been seen, the block cut out at an end line is the
      run of lines from the most recent start line through that end line:
      it begins with the start line and ends with the end line. */
  lemma ChunkAfterStart(lines: seq<string>, c: nat)
    requires c < |lines| && IsEndLine(lines[c])
    requires LastStart(lines, c + 1) > 0
    ensures var s := LastStart(lines, c + 1);
      && IsStartLine(lines[s - 1])
      && (forall j :: s <= j <= c ==> !IsStartLine(lines[j]))
      && ChunkAt(lines, c) == Join(lines[s - 1..c + 1], "\n")
      && StartsWith(ChunkAt(lines, c), lines[s - 1])
      && |lines[c]| <= |ChunkAt(lines, c)|
      && ChunkAt(lines, c)[|ChunkAt(lines, c)| - |lines[c]|..] == lines[c]
  {
    var s := LastStart(lines, c + 1);
    LastStartIsLast(lines, c + 1);
    var block := lines[s - 1..c + 1];
    assert Slice(lines, s - 1, c + 1) == block;
    JoinStartsWithFirst(block, "\n");
    JoinEndsWithLast(block, "\n");
  }

  /** Before any start line the slice starts at Python index -1, the last
      line: the cut-out text is empty unless the end line is the last line
      of the text, and then it is that line alone. */
  lemma ChunkBeforeAnyStart(lines: seq<string>, c: nat)
    requires c < |lines| && IsEndLine(lines[c])
    requires LastStart(lines, c + 1) == 0
    ensures c < |lines| - 1 ==> ChunkAt(lines, c) == ""
    ensures c == |lines| - 1 ==> ChunkAt(lines, c) == lines[c]
  {
    if c == |lines| - 1 {
      assert Slice(lines, -1, c + 1) == [lines[c]];
    }
  }

  /** `start_idx` is not reset at an end line: two end lines with no start
      line between them cut out blocks beginning at the same start line, the
      earlier block being a prefix (in lines) of the later one. */
  lemma NoResetAfterEnd(lines: seq<string>, c1: nat, c2: nat)
    requires c1 < c2 < |lines|
    requires forall j :: c1 < j <= c2 ==> !IsStartLine(lines[j])
    ensures LastStart(lines, c1 + 1) == LastStart(lines, c2 + 1)
    ensures var s := LastStart(lines, c1 + 1);
      s > 0 ==> ChunkAt(lines, c1) == Join(lines[s - 1..c1 + 1], "\n") && ChunkAt(lines, c2) == Join(lines[s - 1..c2 + 1], "\n")
  {
    LastStartStable(lines, c1, c2);
    var s := LastStart(lines, c1 + 1);
    if s > 0 {
      assert Slice(lines, s - 1, c1 + 1) == lines[s - 1..c1 + 1];
      assert Slice(lines, s - 1, c2 + 1) == lines[s - 1..c2 + 1];
    }
  }

  /** `start_idx` keeps its value across lines that are not start lines. */
  lemma {:induction false} LastStartStable(lines: seq<string>, c1: nat, c2: nat)
    requires c1 <= c2 < |lines|
    requires forall j :: c1 < j <= c2 ==> !IsStartLine(lines[j])
    ensures LastStart(lines, c1 + 1) == LastStart(lines, c2 + 1)
    decreases c2
  {
    if c2 > c1 {
      LastStartStable(lines, c1, c2 - 1);
    }
  }

  // ---------------------------------------------------------------------
  // The function-name pattern

  /** `\s` on `str`: the characters for which Python's `str.isspace` holds. */
  predicate IsSpace(c: char) {
    ('\U{9}' <= c <= '\U{D}') || ('\U{1C}' <= c <= '\U{20}') || c == '\U{85}' || c == '\U{A0}'
    || c == '\U{1680}' || ('\U{2000}' <= c <= '\U{200A}') || c == '\U{2028}' || c == '\U{2029}'
    || c == '\U{202F}' || c == '\U{205F}' || c == '\U{3000}'
  }

  /** `\w`, restricted to ASCII: letters, digits and the underscore. */
  predicate IsWord(c: char) {
    ('a' <= c <= 'z') || ('A' <= c <= 'Z') || ('0' <= c <= '9') || c == '_'
  }

  /** The two character classes of the pattern. */
  datatype CharClass = Space | Word

  predicate InClass(c: char, cls: CharClass) {
    match cls
    case Space => IsSpace(c)
    case Word => IsWord(c)
  }

  predicate AllOf(s: string, cls: CharClass) {
    forall j :: 0 <= j < |s| ==> InClass(s[j], cls)
  }

  /** Length of the longest run of characters of class `cls` from index `i`:
      what a greedy `\s+` or `\w+` consumes there.  It stops at the end of
      the text or at a character outside the class. */
  function Run(s: string, i: nat, cls: CharClass): (n: nat)
    requires i <= |s|
    ensures i + n <= |s|
    ensures i + n == |s| || !InClass(s[i + n], cls)
    decreases |s| - i
  {
    if i == |s| || !InClass(s[i], cls) then 0 else 1 + Run(s, i + 1, cls)
  }

  /** Every character of a run is of the class. */
  lemma {:induction false} RunInClass(s: string, i: nat, cls: CharClass)
    requires i <= |s|
    ensures AllOf(s[i..i + Run(s, i, cls)], cls)
    decreases |s| - i
  {
    var n := Run(s, i, cls);
    if n > 0 {
      RunInClass(s, i + 1, cls);
      assert s[i..i + n] == [s[i]] + s[i + 1..i + n];
    }
  }

  /** The keyword occurs at index `i`. */
  predicate KeywordAt(chunk: string, i: nat) {
    i + |Keyword| <= |chunk| && chunk[i..i + |Keyword|] == Keyword
  }

  /** `_extract_function_name`: `re.match` of `\s+(function)\s+(\w+)\s*`,
      returning group 2. */
  function ExtractFunctionName(chunk: string): (name: Option<string>)
    ensures name.Some? ==> name.value != []
  {
    var lead := Run(chunk, 0, Space);
    if lead == 0 || !KeywordAt(chunk, lead) then None
    else
      var gap := Run(chunk, lead + |Keyword|, Space);
      if gap == 0 then None
      else
        var start := lead + |Keyword| + gap;
        var n := Run(chunk, start, Word);
        if n == 0 then None else Some(chunk[start..start + n])
  }

  /** `chunk` is matched by the pattern with `lead` and `gap` as the two
      whitespace runs and `name` as group 2: the chunk begins with `lead`,
      the keyword, `gap` and `name` in that order, and `name` is not
      followed by another word character. */
  ghost predicate IsMatch(chunk: string, lead: string, gap: string, name: string) {
    && lead != [] && gap != [] && name != []
    && AllOf(lead, Space) && AllOf(gap, Space) && AllOf(name, Word)
    && var k := |lead| + |Keyword|;
       var m := k + |gap| + |name|;
       && m <= |chunk|
       && chunk[..|lead|] == lead && chunk[|lead|..k] == Keyword
       && chunk[k..k + |gap|] == gap && chunk[k + |gap|..m] == name
       && (m == |chunk| || !IsWord(chunk[m]))
  }

  /** A run of `cls` followed by a character outside `cls` is what `Run` consumes. */
  lemma {:induction false} RunExact(s: string, i: nat, k: nat, cls: CharClass)
    requires i + k <= |s|
    requires AllOf(s[i..i + k], cls)
    requires i + k == |s| || !InClass(s[i + k], cls)
    ensures Run(s, i, cls) == k
    decreases k
  {
    if k > 0 {
      assert InClass(s[i..i + k][0], cls);
      assert s[i + 1..i + k] == s[i..i + k][1..];
      RunExact(s, i + 1, k - 1, cls);
    }
  }

  /** A name is returned only for a match of the pattern. */
  lemma ExtractSound(chunk: string)
    requires ExtractFunctionName(chunk).Some?
    ensures exists lead, gap :: IsMatch(chunk, lead, gap, ExtractFunctionName(chunk).value)
  {
    var a := Run(chunk, 0, Space);
    LeadOfName(chunk);
    var k := a + |Keyword|;
    GapOfName(chunk, a);
    var g := Run(chunk, k, Space);
    NameOfRuns(chunk, a, g);
    RunInClass(chunk, 0, Space);
    RunInClass(chunk, k, Space);
    MatchFromParts(chunk, a, g, ExtractFunctionName(chunk).value);
  }

  /** A returned name means a leading whitespace run followed by the keyword. */
  lemma LeadOfName(chunk: string)
    requires ExtractFunctionName(chunk).Some?
    ensures var a := Run(chunk, 0, Space);
      a > 0 && a + |Keyword| <= |chunk| && chunk[a..a + |Keyword|] == Keyword
  {
  }

  /** A returned name means a whitespace run after the keyword. */
  lemma GapOfName(chunk: string, a: nat)
    requires ExtractFunctionName(chunk).Some?
    requires a == Run(chunk, 0, Space) && a + |Keyword| <= |chunk|
    ensures Run(chunk, a + |Keyword|, Space) > 0
  {
  }

  /** A returned name is the word run after the gap. */
  lemma NameOfRuns(chunk: string, a: nat, g: nat)
    requires ExtractFunctionName(chunk).Some?
    requires a == Run(chunk, 0, Space) && a + |Keyword| <= |chunk|
    requires g == Run(chunk, a + |Keyword|, Space)
    ensures var name := ExtractFunctionName(chunk).value;
      && a + |Keyword| + g + |name| <= |chunk|
      && chunk[a + |Keyword| + g..a + |Keyword| + g + |name|] == name && AllOf(name, Word)
      && (a + |Keyword| + g + |name| == |chunk| || !InClass(chunk[a + |Keyword| + g + |name|], Word))
  {
    var n := Run(chunk, a + |Keyword| + g, Word);
    assert |ExtractFunctionName(chunk).value| == n;
    RunInClass(chunk, a + |Keyword| + g, Word);
  }

  /** Runs laid out as the pattern demands form a match. */
  lemma MatchFromParts(chunk: string, a: nat, g: nat, name: string)
    requires a > 0 && g > 0 && name != [] && AllOf(name, Word)
    requires a + |Keyword| + g + |name| <= |chunk|
    requires chunk[a..a + |Keyword|] == Keyword
    requires AllOf(chunk[0..a], Space) && AllOf(chunk[a + |Keyword|..a + |Keyword| + g], Space)
    requires chunk[a + |Keyword| + g..a + |Keyword| + g + |name|] == name
    requires a + |Keyword| + g + |name| == |chunk| || !InClass(chunk[a + |Keyword| + g + |name|], Word)
    ensures IsMatch(chunk, chunk[..a], chunk[a + |Keyword|..a + |Keyword| + g], name)
  {
    assert chunk[0..a] == chunk[..a];
  }

  /** Every match of the pattern yields its name: the leading whitespace,
      the gap and the name are each maximal runs, so the greedy match finds
      exactly them. */
  lemma ExtractComplete(chunk: string, lead: string, gap: string, name: string)
    requires IsMatch(chunk, lead, gap, name)
    ensures ExtractFunctionName(chunk) == Some(name)
  {
    var a, g, n := |lead|, |gap|, |name|;
    var k := a + |Keyword|;
    LeadRun(chunk, a);
    GapRun(chunk, k, g, n);
    RunExact(chunk, k + g, n, Word);
    ExtractFromRuns(chunk, a, g, n);
  }

  /** The leading whitespace of a match is the whole first run, and the keyword follows it. */
  lemma LeadRun(chunk: string, a: nat)
    requires a > 0 && a + |Keyword| <= |chunk|
    requires AllOf(chunk[..a], Space) && chunk[a..a + |Keyword|] == Keyword
    ensures Run(chunk, 0, Space) == a
  {
    assert chunk[a] == chunk[a..a + |Keyword|][0] == 'f';
    assert chunk[0..a] == chunk[..a];
    RunExact(chunk, 0, a, Space);
  }

  /** The gap of a match is the whole second run: a word character follows it. */
  lemma GapRun(chunk: string, k: nat, g: nat, n: nat)
    requires k + g + n <= |chunk| && n > 0
    requires AllOf(chunk[k..k + g], Space) && AllOf(chunk[k + g..k + g + n], Word)
    ensures Run(chunk, k, Space) == g
  {
    assert chunk[k + g] == chunk[k + g..k + g + n][0];
    RunExact(chunk, k, g, Space);
  }

  /** `ExtractFunctionName` in terms of the three runs it measures. */
  lemma ExtractFromRuns(chunk: string, a: nat, g: nat, n: nat)
    requires a > 0 && g > 0 && n > 0
    requires Run(chunk, 0, Space) == a && KeywordAt(chunk, a)
    requires Run(chunk, a + |Keyword|, Space) == g
    requires Run(chunk, a + |Keyword| + g, Word) == n
    ensures a + |Keyword| + g + n <= |chunk|
    ensures ExtractFunctionName(chunk) == Some(chunk[a + |Keyword| + g..a + |Keyword| + g + n])
  {
  }

  /** A `receive` block has no name. */
  lemma ReceiveHasNoName(chunk: string)
    requires StartsWith(chunk, ReceiveStart)
    ensures ExtractFunctionName(chunk) == None
  {
    assert chunk[..4] == "    " && chunk[4] == 'r';
    RunExact(chunk, 0, 4, Space);
  }

  /** The keyword must be followed by whitespace: "functionX" does not match. */
  lemma KeywordNeedsGap(chunk: string, lead: string)
    requires lead != [] && AllOf(lead, Space)
    requires |lead| + |Keyword| < |chunk|
    requires chunk[..|lead|] == lead && chunk[|lead|..|lead| + |Keyword|] == Keyword
    requires IsWord(chunk[|lead| + |Keyword|])
    ensures ExtractFunctionName(chunk) == None
  {
    var a := |lead|;
    assert chunk[a] == chunk[a..a + |Keyword|][0] == 'f';
    assert chunk[0..a] == chunk[..a];
    RunExact(chunk, 0, a, Space);
    RunExact(chunk, a + |Keyword|, 0, Space);
  }
}
