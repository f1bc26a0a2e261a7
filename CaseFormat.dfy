/** Detection of the layout of a test-case corpus and its parsing into an
    ordered list of numbered test cases (`detect_test_case_format` and
    `parse_test_cases_smart` in compiler/views.py). A corpus is two raw
    texts: the inputs and the expected outputs. */
module CaseFormat {
  import opened PyText

  /** The five layouts, with what the detector hands on to the parser, and
      `CountRefused`: `int()` raised `ValueError` on the count line, and the
      exception leaves the detector and the parser. */
  datatype Layout =
    | SingleLine
    | EmptyLineSeparated(sections: seq<(string, string)>)
    | CountRefused
    | CountPrefixed(count: nat, remainingInput: string)
    | FixedLines(linesPerCase: nat)
    | SingleTest

  datatype TestCase = TestCase(input: string, output: string, caseNumber: nat, isMultiline: bool)

  /** `content.strip().split('\n')`: never empty. */
  function Lines(content: string): seq<string> {
    Split(Strip(content), "\n")
  }

  /** `content.strip().split('\n\n')`: never empty. */
  function Sections(content: string): seq<string> {
    Split(Strip(content), "\n\n")
  }

  /** `list(zip(a, b))`: pairs up to the shorter list. */
  function Zip(a: seq<string>, b: seq<string>): seq<(string, string)> {
    var n := if |a| <= |b| then |a| else |b|;
    seq(n, i requires 0 <= i < n => (a[i], b[i]))
  }

  // ---------------------------------------------------------------------------
  // The condition of each layout, in the order the detector tries them

  /** None of the first five lines splits into more than one token. */
  predicate SingleValued(lines: seq<string>) {
    forall i :: 0 <= i < |lines| && i < 5 ==> |Words(Strip(lines[i]))| <= 1
  }

  predicate SingleLineFits(inputContent: string, outputContent: string) {
    var inputLines := Lines(inputContent);
    |inputLines| == |Lines(outputContent)| && |inputLines| > 1 && SingleValued(inputLines)
  }

  predicate SectionsFit(inputContent: string, outputContent: string) {
    var inputSections := Sections(inputContent);
    |inputSections| > 1 && |inputSections| == |Sections(outputContent)|
  }

  /** The stripped first input line. */
  function CountLine(inputContent: string): string {
    Strip(Lines(inputContent)[0])
  }

  /** The count line passes `isdigit()` but has more digits than `int()`
      converts. */
  predicate CountTooLong(inputContent: string) {
    var first := CountLine(inputContent);
    IsDigits(first) && |first| > MaxStrDigits
  }

  predicate CountFits(inputContent: string) {
    var first := CountLine(inputContent);
    IsDigits(first) && |first| <= MaxStrDigits && 0 < DigitsValue(first) <= 1000
  }

  predicate FixedLinesFit(inputContent: string, outputContent: string) {
    var n, m := |Lines(inputContent)|, |Lines(outputContent)|;
    m > 0 && n % m == 0 && 1 < n / m <= 10
  }

  /** The layout the detector picks: the first whose condition holds, in the
      order single line, empty-line separated, count prefixed, fixed lines;
      the whole corpus as one test otherwise. A count line too long for
      `int()` stops the detector before the count is compared. */
  function Detect(inputContent: string, outputContent: string): Layout
  {
    var inputLines, outputLines := Lines(inputContent), Lines(outputContent);
    if SingleLineFits(inputContent, outputContent) then SingleLine
    else if SectionsFit(inputContent, outputContent) then
      EmptyLineSeparated(Zip(Sections(inputContent), Sections(outputContent)))
    else if CountTooLong(inputContent) then CountRefused
    else if CountFits(inputContent) then
      CountPrefixed(DigitsValue(CountLine(inputContent)), Join(inputLines[1..], "\n"))
    else if FixedLinesFit(inputContent, outputContent) then
      FixedLines(|inputLines| / |outputLines|)
    else SingleTest
  }

  /** Single line wins whenever its condition holds; it then means equally many
      input and output lines, more than one, and none of the first five input
      lines holds whitespace once stripped. */
  lemma DetectSingleLine(inputContent: string, outputContent: string)
    ensures Detect(inputContent, outputContent).SingleLine? <==> SingleLineFits(inputContent, outputContent)
    ensures Detect(inputContent, outputContent).SingleLine? ==>
      var inputLines := Lines(inputContent);
      |inputLines| == |Lines(outputContent)| > 1
      && forall i :: 0 <= i < |inputLines| && i < 5 ==> NoSpace(Strip(inputLines[i]))
  {
    var inputLines := Lines(inputContent);
    if !SingleLineFits(inputContent, outputContent) {
      if SectionsFit(inputContent, outputContent) {
        assert Detect(inputContent, outputContent).EmptyLineSeparated?;
      } else if CountTooLong(inputContent) {
        assert Detect(inputContent, outputContent).CountRefused?;
      } else if CountFits(inputContent) {
        assert Detect(inputContent, outputContent).CountPrefixed?;
      } else if FixedLinesFit(inputContent, outputContent) {
        assert Detect(inputContent, outputContent).FixedLines?;
      }
    } else {
      forall i | 0 <= i < |inputLines| && i < 5 ensures NoSpace(Strip(inputLines[i])) {
        AtMostOneWord(Strip(inputLines[i]));
      }
    }
  }

  /** Empty-line separated is chosen exactly when single line is not and both
      texts split on blank lines into the same number, above one, of sections,
      which it pairs positionally. */
  lemma DetectEmptyLineSeparated(inputContent: string, outputContent: string)
    ensures Detect(inputContent, outputContent).EmptyLineSeparated? <==>
      !SingleLineFits(inputContent, outputContent) && SectionsFit(inputContent, outputContent)
    ensures Detect(inputContent, outputContent).EmptyLineSeparated? ==>
      var sections := Detect(inputContent, outputContent).sections;
      |sections| == |Sections(inputContent)| == |Sections(outputContent)| > 1
      && forall i :: 0 <= i < |sections| ==>
           sections[i] == (Sections(inputContent)[i], Sections(outputContent)[i])
  {
    if SingleLineFits(inputContent, outputContent) {
      assert Detect(inputContent, outputContent) == SingleLine;
    } else if SectionsFit(inputContent, outputContent) {
      var a, b := Sections(inputContent), Sections(outputContent);
      var z := Zip(a, b);
      assert Detect(inputContent, outputContent) == EmptyLineSeparated(z);
      assert |z| == |a| == |b| > 1;
      assert forall i :: 0 <= i < |z| ==> z[i] == (a[i], b[i]);
    } else if CountTooLong(inputContent) {
      assert Detect(inputContent, outputContent).CountRefused?;
    } else if CountFits(inputContent) {
      assert Detect(inputContent, outputContent).CountPrefixed?;
    } else if FixedLinesFit(inputContent, outputContent) {
      assert Detect(inputContent, outputContent).FixedLines?;
    } else {
      assert Detect(inputContent, outputContent) == SingleTest;
    }
  }

  /** The detector raises exactly when the two earlier layouts are not chosen
      and the stripped first input line is more than `MaxStrDigits` digits,
      whatever their value. */
  lemma DetectCountRefused(inputContent: string, outputContent: string)
    ensures Detect(inputContent, outputContent).CountRefused? <==>
      !SingleLineFits(inputContent, outputContent) && !SectionsFit(inputContent, outputContent)
      && IsDigits(CountLine(inputContent)) && |CountLine(inputContent)| > MaxStrDigits
  {
    if SingleLineFits(inputContent, outputContent) {
      assert Detect(inputContent, outputContent) == SingleLine;
    } else if SectionsFit(inputContent, outputContent) {
      assert Detect(inputContent, outputContent).EmptyLineSeparated?;
    } else if CountTooLong(inputContent) {
      assert Detect(inputContent, outputContent) == CountRefused;
    } else if CountFits(inputContent) {
      assert Detect(inputContent, outputContent).CountPrefixed?;
    } else if FixedLinesFit(inputContent, outputContent) {
      assert Detect(inputContent, outputContent).FixedLines?;
    } else {
      assert Detect(inputContent, outputContent) == SingleTest;
    }
  }

  /** Count prefixed is chosen exactly when the two earlier layouts are not and
      the stripped first input line is a decimal number from 1 to 1000 that
      `int()` converts; the rest of the input lines are handed on. */
  lemma DetectCountPrefixed(inputContent: string, outputContent: string)
    ensures Detect(inputContent, outputContent).CountPrefixed? <==>
      !SingleLineFits(inputContent, outputContent) && !SectionsFit(inputContent, outputContent)
      && CountFits(inputContent)
    ensures Detect(inputContent, outputContent).CountPrefixed? ==>
      var layout := Detect(inputContent, outputContent);
      IsDigits(CountLine(inputContent)) && |CountLine(inputContent)| <= MaxStrDigits
      && layout.count == DigitsValue(CountLine(inputContent))
      && 1 <= layout.count <= 1000
      && layout.remainingInput == Join(Lines(inputContent)[1..], "\n")
  {
    if SingleLineFits(inputContent, outputContent) {
      assert Detect(inputContent, outputContent) == SingleLine;
    } else if SectionsFit(inputContent, outputContent) {
      assert Detect(inputContent, outputContent).EmptyLineSeparated?;
    } else if CountTooLong(inputContent) {
      assert Detect(inputContent, outputContent).CountRefused?;
    } else if CountFits(inputContent) {
      assert Detect(inputContent, outputContent)
          == CountPrefixed(DigitsValue(CountLine(inputContent)), Join(Lines(inputContent)[1..], "\n"));
    } else if FixedLinesFit(inputContent, outputContent) {
      assert Detect(inputContent, outputContent).FixedLines?;
    } else {
      assert Detect(inputContent, outputContent) == SingleTest;
    }
  }

  /** Fixed lines is chosen exactly when no earlier layout is and the input has
      k times as many lines as the output, for k from 2 to 10. */
  lemma DetectFixedLines(inputContent: string, outputContent: string)
    ensures Detect(inputContent, outputContent).FixedLines? <==>
      !SingleLineFits(inputContent, outputContent) && !SectionsFit(inputContent, outputContent)
      && !CountTooLong(inputContent) && !CountFits(inputContent) && FixedLinesFit(inputContent, outputContent)
    ensures Detect(inputContent, outputContent).FixedLines? ==>
      var k := Detect(inputContent, outputContent).linesPerCase;
      2 <= k <= 10 && |Lines(inputContent)| == k * |Lines(outputContent)|
  {
    var n, m := |Lines(inputContent)|, |Lines(outputContent)|;
    if SingleLineFits(inputContent, outputContent) {
      assert Detect(inputContent, outputContent) == SingleLine;
    } else if SectionsFit(inputContent, outputContent) {
      assert Detect(inputContent, outputContent).EmptyLineSeparated?;
    } else if CountTooLong(inputContent) {
      assert Detect(inputContent, outputContent).CountRefused?;
    } else if CountFits(inputContent) {
      assert Detect(inputContent, outputContent).CountPrefixed?;
    } else if FixedLinesFit(inputContent, outputContent) {
      assert Detect(inputContent, outputContent) == FixedLines(n / m);
      DivExact(n, m);
    } else {
      assert Detect(inputContent, outputContent) == SingleTest;
    }
  }

  lemma DivExact(n: nat, m: nat)
    requires m > 0 && n % m == 0
    ensures n == (n / m) * m
  {
  }

  /** The single test is the fallback: chosen exactly when no other layout fits. */
  lemma DetectSingleTest(inputContent: string, outputContent: string)
    ensures Detect(inputContent, outputContent).SingleTest? <==>
      !SingleLineFits(inputContent, outputContent) && !SectionsFit(inputContent, outputContent)
      && !CountTooLong(inputContent) && !CountFits(inputContent) && !FixedLinesFit(inputContent, outputContent)
  {
    if SingleLineFits(inputContent, outputContent) {
      assert Detect(inputContent, outputContent) == SingleLine;
    } else if SectionsFit(inputContent, outputContent) {
      assert Detect(inputContent, outputContent).EmptyLineSeparated?;
    } else if CountTooLong(inputContent) {
      assert Detect(inputContent, outputContent).CountRefused?;
    } else if CountFits(inputContent) {
      assert Detect(inputContent, outputContent).CountPrefixed?;
    } else if FixedLinesFit(inputContent, outputContent) {
      assert Detect(inputContent, outputContent).FixedLines?;
    }
  }

  /** The detector's scan of the first five lines for one holding more than
      one token. */
  method ScanSingleValued(lines: seq<string>) returns (singleValuePattern: bool)
    ensures singleValuePattern == SingleValued(lines)
  {
    singleValuePattern := true;
    var i := 0;
    while i < |lines| && i < 5
      invariant 0 <= i <= |lines|
      invariant forall j :: 0 <= j < i ==> |Words(Strip(lines[j]))| <= 1
    {
      if |Words(Strip(lines[i]))| > 1 {
        return false;
      }
      i := i + 1;
    }
  }

  /** The detector as the source runs it, one condition after the other. */
  method DetectTestCaseFormat(inputContent: string, outputContent: string) returns (layout: Layout)
    ensures layout == Detect(inputContent, outputContent)
  {
    var inputLines := Split(Strip(inputContent), "\n");
    var outputLines := Split(Strip(outputContent), "\n");
    assert inputLines == Lines(inputContent) && outputLines == Lines(outputContent);

    if |inputLines| == |outputLines| && |inputLines| > 1 {
      var singleValuePattern := ScanSingleValued(inputLines);
      if singleValuePattern {
        return SingleLine;
      }
    }
    assert !SingleLineFits(inputContent, outputContent);

    var inputSections := Split(Strip(inputContent), "\n\n");
    var outputSections := Split(Strip(outputContent), "\n\n");
    if |inputSections| > 1 && |inputSections| == |outputSections| {
      assert SectionsFit(inputContent, outputContent);
      return EmptyLineSeparated(Zip(inputSections, outputSections));
    }
    assert !SectionsFit(inputContent, outputContent);

    var firstInputLine := Strip(inputLines[0]);
    if IsDigits(firstInputLine) {
      if |firstInputLine| > MaxStrDigits {
        // `int(first_input_line)` raises `ValueError`
        assert CountTooLong(inputContent);
        return CountRefused;
      }
      var numCases := DigitsValue(firstInputLine);
      if numCases > 0 && numCases <= 1000 {
        assert CountFits(inputContent);
        return CountPrefixed(numCases, Join(inputLines[1..], "\n"));
      }
    }
    assert !CountTooLong(inputContent) && !CountFits(inputContent);

    if |inputLines| % |outputLines| == 0 && |outputLines| > 0 {
      var linesPerCase := |inputLines| / |outputLines|;
      if linesPerCase > 1 && linesPerCase <= 10 {
        assert FixedLinesFit(inputContent, outputContent);
        return FixedLines(linesPerCase);
      }
    }
    assert !FixedLinesFit(inputContent, outputContent);

    return SingleTest;
  }

  // ---------------------------------------------------------------------------
  // Parsing

  lemma DivBounds(n: nat, k: nat)
    requires k > 0
    ensures (n / k) * k <= n < (n / k) * k + k
  {
  }

  lemma MulMono(a: nat, b: nat, k: nat)
    requires a <= b
    ensures a * k <= b * k
  {
  }

  lemma DivUnique(q: nat, k: nat, n: nat)
    requires k > 0 && q * k <= n < q * k + k
    ensures q == n / k
  {
    DivBounds(n, k);
    var d := n / k;
    MulMono(if q < d then q + 1 else d + 1, if q < d then d else q + 1, k);
  }

  /** Case `i` of a grouped layout takes input lines `i*k .. i*k+k`, which exist. */
  lemma GroupFits(i: nat, count: nat, total: nat, k: nat)
    requires i < count && count * k <= total
    ensures i * k + k <= total
  {
    assert i * k + k == (i + 1) * k;
    assert (i + 1) * k <= count * k;
  }

  /** `'\n'.join(lines[i*k : i*k+k])` */
  function Group(lines: seq<string>, k: nat, i: nat): string
    requires i * k + k <= |lines|
  {
    Join(lines[i * k..i * k + k], "\n")
  }

  /** `lines[i] if i < len(lines) else ""` */
  function LineOrEmpty(lines: seq<string>, i: nat): string {
    if i < |lines| then lines[i] else ""
  }

  function SingleLineCase(inputLines: seq<string>, outputLines: seq<string>, i: nat): TestCase
    requires i < |inputLines| && i < |outputLines|
  {
    TestCase(Strip(inputLines[i]), Strip(outputLines[i]), i + 1, false)
  }

  function GroupCase(inputLines: seq<string>, outputLines: seq<string>, k: nat, i: nat): TestCase
    requires i * k + k <= |inputLines|
  {
    TestCase(Strip(Group(inputLines, k, i)), Strip(LineOrEmpty(outputLines, i)), i + 1, true)
  }

  /** One case per pair of lines, as far as the shorter list goes. */
  function SingleLineCases(inputLines: seq<string>, outputLines: seq<string>): seq<TestCase> {
    var n := if |inputLines| <= |outputLines| then |inputLines| else |outputLines|;
    seq(n, i requires 0 <= i < n => SingleLineCase(inputLines, outputLines, i))
  }

  /** One case per pair of sections. */
  function SectionCases(sections: seq<(string, string)>): seq<TestCase> {
    seq(|sections|, i requires 0 <= i < |sections| =>
      TestCase(Strip(sections[i].0), Strip(sections[i].1), i + 1, true))
  }

  /** One case per complete group of `k` input lines, paired with the output
      line of the same index or `""` past the last one. */
  function GroupCases(inputLines: seq<string>, outputLines: seq<string>, k: nat, count: nat): seq<TestCase>
    requires count * k <= |inputLines|
  {
    seq(count, i requires 0 <= i < count =>
      GroupFits(i, count, |inputLines|, k);
      GroupCase(inputLines, outputLines, k, i))
  }

  /** One more group extends the list of groups by that group's case. */
  lemma GroupCasesSnoc(inputLines: seq<string>, outputLines: seq<string>, k: nat, count: nat)
    requires count * k + k <= |inputLines|
    ensures (count + 1) * k <= |inputLines|
    ensures GroupCases(inputLines, outputLines, k, count + 1)
      == GroupCases(inputLines, outputLines, k, count) + [GroupCase(inputLines, outputLines, k, count)]
  {
    assert (count + 1) * k == count * k + k;
    MulMono(count, count + 1, k);
  }

  /** The count-prefixed cases: one line each when the remaining input and the
      output both have exactly `count` lines, otherwise `len // count` input
      lines per case. */
  function CountPrefixedCases(count: nat, remainingInput: string, outputLines: seq<string>): seq<TestCase>
    requires count > 0
  {
    var inputLines := Split(remainingInput, "\n");
    if |inputLines| == count && |outputLines| == count then
      SingleLineCases(inputLines, outputLines)
    else
      var k := |inputLines| / count;
      DivBounds(|inputLines|, count);
      GroupCases(inputLines, outputLines, k, count)
  }

  /** The fixed-lines cases: one per complete group of `k` input lines. */
  function FixedLineCases(inputLines: seq<string>, outputLines: seq<string>, k: nat): seq<TestCase>
    requires k > 0
  {
    DivBounds(|inputLines|, k);
    GroupCases(inputLines, outputLines, k, |inputLines| / k)
  }

  /** The cases of a layout. */
  function CasesFor(layout: Layout, inputContent: string, outputContent: string): seq<TestCase>
    requires !layout.CountRefused?
    requires layout.CountPrefixed? ==> layout.count > 0
    requires layout.FixedLines? ==> layout.linesPerCase > 0
  {
    match layout
    case SingleLine =>
      SingleLineCases(Lines(inputContent), Lines(outputContent))
    case EmptyLineSeparated(sections) =>
      SectionCases(sections)
    case CountPrefixed(count, remainingInput) =>
      CountPrefixedCases(count, remainingInput, Lines(outputContent))
    case FixedLines(k) =>
      FixedLineCases(Lines(inputContent), Lines(outputContent), k)
    case SingleTest =>
      [TestCase(Strip(inputContent), Strip(outputContent), 1, true)]
  }

  /** What the parser returns for a corpus: the cases of the detected layout,
      or `None` when the detector raised. */
  function ParseCases(inputContent: string, outputContent: string): Option<seq<TestCase>>
  {
    var layout := Detect(inputContent, outputContent);
    if layout.CountRefused? then None
    else
      DetectCountPrefixed(inputContent, outputContent);
      DetectFixedLines(inputContent, outputContent);
      Some(CasesFor(layout, inputContent, outputContent))
  }

  // ---------------------------------------------------------------------------
  // What the parser promises

  /** Cases numbered 1, 2, ... in order, each with stripped texts. */
  predicate WellNumbered(cases: seq<TestCase>) {
    forall i :: 0 <= i < |cases| ==>
      cases[i].caseNumber == i + 1 && Stripped(cases[i].input) && Stripped(cases[i].output)
  }

  lemma GroupCasesWellNumbered(inputLines: seq<string>, outputLines: seq<string>, k: nat, count: nat)
    requires count * k <= |inputLines|
    ensures |GroupCases(inputLines, outputLines, k, count)| == count
    ensures WellNumbered(GroupCases(inputLines, outputLines, k, count))
  {
  }

  /** Where the inputs of count-prefixed cases come from: case `i` is input
      line `i` when the remaining input and the output both have `count`
      lines; otherwise it is the `i`-th group of `len // count` input lines,
      and multi-line. */
  predicate CountPrefixedInputs(count: nat, inputLines: seq<string>, outputLines: seq<string>, cases: seq<TestCase>)
    requires count > 0
  {
    if |inputLines| == count && |outputLines| == count then
      forall i :: 0 <= i < |cases| ==> i < count && cases[i].input == Strip(inputLines[i]) && !cases[i].isMultiline
    else
      var k := |inputLines| / count;
      forall i :: 0 <= i < |cases| ==>
        i * k + k <= |inputLines| && cases[i].input == Strip(Group(inputLines, k, i)) && cases[i].isMultiline
  }

  lemma SingleLineCasesInputs(inputLines: seq<string>, outputLines: seq<string>)
    ensures var cases := SingleLineCases(inputLines, outputLines);
      forall i :: 0 <= i < |cases| ==>
        i < |inputLines| && cases[i].input == Strip(inputLines[i]) && !cases[i].isMultiline
  {
  }

  lemma GroupCasesInputs(inputLines: seq<string>, outputLines: seq<string>, k: nat, count: nat)
    requires count * k <= |inputLines|
    ensures var cases := GroupCases(inputLines, outputLines, k, count);
      forall i :: 0 <= i < |cases| ==>
        i * k + k <= |inputLines| && cases[i].input == Strip(Group(inputLines, k, i)) && cases[i].isMultiline
  {
    forall i | 0 <= i < count ensures i * k + k <= |inputLines| {
      GroupFits(i, count, |inputLines|, k);
    }
  }

  /** Count-prefixed cases when the remaining input and the output both
      have `count` lines. */
  lemma CountPrefixedSingle(count: nat, inputLines: seq<string>, outputLines: seq<string>)
    requires count > 0 && |inputLines| == count && |outputLines| == count
    ensures var cases := SingleLineCases(inputLines, outputLines);
      |cases| == count && WellNumbered(cases)
      && (forall i :: 0 <= i < count ==> cases[i].output == Strip(LineOrEmpty(outputLines, i)))
      && CountPrefixedInputs(count, inputLines, outputLines, cases)
  {
    SingleLineCasesInputs(inputLines, outputLines);
  }

  /** Count-prefixed cases made of groups of `len // count` input lines. */
  lemma CountPrefixedGrouped(count: nat, inputLines: seq<string>, outputLines: seq<string>)
    requires count > 0 && !(|inputLines| == count && |outputLines| == count)
    ensures count * (|inputLines| / count) <= |inputLines|
    ensures var cases := GroupCases(inputLines, outputLines, |inputLines| / count, count);
      |cases| == count && WellNumbered(cases)
      && (forall i :: 0 <= i < count ==> cases[i].output == Strip(LineOrEmpty(outputLines, i)))
      && CountPrefixedInputs(count, inputLines, outputLines, cases)
  {
    var k := |inputLines| / count;
    DivBounds(|inputLines|, count);
    GroupCasesWellNumbered(inputLines, outputLines, k, count);
    GroupCasesInputs(inputLines, outputLines, k, count);
  }

  /** The count-prefixed cases: `count` of them, case `i` expecting the
      `i`-th output line or nothing, with its input as `CountPrefixedInputs`
      says. */
  lemma CountPrefixedShape(count: nat, remainingInput: string, outputLines: seq<string>)
    requires count > 0
    ensures var cases := CountPrefixedCases(count, remainingInput, outputLines);
      |cases| == count && WellNumbered(cases)
      && (forall i :: 0 <= i < count ==> cases[i].output == Strip(LineOrEmpty(outputLines, i)))
      && CountPrefixedInputs(count, Split(remainingInput, "\n"), outputLines, cases)
  {
    var inputLines := Split(remainingInput, "\n");
    if |inputLines| == count && |outputLines| == count {
      CountPrefixedSingle(count, inputLines, outputLines);
    } else {
      CountPrefixedGrouped(count, inputLines, outputLines);
    }
  }

  /** Fewer remaining input lines than announced cases give groups of no
      lines: every case then has the empty input. */
  lemma ShortCountPrefixedInput()
    ensures CountPrefixedCases(3, "a", ["x"])
         == [TestCase("", "x", 1, true), TestCase("", "", 2, true), TestCase("", "", 3, true)]
  {
    assert Find("", "\n") == None;
    assert "a"[..1][0] == 'a';
    assert |"a"[1..]| == 0;
    assert Find("a", "\n") == None;
    var lines := Split("a", "\n");
    assert lines == ["a"];
    assert |lines| / 3 == 0;
    assert lines[0..0] == [];
  }

  lemma FixedLineCasesWellNumbered(inputLines: seq<string>, outputLines: seq<string>, k: nat)
    requires k > 0 && |inputLines| == k * |outputLines|
    ensures FixedLineCases(inputLines, outputLines, k) == GroupCases(inputLines, outputLines, k, |outputLines|)
    ensures |FixedLineCases(inputLines, outputLines, k)| == |outputLines|
    ensures WellNumbered(FixedLineCases(inputLines, outputLines, k))
  {
    DivUnique(|outputLines|, k, |inputLines|);
    GroupCasesWellNumbered(inputLines, outputLines, k, |outputLines|);
  }

  /** The parser raises only on a count line too long for `int()`; every
      other corpus yields at least one case, the cases are numbered 1, 2, ...
      in order, and every input and expected output is stripped. */
  lemma ParseCasesWellFormed(inputContent: string, outputContent: string)
    ensures ParseCases(inputContent, outputContent).None? <==> Detect(inputContent, outputContent).CountRefused?
    ensures ParseCases(inputContent, outputContent).Some? ==>
      |ParseCases(inputContent, outputContent).value| >= 1
      && WellNumbered(ParseCases(inputContent, outputContent).value)
  {
    var layout := Detect(inputContent, outputContent);
    if layout.CountRefused? {
      return;
    }
    DetectCountPrefixed(inputContent, outputContent);
    DetectFixedLines(inputContent, outputContent);
    var cases := CasesFor(layout, inputContent, outputContent);
    assert ParseCases(inputContent, outputContent) == Some(cases);
    match layout {
      case SingleLine =>
        DetectSingleLine(inputContent, outputContent);
      case EmptyLineSeparated(sections) =>
        DetectEmptyLineSeparated(inputContent, outputContent);
      case CountPrefixed(count, remainingInput) =>
        CountPrefixedShape(count, remainingInput, Lines(outputContent));
      case FixedLines(k) =>
        FixedLineCasesWellNumbered(Lines(inputContent), Lines(outputContent), k);
      case SingleTest =>
    }
  }

  /** Single line: one case per input line, pairing the stripped input and
      output lines of the same index. */
  lemma ParseSingleLineCases(inputContent: string, outputContent: string)
    requires Detect(inputContent, outputContent).SingleLine?
    ensures ParseCases(inputContent, outputContent).Some?
    ensures var cases, inputLines, outputLines :=
        ParseCases(inputContent, outputContent).value, Lines(inputContent), Lines(outputContent);
      |cases| == |inputLines| == |outputLines|
      && forall i :: 0 <= i < |cases| ==>
           cases[i] == TestCase(Strip(inputLines[i]), Strip(outputLines[i]), i + 1, false)
  {
    DetectSingleLine(inputContent, outputContent);
    assert ParseCases(inputContent, outputContent)
        == Some(SingleLineCases(Lines(inputContent), Lines(outputContent)));
  }

  /** Empty-line separated: one multi-line case per pair of sections. */
  lemma ParseSectionCases(inputContent: string, outputContent: string)
    requires Detect(inputContent, outputContent).EmptyLineSeparated?
    ensures ParseCases(inputContent, outputContent).Some?
    ensures var cases, inputSections, outputSections :=
        ParseCases(inputContent, outputContent).value, Sections(inputContent), Sections(outputContent);
      |cases| == |inputSections| == |outputSections|
      && forall i :: 0 <= i < |cases| ==>
           cases[i] == TestCase(Strip(inputSections[i]), Strip(outputSections[i]), i + 1, true)
  {
    DetectEmptyLineSeparated(inputContent, outputContent);
    var sections := Detect(inputContent, outputContent).sections;
    assert ParseCases(inputContent, outputContent) == Some(SectionCases(sections));
  }

  /** Count prefixed: exactly as many cases as the first line announces; case
      `i` expects the `i`-th output line, or nothing when the output is shorter. */
  lemma ParseCountPrefixedCases(inputContent: string, outputContent: string)
    requires Detect(inputContent, outputContent).CountPrefixed?
    ensures ParseCases(inputContent, outputContent).Some?
    ensures var cases, count, outputLines :=
        ParseCases(inputContent, outputContent).value, Detect(inputContent, outputContent).count,
        Lines(outputContent);
      |cases| == count == DigitsValue(CountLine(inputContent))
      && forall i :: 0 <= i < |cases| ==>
           cases[i].output == Strip(LineOrEmpty(outputLines, i))
    ensures var layout := Detect(inputContent, outputContent);
      layout.count > 0
      && CountPrefixedInputs(layout.count, Split(layout.remainingInput, "\n"), Lines(outputContent),
           ParseCases(inputContent, outputContent).value)
  {
    DetectCountPrefixed(inputContent, outputContent);
    var layout := Detect(inputContent, outputContent);
    CountPrefixedShape(layout.count, layout.remainingInput, Lines(outputContent));
    assert ParseCases(inputContent, outputContent)
        == Some(CountPrefixedCases(layout.count, layout.remainingInput, Lines(outputContent)));
  }

  /** Fixed lines: one case per output line; case `i` joins input lines
      `k*i` to `k*i + k - 1`. */
  lemma ParseFixedLineCases(inputContent: string, outputContent: string)
    requires Detect(inputContent, outputContent).FixedLines?
    ensures ParseCases(inputContent, outputContent).Some?
    ensures var cases, k, inputLines, outputLines :=
        ParseCases(inputContent, outputContent).value, Detect(inputContent, outputContent).linesPerCase,
        Lines(inputContent), Lines(outputContent);
      |cases| == |outputLines|
      && forall i :: 0 <= i < |cases| ==>
           i * k + k <= |inputLines|
           && cases[i] == TestCase(Strip(Group(inputLines, k, i)), Strip(outputLines[i]), i + 1, true)
  {
    DetectFixedLines(inputContent, outputContent);
    var k := Detect(inputContent, outputContent).linesPerCase;
    var inputLines, outputLines := Lines(inputContent), Lines(outputContent);
    FixedLineCasesWellNumbered(inputLines, outputLines, k);
    GroupCasesPaired(inputLines, outputLines, k, |outputLines|);
    assert ParseCases(inputContent, outputContent) == Some(GroupCases(inputLines, outputLines, k, |outputLines|));
  }

  /** When every group has an output line, group `i` is paired with line `i`. */
  lemma GroupCasesPaired(inputLines: seq<string>, outputLines: seq<string>, k: nat, count: nat)
    requires count * k <= |inputLines| && count <= |outputLines|
    ensures var cases := GroupCases(inputLines, outputLines, k, count);
      |cases| == count
      && forall i :: 0 <= i < count ==>
           i * k + k <= |inputLines|
           && cases[i] == TestCase(Strip(Group(inputLines, k, i)), Strip(outputLines[i]), i + 1, true)
  {
    forall i | 0 <= i < count ensures i * k + k <= |inputLines| {
      GroupFits(i, count, |inputLines|, k);
    }
  }

  /** The fallback hands over the whole stripped corpus as the single case. */
  lemma ParseSingleTestCase(inputContent: string, outputContent: string)
    requires Detect(inputContent, outputContent).SingleTest?
    ensures ParseCases(inputContent, outputContent)
         == Some([TestCase(Strip(inputContent), Strip(outputContent), 1, true)])
  {
  }

  // The parser's loops, one method per layout.

  method ParseLinePairs(inputLines: seq<string>, outputLines: seq<string>) returns (testCases: seq<TestCase>)
    ensures testCases == SingleLineCases(inputLines, outputLines)
  {
    testCases := [];
    var i := 0;
    while i < |inputLines| && i < |outputLines|
      invariant 0 <= i <= |inputLines| && i <= |outputLines|
      invariant |testCases| == i
      invariant forall j :: 0 <= j < i ==> testCases[j] == SingleLineCase(inputLines, outputLines, j)
    {
      testCases := testCases + [TestCase(Strip(inputLines[i]), Strip(outputLines[i]), i + 1, false)];
      i := i + 1;
    }
  }

  method ParseSections(sections: seq<(string, string)>) returns (testCases: seq<TestCase>)
    ensures testCases == SectionCases(sections)
  {
    testCases := [];
    var i := 0;
    while i < |sections|
      invariant 0 <= i <= |sections|
      invariant |testCases| == i
      invariant forall j :: 0 <= j < i ==>
        testCases[j] == TestCase(Strip(sections[j].0), Strip(sections[j].1), j + 1, true)
    {
      var (inputSection, outputSection) := sections[i];
      testCases := testCases + [TestCase(Strip(inputSection), Strip(outputSection), i + 1, true)];
      i := i + 1;
    }
  }

  method ParseCountPrefixed(numCases: nat, remainingInput: string, outputLines: seq<string>)
    returns (testCases: seq<TestCase>)
    requires numCases > 0
    ensures testCases == CountPrefixedCases(numCases, remainingInput, outputLines)
  {
    var inputLines := Split(remainingInput, "\n");
    if |inputLines| == numCases && |outputLines| == numCases {
      testCases := ParseLinePairs(inputLines, outputLines);
    } else {
      var linesPerCase := |inputLines| / numCases;
      DivBounds(|inputLines|, numCases);
      testCases := ParseGroups(inputLines, outputLines, linesPerCase, numCases);
    }
  }

  /** The count-prefixed loop over `count` groups of `linesPerCase` lines. */
  method ParseGroups(inputLines: seq<string>, outputLines: seq<string>, linesPerCase: nat, numCases: nat)
    returns (testCases: seq<TestCase>)
    requires numCases * linesPerCase <= |inputLines|
    ensures testCases == GroupCases(inputLines, outputLines, linesPerCase, numCases)
  {
    testCases := [];
    var i := 0;
    while i < numCases
      invariant 0 <= i <= numCases
      invariant testCases == GroupCases(inputLines, outputLines, linesPerCase, i)
    {
      GroupFits(i, numCases, |inputLines|, linesPerCase);
      var startIdx := i * linesPerCase;
      var endIdx := startIdx + linesPerCase;
      var caseInput := Join(inputLines[startIdx..endIdx], "\n");
      var caseOutput := if i < |outputLines| then outputLines[i] else "";
      GroupCasesSnoc(inputLines, outputLines, linesPerCase, i);
      testCases := testCases + [TestCase(Strip(caseInput), Strip(caseOutput), i + 1, true)];
      i := i + 1;
    }
  }

  method ParseFixedLines(inputLines: seq<string>, outputLines: seq<string>, linesPerCase: nat)
    returns (testCases: seq<TestCase>)
    requires linesPerCase > 0
    ensures testCases == FixedLineCases(inputLines, outputLines, linesPerCase)
  {
    testCases := [];
    var caseNum := 1;
    var i := 0;
    while i < |inputLines|
      invariant caseNum >= 1
      invariant (caseNum - 1) * linesPerCase <= |inputLines|
      invariant i == (caseNum - 1) * linesPerCase
        || (i > |inputLines| && |inputLines| < (caseNum - 1) * linesPerCase + linesPerCase)
      invariant testCases == GroupCases(inputLines, outputLines, linesPerCase, caseNum - 1)
      decreases |inputLines| - i
    {
      if i + linesPerCase <= |inputLines| {
        var inputCase := Join(inputLines[i..i + linesPerCase], "\n");
        var outputCase := if caseNum - 1 < |outputLines| then outputLines[caseNum - 1] else "";
        GroupCasesSnoc(inputLines, outputLines, linesPerCase, caseNum - 1);
        testCases := testCases + [TestCase(Strip(inputCase), Strip(outputCase), caseNum, true)];
        caseNum := caseNum + 1;
      }
      i := i + linesPerCase;
    }
    DivUnique(caseNum - 1, linesPerCase, |inputLines|);
  }

  /** The parser as the source runs it: detect the layout, then run that
      layout's loop; `None` stands for the `ValueError` passed on from the
      detector. */
  method ParseTestCasesSmart(inputContent: string, outputContent: string)
    returns (testCases: Option<seq<TestCase>>)
    ensures testCases == ParseCases(inputContent, outputContent)
  {
    var layout := DetectTestCaseFormat(inputContent, outputContent);
    var cases: seq<TestCase>;
    match layout {
      case SingleLine =>
        cases := ParseLinePairs(Split(Strip(inputContent), "\n"), Split(Strip(outputContent), "\n"));
      case CountRefused =>
        return None;
      case EmptyLineSeparated(sections) =>
        cases := ParseSections(sections);
      case CountPrefixed(numCases, remainingInput) =>
        DetectCountPrefixed(inputContent, outputContent);
        cases := ParseCountPrefixed(numCases, remainingInput, Split(Strip(outputContent), "\n"));
      case FixedLines(linesPerCase) =>
        DetectFixedLines(inputContent, outputContent);
        cases := ParseFixedLines(Split(Strip(inputContent), "\n"), Split(Strip(outputContent), "\n"), linesPerCase);
      case SingleTest =>
        cases := [TestCase(Strip(inputContent), Strip(outputContent), 1, true)];
    }
    testCases := Some(cases);
  }
}
