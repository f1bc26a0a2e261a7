/** The judge of compiler/views.py: a submission is run first on the problem's
    visible stored cases, then on the cases parsed from its input/output
    files; the first case that crashes or disagrees decides the verdict.

    Running the program is an oracle `run`: the output text for one input,
    or `None` when compiling, running or collecting the output failed. */
module Judge {
  import opened PyText
  import opened CaseFormat

  /** One case to run: the input fed to the program and the expected output. */
  datatype Check = Check(input: string, expected: string)

  /** The two phases compare outputs differently. */
  datatype Phase = Visible | FromFiles

  /** The problem's test files: absent, present but failing to read, or read. */
  datatype TestFiles = Missing | Unreadable | Present(inputContent: string, outputContent: string)

  const Accepted := "AC"
  const WrongAnswer := "WA"
  const RuntimeError := "RE"

  /** Visible cases compare stripped texts with `\r\n` and `\r` turned into
      `\n`; file cases compare stripped texts only. */
  predicate Matches(phase: Phase, expected: string, actual: string) {
    match phase
    case Visible => NormalizeNewlines(Strip(expected)) == NormalizeNewlines(Strip(actual))
    case FromFiles => Strip(expected) == Strip(actual)
  }

  /** The comparison of a phase as a value, so that the phase machinery below
      holds for any comparison. */
  function Comparison(phase: Phase): (string, string) -> bool {
    (expected: string, actual: string) => Matches(phase, expected, actual)
  }

  /** The program produced output for the case and it matches. */
  predicate Passes(check: Check, same: (string, string) -> bool, run: string -> Option<string>) {
    run(check.input).Some? && same(check.expected, run(check.input).value)
  }

  /** The verdict of one phase: the first failing case gives `RE` when the
      program produced nothing and `WA` when it produced something else. */
  function PhaseVerdict(checks: seq<Check>, same: (string, string) -> bool, run: string -> Option<string>): (v: string)
    ensures v == Accepted || v == WrongAnswer || v == RuntimeError
    ensures v == Accepted ==> forall i :: 0 <= i < |checks| ==> Passes(checks[i], same, run)
  {
    if checks == [] then Accepted
    else
      var output := run(checks[0].input);
      if output.None? then RuntimeError
      else if !same(checks[0].expected, output.value) then WrongAnswer
      else PhaseVerdict(checks[1..], same, run)
  }

  /** The inputs the phase runs the program on, in order: every case up to and
      including the first failing one. */
  function PhaseRan(checks: seq<Check>, same: (string, string) -> bool, run: string -> Option<string>): seq<string> {
    if checks == [] then []
    else [checks[0].input] + (if Passes(checks[0], same, run) then PhaseRan(checks[1..], same, run) else [])
  }

  /** The inputs of a list of cases. */
  function Inputs(checks: seq<Check>): (r: seq<string>)
    ensures |r| == |checks| && forall i :: 0 <= i < |checks| ==> r[i] == checks[i].input
  {
    seq(|checks|, i requires 0 <= i < |checks| => checks[i].input)
  }

  /** The parsed file cases as cases to run. */
  function FileChecks(cases: seq<TestCase>): (r: seq<Check>)
    ensures |r| == |cases|
    ensures forall i :: 0 <= i < |cases| ==> r[i] == Check(cases[i].input, cases[i].output)
  {
    seq(|cases|, i requires 0 <= i < |cases| => Check(cases[i].input, cases[i].output))
  }

  /** The verdict of the file phase: no files is a pass, a failed read or a
      parser that raised is a runtime error, otherwise the verdict of the
      parsed cases. */
  function FileVerdict(files: TestFiles, run: string -> Option<string>): string {
    match files
    case Missing => Accepted
    case Unreadable => RuntimeError
    case Present(inputContent, outputContent) =>
      match ParseCases(inputContent, outputContent)
      case None => RuntimeError
      case Some(cases) => PhaseVerdict(FileChecks(cases), Comparison(FromFiles), run)
  }

  function FileRan(files: TestFiles, run: string -> Option<string>): seq<string> {
    match files
    case Present(inputContent, outputContent) =>
      (match ParseCases(inputContent, outputContent)
       case None => []
       case Some(cases) => PhaseRan(FileChecks(cases), Comparison(FromFiles), run))
    case _ => []
  }

  /** The submission's verdict: the visible phase's unless it accepts, then
      the file phase's. */
  function Verdict(visible: seq<Check>, files: TestFiles, run: string -> Option<string>): string {
    var v := PhaseVerdict(visible, Comparison(Visible), run);
    if v != Accepted then v else FileVerdict(files, run)
  }

  function Ran(visible: seq<Check>, files: TestFiles, run: string -> Option<string>): seq<string> {
    var v := PhaseVerdict(visible, Comparison(Visible), run);
    PhaseRan(visible, Comparison(Visible), run) + (if v != Accepted then [] else FileRan(files, run))
  }

  // ---------------------------------------------------------------------------
  // Properties of a phase

  /** A phase accepts exactly when every case passes, and then every case ran. */
  lemma {:induction false} PhaseAccepts(checks: seq<Check>, same: (string, string) -> bool, run: string -> Option<string>)
    ensures PhaseVerdict(checks, same, run) == Accepted <==>
      forall i :: 0 <= i < |checks| ==> Passes(checks[i], same, run)
    ensures PhaseVerdict(checks, same, run) == Accepted ==> PhaseRan(checks, same, run) == Inputs(checks)
  {
    if checks != [] {
      PhaseAccepts(checks[1..], same, run);
      if Passes(checks[0], same, run) {
        forall i | 1 <= i < |checks| ensures checks[i] == checks[1..][i - 1] { }
      }
    }
  }

  /** Case `i` is the first failing case: the verdict is `RE` if the program
      produced nothing for it and `WA` otherwise, and no later case runs. */
  lemma {:induction false} PhaseFirstFailure(checks: seq<Check>, same: (string, string) -> bool, run: string -> Option<string>, i: nat)
    requires i < |checks| && !Passes(checks[i], same, run)
    requires forall j :: 0 <= j < i ==> Passes(checks[j], same, run)
    ensures PhaseVerdict(checks, same, run)
         == (if run(checks[i].input).None? then RuntimeError else WrongAnswer)
    ensures PhaseRan(checks, same, run) == Inputs(checks[..i + 1])
  {
    if i > 0 {
      forall j | 0 <= j < i - 1 ensures Passes(checks[1..][j], same, run) {
        assert checks[1..][j] == checks[j + 1];
      }
      PhaseFirstFailure(checks[1..], same, run, i - 1);
      assert checks[1..][..i] == checks[1..i + 1];
      assert Inputs(checks[..i + 1]) == [checks[0].input] + Inputs(checks[1..i + 1]);
    }
  }

  /** A passing case hands over to the next one. */
  lemma PhaseSkip(checks: seq<Check>, same: (string, string) -> bool, run: string -> Option<string>, i: nat, ran: seq<string>)
    requires i < |checks| && Passes(checks[i], same, run)
    requires PhaseRan(checks, same, run) == ran + PhaseRan(checks[i..], same, run)
    ensures PhaseVerdict(checks[i..], same, run) == PhaseVerdict(checks[i + 1..], same, run)
    ensures PhaseRan(checks, same, run) == (ran + [checks[i].input]) + PhaseRan(checks[i + 1..], same, run)
  {
    assert checks[i..][0] == checks[i];
    assert checks[i..][1..] == checks[i + 1..];
  }

  /** A failing case ends the phase with its own verdict. */
  lemma PhaseStop(checks: seq<Check>, same: (string, string) -> bool, run: string -> Option<string>, i: nat, ran: seq<string>)
    requires i < |checks| && !Passes(checks[i], same, run)
    requires PhaseRan(checks, same, run) == ran + PhaseRan(checks[i..], same, run)
    ensures PhaseVerdict(checks[i..], same, run)
         == (if run(checks[i].input).None? then RuntimeError else WrongAnswer)
    ensures PhaseRan(checks, same, run) == ran + [checks[i].input]
  {
    assert checks[i..][0] == checks[i];
  }

  /** After the last case the phase accepts and runs nothing more. */
  lemma PhaseEnd(checks: seq<Check>, same: (string, string) -> bool, run: string -> Option<string>)
    ensures PhaseVerdict(checks[|checks|..], same, run) == Accepted
    ensures PhaseRan(checks[|checks|..], same, run) == []
  {
    assert checks[|checks|..] == [];
  }

  /** Comparing file cases is stricter than comparing visible cases. */
  lemma FileMatchIsVisibleMatch(expected: string, actual: string)
    requires Matches(FromFiles, expected, actual)
    ensures Matches(Visible, expected, actual)
  {
  }

  /** Line endings: a carriage-return-free expected output matches an actual
      output under the visible comparison exactly when their normalised
      stripped texts agree. */
  lemma VisibleIgnoresLineEndings(expected: string, actual: string)
    requires '\r' !in Strip(expected) && '\r' !in Strip(actual)
    ensures Matches(Visible, expected, actual) <==> Matches(FromFiles, expected, actual)
  {
    NormalizeKeepsCrFree(Strip(expected));
    NormalizeKeepsCrFree(Strip(actual));
  }

  /** A program output with carriage returns is judged against its normalised form. */
  lemma VisibleNormalises(expected: string, actual: string)
    requires Matches(Visible, expected, actual)
    ensures '\r' !in NormalizeNewlines(Strip(actual))
    ensures NormalizeNewlines(Strip(expected)) == NormalizeNewlines(Strip(actual))
  {
    NormalizeRemovesCr(Strip(actual));
  }

  // ---------------------------------------------------------------------------
  // Properties of the whole evaluation

  /** The verdict is always one of `AC`, `WA`, `RE`; it is `AC` exactly when
      every visible case passes and either there are no test files or they
      were read and parsed and every parsed case passes. */
  lemma VerdictAccepts(visible: seq<Check>, files: TestFiles, run: string -> Option<string>)
    ensures var v := Verdict(visible, files, run);
      v == Accepted || v == WrongAnswer || v == RuntimeError
    ensures Verdict(visible, files, run) == Accepted <==>
      (forall i :: 0 <= i < |visible| ==> Passes(visible[i], Comparison(Visible), run))
      && (files.Missing?
          || (files.Present? && ParseCases(files.inputContent, files.outputContent).Some?
              && var checks := FileChecks(ParseCases(files.inputContent, files.outputContent).value);
                 forall i :: 0 <= i < |checks| ==> Passes(checks[i], Comparison(FromFiles), run)))
  {
    PhaseAccepts(visible, Comparison(Visible), run);
    if files.Present? && ParseCases(files.inputContent, files.outputContent).Some? {
      PhaseAccepts(FileChecks(ParseCases(files.inputContent, files.outputContent).value), Comparison(FromFiles), run);
    }
  }

  /** Missing test files leave the verdict to the visible cases. */
  lemma MissingFilesAccept(visible: seq<Check>, run: string -> Option<string>)
    ensures Verdict(visible, Missing, run) == PhaseVerdict(visible, Comparison(Visible), run)
    ensures Verdict([], Missing, run) == Accepted
  {
  }

  /** Files that cannot be read give `RE` once the visible cases pass. */
  lemma UnreadableFilesFail(visible: seq<Check>, run: string -> Option<string>)
    requires forall i :: 0 <= i < |visible| ==> Passes(visible[i], Comparison(Visible), run)
    ensures Verdict(visible, Unreadable, run) == RuntimeError
  {
    PhaseAccepts(visible, Comparison(Visible), run);
  }

  /** A count line too long for `int()` makes the file phase `RE` once the
      visible cases pass, and no file case runs, whatever the program prints. */
  lemma RefusedCountFails(visible: seq<Check>, inputContent: string, outputContent: string, run: string -> Option<string>)
    requires forall i :: 0 <= i < |visible| ==> Passes(visible[i], Comparison(Visible), run)
    requires !SingleLineFits(inputContent, outputContent) && !SectionsFit(inputContent, outputContent)
    requires IsDigits(CountLine(inputContent)) && |CountLine(inputContent)| > MaxStrDigits
    ensures Verdict(visible, Present(inputContent, outputContent), run) == RuntimeError
    ensures Ran(visible, Present(inputContent, outputContent), run) == Inputs(visible)
  {
    PhaseAccepts(visible, Comparison(Visible), run);
    DetectCountRefused(inputContent, outputContent);
    ParseCasesWellFormed(inputContent, outputContent);
  }

  /** A failing visible case decides the verdict, and no file case runs. */
  lemma VisibleFailureStops(visible: seq<Check>, files: TestFiles, run: string -> Option<string>, i: nat)
    requires i < |visible| && !Passes(visible[i], Comparison(Visible), run)
    requires forall j :: 0 <= j < i ==> Passes(visible[j], Comparison(Visible), run)
    ensures Verdict(visible, files, run) == (if run(visible[i].input).None? then RuntimeError else WrongAnswer)
    ensures Ran(visible, files, run) == Inputs(visible[..i + 1])
  {
    PhaseFirstFailure(visible, Comparison(Visible), run, i);
  }

  // ---------------------------------------------------------------------------
  // The evaluators as the source runs them

  /** The loop of `evaluate_file_based_test_cases` over the parsed cases:
      run them in order, stop at the first failure. */
  method RunFileCases(testCases: seq<TestCase>, run: string -> Option<string>)
    returns (verdict: string, ran: seq<string>)
    ensures verdict == PhaseVerdict(FileChecks(testCases), Comparison(FromFiles), run)
    ensures ran == PhaseRan(FileChecks(testCases), Comparison(FromFiles), run)
  {
    ghost var checks, same := FileChecks(testCases), Comparison(FromFiles);
    ran := [];
    var i := 0;
    while i < |testCases|
      invariant 0 <= i <= |testCases|
      invariant PhaseVerdict(checks, same, run) == PhaseVerdict(checks[i..], same, run)
      invariant PhaseRan(checks, same, run) == ran + PhaseRan(checks[i..], same, run)
    {
      var testInput := testCases[i].input;
      var expectedOutput := testCases[i].output;
      var actualOutput := run(testInput);
      if actualOutput.None? || Strip(expectedOutput) != Strip(actualOutput.value) {
        PhaseStop(checks, same, run, i, ran);
        ran := ran + [testInput];
        if actualOutput.None? {
          return RuntimeError, ran;
        }
        return WrongAnswer, ran;
      }
      PhaseSkip(checks, same, run, i, ran);
      ran := ran + [testInput];
      i := i + 1;
    }
    PhaseEnd(checks, same, run);
    verdict := Accepted;
  }

  /** `evaluate_file_based_test_cases`: no files accept, a failed read or a
      parser that raised is `RE`, otherwise the parsed cases decide. */
  method EvaluateFileBasedTestCases(files: TestFiles, run: string -> Option<string>)
    returns (verdict: string, ran: seq<string>)
    ensures verdict == FileVerdict(files, run)
    ensures ran == FileRan(files, run)
  {
    match files {
      case Missing =>
        return Accepted, [];
      case Unreadable =>
        return RuntimeError, [];
      case Present(inputContent, outputContent) =>
        var parsed := ParseTestCasesSmart(inputContent, outputContent);
        if parsed.None? {
          return RuntimeError, [];
        }
        verdict, ran := RunFileCases(parsed.value, run);
    }
  }

  /** `evaluate_submission`: the visible cases in order, then the files. */
  method EvaluateSubmission(visible: seq<Check>, files: TestFiles, run: string -> Option<string>)
    returns (verdict: string, ran: seq<string>)
    ensures verdict == Verdict(visible, files, run)
    ensures ran == Ran(visible, files, run)
  {
    ghost var same := Comparison(Visible);
    ran := [];
    var i := 0;
    while i < |visible|
      invariant 0 <= i <= |visible|
      invariant PhaseVerdict(visible, same, run) == PhaseVerdict(visible[i..], same, run)
      invariant PhaseRan(visible, same, run) == ran + PhaseRan(visible[i..], same, run)
    {
      var output := run(visible[i].input);
      if output.None? {
        PhaseStop(visible, same, run, i, ran);
        ran := ran + [visible[i].input];
        assert PhaseVerdict(visible, same, run) == RuntimeError;
        return RuntimeError, ran;
      }
      var expectedOutput := NormalizeNewlines(Strip(visible[i].expected));
      var actualOutput := NormalizeNewlines(Strip(output.value));
      if expectedOutput != actualOutput {
        assert !Passes(visible[i], same, run);
        PhaseStop(visible, same, run, i, ran);
        ran := ran + [visible[i].input];
        assert PhaseVerdict(visible, same, run) == WrongAnswer;
        return WrongAnswer, ran;
      }
      PhaseSkip(visible, same, run, i, ran);
      ran := ran + [visible[i].input];
      i := i + 1;
    }
    PhaseEnd(visible, same, run);
    assert PhaseVerdict(visible, same, run) == Accepted && PhaseRan(visible, same, run) == ran;
    var fileVerdict, fileRan := EvaluateFileBasedTestCases(files, run);
    ran := ran + fileRan;
    if fileVerdict != Accepted {
      return fileVerdict, ran;
    }
    verdict := Accepted;
  }
}
