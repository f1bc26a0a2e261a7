/** The older judge of submit/views.py: `run_code` writes the program and its
    input to scratch files, compiles (C and C++) and runs it, reads the
    output file back and deletes its scratch files; `evaluate_submission`
    runs the problem's stored cases in order.

    Processes are not run: what each risky step does is given by a `World`
    record (did the directories exist, did a write fail, what did the
    compiler and the program do, did the read fail, did a removal fail). */
module LegacyJudge {
  import opened PyText
  import opened Judge

  // ---------------------------------------------------------------------------
  // The outside world of one call of `run_code`

  /** The compiler run: its exit status and error text, a timeout (10
      seconds), or a failure to start it. */
  datatype Compilation = Compiled(returnCode: int, stderr: string) | CompileTimedOut | CompileFault(message: string)

  /** The program run: what it wrote to standard output and its exit status,
      a timeout (5 seconds), or a failure to start it. */
  datatype Execution = Finished(stdout: string, exitCode: int) | TimedOut | ExecFault(message: string)

  datatype World = World(
    directoriesOk: bool,          // creating `codes/`, `inputs/`, `outputs/` succeeded
    writeFault: Option<string>,   // writing the three scratch files failed with this message
    compilation: Compilation,
    execution: Execution,
    readFault: Option<string>,    // reading the output file back failed with this message
    unlinkFault: Option<nat>)     // removing the scratch file at this place in `CleanupOrder` failed

  /** What `run_code` hands back: a text, or an exception escaping it (the
      flag tells whether it is a timeout). */
  datatype RunResult = Returned(text: string) | Raised(timeout: bool)

  /** What happened, before it is turned into text. */
  datatype RunOutcome =
    | Produced(text: string)
    | TimeLimit
    | Crashed(message: string)
    | CompileError(stderr: string)
    | SetupFailed

  const TimeLimitText := "Time Limit Exceeded"
  const RuntimeErrorPrefix := "Runtime Error: "
  const CompilationErrorPrefix := "Compilation Error:\n"

  predicate IsCompiled(language: string) {
    language == "cpp" || language == "c"
  }

  predicate IsRunnable(language: string) {
    IsCompiled(language) || language == "py"
  }

  // ---------------------------------------------------------------------------
  // File naming

  function CodePath(unique: string, language: string): string {
    "codes/" + unique + "." + language
  }

  function InputPath(unique: string): string {
    "inputs/" + unique + ".txt"
  }

  function OutputPath(unique: string): string {
    "outputs/" + unique + ".txt"
  }

  function ExecutablePath(unique: string): string {
    "codes/" + unique
  }

  /** The files the cleanup removes: the three scratch files, and the
      executable for compiled languages. */
  function Scratch(unique: string, language: string): set<string> {
    {CodePath(unique, language), InputPath(unique), OutputPath(unique)}
    + (if IsCompiled(language) then {ExecutablePath(unique)} else {})
  }

  /** The scratch files in the order the cleanup removes them. */
  function CleanupOrder(unique: string, language: string): seq<string> {
    [CodePath(unique, language), InputPath(unique), OutputPath(unique)]
    + (if IsCompiled(language) then [ExecutablePath(unique)] else [])
  }

  /** What the cleanup removes. One `try`, whose `except` passes, covers every
      removal: the first one that fails leaves its file and all later ones
      in place. */
  function Removed(unique: string, language: string, unlinkFault: Option<nat>): (r: set<string>)
    ensures r <= Scratch(unique, language)
    ensures unlinkFault.None? ==> r == Scratch(unique, language)
  {
    var order := CleanupOrder(unique, language);
    var stop := if unlinkFault.Some? && unlinkFault.value < |order| then unlinkFault.value else |order|;
    var removed := set i | 0 <= i < stop :: order[i];
    assert stop == |order| ==>
      order[0] in removed && order[1] in removed && order[2] in removed
      && (IsCompiled(language) ==> order[3] in removed);
    removed
  }

  /** The input and output files carry the same name, `{unique}.txt`, in
      different directories; the code file is `{unique}.{language}`. */
  lemma ScratchNames(unique: string, language: string)
    ensures InputPath(unique)[|"inputs/"|..] == OutputPath(unique)[|"outputs/"|..] == unique + ".txt"
    ensures CodePath(unique, language)[|"codes/"|..] == unique + "." + language
    ensures InputPath(unique) != OutputPath(unique)
    ensures |{CodePath(unique, language), InputPath(unique), OutputPath(unique)}| == 3
    ensures ExecutablePath(unique) != CodePath(unique, language)
  {
    var c, i, o := CodePath(unique, language), InputPath(unique), OutputPath(unique);
    assert i == "inputs/" + (unique + ".txt");
    assert o == "outputs/" + (unique + ".txt");
    assert c == "codes/" + (unique + "." + language);
    assert c[0] == 'c' && i[0] == 'i' && o[0] == 'o';
    assert c != i && c != o && i != o;
    assert |ExecutablePath(unique)| < |c|;
  }

  /** The cleanup names four different files (three for Python). */
  lemma CleanupOrderDistinct(unique: string, language: string)
    ensures var order := CleanupOrder(unique, language);
      forall i, j :: 0 <= i < j < |order| ==> order[i] != order[j]
  {
    ScratchNames(unique, language);
    var e := ExecutablePath(unique);
    assert e[0] == 'c' && InputPath(unique)[0] == 'i' && OutputPath(unique)[0] == 'o';
  }

  /** A removal that fails at place `k` of the cleanup stops it there: the
      files before `k` are removed, that file and the later ones are not. */
  lemma {:induction false} CleanupStops(unique: string, language: string, k: nat)
    requires k < |CleanupOrder(unique, language)|
    ensures var order := CleanupOrder(unique, language);
      forall j :: 0 <= j < |order| ==> (order[j] in Removed(unique, language, Some(k)) <==> j < k)
  {
    CleanupOrderDistinct(unique, language);
  }

  /** Different unique tokens give different files. */
  lemma ScratchNamesInjective(u1: string, u2: string, language: string)
    requires u1 != u2
    ensures CodePath(u1, language) != CodePath(u2, language)
    ensures InputPath(u1) != InputPath(u2)
    ensures OutputPath(u1) != OutputPath(u2)
    ensures ExecutablePath(u1) != ExecutablePath(u2)
  {
    SuffixCancel("codes/", u1, u2, "." + language);
    assert CodePath(u1, language) == "codes/" + u1 + ("." + language);
    assert CodePath(u2, language) == "codes/" + u2 + ("." + language);
    SuffixCancel("inputs/", u1, u2, ".txt");
    SuffixCancel("outputs/", u1, u2, ".txt");
    SuffixCancel("codes/", u1, u2, "");
    assert ExecutablePath(u1) == "codes/" + u1 + "";
    assert ExecutablePath(u2) == "codes/" + u2 + "";
  }

  lemma SuffixCancel(prefix: string, u1: string, u2: string, suffix: string)
    requires u1 != u2
    ensures prefix + u1 + suffix != prefix + u2 + suffix
  {
    if |u1| == |u2| {
      var k :| 0 <= k < |u1| && u1[k] != u2[k];
      assert (prefix + u1 + suffix)[|prefix| + k] == u1[k];
      assert (prefix + u2 + suffix)[|prefix| + k] == u2[k];
    }
  }

  // ---------------------------------------------------------------------------
  // What `run_code` returns

  /** The outcome of reading the output file back. The file is read in text
      mode, whose universal newlines turn `\r\n` and a lone `\r` into `\n`. */
  function ReadBack(contents: string, world: World): RunOutcome {
    match world.readFault
    case Some(message) => Crashed(message)
    case None => Produced(NormalizeNewlines(contents))
  }

  /** The outcome of running the program; the exit status is ignored. */
  function Execute(world: World): RunOutcome {
    match world.execution
    case TimedOut => TimeLimit
    case ExecFault(message) => Crashed(message)
    case Finished(stdout, _) => ReadBack(stdout, world)
  }

  /** The outcome of one call, step by step as the source takes them. */
  function RunCodeOutcome(language: string, world: World): (r: RunOutcome)
    ensures r.CompileError? ==> IsCompiled(language)
  {
    if !world.directoriesOk then SetupFailed
    else if world.writeFault.Some? then Crashed(world.writeFault.value)
    else if IsCompiled(language) then
      match world.compilation
      case CompileTimedOut => TimeLimit
      case CompileFault(message) => Crashed(message)
      case Compiled(returnCode, stderr) =>
        if returnCode == 0 then Execute(world) else CompileError(stderr)
    else if language == "py" then Execute(world)
    else ReadBack("", world)
  }

  /** `run_code` as written: every outcome but a setup failure becomes text. */
  function AsText(outcome: RunOutcome): (r: RunResult)
    ensures r.Raised? <==> outcome.SetupFailed?
  {
    match outcome
    case Produced(text) => Returned(text)
    case TimeLimit => Returned(TimeLimitText)
    case Crashed(message) => Returned(RuntimeErrorPrefix + message)
    case CompileError(stderr) => Returned(CompilationErrorPrefix + stderr)
    case SetupFailed => Raised(false)
  }

  function RunCode(language: string, world: World): RunResult {
    AsText(RunCodeOutcome(language, world))
  }

  /** `run_code` never lets a timeout escape: a timeout is reported as the
      text "Time Limit Exceeded", whether it hit the compiler or the program. */
  lemma RunCodeTimeoutIsText(language: string, world: World)
    ensures RunCode(language, world) != Raised(true)
    ensures RunCodeOutcome(language, world) == TimeLimit ==> RunCode(language, world) == Returned(TimeLimitText)
    ensures IsCompiled(language) && world.directoriesOk && world.writeFault.None?
      && world.compilation.CompileTimedOut?
      ==> RunCode(language, world) == Returned(TimeLimitText)
    ensures world.directoriesOk && world.writeFault.None? && IsRunnable(language)
      && CompileSucceeds(language, world)
      && world.execution.TimedOut?
      ==> RunCode(language, world) == Returned(TimeLimitText)
  {
  }

  /** A compiler failure for C or C++ is reported with the compiler's error
      text, and the program does not run: the result does not depend on it. */
  lemma CompileFailureReported(language: string, world: World, execution: Execution)
    requires IsCompiled(language) && world.directoriesOk && world.writeFault.None?
    requires world.compilation.Compiled? && world.compilation.returnCode != 0
    ensures RunCode(language, world) == Returned(CompilationErrorPrefix + world.compilation.stderr)
    ensures RunCode(language, world.(execution := execution)) == RunCode(language, world)
  {
  }

  /** A language other than cpp, c and py runs nothing and reads back the
      empty output file. */
  lemma UnknownLanguageEmpty(language: string, world: World)
    requires !IsRunnable(language) && world.directoriesOk
    requires world.writeFault.None? && world.readFault.None?
    ensures RunCode(language, world) == Returned("")
  {
  }

  /** The program runs and its output is read back: nothing failed before or
      after it. */
  predicate ProgramRuns(language: string, world: World) {
    IsRunnable(language) && world.directoriesOk && world.writeFault.None? && world.readFault.None?
    && CompileSucceeds(language, world)
  }

  /** C and C++ compile with exit status 0; other languages need no compiler. */
  predicate CompileSucceeds(language: string, world: World) {
    IsCompiled(language) ==> world.compilation.Compiled? && world.compilation.returnCode == 0
  }

  /** The exit status of the program is ignored: whatever it wrote is
      returned, with its line endings read back as `\n`. */
  lemma ExitStatusIgnored(language: string, world: World, stdout: string, e1: int, e2: int)
    ensures RunCode(language, world.(execution := Finished(stdout, e1)))
         == RunCode(language, world.(execution := Finished(stdout, e2)))
    ensures ProgramRuns(language, world) ==>
      RunCode(language, world.(execution := Finished(stdout, e1))) == Returned(NormalizeNewlines(stdout))
    ensures ProgramRuns(language, world) ==>
      '\r' !in RunCode(language, world.(execution := Finished(stdout, e1))).text
    ensures ProgramRuns(language, world) && '\r' !in stdout ==>
      RunCode(language, world.(execution := Finished(stdout, e1))) == Returned(stdout)
  {
    NormalizeRemovesCr(stdout);
    if '\r' !in stdout {
      NormalizeKeepsCrFree(stdout);
    }
  }

  /** Any other failure inside the call becomes "Runtime Error: " and the
      message: a failed write, a compiler or program that could not be
      started, a failed read of the output file. */
  lemma FaultsBecomeText(language: string, world: World)
    requires world.directoriesOk
    ensures !RunCode(language, world).Raised?
    ensures world.writeFault.Some? ==>
      RunCode(language, world) == Returned(RuntimeErrorPrefix + world.writeFault.value)
    ensures world.writeFault.None? && IsCompiled(language) && world.compilation.CompileFault? ==>
      RunCode(language, world) == Returned(RuntimeErrorPrefix + world.compilation.message)
    ensures (world.writeFault.None? && IsRunnable(language) && CompileSucceeds(language, world)
             && world.execution.ExecFault?) ==>
      RunCode(language, world) == Returned(RuntimeErrorPrefix + world.execution.message)
    ensures (world.writeFault.None? && world.readFault.Some?
             && (IsRunnable(language) ==> CompileSucceeds(language, world) && world.execution.Finished?)) ==>
      RunCode(language, world) == Returned(RuntimeErrorPrefix + world.readFault.value)
  {
  }

  /** A removal that fails during the cleanup is swallowed: the result is the
      same whichever removal failed, or none. */
  lemma CleanupFaultSilent(language: string, world: World, unlinkFault: Option<nat>)
    ensures RunCode(language, world.(unlinkFault := unlinkFault)) == RunCode(language, world)
  {
  }

  // ---------------------------------------------------------------------------
  // The scratch files of one call

  /** Writing a scratch file changes nothing outside the scratch files. */
  lemma WriteInside(files: map<string, string>, path: string, contents: string, scratch: set<string>)
    requires path in scratch
    ensures files[path := contents] - scratch == files - scratch
  {
  }

  /** Removing scratch files changes nothing outside the scratch files. */
  lemma RemoveInside(files: map<string, string>, removed: set<string>, scratch: set<string>)
    requires removed <= scratch
    ensures (files - removed) - scratch == files - scratch
  {
  }

  /** The files under the project directory, by relative path. */
  class Sandbox {
    var files: map<string, string>

    constructor(files: map<string, string>)
      ensures this.files == files
    {
      this.files := files;
    }

    /** `run_code`: write the scratch files, compile and run as the world
        says, read the output back, and remove the scratch files in order
        whatever happened, up to a removal that fails. */
    method RunCodeIn(language: string, code: string, inputData: string, unique: string, world: World)
      returns (result: RunResult)
      modifies this
      ensures result == RunCode(language, world)
      ensures !world.directoriesOk ==> files == old(files)
      ensures world.directoriesOk && world.unlinkFault.None? ==> files == old(files) - Scratch(unique, language)
      ensures world.directoriesOk ==> files - Scratch(unique, language) == old(files) - Scratch(unique, language)
      ensures world.directoriesOk ==> forall p :: p in Removed(unique, language, world.unlinkFault) ==> p !in files
      ensures world.directoriesOk && world.writeFault.Some? ==>
        files == old(files) - Removed(unique, language, world.unlinkFault)
      ensures world.directoriesOk && world.writeFault.None? ==>
        (CodePath(unique, language) !in Removed(unique, language, world.unlinkFault) ==>
           CodePath(unique, language) in files && files[CodePath(unique, language)] == code)
        && (InputPath(unique) !in Removed(unique, language, world.unlinkFault) ==>
              InputPath(unique) in files && files[InputPath(unique)] == inputData)
        && (OutputPath(unique) !in Removed(unique, language, world.unlinkFault) ==> OutputPath(unique) in files)
    {
      if !world.directoriesOk {
        return Raised(false);
      }
      if world.writeFault.Some? {
        result := Returned(RuntimeErrorPrefix + world.writeFault.value);
      } else {
        result := WriteAndRun(language, code, inputData, unique, world);
      }
      // cleanup: the scratch files in order, up to a removal that fails
      RemoveInside(files, Removed(unique, language, world.unlinkFault), Scratch(unique, language));
      files := files - Removed(unique, language, world.unlinkFault);
    }

    /** The body of `run_code`'s `try` once the writes succeed: the scratch
        files hold the code, the input and the output, and the result is
        `RunCode`'s. */
    method WriteAndRun(language: string, code: string, inputData: string, unique: string, world: World)
      returns (result: RunResult)
      requires world.directoriesOk && world.writeFault.None?
      modifies this
      ensures result == RunCode(language, world)
      ensures files - Scratch(unique, language) == old(files) - Scratch(unique, language)
      ensures CodePath(unique, language) in files && files[CodePath(unique, language)] == code
      ensures InputPath(unique) in files && files[InputPath(unique)] == inputData
      ensures OutputPath(unique) in files
    {
      var codePath, inputPath, outputPath := CodePath(unique, language), InputPath(unique), OutputPath(unique);
      ghost var scratch := Scratch(unique, language);
      ScratchNames(unique, language);
      WriteInside(files, codePath, code, scratch);
      files := files[codePath := code];
      WriteInside(files, inputPath, inputData, scratch);
      files := files[inputPath := inputData];
      WriteInside(files, outputPath, "", scratch);
      files := files[outputPath := ""];
      result := CompileAndRun(language, code, unique, world);
    }

    /** Compile (C and C++), run, and read the output back, once the scratch
        files are written; the code and input files are left as they are. */
    method CompileAndRun(language: string, code: string, unique: string, world: World)
      returns (result: RunResult)
      requires world.directoriesOk && world.writeFault.None?
      requires CodePath(unique, language) in files && InputPath(unique) in files
      requires OutputPath(unique) in files && files[OutputPath(unique)] == ""
      modifies this
      ensures result == RunCode(language, world)
      ensures files - Scratch(unique, language) == old(files) - Scratch(unique, language)
      ensures CodePath(unique, language) in files && files[CodePath(unique, language)] == old(files)[CodePath(unique, language)]
      ensures InputPath(unique) in files && files[InputPath(unique)] == old(files)[InputPath(unique)]
      ensures OutputPath(unique) in files
    {
      var outputPath, executablePath := OutputPath(unique), ExecutablePath(unique);
      ghost var scratch := Scratch(unique, language);
      CleanupOrderDistinct(unique, language);
      if IsCompiled(language) {
        match world.compilation {
          case CompileTimedOut =>
            return Returned(TimeLimitText);
          case CompileFault(message) =>
            return Returned(RuntimeErrorPrefix + message);
          case Compiled(returnCode, stderr) =>
            if returnCode != 0 {
              return Returned(CompilationErrorPrefix + stderr);
            }
            WriteInside(files, executablePath, code, scratch);
            files := files[executablePath := code];
        }
      }
      if IsRunnable(language) {
        assert RunCodeOutcome(language, world) == Execute(world);
        match world.execution {
          case TimedOut =>
            return Returned(TimeLimitText);
          case ExecFault(message) =>
            return Returned(RuntimeErrorPrefix + message);
          case Finished(stdout, _) =>
            WriteInside(files, outputPath, stdout, scratch);
            files := files[outputPath := stdout];
        }
      }
      assert RunCodeOutcome(language, world) == ReadBack(files[outputPath], world);
      match world.readFault {
        case Some(message) =>
          result := Returned(RuntimeErrorPrefix + message);
        case None =>
          result := Returned(NormalizeNewlines(files[outputPath]));
      }
    }
  }

  // ---------------------------------------------------------------------------
  // `evaluate_submission`

  const TimeLimitExceeded := "TLE"

  /** The verdict over the stored cases: no problem or no cases is `AC`; the
      first escaping timeout is `TLE`, any other escaping exception `RE`, the
      first stripped mismatch `WA`. */
  function LegacyVerdict(cases: Option<seq<Check>>, run: string -> RunResult): string {
    match cases
    case None => Accepted
    case Some(checks) => CasesVerdict(checks, run)
  }

  function CasesVerdict(checks: seq<Check>, run: string -> RunResult): (v: string)
    ensures v in {Accepted, WrongAnswer, TimeLimitExceeded, RuntimeError}
  {
    if checks == [] then Accepted
    else
      match run(checks[0].input)
      case Raised(timeout) => if timeout then TimeLimitExceeded else RuntimeError
      case Returned(text) =>
        if Strip(text) != Strip(checks[0].expected) then WrongAnswer
        else CasesVerdict(checks[1..], run)
  }

  /** The case passes: `run_code` returned a text equal to the expected one
      once both are stripped. */
  predicate LegacyPasses(check: Check, run: string -> RunResult) {
    run(check.input).Returned? && Strip(run(check.input).text) == Strip(check.expected)
  }

  /** The inputs the evaluator runs, in order: every case up to and including
      the first failing one. */
  function LegacyRan(checks: seq<Check>, run: string -> RunResult): seq<string> {
    if checks == [] then []
    else [checks[0].input] + (if LegacyPasses(checks[0], run) then LegacyRan(checks[1..], run) else [])
  }

  /** Accepted exactly when every case passes, and then every case ran. */
  lemma {:induction false} CasesAccept(checks: seq<Check>, run: string -> RunResult)
    ensures CasesVerdict(checks, run) == Accepted <==>
      forall i :: 0 <= i < |checks| ==> LegacyPasses(checks[i], run)
    ensures CasesVerdict(checks, run) == Accepted ==> LegacyRan(checks, run) == Inputs(checks)
  {
    if checks != [] {
      CasesAccept(checks[1..], run);
      if LegacyPasses(checks[0], run) {
        forall i | 1 <= i < |checks| ensures checks[i] == checks[1..][i - 1] { }
      }
    }
    if CasesVerdict(checks, run) == Accepted {
      AllPassRan(checks, run);
    }
  }

  /** When every case passes, every case runs. */
  lemma {:induction false} AllPassRan(checks: seq<Check>, run: string -> RunResult)
    requires forall i :: 0 <= i < |checks| ==> LegacyPasses(checks[i], run)
    ensures LegacyRan(checks, run) == Inputs(checks)
  {
    if checks != [] {
      assert forall i :: 0 <= i < |checks[1..]| ==> checks[1..][i] == checks[i + 1];
      AllPassRan(checks[1..], run);
      assert Inputs(checks) == [checks[0].input] + Inputs(checks[1..]);
    }
  }

  /** The first failing case decides: a timeout gives `TLE`, another
      exception `RE`, a different text `WA`; no later case runs. */
  lemma {:induction false} CasesFirstFailure(checks: seq<Check>, run: string -> RunResult, i: nat)
    requires i < |checks| && !LegacyPasses(checks[i], run)
    requires forall j :: 0 <= j < i ==> LegacyPasses(checks[j], run)
    ensures CasesVerdict(checks, run)
         == match run(checks[i].input)
            case Raised(timeout) => if timeout then TimeLimitExceeded else RuntimeError
            case Returned(_) => WrongAnswer
    ensures LegacyRan(checks, run) == Inputs(checks[..i + 1])
  {
    if i > 0 {
      forall j | 0 <= j < i - 1 ensures LegacyPasses(checks[1..][j], run) {
        assert checks[1..][j] == checks[j + 1];
      }
      CasesFirstFailure(checks[1..], run, i - 1);
      assert checks[1..][..i] == checks[1..i + 1];
      assert Inputs(checks[..i + 1]) == [checks[0].input] + Inputs(checks[1..i + 1]);
    }
  }

  /** As written, with `run_code` as the runner, no verdict is ever `TLE`. */
  lemma {:induction false} NeverTimeLimit(checks: seq<Check>, language: string, worlds: string -> World)
    ensures CasesVerdict(checks, (input: string) => RunCode(language, worlds(input))) != TimeLimitExceeded
  {
    if checks != [] {
      NeverTimeLimit(checks[1..], language, worlds);
      RunCodeTimeoutIsText(language, worlds(checks[0].input));
    }
  }

  /** A program that times out on the only case, whose expected output is
      "2", is judged `WA`, not `TLE`. */
  lemma TimeoutJudgedWrong()
    ensures CasesVerdict([Check("1", "2")],
      (input: string) => RunCode("py", World(true, None, Compiled(0, ""), TimedOut, None, None)))
      == WrongAnswer
  {
    StripStripped(TimeLimitText);
    StripStripped("2");
  }

  /** The intended runner for the evaluator: a timeout escapes as the
      exception that the evaluator turns into `TLE`. */
  function RunCodeRaising(language: string, world: World): (r: RunResult)
    ensures r == Raised(true) <==> RunCodeOutcome(language, world) == TimeLimit
  {
    match RunCodeOutcome(language, world)
    case TimeLimit => Raised(true)
    case other => AsText(other)
  }

  /** With timeouts escaping, the first case that times out after passing
      cases is judged `TLE`. */
  lemma TimeoutJudgedTimeLimit(checks: seq<Check>, language: string, worlds: string -> World, i: nat)
    requires i < |checks|
    requires RunCodeOutcome(language, worlds(checks[i].input)) == TimeLimit
    requires forall j :: 0 <= j < i ==>
      LegacyPasses(checks[j], (input: string) => RunCodeRaising(language, worlds(input)))
    ensures CasesVerdict(checks, (input: string) => RunCodeRaising(language, worlds(input))) == TimeLimitExceeded
  {
    CasesFirstFailure(checks, (input: string) => RunCodeRaising(language, worlds(input)), i);
  }

  /** A passing case hands over to the next one. */
  lemma LegacySkip(checks: seq<Check>, run: string -> RunResult, i: nat, ran: seq<string>)
    requires i < |checks| && LegacyPasses(checks[i], run)
    requires LegacyRan(checks, run) == ran + LegacyRan(checks[i..], run)
    ensures CasesVerdict(checks[i..], run) == CasesVerdict(checks[i + 1..], run)
    ensures LegacyRan(checks, run) == (ran + [checks[i].input]) + LegacyRan(checks[i + 1..], run)
  {
    var rest := checks[i..];
    assert rest[0] == checks[i] && rest[1..] == checks[i + 1..];
    assert LegacyRan(rest, run) == [checks[i].input] + LegacyRan(checks[i + 1..], run);
    assert ran + LegacyRan(rest, run) == (ran + [checks[i].input]) + LegacyRan(checks[i + 1..], run);
  }

  /** A failing case ends the evaluation with its own verdict. */
  lemma LegacyStop(checks: seq<Check>, run: string -> RunResult, i: nat, ran: seq<string>)
    requires i < |checks| && !LegacyPasses(checks[i], run)
    requires LegacyRan(checks, run) == ran + LegacyRan(checks[i..], run)
    ensures CasesVerdict(checks[i..], run)
         == match run(checks[i].input)
            case Raised(timeout) => if timeout then TimeLimitExceeded else RuntimeError
            case Returned(_) => WrongAnswer
    ensures LegacyRan(checks, run) == ran + [checks[i].input]
  {
    assert checks[i..][0] == checks[i];
  }

  /** `evaluate_submission`: run the cases in order and stop at the first
      failure. */
  method EvaluateSubmission(cases: Option<seq<Check>>, run: string -> RunResult)
    returns (verdict: string, ran: seq<string>)
    ensures verdict == LegacyVerdict(cases, run)
    ensures ran == (if cases.None? then [] else LegacyRan(cases.value, run))
  {
    ran := [];
    if cases.None? {
      return Accepted, ran;
    }
    var testCases := cases.value;
    if testCases == [] {
      return Accepted, ran;
    }
    var i := 0;
    while i < |testCases|
      invariant 0 <= i <= |testCases|
      invariant CasesVerdict(testCases, run) == CasesVerdict(testCases[i..], run)
      invariant LegacyRan(testCases, run) == ran + LegacyRan(testCases[i..], run)
    {
      var output := run(testCases[i].input);
      match output {
        case Raised(timeout) =>
          LegacyStop(testCases, run, i, ran);
          ran := ran + [testCases[i].input];
          if timeout {
            return TimeLimitExceeded, ran;
          }
          return RuntimeError, ran;
        case Returned(text) =>
          var expectedOutput := Strip(testCases[i].expected);
          var actualOutput := Strip(text);
          if actualOutput != expectedOutput {
            LegacyStop(testCases, run, i, ran);
            ran := ran + [testCases[i].input];
            return WrongAnswer, ran;
          }
      }
      LegacySkip(testCases, run, i, ran);
      ran := ran + [testCases[i].input];
      i := i + 1;
    }
    assert testCases[i..] == [];
    verdict := Accepted;
  }
}
