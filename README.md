# A verified model of the oj_project judge

oj_project is a Django online judge. Users register and log in, browse problems with their
progress per difficulty, and submit programs that are run against stored test cases.
This project models the core of that judge in Dafny and proves what its code promises.

The model has seven modules:

- **PyText** (`PyText.dfy`) holds the Python `str` operations the judge relies on, with
  CPython's semantics:
  - `isspace` over CPython's whitespace table;
  - `strip`, `lstrip` and `rstrip`;
  - `split(sep)` (so `"".split("\n") == [""]`), `sep.join`, `replace` and `split()`;
  - `isdigit` and `int` on ASCII digits, with the 4300-digit limit of CPython's `int`, and
    `upper` on ASCII letters.
- **CaseFormat** (`CaseFormat.dfy`) covers `detect_test_case_format` and
  `parse_test_cases_smart`.
  - A corpus (an input text and an expected-output text) is classified into one of five layouts,
    tried in a fixed order: single line, empty-line separated, count prefixed, fixed lines, and the
    single-test fallback.
  - The chosen layout is then parsed into numbered test cases.
  - A count line of more than 4300 digits makes `int()` raise `ValueError`, which leaves both
    functions; the parser's result is then `None`.
  - `Detect` and `ParseCases` are the specification functions. `DetectTestCaseFormat` and
    `ParseTestCasesSmart` are the loops as the code runs them, proved equal to those functions.
- **Judge** (`Judge.dfy`) covers `evaluate_submission` and `evaluate_file_based_test_cases` of
  compiler/views.py.
  - The visible stored cases run first, then the cases parsed from the problem's files.
  - The first case whose output is missing gives `RE`, and the first case whose output differs
    gives `WA`. No later case runs.
  - Test files that cannot be read, or whose parsing raises, give `RE`.
  - Running a program is an oracle `run: string -> Option<string>`, where `None` stands for every
    failure of that `run_code`.
- **LegacyJudge** (`LegacyJudge.dfy`) covers the older judge of submit/views.py.
  - `run_code` maps each outcome of a run to a text. It writes, then removes, its scratch files in a
    `Sandbox` whose `files` map is updated in place.
  - `evaluate_submission` walks the stored cases.
  - Processes and the filesystem are replaced by a `World` value. It says whether the directories
    could be made, whether a write or the read-back failed, what the compiler and the program
    did, and which removal of the cleanup, if any, failed.
- **Models** (`Models.dfy`) holds the choice tables and display helpers of `Submission` and
  `Problem`.
- **Auth** (`Auth.dfy`) holds the guard chains of `register_user` and `login_user`, over a `Site`
  that holds the user store (username to password), the session and the queued messages.
  `create_user` stores the username in NFKC form while both views look names up as typed; the
  normalisation is the parameter `normalize`.
- **Progress** (`Progress.dfy`) covers the per-difficulty progress counters of `problems_list`,
  and the mock submission of `problem_detail` over a `Store` of submissions.

How the two judges compare and classify runs:

- Both compare whole texts after `strip()`, not line by line. The visible phase of
  compiler/views.py also rewrites `\r\n` and `\r` to `\n`; submit/views.py reads the program's
  output back in text mode, which does the same to the program's side.
- In compiler/views.py a non-zero exit status makes the runner return `None`, which the judge
  turns into `RE`; here that is part of the oracle `run`. submit/views.py ignores the exit
  status (`ExitStatusIgnored`).
- submit/views.py never reports `TLE` (see Findings).

## Model

| member | source | states |
|---|---|---|
| PyText.LStripSpec | oj_project/compiler/views.py:365 | `lstrip` removes exactly the leading whitespace: the result is a suffix of the text and everything before it is whitespace |
| PyText.RStripSpec | oj_project/compiler/views.py:365 | `rstrip` removes exactly the trailing whitespace: the result is a prefix and everything after it is whitespace |
| PyText.Strip | oj_project/compiler/views.py:365 | a stripped text never starts or ends with whitespace |
| PyText.StripSpec | oj_project/compiler/views.py:365 | `strip` keeps the infix between the leading and the trailing whitespace runs |
| PyText.StripStripped | oj_project/compiler/views.py:437-438 | a text that starts and ends with non-whitespace is a fixed point of `strip` |
| PyText.StripIdempotent | oj_project/compiler/views.py:566-567 | stripping twice is stripping once |
| PyText.Find | oj_project/compiler/views.py:365 | `find` returns the first occurrence of the separator, or none when there is none |
| PyText.Split | oj_project/compiler/views.py:365-366 | `split(sep)` returns at least one part, and no part contains the separator |
| PyText.JoinSplit | oj_project/compiler/views.py:403 | joining the parts of `split(sep)` with `sep` gives the text back |
| PyText.NormalizeRemovesCr | oj_project/compiler/views.py:340-341 | after the two `replace` calls no carriage return is left |
| PyText.NormalizeKeepsCrFree | oj_project/compiler/views.py:340-341 | the two `replace` calls leave a text without carriage returns unchanged |
| PyText.Words | oj_project/compiler/views.py:373 | `split()` yields only non-empty tokens free of whitespace |
| PyText.WordsEmpty | oj_project/compiler/views.py:373 | `split()` is empty exactly for an all-whitespace text |
| PyText.AtMostOneWord | oj_project/compiler/views.py:373 | a stripped line has at most one token exactly when it holds no whitespace |
| PyText.Upper | oj_project/core/models.py:82 | on ASCII text, `upper` keeps the length and leaves no lower-case ASCII letter |
| CaseFormat.DetectSingleLine | oj_project/compiler/views.py:365-381 | single line is chosen exactly when its condition holds: equal line counts above one, and none of the first five stripped input lines holds whitespace |
| CaseFormat.DetectEmptyLineSeparated | oj_project/compiler/views.py:383-392 | empty-line separated is chosen exactly when single line fails and both texts have the same number, above one, of blank-line sections; sections are paired by position |
| CaseFormat.DetectCountRefused | oj_project/compiler/views.py:394-397 | the detector raises exactly when the earlier layouts fail and the stripped first input line is more than 4300 digits, whatever their value |
| CaseFormat.DetectCountPrefixed | oj_project/compiler/views.py:394-404 | count prefixed is chosen exactly when the earlier layouts fail and the stripped first input line is at most 4300 digits (what `int()` converts) with value 1 to 1000; the remaining lines are passed on joined by newlines |
| CaseFormat.DetectFixedLines | oj_project/compiler/views.py:406-414 | fixed lines is chosen exactly when the earlier layouts fail and the input has k times as many lines as the output, 2 <= k <= 10 |
| CaseFormat.DetectSingleTest | oj_project/compiler/views.py:416-420 | the single test is chosen exactly when no other layout's condition holds |
| CaseFormat.ScanSingleValued | oj_project/compiler/views.py:371-375 | the early-exit scan reports true exactly when none of the first five lines splits into more than one token |
| CaseFormat.DetectTestCaseFormat | oj_project/compiler/views.py:361-420 | the detector as written returns the layout of the specification function `Detect`, including the raised `ValueError` |
| CaseFormat.GroupCasesSnoc | oj_project/compiler/views.py:472-483 | one more group extends the grouped cases by exactly that group's case |
| CaseFormat.GroupCasesWellNumbered | oj_project/compiler/views.py:472-483 | `count` groups give `count` cases numbered 1.. in order with stripped fields |
| CaseFormat.CountPrefixedShape | oj_project/compiler/views.py:453-483 | count prefixed parsing gives exactly `count` well-numbered cases; case i expects the stripped i-th output line, or `""` past the end; its input is as `CountPrefixedInputs` says |
| CaseFormat.SingleLineCasesInputs | oj_project/compiler/views.py:460-467 | a single-line case i holds the stripped input line i and is not multi-line |
| CaseFormat.GroupCasesInputs | oj_project/compiler/views.py:469-483 | a grouped case i holds the stripped join of input lines i*k to i*k+k-1 and is multi-line |
| CaseFormat.CountPrefixedSingle | oj_project/compiler/views.py:460-467 | when the remaining input and the output both have `count` lines, case i is input line i with output line i, not multi-line |
| CaseFormat.CountPrefixedGrouped | oj_project/compiler/views.py:469-483 | otherwise case i is the i-th group of `len // count` input lines, multi-line, expecting output line i or `""` |
| CaseFormat.ShortCountPrefixedInput | oj_project/compiler/views.py:471-475 | with a count of 3 and one remaining input line, the groups hold no lines: all three cases have the empty input |
| CaseFormat.FixedLineCasesWellNumbered | oj_project/compiler/views.py:485-503 | when the input has k lines per output line, there is one case per output line, numbered in order, with stripped fields |
| CaseFormat.ParseCasesWellFormed | oj_project/compiler/views.py:422-514 | the parser raises exactly when the detector does; otherwise it yields at least one case, the cases are numbered 1..n in order and every input and output is stripped |
| CaseFormat.ParseSingleLineCases | oj_project/compiler/views.py:430-441 | single line: one case per line, pairing the stripped input and output lines of the same index |
| CaseFormat.ParseSectionCases | oj_project/compiler/views.py:443-451 | empty-line separated: one multi-line case per pair of sections, stripped |
| CaseFormat.ParseCountPrefixedCases | oj_project/compiler/views.py:453-483 | count prefixed: exactly as many cases as the first line announces; a case without an output line expects `""`; case i is input line i (not multi-line) when the remaining input and the output both have `count` lines, and otherwise the i-th group of `len // count` input lines (multi-line) |
| CaseFormat.ParseFixedLineCases | oj_project/compiler/views.py:485-503 | fixed lines: as many cases as output lines, case i joining input lines k*i to k*i+k-1 |
| CaseFormat.GroupCasesPaired | oj_project/compiler/views.py:492-503 | when every group has an output line, group i is paired with output line i |
| CaseFormat.ParseSingleTestCase | oj_project/compiler/views.py:505-512 | the fallback is one case holding the whole stripped input and output |
| CaseFormat.ParseLinePairs | oj_project/compiler/views.py:435-441 | the pairing loop builds the single-line cases up to the shorter list |
| CaseFormat.ParseSections | oj_project/compiler/views.py:445-451 | the section loop builds one case per section pair |
| CaseFormat.ParseCountPrefixed | oj_project/compiler/views.py:453-483 | the count-prefixed branch builds the specified count-prefixed cases |
| CaseFormat.ParseGroups | oj_project/compiler/views.py:470-483 | the `range(num_cases)` loop builds the grouped cases |
| CaseFormat.ParseFixedLines | oj_project/compiler/views.py:485-503 | the stepping loop with its `case_num` counter builds one case per complete group of k lines |
| CaseFormat.ParseTestCasesSmart | oj_project/compiler/views.py:422-514 | the parser as written returns the cases of the specification function `ParseCases`, or `None` when the detector raised |
| Judge.PhaseVerdict | oj_project/compiler/views.py:332-347 | a phase's verdict is AC, WA or RE, and AC only if every case passes |
| Judge.PhaseAccepts | oj_project/compiler/views.py:327-347 | a phase accepts exactly when every case passes, and then it has run every input in order |
| Judge.PhaseFirstFailure | oj_project/compiler/views.py:335-345 | the first failing case decides: RE when nothing was produced, WA otherwise; the inputs run are those up to and including it |
| Judge.PhaseSkip | oj_project/compiler/views.py:346-347 | a passing case hands the verdict over to the remaining cases |
| Judge.PhaseStop | oj_project/compiler/views.py:561-583 | a failing case ends the phase with its own verdict, after running its input |
| Judge.PhaseEnd | oj_project/compiler/views.py:587 | past the last case the phase accepts and runs nothing |
| Judge.FileMatchIsVisibleMatch | oj_project/compiler/views.py:340-343 | outputs that match under the file comparison (strip only, lines 566-571) also match under the visible comparison |
| Judge.VisibleIgnoresLineEndings | oj_project/compiler/views.py:340-343 | for texts without carriage returns the two comparisons agree |
| Judge.VisibleNormalises | oj_project/compiler/views.py:340-343 | a visible match compares texts that are free of carriage returns |
| Judge.VerdictAccepts | oj_project/compiler/views.py:314-359 | the verdict is AC, WA or RE; it is AC exactly when every visible case passes and the files are absent, or read and parsed with every parsed case passing |
| Judge.MissingFilesAccept | oj_project/compiler/views.py:527-529 | missing test files leave the verdict to the visible cases |
| Judge.UnreadableFilesFail | oj_project/compiler/views.py:531-591 | files that cannot be read give RE once the visible cases pass (the `except` at lines 589-591) |
| Judge.RefusedCountFails | oj_project/compiler/views.py:531-591 | a count line of more than 4300 digits gives RE once the visible cases pass, and no file case runs, whatever the program prints |
| Judge.VisibleFailureStops | oj_project/compiler/views.py:335-345 | a failing visible case decides the verdict and no file case runs |
| Judge.RunFileCases | oj_project/compiler/views.py:548-587 | the loop over the parsed cases returns the phase verdict under the strip comparison and runs the cases up to and including the first failing one |
| Judge.EvaluateFileBasedTestCases | oj_project/compiler/views.py:516-591 | as written: missing files give AC, unreadable files or a raising parser RE, otherwise the verdict of the parsed cases, running exactly the specified inputs |
| Judge.EvaluateSubmission | oj_project/compiler/views.py:314-359 | the whole evaluation as written returns the specified verdict and runs exactly the specified inputs |
| LegacyJudge.ScratchNames | oj_project/submit/views.py:65-73 | input and output files share the name `{unique}.txt` in different directories; the code file is `{unique}.{language}`; the three files differ |
| LegacyJudge.ScratchNamesInjective | oj_project/submit/views.py:65-73 | different unique tokens give different scratch files |
| LegacyJudge.RunCodeOutcome | oj_project/submit/views.py:88-134 | a compilation error arises only for C and C++ |
| LegacyJudge.AsText | oj_project/submit/views.py:152-157 | every outcome becomes text except a failure to create the directories, which escapes as an exception |
| LegacyJudge.RunCodeTimeoutIsText | oj_project/submit/views.py:154-155 | no timeout escapes; a timeout of the compiler or of the program yields the text "Time Limit Exceeded" |
| LegacyJudge.CompileFailureReported | oj_project/submit/views.py:98-134 | a failed C or C++ compilation returns "Compilation Error:\n" and the compiler's stderr, whatever the program would do |
| LegacyJudge.UnknownLanguageEmpty | oj_project/submit/views.py:84-152 | a language other than cpp, c and py runs nothing and returns `""` |
| LegacyJudge.ExitStatusIgnored | oj_project/submit/views.py:98-152 | the exit status does not change the result; what the program wrote is returned as the text-mode read gives it, with `\r\n` and `\r` turned into `\n` |
| LegacyJudge.FaultsBecomeText | oj_project/submit/views.py:156-157 | once the directories exist, nothing escapes; a failed write, a compiler or program that cannot be started, and a failed read of the output file each become "Runtime Error: " and its message |
| LegacyJudge.CleanupFaultSilent | oj_project/submit/views.py:158-170 | a failing removal during the cleanup does not change the result |
| LegacyJudge.Removed | oj_project/submit/views.py:158-170 | the cleanup removes only scratch files, and all of them when no removal fails |
| LegacyJudge.CleanupOrderDistinct | oj_project/submit/views.py:161-168 | the cleanup removes distinct files |
| LegacyJudge.CleanupStops | oj_project/submit/views.py:158-170 | a removal failing at place k stops the cleanup: exactly the files before place k are removed |
| LegacyJudge.Sandbox.RunCodeIn | oj_project/submit/views.py:50-170 | the step-by-step run returns `RunCode`'s result; files outside the scratch files are untouched; without a failing removal, every scratch file is gone; after a failing removal, the code and input files that were not reached still hold the code and the input |
| LegacyJudge.Sandbox.WriteAndRun | oj_project/submit/views.py:75-86 | after the writes the code and input files hold the code and the input, the output file exists, and the result is `RunCode`'s |
| LegacyJudge.Sandbox.CompileAndRun | oj_project/submit/views.py:88-152 | compiling, running and reading back give `RunCode`'s result and change only the executable and the output file |
| LegacyJudge.CasesVerdict | oj_project/submit/views.py:181-195 | the verdict is one of AC, WA, TLE, RE |
| LegacyJudge.CasesAccept | oj_project/submit/views.py:181-195 | AC exactly when every case returns a text equal to the expected one once both are stripped, and then every case has run |
| LegacyJudge.AllPassRan | oj_project/submit/views.py:181-195 | when every case passes, the evaluator runs every case in order |
| LegacyJudge.CasesFirstFailure | oj_project/submit/views.py:186-193 | the first failing case decides: TLE for an escaping timeout, RE for another exception, WA for a different text; the cases run are those up to and including it |
| LegacyJudge.NeverTimeLimit | oj_project/submit/views.py:181-195 | with `run_code` as the runner, which turns a timeout into text (lines 154-155), no verdict is ever TLE |
| LegacyJudge.TimeoutJudgedWrong | oj_project/submit/views.py:183-191 | a py program that times out on a case expecting "2" is judged WA |
| LegacyJudge.RunCodeRaising | oj_project/submit/views.py:154-155 | the corrected runner raises a timeout exactly when the outcome is a time limit |
| LegacyJudge.TimeoutJudgedTimeLimit | oj_project/submit/views.py:190-191 | with timeouts escaping, the first case that times out after passing cases gives TLE |
| LegacyJudge.LegacySkip | oj_project/submit/views.py:186-189 | a passing case hands the verdict over to the remaining cases |
| LegacyJudge.LegacyStop | oj_project/submit/views.py:186-193 | a failing case ends the evaluation with its own verdict, after running its input |
| LegacyJudge.EvaluateSubmission | oj_project/submit/views.py:172-195 | the loop as written returns the specified verdict and runs exactly the cases up to and including the first failing one; with no problem it is AC and runs nothing |
| Models.ChoiceDisplay | oj_project/core/models.py:94 | an undeclared code is shown as stored |
| Models.ClassificationPartitions | oj_project/core/models.py:108-115 | each declared verdict is exactly one of accepted, pending and error; an undeclared one is none |
| Models.StatusColorClass | oj_project/core/models.py:96-106 | accepted exactly for AC, rejected exactly for the error verdicts, pending for PE and any undeclared code |
| Models.LanguageDisplay | oj_project/core/models.py:75-82 | a declared language shows the framework's label for it; any other shows its upper-cased code, not the stored value |
| Models.UnknownLanguageUpper | oj_project/core/models.py:82 | an undeclared language shows with the same length and no lower-case letter |
| Models.VerdictDisplayWithIcon | oj_project/core/models.py:84-94 | icon, space and label for a declared verdict; the question mark, a space and the raw code otherwise |
| Models.VerdictIconsDistinct | oj_project/core/models.py:85-94 | declared verdicts carry distinct icons, none of them the question mark |
| Models.DifficultyDisplayWithIcon | oj_project/core/models.py:20-26 | icon, space and label for a declared difficulty; an undeclared one has an empty icon and shows " " and its code |
| Models.DefaultsDeclared | oj_project/core/models.py:67-68 | a new submission is pending, shown as pending, and in Python 3 |
| Models.CodesFitColumns | oj_project/core/models.py:47-68 | every declared verdict fits 5 characters and every language 10 |
| Auth.Field | oj_project/authentication/views.py:116-117 | a form field is stripped, and `""` when absent |
| Auth.RegisterGuardOrder | oj_project/authentication/views.py:119-141 | each refusal is the first failing guard: empty field, username under 3, password under 6, username taken; `create_user` then fails exactly when the name is fresh as typed but taken in NFKC form |
| Auth.RegisterProceeds | oj_project/authentication/views.py:115-138 | registration goes ahead exactly for a POST with a username of at least 3, fresh as typed and in NFKC form, and a password of at least 6, both stripped |
| Auth.LoginGuardOrder | oj_project/authentication/views.py:151-165 | each refusal is the first failing guard: empty field, unknown user, wrong password; login goes ahead exactly otherwise |
| Auth.RegisterThenLogin | oj_project/authentication/views.py:135-165 | after a registration the same form logs in exactly when the username is already in NFKC form; otherwise login finds no such user |
| Auth.RegisterKeepsOthers | oj_project/authentication/views.py:135-163 | registering changes the outcome of no login except under the stored, NFKC-normalised name |
| Auth.Site.RegisterUser | oj_project/authentication/views.py:113-143 | a refusal queues its message and stores no user; a failing `create_user` queues "Error creating user: " and the database message; success stores the password under the NFKC name and redirects to the login page; a GET changes nothing |
| Auth.Site.LoginUser | oj_project/authentication/views.py:145-169 | a refusal queues its message and keeps the session; success logs the user in and redirects to /problems/; the store never changes |
| Progress.DifficultyCount | oj_project/core/views.py:16-18 | a difficulty's total is at most the number of problems |
| Progress.SolvedSetMembers | oj_project/core/views.py:24-29 | a short code is solved exactly when the user has an accepted submission for it |
| Progress.SolvedWithinTotal | oj_project/core/views.py:14-43 | no difficulty has more solved problems than problems |
| Progress.SolvedCountSnoc | oj_project/core/views.py:36-43 | counting one more problem adds one exactly when it is solved and of that difficulty |
| Progress.SolvedSumWithinProblems | oj_project/core/views.py:36-43 | the three solved counts sum to at most the number of problems |
| Progress.SolvedCountMonotone | oj_project/core/views.py:36-43 | solving more never lowers a count |
| Progress.AnonymousProgress | oj_project/core/views.py:53-60 | nobody logged in: nothing solved and every count zero |
| Progress.ProblemsList | oj_project/core/views.py:9-62 | the counting loop returns the specified totals and progress; each solved count is within its total and their sum within the number of problems |
| Progress.MockVerdict | oj_project/core/views.py:89 | the mock verdict is AC exactly when the stripped code is longer than 10 characters, WA otherwise |
| Progress.SubmitExtendsSolved | oj_project/core/views.py:92-98 | recording a submission adds its problem to the solved set exactly when it is the user's and accepted |
| Progress.Store.ProblemDetail | oj_project/core/views.py:64-107 | a logged-in POST with empty stripped code queues an error and records nothing; otherwise it records the submission with the mock verdict and language (default py) and queues the matching message |
| Progress.MockSubmissionSolves | oj_project/core/views.py:78-98 | a recorded mock submission solves its problem exactly when its code is longer than 10 characters, or the problem was already solved |

## Left out

- The AI review of submissions (compiler/views.py:23-298) is not modelled: it is network calls with random back-off.
- The `run_code` of compiler/views.py and its toolchain probing and `execute_*_docker_safe` helpers are not modelled. That runner is the oracle `run`, with `None` for any failure.
- Real processes, files and directories are not modelled. In LegacyJudge they are the `World` value, and the uuid is the parameter `unique`.
- LegacyJudge.Sandbox.RunCodeIn: a failing write is modelled as failing before any file is written, so a file written before the failing one is not modelled. A failing removal is modelled by its place in the cleanup order; a failing `exists()` check is modelled the same way.
- PyText.Upper: only ASCII letters are mapped. Python's `upper` maps other letters too and can change the length ('ß' becomes "SS").
- Logging, including the first-difference debug loop (compiler/views.py:576-581), is not modelled: it only affects log output.
- Judge.EvaluateFileBasedTestCases: its catch-all `except` (compiler/views.py:589-591) is modelled for failed file reads (`Unreadable`) and for the parser's `ValueError`. The runner oracle never raises, so other exceptions, and the outer `except` of `evaluate_submission` (compiler/views.py:357-359) for database errors, are not modelled.
- Judge.EvaluateSubmission: the visible cases (the `is_hidden` filter, or all cases when that field is missing) are given as a parameter. The database query is not modelled.
- CaseFormat.DetectCountPrefixed: `isdigit` and `int` are modelled on ASCII digits only. Other decimal digits such as '３' pass both, so the source takes the count-prefixed branch where the model does not. Other digits such as '²' pass `isdigit` but make `int()` raise, so the source gives RE where the model falls through to a later layout.
- CaseFormat.DetectTestCaseFormat: it returns `Detect`, so it has the same ASCII-only digit gap.
- CaseFormat.DetectCountRefused: the 4300-digit limit is CPython's default since 3.11 (and 3.7.14, 3.8.14, 3.9.14, 3.10.7). An interpreter without it, or with `sys.set_int_max_str_digits` changed, is not modelled.
- Models.UnknownLanguageUpper: `upper` is modelled on ASCII letters only; Unicode case mapping is not modelled.
- Auth.Site.LoginUser: password hashing, inactive users and the framework's `authenticate` are modelled as equality with the stored password.
- Auth.Site.RegisterUser: NFKC normalisation is the parameter `normalize`, because Unicode tables are not part of this model. Of the exceptions of `create_user`, only the unique-username violation is modelled, with the database's message as the parameter `dbError`.
- `logout_user`, `debug_info` and `test_registration` in authentication/views.py are outside the modelled core.
- Progress.Store.ProblemDetail: the submission record's timestamp is not modelled. Page rendering is reduced to the response kind.
- Django configuration, URL routing, the ORM and templates are not modelled.

## Findings

| source | as written | input that shows it | evidently intended | confidence | as-written member | corrected member |
|---|---|---|---|---|---|---|
| oj_project/submit/views.py:154-155, 190-191 | `run_code` catches the timeout itself and returns the text "Time Limit Exceeded". The `TLE` branch of `evaluate_submission` can never be taken, and a timed-out program is compared as if it had printed that text. | a `py` program that times out on a case whose expected output is "2" is judged `WA` | a timeout gives `TLE` | not executed | LegacyJudge.TimeoutJudgedWrong (and LegacyJudge.NeverTimeLimit for every input) | LegacyJudge.TimeoutJudgedTimeLimit with the runner LegacyJudge.RunCodeRaising |
