/** The problem list's progress counters and the problem page's mock
    submission (core/views.py). */
module Progress {
  import opened PyText
  import Auth

  datatype Problem = Problem(shortCode: string, difficulty: string)

  datatype Submission = Submission(problemCode: string, user: string, codeText: string, language: string, verdict: string)

  /** The progress shown to a user: the solved short codes and the number of
      solved problems of each difficulty. */
  datatype UserProgress = UserProgress(solved: set<string>, easy: nat, medium: nat, hard: nat)

  // ---------------------------------------------------------------------------
  // Counting

  /** The distinct short codes of the user's accepted submissions. */
  function SolvedSet(submissions: seq<Submission>, user: string): set<string> {
    set i | 0 <= i < |submissions| && submissions[i].user == user && submissions[i].verdict == "AC"
      :: submissions[i].problemCode
  }

  /** The number of problems of a difficulty. */
  function DifficultyCount(problems: seq<Problem>, difficulty: string): (n: nat)
    ensures n <= |problems|
  {
    if problems == [] then 0
    else (if problems[0].difficulty == difficulty then 1 else 0) + DifficultyCount(problems[1..], difficulty)
  }

  /** The number of problems of a difficulty whose short code is solved. */
  function SolvedCount(problems: seq<Problem>, solved: set<string>, difficulty: string): nat {
    if problems == [] then 0
    else
      (if problems[0].shortCode in solved && problems[0].difficulty == difficulty then 1 else 0)
      + SolvedCount(problems[1..], solved, difficulty)
  }

  /** The progress of a logged-in user, or of nobody. */
  function Progress(problems: seq<Problem>, submissions: seq<Submission>, user: Option<string>): UserProgress {
    match user
    case None => UserProgress({}, 0, 0, 0)
    case Some(u) =>
      var solved := SolvedSet(submissions, u);
      UserProgress(solved, SolvedCount(problems, solved, "E"), SolvedCount(problems, solved, "M"),
                   SolvedCount(problems, solved, "H"))
  }

  /** A short code is solved exactly when the user has an accepted
      submission for it. */
  lemma SolvedSetMembers(submissions: seq<Submission>, user: string, code: string)
    ensures code in SolvedSet(submissions, user) <==>
      exists s :: s in submissions && s.user == user && s.verdict == "AC" && s.problemCode == code
  {
    if exists s :: s in submissions && s.user == user && s.verdict == "AC" && s.problemCode == code {
      var s :| s in submissions && s.user == user && s.verdict == "AC" && s.problemCode == code;
      var i :| 0 <= i < |submissions| && submissions[i] == s;
    }
  }

  /** No difficulty has more solved problems than problems. */
  lemma {:induction false} SolvedWithinTotal(problems: seq<Problem>, solved: set<string>, difficulty: string)
    ensures SolvedCount(problems, solved, difficulty) <= DifficultyCount(problems, difficulty)
  {
    if problems != [] {
      SolvedWithinTotal(problems[1..], solved, difficulty);
    }
  }

  /** Counting one more problem adds one exactly when it is solved and of
      the difficulty. */
  lemma {:induction false} SolvedCountSnoc(problems: seq<Problem>, problem: Problem, solved: set<string>, difficulty: string)
    ensures SolvedCount(problems + [problem], solved, difficulty)
         == SolvedCount(problems, solved, difficulty)
            + (if problem.shortCode in solved && problem.difficulty == difficulty then 1 else 0)
  {
    if problems != [] {
      assert (problems + [problem])[1..] == problems[1..] + [problem];
      SolvedCountSnoc(problems[1..], problem, solved, difficulty);
    } else {
      assert ([] + [problem])[1..] == [];
    }
  }

  /** The three solved counts together never exceed the number of problems. */
  lemma {:induction false} SolvedSumWithinProblems(problems: seq<Problem>, solved: set<string>)
    ensures SolvedCount(problems, solved, "E") + SolvedCount(problems, solved, "M")
          + SolvedCount(problems, solved, "H") <= |problems|
  {
    if problems != [] {
      SolvedSumWithinProblems(problems[1..], solved);
    }
  }

  /** Solving more never lowers a count. */
  lemma {:induction false} SolvedCountMonotone(problems: seq<Problem>, s1: set<string>, s2: set<string>, difficulty: string)
    requires s1 <= s2
    ensures SolvedCount(problems, s1, difficulty) <= SolvedCount(problems, s2, difficulty)
  {
    if problems != [] {
      SolvedCountMonotone(problems[1..], s1, s2, difficulty);
    }
  }

  /** Nobody logged in: nothing solved and every count zero. */
  lemma AnonymousProgress(problems: seq<Problem>, submissions: seq<Submission>)
    ensures Progress(problems, submissions, None) == UserProgress({}, 0, 0, 0)
  {
  }

  /** `problems_list`: the three totals, then, for a logged-in user, one pass
      over the problems incrementing the counter of each solved problem's
      difficulty. */
  method ProblemsList(problems: seq<Problem>, submissions: seq<Submission>, user: Option<string>)
    returns (easyCount: nat, mediumCount: nat, hardCount: nat, progress: UserProgress)
    ensures easyCount == DifficultyCount(problems, "E")
    ensures mediumCount == DifficultyCount(problems, "M")
    ensures hardCount == DifficultyCount(problems, "H")
    ensures progress == Progress(problems, submissions, user)
    ensures progress.easy <= easyCount && progress.medium <= mediumCount && progress.hard <= hardCount
    ensures progress.easy + progress.medium + progress.hard <= |problems|
  {
    easyCount := DifficultyCount(problems, "E");
    mediumCount := DifficultyCount(problems, "M");
    hardCount := DifficultyCount(problems, "H");
    if user.None? {
      return easyCount, mediumCount, hardCount, UserProgress({}, 0, 0, 0);
    }
    var solvedProblems := SolvedSet(submissions, user.value);
    var easySolved, mediumSolved, hardSolved := 0, 0, 0;
    var i := 0;
    while i < |problems|
      invariant 0 <= i <= |problems|
      invariant easySolved == SolvedCount(problems[..i], solvedProblems, "E")
      invariant mediumSolved == SolvedCount(problems[..i], solvedProblems, "M")
      invariant hardSolved == SolvedCount(problems[..i], solvedProblems, "H")
    {
      var problem := problems[i];
      SolvedCountSnoc(problems[..i], problem, solvedProblems, "E");
      SolvedCountSnoc(problems[..i], problem, solvedProblems, "M");
      SolvedCountSnoc(problems[..i], problem, solvedProblems, "H");
      assert problems[..i + 1] == problems[..i] + [problem];
      if problem.shortCode in solvedProblems {
        if problem.difficulty == "E" {
          easySolved := easySolved + 1;
        } else if problem.difficulty == "M" {
          mediumSolved := mediumSolved + 1;
        } else if problem.difficulty == "H" {
          hardSolved := hardSolved + 1;
        }
      }
      i := i + 1;
    }
    assert problems[..|problems|] == problems;
    progress := UserProgress(solvedProblems, easySolved, mediumSolved, hardSolved);
    SolvedWithinTotal(problems, solvedProblems, "E");
    SolvedWithinTotal(problems, solvedProblems, "M");
    SolvedWithinTotal(problems, solvedProblems, "H");
    SolvedSumWithinProblems(problems, solvedProblems);
  }

  // ---------------------------------------------------------------------------
  // The mock submission

  /** The placeholder verdict: accepted exactly when the stripped code is
      longer than ten characters. */
  function MockVerdict(codeText: string): (v: string)
    ensures v == "AC" <==> |codeText| > 10
    ensures v == "AC" || v == "WA"
  {
    if |codeText| > 10 then "AC" else "WA"
  }

  const EmptyCode := "Code cannot be empty"
  const AcceptedNote := "Congratulations! Your solution was accepted."
  const WrongNote := "Wrong Answer. Please try again."

  datatype DetailResponse = ShowProblem | BackToProblem(shortCode: string)

  /** A new accepted submission adds its problem to its user's solved set and
      changes nothing else. */
  lemma SubmitExtendsSolved(submissions: seq<Submission>, s: Submission, user: string)
    ensures SolvedSet(submissions + [s], user)
         == SolvedSet(submissions, user) + (if s.user == user && s.verdict == "AC" then {s.problemCode} else {})
  {
    var extended := submissions + [s];
    forall c | c in SolvedSet(extended, user)
      ensures c in SolvedSet(submissions, user) + (if s.user == user && s.verdict == "AC" then {s.problemCode} else {})
    {
      var i :| 0 <= i < |extended| && extended[i].user == user && extended[i].verdict == "AC"
        && extended[i].problemCode == c;
      if i < |submissions| {
        assert submissions[i] == extended[i];
      }
    }
    forall c | c in SolvedSet(submissions, user) ensures c in SolvedSet(extended, user) {
      var i :| 0 <= i < |submissions| && submissions[i].user == user && submissions[i].verdict == "AC"
        && submissions[i].problemCode == c;
      assert extended[i] == submissions[i];
    }
    if s.user == user && s.verdict == "AC" {
      assert extended[|submissions|] == s;
    }
  }

  /** The submissions and the messages queued for the next page. */
  class Store {
    var submissions: seq<Submission>
    var messages: seq<Auth.Message>

    constructor(submissions: seq<Submission>)
      ensures this.submissions == submissions && messages == []
    {
      this.submissions := submissions;
      messages := [];
    }

    /** `problem_detail`: a logged-in user's posted code, stripped, is
        refused when empty; otherwise it is recorded with the mock verdict
        and the language posted, `py` when none is. */
    method ProblemDetail(problem: Problem, request: Auth.Request, user: Option<string>)
      returns (response: DetailResponse)
      modifies this
      ensures var code := Auth.Field(request, "code");
        var language := if "language" in request.form then request.form["language"] else "py";
        if !(request.isPost && user.Some?) then
          response == ShowProblem && submissions == old(submissions) && messages == old(messages)
        else if code == "" then
          response == ShowProblem && submissions == old(submissions)
          && messages == old(messages) + [Auth.Error(EmptyCode)]
        else
          var verdict := MockVerdict(code);
          response == BackToProblem(problem.shortCode)
          && submissions == old(submissions)
               + [Submission(problem.shortCode, user.value, code, language, verdict)]
          && messages == old(messages)
               + [if verdict == "AC" then Auth.Success(AcceptedNote) else Auth.Error(WrongNote)]
    {
      if request.isPost && user.Some? {
        var codeText := Auth.Field(request, "code");
        var language := if "language" in request.form then request.form["language"] else "py";
        if codeText == "" {
          messages := messages + [Auth.Error(EmptyCode)];
          return ShowProblem;
        }
        var verdict := MockVerdict(codeText);
        submissions := submissions + [Submission(problem.shortCode, user.value, codeText, language, verdict)];
        if verdict == "AC" {
          messages := messages + [Auth.Success(AcceptedNote)];
        } else {
          messages := messages + [Auth.Error(WrongNote)];
        }
        return BackToProblem(problem.shortCode);
      }
      return ShowProblem;
    }
  }

  /** A recorded mock submission solves its problem exactly when its stripped
      code is longer than ten characters. */
  lemma MockSubmissionSolves(submissions: seq<Submission>, problem: Problem, user: string, code: string, language: string)
    requires code != "" && Stripped(code)
    ensures var s := Submission(problem.shortCode, user, code, language, MockVerdict(code));
      problem.shortCode in SolvedSet(submissions + [s], user)
      <==> |code| > 10 || problem.shortCode in SolvedSet(submissions, user)
  {
    SubmitExtendsSolved(submissions, Submission(problem.shortCode, user, code, language, MockVerdict(code)), user);
  }
}
