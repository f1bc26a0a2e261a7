/** The classification and display tables of the `Problem` and `Submission`
    records (core/models.py): verdict, language and difficulty codes, their
    labels, icons and status classes, and the field defaults. */
module Models {
  import opened PyText

  // ---------------------------------------------------------------------------
  // The declared choices

  /** The seven verdict codes and their labels; the declared codes are the
      keys. */
  const VerdictLabels: map<string, string> := map[
    "AC" := "Accepted",
    "WA" := "Wrong Answer",
    "TLE" := "Time Limit Exceeded",
    "RE" := "Runtime Error",
    "CE" := "Compilation Error",
    "PE" := "Pending Evaluation",
    "IE" := "Internal Error"]

  const LanguageLabels: map<string, string> := map[
    "py" := "Python 3",
    "cpp" := "C++",
    "c" := "C",
    "java" := "Java"]

  const DifficultyLabels: map<string, string> := map[
    "E" := "Easy",
    "M" := "Medium",
    "H" := "Hard"]

  /** Field widths and defaults of a new submission. */
  const VerdictMaxLength := 5
  const LanguageMaxLength := 10
  const DefaultVerdict := "PE"
  const DefaultLanguage := "py"

  /** The framework's display of a choice field: the label of a declared
      code, the stored value itself otherwise. */
  function ChoiceDisplay(labels: map<string, string>, code: string): (r: string)
    ensures code !in labels ==> r == code
  {
    if code in labels then labels[code] else code
  }

  // ---------------------------------------------------------------------------
  // Verdict classification

  predicate IsAccepted(verdict: string) {
    verdict == "AC"
  }

  predicate IsPending(verdict: string) {
    verdict == "PE"
  }

  predicate IsError(verdict: string) {
    verdict in ["WA", "TLE", "RE", "CE", "IE"]
  }

  /** Each declared verdict is exactly one of accepted, pending and error; an
      undeclared one is none of them. */
  lemma ClassificationPartitions(verdict: string)
    ensures verdict in VerdictLabels ==>
      (IsAccepted(verdict) && !IsPending(verdict) && !IsError(verdict))
      || (!IsAccepted(verdict) && IsPending(verdict) && !IsError(verdict))
      || (!IsAccepted(verdict) && !IsPending(verdict) && IsError(verdict))
    ensures verdict !in VerdictLabels ==>
      !IsAccepted(verdict) && !IsPending(verdict) && !IsError(verdict)
  {
  }

  /** The status class of a verdict, agreeing with the classification:
      accepted, rejected for every error, pending for `PE` and for any
      undeclared code. */
  function StatusColorClass(verdict: string): (r: string)
    ensures r == "status-accepted" <==> IsAccepted(verdict)
    ensures r == "status-rejected" <==> IsError(verdict)
    ensures r == "status-pending" <==> !IsAccepted(verdict) && !IsError(verdict)
  {
    var colors := map[
      "AC" := "status-accepted",
      "WA" := "status-rejected",
      "TLE" := "status-rejected",
      "RE" := "status-rejected",
      "CE" := "status-rejected",
      "PE" := "status-pending",
      "IE" := "status-rejected"];
    if verdict in colors then colors[verdict] else "status-pending"
  }

  // ---------------------------------------------------------------------------
  // Displays

  /** The language's name: the framework's display for a declared code, the
      upper-cased code (not the stored value) otherwise. */
  function LanguageDisplay(language: string): (r: string)
    ensures language in LanguageLabels ==> r == ChoiceDisplay(LanguageLabels, language)
    ensures language !in LanguageLabels ==> r == Upper(language)
  {
    if language in LanguageLabels then LanguageLabels[language] else Upper(language)
  }

  /** An undeclared language is shown with the same length and no lower-case
      ASCII letter. */
  lemma UnknownLanguageUpper(language: string)
    requires language !in LanguageLabels
    ensures |LanguageDisplay(language)| == |language|
    ensures forall i :: 0 <= i < |language| ==> !('a' <= LanguageDisplay(language)[i] <= 'z')
  {
  }

  function VerdictIcon(verdict: string): string {
    var icons := map[
      "AC" := "\U{2705}",
      "WA" := "\U{274C}",
      "TLE" := "\U{23F0}",
      "RE" := "\U{1F4A5}",
      "CE" := "\U{26A0}\U{FE0F}",
      "PE" := "\U{23F3}",
      "IE" := "\U{1F527}"];
    if verdict in icons then icons[verdict] else "\U{2753}"
  }

  /** The icon, a space, and the verdict's display. */
  function VerdictDisplayWithIcon(verdict: string): (r: string)
    ensures verdict in VerdictLabels ==> r == VerdictIcon(verdict) + " " + VerdictLabels[verdict]
    ensures verdict !in VerdictLabels ==> r == "\U{2753} " + verdict
  {
    VerdictIcon(verdict) + " " + ChoiceDisplay(VerdictLabels, verdict)
  }

  /** Declared verdicts carry distinct icons, none of them the question mark
      kept for undeclared ones. */
  lemma VerdictIconsDistinct(v1: string, v2: string)
    requires v1 in VerdictLabels && v2 in VerdictLabels && v1 != v2
    ensures VerdictIcon(v1) != VerdictIcon(v2)
    ensures VerdictIcon(v1) != "\U{2753}"
  {
  }

  function DifficultyIcon(difficulty: string): string {
    var icons := map["E" := "\U{1F7E2}", "M" := "\U{1F7E1}", "H" := "\U{1F534}"];
    if difficulty in icons then icons[difficulty] else ""
  }

  /** The icon, a space, and the difficulty's display; an undeclared
      difficulty has no icon and shows its stored value. */
  function DifficultyDisplayWithIcon(difficulty: string): (r: string)
    ensures difficulty in DifficultyLabels ==>
      r == DifficultyIcon(difficulty) + " " + DifficultyLabels[difficulty] && |DifficultyIcon(difficulty)| == 1
    ensures difficulty !in DifficultyLabels ==> r == " " + difficulty
  {
    DifficultyIcon(difficulty) + " " + ChoiceDisplay(DifficultyLabels, difficulty)
  }

  // ---------------------------------------------------------------------------
  // Defaults and widths

  /** A new submission is pending and in Python. */
  lemma DefaultsDeclared()
    ensures DefaultVerdict in VerdictLabels && IsPending(DefaultVerdict)
    ensures StatusColorClass(DefaultVerdict) == "status-pending"
    ensures DefaultLanguage in LanguageLabels && LanguageDisplay(DefaultLanguage) == "Python 3"
  {
  }

  /** Every declared verdict and language code fits its column. */
  lemma CodesFitColumns()
    ensures forall v :: v in VerdictLabels ==> |v| <= VerdictMaxLength
    ensures forall l :: l in LanguageLabels ==> |l| <= LanguageMaxLength
  {
  }
}
