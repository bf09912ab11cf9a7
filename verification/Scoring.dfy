/** judge.cpp: what the loop over the test cases makes of the runs, and the score. */
module Scoring {
  import opened Wrappers
  import opened Texts
  import LineValidator
  import Jobs
  import Scoreboard
  import ScoreboardRuns

  type Report = Jobs.Report

  const ACCEPT := Scoreboard.ACCEPT
  const COMPILATION_ERROR := Scoreboard.COMPILATION_ERROR
  const TIME_LIMIT_EXCEEDED := 2
  const MEMORY_LIMIT_EXCEEDED := 3
  const WRONG_ANSWER := 4
  const RUNTIME_ERROR := 5
  const VALIDATOR_ERROR := 99
  const SYSTEM_ERROR := Jobs.SYSTEM_ERROR

  const NO_ERROR_YET := -1

  const TRADITIONAL := 0
  const FLOATS := 1
  const INTEGERS := 2
  const SPECIAL := 3

  datatype RunStatus = Exited | Signaled | BadSystemCall | TimeLimitExceeded | MemoryLimitExceeded | Failed

  /** What the sandbox reports of one run. */
  datatype Execution = Execution(status: RunStatus, message: string, time: int, memory: int)

  /** One test case with what happens to it: the error of copying its input, if any; the run; the two files, if
      they can be opened; what the numeric comparisons say; and the excerpts shown for a mismatch. */
  datatype TestCase = TestCase(
    copyError: Option<string>,
    run: Execution,
    answer: Option<Text>,
    output: Option<Text>,
    numeric: Verdict,
    yours: string,
    standard: string)

  /** The upper half of the comparison mode selects the validator. */
  function Comparison(mode: int): int { mode / 65536 }

  function Compared(mode: int, c: TestCase): Verdict
    requires c.answer.Some? && c.output.Some?
  {
    if Comparison(mode) == TRADITIONAL then LineValidator.Judgement(c.answer.value, c.output.value)
    else if Comparison(mode) == FLOATS || Comparison(mode) == INTEGERS then c.numeric
    else FUCKED
  }

  /** A case is accepted if the program exits, both files are there and the comparison finds no difference. */
  predicate Passes(mode: int, c: TestCase) {
    c.run.status.Exited? && c.answer.Some? && c.output.Some? && Compared(mode, c) == IDENTICAL
  }

  function FailureStatus(mode: int, c: TestCase): int {
    match c.run.status
    case Exited =>
      if c.answer.Some? && c.output.Some? && Compared(mode, c) == FUCKED then VALIDATOR_ERROR else WRONG_ANSWER
    case Signaled => RUNTIME_ERROR
    case BadSystemCall => RUNTIME_ERROR
    case TimeLimitExceeded => TIME_LIMIT_EXCEEDED
    case MemoryLimitExceeded => MEMORY_LIMIT_EXCEEDED
    case Failed => SYSTEM_ERROR
  }

  function Status(mode: int, c: TestCase): (s: int)
    ensures s == ACCEPT <==> Passes(mode, c)
  {
    if Passes(mode, c) then ACCEPT else FailureStatus(mode, c)
  }

  function ComparisonTips(v: Verdict, yours: string, standard: string): string {
    match v
    case IDENTICAL => "Good Job!"
    case FUCKED => "Please contact administrator."
    case MISMATCH => "Output mismatch.\nYours: " + yours + "\nAnswer: " + standard
    case LONGER => "Your output is longer than standard output."
    case SHORTER => "Your output is shorter than standard output."
  }

  function Tips(mode: int, c: TestCase): string {
    match c.run.status
    case Exited =>
      if c.answer.None? then "No answer file"
      else if c.output.None? then "Cannot find output file."
      else ComparisonTips(Compared(mode, c), c.yours, c.standard)
    case Signaled => c.run.message
    case BadSystemCall => c.run.message
    case TimeLimitExceeded => ""
    case MemoryLimitExceeded => ""
    case Failed => "System Error."
  }

  function CaseReport(mode: int, share: int, c: TestCase): Report {
    Jobs.Report(Status(mode, c), c.run.time, c.run.memory, Tips(mode, c), if Passes(mode, c) then share else 0)
  }

  function Reports(mode: int, share: int, cases: seq<TestCase>): seq<Report> {
    if cases == [] then []
    else Reports(mode, share, cases[..|cases| - 1]) + [CaseReport(mode, share, cases[|cases| - 1])]
  }

  function Accepted(mode: int, cases: seq<TestCase>): (k: nat)
    ensures k <= |cases|
  {
    if cases == [] then 0
    else Accepted(mode, cases[..|cases| - 1]) + if Passes(mode, cases[|cases| - 1]) then 1 else 0
  }

  /** The points of all cases. */
  function Earned(mode: int, share: int, cases: seq<TestCase>): int { share * Accepted(mode, cases) }

  /** The first case that does not pass, or the number of cases. */
  function FirstFailure(mode: int, cases: seq<TestCase>): (f: nat)
    ensures f <= |cases| && (f < |cases| ==> !Passes(mode, cases[f]))
    ensures forall i :: 0 <= i < f ==> Passes(mode, cases[i])
  {
    if cases == [] then 0
    else
      var f := FirstFailure(mode, cases[..|cases| - 1]);
      assert forall i :: 0 <= i < |cases| - 1 ==> cases[..|cases| - 1][i] == cases[i];
      if f < |cases| - 1 || !Passes(mode, cases[|cases| - 1]) then f else |cases|
  }

  /** How many cases run: those before the first whose input cannot be copied. */
  function Runnable(cases: seq<TestCase>): (r: nat)
    ensures r <= |cases| && (r < |cases| ==> cases[r].copyError.Some?)
    ensures forall i :: 0 <= i < r ==> cases[i].copyError.None?
  {
    if cases == [] || cases[0].copyError.Some? then 0 else 1 + Runnable(cases[1..])
  }

  function TotalTime(cases: seq<TestCase>): int {
    if cases == [] then 0 else TotalTime(cases[..|cases| - 1]) + cases[|cases| - 1].run.time
  }

  function MaxMemory(cases: seq<TestCase>): int {
    if cases == [] then 0
    else
      var m, c := MaxMemory(cases[..|cases| - 1]), cases[|cases| - 1];
      if c.run.memory > m then c.run.memory else m
  }

  lemma {:induction false} MaxMemoryIs(cases: seq<TestCase>)
    ensures MaxMemory(cases) >= 0 && forall c :: c in cases ==> c.run.memory <= MaxMemory(cases)
    ensures MaxMemory(cases) > 0 ==> exists c :: c in cases && c.run.memory == MaxMemory(cases)
  {
    if cases != [] {
      var front, c := cases[..|cases| - 1], cases[|cases| - 1];
      MaxMemoryIs(front);
      assert c in cases && forall d :: d in cases ==> d in front || d == c;
    }
  }

  /** The first error found, if none was recorded before. */
  function ErrorAfter(before: int, mode: int, cases: seq<TestCase>): int {
    var f := FirstFailure(mode, cases);
    if before == NO_ERROR_YET && f < |cases| then Status(mode, cases[f]) else before
  }

  function StateAfter(before: int, state: string, mode: int, cases: seq<TestCase>): string {
    var f := FirstFailure(mode, cases);
    if before == NO_ERROR_YET && f < |cases| then Tips(mode, cases[f]) else state
  }

  /** The verdict on all cases together. */
  function Verdicts(mode: int, cases: seq<TestCase>): int {
    var code := ErrorAfter(NO_ERROR_YET, mode, cases);
    if code == NO_ERROR_YET then ACCEPT else code
  }

  // ----- The score -----

  const FULL_SCORE := 100

  /** What one case is worth. */
  function Share(n: nat): (share: int)
    requires n >= 1
    ensures share >= 1
  {
    if FULL_SCORE / n <= 0 then 1 else FULL_SCORE / n
  }

  /** The final score for k of n cases, in exact arithmetic. */
  function Score(k: nat, n: nat): int
    requires n >= 1
  {
    (FULL_SCORE as real * k as real / n as real + 0.500001).Floor
  }

  /** The rounding of the share cancels. */
  lemma ShareCancels(k: nat, n: nat, share: int)
    requires n >= 1 && share >= 1
    ensures share * n >= 1
    ensures ((share * k) as real / (share * n) as real * FULL_SCORE as real + 0.500001).Floor == Score(k, n)
  {
    var s, x, y := share as real, k as real, n as real;
    assert (share * k) as real == s * x && (share * n) as real == s * y;
    Cancel(s, x, y);
    assert x / y * 100.0 == 100.0 * x / y;
  }

  lemma Cancel(s: real, x: real, y: real)
    requires s > 0.0 && y > 0.0
    ensures s * y > 0.0 && s * x / (s * y) == x / y
  {
    var q := x / y;
    assert q * y == x;
    assert s * x == q * (s * y);
  }

  /** The score in integers: the largest m with 1000000 * n * m <= 100000000 * k + 500001 * n. */
  lemma ScoreIs(k: nat, n: nat, m: int)
    requires n >= 1
    ensures m <= Score(k, n) <==> 1000000 * (m * n) <= 100000000 * k + 500001 * n
  {
    var y := n as real;
    var q := FULL_SCORE as real * k as real / y;
    assert q * y == 100.0 * k as real;
    assert m <= Score(k, n) <==> m as real <= q + 0.500001;
    if m as real <= q + 0.500001 {
      Scale(m as real, q + 0.500001, y);
    }
    if m as real > q + 0.500001 {
      ScaleStrictly(q + 0.500001, m as real, y);
    }
    assert m as real * y == (m * n) as real;
    assert (q + 0.500001) * y == 100.0 * k as real + 0.500001 * y;
  }

  lemma Scale(a: real, b: real, y: real)
    requires a <= b && y > 0.0
    ensures a * y <= b * y
  {
  }

  lemma ScaleStrictly(a: real, b: real, y: real)
    requires a < b && y > 0.0
    ensures a * y < b * y
  {
  }

  lemma ScoreMonotone(j: nat, k: nat, n: nat)
    requires n >= 1 && j <= k
    ensures Score(j, n) <= Score(k, n)
  {
    ScoreIs(j, n, Score(j, n));
    ScoreIs(k, n, Score(j, n));
  }

  lemma ScoreInRange(k: nat, n: nat)
    requires n >= 1 && k <= n
    ensures 0 <= Score(k, n) <= 100 && Score(n, n) == 100 && Score(0, n) == 0
  {
    ScoreIs(0, n, 0);
    ScoreIs(0, n, 1);
    ScoreIs(n, n, 100);
    ScoreIs(n, n, 101);
    ScoreMonotone(0, k, n);
    ScoreMonotone(k, n, n);
  }

  /** Some cases may fail with full score only if there are 200 cases or more. */
  lemma FullScoreIff(n: nat)
    requires n >= 1
    ensures (forall k | 0 <= k < n :: Score(k, n) < 100) <==> n <= 199
  {
    ScoreIs(n - 1, n, 100);
    if n <= 199 {
      forall k | 0 <= k < n ensures Score(k, n) < 100 {
        ScoreMonotone(k, n - 1, n);
      }
    }
  }

  /** The score is 100k/n rounded half up exactly if that number is not just below a half: with r as the remainder it
      lacks (2n - r) / 2n to the next half, and up to a millionth is made up for. */
  lemma RoundsHalfUpIff(k: nat, n: nat)
    requires n >= 1
    ensures Score(k, n) == (200 * k + n) / (2 * n) <==> 500000 * (2 * n - (200 * k + n) % (2 * n)) > n
  {
    var m := (200 * k + n) / (2 * n);
    var r := (200 * k + n) % (2 * n);
    assert 200 * k + n == 2 * (m * n) + r by {
      assert 200 * k + n == (2 * n) * m + r;
      assert (2 * n) * m == 2 * (m * n);
    }
    ScoreIs(k, n, m);
    ScoreIs(k, n, m + 1);
    assert (m + 1) * n == m * n + n;
  }

  lemma LacksEnough(n: nat, r: nat)
    requires r < 2 * n && n <= 500000 && (n == 500000 ==> r % 2 == 0)
    ensures 500000 * (2 * n - r) > n
  {
  }

  lemma EvenRemainder(k: nat)
    ensures (200 * k + 500000) % (2 * 500000) % 2 == 0
  {
    var q, r := (200 * k + 500000) / 1000000, (200 * k + 500000) % 1000000;
    assert r == 2 * (100 * k + 250000 - 500000 * q);
  }

  /** That is so with up to 500000 cases. */
  lemma RoundsHalfUp(k: nat, n: nat)
    requires 1 <= n <= 500000
    ensures Score(k, n) == (200 * k + n) / (2 * n)
  {
    RoundsHalfUpIff(k, n);
    EvenRemainder(k);
    hide Score;
    LacksEnough(n, (200 * k + n) % (2 * n));
  }

  /** With one case more it need not be: 2500 of 500001 is less than half a point and still scores one. */
  lemma RoundsHalfUpBound()
    ensures Score(2500, 500001) == 1 && (200 * 2500 + 500001) / (2 * 500001) == 0
  {
    ScoreIs(2500, 500001, 1);
    ScoreIs(2500, 500001, 2);
  }

  // ----- Verdict and score together -----

  lemma {:induction false} AllAccepted(mode: int, cases: seq<TestCase>)
    ensures Accepted(mode, cases) == |cases| <==> FirstFailure(mode, cases) == |cases|
  {
    if cases != [] { AllAccepted(mode, cases[..|cases| - 1]); }
  }

  function ScoreOf(mode: int, cases: seq<TestCase>): int
    requires cases != []
  {
    Score(Accepted(mode, cases), |cases|)
  }

  /** Judging accepts exactly if every case passes, and then the score is full; so its results are judged rows
      of the scoreboard. */
  lemma AcceptMeansFull(mode: int, cases: seq<TestCase>)
    requires cases != []
    ensures Verdicts(mode, cases) == ACCEPT <==> forall c :: c in cases ==> Passes(mode, c)
    ensures Verdicts(mode, cases) == ACCEPT ==> ScoreOf(mode, cases) == 100
    ensures ScoreboardRuns.Judged(Verdicts(mode, cases), ScoreOf(mode, cases))
  {
    AllAccepted(mode, cases);
    ScoreInRange(Accepted(mode, cases), |cases|);
    var f := FirstFailure(mode, cases);
    if f < |cases| {
      assert cases[f] in cases;
    }
  }

  /** n cases, the first of which runs into its time limit while the others pass. */
  function OneFailure(n: nat): (cases: seq<TestCase>)
    requires n >= 1
    ensures |cases| == n && forall i :: 0 <= i < n ==> (Passes(INTEGERS * 65536, cases[i]) <==> i > 0)
  {
    seq(n, i => TestCase(None, Execution(if i == 0 then TimeLimitExceeded else Exited, "", 0, 0),
                         Some([]), Some([]), IDENTICAL, "", ""))
  }

  lemma {:induction false} CountPassed(mode: int, cases: seq<TestCase>)
    requires forall i :: 0 <= i < |cases| ==> (Passes(mode, cases[i]) <==> i > 0)
    ensures Accepted(mode, cases) == if cases == [] then 0 else |cases| - 1
  {
    if cases != [] { CountPassed(mode, cases[..|cases| - 1]); }
  }

  /** A full score means acceptance for every judgement of n cases exactly if n is at most 199. */
  lemma FullMeansAcceptIff(n: nat)
    requires n >= 1
    ensures (forall mode, cases | |cases| == n && ScoreOf(mode, cases) == 100 :: Verdicts(mode, cases) == ACCEPT)
            <==> n <= 199
  {
    FullScoreIff(n);
    if n <= 199 {
      forall mode, cases | |cases| == n && ScoreOf(mode, cases) == 100 ensures Verdicts(mode, cases) == ACCEPT {
        AllAccepted(mode, cases);
      }
    } else {
      var mode, cases := INTEGERS * 65536, OneFailure(n);
      CountPassed(mode, cases);
      AcceptMeansFull(mode, cases);
      assert cases[0] in cases;
      var k :| 0 <= k < n && Score(k, n) >= 100;
      ScoreMonotone(k, n - 1, n);
      ScoreInRange(n - 1, n);
    }
  }

  /** The score is what the case scores of the reports add up to, over what they could. */
  function Sum(reports: seq<Report>): int {
    if reports == [] then 0 else Sum(reports[..|reports| - 1]) + reports[|reports| - 1].score
  }

  lemma SumAppend(reports: seq<Report>, r: Report)
    ensures Sum(reports + [r]) == Sum(reports) + r.score
  {
    assert (reports + [r])[..|reports|] == reports;
  }

  lemma {:induction false} SumOfReports(mode: int, share: int, cases: seq<TestCase>)
    ensures Sum(Reports(mode, share, cases)) == Earned(mode, share, cases)
  {
    if cases == [] {
      NoCaseYet(mode, share, 0, "");
    } else {
      hide *;
      var n := |cases| - 1;
      assert cases[..n + 1] == cases;
      SumOfReports(mode, share, cases[..n]);
      OneMoreCase(mode, share, cases, n);
      CaseReportIs(mode, share, cases[n]);
      SumAppend(Reports(mode, share, cases[..n]), CaseReport(mode, share, cases[n]));
    }
  }

  /** The score is what the reported case scores add up to, as a share of what they could. */
  lemma ScoreFromReports(mode: int, cases: seq<TestCase>)
    requires cases != []
    ensures var share := Share(|cases|);
            && share * |cases| >= 1
            && ScoreOf(mode, cases) ==
               (Sum(Reports(mode, share, cases)) as real / (share * |cases|) as real * FULL_SCORE as real
                + 0.500001).Floor
  {
    var share := Share(|cases|);
    SumOfReports(mode, share, cases);
    AllCasesDone(NO_ERROR_YET, mode, cases, share);
    hide *;
  }

  // ----- The loop -----

  lemma CaseReportIs(mode: int, share: int, c: TestCase)
    ensures CaseReport(mode, share, c) ==
            Jobs.Report(Status(mode, c), c.run.time, c.run.memory, Tips(mode, c), if Passes(mode, c) then share else 0)
  {
  }

  /** What the end of the loop makes of its variables. */
  lemma AllCasesDone(before: int, mode: int, cases: seq<TestCase>, share: int)
    requires cases != [] && share >= 1
    ensures share * |cases| >= 1
    ensures (Earned(mode, share, cases) as real / (share * |cases|) as real * FULL_SCORE as real + 0.500001).Floor
            == ScoreOf(mode, cases)
    ensures var e := ErrorAfter(before, mode, cases);
            (if e == NO_ERROR_YET then ACCEPT else e) ==
            if before == NO_ERROR_YET then Verdicts(mode, cases) else before
  {
    ShareCancels(Accepted(mode, cases), |cases|, share);
    hide FirstFailure, Status;
  }

  lemma ShareIs(n: nat)
    requires n >= 1
    ensures Share(n) == if FULL_SCORE / n <= 0 then 1 else FULL_SCORE / n
  {
  }

  lemma NoCaseYet(mode: int, share: int, before: int, state: string)
    ensures Earned(mode, share, []) == 0 && TotalTime([]) == 0 && MaxMemory([]) == 0 && Reports(mode, share, []) == []
    ensures ErrorAfter(before, mode, []) == before && StateAfter(before, state, mode, []) == state
  {
  }

  /** What one more case does to everything the loop keeps. */
  lemma OneMoreCase(mode: int, share: int, cases: seq<TestCase>, i: nat)
    requires i < |cases|
    ensures var c, front, now := cases[i], cases[..i], cases[..i + 1];
            && Earned(mode, share, now) == Earned(mode, share, front) + (if Passes(mode, c) then share else 0)
            && TotalTime(now) == TotalTime(front) + c.run.time
            && MaxMemory(now) == (if c.run.memory > MaxMemory(front) then c.run.memory else MaxMemory(front))
            && Reports(mode, share, now) == Reports(mode, share, front) + [CaseReport(mode, share, c)]
  {
    assert cases[..i + 1][..i] == cases[..i];
  }

  lemma ErrorOfOneMore(before: int, state: string, mode: int, cases: seq<TestCase>, i: nat)
    requires i < |cases|
    ensures var c := cases[i];
            var e := ErrorAfter(before, mode, cases[..i]);
            var first := e == NO_ERROR_YET && Status(mode, c) != ACCEPT;
            && ErrorAfter(before, mode, cases[..i + 1]) == (if first then Status(mode, c) else e)
            && StateAfter(before, state, mode, cases[..i + 1]) ==
               (if first then Tips(mode, c) else StateAfter(before, state, mode, cases[..i]))
  {
    var c := cases[i];
    var f := FirstFailure(mode, cases[..i]);
    assert cases[..i + 1][..i] == cases[..i] && cases[..i + 1][i] == c;
    FailureIsNoMark(mode, c);
    if f < i { FailureIsNoMark(mode, cases[f]); }
    hide Status, Tips, Passes;
  }

  lemma FailureIsNoMark(mode: int, c: TestCase)
    ensures Status(mode, c) != NO_ERROR_YET
  {
    hide Passes, Compared;
  }

  datatype Outcome = Done | Threw(message: string)

  class Solution {
    var problem: int
    var comparisonMode: int
    var language: int
    var timeLimit: int
    var memoryLimit: int
    var solutionScore: int
    var errorCode: int
    var solutionType: int
    var targetPath: string
    var lastState: string
    var detail: seq<Report>
    var timeStamp: int

    constructor (target: string)
      ensures problem == 0 && comparisonMode == 0 && language == 0 && timeLimit == 0 && memoryLimit == 0
      ensures solutionScore == 0 && errorCode == 0 && solutionType == 0 && timeStamp == 0
      ensures targetPath == target && lastState == "" && detail == []
    {
      problem, comparisonMode, language, timeLimit, memoryLimit := 0, 0, 0, 0, 0;
      solutionScore, errorCode, solutionType, timeStamp := 0, 0, 0, 0;
      targetPath, lastState, detail := target, "", [];
    }

    /** The settings of a rejudge request; the verdict, the details and the time stamp stay this object's own. */
    method CloneFrom(from: Solution)
      modifies this
      ensures problem == old(from.problem) && comparisonMode == old(from.comparisonMode)
      ensures language == old(from.language) && timeLimit == old(from.timeLimit)
      ensures memoryLimit == old(from.memoryLimit) && solutionScore == old(from.solutionScore)
      ensures solutionType == old(from.solutionType) && targetPath == old(from.targetPath)
      ensures unchanged(`errorCode, `lastState, `detail, `timeStamp)
    {
      problem := from.problem;
      comparisonMode := from.comparisonMode;
      language := from.language;
      timeLimit := from.timeLimit;
      memoryLimit := from.memoryLimit;
      solutionScore := from.solutionScore;
      solutionType := from.solutionType;
      targetPath := from.targetPath;
    }

    /** What the compiler's messages leave behind when there is no executable. */
    method RejectCompilation(messages: string)
      modifies this
      ensures errorCode == 7 && solutionScore == timeLimit == memoryLimit == 0
      ensures lastState == messages
      ensures detail == old(detail) + [Jobs.Report(7, 0, 0, messages, 0)]
      ensures unchanged(`problem, `comparisonMode, `language, `solutionType, `targetPath, `timeStamp)
      ensures ScoreboardRuns.Judged(errorCode, solutionScore)
    {
      lastState := messages;
      solutionScore, timeLimit, memoryLimit := 0, 0, 0;
      errorCode := COMPILATION_ERROR;
      detail := detail + [Jobs.Report(COMPILATION_ERROR, 0, 0, lastState, 0)];
    }

    /** The status and the tips of one case, and whether it earns its share. */
    method JudgeCase(c: TestCase) returns (status: int, tips: string, earned: bool)
      requires Comparison(comparisonMode) != SPECIAL
      ensures status == Status(comparisonMode, c) && tips == Tips(comparisonMode, c)
      ensures earned == Passes(comparisonMode, c) == (status == 0)
      ensures c.run.status.Exited? && c.answer.Some? && c.output.Some? ==>
                var v := match comparisonMode / 65536
                         case 0 => LineValidator.Judgement(c.answer.value, c.output.value)
                         case 1 => c.numeric
                         case 2 => c.numeric
                         case _ => FUCKED;
                && (earned <==> v == IDENTICAL)
                && status == if v == IDENTICAL then 0 else if v == FUCKED then 99 else 4
    {
      earned, tips := false, "";
      match c.run.status
      case Exited =>
        if c.answer.Some? {
          if c.output.Some? {
            var info;
            match Comparison(comparisonMode) {
              case 0 => info := LineValidator.Judgement(c.answer.value, c.output.value);
              case 1 => info := c.numeric;
              case 2 => info := c.numeric;
              case _ => info := FUCKED;
            }
            match info
            case IDENTICAL => status, tips, earned := ACCEPT, "Good Job!", true;
            case FUCKED => status, tips := VALIDATOR_ERROR, "Please contact administrator.";
            case MISMATCH =>
              status := WRONG_ANSWER;
              tips := "Output mismatch.\nYours: ";
              tips := tips + c.yours;
              tips := tips + "\nAnswer: ";
              tips := tips + c.standard;
            case LONGER => status, tips := WRONG_ANSWER, "Your output is longer than standard output.";
            case SHORTER => status, tips := WRONG_ANSWER, "Your output is shorter than standard output.";
          } else {
            status, tips := WRONG_ANSWER, "Cannot find output file.";
          }
        } else {
          status, tips := WRONG_ANSWER, "No answer file";
        }
      case TimeLimitExceeded => status := TIME_LIMIT_EXCEEDED;
      case MemoryLimitExceeded => status := MEMORY_LIMIT_EXCEEDED;
      case BadSystemCall => status, tips := RUNTIME_ERROR, c.run.message;
      case Signaled => status, tips := RUNTIME_ERROR, c.run.message;
      case Failed => status, tips := SYSTEM_ERROR, "System Error.";
    }

    /** Judges one case, keeps the first error, and adds the report. */
    method ReportCase(c: TestCase, caseScore: int) returns (getScore: int)
      requires Comparison(comparisonMode) != SPECIAL
      modifies this`errorCode, this`lastState, this`detail
      ensures getScore == if Passes(comparisonMode, c) then caseScore else 0
      ensures var first := old(errorCode) == NO_ERROR_YET && Status(comparisonMode, c) != ACCEPT;
              && errorCode == (if first then Status(comparisonMode, c) else old(errorCode))
              && lastState == (if first then Tips(comparisonMode, c) else old(lastState))
      ensures detail == old(detail) + [CaseReport(comparisonMode, caseScore, c)]
    {
      hide *;
      var status, tips, earned := JudgeCase(c);
      getScore := if earned then caseScore else 0;
      if errorCode == NO_ERROR_YET && status != ACCEPT {
        errorCode := status;
        lastState := tips;
      }
      CaseReportIs(comparisonMode, caseScore, c);
      detail := detail + [Jobs.Report(status, c.run.time, c.run.memory, tips, getScore)];
    }

    /** What the loop leaves in its variables becomes the result. */
    method KeepResult(cases: seq<TestCase>, ghost before: int, totalScore: int, caseScore: int, totalTime: int,
                      maxMemory: int)
      requires cases != [] && caseScore >= 1 && totalScore == Earned(comparisonMode, caseScore, cases)
      requires errorCode == ErrorAfter(before, comparisonMode, cases)
      modifies this`errorCode, this`solutionScore, this`timeLimit, this`memoryLimit
      ensures errorCode == if before == NO_ERROR_YET then Verdicts(comparisonMode, cases) else before
      ensures solutionScore == ScoreOf(comparisonMode, cases) && timeLimit == totalTime && memoryLimit == maxMemory
    {
      hide *;
      AllCasesDone(before, comparisonMode, cases, caseScore);
      if errorCode == NO_ERROR_YET {
        errorCode := ACCEPT;
      }
      solutionScore := (totalScore as real / (caseScore * |cases|) as real * FULL_SCORE as real + 0.500001).Floor;
      memoryLimit := maxMemory;
      timeLimit := totalTime;
    }

    /** Runs all cases of the data directory, if it can be opened, in the order of their names. */
    method Judge(dir: Option<seq<TestCase>>) returns (outcome: Outcome)
      requires Comparison(comparisonMode) != SPECIAL
      modifies this
      ensures unchanged(`problem, `comparisonMode, `language, `solutionType, `targetPath, `timeStamp)
      ensures dir.None? || dir.value == [] ==>
                && outcome == Threw(if dir.None? then "Can't open data dir" else "Data folder is empty")
                && errorCode == SYSTEM_ERROR && lastState == "No data files"
                && unchanged(`detail, `solutionScore, `timeLimit, `memoryLimit)
      ensures dir.Some? && dir.value != [] ==>
                var cases, mode := dir.value, comparisonMode;
                var r := Runnable(cases);
                && detail == old(detail) + Reports(mode, Share(|cases|), cases[..r])
                && lastState == StateAfter(old(errorCode), old(lastState), mode, cases[..r])
                && (r < |cases| ==>
                      && outcome == Threw(cases[r].copyError.value)
                      && errorCode == ErrorAfter(old(errorCode), mode, cases[..r])
                      && unchanged(`solutionScore, `timeLimit, `memoryLimit))
                && (r == |cases| ==>
                      && outcome == Done
                      && errorCode == (if old(errorCode) == NO_ERROR_YET then Verdicts(mode, cases) else old(errorCode))
                      && solutionScore == ScoreOf(mode, cases)
                      && timeLimit == TotalTime(cases) && memoryLimit == MaxMemory(cases))
    {
      hide *;
      if dir.None? {
        errorCode, lastState := SYSTEM_ERROR, "No data files";
        return Threw("Can't open data dir");
      }
      var cases := dir.value;
      if cases == [] {
        errorCode, lastState := SYSTEM_ERROR, "No data files";
        return Threw("Data folder is empty");
      }
      var totalScore, totalTime, maxMemory := 0, 0, 0;
      ShareIs(|cases|);
      var caseScore := FULL_SCORE / |cases|;
      if caseScore <= 0 {
        caseScore := 1;
      }
      NoCaseYet(comparisonMode, caseScore, errorCode, lastState);
      assert cases[..0] == [];
      for i := 0 to |cases|
        invariant unchanged(`problem, `comparisonMode, `language, `solutionType, `targetPath, `timeStamp)
        invariant unchanged(`solutionScore, `timeLimit, `memoryLimit)
        invariant Runnable(cases) >= i
        invariant totalScore == Earned(comparisonMode, caseScore, cases[..i])
        invariant totalTime == TotalTime(cases[..i]) && maxMemory == MaxMemory(cases[..i])
        invariant detail == old(detail) + Reports(comparisonMode, caseScore, cases[..i])
        invariant errorCode == ErrorAfter(old(errorCode), comparisonMode, cases[..i])
        invariant lastState == StateAfter(old(errorCode), old(lastState), comparisonMode, cases[..i])
      {
        var c := cases[i];
        OneMoreCase(comparisonMode, caseScore, cases, i);
        ErrorOfOneMore(old(errorCode), old(lastState), comparisonMode, cases, i);
        if c.copyError.Some? {
          return Threw(c.copyError.value);
        }
        var getScore := ReportCase(c, caseScore);
        totalScore := totalScore + getScore;
        totalTime := totalTime + c.run.time;
        if c.run.memory > maxMemory {
          maxMemory := c.run.memory;
        }
      }
      assert cases[..|cases|] == cases;
      KeepResult(cases, old(errorCode), totalScore, caseScore, totalTime, maxMemory);
      outcome := Done;
    }
  }
}
