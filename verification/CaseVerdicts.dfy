/** What decides one test case: the comparison mode and the two files, in the codes and texts a client sees. */
module CaseVerdicts {
  import opened Wrappers
  import opened CFile
  import opened Texts
  import opened Scoring
  import Jobs
  import LineValidator
  import LineVerdicts

  /** A run to its end with both files there. */
  predicate Compares(c: TestCase) {
    c.run.status == Exited && c.answer.Some? && c.output.Some?
  }

  /** The upper half of the mode chooses the comparison, whatever the lower half is: 0 the lines of the two files, 1 and
      2 the numeric ones, and every other but the special judge's 3 none at all. */
  lemma ModeDecides(kind: int, low: int, c: TestCase)
    requires 0 <= low < 65536 && Compares(c)
    ensures var mode, std, user := 65536 * kind + low, c.answer.value, c.output.value;
            && (kind == 0 ==> (Passes(mode, c) <==> LineValidator.Judgement(std, user) == IDENTICAL))
            && (kind == 1 || kind == 2 ==> (Passes(mode, c) <==> c.numeric == IDENTICAL))
            && (kind != 0 && kind != 1 && kind != 2 ==> !Passes(mode, c))
    ensures var mode := 65536 * kind + low;
            && (Passes(mode, c) ==> Status(mode, c) == 0 && Tips(mode, c) == "Good Job!")
            && (kind < 0 || kind > 3 ==> Status(mode, c) == 99 && Tips(mode, c) == "Please contact administrator.")
  {
    assert (65536 * kind + low) / 65536 == kind;
    hide LineValidator.Judgement;
  }

  /** The code and the text that go with each outcome of the comparison chosen. */
  lemma OutcomeDecides(kind: int, low: int, c: TestCase, v: Verdict)
    requires 0 <= low < 65536 && 0 <= kind <= 2 && Compares(c)
    requires v == (if kind == 0 then LineValidator.Judgement(c.answer.value, c.output.value) else c.numeric)
    ensures var mode := 65536 * kind + low;
            && Status(mode, c) == (if v == IDENTICAL then 0 else if v == FUCKED then 99 else 4)
            && (v == MISMATCH ==> Tips(mode, c) == "Output mismatch.\nYours: " + c.yours + "\nAnswer: " + c.standard)
            && (v == LONGER ==> Tips(mode, c) == "Your output is longer than standard output.")
            && (v == SHORTER ==> Tips(mode, c) == "Your output is shorter than standard output.")
  {
    hide LineValidator.Judgement;
    assert Comparison(65536 * kind + low) == kind;
    hide Comparison;
  }

  /** In the traditional mode, for files without NUL bytes: fewer lines are too short an output, more too long a one.
      With equally many lines, none of them trimmed to two bytes, the case passes exactly if they agree but for white
      space at their ends, and otherwise the two excerpts are shown. */
  lemma FilesDecide(low: int, c: TestCase)
    requires 0 <= low < 65536 && Compares(c)
    requires NUL !in c.answer.value && NUL !in c.output.value
    ensures var std, user := Lines(c.answer.value), Lines(c.output.value);
            && (Counted(user) < Counted(std) ==>
                  Status(low, c) == 4 && Tips(low, c) == "Your output is shorter than standard output.")
            && (Counted(user) > Counted(std) ==>
                  Status(low, c) == 4 && Tips(low, c) == "Your output is longer than standard output.")
            && (Counted(user) == Counted(std) && !LineVerdicts.HasPair(c.answer.value) &&
                !LineVerdicts.HasPair(c.output.value) ==>
                  if forall x | 0 <= x < Counted(std) :: RTrim(std[x]) == RTrim(user[x])
                  then Status(low, c) == 0 && Tips(low, c) == "Good Job!"
                  else Status(low, c) == 4 &&
                       Tips(low, c) == "Output mismatch.\nYours: " + c.yours + "\nAnswer: " + c.standard)
  {
    hide Status, Tips, Passes, LineValidator.Judgement, LineVerdicts.HasPair, Lines, RTrim, Counted,
      LineValidator.Effective;
    var std, user := c.answer.value, c.output.value;
    LinesDecide(low, c);
    LineVerdicts.IdenticalIff(std, user);
    if !LineVerdicts.HasPair(std) && !LineVerdicts.HasPair(user) && Counted(Lines(std)) == Counted(Lines(user)) {
      IntendedLines(std, user);
    }
  }

  lemma LinesDecide(low: int, c: TestCase)
    requires 0 <= low < 65536 && Compares(c)
    ensures var v := LineValidator.Judgement(c.answer.value, c.output.value);
            && Status(low, c) == (if v == IDENTICAL then 0 else if v == FUCKED then 99 else 4)
            && (v == IDENTICAL ==> Tips(low, c) == "Good Job!")
            && (v == MISMATCH ==> Tips(low, c) == "Output mismatch.\nYours: " + c.yours + "\nAnswer: " + c.standard)
            && (v == LONGER ==> Tips(low, c) == "Your output is longer than standard output.")
            && (v == SHORTER ==> Tips(low, c) == "Your output is shorter than standard output.")
  {
    hide Passes, Status, Tips, LineValidator.Judgement;
    OutcomeDecides(0, low, c, LineValidator.Judgement(c.answer.value, c.output.value));
    ModeDecides(0, low, c);
  }

  /** With equally many lines and none trimmed to two bytes the verdict is about the lines without their ends. */
  lemma IntendedLines(std: Text, user: Text)
    requires NUL !in std && NUL !in user && !LineVerdicts.HasPair(std) && !LineVerdicts.HasPair(user)
    requires Counted(Lines(std)) == Counted(Lines(user))
    ensures LineValidator.Judgement(std, user) ==
            if forall x | 0 <= x < Counted(Lines(std)) :: RTrim(Lines(std)[x]) == RTrim(Lines(user)[x])
            then IDENTICAL else MISMATCH
  {
    hide LineValidator.Judgement, LineVerdicts.HasPair, Lines, RTrim, LineValidator.LineCount, Counted;
    LineVerdicts.IntendedWithoutPairs(std, user);
    LineVerdicts.CountWithoutNul(std);
    LineVerdicts.CountWithoutNul(user);
  }

  /** A case without a comparison: the code and text for each way it can end. */
  lemma OtherwiseDecided(mode: int, c: TestCase)
    requires !Compares(c)
    ensures var r := c.run;
            (Status(mode, c), Tips(mode, c)) ==
            if r.status == Exited then (4, if c.answer.None? then "No answer file" else "Cannot find output file.")
            else if r.status == TimeLimitExceeded then (2, "")
            else if r.status == MemoryLimitExceeded then (3, "")
            else if r.status == Failed then (100, "System Error.")
            else (5, r.message)
    ensures !Passes(mode, c)
  {
  }

  /** Which bytes do not count at the end of a line: blank, tab, line feed, vertical tab, form feed, carriage return. */
  lemma BlankBytes(line: Text, b: Byte)
    ensures RTrim(line + [b]) == if b in [32, 9, 10, 11, 12, 13] then RTrim(line) else line + [b]
  {
    var longer := line + [b];
    assert longer[..|line|] == line;
  }

  // ----- All cases together -----

  /** The first case that fails gives code and text, whatever the later ones do. */
  lemma FirstFailureDecides(mode: int, cases: seq<TestCase>, state: string, f: nat)
    requires f < |cases| && !Passes(mode, cases[f]) && forall i :: 0 <= i < f ==> Passes(mode, cases[i])
    ensures Verdicts(mode, cases) == Status(mode, cases[f])
    ensures StateAfter(-1, state, mode, cases) == Tips(mode, cases[f])
  {
    FailureIsNoMark(mode, cases[f]);
    var g := FirstFailure(mode, cases);
    assert g == f;
    hide Passes, Status, Tips, FirstFailure;
  }

  /** A verdict from before, as of a failed compilation, stays with its text. */
  lemma EarlierVerdictStays(mode: int, cases: seq<TestCase>, before: int, state: string)
    requires before != -1
    ensures ErrorAfter(before, mode, cases) == before && StateAfter(before, state, mode, cases) == state
  {
  }

  /** Every case has its report, in the order of the cases. */
  lemma {:induction false} ReportsAt(mode: int, share: int, cases: seq<TestCase>)
    ensures |Reports(mode, share, cases)| == |cases|
    ensures forall i :: 0 <= i < |cases| ==>
              var c := cases[i];
              var points := if Passes(mode, c) then share else 0;
              Reports(mode, share, cases)[i] ==
              Jobs.Report(Status(mode, c), c.run.time, c.run.memory, Tips(mode, c), points)
  {
    hide Status, Tips, Passes;
    if cases != [] {
      ReportsAt(mode, share, cases[..|cases| - 1]);
    }
  }

  lemma {:induction false} TotalTimeOf(a: seq<TestCase>, b: seq<TestCase>)
    ensures TotalTime(a + b) == TotalTime(a) + TotalTime(b)
    ensures |b| == 1 ==> TotalTime(b) == b[0].run.time
  {
    if b == [] {
      assert a + b == a;
    } else {
      TotalTimeOf(a, b[..|b| - 1]);
      assert (a + b)[..|a + b| - 1] == a + b[..|b| - 1];
    }
  }

  /** The passing cases, counted as a set of places. */
  lemma {:induction false} AcceptedCounts(mode: int, cases: seq<TestCase>)
    ensures Accepted(mode, cases) == |PassingPlaces(mode, cases)|
  {
    hide Passes;
    if cases != [] {
      var n := |cases| - 1;
      AcceptedCounts(mode, cases[..n]);
      assert PassingPlaces(mode, cases) ==
             PassingPlaces(mode, cases[..n]) + if Passes(mode, cases[n]) then {n} else {};
    }
  }

  ghost function PassingPlaces(mode: int, cases: seq<TestCase>): set<nat> {
    set i: nat | i < |cases| && Passes(mode, cases[i])
  }

  /** A case is worth as many whole points as fit into 100, and one if none does. */
  lemma ShareFits(n: nat)
    requires n >= 1
    ensures n <= 100 ==> Share(n) * n <= 100 < (Share(n) + 1) * n
    ensures n > 100 ==> Share(n) == 1
  {
  }
}
