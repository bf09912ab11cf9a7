/** Whole runs of the scoreboard: submits, rejudge row updates and refreshes in any order, any of which may
    stop after one of its statements. */
module ScoreboardRuns {
  import opened Totals
  import opened Scoreboard
  import opened ScoreboardSubmit

  datatype Event =
    | Submitted(sub: Submission, stop: nat)
    | Rejudged(id: nat, time: int, memory: int, result: int, score: int)
    | Refreshed(q: nat, stop: nat)

  function Next(t: Tables, e: Event): Tables {
    match e
    case Submitted(sub, stop) => Submit(t, sub, stop)
    case Rejudged(id, time, memory, result, score) => UpdateSolution(t, id, time, memory, result, score)
    case Refreshed(q, stop) => Refresh(t, q, stop)
  }

  function Run(t: Tables, es: seq<Event>): Tables {
    if es == [] then t else Next(Run(t, es[..|es| - 1]), es[|es| - 1])
  }

  lemma RunTwo(t: Tables, first: Event, second: Event)
    ensures Run(t, [first, second]) == Next(Next(t, first), second)
  {
    hide Next;
    assert [first, second][..1] == [first] && [first][..0] == [];
    assert Run(t, []) == t;
    assert Run(t, [first]) == Next(t, first);
  }

  /** Without a user name nothing is written. */
  lemma NamelessSubmit(t: Tables, sub: Submission, k: nat)
    requires sub.uid == ""
    ensures Submit(t, sub, k) == t
  {
  }

  /** Tables before the first submission: every counter is zero. */
  ghost predicate Fresh(t: Tables) {
    && t.rows == [] && t.compileInfo == [] && t.sources == map[]
    && (forall u :: u in t.users ==> t.users[u] == User(0, 0, 0, 0, t.users[u].language))
    && (forall p :: p in t.problems ==> t.problems[p] == Problem(0, 0, 0, 0))
  }

  // ----- Runs of complete submits -----

  predicate CompleteSubmit(t: Tables, e: Event) {
    e.Submitted? && e.stop == STATEMENTS && e.sub.score >= 0 && e.sub.pid in t.experience
  }

  lemma FreshTotals(t: Tables)
    requires Fresh(t)
    ensures Total(SubmitsByUser(t)) == Total(SolvedByUser(t)) == 0
    ensures Total(SubmitsByProblem(t)) == Total(SolvedByProblem(t)) == 0
  {
    TotalZero(SubmitsByUser(t));
    TotalZero(SolvedByUser(t));
    TotalZero(SubmitsByProblem(t));
    TotalZero(SolvedByProblem(t));
  }

  lemma FreshConsistent(t: Tables)
    requires Fresh(t)
    ensures Consistent(t)
  {
    forall u | u in t.users ensures UserExact(t, u) {
      assert BestScores(t.rows, u) == map[] && Rewards(ProblemsSolved(t.rows, u), t.experience) == map[];
    }
  }

  /** After every run of complete submits each kept aggregate equals its recomputation from the rows. */
  lemma {:induction false} SubmitRunConsistent(t: Tables, es: seq<Event>)
    requires Consistent(t)
    requires forall e :: e in es ==> CompleteSubmit(t, e)
    ensures Consistent(Run(t, es)) && Run(t, es).experience == t.experience
  {
    if es != [] {
      var front, e := es[..|es| - 1], es[|es| - 1];
      SubmitRunConsistent(t, front);
      assert CompleteSubmit(t, e);
      SubmitConsistentIff(Run(t, front), e.sub);
      SubmitKeys(Run(t, front), e.sub);
    }
  }

  ghost function SolvedByUser(t: Tables): map<string, int> { map u | u in t.users :: t.users[u].solved }
  ghost function SolvedByProblem(t: Tables): map<nat, int> { map p | p in t.problems :: t.problems[p].solved }
  ghost function SubmitsByUser(t: Tables): map<string, int> { map u | u in t.users :: t.users[u].submit }
  ghost function SubmitsByProblem(t: Tables): map<nat, int> { map p | p in t.problems :: t.problems[p].submit }

  predicate Listed(t: Tables, sub: Submission) {
    sub.uid in t.users && sub.pid in t.experience && sub.pid in t.problems
  }

  lemma InsertsPrefix(t: Tables, sub: Submission, plan: Plan, k: nat)
    ensures var t' := RunInserts(t, sub, plan, k);
            && t'.rows == (if k >= 2 then t.rows + [NewRow(sub, plan)] else t.rows)
            && t'.sources == (if k >= 3 then t.sources[plan.id := sub.code] else t.sources)
            && t'.users == t.users && t'.problems == t.problems && t'.experience == t.experience
  {
    hide NewRow, InsertCompileInfo, InsertSolution, InsertSource;
    InsertFields(t, sub, plan);
    InsertFields(InsertCompileInfo(t, sub, plan), sub, plan);
    InsertFields(InsertSolution(InsertCompileInfo(t, sub, plan), sub, plan), sub, plan);
  }

  /** Each insert adds to its own table. */
  lemma InsertFields(t: Tables, sub: Submission, plan: Plan)
    ensures var t' := InsertCompileInfo(t, sub, plan); t' == t.(compileInfo := t'.compileInfo)
    ensures InsertSolution(t, sub, plan) == t.(rows := t.rows + [NewRow(sub, plan)])
    ensures InsertSource(t, sub, plan) == t.(sources := t.sources[plan.id := sub.code])
  {
    hide NewRow;
  }

  /** Where a write that stops before its last statement leaves the tables. */
  lemma RunEarly(t: Tables, sub: Submission, plan: Plan, k: nat)
    requires k < 5
    ensures var t' := RunStatements(t, sub, plan, k);
            && t'.rows == (if k >= 2 then t.rows + [NewRow(sub, plan)] else t.rows)
            && t'.sources == (if k >= 3 then t.sources[plan.id := sub.code] else t.sources)
            && t'.users == (if k >= 4 then UpdateUser(t, sub, plan).users else t.users)
            && t'.problems == t.problems
            && t'.experience == t.experience
  {
    hide RunInserts, HaveSubmitted, NewRow, FirstSolved;
    InsertsPrefix(t, sub, plan, k);
  }

  /** Where a stopped write leaves the tables. */
  lemma RunPrefix(t: Tables, sub: Submission, plan: Plan, k: nat)
    ensures var t' := RunStatements(t, sub, plan, k);
            && t'.rows == (if k >= 2 then t.rows + [NewRow(sub, plan)] else t.rows)
            && t'.sources == (if k >= 3 then t.sources[plan.id := sub.code] else t.sources)
            && t'.users == (if k >= 4 then UpdateUser(t, sub, plan).users else t.users)
            && t'.users.Keys == t.users.Keys
            && t'.experience == t.experience
            && t'.problems.Keys == t.problems.Keys
            && (k < 5 ==> t'.problems == t.problems)
  {
    if k < 5 {
      hide RunStatements;
      RunEarly(t, sub, plan, k);
    } else {
      hide HaveSubmitted, NewRow, FirstSolved;
      RunFour(t, sub, plan);
      RunEarly(t, sub, plan, 4);
      assert RunStatements(t, sub, plan, k) == UpdateProblem(RunStatements(t, sub, plan, 4), sub, plan);
    }
  }

  lemma UserTotals(t: Tables, t': Tables, u: string, after: User)
    requires u in t.users && t'.users == t.users[u := after]
    ensures Total(SubmitsByUser(t')) == Total(SubmitsByUser(t)) + after.submit - t.users[u].submit
    ensures Total(SolvedByUser(t')) == Total(SolvedByUser(t)) + after.solved - t.users[u].solved
  {
    assert SubmitsByUser(t') == SubmitsByUser(t)[u := after.submit];
    assert SolvedByUser(t') == SolvedByUser(t)[u := after.solved];
    TotalUpdate(SubmitsByUser(t), u, after.submit);
    TotalUpdate(SolvedByUser(t), u, after.solved);
  }

  lemma ProblemTotals(t: Tables, t': Tables, p: nat, after: Problem)
    requires p in t.problems && t'.problems == t.problems[p := after]
    ensures Total(SubmitsByProblem(t')) == Total(SubmitsByProblem(t)) + after.submit - t.problems[p].submit
    ensures Total(SolvedByProblem(t')) == Total(SolvedByProblem(t)) + after.solved - t.problems[p].solved
  {
    assert SubmitsByProblem(t') == SubmitsByProblem(t)[p := after.submit];
    assert SolvedByProblem(t') == SolvedByProblem(t)[p := after.solved];
    TotalUpdate(SubmitsByProblem(t), p, after.submit);
    TotalUpdate(SolvedByProblem(t), p, after.solved);
  }

  /** The problem counters after a write that got to its last statement. */
  lemma LastStatement(t: Tables, sub: Submission, plan: Plan, k: nat)
    requires k >= 5
    ensures var t' := RunStatements(t, sub, plan, k);
            t'.problems == UpdateProblem(t.(rows := t.rows + [NewRow(sub, plan)]), sub, plan).problems
  {
    RunAll(t, sub, plan);
  }

  /** What a stopped write does to the four totals. */
  lemma TotalsStep(t: Tables, sub: Submission, k: nat)
    requires sub.uid != "" && Listed(t, sub)
    ensures var t' := Submit(t, sub, k);
            var first := FirstSolved(sub, MakePlan(t.rows, sub));
            && Total(SubmitsByUser(t')) == Total(SubmitsByUser(t)) + (if k >= 4 then 1 else 0)
            && Total(SolvedByUser(t')) == Total(SolvedByUser(t)) + (if k >= 4 then first else 0)
            && Total(SubmitsByProblem(t')) == Total(SubmitsByProblem(t)) + (if k >= 5 then 1 else 0)
            && Total(SolvedByProblem(t')) == Total(SolvedByProblem(t)) + (if k >= 5 then first else 0)
  {
    hide HaveSubmitted, Total, MakePlan, NewRow, FirstSolved, RunStatements;
    var t', plan := Submit(t, sub, k), MakePlan(t.rows, sub);
    RunPrefix(t, sub, plan, k);
    if k >= 4 {
      UserTotals(t, t', sub.uid, t'.users[sub.uid]);
    }
    if k >= 5 {
      LastStatement(t, sub, plan, k);
      ProblemTotals(t, t', sub.pid, t'.problems[sub.pid]);
    }
  }

  /** Both `solved` columns add up to the same number after any run of complete, listed submits. */
  lemma {:induction false} SolvedTotalsAgree(t: Tables, es: seq<Event>)
    requires Fresh(t)
    requires forall e :: e in es ==> CompleteSubmit(t, e) && Listed(t, e.sub)
    ensures var t' := Run(t, es);
            && Total(SolvedByUser(t')) == Total(SolvedByProblem(t'))
            && t'.users.Keys == t.users.Keys && t'.problems.Keys == t.problems.Keys && t'.experience == t.experience
  {
    if es == [] {
      FreshTotals(t);
    } else {
      var front, e := es[..|es| - 1], es[|es| - 1];
      var before := Run(t, front);
      SolvedTotalsAgree(t, front);
      assert CompleteSubmit(t, e) && Listed(t, e.sub);
      SubmitKeys(before, e.sub);
      if e.sub.uid != "" {
        TotalsStep(before, e.sub, STATEMENTS);
      }
    }
  }

  // ----- Settled problems -----

  /** What judging guarantees of a result and its score. */
  predicate Judged(result: int, score: int) {
    0 <= score <= 100 && (result == ACCEPT ==> score == 100)
  }

  lemma {:induction false} RowsJudged(t: Tables, es: seq<Event>)
    requires forall r :: r in t.rows ==> Judged(r.result, r.score)
    requires forall e :: e in es ==> CompleteSubmit(t, e) && Judged(e.sub.result, e.sub.score)
    ensures forall r :: r in Run(t, es).rows ==> Judged(r.result, r.score)
  {
    if es != [] {
      var front, e := es[..|es| - 1], es[|es| - 1];
      RowsJudged(t, front);
      assert CompleteSubmit(t, e) && Judged(e.sub.result, e.sub.score);
      if e.sub.uid != "" {
        SubmitFull(Run(t, front), e.sub);
      }
    }
  }

  /** In runs of judged submits an accepted problem is settled: a later submit by the same user to it changes
      nobody's score, solved or experience, and no problem's solved or submit_user. */
  lemma AcceptedIsSettled(t: Tables, es: seq<Event>, sub: Submission)
    requires Fresh(t)
    requires forall e :: e in es ==> CompleteSubmit(t, e) && Judged(e.sub.result, e.sub.score)
    requires sub.uid != "" && Judged(sub.result, sub.score)
    requires HaveSolved(Run(t, es).rows, sub.pid, sub.uid)
    ensures var before := Run(t, es);
            var after := Submit(before, sub, STATEMENTS);
            && (forall u | u in before.users :: u in after.users && after.users[u].score == before.users[u].score &&
                  after.users[u].solved == before.users[u].solved &&
                  after.users[u].experience == before.users[u].experience)
            && (forall p | p in before.problems :: p in after.problems &&
                  after.problems[p].solved == before.problems[p].solved &&
                  after.problems[p].submitUser == before.problems[p].submitUser)
  {
    RowsJudged(t, es);
    SettledSubmit(Run(t, es), sub);
  }

  // ----- Writes that stop halfway -----

  ghost predicate UserBounded(t: Tables, u: string)
    requires u in t.users
  {
    && t.users[u].submit <= Count(t.rows, RowsOfUser(u))
    && t.users[u].solved <= |ProblemsSolved(t.rows, u)|
    && t.users[u].score <= UserScore(t.rows, u)
  }

  ghost predicate ProblemBounded(t: Tables, p: nat)
    requires p in t.problems
  {
    && t.problems[p].submit <= Count(t.rows, RowsOfProblem(p))
    && t.problems[p].accepted <= Count(t.rows, AcceptedRows(p))
    && t.problems[p].submitUser <= |Triers(t.rows, p)|
    && t.problems[p].solved <= |Solvers(t.rows, p)|
  }

  /** No counter is ahead of the rows. */
  ghost predicate Bounded(t: Tables) {
    && (forall u :: u in t.users ==> UserBounded(t, u))
    && (forall p :: p in t.problems ==> ProblemBounded(t, p))
  }

  /** Each statement is at most as far as the one before it. */
  ghost predicate Ordered(t: Tables) {
    && SourcesHaveRows(t)
    && |t.rows| >= |t.sources| >= Total(SubmitsByUser(t)) >= Total(SubmitsByProblem(t))
    && Total(SolvedByUser(t)) >= Total(SolvedByProblem(t))
  }

  lemma StoppedUser(t: Tables, sub: Submission, k: nat, u: string)
    requires sub.uid != "" && u in t.users && UserBounded(t, u)
    requires sub.score >= 0 || HasRow(t.rows, sub.pid, sub.uid)
    ensures var t' := Submit(t, sub, k); u in t'.users && UserBounded(t', u)
  {
    hide HaveSolved, ScoreDelta, HasRow, UserScore, UserExperience, Count, ProblemsSolved, RunStatements;
    var plan := MakePlan(t.rows, sub);
    var r := NewRow(sub, plan);
    RunPrefix(t, sub, plan, k);
    UserTruth(t.rows, r, u, t.experience);
    GainIsDelta(t.rows, sub, r);
    GainNotNegative(t.rows, r);
  }

  lemma GainNotNegative(rows: seq<Row>, r: Row)
    requires r.score >= 0 || HasRow(rows, r.pid, r.uid)
    ensures Gain(rows, r) >= 0
  {
  }

  lemma StoppedProblem(t: Tables, sub: Submission, k: nat, p: nat)
    requires sub.uid != "" && p in t.problems && ProblemBounded(t, p)
    ensures var t' := Submit(t, sub, k); p in t'.problems && ProblemBounded(t', p)
  {
    hide HaveSolved, HasRow, HaveSubmitted, Count, Solvers, Triers, RunStatements;
    var plan := MakePlan(t.rows, sub);
    var r := NewRow(sub, plan);
    RunPrefix(t, sub, plan, k);
    ProblemTruth(t.rows, r, p);
    if k >= 5 {
      LastStatement(t, sub, plan, k);
      FirstTry(t, sub);
    }
  }

  predicate HasId(rows: seq<Row>, id: nat) {
    exists r :: r in rows && r.id == id
  }

  /** Every source has a row, and there are at least as many rows. */
  ghost predicate SourcesHaveRows(t: Tables) {
    (forall id :: id in t.sources ==> HasId(t.rows, id)) && |t.rows| >= |t.sources|
  }

  lemma HasIdAppend(rows: seq<Row>, r: Row, id: nat)
    ensures HasId(rows + [r], id) <==> HasId(rows, id) || r.id == id
  {
    assert forall x :: x in rows + [r] <==> x in rows || x == r;
  }

  lemma AddSource(rows: seq<Row>, sources: map<nat, string>, sub: Submission, plan: Plan)
    requires forall id :: id in sources ==> HasId(rows, id)
    requires !HasId(rows, plan.id)
    ensures var sources' := sources[plan.id := sub.code];
            |sources'| == |sources| + 1 &&
            (forall id :: id in sources' ==> HasId(rows + [NewRow(sub, plan)], id))
  {
    hide HasId;
    assert sources[plan.id := sub.code].Keys == sources.Keys + {plan.id};
    assert |sources.Keys + {plan.id}| == |sources.Keys| + 1;
    forall id | id in sources[plan.id := sub.code] ensures HasId(rows + [NewRow(sub, plan)], id) {
      HasIdAppend(rows, NewRow(sub, plan), id);
    }
  }

  lemma StoppedSources(t: Tables, sub: Submission, k: nat)
    requires sub.uid != "" && SourcesHaveRows(t)
    ensures var t' := Submit(t, sub, k);
            SourcesHaveRows(t') && |t'.sources| == |t.sources| + if k >= 3 then 1 else 0
  {
    var t', plan := Submit(t, sub, k), MakePlan(t.rows, sub);
    assert !HasId(t.rows, plan.id);
    hide RunStatements, UpdateUser, MakePlan, NewRow, HasId;
    RunPrefix(t, sub, plan, k);
    forall id | k == 2 && id in t.sources ensures HasId(t'.rows, id) {
      HasIdAppend(t.rows, NewRow(sub, plan), id);
    }
    AddSource(t.rows, t.sources, sub, plan);
  }

  lemma StoppedOrder(t: Tables, sub: Submission, k: nat)
    requires sub.uid != "" && Listed(t, sub) && Ordered(t)
    ensures Ordered(Submit(t, sub, k))
  {
    hide SourcesHaveRows, Total, Submit, MakePlan;
    StoppedSources(t, sub, k);
    StoppedRows(t, sub, k);
    TotalsStep(t, sub, k);
  }

  lemma StoppedRows(t: Tables, sub: Submission, k: nat)
    requires sub.uid != ""
    ensures |Submit(t, sub, k).rows| == |t.rows| + if k >= 2 then 1 else 0
  {
    hide RunStatements, MakePlan;
    RunPrefix(t, sub, MakePlan(t.rows, sub), k);
  }

  /** Over every run of submits that may each stop after any statement, no counter passes the rows. */
  lemma {:induction false} StoppedRunBounded(t: Tables, es: seq<Event>)
    requires Fresh(t)
    requires forall e :: e in es ==> e.Submitted? && e.sub.score >= 0
    ensures Bounded(Run(t, es))
  {
    if es == [] {
      FreshBounded(t);
    } else {
      var front, e := es[..|es| - 1], es[|es| - 1];
      StoppedRunBounded(t, front);
      assert e.Submitted? && e.sub.score >= 0;
      if e.sub.uid != "" {
        StoppedBounded(Run(t, front), e.sub, e.stop);
      }
    }
  }

  /** And if users and problems of all submits are in their tables, the statements keep their order in the totals. */
  lemma {:induction false} StoppedRunOrdered(t: Tables, es: seq<Event>)
    requires Fresh(t)
    requires forall e :: e in es ==> e.Submitted? && Listed(t, e.sub)
    ensures var t' := Run(t, es);
            && Ordered(t')
            && t'.users.Keys == t.users.Keys && t'.problems.Keys == t.problems.Keys && t'.experience == t.experience
  {
    if es == [] {
      FreshTotals(t);
    } else {
      var front, e := es[..|es| - 1], es[|es| - 1];
      StoppedRunOrdered(t, front);
      var before := Run(t, front);
      assert Listed(t, e.sub);
      if e.sub.uid != "" {
        RunPrefix(before, e.sub, MakePlan(before.rows, e.sub), e.stop);
        StoppedOrder(before, e.sub, e.stop);
      }
    }
  }

  lemma FreshBounded(t: Tables)
    requires Fresh(t)
    ensures Bounded(t)
  {
    FreshConsistent(t);
    forall u | u in t.users ensures UserBounded(t, u) { assert UserExact(t, u); }
    forall p | p in t.problems ensures ProblemBounded(t, p) { assert ProblemExact(t, p); }
  }

  lemma StoppedBounded(t: Tables, sub: Submission, k: nat)
    requires sub.uid != "" && sub.score >= 0 && Bounded(t)
    ensures Bounded(Submit(t, sub, k))
  {
    hide HasRow, RunStatements;
    var t' := Submit(t, sub, k);
    RunPrefix(t, sub, MakePlan(t.rows, sub), k);
    forall u | u in t'.users ensures UserBounded(t', u) {
      StoppedUser(t, sub, k, u);
    }
    forall p | p in t'.problems ensures ProblemBounded(t', p) {
      StoppedProblem(t, sub, k, p);
    }
  }
}
