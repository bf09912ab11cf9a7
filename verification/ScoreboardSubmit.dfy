/** What one database write does to the aggregates: the deltas it applies are the changes of the
    recomputed values, and this is so exactly under a condition on the submission. */
module ScoreboardSubmit {
  import opened Totals
  import opened Scoreboard

  // ----- Effect of one more row on each recomputed value -----

  lemma CountAppend(rows: seq<Row>, r: Row, f: Row -> bool)
    ensures Count(rows + [r], f) == Count(rows, f) + if f(r) then 1 else 0
  {
    assert (rows + [r])[..|rows|] == rows;
  }

  lemma SetsAppend(rows: seq<Row>, r: Row, p: nat, u: string)
    ensures ProblemsTried(rows + [r], u) == Added(ProblemsTried(rows, u), r.pid, r.uid == u)
    ensures ProblemsSolved(rows + [r], u) == Added(ProblemsSolved(rows, u), r.pid, r.uid == u && r.result == ACCEPT)
    ensures Triers(rows + [r], p) == Added(Triers(rows, p), r.uid, r.pid == p)
    ensures Solvers(rows + [r], p) == Added(Solvers(rows, p), r.uid, r.pid == p && r.result == ACCEPT)
  {
    assert (rows + [r])[..|rows|] == rows;
  }

  /** By how much a further row raises its user's true score. */
  function Gain(rows: seq<Row>, r: Row): int {
    match MaxScore(rows, r.pid, r.uid)
    case None => r.score
    case Some(m) => if r.score > m then r.score - m else 0
  }

  lemma UserScoreAppend(rows: seq<Row>, r: Row, u: string)
    ensures UserScore(rows + [r], u) == UserScore(rows, u) + if u == r.uid then Gain(rows, r) else 0
  {
    hide SumValues, Total, HasRow;
    assert (rows + [r])[..|rows|] == rows;
    TotalUpdate(BestScores(rows, u), r.pid, r.score);
  }

  lemma RewardsAdd(solved: set<nat>, p: nat, experience: map<nat, int>)
    ensures Rewards(solved + {p}, experience) ==
            if p in experience then Rewards(solved, experience)[p := experience[p]] else Rewards(solved, experience)
  {
  }

  lemma UserExperienceAppend(rows: seq<Row>, r: Row, u: string, experience: map<nat, int>)
    ensures UserExperience(rows + [r], u, experience) == UserExperience(rows, u, experience) +
            if u == r.uid && r.result == ACCEPT && !HaveSolved(rows, r.pid, u) && r.pid in experience
            then experience[r.pid] else 0
  {
    hide SumValues, Total, HaveSolved;
    var solved := ProblemsSolved(rows, u);
    SetsAppend(rows, r, r.pid, u);
    RewardsAdd(solved, r.pid, experience);
    if r.pid in experience {
      TotalUpdate(Rewards(solved, experience), r.pid, experience[r.pid]);
    }
  }

  lemma ValidAppend(rows: seq<Row>, r: Row)
    requires ValidExact(rows)
    ensures ValidExact(rows + [r]) <==> (r.valid <==> r.result == ACCEPT && !HaveSolved(rows, r.pid, r.uid))
  {
    var rows' := rows + [r];
    forall i | 0 <= i < |rows'| ensures rows'[..i] == if i < |rows| then rows[..i] else rows {}
    assert rows'[|rows|] == r;
    forall i | 0 <= i < |rows| ensures rows'[i].valid <==> FirstAccepted(rows', i) {
      assert rows[i].valid <==> FirstAccepted(rows, i);
    }
  }

  /** All changes of one user's true values at once. */
  lemma UserTruth(rows: seq<Row>, r: Row, u: string, experience: map<nat, int>)
    ensures var own, first := u == r.uid, r.result == ACCEPT && !HaveSolved(rows, r.pid, r.uid);
            && Count(rows + [r], RowsOfUser(u)) == Count(rows, RowsOfUser(u)) + (if own then 1 else 0)
            && |ProblemsSolved(rows + [r], u)| == |ProblemsSolved(rows, u)| + (if own && first then 1 else 0)
            && UserScore(rows + [r], u) == UserScore(rows, u) + (if own then Gain(rows, r) else 0)
            && UserExperience(rows + [r], u, experience) == UserExperience(rows, u, experience) +
               if own && first && r.pid in experience then experience[r.pid] else 0
  {
    hide Total, SumValues, UserScore, UserExperience, Gain, HaveSolved;
    CountAppend(rows, r, RowsOfUser(u));
    UserScoreAppend(rows, r, u);
    UserExperienceAppend(rows, r, u, experience);
    SetsAppend(rows, r, r.pid, u);
  }

  lemma ProblemTruth(rows: seq<Row>, r: Row, p: nat)
    ensures var own, accepted := p == r.pid, r.result == ACCEPT;
            && Count(rows + [r], RowsOfProblem(p)) == Count(rows, RowsOfProblem(p)) + (if own then 1 else 0)
            && Count(rows + [r], AcceptedRows(p)) == Count(rows, AcceptedRows(p)) + (if own && accepted then 1 else 0)
            && |Triers(rows + [r], p)| == |Triers(rows, p)| + (if own && !HasRow(rows, p, r.uid) then 1 else 0)
            && |Solvers(rows + [r], p)| ==
               |Solvers(rows, p)| + if own && accepted && !HaveSolved(rows, p, r.uid) then 1 else 0
  {
    CountAppend(rows, r, RowsOfProblem(p));
    CountAppend(rows, r, AcceptedRows(p));
    SetsAppend(rows, r, p, r.uid);
  }

  // ----- The whole write -----

  /** The first four statements leave the problem counters alone. */
  lemma RunFour(t: Tables, sub: Submission, plan: Plan)
    ensures var t4 := RunStatements(t, sub, plan, 4);
            && t4.rows == t.rows + [NewRow(sub, plan)]
            && t4.users == UpdateUser(t, sub, plan).users
            && t4.problems == t.problems
            && t4.experience == t.experience
            && RunStatements(t, sub, plan, STATEMENTS) == UpdateProblem(t4, sub, plan)
  {
    ThreeInserts(t, sub, plan);
    hide HaveSubmitted, NewRow, UpdateProblem, RunInserts;
  }

  lemma ThreeInserts(t: Tables, sub: Submission, plan: Plan)
    ensures RunInserts(t, sub, plan, 4) == RunInserts(t, sub, plan, 5)
    ensures var t3 := RunInserts(t, sub, plan, 4);
            && t3.rows == t.rows + [NewRow(sub, plan)]
            && t3.users == t.users && t3.problems == t.problems && t3.experience == t.experience
  {
    hide NewRow;
  }

  lemma RunAll(t: Tables, sub: Submission, plan: Plan)
    ensures var t' := RunStatements(t, sub, plan, STATEMENTS);
            && t'.rows == t.rows + [NewRow(sub, plan)]
            && t'.users == UpdateUser(t, sub, plan).users
            && t'.problems == UpdateProblem(t.(rows := t.rows + [NewRow(sub, plan)]), sub, plan).problems
            && t'.experience == t.experience
  {
    hide HaveSubmitted, NewRow, RunStatements, UpdateUser;
    RunFour(t, sub, plan);
  }

  /** The tables after a write that ran to its end. */
  lemma SubmitFull(t: Tables, sub: Submission)
    requires sub.uid != ""
    ensures var plan := MakePlan(t.rows, sub);
            var t' := Submit(t, sub, STATEMENTS);
            && t'.rows == t.rows + [NewRow(sub, plan)]
            && t'.users == UpdateUser(t, sub, plan).users
            && t'.problems == UpdateProblem(t.(rows := t.rows + [NewRow(sub, plan)]), sub, plan).problems
            && t'.experience == t.experience
  {
    hide MakePlan, RunStatements, UpdateUser, UpdateProblem;
    RunAll(t, sub, MakePlan(t.rows, sub));
  }

  /** A first try is recognised by the id test alone: the new row carries a larger id than all others. */
  lemma FirstTry(t: Tables, sub: Submission)
    ensures var plan := MakePlan(t.rows, sub);
            plan.unsolved && !HaveSubmitted(t.rows + [NewRow(sub, plan)], sub.pid, sub.uid, plan.id)
            <==> !HasRow(t.rows, sub.pid, sub.uid)
  {
    var plan := MakePlan(t.rows, sub);
    var rows' := t.rows + [NewRow(sub, plan)];
    assert forall r :: r in rows' <==> r in t.rows || r == NewRow(sub, plan);
    if r :| r in t.rows && By(r, sub.pid, sub.uid) {
      assert r in rows' && r.id < plan.id;
    }
  }

  /** What a submission has to satisfy for the kept values to stay right. */
  predicate Scorable(t: Tables, sub: Submission) {
    sub.uid == "" || sub.uid !in t.users ||
    (sub.pid in t.experience && (sub.score >= 0 || HasRow(t.rows, sub.pid, sub.uid)))
  }

  lemma GainIsDelta(rows: seq<Row>, sub: Submission, r: Row)
    requires r.pid == sub.pid && r.uid == sub.uid && r.score == sub.score
    ensures Gain(rows, r) == ScoreDelta(rows, sub) <==> sub.score >= 0 || HasRow(rows, sub.pid, sub.uid)
  {
  }

  /** One user's counters after the complete write. */
  lemma SubmitUserFields(t: Tables, sub: Submission, u: string)
    requires sub.uid != "" && u in t.users
    ensures var t' := Submit(t, sub, STATEMENTS);
            var first := if sub.result == ACCEPT && !HaveSolved(t.rows, sub.pid, sub.uid) then 1 else 0;
            && u in t'.users
            && t'.users[u] == if u == sub.uid && sub.pid in t.experience then
                 User(t.users[u].submit + 1, t.users[u].solved + first,
                      t.users[u].score + ScoreDelta(t.rows, sub),
                      t.users[u].experience + t.experience[sub.pid] * first, sub.language)
               else t.users[u]
  {
    SubmitFull(t, sub);
  }

  lemma SubmitProblemFields(t: Tables, sub: Submission, p: nat)
    requires sub.uid != "" && p in t.problems
    ensures var t' := Submit(t, sub, STATEMENTS);
            var first := if sub.result == ACCEPT && !HaveSolved(t.rows, sub.pid, sub.uid) then 1 else 0;
            && p in t'.problems
            && t'.problems[p] == if p == sub.pid then
                 Problem(t.problems[p].submit + 1,
                         t.problems[p].accepted + (if sub.result == ACCEPT then 1 else 0),
                         t.problems[p].submitUser + (if HasRow(t.rows, p, sub.uid) then 0 else 1),
                         t.problems[p].solved + first)
               else t.problems[p]
  {
    SubmitFull(t, sub);
    FirstTry(t, sub);
  }

  lemma SubmitUser(t: Tables, sub: Submission, u: string)
    requires sub.uid != "" && u in t.users && UserExact(t, u)
    ensures var t' := Submit(t, sub, STATEMENTS);
            u in t'.users && (UserExact(t', u) <==> u != sub.uid || Scorable(t, sub))
  {
    hide HaveSolved, ScoreDelta, Gain, HasRow, UserScore, UserExperience, Count, ProblemsSolved, RunStatements,
      UpdateUser;
    var r := NewRow(sub, MakePlan(t.rows, sub));
    SubmitFull(t, sub);
    SubmitUserFields(t, sub, u);
    UserTruth(t.rows, r, u, t.experience);
    GainIsDelta(t.rows, sub, r);
  }

  lemma SubmitProblem(t: Tables, sub: Submission, p: nat)
    requires sub.uid != "" && p in t.problems && ProblemExact(t, p)
    ensures var t' := Submit(t, sub, STATEMENTS); p in t'.problems && ProblemExact(t', p)
  {
    hide HaveSolved, HasRow, Count, Solvers, Triers, RunStatements, UpdateProblem;
    var r := NewRow(sub, MakePlan(t.rows, sub));
    SubmitFull(t, sub);
    SubmitProblemFields(t, sub, p);
    ProblemTruth(t.rows, r, p);
  }

  lemma SubmitKeys(t: Tables, sub: Submission)
    ensures var t' := Submit(t, sub, STATEMENTS);
            t'.users.Keys == t.users.Keys && t'.problems.Keys == t.problems.Keys && t'.experience == t.experience
  {
    if sub.uid != "" {
      SubmitFull(t, sub);
    }
  }

  lemma SubmitValid(t: Tables, sub: Submission)
    requires ValidExact(t.rows)
    ensures ValidExact(Submit(t, sub, STATEMENTS).rows)
  {
    if sub.uid != "" {
      SubmitFull(t, sub);
      ValidAppend(t.rows, NewRow(sub, MakePlan(t.rows, sub)));
    }
  }

  /** One complete write keeps every aggregate right exactly when the submission is scorable: its user is
      unknown to the scoreboard, or the problem's level has a row and the score is not a negative first one. */
  lemma SubmitConsistentIff(t: Tables, sub: Submission)
    requires Consistent(t)
    ensures Consistent(Submit(t, sub, STATEMENTS)) <==> Scorable(t, sub)
  {
    var t' := Submit(t, sub, STATEMENTS);
    SubmitKeys(t, sub);
    SubmitValid(t, sub);
    if sub.uid != "" {
      forall u | u in t.users ensures UserExact(t', u) <==> u != sub.uid || Scorable(t, sub) {
        SubmitUser(t, sub, u);
      }
      forall p | p in t.problems ensures ProblemExact(t', p) {
        SubmitProblem(t, sub, p);
      }
      assert Scorable(t, sub) || !UserExact(t', sub.uid);
    }
  }

  /** Once a user has an accepted row worth the full 100 on a problem, a further write by that user to it
      leaves score, solved and experience alone, and the problem's solved and submit_user. */
  lemma SettledSubmit(t: Tables, sub: Submission)
    requires sub.uid != "" && HaveSolved(t.rows, sub.pid, sub.uid)
    requires Best(t.rows, sub.pid, sub.uid) >= 100 >= sub.score
    ensures var t' := Submit(t, sub, STATEMENTS);
            && (forall u | u in t.users :: u in t'.users && t'.users[u].score == t.users[u].score &&
                  t'.users[u].solved == t.users[u].solved && t'.users[u].experience == t.users[u].experience)
            && (forall p | p in t.problems :: p in t'.problems && t'.problems[p].solved == t.problems[p].solved &&
                  t'.problems[p].submitUser == t.problems[p].submitUser)
  {
    var t' := Submit(t, sub, STATEMENTS);
    SubmitKeys(t, sub);
    forall u | u in t.users
      ensures t'.users[u].score == t.users[u].score && t'.users[u].solved == t.users[u].solved &&
              t'.users[u].experience == t.users[u].experience
    {
      SubmitUserFields(t, sub, u);
    }
    forall p | p in t.problems
      ensures t'.problems[p].solved == t.problems[p].solved && t'.problems[p].submitUser == t.problems[p].submitUser
    {
      hide Submit;
      SubmitProblemFields(t, sub, p);
    }
  }
}
