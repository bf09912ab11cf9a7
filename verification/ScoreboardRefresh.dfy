/** Rejudging a problem while submits go on, and what the refresh afterwards restores. */
module ScoreboardRefresh {
  import opened Totals
  import opened Scoreboard
  import opened ScoreboardSubmit
  import opened ScoreboardRuns

  // ----- Values that survive a change of rows -----

  /** Same rows as far as identity goes. */
  predicate SameKeys(a: seq<Row>, b: seq<Row>) {
    |a| == |b| && forall i :: 0 <= i < |a| ==> a[i].id == b[i].id && a[i].pid == b[i].pid && a[i].uid == b[i].uid
  }

  /** Same rows but for the `valid` mark. */
  predicate SameOutcomes(a: seq<Row>, b: seq<Row>) {
    |a| == |b| && forall i :: 0 <= i < |a| ==> a[i].(valid := b[i].valid) == b[i]
  }

  /** Same results on the rows of problem p. */
  predicate SameResults(a: seq<Row>, b: seq<Row>, p: nat) {
    SameKeys(a, b) && forall i :: 0 <= i < |a| ==> a[i].pid == p ==> a[i].result == b[i].result
  }

  lemma {:induction false} CountSame(a: seq<Row>, b: seq<Row>, f: Row -> bool)
    requires |a| == |b| && forall i :: 0 <= i < |a| ==> f(a[i]) == f(b[i])
    ensures Count(a, f) == Count(b, f)
  {
    if a != [] {
      CountSame(a[..|a| - 1], b[..|b| - 1], f);
    }
  }

  lemma {:induction false} TriersSame(a: seq<Row>, b: seq<Row>, p: nat)
    requires SameKeys(a, b)
    ensures Triers(a, p) == Triers(b, p)
  {
    if a != [] {
      TriersSame(a[..|a| - 1], b[..|b| - 1], p);
    }
  }

  lemma {:induction false} TriedSame(a: seq<Row>, b: seq<Row>, u: string)
    requires SameKeys(a, b)
    ensures ProblemsTried(a, u) == ProblemsTried(b, u)
  {
    if a != [] {
      TriedSame(a[..|a| - 1], b[..|b| - 1], u);
    }
  }

  lemma {:induction false} SolversSame(a: seq<Row>, b: seq<Row>, p: nat)
    requires SameResults(a, b, p)
    ensures Solvers(a, p) == Solvers(b, p)
  {
    if a != [] {
      SolversSame(a[..|a| - 1], b[..|b| - 1], p);
    }
  }

  lemma {:induction false} OutcomesSame(a: seq<Row>, b: seq<Row>, u: string)
    requires SameOutcomes(a, b)
    ensures ProblemsSolved(a, u) == ProblemsSolved(b, u) && BestScores(a, u) == BestScores(b, u)
  {
    hide HaveSolved, HasRow, Best;
    if a != [] {
      OutcomesSame(a[..|a| - 1], b[..|b| - 1], u);
    }
  }

  // ----- The refresh -----

  /** Extra zero entries do not change a sum. */
  lemma {:induction false} TotalPadded(m: map<nat, int>, n: map<nat, int>)
    requires m.Keys <= n.Keys
    requires forall k :: k in n ==> n[k] == if k in m then m[k] else 0
    ensures Total(m) == Total(n)
    decreases |n|
  {
    if m.Keys == n.Keys {
      assert m == n;
    } else {
      var k :| k in n && k !in m;
      TotalRemove(n, k);
      Shrinks(n, k);
      TotalPadded(m, n - {k});
    }
  }

  /** The experience sum over the listed problems is the true one. */
  lemma ListedRewardsTotal(t: Tables, u: string)
    requires t.experience.Keys <= t.problems.Keys
    ensures SumValues(ListedRewards(t, u)) == UserExperience(t.rows, u, t.experience)
  {
    TotalPadded(Rewards(ProblemsSolved(t.rows, u), t.experience), ListedRewards(t, u));
  }

  lemma MarkRows(t: Tables, q: nat)
    ensures SameOutcomes(t.rows, ClearValid(t, q).rows)
    ensures SameOutcomes(t.rows, SetValid(t, q).rows)
  {
  }

  lemma RefreshAggregates(t: Tables, q: nat, k: nat)
    requires k <= 4
    ensures var t' := Refresh(t, q, k);
            && t'.rows == t.rows && t'.experience == t.experience
            && t'.users == (if k >= 3 then RefreshScore(RefreshExperience(RefreshSolved(t)))
                            else if k >= 2 then RefreshExperience(RefreshSolved(t))
                            else if k >= 1 then RefreshSolved(t) else t).users
            && t'.problems == (if k >= 4 then RefreshProblem(t, q) else t).problems
  {
    hide RefreshSolved, RefreshExperience, RefreshScore, RefreshProblem;
    RefreshProblemAfter(t, Refresh(t, q, 3), q);
  }

  /** The problem statement reads no user. */
  lemma RefreshProblemAfter(t: Tables, t3: Tables, q: nat)
    requires t3 == t.(users := t3.users)
    ensures RefreshProblem(t3, q) == RefreshProblem(t, q).(users := t3.users)
    ensures RefreshProblem(t, q) == t.(problems := RefreshProblem(t, q).problems)
  {
    hide Solvers, Count;
  }

  /** A refresh changes no row beyond its `valid` mark. */
  lemma RefreshRows(t: Tables, q: nat, k: nat)
    ensures var t' := Refresh(t, q, k);
            && SameOutcomes(t.rows, t'.rows) && t'.experience == t.experience
            && t'.users == (if k >= 3 then RefreshScore(RefreshExperience(RefreshSolved(t)))
                            else if k >= 2 then RefreshExperience(RefreshSolved(t))
                            else if k >= 1 then RefreshSolved(t) else t).users
            && t'.problems == (if k >= 4 then RefreshProblem(t, q) else t).problems
  {
    if k <= 4 {
      RefreshAggregates(t, q, k);
    } else {
      var t4 := Refresh(t, q, 4);
      RefreshAggregates(t, q, 4);
      MarkRows(t4, q);
      MarkRows(ClearValid(t4, q), q);
      RefreshMarks(t, q, k);
    }
  }

  lemma RefreshMarks(t: Tables, q: nat, k: nat)
    requires k > 4
    ensures var t4 := Refresh(t, q, 4);
            Refresh(t, q, k) == if k == 5 then ClearValid(t4, q) else SetValid(ClearValid(t4, q), q)
  {
    hide RefreshSolved, RefreshExperience, RefreshScore, RefreshProblem, ClearValid, SetValid;
  }

  lemma RefreshSolvedField(t: Tables, u: string)
    requires u in t.users
    ensures var t' := RefreshSolved(t);
            && t'.users.Keys == t.users.Keys && t'.rows == t.rows
            && t'.problems == t.problems && t'.experience == t.experience
            && t'.users[u] == if ProblemsSolved(t.rows, u) == {} then t.users[u]
                              else t.users[u].(solved := |ProblemsSolved(t.rows, u)|)
  {
    hide ProblemsSolved;
  }

  lemma RefreshExperienceField(t: Tables, u: string)
    requires u in t.users
    ensures var t' := RefreshExperience(t);
            && t'.users.Keys == t.users.Keys && t'.rows == t.rows
            && t'.problems == t.problems && t'.experience == t.experience
            && t'.users[u] == if ListedRewards(t, u).Keys == {} then t.users[u]
                              else t.users[u].(experience := SumValues(ListedRewards(t, u)))
  {
    hide ListedRewards, SumValues;
  }

  lemma RefreshScoreField(t: Tables, u: string)
    requires u in t.users
    ensures var t' := RefreshScore(t);
            && t'.users.Keys == t.users.Keys && t'.rows == t.rows
            && t'.users[u] == if ProblemsTried(t.rows, u) == {} then t.users[u]
                              else t.users[u].(score := UserScore(t.rows, u))
  {
    hide ProblemsTried, UserScore;
  }

  /** The users after the user statements of a refresh. */
  lemma RefreshUserFields(t: Tables, q: nat, k: nat, u: string)
    requires u in t.users
    ensures var t' := Refresh(t, q, k);
            && u in t'.users && t'.users.Keys == t.users.Keys
            && t'.users[u].submit == t.users[u].submit && t'.users[u].language == t.users[u].language
            && t'.users[u].solved == (if k >= 1 && ProblemsSolved(t.rows, u) != {} then |ProblemsSolved(t.rows, u)|
                                     else t.users[u].solved)
            && t'.users[u].experience == (if k >= 2 && ListedRewards(t, u).Keys != {}
                                          then SumValues(ListedRewards(t, u))
                                         else t.users[u].experience)
            && t'.users[u].score == (if k >= 3 && ProblemsTried(t.rows, u) != {} then UserScore(t.rows, u)
                                    else t.users[u].score)
  {
    hide ProblemsSolved, SumValues, ProblemsTried, UserScore, Refresh, RefreshSolved, RefreshExperience, RefreshScore;
    var t1 := RefreshSolved(t);
    var t2 := RefreshExperience(t1);
    RefreshRows(t, q, k);
    RefreshSolvedField(t, u);
    RefreshExperienceField(t1, u);
    RefreshScoreField(t2, u);
    assert ListedRewards(t1, u) == ListedRewards(t, u);
  }

  lemma RefreshProblemFields(t: Tables, q: nat, k: nat, p: nat)
    requires p in t.problems
    ensures var t' := Refresh(t, q, k);
            && p in t'.problems && t'.problems.Keys == t.problems.Keys
            && t'.problems[p] == if p == q && k >= 4 then
                 t.problems[p].(solved := |Solvers(t.rows, p)|, accepted := Count(t.rows, AcceptedRows(p)))
               else t.problems[p]
  {
    hide Refresh, Solvers, Count;
    RefreshRows(t, q, k);
  }

  // ----- Runs that mix submits, rejudge updates and refreshes -----

  /** Ids identify rows. */
  predicate DistinctIds(rows: seq<Row>) {
    forall i, j :: 0 <= i < j < |rows| ==> rows[i].id != rows[j].id
  }

  /** The counters no rejudge can disturb, and what is known of users without rows. */
  ghost predicate UserSteady(t: Tables, u: string)
    requires u in t.users
  {
    && t.users[u].submit == Count(t.rows, RowsOfUser(u))
    && (ProblemsTried(t.rows, u) == {} ==>
          t.users[u].solved == 0 && t.users[u].score == 0 && t.users[u].experience == 0)
  }

  ghost predicate ProblemSteady(t: Tables, p: nat, dirty: set<nat>)
    requires p in t.problems
  {
    && t.problems[p].submit == Count(t.rows, RowsOfProblem(p))
    && t.problems[p].submitUser == |Triers(t.rows, p)|
    && (p !in dirty ==> t.problems[p].accepted == Count(t.rows, AcceptedRows(p)) &&
                        t.problems[p].solved == |Solvers(t.rows, p)|)
  }

  ghost predicate Steady(t: Tables, dirty: set<nat>) {
    && DistinctIds(t.rows)
    && t.experience.Keys <= t.problems.Keys
    && (forall u :: u in t.users ==> UserSteady(t, u))
    && (forall p :: p in t.problems ==> ProblemSteady(t, p, dirty))
  }

  /** The problems with rejudged rows whose counters have not been refreshed since. */
  function Dirtied(t: Tables, e: Event, dirty: set<nat>): set<nat> {
    match e
    case Submitted(_, _) => dirty
    case Rejudged(id, _, _, _, _) => dirty + set r | r in t.rows && r.id == id :: r.pid
    case Refreshed(q, stop) => if stop >= 4 then dirty - {q} else dirty
  }

  function Dirty(t: Tables, es: seq<Event>): set<nat> {
    if es == [] then {}
    else
      var front := es[..|es| - 1];
      Dirtied(Run(t, front), es[|es| - 1], Dirty(t, front))
  }

  predicate Regular(t: Tables, e: Event) {
    e.Submitted? ==> e.stop == STATEMENTS && e.sub.pid in t.experience
  }

  lemma SubmitUserSteady(t: Tables, sub: Submission, u: string)
    requires sub.uid != "" && sub.pid in t.experience && u in t.users && UserSteady(t, u)
    ensures var t' := Submit(t, sub, STATEMENTS); u in t'.users && UserSteady(t', u)
  {
    hide Submit, MakePlan, ScoreDelta, HaveSolved, Count, ProblemsSolved, ProblemsTried, UserScore, UserExperience;
    var r := NewRow(sub, MakePlan(t.rows, sub));
    SubmitRow(t, sub);
    SubmitUserFields(t, sub, u);
    UserTruth(t.rows, r, u, t.experience);
    SetsAppend(t.rows, r, r.pid, u);
  }

  lemma SubmitProblemSteady(t: Tables, sub: Submission, p: nat, dirty: set<nat>)
    requires sub.uid != "" && p in t.problems && ProblemSteady(t, p, dirty)
    ensures var t' := Submit(t, sub, STATEMENTS); p in t'.problems && ProblemSteady(t', p, dirty)
  {
    hide Submit, MakePlan, HaveSolved, HasRow, Count, Triers, Solvers;
    SubmitRow(t, sub);
    SubmitProblemFields(t, sub, p);
    ProblemTruth(t.rows, NewRow(sub, MakePlan(t.rows, sub)), p);
  }

  lemma SubmitSteady(t: Tables, sub: Submission, dirty: set<nat>)
    requires sub.uid != "" && sub.pid in t.experience && Steady(t, dirty)
    ensures Steady(Submit(t, sub, STATEMENTS), dirty)
  {
    hide Submit, UserSteady, ProblemSteady;
    var t' := Submit(t, sub, STATEMENTS);
    SubmitKeys(t, sub);
    SubmitRow(t, sub);
    forall u | u in t.users ensures UserSteady(t', u) {
      SubmitUserSteady(t, sub, u);
    }
    forall p | p in t.problems ensures ProblemSteady(t', p, dirty) {
      SubmitProblemSteady(t, sub, p, dirty);
    }
  }

  /** The row a complete write adds, under a new id. */
  lemma SubmitRow(t: Tables, sub: Submission)
    requires sub.uid != ""
    ensures var r := NewRow(sub, MakePlan(t.rows, sub));
            && Submit(t, sub, STATEMENTS).rows == t.rows + [r]
            && (DistinctIds(t.rows) ==> DistinctIds(t.rows + [r]))
            && r.pid == sub.pid && r.uid == sub.uid && r.result == sub.result
  {
    SubmitFull(t, sub);
  }

  lemma RejudgeSteady(t: Tables, id: nat, time: int, memory: int, result: int, score: int, dirty: set<nat>)
    requires Steady(t, dirty)
    ensures var e := Rejudged(id, time, memory, result, score);
            Steady(Next(t, e), Dirtied(t, e, dirty))
  {
    var e := Rejudged(id, time, memory, result, score);
    var t' := Next(t, e);
    assert SameKeys(t.rows, t'.rows);
    forall u | u in t.users ensures UserSteady(t', u) {
      CountSame(t.rows, t'.rows, RowsOfUser(u));
      TriedSame(t.rows, t'.rows, u);
      assert UserSteady(t, u);
    }
    forall p | p in t.problems ensures ProblemSteady(t', p, Dirtied(t, e, dirty)) {
      CountSame(t.rows, t'.rows, RowsOfProblem(p));
      TriersSame(t.rows, t'.rows, p);
      assert ProblemSteady(t, p, dirty);
      if p !in Dirtied(t, e, dirty) {
        CountSame(t.rows, t'.rows, AcceptedRows(p));
        SolversSame(t.rows, t'.rows, p);
      }
    }
  }

  lemma RefreshUserSteady(t: Tables, q: nat, stop: nat, u: string)
    requires u in t.users && UserSteady(t, u)
    ensures var t' := Refresh(t, q, stop); u in t'.users && UserSteady(t', u)
  {
    hide Refresh, RefreshScore, RefreshExperience, RefreshSolved, RefreshProblem;
    var t' := Refresh(t, q, stop);
    RefreshRows(t, q, stop);
    RefreshUserFields(t, q, stop, u);
    CountSame(t.rows, t'.rows, RowsOfUser(u));
    TriedSame(t.rows, t'.rows, u);
    if ProblemsTried(t.rows, u) == {} {
      NothingSolved(t, u);
    }
  }

  lemma RefreshProblemSteady(t: Tables, q: nat, stop: nat, p: nat, dirty: set<nat>)
    requires p in t.problems && ProblemSteady(t, p, dirty)
    ensures var t' := Refresh(t, q, stop);
            p in t'.problems && ProblemSteady(t', p, Dirtied(t, Refreshed(q, stop), dirty))
  {
    hide Refresh, RefreshScore, RefreshExperience, RefreshSolved, RefreshProblem, Count, Triers, Solvers, SameOutcomes;
    RefreshRows(t, q, stop);
    RefreshProblemFields(t, q, stop, p);
    SameProblemTruth(t.rows, Refresh(t, q, stop).rows, p);
  }

  lemma SameProblemTruth(a: seq<Row>, b: seq<Row>, p: nat)
    requires SameOutcomes(a, b)
    ensures Count(a, RowsOfProblem(p)) == Count(b, RowsOfProblem(p))
    ensures Count(a, AcceptedRows(p)) == Count(b, AcceptedRows(p))
    ensures Triers(a, p) == Triers(b, p) && Solvers(a, p) == Solvers(b, p)
  {
    CountSame(a, b, RowsOfProblem(p));
    CountSame(a, b, AcceptedRows(p));
    TriersSame(a, b, p);
    SolversSame(a, b, p);
  }

  lemma RefreshSteady(t: Tables, q: nat, stop: nat, dirty: set<nat>)
    requires Steady(t, dirty)
    ensures Steady(Refresh(t, q, stop), Dirtied(t, Refreshed(q, stop), dirty))
  {
    hide Refresh, RefreshScore, RefreshExperience, RefreshSolved, RefreshProblem, UserSteady, ProblemSteady;
    var t' := Refresh(t, q, stop);
    RefreshRows(t, q, stop);
    RefreshKeys(t, q, stop);
    forall u | u in t'.users ensures UserSteady(t', u) {
      RefreshUserSteady(t, q, stop, u);
    }
    forall p | p in t'.problems ensures ProblemSteady(t', p, Dirtied(t, Refreshed(q, stop), dirty)) {
      RefreshProblemSteady(t, q, stop, p, dirty);
    }
  }

  lemma RefreshKeys(t: Tables, q: nat, k: nat)
    ensures var t' := Refresh(t, q, k); t'.users.Keys == t.users.Keys && t'.problems.Keys == t.problems.Keys
  {
    hide ProblemsSolved, SumValues, ProblemsTried, UserScore, Solvers, Count, ListedRewards, Refresh;
    RefreshRows(t, q, k);
  }

  /** A user with no rows has solved nothing and is owed nothing. */
  lemma NothingSolved(t: Tables, u: string)
    requires ProblemsTried(t.rows, u) == {}
    ensures ProblemsSolved(t.rows, u) == {} && ListedRewards(t, u).Keys == {} && UserScore(t.rows, u) == 0
  {
    forall p | p in ProblemsSolved(t.rows, u) ensures p in ProblemsTried(t.rows, u) {}
    assert BestScores(t.rows, u).Keys == {};
  }

  /** Over every run of submits, rejudge updates and refreshes, wherever the refreshes stop, the submit
      counts and submit_user stay right, and so do accepted and solved of each problem that is not dirty. */
  lemma {:induction false} MixedRunSteady(t: Tables, es: seq<Event>)
    requires Steady(t, {})
    requires forall e :: e in es ==> Regular(t, e)
    ensures Steady(Run(t, es), Dirty(t, es)) && Run(t, es).experience == t.experience
    ensures Run(t, es).users.Keys == t.users.Keys && Run(t, es).problems.Keys == t.problems.Keys
  {
    if es != [] {
      var front, e := es[..|es| - 1], es[|es| - 1];
      var before := Run(t, front);
      MixedRunSteady(t, front);
      assert Regular(t, e);
      StepSteady(before, e, Dirty(t, front));
    }
  }

  lemma StepSteady(t: Tables, e: Event, dirty: set<nat>)
    requires Steady(t, dirty) && Regular(t, e)
    ensures var t' := Next(t, e);
            && Steady(t', Dirtied(t, e, dirty)) && t'.experience == t.experience
            && t'.users.Keys == t.users.Keys && t'.problems.Keys == t.problems.Keys
  {
    hide Steady;
    match e
    case Submitted(sub, stop) =>
      SubmitKeys(t, sub);
      if sub.uid != "" { SubmitSteady(t, sub, dirty); }
    case Rejudged(id, time, memory, result, score) =>
      RejudgeSteady(t, id, time, memory, result, score, dirty);
    case Refreshed(q, stop) =>
      RefreshSteady(t, q, stop, dirty);
      RefreshKeys(t, q, stop);
      RefreshRows(t, q, stop);
  }

  // ----- What a finished refresh restores -----

  lemma ConsistentSteady(t: Tables)
    requires Consistent(t) && DistinctIds(t.rows) && t.experience.Keys <= t.problems.Keys
    ensures Steady(t, {})
  {
    hide UserExact, ProblemExact;
    forall u | u in t.users ensures UserSteady(t, u) {
      ExactUserSteady(t, u);
    }
    forall p | p in t.problems ensures ProblemSteady(t, p, {}) {
      ExactProblemSteady(t, p);
    }
  }

  lemma ExactUserSteady(t: Tables, u: string)
    requires u in t.users && UserExact(t, u) && t.experience.Keys <= t.problems.Keys
    ensures UserSteady(t, u)
  {
    hide Count, SumValues;
    if ProblemsTried(t.rows, u) == {} {
      NothingSolved(t, u);
      ListedRewardsTotal(t, u);
      EmptySum(ListedRewards(t, u));
    }
  }

  lemma ExactProblemSteady(t: Tables, p: nat)
    requires p in t.problems && ProblemExact(t, p)
    ensures ProblemSteady(t, p, {})
  {
    hide Count, Triers, Solvers;
  }

  /** One user after a finished refresh: the score is right; solved and experience are right exactly if there
      is something to join on or the stored value was already zero. */
  lemma RefreshedUser(t: Tables, q: nat, u: string)
    requires t.experience.Keys <= t.problems.Keys
    requires u in t.users && UserSteady(t, u)
    ensures var t' := Refresh(t, q, REFRESH_STATEMENTS);
            && u in t'.users
            && t'.users[u].score == UserScore(t'.rows, u)
            && (t'.users[u].solved == |ProblemsSolved(t'.rows, u)| <==>
                ProblemsSolved(t.rows, u) != {} || t.users[u].solved == 0)
            && (t'.users[u].experience == UserExperience(t'.rows, u, t'.experience) <==>
                ListedRewards(t, u).Keys != {} || t.users[u].experience == 0)
  {
    hide Refresh, RefreshScore, RefreshExperience, RefreshSolved, RefreshProblem, ProblemsTried, ProblemsSolved;
    var t' := Refresh(t, q, REFRESH_STATEMENTS);
    RefreshRows(t, q, REFRESH_STATEMENTS);
    RefreshUserFields(t, q, REFRESH_STATEMENTS, u);
    OutcomesSame(t.rows, t'.rows, u);
    ListedRewardsTotal(t, u);
    if ProblemsTried(t.rows, u) == {} {
      NothingSolved(t, u);
      OnlyUserScore(t.rows, t'.rows, u);
    }
    if ListedRewards(t, u).Keys == {} {
      EmptySum(ListedRewards(t, u));
    }
  }

  lemma OnlyUserScore(a: seq<Row>, b: seq<Row>, u: string)
    requires BestScores(a, u) == BestScores(b, u)
    ensures UserScore(a, u) == UserScore(b, u)
  {
  }

  lemma EmptySum(m: map<nat, int>)
    requires m.Keys == {}
    ensures SumValues(m) == 0
  {
  }

  /** The main statement: whatever mixture of submits, rejudge updates and partial refreshes came before, a
      finished refresh of q leaves every user's score right, solved and experience right exactly for the
      users it can join or that stood at zero, and all problem counters right if only q was dirty. */
  lemma RefreshRestores(t: Tables, es: seq<Event>, q: nat)
    requires Steady(t, {})
    requires forall e :: e in es ==> Regular(t, e)
    ensures var before := Run(t, es);
            var after := Refresh(before, q, REFRESH_STATEMENTS);
            && after.users.Keys == t.users.Keys
            && after.problems.Keys == t.problems.Keys
            && (forall u | u in t.users ::
                  && after.users[u].submit == Count(after.rows, RowsOfUser(u))
                  && after.users[u].score == UserScore(after.rows, u)
                  && (after.users[u].solved == |ProblemsSolved(after.rows, u)| <==>
                      ProblemsSolved(before.rows, u) != {} || before.users[u].solved == 0)
                  && (after.users[u].experience == UserExperience(after.rows, u, after.experience) <==>
                      ListedRewards(before, u).Keys != {} || before.users[u].experience == 0))
            && (forall p | p in t.problems && p !in Dirty(t, es) - {q} :: ProblemExact(after, p))
  {
    hide Refresh, Count, UserScore, UserExperience, ProblemsSolved, Triers, Solvers, ListedRewards, RefreshScore,
      RefreshExperience, RefreshSolved, RefreshProblem;
    var before := Run(t, es);
    var after := Refresh(before, q, REFRESH_STATEMENTS);
    MixedRunSteady(t, es);
    RefreshSteady(before, q, REFRESH_STATEMENTS, Dirty(t, es));
    RefreshKeys(before, q, REFRESH_STATEMENTS);
    forall u | u in t.users
      ensures && after.users[u].submit == Count(after.rows, RowsOfUser(u))
              && after.users[u].score == UserScore(after.rows, u)
              && (after.users[u].solved == |ProblemsSolved(after.rows, u)| <==>
                  ProblemsSolved(before.rows, u) != {} || before.users[u].solved == 0)
              && (after.users[u].experience == UserExperience(after.rows, u, after.experience) <==>
                  ListedRewards(before, u).Keys != {} || before.users[u].experience == 0)
    {
      RefreshedUser(before, q, u);
      assert UserSteady(after, u);
    }
    forall p | p in t.problems && p !in Dirty(t, es) - {q} ensures ProblemExact(after, p) {
      assert ProblemSteady(after, p, Dirty(t, es) - {q});
    }
  }

  // ----- The rejudge list -----

  /** Rows are only ever added at the end, and no row changes its identity. */
  lemma {:induction false} RowsKeepKeys(t: Tables, es: seq<Event>)
    ensures var t' := Run(t, es);
            |t'.rows| >= |t.rows| && SameKeys(t.rows, t'.rows[..|t.rows|])
  {
    if es != [] {
      RowsKeepKeys(t, es[..|es| - 1]);
      NextKeepsKeys(Run(t, es[..|es| - 1]), es[|es| - 1]);
    }
  }

  lemma NextKeepsKeys(t: Tables, e: Event)
    ensures |Next(t, e).rows| >= |t.rows| && SameKeys(t.rows, Next(t, e).rows[..|t.rows|])
  {
    hide Refresh, RunStatements, MakePlan, UpdateUser;
    match e
    case Submitted(sub, stop) => RunPrefix(t, sub, MakePlan(t.rows, sub), stop);
    case Rejudged(_, _, _, _, _) =>
    case Refreshed(q, stop) => RefreshRows(t, q, stop);
  }

  lemma {:induction false} SolutionListRows(rows: seq<Row>, q: nat, id: nat)
    ensures id in SolutionList(rows, q) <==> exists r :: r in rows && r.id == id && r.pid == q && !r.malicious
  {
    if rows != [] {
      var n := |rows| - 1;
      SolutionListRows(rows[..n], q, id);
      assert rows == rows[..n] + [rows[n]];
    }
  }

  /** An id from the list belongs to q for good. */
  lemma ListedIdStays(t: Tables, es: seq<Event>, q: nat, id: nat, r: Row)
    requires DistinctIds(Run(t, es).rows) && id in SolutionList(t.rows, q)
    requires r in Run(t, es).rows && r.id == id
    ensures r.pid == q
  {
    hide Run, SolutionList;
    var rows := Run(t, es).rows;
    RowsKeepKeys(t, es);
    SolutionListRows(t.rows, q, id);
    var first :| first in t.rows && first.id == id && first.pid == q;
    var i :| 0 <= i < |t.rows| && t.rows[i] == first;
    assert rows[..|t.rows|][i] == rows[i];
    var j :| 0 <= j < |rows| && rows[j] == r;
    assert i == j;
  }

  /** The ids a rejudge of q was given still belong to q when their turn comes, so it dirties nothing else. */
  lemma {:induction false} RejudgeDirtiesOnlyItsProblem(t: Tables, es: seq<Event>, q: nat)
    requires Steady(t, {})
    requires forall e :: e in es ==> Regular(t, e)
    requires forall e :: e in es && e.Rejudged? ==> e.id in SolutionList(t.rows, q)
    ensures Dirty(t, es) <= {q}
  {
    hide Run, SolutionList;
    if es != [] {
      var front, e := es[..|es| - 1], es[|es| - 1];
      RejudgeDirtiesOnlyItsProblem(t, front, q);
      if e.Rejudged? {
        MixedRunSteady(t, front);
        forall r | r in Run(t, front).rows && r.id == e.id ensures r.pid == q {
          ListedIdStays(t, front, q, e.id, r);
        }
      }
    }
  }

  /** Every user's submit count and score are right, and solved and experience if there is an accepted row to join. */
  ghost predicate UsersRestored(t: Tables) {
    && (forall u | u in t.users ::
          t.users[u].submit == Count(t.rows, RowsOfUser(u)) && t.users[u].score == UserScore(t.rows, u))
    && (forall u | u in t.users && ProblemsSolved(t.rows, u) != {} ::
          t.users[u].solved == |ProblemsSolved(t.rows, u)|)
    && (forall u | u in t.users && ListedRewards(t, u).Keys != {} ::
          t.users[u].experience == UserExperience(t.rows, u, t.experience))
  }

  /** And every problem counter is right. */
  ghost predicate Restored(t: Tables) {
    UsersRestored(t) && forall p | p in t.problems :: ProblemExact(t, p)
  }

  /** A finished refresh of any problem restores the users. */
  lemma RefreshRestoresUsers(t: Tables, es: seq<Event>, q: nat)
    requires Steady(t, {})
    requires forall e :: e in es ==> Regular(t, e)
    ensures UsersRestored(Refresh(Run(t, es), q, REFRESH_STATEMENTS))
  {
    hide Refresh, UserScore, Run, Steady, RefreshScore, RefreshExperience, RefreshSolved, RefreshProblem, ListedRewards,
      ProblemsSolved, UserExperience, Count;
    var before := Run(t, es);
    var after := Refresh(before, q, REFRESH_STATEMENTS);
    RefreshRestores(t, es, q);
    RefreshRows(before, q, REFRESH_STATEMENTS);
    RefreshKeys(before, q, REFRESH_STATEMENTS);
    forall u | u in t.users
      ensures ProblemsSolved(after.rows, u) == ProblemsSolved(before.rows, u)
      ensures ListedRewards(after, u).Keys == ListedRewards(before, u).Keys
    {
      OutcomesSame(before.rows, after.rows, u);
      SameListing(before, after, u);
    }
  }

  /** A rejudge session on q, interleaved with submits in any way, ends with everything restored and again in the state
      it asks for. */
  lemma RejudgeSessionRestores(t: Tables, es: seq<Event>, q: nat)
    requires Steady(t, {})
    requires forall e :: e in es ==> Regular(t, e)
    requires forall e :: e in es && e.Rejudged? ==> e.id in SolutionList(t.rows, q)
    ensures var after := Refresh(Run(t, es), q, REFRESH_STATEMENTS);
            && Steady(after, {}) && Restored(after)
            && after.users.Keys == t.users.Keys && after.problems.Keys == t.problems.Keys
            && after.experience == t.experience
  {
    hide Refresh, ProblemExact, Run, Steady, UsersRestored, RefreshScore, RefreshExperience, RefreshSolved,
      RefreshProblem, Count, UserScore, UserExperience, ProblemsSolved, ListedRewards;
    var before := Run(t, es);
    RefreshRestores(t, es, q);
    RefreshRestoresUsers(t, es, q);
    RejudgeDirtiesOnlyItsProblem(t, es, q);
    MixedRunSteady(t, es);
    RefreshSteady(before, q, REFRESH_STATEMENTS, Dirty(t, es));
    RefreshRows(before, q, REFRESH_STATEMENTS);
    assert Dirty(t, es) - {q} == {};
  }

  lemma SameListing(s: Tables, t: Tables, u: string)
    requires s.problems.Keys == t.problems.Keys && ProblemsSolved(s.rows, u) == ProblemsSolved(t.rows, u)
    ensures ListedRewards(s, u).Keys == ListedRewards(t, u).Keys
  {
    hide ProblemsSolved;
  }

  // ----- The `valid` mark -----

  lemma AcceptedIds(rows: seq<Row>, q: nat, i: nat)
    requires DistinctIds(rows) && i < |rows|
    ensures (exists r :: r in rows && r.pid == q && r.result == ACCEPT && r.id == rows[i].id) <==>
            rows[i].pid == q && rows[i].result == ACCEPT
  {
    if r :| r in rows && r.pid == q && r.result == ACCEPT && r.id == rows[i].id {
      var j :| 0 <= j < |rows| && rows[j] == r;
    }
    assert rows[i] in rows;
  }

  /** As written, a finished refresh marks every accepted row of q, and no row of another problem. */
  lemma RefreshMarksAllAccepted(t: Tables, q: nat, i: nat)
    requires DistinctIds(t.rows) && i < |t.rows|
    ensures var rows' := Refresh(t, q, REFRESH_STATEMENTS).rows;
            |rows'| == |t.rows| &&
            rows'[i] == t.rows[i].(valid := if t.rows[i].pid == q then t.rows[i].result == ACCEPT else t.rows[i].valid)
  {
    hide Refresh, RefreshScore, RefreshExperience, RefreshSolved, RefreshProblem;
    var t4 := Refresh(t, q, 4);
    RefreshAggregates(t, q, 4);
    RefreshMarks(t, q, REFRESH_STATEMENTS);
    var cleared := ClearValid(t4, q);
    assert DistinctIds(cleared.rows);
    AcceptedIds(cleared.rows, q, i);
  }

  /** That agrees with the submit path, which marks first accepted rows only, exactly if no user has two
      accepted rows on q. */
  lemma RefreshMarksFirstOnlyIff(t: Tables, q: nat)
    requires DistinctIds(t.rows)
    ensures var rows' := Refresh(t, q, REFRESH_STATEMENTS).rows;
            |rows'| == |t.rows| &&
            ((forall i | 0 <= i < |rows'| && rows'[i].pid == q :: rows'[i].valid <==> FirstAccepted(rows', i))
             <==> !exists i, j :: 0 <= i < j < |t.rows| && t.rows[i].pid == q && t.rows[j].pid == q &&
                    t.rows[i].uid == t.rows[j].uid && t.rows[i].result == ACCEPT && t.rows[j].result == ACCEPT)
  {
    hide Refresh;
    var rows, rows' := t.rows, Refresh(t, q, REFRESH_STATEMENTS).rows;
    RefreshRows(t, q, REFRESH_STATEMENTS);
    forall i | 0 <= i < |rows| && rows[i].pid == q
      ensures rows'[i].valid <==> rows[i].result == ACCEPT
      ensures FirstAccepted(rows', i) <==> (rows[i].result == ACCEPT &&
                !exists j :: 0 <= j < i && rows[j].pid == q && rows[j].uid == rows[i].uid && rows[j].result == ACCEPT)
    {
      RefreshMarksAllAccepted(t, q, i);
      EarlierAccepted(rows', i);
    }
  }

  lemma EarlierAccepted(rows: seq<Row>, i: nat)
    requires i < |rows|
    ensures HaveSolved(rows[..i], rows[i].pid, rows[i].uid) <==>
            exists j :: 0 <= j < i && rows[j].pid == rows[i].pid && rows[j].uid == rows[i].uid &&
                        rows[j].result == ACCEPT
  {
    if j :| 0 <= j < i && rows[j].pid == rows[i].pid && rows[j].uid == rows[i].uid && rows[j].result == ACCEPT {
      assert rows[..i][j] == rows[j] && rows[j] in rows[..i];
    }
  }
}
