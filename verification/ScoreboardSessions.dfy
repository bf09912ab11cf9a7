/** Rejudge sessions one after the other, batches that mix two requests, and what stays stale. */
module ScoreboardSessions {
  import opened Totals
  import opened Scoreboard
  import opened ScoreboardSubmit
  import opened ScoreboardRuns
  import opened ScoreboardRefresh

  // ----- One session after the other -----

  /** What happens up to the reading of q's list, and from then to the refresh. */
  datatype Session = Session(q: nat, earlier: seq<Event>, during: seq<Event>)

  function ListRead(t: Tables, s: Session): Tables {
    Run(t, s.earlier)
  }

  /** Rows are rejudged between the reading of the list and the refresh, and only those of the list. */
  predicate SessionFrom(t: Tables, s: Session) {
    && (forall e :: e in s.earlier ==> Regular(t, e) && !e.Rejudged?)
    && (forall e :: e in s.during ==> Regular(t, e))
    && (forall e :: e in s.during && e.Rejudged? ==> e.id in SolutionList(ListRead(t, s).rows, s.q))
  }

  function AfterSession(t: Tables, s: Session): Tables {
    Refresh(Run(ListRead(t, s), s.during), s.q, REFRESH_STATEMENTS)
  }

  function AfterSessions(t: Tables, ss: seq<Session>): Tables {
    if ss == [] then t else AfterSession(AfterSessions(t, ss[..|ss| - 1]), ss[|ss| - 1])
  }

  predicate SessionsFrom(t: Tables, ss: seq<Session>) {
    ss != [] ==>
      SessionsFrom(t, ss[..|ss| - 1]) && SessionFrom(AfterSessions(t, ss[..|ss| - 1]), ss[|ss| - 1])
  }

  /** Without rejudge updates nothing gets dirty. */
  lemma {:induction false} NothingDirty(t: Tables, es: seq<Event>)
    requires forall e :: e in es ==> !e.Rejudged?
    ensures Dirty(t, es) == {}
  {
    if es != [] {
      NothingDirty(t, es[..|es| - 1]);
    }
  }

  lemma SessionRestores(t: Tables, s: Session)
    requires Steady(t, {}) && SessionFrom(t, s)
    ensures var after := AfterSession(t, s); Steady(after, {}) && Restored(after)
  {
    hide Steady, Restored, Run, Refresh, Dirty, SolutionList;
    var read := ListRead(t, s);
    MixedRunSteady(t, s.earlier);
    NothingDirty(t, s.earlier);
    assert forall e :: Regular(t, e) <==> Regular(read, e);
    RejudgeSessionRestores(read, s.during, s.q);
  }

  /** After any number of sessions, of the same problem or of different ones, everything is restored. */
  lemma {:induction false} SessionsRestore(t: Tables, ss: seq<Session>)
    requires Steady(t, {}) && SessionsFrom(t, ss)
    ensures Steady(AfterSessions(t, ss), {}) && (ss != [] ==> Restored(AfterSessions(t, ss)))
  {
    hide Steady, Restored, AfterSession, SessionFrom;
    if ss != [] {
      SessionsRestore(t, ss[..|ss| - 1]);
      SessionRestores(AfterSessions(t, ss[..|ss| - 1]), ss[|ss| - 1]);
    }
  }

  // ----- A batch that mixes two requests -----

  /** A submit that counts as an accepted row of q. */
  predicate AcceptedOn(e: Event, q: nat) {
    e.Submitted? && e.sub.uid != "" && e.sub.pid == q && e.sub.result == ACCEPT
  }

  function AcceptedSubmits(es: seq<Event>, q: nat): nat {
    if es == [] then 0 else AcceptedSubmits(es[..|es| - 1], q) + if AcceptedOn(es[|es| - 1], q) then 1 else 0
  }

  /** Those of them whose user had no accepted row for q at that time. */
  function FirstSolves(t: Tables, es: seq<Event>, q: nat): nat {
    if es == [] then 0
    else
      var front, e := es[..|es| - 1], es[|es| - 1];
      FirstSolves(t, front, q) + if AcceptedOn(e, q) && !HaveSolved(Run(t, front).rows, q, e.sub.uid) then 1 else 0
  }

  /** Without a refresh of q its accepted counters go by the submits alone, whatever rejudges do to its rows. */
  lemma StepAccepted(t: Tables, e: Event, q: nat)
    requires q in t.problems && Regular(t, e)
    requires e.Refreshed? ==> e.q != q
    ensures var t' := Next(t, e);
            && q in t'.problems
            && t'.problems[q].accepted == t.problems[q].accepted + (if AcceptedOn(e, q) then 1 else 0)
            && t'.problems[q].solved == t.problems[q].solved +
               if AcceptedOn(e, q) && !HaveSolved(t.rows, q, e.sub.uid) then 1 else 0
  {
    hide Submit, Refresh, HaveSolved, HasRow, Solvers, Count;
    match e
    case Submitted(sub, stop) =>
      if sub.uid == "" { NamelessSubmit(t, sub, stop); } else { SubmitProblemFields(t, sub, q); }
    case Rejudged(_, _, _, _, _) =>
    case Refreshed(p, stop) => RefreshProblemFields(t, p, stop, q);
  }

  lemma {:induction false} AcceptedBySubmits(t: Tables, es: seq<Event>, q: nat)
    requires Steady(t, {}) && q in t.problems
    requires forall e :: e in es ==> Regular(t, e) && (e.Refreshed? ==> e.q != q)
    ensures var t' := Run(t, es);
            && q in t'.problems
            && t'.problems[q].accepted == t.problems[q].accepted + AcceptedSubmits(es, q)
            && t'.problems[q].solved == t.problems[q].solved + FirstSolves(t, es, q)
  {
    hide Steady, Next, AcceptedOn, HaveSolved;
    if es != [] {
      var front, e := es[..|es| - 1], es[|es| - 1];
      AcceptedBySubmits(t, front, q);
      MixedRunSteady(t, front);
      assert Regular(t, e);
      StepAccepted(Run(t, front), e, q);
    }
  }

  /** A session over q's list that is closed by the refresh of another problem, as in a batch of two requests: every
      user and every other problem is restored, but q's accepted counters are what they were plus what the submits
      added, and so right exactly if the rejudged rows left the true numbers there. */
  lemma MixedBatch(t: Tables, es: seq<Event>, q: nat, other: nat)
    requires Steady(t, {}) && q != other && q in t.problems
    requires forall e :: e in es ==> Regular(t, e) && (e.Refreshed? ==> e.q != q)
    requires forall e :: e in es && e.Rejudged? ==> e.id in SolutionList(t.rows, q)
    ensures var after := Refresh(Run(t, es), other, REFRESH_STATEMENTS);
            && Steady(after, {q}) && UsersRestored(after)
            && after.problems.Keys == t.problems.Keys
            && (forall p | p in t.problems && p != q :: ProblemExact(after, p))
            && after.problems[q].accepted == t.problems[q].accepted + AcceptedSubmits(es, q)
            && after.problems[q].solved == t.problems[q].solved + FirstSolves(t, es, q)
            && (ProblemExact(after, q) <==>
                  Count(after.rows, AcceptedRows(q)) == Count(t.rows, AcceptedRows(q)) + AcceptedSubmits(es, q) &&
                  |Solvers(after.rows, q)| == |Solvers(t.rows, q)| + FirstSolves(t, es, q))
  {
    var before := Run(t, es);
    var after := Refresh(before, other, REFRESH_STATEMENTS);
    hide Refresh, Run, Count, Solvers, UsersRestored, ProblemExact, Steady, AcceptedSubmits, FirstSolves, SolutionList;
    RejudgeDirtiesOnlyItsProblem(t, es, q);
    RefreshRestoresUsers(t, es, other);
    MixedRunSteady(t, es);
    RefreshSteady(before, other, REFRESH_STATEMENTS, Dirty(t, es));
    MoreDirty(after, Dirty(t, es) - {other}, {q});
    OnlyOneDirty(after, q);
    AcceptedBySubmits(t, es, q);
    RefreshKeys(before, other, REFRESH_STATEMENTS);
    RefreshProblemFields(before, other, REFRESH_STATEMENTS, q);
    SteadyCounters(t, q);
  }

  lemma MoreDirty(t: Tables, few: set<nat>, many: set<nat>)
    requires Steady(t, few) && few <= many
    ensures Steady(t, many)
  {
    hide DistinctIds, UserSteady, Count, Solvers, Triers;
    forall p | p in t.problems ensures ProblemSteady(t, p, many) {
      assert ProblemSteady(t, p, few);
    }
  }

  lemma SteadyCounters(t: Tables, q: nat)
    requires Steady(t, {}) && q in t.problems
    ensures t.problems[q].accepted == Count(t.rows, AcceptedRows(q)) && t.problems[q].solved == |Solvers(t.rows, q)|
  {
    hide DistinctIds, UserSteady, Count, Solvers, Triers;
    assert ProblemSteady(t, q, {});
  }

  lemma OnlyOneDirty(t: Tables, q: nat)
    requires Steady(t, {q})
    ensures forall p | p in t.problems && p != q :: ProblemExact(t, p)
    ensures q in t.problems ==> (ProblemExact(t, q) <==>
              t.problems[q].accepted == Count(t.rows, AcceptedRows(q)) && t.problems[q].solved == |Solvers(t.rows, q)|)
  {
    hide DistinctIds, UserSteady, Count, Solvers, Triers;
    forall p | p in t.problems && p != q ensures ProblemExact(t, p) {
      assert ProblemSteady(t, p, {q});
    }
    assert q in t.problems ==> ProblemSteady(t, q, {q});
  }

  // ----- Examples -----

  /** The user's only accepted row is taken away by a rejudge to a wrong answer. */
  function TakenAway(t: Tables, sub: Submission): seq<Event> {
    [Submitted(sub, STATEMENTS), Rejudged(NextId(t.rows), sub.time, sub.memory, 4, 0)]
  }

  lemma TakenAwayRows(t: Tables, sub: Submission)
    requires Fresh(t) && sub.uid != "" && Listed(t, sub) && sub.result == ACCEPT
    ensures var t' := Run(t, TakenAway(t, sub));
            && |t'.rows| == 1 && t'.rows[0].result == 4 && t'.rows[0].pid == sub.pid && t'.rows[0].uid == sub.uid
            && sub.uid in t'.users && t'.users[sub.uid].solved == 1
            && t'.users[sub.uid].experience == t.experience[sub.pid]
            && sub.pid in t'.problems && t'.problems[sub.pid].accepted == 1 && t'.problems[sub.pid].solved == 1
  {
    hide Submit;
    RunTwo(t, TakenAway(t, sub)[0], TakenAway(t, sub)[1]);
    SubmitFull(t, sub);
    SubmitUserFields(t, sub, sub.uid);
    SubmitProblemFields(t, sub, sub.pid);
  }

  lemma NoneSolved(rows: seq<Row>, p: nat, u: string)
    requires forall r :: r in rows ==> r.result != ACCEPT
    ensures ProblemsSolved(rows, u) == {} && Solvers(rows, p) == {}
  {
    assert forall x, v :: !HaveSolved(rows, x, v);
  }

  /** Then a finished refresh of the problem leaves the user with a solved problem, and with its experience. */
  lemma StaleSolved(t: Tables, sub: Submission)
    requires Fresh(t) && sub.uid != "" && Listed(t, sub) && sub.result == ACCEPT
    ensures var after := Refresh(Run(t, TakenAway(t, sub)), sub.pid, REFRESH_STATEMENTS);
            && sub.uid in after.users && ProblemsSolved(after.rows, sub.uid) == {}
            && after.users[sub.uid].solved == 1
            && after.users[sub.uid].experience == t.experience[sub.pid]
  {
    hide Refresh, Run, TakenAway, Fresh;
    var before := Run(t, TakenAway(t, sub));
    TakenAwayRows(t, sub);
    NoneSolved(before.rows, sub.pid, sub.uid);
    RefreshRows(before, sub.pid, REFRESH_STATEMENTS);
    OutcomesSame(before.rows, Refresh(before, sub.pid, REFRESH_STATEMENTS).rows, sub.uid);
    RefreshUserFields(before, sub.pid, REFRESH_STATEMENTS, sub.uid);
  }

  /** And after a refresh of another problem, the problem with a solver it does not have. */
  lemma StaleProblem(t: Tables, sub: Submission, other: nat)
    requires Fresh(t) && sub.uid != "" && Listed(t, sub) && sub.result == ACCEPT && other != sub.pid
    ensures var after := Refresh(Run(t, TakenAway(t, sub)), other, REFRESH_STATEMENTS);
            && sub.pid in after.problems && Solvers(after.rows, sub.pid) == {}
            && after.problems[sub.pid].accepted == 1 && after.problems[sub.pid].solved == 1
  {
    hide Refresh, Run, TakenAway, Fresh;
    var before := Run(t, TakenAway(t, sub));
    TakenAwayRows(t, sub);
    NoneSolved(before.rows, sub.pid, sub.uid);
    RefreshRows(before, other, REFRESH_STATEMENTS);
    SolversSame(before.rows, Refresh(before, other, REFRESH_STATEMENTS).rows, sub.pid);
    RefreshProblemFields(before, other, REFRESH_STATEMENTS, sub.pid);
  }
}
