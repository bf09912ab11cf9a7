/** The functions of database.cpp as they change the tables, statement by statement. A connection or a query
    may fail at any statement; `done` says how many write statements get through. */
module Database {
  import opened Scoreboard
  import opened ScoreboardSubmit
  import opened ScoreboardRefresh

  datatype Outcome = Done | Threw

  class Connection {
    var solution: seq<Row>
    var compileinfo: seq<Message>
    var sourceCode: map<nat, string>
    var users: map<string, User>
    var problem: map<nat, Problem>
    const levelExperience: map<nat, int>

    constructor (users: map<string, User>, problem: map<nat, Problem>, levelExperience: map<nat, int>)
      ensures State() == Tables([], [], map[], users, problem, levelExperience)
    {
      this.solution, this.compileinfo, this.sourceCode := [], [], map[];
      this.users, this.problem, this.levelExperience := users, problem, levelExperience;
    }

    function State(): Tables
      reads this
    {
      Tables(solution, compileinfo, sourceCode, users, problem, levelExperience)
    }

    method GetNextSolutionId() returns (ret: nat)
      ensures ret == NextId(solution)
    {
      ret := 0;
      var row := MaxId(solution);
      if row.Some? {
        ret := row.value;
      }
      if ret == 0 {
        ret := 1000;
      } else {
        ret := ret + 1;
      }
    }

    method WriteResultToDatabase(id: nat, data: Submission, done: nat) returns (outcome: Outcome)
      modifies this
      ensures var before := old(State());
              State() == RunStatements(before, data, Plan(id, !HaveSolved(before.rows, data.pid, data.uid),
                                                          ScoreDelta(before.rows, data)), done)
      ensures outcome == Done <==> done >= STATEMENTS
    {
      hide HaveSolved, ScoreDelta, UpdateUser, UpdateProblem, RunInserts;
      ghost var plan := Plan(id, !HaveSolved(solution, data.pid, data.uid), ScoreDelta(solution, data));
      var valid := !HaveSolved(solution, data.pid, data.uid);
      var delta := NewScoreDelta(data);
      InsertRows(id, data, valid, done, plan);
      if done < 3 { return Threw; }
      var isFirstSolved := if valid && data.result == ACCEPT then 1 else 0;
      if done < 4 { return Threw; }
      UpdateUserInfo(data, isFirstSolved, delta, plan);
      if done < 5 { return Threw; }
      UpdateProblemInfo(id, data, isFirstSolved, valid, plan);
      return Done;
    }

    /** The three inserts. */
    method InsertRows(id: nat, data: Submission, valid: bool, done: nat, ghost plan: Plan)
      requires valid == plan.unsolved && id == plan.id
      modifies this
      ensures State() == RunInserts(old(State()), data, plan, done)
    {
      if done < 1 { return; }
      if data.result == COMPILATION_ERROR {
        compileinfo := compileinfo + [Message(id, data.lastState)];
      }
      if done < 2 { return; }
      solution := solution + [Row(id, data.pid, data.uid, data.time, data.memory, data.result, data.score,
                                  data.language, valid && data.result == ACCEPT, false)];
      if done < 3 { return; }
      sourceCode := sourceCode[id := data.code];
    }

    method NewScoreDelta(data: Submission) returns (delta: int)
      ensures delta == ScoreDelta(solution, data)
    {
      delta := 0;
      var row := MaxScore(solution, data.pid, data.uid);
      if row.Some? {
        delta := row.value;
      }
      if data.score > delta {
        delta := data.score - delta;
      } else {
        delta := 0;
      }
    }

    method UpdateUserInfo(data: Submission, isFirstSolved: int, delta: int, ghost plan: Plan)
      requires isFirstSolved == FirstSolved(data, plan) && delta == plan.delta
      modifies this`users
      ensures State() == UpdateUser(old(State()), data, plan)
    {
      if data.uid in users && data.pid in levelExperience {
        var u := users[data.uid];
        users := users[data.uid := User(u.submit + 1, u.solved + isFirstSolved, u.score + delta,
                                        u.experience + levelExperience[data.pid] * isFirstSolved, data.language)];
      }
    }

    method UpdateProblemInfo(id: nat, data: Submission, isFirstSolved: int, valid: bool, ghost plan: Plan)
      requires isFirstSolved == FirstSolved(data, plan) && valid == plan.unsolved && id == plan.id
      modifies this`problem
      ensures State() == UpdateProblem(old(State()), data, plan)
    {
      var submittedBefore := HaveSubmitted(solution, data.pid, data.uid, id);
      if data.pid in problem {
        var p := problem[data.pid];
        problem := problem[data.pid := Problem(p.submit + 1, p.accepted + (if data.result == ACCEPT then 1 else 0),
                                               p.submitUser + (if valid && !submittedBefore then 1 else 0),
                                               p.solved + isFirstSolved)];
      }
    }

    /** solution::WriteDatabase: takes a number, refuses an empty user name, writes. If nothing fails, consistent
        tables stay so exactly for a scorable submission. */
    method WriteDatabase(data: Submission, done: nat) returns (outcome: Outcome)
      modifies this
      ensures State() == Submit(old(State()), data, done)
      ensures outcome == Done <==> data.uid != "" && done >= STATEMENTS
      ensures outcome == Done && old(Consistent(State())) ==> (Consistent(State()) <==> Scorable(old(State()), data))
    {
      hide Consistent, Scorable;
      ghost var before := State();
      if Consistent(before) && done >= STATEMENTS {
        SubmitConsistentIff(before, data);
        AllStatements(before, data, done);
      }
      var id := GetNextSolutionId();
      if |data.uid| == 0 {
        return Threw;
      }
      hide NextId, RunStatements, HaveSolved, ScoreDelta;
      outcome := WriteResultToDatabase(id, data, done);
    }

    method UpdateExistSolutionInfo(id: nat, time: int, memory: int, result: int, score: int)
      modifies this`solution
      ensures State() == UpdateSolution(old(State()), id, time, memory, result, score)
      ensures State() == old(State()).(rows := solution) && |solution| == |old(solution)|
      ensures forall i :: 0 <= i < |solution| ==>
                var r := old(solution)[i];
                solution[i] == Row(r.id, r.pid, r.uid, if r.id == id then time else r.time,
                                   if r.id == id then memory else r.memory, if r.id == id then result else r.result,
                                   if r.id == id then score else r.score, r.language, r.valid, r.malicious)
    {
      solution := seq(|solution|, i requires 0 <= i < |solution| reads this =>
        if solution[i].id == id
        then solution[i].(time := time, memory := memory, result := result, score := score)
        else solution[i]);
    }

    /** If nothing fails, every user's score is recomputed, and exactly the accepted rows of q are marked. */
    method RefreshUsersProblem(q: nat, done: nat) returns (outcome: Outcome)
      modifies this
      ensures State() == Refresh(old(State()), q, done)
      ensures outcome == Done <==> done >= REFRESH_STATEMENTS
      ensures outcome == Done && old(Refreshable(State())) ==>
                && (forall u | u in users :: users[u].score == UserScore(solution, u))
                && (forall r | r in solution && r.pid == q :: r.valid <==> r.result == ACCEPT)
    {
      ghost var before := State();
      if Refreshable(before) && done >= REFRESH_STATEMENTS {
        RefreshMeans(before, q, done);
      }
      RefreshSteps(before, q);
      AllRefreshed(before, q, done);
      hide Refreshable, UserScore, Refresh;
      hide RefreshSolved, RefreshExperience, RefreshScore, ClearValid, SetValid, Solvers, Count;
      if done < 1 { return Threw; }
      users := RefreshSolved(State()).users;
      assert State() == Refresh(before, q, 1);
      if done < 2 { return Threw; }
      users := RefreshExperience(State()).users;
      assert State() == Refresh(before, q, 2);
      if done < 3 { return Threw; }
      users := RefreshScore(State()).users;
      assert State() == Refresh(before, q, 3);
      if done < 4 { return Threw; }
      if q in problem {
        problem := problem[q := problem[q].(solved := |Solvers(solution, q)|,
                                            accepted := Count(solution, AcceptedRows(q)))];
      }
      assert State() == Refresh(before, q, 4);
      if done < 5 { return Threw; }
      solution := ClearValid(State(), q).rows;
      assert State() == Refresh(before, q, 5);
      if done < 6 { return Threw; }
      solution := SetValid(State(), q).rows;
      return Done;
    }

    /** The ids of a problem's rows that are not marked malicious, in table order. */
    method GetSolutionList(q: nat) returns (rejudgeList: seq<nat>)
      ensures rejudgeList == SolutionList(solution, q)
    {
      rejudgeList := [];
      var i := 0;
      while i < |solution|
        invariant 0 <= i <= |solution|
        invariant rejudgeList == SolutionList(solution[..i], q)
      {
        assert solution[..i + 1][..i] == solution[..i];
        if solution[i].pid == q && !solution[i].malicious {
          rejudgeList := rejudgeList + [solution[i].id];
        }
        i := i + 1;
      }
      assert solution[..i] == solution;
    }
  }

  lemma AllStatements(t: Tables, data: Submission, done: nat)
    requires done >= STATEMENTS
    ensures Submit(t, data, done) == Submit(t, data, STATEMENTS)
  {
    hide MakePlan, InsertCompileInfo, InsertSolution, InsertSource, UpdateUser, UpdateProblem;
  }

  /** Ids identify rows, every problem with experience is listed, and users without rows stand at zero. */
  ghost predicate Refreshable(t: Tables) {
    && DistinctIds(t.rows) && t.experience.Keys <= t.problems.Keys
    && (forall u :: u in t.users ==> UserSteady(t, u))
  }

  lemma RefreshMeans(t: Tables, q: nat, done: nat)
    requires Refreshable(t) && done >= REFRESH_STATEMENTS
    ensures var t' := Refresh(t, q, done);
            && (forall u | u in t'.users :: t'.users[u].score == UserScore(t'.rows, u))
            && (forall r | r in t'.rows && r.pid == q :: r.valid <==> r.result == ACCEPT)
  {
    hide RefreshSolved, RefreshExperience, RefreshScore, RefreshProblem, ClearValid, SetValid, UserScore, UserSteady,
      ListedRewards, ProblemsSolved;
    assert Refresh(t, q, done) == Refresh(t, q, REFRESH_STATEMENTS);
    hide Refresh;
    var t' := Refresh(t, q, REFRESH_STATEMENTS);
    RefreshKeys(t, q, REFRESH_STATEMENTS);
    forall u | u in t'.users ensures t'.users[u].score == UserScore(t'.rows, u) {
      RefreshedUser(t, q, u);
    }
    RefreshRows(t, q, REFRESH_STATEMENTS);
    forall r | r in t'.rows && r.pid == q ensures r.valid <==> r.result == ACCEPT {
      var i :| 0 <= i < |t'.rows| && t'.rows[i] == r;
      RefreshMarksAllAccepted(t, q, i);
    }
  }

  /** Each statement works on what the one before left. */
  lemma RefreshSteps(t: Tables, q: nat)
    ensures Refresh(t, q, 0) == t
    ensures Refresh(t, q, 1) == RefreshSolved(t)
    ensures Refresh(t, q, 2) == RefreshExperience(Refresh(t, q, 1))
    ensures Refresh(t, q, 3) == RefreshScore(Refresh(t, q, 2))
    ensures Refresh(t, q, 4) == RefreshProblem(Refresh(t, q, 3), q)
    ensures Refresh(t, q, 5) == ClearValid(Refresh(t, q, 4), q)
    ensures Refresh(t, q, 6) == SetValid(Refresh(t, q, 5), q)
  {
    hide RefreshSolved, RefreshExperience, RefreshScore, RefreshProblem, ClearValid, SetValid;
  }

  lemma AllRefreshed(t: Tables, q: nat, done: nat)
    ensures done >= REFRESH_STATEMENTS ==> Refresh(t, q, done) == Refresh(t, q, REFRESH_STATEMENTS)
  {
    hide RefreshSolved, RefreshExperience, RefreshScore, RefreshProblem, ClearValid, SetValid;
  }
}
