/** The rows themselves: what each column holds after any run, and what a rejudge does to a score. */
module ScoreboardRows {
  import opened Totals
  import opened Wrappers
  import opened Scoreboard
  import opened ScoreboardSubmit
  import opened ScoreboardRuns
  import opened ScoreboardRefresh

  // ----- Columns after a run -----

  /** A submit that gets as far as its row. */
  predicate Stores(e: Event) { e.Submitted? && e.sub.uid != "" && e.stop >= 2 }

  function Stored(es: seq<Event>): (r: seq<Event>)
    ensures forall i :: 0 <= i < |r| ==> Stores(r[i])
  {
    if es == [] then [] else
      Stored(es[..|es| - 1]) + if Stores(es[|es| - 1]) then [es[|es| - 1]] else []
  }

  datatype Outcome = Outcome(time: int, memory: int, result: int, score: int)

  /** The outcome that counts for the submission number k: its own, or that of the last rejudge after it. */
  function LastOutcome(es: seq<Event>, k: nat): Outcome
    requires k < |Stored(es)|
  {
    var front, e := es[..|es| - 1], es[|es| - 1];
    if k == |Stored(front)| then Outcome(e.sub.time, e.sub.memory, e.sub.result, e.sub.score)
    else if e.Rejudged? && e.id == 1000 + k then Outcome(e.time, e.memory, e.result, e.score)
    else LastOutcome(front, k)
  }

  /** Row number k. */
  ghost predicate RowIs(r: Row, k: nat, sub: Submission, o: Outcome) {
    && r.id == 1000 + k
    && r.pid == sub.pid && r.uid == sub.uid && r.language == sub.language && !r.malicious
    && r.time == o.time && r.memory == o.memory && r.result == o.result && r.score == o.score
  }

  ghost predicate RowsAre(rows: seq<Row>, es: seq<Event>) {
    && |rows| == |Stored(es)|
    && forall k :: 0 <= k < |rows| ==> RowIs(rows[k], k, Stored(es)[k].sub, LastOutcome(es, k))
  }

  lemma NumberedNext(rows: seq<Row>)
    requires forall k :: 0 <= k < |rows| ==> rows[k].id == 1000 + k
    ensures NextId(rows) == 1000 + |rows|
  {
    if rows != [] {
      assert rows[|rows| - 1] in rows;
    }
  }

  lemma SubmitRows(t: Tables, sub: Submission, k: nat)
    requires sub.uid != ""
    ensures Submit(t, sub, k).rows == if k >= 2 then t.rows + [NewRow(sub, MakePlan(t.rows, sub))] else t.rows
  {
    hide RunStatements, MakePlan, NewRow, UpdateUser;
    RunPrefix(t, sub, MakePlan(t.rows, sub), k);
  }

  lemma StoredMore(es: seq<Event>, e: Event)
    ensures (es + [e])[..|es|] == es
    ensures Stored(es + [e]) == if Stores(e) then Stored(es) + [e] else Stored(es)
  {
    assert (es + [e])[..|es|] == es;
  }

  lemma StepRows(t: Tables, es: seq<Event>, e: Event)
    requires RowsAre(t.rows, es)
    ensures RowsAre(Next(t, e).rows, es + [e])
  {
    hide Submit, Refresh, Stores;
    StoredMore(es, e);
    match e
    case Submitted(sub, stop) => SubmitStep(t, es, e);
    case Rejudged(_, _, _, _, _) => RejudgeStep(t, es, e);
    case Refreshed(q, stop) => RefreshStep(t, es, e);
  }

  lemma NewRowIs(t: Tables, es: seq<Event>, e: Event)
    requires RowsAre(t.rows, es) && Stores(e)
    ensures RowIs(NewRow(e.sub, MakePlan(t.rows, e.sub)), |t.rows|, e.sub,
                  Outcome(e.sub.time, e.sub.memory, e.sub.result, e.sub.score))
  {
    forall k | 0 <= k < |t.rows| ensures t.rows[k].id == 1000 + k {
      assert RowIs(t.rows[k], k, Stored(es)[k].sub, LastOutcome(es, k));
    }
    NumberedNext(t.rows);
  }

  lemma SubmitStep(t: Tables, es: seq<Event>, e: Event)
    requires RowsAre(t.rows, es) && e.Submitted?
    ensures RowsAre(Next(t, e).rows, es + [e])
  {
    StoredMore(es, e);
    if Stores(e) { NewRowIs(t, es, e); }
    hide Submit, RowIs, NewRow, MakePlan;
    if e.sub.uid == "" { NamelessSubmit(t, e.sub, e.stop); } else { SubmitRows(t, e.sub, e.stop); }
  }

  lemma OutcomeMore(es: seq<Event>, e: Event, k: nat)
    requires k < |Stored(es)|
    ensures k < |Stored(es + [e])| && Stored(es + [e])[k] == Stored(es)[k]
    ensures LastOutcome(es + [e], k) ==
            if e.Rejudged? && e.id == 1000 + k then Outcome(e.time, e.memory, e.result, e.score) else LastOutcome(es, k)
  {
    StoredMore(es, e);
  }

  lemma RejudgeStep(t: Tables, es: seq<Event>, e: Event)
    requires RowsAre(t.rows, es) && e.Rejudged?
    ensures RowsAre(Next(t, e).rows, es + [e])
  {
    StoredMore(es, e);
    hide Stored, LastOutcome;
    forall k | 0 <= k < |t.rows|
      ensures RowIs(Next(t, e).rows[k], k, Stored(es + [e])[k].sub, LastOutcome(es + [e], k))
    {
      OutcomeMore(es, e, k);
      assert RowIs(t.rows[k], k, Stored(es)[k].sub, LastOutcome(es, k));
    }
  }

  lemma RefreshStep(t: Tables, es: seq<Event>, e: Event)
    requires RowsAre(t.rows, es) && e.Refreshed?
    ensures RowsAre(Next(t, e).rows, es + [e])
  {
    hide Refresh, RefreshSolved, RefreshExperience, RefreshScore, RefreshProblem, Stored, LastOutcome;
    StoredMore(es, e);
    RefreshRows(t, e.q, e.stop);
    forall k | 0 <= k < |t.rows|
      ensures RowIs(Next(t, e).rows[k], k, Stored(es + [e])[k].sub, LastOutcome(es + [e], k))
    {
      OutcomeMore(es, e, k);
      assert RowIs(t.rows[k], k, Stored(es)[k].sub, LastOutcome(es, k));
    }
  }

  /** Over every run of submits, rejudge updates and refreshes, wherever they stop, the rows are the submissions that
      got as far as their row, numbered from 1000 in their order; each holds what was submitted, and of time, memory,
      result and score what was measured last. */
  lemma RowsAreSubmissions(t: Tables, es: seq<Event>)
    requires t.rows == []
    ensures var rows := Run(t, es).rows;
            && |rows| == |Stored(es)|
            && forall k :: 0 <= k < |rows| ==>
                 var r, sub, o := rows[k], Stored(es)[k].sub, LastOutcome(es, k);
                 && r.id == 1000 + k && r.pid == sub.pid && r.uid == sub.uid
                 && r.time == o.time && r.memory == o.memory && r.result == o.result && r.score == o.score
                 && r.language == sub.language && !r.malicious
  {
    RunRows(t, es);
  }

  lemma {:induction false} RunRows(t: Tables, es: seq<Event>)
    requires t.rows == []
    ensures RowsAre(Run(t, es).rows, es)
  {
    hide RowIs, Next, Stores;
    if es != [] {
      var front, e := es[..|es| - 1], es[|es| - 1];
      RunRows(t, front);
      assert front + [e] == es;
      StepRows(Run(t, front), front, e);
    }
  }

  // ----- Sources -----

  /** The sources are there for exactly the rows whose write got as far, each under its row's id. */
  ghost predicate SourcesAre(sources: map<nat, string>, stored: seq<Event>) {
    forall id: nat ::
      && (id in sources <==>
            1000 <= id < 1000 + |stored| && stored[id - 1000].Submitted? && stored[id - 1000].stop >= 3)
      && (id in sources ==> sources[id] == stored[id - 1000].sub.code)
  }

  lemma RefreshSources(t: Tables, q: nat, k: nat)
    ensures Refresh(t, q, k).sources == t.sources
  {
    hide RefreshSolved, RefreshExperience, RefreshScore, RefreshProblem, ClearValid, SetValid;
    RefreshProblemAfter(Refresh(t, q, 3), Refresh(t, q, 3), q);
  }

  lemma SubmitSources(t: Tables, sub: Submission, k: nat)
    requires sub.uid != ""
    ensures Submit(t, sub, k).sources == if k >= 3 then t.sources[NextId(t.rows) := sub.code] else t.sources
  {
    hide RunStatements, NewRow, UpdateUser, NextId;
    RunPrefix(t, sub, MakePlan(t.rows, sub), k);
  }

  lemma SourcesMore(sources: map<nat, string>, stored: seq<Event>, e: Event)
    requires SourcesAre(sources, stored) && Stores(e)
    ensures SourcesAre(if e.stop >= 3 then sources[1000 + |stored| := e.sub.code] else sources, stored + [e])
  {
    assert forall i :: 0 <= i < |stored| ==> (stored + [e])[i] == stored[i];
  }

  lemma StepSources(t: Tables, es: seq<Event>, e: Event)
    requires RowsAre(t.rows, es) && SourcesAre(t.sources, Stored(es))
    ensures SourcesAre(Next(t, e).sources, Stored(es + [e]))
  {
    hide Submit, Refresh, SourcesAre, RowIs, LastOutcome;
    StoredMore(es, e);
    match e
    case Submitted(sub, stop) =>
      if sub.uid == "" { NamelessSubmit(t, sub, stop); } else {
        SubmitSources(t, sub, stop);
        RowsNumbered(t.rows, es);
        if stop >= 2 { SourcesMore(t.sources, Stored(es), e); }
      }
    case Rejudged(_, _, _, _, _) =>
    case Refreshed(q, stop) => RefreshSources(t, q, stop);
  }

  lemma RowsNumbered(rows: seq<Row>, es: seq<Event>)
    requires RowsAre(rows, es)
    ensures NextId(rows) == 1000 + |Stored(es)|
  {
    hide NextId, LastOutcome;
    forall k | 0 <= k < |rows| ensures rows[k].id == 1000 + k {
      assert RowIs(rows[k], k, Stored(es)[k].sub, LastOutcome(es, k));
    }
    NumberedNext(rows);
  }

  lemma {:induction false} SourcesAreSubmitted(t: Tables, es: seq<Event>)
    requires t.rows == [] && t.sources == map[]
    ensures SourcesAre(Run(t, es).sources, Stored(es))
  {
    hide RowsAre, Next, Stores;
    if es != [] {
      var front, e := es[..|es| - 1], es[|es| - 1];
      SourcesAreSubmitted(t, front);
      RunRows(t, front);
      assert front + [e] == es;
      hide SourcesAre;
      StepSources(Run(t, front), front, e);
    }
  }

  // ----- One row rejudged -----

  /** What the update writes, column by column: the four of the outcome in the row with the id, nothing else. */
  lemma RejudgedColumns(t: Tables, id: nat, time: int, memory: int, result: int, score: int)
    ensures var t' := UpdateSolution(t, id, time, memory, result, score);
            && t' == t.(rows := t'.rows) && |t'.rows| == |t.rows|
            && forall i :: 0 <= i < |t.rows| ==>
                 var r, r' := t.rows[i], t'.rows[i];
                 && r'.id == r.id && r'.pid == r.pid && r'.uid == r.uid
                 && r'.language == r.language && r'.valid == r.valid && r'.malicious == r.malicious
                 && r'.time == (if r.id == id then time else r.time)
                 && r'.memory == (if r.id == id then memory else r.memory)
                 && r'.result == (if r.id == id then result else r.result)
                 && r'.score == (if r.id == id then score else r.score)
  {
  }

  /** The best of the user's other rows for the problem, and of this one. */
  ghost predicate IsBest(best: int, rows: seq<Row>, i: nat, score: int)
    requires i < |rows|
  {
    && best >= score
    && (forall j | 0 <= j < |rows| && j != i && By(rows[j], rows[i].pid, rows[i].uid) :: best >= rows[j].score)
    && (best == score ||
        exists j :: 0 <= j < |rows| && j != i && By(rows[j], rows[i].pid, rows[i].uid) && best == rows[j].score)
  }

  ghost predicate Rescored(rows: seq<Row>, rows': seq<Row>, i: nat, score: int) {
    && i < |rows| && SameKeys(rows, rows')
    && forall j :: 0 <= j < |rows| ==> rows'[j].score == if j == i then score else rows[j].score
  }

  lemma RescoredBest(rows: seq<Row>, rows': seq<Row>, i: nat, score: int)
    requires Rescored(rows, rows', i, score)
    ensures HasRow(rows', rows[i].pid, rows[i].uid) && IsBest(Best(rows', rows[i].pid, rows[i].uid), rows, i, score)
  {
    var p, u := rows[i].pid, rows[i].uid;
    assert rows'[i] in rows' && By(rows'[i], p, u);
    var m := MaxScore(rows', p, u).value;
    forall j | 0 <= j < |rows| && By(rows[j], p, u) ensures m >= rows'[j].score {
      assert rows'[j] in rows' && By(rows'[j], p, u);
    }
    var r :| r in rows' && By(r, p, u) && r.score == m;
    var j :| 0 <= j < |rows'| && rows'[j] == r;
    assert By(rows[j], p, u);
  }

  /** The rows of u for p have the same scores. */
  predicate SameScores(a: seq<Row>, b: seq<Row>, p: nat, u: string) {
    SameKeys(a, b) && forall j :: 0 <= j < |a| && By(a[j], p, u) ==> a[j].score == b[j].score
  }

  lemma BestNotLess(a: seq<Row>, b: seq<Row>, p: nat, u: string)
    requires SameScores(a, b, p, u) && MaxScore(a, p, u).Some?
    ensures MaxScore(b, p, u).Some? && MaxScore(b, p, u).value >= MaxScore(a, p, u).value
  {
    hide MaxScore;
    var r :| r in a && By(r, p, u) && r.score == MaxScore(a, p, u).value;
    var j :| 0 <= j < |a| && a[j] == r;
    assert b[j] in b && By(b[j], p, u);
  }

  lemma SameBests(a: seq<Row>, b: seq<Row>, p: nat, u: string)
    requires SameScores(a, b, p, u)
    ensures MaxScore(a, p, u) == MaxScore(b, p, u)
  {
    hide MaxScore;
    assert SameScores(b, a, p, u);
    if MaxScore(a, p, u).Some? { BestNotLess(a, b, p, u); }
    if MaxScore(b, p, u).Some? { BestNotLess(b, a, p, u); }
  }

  /** Only one entry of one user's best scores moves. */
  lemma RescoredMap(rows: seq<Row>, rows': seq<Row>, i: nat, score: int, u: string)
    requires i < |rows| && Rescored(rows, rows', i, score)
    ensures var p := rows[i].pid;
            BestScores(rows', u) ==
            if u == rows[i].uid then BestScores(rows, u)[p := Best(rows', p, u)] else BestScores(rows, u)
  {
    hide *;
    var p, there := rows[i].pid, u == rows[i].uid;
    if there {
      RescoredBest(rows, rows', i, score);
      HasOwnRow(rows, i);
    }
    var m, m' := BestScores(rows, u), BestScores(rows', u);
    forall q: nat | !(there && q == p) ensures (q in m <==> q in m') && (q in m && q in m' ==> m[q] == m'[q]) {
      OthersSame(rows, rows', i, score, q, u);
    }
    MapsDiffer(m, m', p, there);
  }

  lemma OthersSame(rows: seq<Row>, rows': seq<Row>, i: nat, score: int, q: nat, u: string)
    requires i < |rows| && Rescored(rows, rows', i, score) && !(u == rows[i].uid && q == rows[i].pid)
    ensures HasRow(rows, q, u) <==> HasRow(rows', q, u)
    ensures Best(rows, q, u) == Best(rows', q, u)
  {
    assert SameScores(rows, rows', q, u);
    hide MaxScore, HasRow, SameScores, Rescored;
    SameBests(rows, rows', q, u);
  }

  lemma MapsDiffer(m: map<nat, int>, m': map<nat, int>, p: nat, there: bool)
    requires forall q: nat :: !(there && q == p) ==> (q in m <==> q in m') && (q in m && q in m' ==> m[q] == m'[q])
    requires there ==> p in m'
    ensures m' == if there then m[p := m'[p]] else m
  {
  }

  /** After a rejudge of one row and a finished refresh the user's best score for the problem is the rejudged score or
      that of another of the user's rows for it, whichever is more, the user's score has moved by the difference, and no
      other user's has moved. */
  lemma RejudgeRescores(t: Tables, i: nat, time: int, memory: int, result: int, score: int)
    requires Steady(t, {}) && i < |t.rows| && t.rows[i].uid in t.users
    ensures var p, u := t.rows[i].pid, t.rows[i].uid;
            var after := Refresh(UpdateSolution(t, t.rows[i].id, time, memory, result, score), p, REFRESH_STATEMENTS);
            var best := BestScores(after.rows, u);
            && p in best && p in BestScores(t.rows, u) && IsBest(best[p], t.rows, i, score)
            && u in after.users
            && after.users[u].score == UserScore(t.rows, u) - BestScores(t.rows, u)[p] + best[p]
            && (forall v | v in t.users && v != u :: v in after.users && after.users[v].score == UserScore(t.rows, v))
  {
    hide Refresh, UpdateSolution, Steady, IsBest, BestScores, Best, UserScore, HasRow, Rescored, RefreshSolved,
      RefreshExperience, RefreshScore, RefreshProblem, SameOutcomes;
    var p, u, id := t.rows[i].pid, t.rows[i].uid, t.rows[i].id;
    var mid := UpdateSolution(t, id, time, memory, result, score);
    var after := Refresh(mid, p, REFRESH_STATEMENTS);
    UpdateRescores(t, i, time, memory, result, score);
    RescoredBest(t.rows, mid.rows, i, score);
    RefreshRows(mid, p, REFRESH_STATEMENTS);
    OutcomesSame(mid.rows, after.rows, u);
    forall v | v in t.users
      ensures v in after.users
      ensures after.users[v].score ==
              UserScore(t.rows, v) + if v == u then Best(mid.rows, p, u) - BestScores(t.rows, u)[p] else 0
    {
      AfterRefresh(t, id, time, memory, result, score, p, v);
      RescoredTotal(t.rows, mid.rows, i, score, v);
    }
  }

  lemma UpdateRescores(t: Tables, i: nat, time: int, memory: int, result: int, score: int)
    requires Steady(t, {}) && i < |t.rows|
    ensures Rescored(t.rows, UpdateSolution(t, t.rows[i].id, time, memory, result, score).rows, i, score)
    ensures t.rows[i].pid in BestScores(t.rows, t.rows[i].uid)
  {
    IdsApart(t);
    HasOwnRow(t.rows, i);
    hide Steady, BestScores;
    RejudgedColumns(t, t.rows[i].id, time, memory, result, score);
  }

  lemma IdsApart(t: Tables)
    requires Steady(t, {})
    ensures DistinctIds(t.rows)
  {
  }

  lemma HasOwnRow(rows: seq<Row>, i: nat)
    requires i < |rows|
    ensures HasRow(rows, rows[i].pid, rows[i].uid)
  {
    assert rows[i] in rows && By(rows[i], rows[i].pid, rows[i].uid);
  }

  lemma RescoredTotal(rows: seq<Row>, rows': seq<Row>, i: nat, score: int, v: string)
    requires i < |rows| && Rescored(rows, rows', i, score)
    ensures HasRow(rows, rows[i].pid, rows[i].uid)
    ensures UserScore(rows', v) == UserScore(rows, v) +
            if v == rows[i].uid then Best(rows', rows[i].pid, v) - BestScores(rows, v)[rows[i].pid] else 0
  {
    hide BestScores, SumValues, Best, Rescored;
    HasOwnRow(rows, i);
    RescoredMap(rows, rows', i, score, v);
    TotalUpdate(BestScores(rows, v), rows[i].pid, Best(rows', rows[i].pid, v));
  }

  lemma AfterRefresh(t: Tables, id: nat, time: int, memory: int, result: int, score: int, q: nat, v: string)
    requires Steady(t, {}) && v in t.users
    ensures var mid := UpdateSolution(t, id, time, memory, result, score);
            var after := Refresh(mid, q, REFRESH_STATEMENTS);
            v in after.users && after.users[v].score == UserScore(mid.rows, v)
  {
    hide Refresh, UserScore, RefreshSolved, RefreshExperience, RefreshScore, RefreshProblem;
    var mid := UpdateSolution(t, id, time, memory, result, score);
    RejudgeSteady(t, id, time, memory, result, score, {});
    RefreshUserFields(mid, q, REFRESH_STATEMENTS, v);
    assert UserSteady(mid, v);
    if ProblemsTried(mid.rows, v) == {} { NothingSolved(mid, v); }
  }

  // ----- The list of a rejudge -----

  predicate Rising(ids: seq<nat>) { forall i, j :: 0 <= i < j < |ids| ==> ids[i] < ids[j] }

  /** Over tables numbered in their order the list holds each id of the problem that is not malicious, once, rising;
      there is only one such list. */
  lemma {:induction false} ListIsRising(rows: seq<Row>, q: nat)
    requires forall i, j :: 0 <= i < j < |rows| ==> rows[i].id < rows[j].id
    ensures Rising(SolutionList(rows, q))
    ensures forall id ::
              id in SolutionList(rows, q) <==> exists r :: r in rows && r.id == id && r.pid == q && !r.malicious
  {
    forall id: nat
      ensures id in SolutionList(rows, q) <==> exists r :: r in rows && r.id == id && r.pid == q && !r.malicious
    {
      SolutionListRows(rows, q, id);
    }
    if rows != [] {
      var n := |rows| - 1;
      var front := SolutionList(rows[..n], q);
      ListIsRising(rows[..n], q);
      forall k | 0 <= k < |front| ensures front[k] < rows[n].id {
        SolutionListRows(rows[..n], q, front[k]);
        assert front[k] in front;
      }
    }
  }
}
