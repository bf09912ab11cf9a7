/** The scoreboard tables of database.cpp: rows, the SQL statements that change them one at a time, and
    what the kept aggregates are supposed to mean. */
module Scoreboard {
  import opened Totals
  import opened Wrappers

  const ACCEPT := 0
  const COMPILATION_ERROR := 7

  /** One row of `solution`. */
  datatype Row = Row(id: nat, pid: nat, uid: string, time: int, memory: int, result: int, score: int,
                     language: int, valid: bool, malicious: bool)

  /** The counters kept in `users` and in `problem`. */
  datatype User = User(submit: int, solved: int, score: int, experience: int, language: int)
  datatype Problem = Problem(submit: int, accepted: int, submitUser: int, solved: int)

  /** `experience` maps a problem to the experience of its level; a problem whose level has no row in
      `level_experience` is absent. */
  datatype Tables = Tables(rows: seq<Row>, compileInfo: seq<Message>, sources: map<nat, string>,
                           users: map<string, User>, problems: map<nat, Problem>, experience: map<nat, int>)

  /** One row of `compileinfo`. */
  datatype Message = Message(id: nat, text: string)

  /** A judged solution object, as the judge thread hands it over. */
  datatype Submission = Submission(pid: nat, uid: string, result: int, score: int, time: int, memory: int,
                                   language: int, code: string, lastState: string)

  // ----- Queries -----

  predicate By(r: Row, p: nat, u: string) {
    r.pid == p && r.uid == u
  }

  predicate HaveSolved(rows: seq<Row>, p: nat, u: string) {
    exists r :: r in rows && By(r, p, u) && r.result == ACCEPT
  }

  predicate HaveSubmitted(rows: seq<Row>, p: nat, u: string, before: nat) {
    exists r :: r in rows && By(r, p, u) && r.id < before
  }

  predicate HasRow(rows: seq<Row>, p: nat, u: string) {
    exists r :: r in rows && By(r, p, u)
  }

  /** `select max(score)`: NULL when no row matches. */
  function MaxScore(rows: seq<Row>, p: nat, u: string): (m: Option<int>)
    ensures m.Some? <==> HasRow(rows, p, u)
    ensures m.Some? ==> (exists r :: r in rows && By(r, p, u) && r.score == m.value)
    ensures m.Some? ==> (forall r :: r in rows && By(r, p, u) ==> r.score <= m.value)
  {
    if rows == [] then None else
      var n := |rows| - 1;
      var last := rows[n];
      assert forall r :: r in rows <==> r in rows[..n] || r == last;
      match MaxScore(rows[..n], p, u)
      case None => if By(last, p, u) then Some(last.score) else None
      case Some(m) => if By(last, p, u) && last.score > m then Some(last.score) else Some(m)
  }

  /** The best score as the code reads it: a NULL maximum counts as zero. */
  function Best(rows: seq<Row>, p: nat, u: string): int {
    match MaxScore(rows, p, u)
    case None => 0
    case Some(m) => m
  }

  function MaxId(rows: seq<Row>): (m: Option<nat>)
    ensures m.None? <==> rows == []
    ensures m.Some? ==> exists r :: r in rows && r.id == m.value
    ensures m.Some? ==> forall r :: r in rows ==> r.id <= m.value
  {
    if rows == [] then None else
      var n := |rows| - 1;
      assert forall r :: r in rows <==> r in rows[..n] || r == rows[n];
      assert rows[n] in rows;
      match MaxId(rows[..n])
      case None => Some(rows[n].id)
      case Some(m) => if rows[n].id > m then Some(rows[n].id) else Some(m)
  }

  /** The id of the next solution is above every id in use; numbering starts at 1000. */
  function NextId(rows: seq<Row>): (id: nat)
    ensures forall r :: r in rows ==> r.id < id
    ensures (forall r :: r in rows ==> r.id == 0) ==> id == 1000
    ensures (exists r :: r in rows && r.id > 0) ==> exists r :: r in rows && r.id == id - 1
  {
    match MaxId(rows)
    case None => 1000
    case Some(m) => if m == 0 then 1000 else m + 1
  }

  // ----- What the counters mean -----

  function Count(rows: seq<Row>, f: Row -> bool): nat {
    if rows == [] then 0
    else Count(rows[..|rows| - 1], f) + if f(rows[|rows| - 1]) then 1 else 0
  }

  function RowsOfUser(u: string): Row -> bool { (r: Row) => r.uid == u }

  function RowsOfProblem(p: nat): Row -> bool { (r: Row) => r.pid == p }

  function AcceptedRows(p: nat): Row -> bool { (r: Row) => r.pid == p && r.result == ACCEPT }

  function Added<T>(s: set<T>, x: T, really: bool): (s': set<T>)
    ensures |s'| == |s| + if really && x !in s then 1 else 0
  {
    assert x in s ==> s + {x} == s;
    if really then s + {x} else s
  }

  /** The problems a user has rows for. */
  function ProblemsTried(rows: seq<Row>, u: string): (s: set<nat>)
    ensures forall p :: p in s <==> HasRow(rows, p, u)
  {
    if rows == [] then {} else
      var last := rows[|rows| - 1];
      HasRowSplit(rows);
      Added(ProblemsTried(rows[..|rows| - 1], u), last.pid, last.uid == u)
  }

  /** The problems a user has accepted rows for. */
  function ProblemsSolved(rows: seq<Row>, u: string): (s: set<nat>)
    ensures forall p :: p in s <==> HaveSolved(rows, p, u)
  {
    if rows == [] then {} else
      var last := rows[|rows| - 1];
      HasRowSplit(rows);
      Added(ProblemsSolved(rows[..|rows| - 1], u), last.pid, last.uid == u && last.result == ACCEPT)
  }

  /** The users with rows for a problem. */
  function Triers(rows: seq<Row>, p: nat): (s: set<string>)
    ensures forall u :: u in s <==> HasRow(rows, p, u)
  {
    if rows == [] then {} else
      var last := rows[|rows| - 1];
      HasRowSplit(rows);
      Added(Triers(rows[..|rows| - 1], p), last.uid, last.pid == p)
  }

  /** The users with accepted rows for a problem. */
  function Solvers(rows: seq<Row>, p: nat): (s: set<string>)
    ensures forall u :: u in s <==> HaveSolved(rows, p, u)
  {
    if rows == [] then {} else
      var last := rows[|rows| - 1];
      HasRowSplit(rows);
      Added(Solvers(rows[..|rows| - 1], p), last.uid, last.pid == p && last.result == ACCEPT)
  }

  lemma HasRowSplit(rows: seq<Row>)
    requires rows != []
    ensures forall p, u :: HasRow(rows, p, u) <==>
              HasRow(rows[..|rows| - 1], p, u) || By(rows[|rows| - 1], p, u)
    ensures forall p, u :: HaveSolved(rows, p, u) <==>
              HaveSolved(rows[..|rows| - 1], p, u) || (By(rows[|rows| - 1], p, u) && rows[|rows| - 1].result == ACCEPT)
  {
    assert forall r :: r in rows <==> r in rows[..|rows| - 1] || r == rows[|rows| - 1];
  }

  /** `select problem_id, max(score) ... group by problem_id` for one user. */
  function BestScores(rows: seq<Row>, u: string): (m: map<nat, int>)
    ensures forall p :: p in m <==> HasRow(rows, p, u)
    ensures forall p :: p in m ==> m[p] == Best(rows, p, u)
  {
    if rows == [] then map[] else
      var last := rows[|rows| - 1];
      var front := BestScores(rows[..|rows| - 1], u);
      HasRowSplit(rows);
      if last.uid != u then front
      else if last.pid in front && front[last.pid] >= last.score then front
      else front[last.pid := last.score]
  }

  function Rewards(solved: set<nat>, experience: map<nat, int>): map<nat, int> {
    map p | p in solved && p in experience :: experience[p]
  }

  function UserScore(rows: seq<Row>, u: string): int { SumValues(BestScores(rows, u)) }

  function UserExperience(rows: seq<Row>, u: string, experience: map<nat, int>): int {
    SumValues(Rewards(ProblemsSolved(rows, u), experience))
  }

  /** Row i is the first accepted one of its user on its problem. */
  predicate FirstAccepted(rows: seq<Row>, i: nat)
    requires i < |rows|
  {
    rows[i].result == ACCEPT && !HaveSolved(rows[..i], rows[i].pid, rows[i].uid)
  }

  ghost predicate UserExact(t: Tables, u: string)
    requires u in t.users
  {
    && t.users[u].submit == Count(t.rows, RowsOfUser(u))
    && t.users[u].solved == |ProblemsSolved(t.rows, u)|
    && t.users[u].score == UserScore(t.rows, u)
    && t.users[u].experience == UserExperience(t.rows, u, t.experience)
  }

  ghost predicate ProblemExact(t: Tables, p: nat)
    requires p in t.problems
  {
    && t.problems[p].submit == Count(t.rows, RowsOfProblem(p))
    && t.problems[p].accepted == Count(t.rows, AcceptedRows(p))
    && t.problems[p].submitUser == |Triers(t.rows, p)|
    && t.problems[p].solved == |Solvers(t.rows, p)|
  }

  ghost predicate ValidExact(rows: seq<Row>) {
    forall i :: 0 <= i < |rows| ==> (rows[i].valid <==> FirstAccepted(rows, i))
  }

  /** Every kept aggregate equals its recomputation from the rows. */
  ghost predicate Consistent(t: Tables) {
    && (forall u :: u in t.users ==> UserExact(t, u))
    && (forall p :: p in t.problems ==> ProblemExact(t, p))
    && ValidExact(t.rows)
  }

  // ----- Statements -----

  /** The three values write_result_to_database computes before its first write. */
  datatype Plan = Plan(id: nat, unsolved: bool, delta: int)

  function ScoreDelta(rows: seq<Row>, sub: Submission): int {
    var best := Best(rows, sub.pid, sub.uid);
    if sub.score > best then sub.score - best else 0
  }

  function MakePlan(rows: seq<Row>, sub: Submission): Plan {
    Plan(NextId(rows), !HaveSolved(rows, sub.pid, sub.uid), ScoreDelta(rows, sub))
  }

  function FirstSolved(sub: Submission, plan: Plan): int {
    if plan.unsolved && sub.result == ACCEPT then 1 else 0
  }

  function InsertCompileInfo(t: Tables, sub: Submission, plan: Plan): Tables {
    if sub.result == COMPILATION_ERROR then t.(compileInfo := t.compileInfo + [Message(plan.id, sub.lastState)]) else t
  }

  function NewRow(sub: Submission, plan: Plan): Row {
    Row(plan.id, sub.pid, sub.uid, sub.time, sub.memory, sub.result, sub.score, sub.language,
        plan.unsolved && sub.result == ACCEPT, false)
  }

  function InsertSolution(t: Tables, sub: Submission, plan: Plan): Tables {
    t.(rows := t.rows + [NewRow(sub, plan)])
  }

  function InsertSource(t: Tables, sub: Submission, plan: Plan): Tables {
    t.(sources := t.sources[plan.id := sub.code])
  }

  /** The joined update: without a level row the join is empty and no user is touched. */
  function UpdateUser(t: Tables, sub: Submission, plan: Plan): Tables {
    if sub.uid in t.users && sub.pid in t.experience then
      var first := FirstSolved(sub, plan);
      var user := t.users[sub.uid];
      t.(users := t.users[sub.uid := User(user.submit + 1, user.solved + first, user.score + plan.delta,
                                          user.experience + t.experience[sub.pid] * first, sub.language)])
    else t
  }

  function UpdateProblem(t: Tables, sub: Submission, plan: Plan): Tables {
    if sub.pid in t.problems then
      var problem := t.problems[sub.pid];
      var firstTry := plan.unsolved && !HaveSubmitted(t.rows, sub.pid, sub.uid, plan.id);
      t.(problems := t.problems[sub.pid := Problem(problem.submit + 1,
                                                   problem.accepted + (if sub.result == ACCEPT then 1 else 0),
                                                   problem.submitUser + (if firstTry then 1 else 0),
                                                   problem.solved + FirstSolved(sub, plan))])
    else t
  }

  const STATEMENTS: nat := 5

  function RunInserts(t: Tables, sub: Submission, plan: Plan, k: nat): Tables {
    var t1 := if k >= 1 then InsertCompileInfo(t, sub, plan) else t;
    var t2 := if k >= 2 then InsertSolution(t1, sub, plan) else t1;
    if k >= 3 then InsertSource(t2, sub, plan) else t2
  }

  /** The first k statements in sequence, each on what the one before left. */
  function RunStatements(t: Tables, sub: Submission, plan: Plan, k: nat): Tables {
    var t3 := RunInserts(t, sub, plan, k);
    var t4 := if k >= 4 then UpdateUser(t3, sub, plan) else t3;
    if k >= 5 then UpdateProblem(t4, sub, plan) else t4
  }

  /** A submission whose database write stops after k statements; one without a user name writes nothing. */
  function Submit(t: Tables, sub: Submission, k: nat): Tables {
    if sub.uid == "" then t else RunStatements(t, sub, MakePlan(t.rows, sub), k)
  }

  /** A rejudged outcome overwriting the row with the given id. */
  function UpdateRow(r: Row, time: int, memory: int, result: int, score: int): Row {
    r.(time := time, memory := memory, result := result, score := score)
  }

  function UpdateSolution(t: Tables, id: nat, time: int, memory: int, result: int, score: int): Tables {
    t.(rows := seq(|t.rows|, i requires 0 <= i < |t.rows| =>
      if t.rows[i].id == id then UpdateRow(t.rows[i], time, memory, result, score) else t.rows[i]))
  }

  // ----- Refreshing -----

  function RefreshSolved(t: Tables): (t': Tables)
    ensures t' == t.(users := t'.users)
  {
    t.(users := map u | u in t.users ::
         var solved := ProblemsSolved(t.rows, u);
         if solved == {} then t.users[u] else t.users[u].(solved := |solved|))
  }

  /** The experience sum goes through the `problem` table; a user none of whose accepted rows joins it is
      left alone. */
  function ListedRewards(t: Tables, u: string): map<nat, int> {
    map p | p in ProblemsSolved(t.rows, u) && p in t.problems ::
      if p in t.experience then t.experience[p] else 0
  }

  function RefreshExperience(t: Tables): (t': Tables)
    ensures t' == t.(users := t'.users)
  {
    t.(users := map u | u in t.users ::
         var rewards := ListedRewards(t, u);
         if rewards.Keys == {} then t.users[u] else t.users[u].(experience := SumValues(rewards)))
  }

  function RefreshScore(t: Tables): (t': Tables)
    ensures t' == t.(users := t'.users)
  {
    t.(users := map u | u in t.users ::
         if ProblemsTried(t.rows, u) == {} then t.users[u]
         else t.users[u].(score := UserScore(t.rows, u)))
  }

  function RefreshProblem(t: Tables, q: nat): Tables {
    if q !in t.problems then t
    else t.(problems := t.problems[q := t.problems[q].(solved := |Solvers(t.rows, q)|,
                                                       accepted := Count(t.rows, AcceptedRows(q)))])
  }

  function ClearValid(t: Tables, q: nat): (t': Tables)
    ensures t' == t.(rows := t'.rows)
  {
    t.(rows := seq(|t.rows|, i requires 0 <= i < |t.rows| =>
      if t.rows[i].pid == q then t.rows[i].(valid := false) else t.rows[i]))
  }

  /** The last statement joins on the solution id alone. */
  function SetValid(t: Tables, q: nat): (t': Tables)
    ensures t' == t.(rows := t'.rows)
  {
    var accepted := set r | r in t.rows && r.pid == q && r.result == ACCEPT :: r.id;
    t.(rows := seq(|t.rows|, i requires 0 <= i < |t.rows| =>
      if t.rows[i].id in accepted then t.rows[i].(valid := true) else t.rows[i]))
  }

  const REFRESH_STATEMENTS: nat := 6

  /** A refresh that stops after k statements. */
  function Refresh(t: Tables, q: nat, k: nat): Tables {
    var t1 := if k >= 1 then RefreshSolved(t) else t;
    var t2 := if k >= 2 then RefreshExperience(t1) else t1;
    var t3 := if k >= 3 then RefreshScore(t2) else t2;
    var t4 := if k >= 4 then RefreshProblem(t3, q) else t3;
    var t5 := if k >= 5 then ClearValid(t4, q) else t4;
    if k >= 6 then SetValid(t5, q) else t5
  }

  /** The rows a rejudge of problem q goes through. */
  function SolutionList(rows: seq<Row>, q: nat): seq<nat> {
    if rows == [] then []
    else
      var last := rows[|rows| - 1];
      SolutionList(rows[..|rows| - 1], q) + if last.pid == q && !last.malicious then [last.id] else []
  }
}
