/** The table of compile messages. A message is written before its row, under an id that only the row reserves. */
module ScoreboardMessages {
  import opened Scoreboard
  import opened ScoreboardRuns
  import opened ScoreboardRefresh

  function MessageIds(messages: seq<Message>): seq<nat> {
    if messages == [] then [] else MessageIds(messages[..|messages| - 1]) + [messages[|messages| - 1].id]
  }

  /** The ids of the compile-error rows. */
  function ErrorIds(rows: seq<Row>): seq<nat> {
    if rows == [] then []
    else
      var last := rows[|rows| - 1];
      ErrorIds(rows[..|rows| - 1]) + if last.result == COMPILATION_ERROR then [last.id] else []
  }

  /** The messages belong to the compile-error rows, one to each. */
  predicate MessagesExact(t: Tables) {
    MessageIds(t.compileInfo) == ErrorIds(t.rows)
  }

  /** The write of a compile error that fails at its second statement. */
  predicate StopsAfterMessage(e: Event) {
    e.Submitted? && e.sub.uid != "" && e.sub.result == COMPILATION_ERROR && e.stop == 1
  }

  function Strays(es: seq<Event>): nat {
    if es == [] then 0 else Strays(es[..|es| - 1]) + if StopsAfterMessage(es[|es| - 1]) then 1 else 0
  }

  lemma MessageIdsAppend(messages: seq<Message>, m: Message)
    ensures MessageIds(messages + [m]) == MessageIds(messages) + [m.id]
  {
    assert (messages + [m])[..|messages|] == messages;
  }

  lemma ErrorIdsAppend(rows: seq<Row>, r: Row)
    ensures ErrorIds(rows + [r]) == ErrorIds(rows) + if r.result == COMPILATION_ERROR then [r.id] else []
  {
    assert (rows + [r])[..|rows|] == rows;
  }

  lemma {:induction false} ErrorIdsSame(a: seq<Row>, b: seq<Row>)
    requires SameOutcomes(a, b)
    ensures ErrorIds(a) == ErrorIds(b)
  {
    if a != [] {
      ErrorIdsSame(a[..|a| - 1], b[..|b| - 1]);
    }
  }

  lemma UpdatesKeepMessages(t: Tables, sub: Submission, plan: Plan)
    ensures UpdateUser(t, sub, plan).compileInfo == UpdateProblem(t, sub, plan).compileInfo == t.compileInfo
  {
    hide HaveSubmitted, FirstSolved;
  }

  lemma InsertedMessage(t: Tables, sub: Submission, plan: Plan, k: nat)
    ensures RunInserts(t, sub, plan, k).compileInfo ==
            if k >= 1 then InsertCompileInfo(t, sub, plan).compileInfo else t.compileInfo
  {
    hide NewRow, InsertCompileInfo;
  }

  /** Only the first statement writes a message. */
  lemma WrittenMessage(t: Tables, sub: Submission, plan: Plan, k: nat)
    ensures RunStatements(t, sub, plan, k).compileInfo ==
            if k >= 1 && sub.result == COMPILATION_ERROR then t.compileInfo + [Message(plan.id, sub.lastState)]
            else t.compileInfo
  {
    InsertedMessage(t, sub, plan, k);
    hide RunInserts, UpdateUser, UpdateProblem;
    var t3 := RunInserts(t, sub, plan, k);
    UpdatesKeepMessages(t3, sub, plan);
    UpdatesKeepMessages(UpdateUser(t3, sub, plan), sub, plan);
  }

  lemma SubmitMessages(t: Tables, sub: Submission, k: nat)
    requires sub.uid != ""
    ensures var t', plan := Submit(t, sub, k), MakePlan(t.rows, sub);
            && t'.rows == (if k >= 2 then t.rows + [NewRow(sub, plan)] else t.rows)
            && t'.compileInfo == if k >= 1 && sub.result == COMPILATION_ERROR
                                 then t.compileInfo + [Message(plan.id, sub.lastState)] else t.compileInfo
  {
    hide RunStatements, MakePlan, NewRow, UpdateUser;
    RunPrefix(t, sub, MakePlan(t.rows, sub), k);
    WrittenMessage(t, sub, MakePlan(t.rows, sub), k);
  }

  lemma RefreshMessages(t: Tables, q: nat, k: nat)
    ensures Refresh(t, q, k).compileInfo == t.compileInfo
  {
    hide RefreshSolved, RefreshExperience, RefreshScore, RefreshProblem, ClearValid, SetValid;
    var t3 := Refresh(t, q, 3);
    RefreshProblemAfter(t3, t3, q);
  }

  /** Each message that stays without its row puts the messages one ahead; every other write keeps both sides level. */
  lemma StepMessages(t: Tables, e: Event)
    requires !e.Rejudged?
    ensures var t' := Next(t, e);
            && |MessageIds(t'.compileInfo)| - |ErrorIds(t'.rows)| ==
               |MessageIds(t.compileInfo)| - |ErrorIds(t.rows)| + (if StopsAfterMessage(e) then 1 else 0)
            && (MessagesExact(t) && !StopsAfterMessage(e) ==> MessagesExact(t'))
  {
    hide Submit, Refresh, MakePlan, ErrorIds, MessageIds, SameOutcomes, RefreshSolved, RefreshExperience, RefreshScore,
      RefreshProblem;
    match e
    case Submitted(sub, k) =>
      if sub.uid != "" {
        var plan := MakePlan(t.rows, sub);
        SubmitMessages(t, sub, k);
        MessageIdsAppend(t.compileInfo, Message(plan.id, sub.lastState));
        ErrorIdsAppend(t.rows, NewRow(sub, plan));
      } else {
        NamelessSubmit(t, sub, k);
      }
    case Refreshed(q, k) =>
      RefreshMessages(t, q, k);
      RefreshRows(t, q, k);
      ErrorIdsSame(t.rows, Refresh(t, q, k).rows);
  }

  lemma {:induction false} MessagesAhead(t: Tables, es: seq<Event>)
    requires Fresh(t)
    requires forall e :: e in es ==> !e.Rejudged?
    ensures var t' := Run(t, es);
            && |MessageIds(t'.compileInfo)| == |ErrorIds(t'.rows)| + Strays(es)
            && (Strays(es) == 0 ==> MessagesExact(t'))
  {
    hide MessageIds, ErrorIds, MessagesExact, StopsAfterMessage, Next;
    if es == [] {
      FreshMessages(t);
    } else {
      MessagesAhead(t, es[..|es| - 1]);
      StepMessages(Run(t, es[..|es| - 1]), es[|es| - 1]);
    }
  }

  lemma FreshMessages(t: Tables)
    requires Fresh(t)
    ensures MessageIds(t.compileInfo) == ErrorIds(t.rows) == []
    ensures MessagesExact(t)
  {
  }

  lemma {:induction false} NoStrays(es: seq<Event>)
    ensures Strays(es) == 0 <==> forall e :: e in es ==> !StopsAfterMessage(e)
  {
    hide StopsAfterMessage;
    if es != [] {
      NoStrays(es[..|es| - 1]);
      assert forall e :: e in es <==> e in es[..|es| - 1] || e == es[|es| - 1];
    }
  }

  /** Over every run of submits and refreshes, wherever they stop, the messages belong to the compile-error rows, one
      to each, exactly if no compile-error write stops right after its first statement. */
  lemma MessagesExactIff(t: Tables, es: seq<Event>)
    requires Fresh(t)
    requires forall e :: e in es ==> !e.Rejudged?
    ensures MessagesExact(Run(t, es)) <==> forall e :: e in es ==> !StopsAfterMessage(e)
  {
    hide Strays, MessageIds, ErrorIds, Run, StopsAfterMessage;
    MessagesAhead(t, es);
    NoStrays(es);
  }

  /** A stray message is found under the id of the next submission, whoever makes it and whatever its result. */
  lemma StrayIsMisread(t: Tables, lost: Submission, next: Submission, stop: nat)
    requires lost.uid != "" && lost.result == COMPILATION_ERROR && next.uid != "" && stop >= 2
    ensures var t' := Run(t, [Submitted(lost, 1), Submitted(next, stop)]);
            && |t'.rows| == |t.rows| + 1
            && t'.rows[|t.rows|].uid == next.uid && t'.rows[|t.rows|].result == next.result
            && Message(t'.rows[|t.rows|].id, lost.lastState) in t'.compileInfo
  {
    hide Submit, MakePlan;
    var t1 := Submit(t, lost, 1);
    RunTwo(t, Submitted(lost, 1), Submitted(next, stop));
    SubmitMessages(t, lost, 1);
    SubmitMessages(t1, next, stop);
    SameNextId(t.rows, lost, next);
  }

  /** The id depends on the rows alone. */
  lemma SameNextId(rows: seq<Row>, first: Submission, second: Submission)
    ensures MakePlan(rows, first).id == MakePlan(rows, second).id == NextId(rows)
  {
  }

  /** The rows a rejudge moves into the compile errors or out of them. */
  predicate Crosses(rows: seq<Row>, id: nat, result: int) {
    exists r :: r in rows && Moves(r, id, result)
  }

  predicate Moves(r: Row, id: nat, result: int) {
    r.id == id && (r.result == COMPILATION_ERROR) != (result == COMPILATION_ERROR)
  }

  lemma CrossesSplit(rows: seq<Row>, id: nat, result: int)
    requires rows != []
    ensures Crosses(rows, id, result) <==>
            Crosses(rows[..|rows| - 1], id, result) || Moves(rows[|rows| - 1], id, result)
  {
    hide Moves;
    assert forall r :: r in rows <==> r in rows[..|rows| - 1] || r == rows[|rows| - 1];
  }

  lemma {:induction false} RejudgedErrorIds(a: seq<Row>, b: seq<Row>, id: nat, result: int)
    requires |a| == |b|
    requires forall i :: 0 <= i < |a| ==> b[i].id == a[i].id
    requires forall i :: 0 <= i < |a| ==> b[i].result == if a[i].id == id then result else a[i].result
    ensures if Crosses(a, id, result)
            then if result == COMPILATION_ERROR then |ErrorIds(b)| > |ErrorIds(a)| else |ErrorIds(b)| < |ErrorIds(a)|
            else ErrorIds(b) == ErrorIds(a)
  {
    hide Crosses;
    if a == [] {
      CrossesNothing(id, result);
    } else {
      var n := |a| - 1;
      RejudgedErrorIds(a[..n], b[..n], id, result);
      CrossesSplit(a, id, result);
    }
  }

  lemma CrossesNothing(id: nat, result: int)
    ensures !Crosses([], id, result)
  {
  }

  /** A rejudge leaves the messages as they are, so they stay right exactly if it takes no row into the compile errors
      or out of them. */
  lemma RejudgeMessagesIff(t: Tables, id: nat, time: int, memory: int, result: int, score: int)
    requires MessagesExact(t)
    ensures MessagesExact(UpdateSolution(t, id, time, memory, result, score)) <==> !Crosses(t.rows, id, result)
  {
    hide ErrorIds, MessageIds;
    RejudgedErrorIds(t.rows, UpdateSolution(t, id, time, memory, result, score).rows, id, result);
  }
}
