/** What queries see of one submission over time, and the order and time of removal. */
module JobsDetails {
  import opened Jobs
  import opened JobsInvariants
  import opened JobsTiming
  import opened JobsRuns

  // ----- Detail lists -----

  ghost predicate ErrorOnly(detail: seq<Report>) {
    exists info :: detail == [ErrorReport(info)]
  }

  /** A later view extends an earlier one, or is the single system error; a finished one is final. */
  ghost predicate Evolves(before: Solution, after: Solution) {
    if before.timeStamp != 0 then after.timeStamp != 0 && after.detail == before.detail
    else before.detail <= after.detail || (after.timeStamp != 0 && ErrorOnly(after.detail))
  }

  lemma EvolvesTransitive(x: Solution, y: Solution, z: Solution)
    requires Evolves(x, y) && Evolves(y, z)
    ensures Evolves(x, z)
  {
  }

  /** Nothing that may still grow carries a time stamp. */
  ghost predicate Unfinished(s: State) {
    && (forall id :: id in s.open || id in s.waiting ==> StampOf(s, id) == 0)
    && (s.judge.JRunning? || s.judge.JWritten? ==> StampOf(s, s.judge.id) == 0)
    && (s.rejudge.TCloned? || s.rejudge.TFlagged? ==> StampOf(s, s.rejudge.id) == 0)
  }

  lemma HttpUnfinished(s: State, a: HttpAction)
    requires Safe(s) && Unfinished(s) && HttpEnabled(s, a)
    ensures Unfinished(HttpApply(s, a))
  {
    hide Timing, Ownership, WrittenOnce, Kinds, Flag, HttpApply;
    HttpHeap(s, a);
    if a.PushSubmit? { PushSubmitMoves(s, a.id); } else { HttpHolders(s, a); }
    if a.Close? {
      forall id | id in s.waiting || id in JudgeHolds(s) ensures id != a.id { KindsFrame(s, id); }
      if s.rejudge.TCloned? || s.rejudge.TFlagged? { DifferentOwners(s, a.id); }
    }
    if a.Open? {
      forall id | id in s.waiting || id in JudgeHolds(s) ensures id != s.next { KindsFrame(s, id); }
      if s.rejudge.TCloned? || s.rejudge.TFlagged? {
        assert s.rejudge.id in RejudgeHolds(s);
        KindsFrame(s, s.rejudge.id);
      }
      forall id | id in s.open ensures id != s.next { HeldIsLive(s, id); }
    }
    assert s.judge.JRunning? || s.judge.JWritten? ==> s.judge.id in JudgeHolds(s);
  }

  lemma JudgeUnfinished(s: State, a: JudgeAction)
    requires Safe(s) && Unfinished(s) && JudgeEnabled(s, a)
    ensures Unfinished(JudgeApply(s, a))
  {
    if a.Take? || a.Release? {
      hide Safe;
      PassUnfinished(s, a);
    } else {
      hide Timing, Fifo, Ownership, WrittenOnce, Kinds, Flag, JudgeApply;
      JudgingFrame(s, a);
      OnlyJudgedStamp(s, a);
      forall id | id in s.open || id in s.waiting ensures id != s.judge.id { JudgeAlone(s, id); }
      if s.rejudge.TCloned? || s.rejudge.TFlagged? { CloneNotJudged(s); }
      hide Safe, Unfinished, StampOf, JudgeEnabled;
      StampsElsewhere(s, JudgeApply(s, a));
    }
  }

  lemma StampsElsewhere(s: State, t: State)
    requires Unfinished(s) && !s.judge.JIdle? && (t.judge.JRunning? || t.judge.JWritten? ==> !s.judge.JStamped?)
    requires t.open == s.open && t.waiting == s.waiting && t.rejudge == s.rejudge
    requires forall id :: id != s.judge.id ==> StampOf(t, id) == StampOf(s, id)
    requires t.judge.JRunning? || t.judge.JWritten? ==>
               t.judge.id == s.judge.id && StampOf(t, s.judge.id) == StampOf(s, s.judge.id)
    requires forall id :: id in s.open || id in s.waiting ==> id != s.judge.id
    requires s.rejudge.TCloned? || s.rejudge.TFlagged? ==> s.rejudge.id != s.judge.id
    ensures Unfinished(t)
  {
    hide StampOf;
  }

  lemma PassUnfinished(s: State, a: JudgeAction)
    requires Unfinished(s) && JudgeEnabled(s, a) && (a.Take? || a.Release?)
    ensures Unfinished(JudgeApply(s, a))
  {
    if a.Take? {
      assert s.waiting[0] in s.waiting;
      assert forall id :: id in s.waiting[1..] ==> id in s.waiting;
    }
  }

  /** Only the judged object's stamp moves, and only when it becomes stamped. */
  lemma OnlyJudgedStamp(s: State, a: JudgeAction)
    requires JudgeEnabled(s, a) && !a.Release? && !a.Take?
    ensures var t := JudgeApply(s, a);
            && (forall id :: id != s.judge.id ==> StampOf(t, id) == StampOf(s, id))
            && (t.judge.JRunning? || t.judge.JWritten? ==> StampOf(t, s.judge.id) == StampOf(s, s.judge.id))
  {
  }

  lemma CloneNotJudged(s: State)
    requires Ownership(s) && !s.judge.JIdle? && (s.rejudge.TCloned? || s.rejudge.TFlagged?)
    ensures s.rejudge.id != s.judge.id
  {
    assert s.judge.id in JudgeHolds(s) && s.rejudge.id in RejudgeHolds(s);
    assert Owners(s, s.judge.id) == if s.judge.id in s.heap then 1 else 0;
  }

  lemma RemoverUnfinished(s: State, a: RemoverAction)
    requires Safe(s) && Unfinished(s) && RemoverEnabled(s, a)
    ensures Unfinished(RemoverApply(s, a))
  {
    hide Timing, Fifo, Ownership, WrittenOnce, Kinds, Flag;
    if a.Delete? {
      forall id | id in s.open || id in s.waiting || id in JudgeHolds(s) || id in CloneInHand(s)
        ensures id != s.remover.id
      {
        RemoverAlone(s, id);
      }
    }
  }

  lemma RejudgeUnfinished(s: State, a: RejudgeAction)
    requires Safe(s) && Unfinished(s) && RejudgeEnabled(s, a)
    ensures Unfinished(RejudgeApply(s, a))
  {
    hide Timing, Fifo, Ownership, WrittenOnce, Kinds, Flag;
    forall id | id in s.open || id in s.waiting || id in JudgeHolds(s)
      ensures id != s.next && (a.DeleteClone? ==> id != s.rejudge.id)
    {
      HeldIsLive(s, id);
      if a.DeleteClone? { CloneAlone(s, id); }
    }
  }

  lemma StepUnfinished(s: State, a: Action)
    requires Safe(s) && Unfinished(s) && Enabled(s, a)
    ensures Unfinished(Apply(s, a))
  {
    hide Safe, HttpApply, JudgeApply, RemoverApply, RejudgeApply;
    match a
    case Http(h) => HttpUnfinished(s, h);
    case Judge(j) => JudgeUnfinished(s, j);
    case Remove(r) => RemoverUnfinished(s, r);
    case Rejudger(t) => RejudgeUnfinished(s, t);
    case Tick(_) =>
  }

  lemma HttpEvolves(s: State, a: HttpAction, id: Id)
    requires Safe(s) && Unfinished(s) && HttpEnabled(s, a)
    requires id in s.heap && id in HttpApply(s, a).heap
    ensures Evolves(s.heap[id], HttpApply(s, a).heap[id])
  {
    NextUnused(s);
    HttpHeap(s, a);
    hide Safe, HttpApply, Evolves, ErrorOnly;
    UnstampedEvolves(s.heap[id]);
    assert a.PushSubmit? && id == a.id ==> s.heap[id].timeStamp == 0;
    assert HttpApply(s, a).heap[id] == s.heap[id];
  }

  lemma UnstampedEvolves(o: Solution)
    ensures Evolves(o, o)
  {
  }

  lemma RejudgeEvolves(s: State, a: RejudgeAction, id: Id)
    requires Safe(s) && RejudgeEnabled(s, a)
    requires id in s.heap && id in RejudgeApply(s, a).heap
    ensures Evolves(s.heap[id], RejudgeApply(s, a).heap[id])
  {
    NextUnused(s);
    hide Core, Timing;
  }

  lemma RemoverEvolves(s: State, a: RemoverAction, id: Id)
    requires RemoverEnabled(s, a)
    requires id in s.heap && id in RemoverApply(s, a).heap
    ensures Evolves(s.heap[id], RemoverApply(s, a).heap[id])
  {
  }

  /** One step of any thread lets a live object evolve. */
  lemma StepEvolves(s: State, a: Action, id: Id)
    requires Safe(s) && Unfinished(s) && Enabled(s, a)
    requires id in s.heap && id in Apply(s, a).heap
    ensures Evolves(s.heap[id], Apply(s, a).heap[id])
  {
    hide Safe, Unfinished, HttpApply, JudgeApply, RemoverApply, RejudgeApply;
    match a
    case Http(h) => HttpEvolves(s, h, id);
    case Judge(j) => JudgeEvolves(s, j, id);
    case Remove(r) => RemoverEvolves(s, r, id);
    case Rejudger(t) => RejudgeEvolves(s, t, id);
    case Tick(_) =>
  }

  lemma NextUnused(s: State)
    requires Safe(s)
    ensures s.next !in s.heap
  {
  }

  lemma JudgeEvolves(s: State, a: JudgeAction, id: Id)
    requires Safe(s) && Unfinished(s) && JudgeEnabled(s, a)
    requires id in s.heap && id in JudgeApply(s, a).heap
    ensures Evolves(s.heap[id], JudgeApply(s, a).heap[id])
  {
    hide Core, Timing;
    if a.Fail? {
      assert ErrorOnly([ErrorReport(a.info)]);
      assert Seconds(s.now) >= 1 by { ClockRuns(s); }
    } else if a.Stamp? {
      assert Seconds(s.now) >= 1 by { ClockRuns(s); }
    }
  }

  lemma ClockRuns(s: State)
    requires Safe(s)
    ensures Seconds(s.now) >= 1
  {
  }

  /** Over any part of a run, as long as the object lives, its later view evolves from the earlier one. */
  lemma {:induction false} RunEvolves(s: State, run: seq<Action>, id: Id)
    requires Safe(s) && Unfinished(s) && ValidRun(s, run)
    requires id in s.heap && id in Exec(s, run).heap
    ensures Evolves(s.heap[id], Exec(s, run).heap[id])
    decreases |run|
  {
    hide Safe, Unfinished, Apply, Enabled, Evolves;
    if run == [] {
      EvolvesItself(s.heap[id]);
    } else {
      var t := Apply(s, run[0]);
      StepSafe(s, run[0]);
      StepUnfinished(s, run[0]);
      StillLive(s, run[0], run[1..], id);
      StepEvolves(s, run[0], id);
      RunEvolves(t, run[1..], id);
      EvolvesTransitive(s.heap[id], t.heap[id], Exec(s, run).heap[id]);
    }
  }

  lemma EvolvesItself(o: Solution)
    ensures Evolves(o, o)
  {
  }

  lemma StillLive(s: State, a: Action, rest: seq<Action>, id: Id)
    requires Safe(s) && Enabled(s, a) && ValidRun(Apply(s, a), rest)
    requires id in s.heap && id in Exec(Apply(s, a), rest).heap
    ensures id in Apply(s, a).heap
  {
    hide Timing, Fifo, WrittenOnce, Kinds, Flag, Owners, Apply, Enabled, Exec;
    if id !in Apply(s, a).heap {
      StepSafe(s, a);
      StepFrame(s, a);
      DeadStaysDead(Apply(s, a), rest, id);
    }
  }

  // ----- What a query answers -----

  /** The state and detail list json_builder prints. */
  datatype View = View(finished: bool, detail: seq<Report>)

  function Look(o: Solution): View { View(o.timeStamp != 0, o.detail) }

  /** Two answers about the same object, in time order: the second extends the first or is the single system
      error report, and once an answer says finished every later one is equal to it. */
  lemma AnswersAgree(start: State, run: seq<Action>, between: seq<Action>, id: Id)
    requires Initial(start) && ValidRun(start, run) && ValidRun(Exec(start, run), between)
    requires id in Exec(start, run).heap && id in Exec(Exec(start, run), between).heap
    ensures var first := Look(Exec(start, run).heap[id]);
            var second := Look(Exec(Exec(start, run), between).heap[id]);
            && (first.finished ==> second == first)
            && (first.detail <= second.detail || (second.finished && ErrorOnly(second.detail)))
  {
    hide Exec, ValidRun, Safe, Unfinished;
    InitialSafe(start);
    InitialUnfinished(start);
    RunSafe(start, run);
    RunUnfinished(start, run);
    RunEvolves(Exec(start, run), between, id);
  }

  lemma InitialUnfinished(s: State)
    requires Initial(s)
    ensures Unfinished(s)
  {
  }

  lemma {:induction false} RunUnfinished(s: State, run: seq<Action>)
    requires Safe(s) && Unfinished(s) && ValidRun(s, run)
    ensures Unfinished(Exec(s, run))
    decreases |run|
  {
    hide Safe, Unfinished, Apply, Enabled;
    if run != [] {
      StepSafe(s, run[0]);
      StepUnfinished(s, run[0]);
      RunUnfinished(Apply(s, run[0]), run[1..]);
    }
  }

  // ----- Removal -----

  /** If the front of the removing queue has not expired, nothing in it has. */
  lemma FrontIsOldest(s: State, i: nat)
    requires Safe(s) && i < |s.removing| && Age(s, s.removing[0]) < EXPIRY
    ensures Age(s, s.removing[i]) < EXPIRY
  {
    hide Core, Inserting, Entries, Queried;
    assert Line(s)[0] == s.removing[0] && Line(s)[i] == s.removing[i];
  }

  /** Nothing is deleted by the remover before it is 25 s old by time(0), and a full second after its erasure. */
  lemma DeletedAfterExpiry(s: State)
    requires Safe(s) && Enabled(s, Remove(Delete))
    ensures s.now / 1000 - Deref(s, s.remover.id).timeStamp >= 25 && s.now >= s.remover.at + 1000
  {
    hide Core, Inserting, Entries, Queried;
  }

  // ----- Which object a query answers about -----

  lemma StepKeepsQuery(s: State, a: Action, q: nat)
    requires Safe(s) && Enabled(s, a) && q in s.queries && a != Http(Answer(q))
    ensures var id, t := s.queries[q].target, Apply(s, a);
            && q in t.queries && t.queries[q] == s.queries[q]
            && id in s.heap && id in t.heap && t.heap[id].key == s.heap[id].key && t.heap[id].kind == s.heap[id].kind
  {
    hide Core, Times, Inserting, Entries, Timely;
    QueryStays(s, a, q);
    hide Apply, Enabled;
    StepSafe(s, a);
    StepFrame(s, a);
    var id := s.queries[q].target;
    assert id in s.heap && id in Apply(s, a).heap;
    QueryNotFreed(s, a, q);
  }

  lemma QueryStays(s: State, a: Action, q: nat)
    requires Enabled(s, a) && q in s.queries && a != Http(Answer(q))
    ensures q in Apply(s, a).queries && Apply(s, a).queries[q] == s.queries[q]
  {
    hide Timely, HttpApply, JudgeApply, RemoverApply, RejudgeApply, HttpEnabled, JudgeEnabled, RemoverEnabled,
      RejudgeEnabled;
    match a
    case Http(h) => HttpQueries(s, h, q);
    case Judge(j) => JudgeQueries(s, j);
    case Remove(r) => RemoverQueries(s, r);
    case Rejudger(t) => RejudgeQueries(s, t);
    case Tick(_) =>
  }

  lemma HttpQueries(s: State, a: HttpAction, q: nat)
    requires HttpEnabled(s, a) && q in s.queries && a != Answer(q)
    ensures q in HttpApply(s, a).queries && HttpApply(s, a).queries[q] == s.queries[q]
  {
  }

  lemma JudgeQueries(s: State, a: JudgeAction)
    requires JudgeEnabled(s, a)
    ensures JudgeApply(s, a).queries == s.queries
  {
  }

  lemma RemoverQueries(s: State, a: RemoverAction)
    requires RemoverEnabled(s, a)
    ensures RemoverApply(s, a).queries == s.queries
  {
  }

  lemma RejudgeQueries(s: State, a: RejudgeAction)
    requires RejudgeEnabled(s, a)
    ensures RejudgeApply(s, a).queries == s.queries
  {
  }

  lemma QueryNotFreed(s: State, a: Action, q: nat)
    requires Safe(s) && Enabled(s, a) && q in s.queries && s.queries[q].target in Apply(s, a).heap
    ensures s.queries[q].target !in Freed(s, a)
  {
    hide Safe;
    FreedWasLive(s, a);
  }

  lemma {:induction false} RunKeepsQuery(s: State, run: seq<Action>, q: nat)
    requires Safe(s) && ValidRun(s, run) && q in s.queries && Http(Answer(q)) !in run
    ensures var id, t := s.queries[q].target, Exec(s, run);
            && q in t.queries && t.queries[q] == s.queries[q]
            && id in s.heap && id in t.heap && t.heap[id].key == s.heap[id].key && t.heap[id].kind == s.heap[id].kind
    decreases |run|
  {
    hide Safe, Apply, Enabled;
    if run == [] {
      QueriedLives(s, q);
    } else {
      assert run[0] in run;
      StepSafe(s, run[0]);
      StepKeepsQuery(s, run[0], q);
      RunKeepsQuery(Apply(s, run[0]), run[1..], q);
    }
  }

  lemma QueriedLives(s: State, q: nat)
    requires Safe(s) && q in s.queries
    ensures s.queries[q].target in s.heap
  {
    hide Core, Times, Inserting, Entries;
  }

  lemma FoundHasKey(s: State, q: nat, key: string)
    requires Safe(s) && Enabled(s, Http(Find(q, key)))
    ensures var t := Apply(s, Http(Find(q, key)));
            && q in t.queries && t.queries[q].target in t.heap
            && t.heap[t.queries[q].target].key == key && t.heap[t.queries[q].target].kind != Rejudge
  {
    hide Core, Times, Inserting, Queried;
  }

  /** Whatever happens between the lookup of a query and its answer, it answers about a live submission with the key
      that was asked for. */
  lemma QueryAnswersItsKey(start: State, before: seq<Action>, q: nat, key: string, between: seq<Action>)
    requires Initial(start) && ValidRun(start, before) && Enabled(Exec(start, before), Http(Find(q, key)))
    requires ValidRun(Apply(Exec(start, before), Http(Find(q, key))), between) && Http(Answer(q)) !in between
    ensures var t := Exec(Apply(Exec(start, before), Http(Find(q, key))), between);
            && q in t.queries && t.queries[q].target in t.heap
            && t.heap[t.queries[q].target].key == key && t.heap[t.queries[q].target].kind != Rejudge
  {
    hide Exec, ValidRun, Safe, Apply, Enabled, Initial;
    InitialSafe(start);
    RunSafe(start, before);
    FoundHasKey(Exec(start, before), q, key);
    StepSafe(Exec(start, before), Http(Find(q, key)));
    RunKeepsQuery(Apply(Exec(start, before), Http(Find(q, key))), between, q);
  }

  /** The two promises of the environment, and that there is no third: time passes freely but for a query in flight,
      which allows it less than a second from its lookup, and for a submission on its way from the queue to the finder,
      until time(0) has moved on by 25. */
  lemma PromisesOnly(s: State, q: nat, key: string, id: Id, ms: nat)
    requires s.queries == map[] && s.inserting == map[]
    ensures Enabled(s, Tick(ms))
    ensures Enabled(s, Http(Find(q, key))) ==>
              (Enabled(Apply(s, Http(Find(q, key))), Tick(ms)) <==> ms < 1000)
    ensures Enabled(s, Http(PushSubmit(id))) ==>
              (Enabled(Apply(s, Http(PushSubmit(id))), Tick(ms)) <==> (s.now + ms) / 1000 < s.now / 1000 + 25)
  {
  }
}
