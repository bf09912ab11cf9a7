/** manager.cpp and the dispatch of http.cpp as they change the shared variables: one method for each critical
    section or access to a flag, each a step of the state machine of Jobs, and one for each turn of a thread's loop,
    each a run of it. */
module Manager {
  import opened Jobs
  import opened JobsInvariants
  import opened JobsRuns
  import opened JobsTurns
  import opened Wrappers
  import JsonBuilder

  datatype Reply = OK | Another | Error | Invalid | Progress

  class Daemon {
    var now: nat
    var next: Id
    var heap: map<Id, Solution>
    var open: set<Id>
    var inserting: map<Id, nat>
    var waiting: seq<Id>
    var removing: seq<Id>
    var finder: map<string, Id>
    var rejudging: bool
    var filled: bool
    var rejudgeInit: Solution
    var rejudgeList: seq<nat>
    var judge: JudgePc
    var remover: RemoverPc
    var rejudger: RejudgePc
    var queries: map<nat, Query>
    /** Not part of the program: what happened so far. */
    var history: History

    function Now(): State
      reads this
    {
      State(now, next, heap, open, inserting, waiting, removing, finder, rejudging, filled, rejudgeInit, rejudgeList,
            judge, remover, rejudger, queries, history)
    }

    ghost predicate Valid()
      reads this
    {
      Safe(Now())
    }

    constructor (start: nat)
      requires Seconds(start) >= 1
      ensures Valid() && Initial(Now()) && now == start
    {
      now, next, heap, open, inserting := start, 0, map[], {}, map[];
      waiting, removing, finder, rejudging, filled := [], [], map[], false, false;
      rejudgeInit, rejudgeList := GARBAGE, [];
      judge, remover, rejudger, queries := JIdle, RSleeping(0), TWaiting, map[];
      history := History([], [], [], {}, [], GARBAGE.settings, []);
      new;
      hide Safe;
      InitialSafe(Now());
    }

    /** Time passes, as far as the environment keeps its promises. */
    method Sleep(ms: nat)
      requires Valid() && Timely(Now(), now + ms)
      modifies this
      ensures Valid() && Now() == Apply(old(Now()), Tick(ms))
    {
      hide Safe;
      StepSafe(Now(), Tick(ms));
      now := now + ms;
    }

    // ----- http.cpp -----

    /** The end of a POST body. Between the two critical sections of a submission, and before its reply, other threads
        may act; this is the turn without them. */
    method FinishBody(id: Id, list: Option<seq<nat>>) returns (reply: Reply)
      requires Valid() && id in open
      modifies this
      ensures Valid() && Reaches(old(Now()), BodyRun(old(Now()), id, list), Now())
      ensures var before := old(Now());
              reply == if Deref(before, id).kind != Rejudge then OK else if before.rejudge != TWaiting then Another
                       else if list.None? then Error else OK
      ensures var s, t := old(Now()), Now();
              && id in s.heap
              && var o := s.heap[id];
                 t == if o.kind != Rejudge then
                        s.(heap := s.heap[id := o.(timeStamp := 0)], open := s.open - {id},
                           waiting := s.waiting + [id], finder := s.finder[o.key := id], history := t.history)
                      else if s.rejudge != TWaiting then s
                      else if list.None? then s.(init := o, history := t.history)
                      else s.(init := o, list := list.value, filled := true, history := t.history)
    {
      hide Safe;
      ghost var before := Now();
      HandsLive(before);
      OpenNotInserting(before, id);
      ReachesItself(before);
      hide Reaches, Enabled, Apply, ValidRun, Exec;
      if heap[id].kind == Rejudge {
        RejudgeBody(before, id, list);
        reply := StartRejudge(id, list);
        RejudgeTurnDoes(before, id, list, Now());
      } else {
        SubmitBody(before, id);
        AcceptSubmit(id);
        EnterInFinder(id);
        reply := OK;
        SubmitTurnDoes(before, id, list, Now());
      }
    }

    /** request_completed: what is still owned by the connection goes with it. */
    method RequestCompleted(id: Id)
      requires Valid()
      modifies this
      ensures Valid()
      ensures Now() == if old(id in open) then Apply(old(Now()), Http(Close(id))) else old(Now())
    {
      hide Safe;
      if id in open {
        StepSafe(Now(), Http(Close(id)));
        heap := heap - {id};
        open := open - {id};
      }
    }

    // ----- JUDGE_accept_submit, JUDGE_start_rejudge, JUDGE_get_progress -----

    /** The first critical section of JUDGE_accept_submit. */
    method AcceptSubmit(id: Id)
      requires Valid() && id in open && Deref(Now(), id).kind != Rejudge
      modifies this
      ensures Valid() && Now() == Apply(old(Now()), Http(PushSubmit(id))) && id in inserting
    {
      hide Safe;
      StepSafe(Now(), Http(PushSubmit(id)));
      HandsLive(Now());
      Reset(id);
      Push(id);
      open, inserting := open - {id}, inserting[id := now / 1000];
    }

    /** A submission starts without a time stamp. */
    method Reset(id: Id)
      requires id in heap
      modifies this`heap
      ensures Now() == Write(old(Now()), id, Deref(old(Now()), id).(timeStamp := 0))
    {
      heap := heap[id := heap[id].(timeStamp := 0)];
    }

    /** waiting.push under waiting_mutex. */
    method Push(id: Id)
      modifies this`waiting, this`history
      ensures Now() == Enqueue(old(Now()), id)
    {
      waiting := waiting + [id];
      history := history.(enqueued := history.enqueued + [id]);
    }

    /** The second one. */
    method EnterInFinder(id: Id)
      requires Valid() && id in inserting
      modifies this
      ensures Valid() && Now() == Apply(old(Now()), Http(InsertFinder(id)))
    {
      hide Safe;
      StepSafe(Now(), Http(InsertFinder(id)));
      HandsLive(Now());
      finder := finder[heap[id].key := id];
      inserting := inserting - {id};
    }

    /** The mutex is free only while the rejudge thread waits; the list is None if get_solution_list throws. */
    method StartRejudge(id: Id, list: Option<seq<nat>>) returns (reply: Reply)
      requires Valid() && id in open && Deref(Now(), id).kind == Rejudge
      modifies this
      ensures Valid()
      ensures var before := old(Now());
              if before.rejudge != TWaiting then reply == Another && Now() == before
              else if list.None? then reply == Error && Now() == Apply(before, Http(StartRejudgeFails(id)))
              else reply == OK && Now() == Apply(before, Http(HttpAction.StartRejudge(id, list.value)))
    {
      hide Safe;
      if rejudger != TWaiting {
        return Another;
      }
      HandsLive(Now());
      StepSafe(Now(), Http(if list.None? then StartRejudgeFails(id) else HttpAction.StartRejudge(id, list.value)));
      SetInit(heap[id]);
      if list.None? {
        return Error;
      }
      rejudgeList := list.value;
      history := history.(granted := history.granted + [Request(rejudgeInit.settings, rejudgeList)]);
      filled := true;
      reply := OK;
    }

    method SetInit(sol: Solution)
      modifies this`rejudgeInit, this`history
      ensures Now() == old(Now()).(init := sol, history := old(history).(lastWinner := sol.settings))
    {
      rejudgeInit := sol;
      history := history.(lastWinner := sol.settings);
    }

    method GetProgress(q: nat, key: string) returns (reply: Reply)
      requires Valid() && q !in queries
      modifies this
      ensures if key in old(finder) then reply == Progress && Now() == Apply(old(Now()), Http(Find(q, key)))
              else reply == Invalid && Now() == old(Now())
      ensures Valid()
    {
      hide Safe;
      if key !in finder {
        return Invalid;
      }
      StepSafe(Now(), Http(Find(q, key)));
      queries := queries[q := Query(finder[key], now)];
      reply := Progress;
    }

    // ----- thread_judge -----

    method TakeFront() returns (taken: bool)
      requires Valid() && judge == JIdle
      modifies this
      ensures Valid() && (taken <==> old(waiting) != [])
      ensures Now() == if taken then Apply(old(Now()), Judge(Take)) else old(Now())
    {
      hide Safe;
      taken := waiting != [];
      if taken {
        StepSafe(Now(), Judge(Take));
        judge := JRunning(waiting[0]);
        waiting := waiting[1..];
      }
    }

    method AppendReport(report: Report)
      requires Valid() && judge.JRunning?
      modifies this
      ensures Valid() && Now() == Apply(old(Now()), Judge(Append(report)))
    {
      hide Safe;
      StepSafe(Now(), Judge(Append(report)));
      HandsLive(Now());
      heap := heap[judge.id := heap[judge.id].(detail := heap[judge.id].detail + [report])];
    }

    /** solution::WriteDatabase, for a normal job. */
    method WriteResult()
      requires Valid() && judge.JRunning? && Deref(Now(), judge.id).kind == Normal
      modifies this
      ensures Valid() && Now() == Apply(old(Now()), Judge(WriteDatabase))
    {
      hide Safe;
      StepSafe(Now(), Judge(WriteDatabase));
      history := history.(written := history.written + [judge.id]);
      judge := JWritten(judge.id);
    }

    method StampFinished()
      requires Valid() && JudgeEnabled(Now(), Stamp)
      modifies this
      ensures Valid() && Now() == Apply(old(Now()), Judge(Stamp))
    {
      hide Safe;
      StepSafe(Now(), Judge(Stamp));
      HandsLive(Now());
      heap := heap[judge.id := heap[judge.id].(timeStamp := now / 1000)];
      judge := JStamped(judge.id);
    }

    method CatchException(lastState: string)
      requires Valid() && (judge.JRunning? || judge.JWritten?)
      modifies this
      ensures Valid() && Now() == Apply(old(Now()), Judge(Fail(lastState)))
    {
      hide Safe;
      StepSafe(Now(), Judge(Fail(lastState)));
      HandsLive(Now());
      heap := heap[judge.id := heap[judge.id].(detail := [ErrorReport(lastState)], timeStamp := now / 1000)];
      judge := JStamped(judge.id);
    }

    method Handover()
      requires Valid() && JudgeEnabled(Now(), Release)
      modifies this
      ensures Valid() && Now() == Apply(old(Now()), Judge(Release))
    {
      hide Safe;
      StepSafe(Now(), Judge(Release));
      HandsLive(Now());
      PassOn(judge.id, heap[judge.id].kind);
      judge := JIdle;
    }

    method PassOn(id: Id, kind: Kind)
      modifies this`removing, this`rejudging, this`history
      ensures removing == if kind == Normal then old(removing) + [id] else old(removing)
      ensures rejudging == (old(rejudging) && kind != Rejudge)
      ensures history == old(history).(completed := old(history).completed + [id],
                                       leaked := if kind == Other then old(history).leaked + {id}
                                                 else old(history).leaked)
    {
      history := history.(completed := history.completed + [id]);
      if kind == Normal {
        removing := removing + [id];
      } else if kind == Rejudge {
        rejudging := false;
      } else {
        history := history.(leaked := history.leaked + {id});
      }
    }

    /** One turn of the judge's loop, from the queue to the handover, as it goes when no other thread interferes. */
    method JudgeTurn(reports: seq<Report>, ending: Ending) returns (taken: bool)
      requires Valid() && judge == JIdle && remover.RSleeping?
      modifies this
      ensures Valid() && (taken <==> old(waiting) != [])
      ensures !taken ==> Now() == old(Now())
      ensures taken ==>
                Reaches(old(Now()), JudgeRun(Deref(old(Now()), old(waiting)[0]).kind, reports, ending), Now())
      ensures taken ==>
                var s, t := old(Now()), Now();
                var id := s.waiting[0];
                && id in s.heap
                && var o := s.heap[id];
                   var threw := ending.JudgingThrew? || (ending.WritingThrew? && o.kind == Normal);
                   var detail := if threw then [Report(100, 0, 0, ending.info, 0)] else o.detail + reports;
                   t == s.(judge := JIdle, waiting := s.waiting[1..], history := t.history,
                           heap := s.heap[id := o.(timeStamp := s.now / 1000, detail := detail)],
                           removing := if o.kind == Normal then s.removing + [id] else s.removing,
                           rejudging := if o.kind == Rejudge then false else s.rejudging)
    {
      hide Safe;
      ghost var start := Now();
      taken := TakeFront();
      if !taken {
        return;
      }
      ghost var id := start.waiting[0];
      ghost var run := [Judge(Take)];
      ReachesItself(start);
      ReachesOneMore(start, [], start, Judge(Take));
      assert [] + [Judge(Take)] == run;
      TakenJob(start);
      hide Reaches, Apply, ValidRun, Exec;
      assert reports[..0] == [] && Appends([]) == [] && run + Appends([]) == run;
      for i := 0 to |reports|
        invariant Valid() && judge == JRunning(id) && remover.RSleeping?
        invariant Deref(Now(), id).kind == Deref(start, id).kind
        invariant Reaches(start, run + Appends(reports[..i]), Now())
      {
        ghost var before := Now();
        AppendsOneMore(reports, i);
        ReachesOneMore(start, run + Appends(reports[..i]), before, Judge(Append(reports[i])));
        AppendKeeps(before, reports[i]);
        AppendReport(reports[i]);
        assert run + Appends(reports[..i + 1]) == run + Appends(reports[..i]) + [Judge(Append(reports[i]))];
      }
      assert reports[..|reports|] == reports;
      run := run + Appends(reports);
      EndJob(start, run, ending);
      JudgeRunIs(Deref(start, id).kind, reports, ending);
      TakenIsLive(start);
      JudgeTurnDoes(start, reports, ending, Now());
    }

    /** What follows the last report. */
    method EndJob(ghost start: State, ghost run: seq<Action>, ending: Ending)
      requires Valid() && judge.JRunning? && remover.RSleeping? && Reaches(start, run, Now())
      modifies this
      ensures Valid()
      ensures Reaches(start, run + EndingRun(Deref(old(Now()), old(judge.id)).kind, ending) + [Judge(Release)], Now())
    {
      hide Safe, Reaches, Apply, ValidRun, Exec, JudgeApply, JudgeEnabled;
      HandsLive(Now());
      ghost var r := run;
      var kind := heap[judge.id].kind;
      ghost var s := Now();
      EndingSteps(s);
      if ending.JudgingThrew? {
        CatchException(ending.info);
        ReachesOneMore(start, r, s, Judge(Fail(ending.info)));
        r := r + [Judge(Fail(ending.info))];
      } else {
        if kind == Normal {
          WriteResult();
          ReachesOneMore(start, r, s, Judge(WriteDatabase));
          r := r + [Judge(WriteDatabase)];
          s := Now();
          EndingSteps(s);
        }
        if kind == Normal && ending.WritingThrew? {
          CatchException(ending.info);
          ReachesOneMore(start, r, s, Judge(Fail(ending.info)));
          r := r + [Judge(Fail(ending.info))];
        } else {
          StampFinished();
          ReachesOneMore(start, r, s, Judge(Stamp));
          r := r + [Judge(Stamp)];
        }
      }
      assert r == run + EndingRun(kind, ending);
      s := Now();
      Handover();
      ReachesOneMore(start, r, s, Judge(Release));
    }

    // ----- thread_remove -----

    /** One turn of the loop up to its sleep. */
    method RemoverStep() returns (a: RemoverAction)
      requires Valid() && Awake(Now())
      modifies this
      ensures Valid() && RemoverEnabled(old(Now()), a) && Now() == Apply(old(Now()), Remove(a)) && !a.Delete?
    {
      hide Safe;
      HandsLive(Now());
      if removing == [] {
        StepSafe(Now(), Remove(PollEmpty));
        remover := RSleeping(now + EMPTY_SLEEP);
        return PollEmpty;
      }
      var cur := removing[0];
      var age := now / 1000 - heap[cur].timeStamp;
      if age < EXPIRY {
        StepSafe(Now(), Remove(PollYoung));
        var remain := age + 1;
        var wake := now + 1000 * remain;
        remover := RSleeping(if wake < 0 then 0 else wake);
        return PollYoung;
      }
      Erase();
      return Expire;
    }

    /** An expired front leaves the finder and the queue. */
    method Erase()
      requires Valid() && RemoverEnabled(Now(), Expire)
      modifies this
      ensures Valid() && Now() == Apply(old(Now()), Remove(Expire))
    {
      hide Safe;
      HandsLive(Now());
      StepSafe(Now(), Remove(Expire));
      var cur := removing[0];
      finder := finder - {heap[cur].key};
      removing := removing[1..];
      remover := RErased(cur, now);
    }

    method DeleteExpired()
      requires Valid() && RemoverEnabled(Now(), Delete)
      modifies this
      ensures Valid() && Now() == Apply(old(Now()), Remove(Delete))
    {
      hide Safe;
      StepSafe(Now(), Remove(Delete));
      heap := heap - {remover.id};
      remover := RSleeping(now);
    }

    /** One turn of the loop: a poll, or an erasure, a second of sleep and the deletion. */
    method RemoverTurn() returns (ghost run: seq<Action>)
      requires Valid() && Awake(Now()) && Timely(Now(), now + GRACE)
      modifies this
      ensures Valid() && Reaches(old(Now()), run, Now())
      ensures run == if old(removing) == [] then [Remove(PollEmpty)]
                     else if Age(old(Now()), old(removing)[0]) < EXPIRY then [Remove(PollYoung)]
                     else [Remove(Expire)] + [Tick(GRACE)] + [Remove(Delete)]
      ensures var s := old(Now());
              if s.removing == [] then Now() == s.(remover := RSleeping(s.now + 20000))
              else
                var id := s.removing[0];
                && id in s.heap
                && var age := s.now / 1000 - s.heap[id].timeStamp;
                   && age >= 0
                   && Now() == if age < 25 then s.(remover := RSleeping(s.now + 1000 * (age + 1)))
                               else s.(now := s.now + 1000, finder := s.finder - {s.heap[id].key},
                                       removing := s.removing[1..], heap := s.heap - {id},
                                       remover := RSleeping(s.now + 1000))
    {
      hide Safe;
      ghost var start := Now();
      var a := RemoverStep();
      RemoverTurns(start, a);
      hide Reaches, Apply, Enabled, RemoverEnabled, ValidRun, Exec, Timely, Awake;
      run := [Remove(a)];
      if a == Expire {
        EraseTurn(start);
        SleepAndDelete();
        run := [Remove(Expire)] + [Tick(GRACE)] + [Remove(Delete)];
      }
    }

    /** The second between erasure and deletion. */
    method SleepAndDelete()
      requires Valid() && Timely(Now(), now + GRACE) && RemoverEnabled(Apply(Now(), Tick(GRACE)), Delete)
      modifies this
      ensures Valid() && Now() == Apply(Apply(old(Now()), Tick(GRACE)), Remove(Delete))
    {
      hide Safe, Apply, RemoverEnabled, Timely;
      Sleep(GRACE);
      DeleteExpired();
    }

    // ----- thread_rejudge -----

    method WakeUp() returns (woken: bool)
      requires Valid() && rejudger == TWaiting
      modifies this
      ensures Valid() && (woken <==> old(filled))
      ensures Now() == if woken then Apply(old(Now()), Rejudger(Wake)) else old(Now())
    {
      hide Safe;
      woken := filled;
      if woken {
        StepSafe(Now(), Rejudger(Wake));
        filled := false;
        history := history.(updated := []);
        rejudger := TNext(0);
      }
    }

    /** The head of the loop over the list: a new clone, or the end of the batch. */
    method NextInList() returns (a: RejudgeAction)
      requires Valid() && rejudger.TNext?
      modifies this
      ensures Valid() && RejudgeEnabled(old(Now()), a) && Now() == Apply(old(Now()), Rejudger(a))
      ensures a == if old(rejudger.i < |rejudgeList|)
                   then Clone(JsonBuilder.Decimal(old(Now()).list[old(rejudger).i])) else EndBatch
    {
      hide Safe;
      var i := rejudger.i;
      if i >= |rejudgeList| {
        StepSafe(Now(), Rejudger(EndBatch));
        rejudger := TWaiting;
        return EndBatch;
      }
      // the program sets the key only once the row is loaded; nobody reads it before
      var key := JsonBuilder.Decimal(rejudgeList[i]);
      StepSafe(Now(), Rejudger(Clone(key)));
      heap := heap[next := Solution(key, rejudgeInit.kind, rejudgeInit.settings, 0, [])];
      rejudger := TCloned(i, next);
      next := next + 1;
      return Clone(key);
    }

    /** Loading the row may throw; otherwise the flag goes up before the clone is queued. */
    method RaiseFlag(loaded: bool)
      requires Valid() && rejudger.TCloned?
      modifies this
      ensures Valid() && Now() == Apply(old(Now()), Rejudger(if loaded then SetFlag else LoadFails))
    {
      hide Safe;
      StepSafe(Now(), Rejudger(if loaded then SetFlag else LoadFails));
      if loaded {
        rejudging := true;
        rejudger := TFlagged(rejudger.i, rejudger.id);
      } else {
        rejudger := TFinished(rejudger.i, rejudger.id);
      }
    }

    method QueueClone()
      requires Valid() && rejudger.TFlagged?
      modifies this
      ensures Valid() && Now() == Apply(old(Now()), Rejudger(PushClone))
    {
      hide Safe;
      StepSafe(Now(), Rejudger(PushClone));
      var pos := |history.enqueued|;
      Push(rejudger.id);
      rejudger := TPushed(rejudger.i, rejudger.id, pos);
    }

    /** One look at the flag; it is looked at until it is down. */
    method PollFlag() returns (down: bool)
      requires Valid() && rejudger.TPushed?
      modifies this
      ensures Valid() && (down <==> !old(rejudging))
      ensures Now() == if down then Apply(old(Now()), Rejudger(SeeFlag)) else old(Now())
    {
      hide Safe;
      down := !rejudging;
      if down {
        StepSafe(Now(), Rejudger(SeeFlag));
        rejudger := TJudged(rejudger.i, rejudger.id);
      }
    }

    method UpdateRowAfterJudging(ok: bool)
      requires Valid() && rejudger.TJudged?
      modifies this
      ensures Valid() && Now() == Apply(old(Now()), Rejudger(UpdateRow(ok)))
    {
      hide Safe;
      StepSafe(Now(), Rejudger(UpdateRow(ok)));
      if ok {
        history := history.(updated := history.updated + [rejudger.i]);
      }
      rejudger := TFinished(rejudger.i, rejudger.id);
    }

    method DropClone()
      requires Valid() && rejudger.TFinished?
      modifies this
      ensures Valid() && Now() == Apply(old(Now()), Rejudger(DeleteClone))
    {
      hide Safe;
      StepSafe(Now(), Rejudger(DeleteClone));
      heap := heap - {rejudger.id};
      rejudger := TNext(rejudger.i + 1);
    }

    /** The loop over the list up to the busy wait: the next clone is queued, or dropped because its row cannot be
        loaded, or the batch ends. */
    method QueueNext(loaded: bool) returns (ghost run: seq<Action>)
      requires Valid() && rejudger.TNext?
      modifies this
      ensures Valid() && Reaches(old(Now()), run, Now())
      ensures old(rejudger.i >= |rejudgeList|) ==> run == [Rejudger(EndBatch)]
      ensures old(rejudger.i < |rejudgeList|) ==>
                var clone := Rejudger(Clone(JsonBuilder.Decimal(old(Now()).list[old(rejudger).i])));
                run == if loaded then [clone] + [Rejudger(SetFlag)] + [Rejudger(PushClone)]
                       else [clone] + [Rejudger(LoadFails)] + [Rejudger(DeleteClone)]
      ensures var s, t := old(Now()), Now();
              var i := s.rejudge.i;
              t == if i >= |s.list| then s.(rejudge := TWaiting)
                   else if !loaded then s.(next := s.next + 1, rejudge := TNext(i + 1))
                   else
                     var clone := Solution(JsonBuilder.Decimal(s.list[i]), s.init.kind, s.init.settings, 0, []);
                     s.(heap := s.heap[s.next := clone], next := s.next + 1, rejudging := true,
                        waiting := s.waiting + [s.next], history := t.history,
                        rejudge := TPushed(i, s.next, |s.history.enqueued|))
    {
      hide Safe;
      ghost var start := Now();
      var a := NextInList();
      run := [Rejudger(a)];
      ListTurns(start, a);
      hide Reaches, Apply, Enabled, RejudgeEnabled, ValidRun, Exec;
      if a.Clone? {
        LoadAndQueue(loaded);
        CloneTurn(start, a.key, loaded);
        run := if loaded then [Rejudger(a)] + [Rejudger(SetFlag)] + [Rejudger(PushClone)]
               else [Rejudger(a)] + [Rejudger(LoadFails)] + [Rejudger(DeleteClone)];
      }
    }

    /** A clone with its row loaded is queued, another dropped. */
    method LoadAndQueue(loaded: bool)
      requires Valid() && rejudger.TCloned?
      modifies this
      ensures Valid() && Now() == AfterLoading(old(Now()), loaded)
    {
      hide Safe;
      LoadingSteps(Now());
      hide Apply, Enabled, RejudgeEnabled;
      RaiseFlag(loaded);
      if loaded { QueueClone(); } else { DropClone(); }
    }

    /** The rest of the loop body once the judge has cleared the flag. */
    method FinishClone(ok: bool)
      requires Valid() && rejudger.TPushed? && !rejudging
      modifies this
      ensures Valid()
      ensures Reaches(old(Now()), [Rejudger(SeeFlag)] + [Rejudger(UpdateRow(ok))] + [Rejudger(DeleteClone)], Now())
      ensures var s, t := old(Now()), Now();
              var updated := s.history.updated + if ok then [s.rejudge.i] else [];
              t == s.(heap := s.heap - {s.rejudge.id}, rejudge := TNext(s.rejudge.i + 1),
                      history := s.history.(updated := updated))
    {
      hide Safe;
      ghost var start := Now();
      FinishSteps(start, ok);
      OneStep(start, Rejudger(SeeFlag));
      var down := PollFlag();
      hide Reaches, Apply, ValidRun, Exec;
      ghost var run := [Rejudger(SeeFlag)];
      ghost var s := Now();
      UpdateRowAfterJudging(ok);
      ReachesOneMore(start, run, s, Rejudger(UpdateRow(ok)));
      ghost var t := Now();
      DropClone();
      ReachesOneMore(start, run + [Rejudger(UpdateRow(ok))], t, Rejudger(DeleteClone));
      FinishTurnDoes(start, ok, Now());
    }
  }
}
