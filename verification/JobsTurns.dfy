/** The turns of the threads' loops as runs of steps, and what such a run does to the shared variables. */
module JobsTurns {
  import opened Jobs
  import opened JobsInvariants
  import opened JobsRuns
  import opened Wrappers
  import JobsTiming
  import JobsPolls

  /** How the judging of one job ends: with its result, or with an exception before or after it went to the database. */
  datatype Ending = Finished | JudgingThrew(info: string) | WritingThrew(info: string)

  // ----- The runs of whole turns -----

  function Appends(reports: seq<Report>): seq<Action> {
    if reports == [] then [] else Appends(reports[..|reports| - 1]) + [Judge(Append(reports[|reports| - 1]))]
  }

  function EndingRun(kind: Kind, ending: Ending): seq<Action> {
    match ending
    case Finished => if kind == Normal then [Judge(WriteDatabase)] + [Judge(Stamp)] else [Judge(Stamp)]
    case JudgingThrew(info) => [Judge(Fail(info))]
    case WritingThrew(info) => if kind == Normal then [Judge(WriteDatabase)] + [Judge(Fail(info))]
                               else [Judge(Stamp)]
  }

  /** A job from the queue to where it goes afterwards. */
  function JudgeRun(kind: Kind, reports: seq<Report>, ending: Ending): seq<Action> {
    [Judge(Take)] + Appends(reports) + EndingRun(kind, ending) + [Judge(Release)]
  }

  /** The end of a request body, by what it asks for. */
  function BodyRun(s: State, id: Id, list: Option<seq<nat>>): seq<Action> {
    if Deref(s, id).kind != Rejudge then [Http(PushSubmit(id))] + [Http(InsertFinder(id))]
    else if s.rejudge != TWaiting then []
    else if list.None? then [Http(StartRejudgeFails(id))]
    else [Http(HttpAction.StartRejudge(id, list.value))]
  }

  ghost predicate Reaches(s: State, run: seq<Action>, t: State) { ValidRun(s, run) && Exec(s, run) == t }

  lemma ReachesItself(s: State)
    ensures Reaches(s, [], s)
  {
  }

  lemma {:induction false} ReachesOneMore(s: State, run: seq<Action>, t: State, a: Action)
    requires Reaches(s, run, t) && Enabled(t, a)
    ensures Reaches(s, run + [a], Apply(t, a))
    decreases |run|
  {
    hide Enabled, Apply;
    if run == [] {
      assert [] + [a] == [a] && [a][1..] == [];
      assert Exec(Apply(t, a), []) == Apply(t, a);
    } else {
      assert (run + [a])[1..] == run[1..] + [a];
      ReachesOneMore(Apply(s, run[0]), run[1..], t, a);
    }
  }

  lemma AppendsOneMore(reports: seq<Report>, i: nat)
    requires i < |reports|
    ensures Appends(reports[..i + 1]) == Appends(reports[..i]) + [Judge(Append(reports[i]))]
  {
    assert reports[..i + 1][..i] == reports[..i];
  }

  /** What the program dereferences is live. */
  lemma HandsLive(s: State)
    requires Safe(s)
    ensures s.open <= s.heap.Keys && s.inserting.Keys <= s.heap.Keys
    ensures !s.judge.JIdle? ==> s.judge.id in s.heap
    ensures s.removing != [] ==> s.removing[0] in s.heap
  {
    hide Owners, Fifo, WrittenOnce, Kinds, Flag, JobsTiming.Times, JobsTiming.Entries, JobsTiming.Queried;
    forall id | id in s.open ensures id in s.heap {
      HeldIsLive(s, id);
    }
    if !s.judge.JIdle? {
      assert s.judge.id in JudgeHolds(s);
      HeldIsLive(s, s.judge.id);
    }
    if s.removing != [] {
      HeldIsLive(s, s.removing[0]);
    }
  }

  lemma TakenIsLive(s: State)
    requires Safe(s) && s.waiting != []
    ensures s.waiting[0] in s.heap
  {
    HeldIsLive(s, s.waiting[0]);
  }

  lemma FrontLives(s: State)
    requires Safe(s) && s.removing != []
    ensures s.removing[0] in s.heap && Age(s, s.removing[0]) == s.now / 1000 - s.heap[s.removing[0]].timeStamp >= 0
  {
    HeldIsLive(s, s.removing[0]);
    JobsPolls.AgeNotNegative(s);
    hide Safe;
  }

  lemma NextIsFree(s: State)
    requires Safe(s)
    ensures s.next !in s.heap
  {
    hide Owners, Fifo, WrittenOnce, Kinds, Flag, JobsTiming.Timing;
  }

  lemma OpenNotInserting(s: State, id: Id)
    requires Safe(s) && id in s.open
    ensures id !in s.inserting
  {
    hide Owners, WrittenOnce, Kinds, Flag, JobsTiming.Times, JobsTiming.Entries, JobsTiming.Queried;
  }

  // ----- Which steps follow each other -----

  lemma TwoSteps(s: State, a: Action, b: Action)
    requires Enabled(s, a) && Enabled(Apply(s, a), b)
    ensures Reaches(s, [a] + [b], Apply(Apply(s, a), b))
  {
    ReachesItself(s);
    assert [] + [a] == [a];
    ReachesOneMore(s, [], s, a);
    ReachesOneMore(s, [a], Apply(s, a), b);
    hide Reaches, Apply, Enabled;
  }

  lemma OneStep(s: State, a: Action)
    requires Enabled(s, a)
    ensures Reaches(s, [a], Apply(s, a))
  {
    ReachesItself(s);
    assert [] + [a] == [a];
    ReachesOneMore(s, [], s, a);
    hide Reaches, Apply, Enabled;
  }

  lemma SubmitBody(s: State, id: Id)
    requires id in s.open && Deref(s, id).kind != Rejudge
    ensures Enabled(s, Http(PushSubmit(id))) && Enabled(Apply(s, Http(PushSubmit(id))), Http(InsertFinder(id)))
    ensures Reaches(s, BodyRun(s, id, None), Apply(Apply(s, Http(PushSubmit(id))), Http(InsertFinder(id))))
    ensures forall list :: BodyRun(s, id, list) == BodyRun(s, id, None)
  {
    TwoSteps(s, Http(PushSubmit(id)), Http(InsertFinder(id)));
    hide Reaches, HttpApply;
  }

  lemma RejudgeBody(s: State, id: Id, list: Option<seq<nat>>)
    requires id in s.open && Deref(s, id).kind == Rejudge
    ensures s.rejudge != TWaiting ==> Reaches(s, BodyRun(s, id, list), s)
    ensures s.rejudge == TWaiting ==>
              var a := Http(if list.None? then StartRejudgeFails(id) else HttpAction.StartRejudge(id, list.value));
              Enabled(s, a) && Reaches(s, BodyRun(s, id, list), Apply(s, a))
  {
    ReachesItself(s);
    if s.rejudge == TWaiting {
      OneStep(s, Http(if list.None? then StartRejudgeFails(id) else HttpAction.StartRejudge(id, list.value)));
    }
    hide Reaches, Apply;
  }

  lemma TakenJob(s: State)
    requires JudgeEnabled(s, Take)
    ensures var t := Apply(s, Judge(Take));
            t.judge == JRunning(s.waiting[0]) && t.remover == s.remover && t.heap == s.heap
  {
  }

  lemma AppendKeeps(s: State, report: Report)
    requires s.judge.JRunning?
    ensures Enabled(s, Judge(Append(report)))
    ensures var t := Apply(s, Judge(Append(report)));
            t.judge == s.judge && t.remover == s.remover && Deref(t, s.judge.id).kind == Deref(s, s.judge.id).kind
  {
  }

  /** A job with the judge, and the remover not about to delete: which steps can end it. */
  lemma EndingSteps(s: State)
    requires (s.judge.JRunning? || s.judge.JWritten?) && s.remover.RSleeping?
    ensures forall info :: Enabled(s, Judge(Fail(info))) && Stamped(s, Apply(s, Judge(Fail(info))))
    ensures s.judge.JWritten? || Deref(s, s.judge.id).kind != Normal ==>
              Enabled(s, Judge(Stamp)) && Stamped(s, Apply(s, Judge(Stamp)))
    ensures s.judge.JRunning? && Deref(s, s.judge.id).kind == Normal ==>
              && Enabled(s, Judge(WriteDatabase))
              && var t := Apply(s, Judge(WriteDatabase));
                 t.judge == JWritten(s.judge.id) && t.remover == s.remover && t.heap == s.heap
  {
  }

  ghost predicate Stamped(s: State, t: State)
    requires s.judge.JRunning? || s.judge.JWritten?
  {
    && t.judge == JStamped(s.judge.id) && t.remover == s.remover
    && Deref(t, s.judge.id).kind == Deref(s, s.judge.id).kind
    && (s.remover.RSleeping? ==> JudgeEnabled(t, Release))
  }

  lemma JudgeRunIs(kind: Kind, reports: seq<Report>, ending: Ending)
    ensures JudgeRun(kind, reports, ending) ==
            [Judge(Take)] + Appends(reports) + EndingRun(kind, ending) + [Judge(Release)]
  {
  }

  lemma ErasedSteps(s: State)
    requires RemoverEnabled(s, Expire) && Timely(s, s.now + GRACE)
    ensures var t := Apply(s, Remove(Expire));
            && Enabled(t, Tick(GRACE)) && Timely(t, t.now + GRACE)
            && RemoverEnabled(Apply(t, Tick(GRACE)), Delete)
  {
  }

  lemma CloneSteps(s: State, key: string)
    requires RejudgeEnabled(s, Clone(key))
    ensures var t := Apply(s, Rejudger(Clone(key)));
            && t.rejudge.TCloned?
            && Enabled(t, Rejudger(SetFlag)) && Enabled(Apply(t, Rejudger(SetFlag)), Rejudger(PushClone))
            && Enabled(t, Rejudger(LoadFails)) && Enabled(Apply(t, Rejudger(LoadFails)), Rejudger(DeleteClone))
  {
  }

  lemma FinishSteps(s: State, ok: bool)
    requires RejudgeEnabled(s, SeeFlag)
    ensures var t := Apply(s, Rejudger(SeeFlag));
            t.rejudge.TJudged? && Apply(t, Rejudger(UpdateRow(ok))).rejudge.TFinished?
  {
  }

  // ----- What a run of the judge leaves behind -----

  lemma {:induction false} RunSplit(s: State, first: seq<Action>, second: seq<Action>)
    requires ValidRun(s, first + second)
    ensures ValidRun(s, first) && ValidRun(Exec(s, first), second)
    ensures Exec(s, first + second) == Exec(Exec(s, first), second)
    decreases |first|
  {
    hide Enabled, Apply;
    if first == [] {
      assert first + second == second;
    } else {
      assert (first + second)[1..] == first[1..] + second && (first + second)[0] == first[0];
      RunSplit(Apply(s, first[0]), first[1..], second);
    }
  }

  lemma RunOne(s: State, a: Action)
    requires ValidRun(s, [a])
    ensures Enabled(s, a) && Exec(s, [a]) == Apply(s, a)
  {
    hide Enabled, Apply;
    assert [a][1..] == [];
    assert Exec(Apply(s, a), []) == Apply(s, a);
  }

  lemma RunTwo(s: State, a: Action, b: Action)
    requires ValidRun(s, [a] + [b])
    ensures Enabled(s, a) && Enabled(Apply(s, a), b) && Exec(s, [a] + [b]) == Apply(Apply(s, a), b)
  {
    hide Enabled, Apply;
    RunSplit(s, [a], [b]);
    RunOne(s, a);
    RunOne(Apply(s, a), b);
  }

  /** The reports are put behind those that are there, and nothing else changes. */
  lemma {:induction false} AppendsDo(s: State, reports: seq<Report>)
    requires s.judge.JRunning? && s.judge.id in s.heap && ValidRun(s, Appends(reports))
    ensures var o := s.heap[s.judge.id];
            Exec(s, Appends(reports)) == s.(heap := s.heap[s.judge.id := o.(detail := o.detail + reports)])
  {
    hide Enabled, Apply;
    if reports == [] {
      var o := s.heap[s.judge.id];
      assert o.(detail := o.detail + []) == o && s.heap[s.judge.id := o] == s.heap;
    } else {
      var n := |reports| - 1;
      RunSplit(s, Appends(reports[..n]), [Judge(Append(reports[n]))]);
      AppendsDo(s, reports[..n]);
      var t := Exec(s, Appends(reports[..n]));
      RunOne(t, Judge(Append(reports[n])));
      AppendDoes(t, reports[n]);
      assert s.heap[s.judge.id].detail + reports == s.heap[s.judge.id].detail + reports[..n] + [reports[n]];
    }
  }

  lemma AppendDoes(s: State, report: Report)
    requires s.judge.JRunning? && s.judge.id in s.heap
    ensures Enabled(s, Judge(Append(report)))
    ensures var o := s.heap[s.judge.id];
            Apply(s, Judge(Append(report))) == s.(heap := s.heap[s.judge.id := o.(detail := o.detail + [report])])
  {
  }

  /** The exception that ends the job, if any: writing is tried for normal jobs only. */
  function Exception(kind: Kind, ending: Ending): Option<string> {
    match ending
    case Finished => None
    case JudgingThrew(info) => Some(info)
    case WritingThrew(info) => if kind == Normal then Some(info) else None
  }

  /** The object at the end: stamped, and with the one report of a system error after an exception. */
  function Ended(o: Solution, seconds: nat, exception: Option<string>): Solution {
    o.(timeStamp := seconds, detail := if exception.None? then o.detail else [ErrorReport(exception.value)])
  }

  lemma StampDoes(s: State)
    requires Enabled(s, Judge(Stamp)) && s.judge.id in s.heap
    ensures Apply(s, Judge(Stamp)) == s.(heap := s.heap[s.judge.id := Ended(s.heap[s.judge.id], s.now / 1000, None)],
                                         judge := JStamped(s.judge.id))
  {
  }

  lemma FailDoes(s: State, info: string)
    requires Enabled(s, Judge(Fail(info))) && s.judge.id in s.heap
    ensures Apply(s, Judge(Fail(info))) ==
            s.(heap := s.heap[s.judge.id := Ended(s.heap[s.judge.id], s.now / 1000, Some(info))],
               judge := JStamped(s.judge.id))
  {
  }

  lemma WriteDoes(s: State)
    requires Enabled(s, Judge(WriteDatabase))
    ensures Apply(s, Judge(WriteDatabase)) ==
            s.(judge := JWritten(s.judge.id), history := s.history.(written := s.history.written + [s.judge.id]))
  {
  }

  lemma EndingDoes(s: State, kind: Kind, ending: Ending)
    requires s.judge.JRunning? && s.judge.id in s.heap && s.heap[s.judge.id].kind == kind
    requires ValidRun(s, EndingRun(kind, ending))
    ensures var t := Exec(s, EndingRun(kind, ending));
            && t.history == s.history.(written := t.history.written)
            && t == s.(heap := s.heap[s.judge.id := Ended(s.heap[s.judge.id], s.now / 1000, Exception(kind, ending))],
                       judge := JStamped(s.judge.id), history := t.history)
  {
    hide Enabled, Apply, Ended;
    if ending.JudgingThrew? {
      RunOne(s, Judge(Fail(ending.info)));
      FailDoes(s, ending.info);
    } else if kind != Normal {
      RunOne(s, Judge(Stamp));
      StampDoes(s);
    } else {
      var last := if ending.Finished? then Stamp else Fail(ending.info);
      RunTwo(s, Judge(WriteDatabase), Judge(last));
      WriteDoes(s);
      var t := Apply(s, Judge(WriteDatabase));
      if ending.Finished? { StampDoes(t); } else { FailDoes(t, ending.info); }
    }
  }

  lemma TakeDoes(s: State)
    requires Enabled(s, Judge(Take))
    ensures s.waiting != [] && Apply(s, Judge(Take)) == s.(judge := JRunning(s.waiting[0]), waiting := s.waiting[1..])
  {
  }

  lemma ReleaseDoes(s: State)
    requires Enabled(s, Judge(Release))
    ensures var t, kind := Apply(s, Judge(Release)), Deref(s, s.judge.id).kind;
            t == s.(judge := JIdle, history := t.history,
                    removing := if kind == Normal then s.removing + [s.judge.id] else s.removing,
                    rejudging := if kind == Rejudge then false else s.rejudging)
  {
  }

  /** A turn of the judge without interference: the first job leaves the queue; its object has all its reports behind
      those it had, or after an exception the one report 100 with the exception's text, and the time; a normal one goes
      to the removing queue, a rejudged one lowers the flag. Nothing else changes. */
  lemma JudgeRunDoes(s: State, reports: seq<Report>, ending: Ending)
    requires s.waiting != [] && s.waiting[0] in s.heap
    requires ValidRun(s, JudgeRun(s.heap[s.waiting[0]].kind, reports, ending))
    ensures var id := s.waiting[0];
            var o := s.heap[id];
            var t := Exec(s, JudgeRun(o.kind, reports, ending));
            var threw := ending.JudgingThrew? || (ending.WritingThrew? && o.kind == Normal);
            var detail := if threw then [Report(100, 0, 0, ending.info, 0)] else o.detail + reports;
            t == s.(judge := JIdle, waiting := s.waiting[1..], history := t.history,
                    heap := s.heap[id := o.(timeStamp := s.now / 1000, detail := detail)],
                    removing := if o.kind == Normal then s.removing + [id] else s.removing,
                    rejudging := if o.kind == Rejudge then false else s.rejudging)
  {
    var id := s.waiting[0];
    var o := s.heap[id];
    var before := [Judge(Take)] + Appends(reports) + EndingRun(o.kind, ending);
    JudgeRunIs(o.kind, reports, ending);
    hide Enabled, Apply, EndingRun, Appends, JudgeRun;
    RunSplit(s, before, [Judge(Release)]);
    RunSplit(s, [Judge(Take)] + Appends(reports), EndingRun(o.kind, ending));
    RunSplit(s, [Judge(Take)], Appends(reports));
    RunOne(s, Judge(Take));
    TakeDoes(s);
    var s1 := Apply(s, Judge(Take));
    AppendsDo(s1, reports);
    var s2 := Exec(s1, Appends(reports));
    EndingDoes(s2, o.kind, ending);
    var s3 := Exec(s2, EndingRun(o.kind, ending));
    RunOne(s3, Judge(Release));
    ReleaseDoes(s3);
  }

  lemma JudgeTurnDoes(s: State, reports: seq<Report>, ending: Ending, t: State)
    requires s.waiting != [] && s.waiting[0] in s.heap
    requires Reaches(s, JudgeRun(s.heap[s.waiting[0]].kind, reports, ending), t)
    ensures var id := s.waiting[0];
            var o := s.heap[id];
            var threw := ending.JudgingThrew? || (ending.WritingThrew? && o.kind == Normal);
            var detail := if threw then [Report(100, 0, 0, ending.info, 0)] else o.detail + reports;
            t == s.(judge := JIdle, waiting := s.waiting[1..], history := t.history,
                    heap := s.heap[id := o.(timeStamp := s.now / 1000, detail := detail)],
                    removing := if o.kind == Normal then s.removing + [id] else s.removing,
                    rejudging := if o.kind == Rejudge then false else s.rejudging)
  {
    hide ValidRun, Exec, JudgeRun;
    JudgeRunDoes(s, reports, ending);
  }

  // ----- And the runs of the other threads -----

  lemma RunThree(s: State, a: Action, b: Action, c: Action)
    requires ValidRun(s, [a] + [b] + [c])
    ensures Enabled(s, a) && Enabled(Apply(s, a), b) && Enabled(Apply(Apply(s, a), b), c)
    ensures Exec(s, [a] + [b] + [c]) == Apply(Apply(Apply(s, a), b), c)
  {
    hide Enabled, Apply;
    RunSplit(s, [a] + [b], [c]);
    RunTwo(s, a, b);
    RunOne(Apply(Apply(s, a), b), c);
  }

  /** How long the remover sleeps, and when it erases instead: the front is 25 s old or more by time(0). */
  lemma RemoverActs(s: State)
    requires s.remover.RSleeping? && s.now >= s.remover.until
    ensures RemoverEnabled(s, PollEmpty) <==> s.removing == []
    ensures s.removing != [] && s.removing[0] in s.heap ==>
              var age := s.now / 1000 - s.heap[s.removing[0]].timeStamp;
              && (RemoverEnabled(s, Expire) <==> age >= 25)
              && (RemoverEnabled(s, PollYoung) <==> age < 25)
              && (0 <= age < 25 ==>
                    Apply(s, Remove(PollYoung)) == s.(remover := RSleeping(s.now + 1000 * (age + 1))))
    ensures s.removing == [] ==> Apply(s, Remove(PollEmpty)) == s.(remover := RSleeping(s.now + 20000))
  {
  }

  lemma EraseDoes(s: State)
    requires Enabled(s, Remove(Expire)) && s.removing[0] in s.heap
    ensures var id := s.removing[0];
            Apply(s, Remove(Expire)) == s.(finder := s.finder - {s.heap[id].key}, removing := s.removing[1..],
                                           remover := RErased(id, s.now))
  {
  }

  lemma DeleteDoes(s: State)
    requires Enabled(s, Remove(Delete))
    ensures s.remover.RErased? && s.now >= s.remover.at + 1000
    ensures Apply(s, Remove(Delete)) == s.(heap := s.heap - {s.remover.id}, remover := RSleeping(s.now))
  {
  }

  lemma TickDoes(s: State, ms: nat)
    requires Enabled(s, Tick(ms))
    ensures Apply(s, Tick(ms)) == s.(now := s.now + ms)
  {
  }

  /** The remover awake: what it does first, and what can follow an erasure. */
  lemma RemoverTurns(s: State, a: RemoverAction)
    requires Safe(s) && Awake(s) && RemoverEnabled(s, a) && !a.Delete?
    ensures Reaches(s, [Remove(a)], Apply(s, Remove(a))) && (s.removing == [] <==> a == PollEmpty)
    ensures s.removing == [] ==> Apply(s, Remove(a)) == s.(remover := RSleeping(s.now + 20000))
    ensures s.removing != [] ==>
              var id := s.removing[0];
              && id in s.heap
              && var age := s.now / 1000 - s.heap[id].timeStamp;
                 && age >= 0 && age == Age(s, id) && (a == Expire <==> age >= 25) && (a == PollYoung <==> age < 25)
                 && (age < 25 ==> Apply(s, Remove(a)) == s.(remover := RSleeping(s.now + 1000 * (age + 1))))
  {
    hide Safe, Reaches, Apply, RemoverEnabled, Enabled, Age, Awake;
    OnlyOne(s, a);
    OneStep(s, Remove(a));
    if s.removing != [] { FrontLives(s); }
    RemoverActs(s);
  }

  lemma OnlyOne(s: State, a: RemoverAction)
    requires Awake(s) && RemoverEnabled(s, a) && !a.Delete?
    ensures s.remover.RSleeping? && s.now >= s.remover.until && Enabled(s, Remove(a))
    ensures (a == PollEmpty <==> RemoverEnabled(s, PollEmpty)) && (a == PollYoung <==> RemoverEnabled(s, PollYoung)) &&
            (a == Expire <==> RemoverEnabled(s, Expire))
  {
  }

  /** The erasure, the second after it and the deletion. */
  lemma EraseTurn(s: State)
    requires Safe(s) && Enabled(s, Remove(Expire)) && Timely(s, s.now + GRACE)
    ensures var t := Apply(s, Remove(Expire));
            && Timely(t, t.now + GRACE) && RemoverEnabled(Apply(t, Tick(GRACE)), Delete)
            && var t' := Apply(Apply(t, Tick(GRACE)), Remove(Delete));
               && Reaches(s, [Remove(Expire)] + [Tick(GRACE)] + [Remove(Delete)], t')
               && s.removing != [] && s.removing[0] in s.heap
               && t' == s.(now := s.now + 1000, finder := s.finder - {s.heap[s.removing[0]].key},
                           removing := s.removing[1..], heap := s.heap - {s.removing[0]},
                           remover := RSleeping(s.now + 1000))
  {
    ErasedSteps(s);
    FrontLives(s);
    hide Safe, Reaches, Apply, Timely, ValidRun, Exec;
    var t := Apply(s, Remove(Expire));
    TwoSteps(s, Remove(Expire), Tick(GRACE));
    ReachesOneMore(s, [Remove(Expire)] + [Tick(GRACE)], Apply(t, Tick(GRACE)), Remove(Delete));
    EraseTurnDoes(s, Apply(Apply(t, Tick(GRACE)), Remove(Delete)));
  }

  /** The head of the loop over the list. */
  lemma ListTurns(s: State, a: RejudgeAction)
    requires Safe(s) && RejudgeEnabled(s, a) && (a.Clone? || a == EndBatch)
    ensures s.rejudge.TNext? && Reaches(s, [Rejudger(a)], Apply(s, Rejudger(a)))
    ensures a == EndBatch ==> s.rejudge.i >= |s.list| && Apply(s, Rejudger(a)) == s.(rejudge := TWaiting)
    ensures a.Clone? ==> s.rejudge.i < |s.list| && Apply(s, Rejudger(a)).rejudge.TCloned?
  {
    OneStep(s, Rejudger(a));
    hide Safe, Reaches;
    if a.Clone? { CloneSteps(s, a.key); }
  }

  /** From a clone to its place in the queue, or to its end if the row cannot be loaded. */
  function AfterLoading(s: State, loaded: bool): State
    requires s.rejudge.TCloned?
  {
    if loaded then Apply(Apply(s, Rejudger(SetFlag)), Rejudger(PushClone))
    else Apply(Apply(s, Rejudger(LoadFails)), Rejudger(DeleteClone))
  }

  lemma LoadingSteps(s: State)
    requires s.rejudge.TCloned?
    ensures Apply(s, Rejudger(SetFlag)).rejudge.TFlagged? && Apply(s, Rejudger(LoadFails)).rejudge.TFinished?
  {
  }

  lemma CloneTurn(s: State, key: string, loaded: bool)
    requires Safe(s) && RejudgeEnabled(s, Clone(key))
    ensures var clone, t := Rejudger(Clone(key)), AfterLoading(Apply(s, Rejudger(Clone(key))), loaded);
            var run := if loaded then [clone] + [Rejudger(SetFlag)] + [Rejudger(PushClone)]
                       else [clone] + [Rejudger(LoadFails)] + [Rejudger(DeleteClone)];
            && Reaches(s, run, t)
            && t == if !loaded then s.(next := s.next + 1, rejudge := TNext(s.rejudge.i + 1))
                    else s.(heap := s.heap[s.next := Solution(key, s.init.kind, s.init.settings, 0, [])],
                            next := s.next + 1, rejudging := true, waiting := s.waiting + [s.next],
                            history := t.history, rejudge := TPushed(s.rejudge.i, s.next, |s.history.enqueued|))
  {
    var clone := Rejudger(Clone(key));
    CloneSteps(s, key);
    NextIsFree(s);
    hide Safe, Reaches, Apply, Enabled, RejudgeEnabled, ValidRun, Exec;
    var s1 := Apply(s, clone);
    var a, b := if loaded then SetFlag else LoadFails, if loaded then PushClone else DeleteClone;
    TwoSteps(s, clone, Rejudger(a));
    ReachesOneMore(s, [clone] + [Rejudger(a)], Apply(s1, Rejudger(a)), Rejudger(b));
    if loaded { QueueTurnDoes(s, key, AfterLoading(s1, true)); } else { DropTurnDoes(s, key, AfterLoading(s1, false)); }
  }

  /** An erasure takes the key of the front from the finder, the front from the queue and, a second later, the object
      from the heap. */
  lemma EraseTurnDoes(s: State, t: State)
    requires s.removing != [] && s.removing[0] in s.heap
    requires Reaches(s, [Remove(Expire)] + [Tick(GRACE)] + [Remove(Delete)], t)
    ensures var id := s.removing[0];
            t == s.(now := s.now + 1000, finder := s.finder - {s.heap[id].key}, removing := s.removing[1..],
                    heap := s.heap - {id}, remover := RSleeping(s.now + 1000))
  {
    RunThree(s, Remove(Expire), Tick(GRACE), Remove(Delete));
    hide Enabled, Apply, ValidRun, Exec;
    EraseDoes(s);
    var s1 := Apply(s, Remove(Expire));
    TickDoes(s1, GRACE);
    DeleteDoes(Apply(s1, Tick(GRACE)));
  }

  lemma CloneDoes(s: State, key: string)
    requires Enabled(s, Rejudger(Clone(key)))
    ensures s.rejudge.TNext? && s.rejudge.i < |s.list|
    ensures Apply(s, Rejudger(Clone(key))) ==
            s.(heap := s.heap[s.next := Solution(key, s.init.kind, s.init.settings, 0, [])], next := s.next + 1,
               rejudge := TCloned(s.rejudge.i, s.next))
  {
  }

  lemma FlagDoes(s: State)
    requires s.rejudge.TCloned?
    ensures Apply(s, Rejudger(SetFlag)) == s.(rejudging := true, rejudge := TFlagged(s.rejudge.i, s.rejudge.id))
    ensures Apply(s, Rejudger(LoadFails)) == s.(rejudge := TFinished(s.rejudge.i, s.rejudge.id))
  {
  }

  lemma PushDoes(s: State)
    requires s.rejudge.TFlagged?
    ensures var n := |s.history.enqueued|;
            Apply(s, Rejudger(PushClone)) ==
            s.(waiting := s.waiting + [s.rejudge.id], rejudge := TPushed(s.rejudge.i, s.rejudge.id, n),
               history := s.history.(enqueued := s.history.enqueued + [s.rejudge.id]))
  {
  }

  lemma DropDoes(s: State)
    requires s.rejudge.TFinished?
    ensures Apply(s, Rejudger(DeleteClone)) == s.(heap := s.heap - {s.rejudge.id}, rejudge := TNext(s.rejudge.i + 1))
  {
  }

  /** The next clone has the settings of the request, no report and no time; it is behind all jobs, with the flag up. */
  lemma QueueTurnDoes(s: State, key: string, t: State)
    requires Reaches(s, [Rejudger(Clone(key))] + [Rejudger(SetFlag)] + [Rejudger(PushClone)], t)
    ensures s.rejudge.TNext?
    ensures t == s.(heap := s.heap[s.next := Solution(key, s.init.kind, s.init.settings, 0, [])], next := s.next + 1,
                    rejudging := true, waiting := s.waiting + [s.next], history := t.history,
                    rejudge := TPushed(s.rejudge.i, s.next, |s.history.enqueued|))
  {
    RunThree(s, Rejudger(Clone(key)), Rejudger(SetFlag), Rejudger(PushClone));
    hide Enabled, Apply, ValidRun, Exec;
    CloneDoes(s, key);
    var s1 := Apply(s, Rejudger(Clone(key)));
    FlagDoes(s1);
    PushDoes(Apply(s1, Rejudger(SetFlag)));
  }

  /** A clone whose row cannot be loaded leaves no trace but the next place in the list. */
  lemma DropTurnDoes(s: State, key: string, t: State)
    requires s.next !in s.heap
    requires Reaches(s, [Rejudger(Clone(key))] + [Rejudger(LoadFails)] + [Rejudger(DeleteClone)], t)
    ensures s.rejudge.TNext? && t == s.(next := s.next + 1, rejudge := TNext(s.rejudge.i + 1))
  {
    RunThree(s, Rejudger(Clone(key)), Rejudger(LoadFails), Rejudger(DeleteClone));
    hide Enabled, Apply, ValidRun, Exec;
    CloneDoes(s, key);
    var s1 := Apply(s, Rejudger(Clone(key)));
    FlagDoes(s1);
    DropDoes(Apply(s1, Rejudger(LoadFails)));
    assert s1.heap - {s.next} == s.heap;
  }

  lemma SeeDoes(s: State)
    requires Enabled(s, Rejudger(SeeFlag))
    ensures s.rejudge.TPushed? && !s.rejudging
    ensures Apply(s, Rejudger(SeeFlag)) == s.(rejudge := TJudged(s.rejudge.i, s.rejudge.id))
  {
  }

  lemma UpdateDoes(s: State, ok: bool)
    requires s.rejudge.TJudged?
    ensures var updated := s.history.updated + if ok then [s.rejudge.i] else [];
            Apply(s, Rejudger(UpdateRow(ok))) ==
            s.(rejudge := TFinished(s.rejudge.i, s.rejudge.id), history := s.history.(updated := updated))
  {
    assert s.history.updated + [] == s.history.updated;
  }

  /** The rest of the loop body: one place of the list is done, its clone gone. */
  lemma FinishTurnDoes(s: State, ok: bool, t: State)
    requires Reaches(s, [Rejudger(SeeFlag)] + [Rejudger(UpdateRow(ok))] + [Rejudger(DeleteClone)], t)
    ensures s.rejudge.TPushed? && !s.rejudging
    ensures var updated := s.history.updated + if ok then [s.rejudge.i] else [];
            t == s.(heap := s.heap - {s.rejudge.id}, rejudge := TNext(s.rejudge.i + 1),
                    history := s.history.(updated := updated))
  {
    RunThree(s, Rejudger(SeeFlag), Rejudger(UpdateRow(ok)), Rejudger(DeleteClone));
    hide Enabled, Apply, ValidRun, Exec;
    SeeDoes(s);
    var s1 := Apply(s, Rejudger(SeeFlag));
    UpdateDoes(s1, ok);
    DropDoes(Apply(s1, Rejudger(UpdateRow(ok))));
  }

  // ----- And of the end of a request body -----

  lemma PushSubmitDoes(s: State, id: Id)
    requires Enabled(s, Http(PushSubmit(id))) && id in s.heap
    ensures Apply(s, Http(PushSubmit(id))) ==
            s.(heap := s.heap[id := s.heap[id].(timeStamp := 0)], open := s.open - {id}, waiting := s.waiting + [id],
               inserting := s.inserting[id := s.now / 1000],
               history := s.history.(enqueued := s.history.enqueued + [id]))
  {
  }

  lemma InsertDoes(s: State, id: Id)
    requires Enabled(s, Http(InsertFinder(id))) && id in s.heap
    ensures Apply(s, Http(InsertFinder(id))) ==
            s.(finder := s.finder[s.heap[id].key := id], inserting := s.inserting - {id})
  {
  }

  /** A submission is handed over: queued behind all others, without a time, and found under its key. */
  lemma SubmitTurnDoes(s: State, id: Id, list: Option<seq<nat>>, t: State)
    requires id in s.open && id in s.heap && id !in s.inserting && s.heap[id].kind != Rejudge
    requires Reaches(s, BodyRun(s, id, list), t)
    ensures t == s.(heap := s.heap[id := s.heap[id].(timeStamp := 0)], open := s.open - {id},
                    waiting := s.waiting + [id], finder := s.finder[s.heap[id].key := id], history := t.history)
  {
    RunTwo(s, Http(PushSubmit(id)), Http(InsertFinder(id)));
    hide Enabled, Apply, ValidRun, Exec;
    PushSubmitDoes(s, id);
    InsertDoes(Apply(s, Http(PushSubmit(id))), id);
    assert s.inserting[id := s.now / 1000] - {id} == s.inserting;
  }

  lemma StartDoes(s: State, id: Id, list: seq<nat>)
    requires Enabled(s, Http(HttpAction.StartRejudge(id, list))) && id in s.heap
    ensures var t := Apply(s, Http(HttpAction.StartRejudge(id, list)));
            t == s.(init := s.heap[id], list := list, filled := true, history := t.history)
  {
  }

  lemma StartFailsDoes(s: State, id: Id)
    requires Enabled(s, Http(StartRejudgeFails(id))) && id in s.heap
    ensures var t := Apply(s, Http(StartRejudgeFails(id)));
            t == s.(init := s.heap[id], history := t.history)
  {
  }

  /** A rejudge request leaves its settings as soon as it has the lock, and its list only if the query succeeds. */
  lemma RejudgeTurnDoes(s: State, id: Id, list: Option<seq<nat>>, t: State)
    requires id in s.open && id in s.heap && s.heap[id].kind == Rejudge
    requires Reaches(s, BodyRun(s, id, list), t)
    ensures t == if s.rejudge != TWaiting then s
                 else if list.None? then s.(init := s.heap[id], history := t.history)
                 else s.(init := s.heap[id], list := list.value, filled := true, history := t.history)
  {
    if s.rejudge == TWaiting {
      var a := Http(if list.None? then StartRejudgeFails(id) else HttpAction.StartRejudge(id, list.value));
      RunOne(s, a);
      hide ValidRun, Exec, Apply, Enabled;
      if list.None? { StartFailsDoes(s, id); } else { StartDoes(s, id, list.value); }
    }
  }
}
