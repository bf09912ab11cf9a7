/** The whole story of one object: what a run did to it, counted from the steps alone, determines what it holds. */
module JobsStories {
  import opened Jobs
  import opened JobsInvariants
  import opened JobsTiming
  import opened JobsRuns
  import opened JobsBatch
  import opened JobsDetails

  /** What an object was made with. */
  datatype Birth = Birth(key: string, kind: Kind, settings: Settings)

  /** What happened to one object: how it came into being, the reports made while the judge had it, the messages of
      exceptions, the times by time(0) when its judging ended, and how often it went to the database. */
  datatype Story = Story(born: seq<Birth>, reports: seq<Report>, failures: seq<string>, stamps: seq<nat>, writes: nat)

  const UNTOLD := Story([], [], [], [], 0)

  predicate Judges(s: State, id: Id) { s.judge.JRunning? && s.judge.id == id }

  /** One step, as far as it concerns the object. */
  function Grow(y: Story, s: State, a: Action, id: Id): Story {
    match a
    case Http(Open(key, kind, settings)) =>
      if s.next == id then y.(born := y.born + [Birth(key, kind, settings)]) else y
    case Rejudger(Clone(key)) =>
      if s.next == id then y.(born := y.born + [Birth(key, Rejudge, s.history.lastWinner)]) else y
    case Judge(Append(report)) => if Judges(s, id) then y.(reports := y.reports + [report]) else y
    case Judge(WriteDatabase) => if Judges(s, id) then y.(writes := y.writes + 1) else y
    case Judge(Stamp) => if id in JudgeHolds(s) then y.(stamps := y.stamps + [s.now / 1000]) else y
    case Judge(Fail(info)) =>
      if id in JudgeHolds(s) then y.(failures := y.failures + [info], stamps := y.stamps + [s.now / 1000]) else y
    case _ => y
  }

  function Told(y: Story, s: State, run: seq<Action>, id: Id): Story
    requires ValidRun(s, run)
    decreases |run|
  {
    if run == [] then y else Told(Grow(y, s, run[0], id), Apply(s, run[0]), run[1..], id)
  }

  /** The object is what its story says. */
  ghost predicate Tells(y: Story, s: State, id: Id) {
    && (id in s.heap ==> OneBirth(y, s.heap[id]) && OneEnding(y, s.heap[id]))
    && (id >= s.next ==> y == UNTOLD)
    && (y.writes == if id in s.history.written then 1 else 0)
  }

  ghost predicate OneBirth(y: Story, o: Solution) {
    y.born == [Birth(o.key, o.kind, o.settings)]
  }

  /** Judging ends at most once: without an exception the details are the reports made, with one they are the single
      report of a system error with its message. */
  ghost predicate OneEnding(y: Story, o: Solution) {
    && |y.failures| <= |y.stamps| <= 1
    && o.timeStamp == (if y.stamps == [] then 0 else y.stamps[0])
    && (y.stamps != [] ==> o.timeStamp != 0)
    && o.detail == (if y.failures == [] then y.reports else [Report(100, 0, 0, y.failures[0], 0)])
  }

  /** A normal object whose judging ended well is in the database, and no other kind ever is. */
  ghost predicate WrittenWell(y: Story, s: State, id: Id) {
    id in s.heap ==>
      && (s.heap[id].kind != Normal ==> id !in s.history.written)
      && (s.heap[id].kind == Normal && y.stamps != [] && y.failures == [] ==> id in s.history.written)
      && (s.judge == JWritten(id) ==> id in s.history.written)
  }

  ghost predicate Known(y: Story, s: State, id: Id) { Tells(y, s, id) && WrittenWell(y, s, id) }

  /** What a step asks of the state before it. */
  ghost predicate Ready(s: State) { Safe(s) && Unfinished(s) && Batch(s) }

  // ----- Steps that do not concern the object -----

  /** The object and the record of written ones stay. */
  ghost predicate Untouched(s: State, t: State, id: Id) {
    && (id in t.heap ==> id in s.heap && t.heap[id] == s.heap[id])
    && s.next <= t.next
    && (id in t.history.written <==> id in s.history.written)
    && (t.judge == JWritten(id) ==> s.judge == JWritten(id))
  }

  lemma UntouchedKnown(y: Story, s: State, t: State, id: Id)
    requires Known(y, s, id) && Untouched(s, t, id)
    ensures Known(y, t, id)
  {
    hide OneBirth, OneEnding;
  }

  // ----- Steps that do -----

  /** Written objects are older than the next one. */
  lemma WrittenIsOld(s: State, id: Id)
    requires Safe(s) && (id in s.history.written || s.judge == JWritten(id))
    ensures id < s.next
  {
    hide Timing, Kinds, Flag, Owners;
    if s.judge == JWritten(id) || s.judge == JStamped(id) { assert id in JudgeHolds(s); }
    assert id in s.history.enqueued;
  }

  lemma NextUnwritten(s: State, id: Id)
    requires Safe(s) && id >= s.next
    ensures id !in s.heap && id !in s.history.written && s.judge != JWritten(id)
  {
    if id in s.history.written || s.judge == JWritten(id) { WrittenIsOld(s, id); }
    hide Timing, Fifo, WrittenOnce, Kinds, Flag, Owners;
  }

  lemma BornKnown(y: Story, t: State, id: Id)
    requires y == UNTOLD && id in t.heap && t.heap[id].timeStamp == 0 && t.heap[id].detail == []
    requires id < t.next && id !in t.history.written && t.judge != JWritten(id)
    ensures Known(y.(born := y.born + [Birth(t.heap[id].key, t.heap[id].kind, t.heap[id].settings)]), t, id)
  {
  }

  lemma OpenKnown(y: Story, s: State, a: HttpAction, id: Id)
    requires Ready(s) && Known(y, s, id) && HttpEnabled(s, a) && a.Open?
    ensures Known(Grow(y, s, Http(a), id), HttpApply(s, a), id)
  {
    var t := HttpApply(s, a);
    if id == s.next {
      NextUnwritten(s, id);
      hide Ready, Known, HttpEnabled;
      assert y == UNTOLD by { UntoldYet(y, s, id); }
      BornKnown(y, t, id);
    } else {
      hide Ready;
      UntouchedKnown(y, s, t, id);
    }
  }

  lemma UntoldYet(y: Story, s: State, id: Id)
    requires Known(y, s, id) && id >= s.next
    ensures y == UNTOLD
  {
  }

  lemma HttpUntouched(s: State, a: HttpAction, id: Id)
    requires Ready(s) && HttpEnabled(s, a) && !a.Open?
    ensures Untouched(s, HttpApply(s, a), id)
  {
    if a.PushSubmit? { PushUntouched(s, a.id, id); } else {
      hide Ready, HttpApply;
      HttpHeap(s, a);
      HttpHolders(s, a);
      HttpKeepsHistory(s, a);
    }
  }

  lemma PushUntouched(s: State, id: Id, other: Id)
    requires Ready(s) && HttpEnabled(s, PushSubmit(id))
    ensures Untouched(s, HttpApply(s, PushSubmit(id)), other)
  {
    OpenIsLive(s, id);
    PushSubmitMoves(s, id);
    HttpHeap(s, PushSubmit(id));
    hide Ready, HttpApply;
  }

  lemma OpenIsLive(s: State, id: Id)
    requires Ready(s) && id in s.open
    ensures id in s.heap && s.heap[id].timeStamp == 0
  {
    HeldIsLive(s, id);
    assert StampOf(s, id) == 0;
    hide Safe;
  }

  lemma HttpKeepsHistory(s: State, a: HttpAction)
    requires HttpEnabled(s, a)
    ensures HttpApply(s, a).history.written == s.history.written
  {
  }

  lemma HttpKnown(y: Story, s: State, a: HttpAction, id: Id)
    requires Ready(s) && Known(y, s, id) && HttpEnabled(s, a)
    ensures Known(Grow(y, s, Http(a), id), HttpApply(s, a), id)
  {
    hide Ready, Known, HttpApply, HttpEnabled;
    if a.Open? { OpenKnown(y, s, a, id); } else {
      HttpUntouched(s, a, id);
      UntouchedKnown(y, s, HttpApply(s, a), id);
    }
  }

  // ----- The judge -----

  /** What a judging step does to the heap, in plain terms. */
  lemma JudgeObjects(s: State, a: JudgeAction)
    requires JudgeEnabled(s, a)
    ensures var t := JudgeApply(s, a);
            && t.next == s.next
            && (a.Take? || a.Release? || a.WriteDatabase? ==> t.heap == s.heap)
            && (a.Append? || a.Stamp? || a.Fail? ==>
                  t.heap == s.heap[s.judge.id := t.heap[s.judge.id]] && s.judge.id in t.heap)
            && t.history.written == (if a.WriteDatabase? then s.history.written + [s.judge.id] else s.history.written)
            && (t.judge.JWritten? ==> t.judge == JWritten(s.judge.id) && !s.judge.JIdle? &&
                                      (a.WriteDatabase? || s.judge.JWritten?))
  {
  }

  lemma JudgeUntouched(s: State, a: JudgeAction, id: Id)
    requires JudgeEnabled(s, a)
    requires a.Take? || a.Release? || s.judge.id != id
    ensures Untouched(s, JudgeApply(s, a), id)
  {
    JudgeObjects(s, a);
    hide JudgeApply;
  }

  /** The object in the judge's hands is alive and unfinished. */
  lemma JudgedIsOpen(y: Story, s: State, id: Id)
    requires Ready(s) && Known(y, s, id) && (s.judge == JRunning(id) || s.judge == JWritten(id))
    ensures id in s.heap && s.heap[id].timeStamp == 0 && y.stamps == [] && y.failures == []
    ensures y.born == [Birth(s.heap[id].key, s.heap[id].kind, s.heap[id].settings)] && s.heap[id].detail == y.reports
    ensures id < s.next && s.now / 1000 >= 1
    ensures s.judge == JWritten(id) ==> id in s.history.written
    ensures s.judge == JRunning(id) ==> id !in s.history.written
    ensures s.heap[id].kind != Normal ==> id !in s.history.written
    ensures y.writes == if id in s.history.written then 1 else 0
  {
    JudgedIsLive(s, id);
    if s.judge == JRunning(id) { RunningUnwritten(s, id); }
    assert StampOf(s, id) == 0;
    hide Safe;
  }

  lemma JudgedIsLive(s: State, id: Id)
    requires Safe(s) && (s.judge == JRunning(id) || s.judge == JWritten(id))
    ensures id in s.heap && id < s.next && s.now / 1000 >= 1
  {
    assert id in JudgeHolds(s);
    HeldIsLive(s, id);
  }

  lemma RunningUnwritten(s: State, id: Id)
    requires Safe(s) && s.judge == JRunning(id)
    ensures id !in s.history.written
  {
    hide Timing, Kinds, Flag, Owners;
    var e, n := s.history.enqueued, |s.history.completed|;
    assert e[n] == id;
    forall i | 0 <= i < n ensures s.history.completed[i] != id {
      assert e[i] == s.history.completed[i];
    }
  }

  lemma AppendKnown(y: Story, s: State, report: Report, id: Id)
    requires Ready(s) && Known(y, s, id) && s.judge == JRunning(id)
    ensures Known(Grow(y, s, Judge(Append(report)), id), JudgeApply(s, Append(report)), id)
  {
    JudgedIsOpen(y, s, id);
    hide Ready, Known;
    var t := JudgeApply(s, Append(report));
    assert t.heap[id] == s.heap[id].(detail := s.heap[id].detail + [report]);
    EndKnown(y.(reports := y.reports + [report]), t, id);
  }

  lemma WriteKnown(y: Story, s: State, id: Id)
    requires Ready(s) && Known(y, s, id) && s.judge == JRunning(id) && s.heap[id].kind == Normal
    requires JudgeEnabled(s, WriteDatabase)
    ensures Known(Grow(y, s, Judge(WriteDatabase), id), JudgeApply(s, WriteDatabase), id)
  {
    JudgedIsOpen(y, s, id);
    hide Ready, Known, JudgeEnabled;
    var t := JudgeApply(s, WriteDatabase);
    assert id in t.history.written;
    EndKnown(y.(writes := y.writes + 1), t, id);
  }

  /** The two ways in which judging ends. */
  lemma JudgingEnds(s: State, a: JudgeAction, id: Id)
    requires (s.judge == JRunning(id) || s.judge == JWritten(id)) && id in s.heap
    requires JudgeEnabled(s, a) && (a.Stamp? || a.Fail?)
    ensures var t, o := JudgeApply(s, a), s.heap[id];
            && t.next == s.next && t.history.written == s.history.written && t.judge == JStamped(id)
            && id in t.heap
            && t.heap[id] == o.(timeStamp := s.now / 1000,
                                detail := if a.Stamp? then o.detail else [Report(100, 0, 0, a.info, 0)])
    ensures a.Stamp? ==> s.judge == JWritten(id) || s.heap[id].kind != Normal
  {
  }

  lemma StoryEnds(y: Story, s: State, a: JudgeAction, id: Id)
    requires id in JudgeHolds(s) && y.stamps == [] && y.failures == [] && (a.Stamp? || a.Fail?)
    ensures Grow(y, s, Judge(a), id) ==
            y.(failures := if a.Fail? then [a.info] else [], stamps := [s.now / 1000])
  {
  }

  lemma EndingKnown(y: Story, s: State, a: JudgeAction, id: Id)
    requires Ready(s) && Known(y, s, id) && (s.judge == JRunning(id) || s.judge == JWritten(id))
    requires JudgeEnabled(s, a) && (a.Stamp? || a.Fail?)
    ensures Known(Grow(y, s, Judge(a), id), JudgeApply(s, a), id)
  {
    JudgedIsOpen(y, s, id);
    hide Ready, Known;
    JudgingEnds(s, a, id);
    StoryEnds(y, s, a, id);
    hide JudgeApply, JudgeEnabled, Grow;
    EndKnown(Grow(y, s, Judge(a), id), JudgeApply(s, a), id);
  }

  /** Everything there is to check about the object just judged. */
  lemma EndKnown(y: Story, t: State, id: Id)
    requires id in t.heap && id < t.next && OneBirth(y, t.heap[id]) && OneEnding(y, t.heap[id])
    requires y.writes == (if id in t.history.written then 1 else 0)
    requires t.heap[id].kind != Normal ==> id !in t.history.written
    requires t.heap[id].kind == Normal && y.stamps != [] && y.failures == [] ==> id in t.history.written
    requires t.judge == JWritten(id) ==> id in t.history.written
    ensures Known(y, t, id)
  {
  }

  lemma JudgeKnown(y: Story, s: State, a: JudgeAction, id: Id)
    requires Ready(s) && Known(y, s, id) && JudgeEnabled(s, a)
    ensures Known(Grow(y, s, Judge(a), id), JudgeApply(s, a), id)
  {
    JudgeHand(y, s, a, id);
    hide Ready, Known, JudgeApply, JudgeEnabled;
    if a.Take? || a.Release? || s.judge.id != id {
      JudgeUntouched(s, a, id);
      UntouchedKnown(y, s, JudgeApply(s, a), id);
    } else {
      match a
      case Append(report) => AppendKnown(y, s, report, id);
      case WriteDatabase => WriteKnown(y, s, id);
      case Stamp => EndingKnown(y, s, a, id);
      case Fail(_) => EndingKnown(y, s, a, id);
    }
  }

  /** Who is in the judge's hands at each kind of step. */
  lemma JudgeHand(y: Story, s: State, a: JudgeAction, id: Id)
    requires Ready(s) && Known(y, s, id) && JudgeEnabled(s, a)
    ensures a.Take? || a.Release? ==> Grow(y, s, Judge(a), id) == y
    ensures !a.Take? && !a.Release? ==>
              && !s.judge.JIdle? && (s.judge.id != id ==> Grow(y, s, Judge(a), id) == y)
              && (s.judge.JRunning? || s.judge.JWritten?)
    ensures a.Append? || a.WriteDatabase? ==> s.judge.JRunning?
    ensures a.WriteDatabase? && s.judge.id == id ==> id in s.heap && s.heap[id].kind == Normal
  {
    hide Known;
    if a.WriteDatabase? && s.judge.id == id { JudgedIsLive(s, id); }
    hide Ready;
  }

  // ----- The remover and the rejudge thread -----

  lemma RemoverUntouched(s: State, a: RemoverAction, id: Id)
    requires RemoverEnabled(s, a)
    ensures Untouched(s, RemoverApply(s, a), id)
  {
  }

  lemma RejudgeUntouched(s: State, a: RejudgeAction, id: Id)
    requires RejudgeEnabled(s, a) && !a.Clone?
    ensures Untouched(s, RejudgeApply(s, a), id)
  {
  }

  lemma CloneKnown(y: Story, s: State, a: RejudgeAction, id: Id)
    requires Ready(s) && Known(y, s, id) && RejudgeEnabled(s, a) && a.Clone?
    ensures Known(Grow(y, s, Rejudger(a), id), RejudgeApply(s, a), id)
  {
    var t := RejudgeApply(s, a);
    if id == s.next {
      CloneInit(s);
      NextUnwritten(s, id);
      hide Ready, Known, RejudgeEnabled;
      assert y == UNTOLD by { UntoldYet(y, s, id); }
      BornKnown(y, t, id);
    } else {
      hide Ready;
      UntouchedKnown(y, s, t, id);
    }
  }

  lemma CloneInit(s: State)
    requires Safe(s) && Batch(s) && s.rejudge.TNext?
    ensures s.init.kind == Rejudge && s.init.settings == s.history.lastWinner
  {
    hide Timing;
  }

  lemma RejudgeKnown(y: Story, s: State, a: RejudgeAction, id: Id)
    requires Ready(s) && Known(y, s, id) && RejudgeEnabled(s, a)
    ensures Known(Grow(y, s, Rejudger(a), id), RejudgeApply(s, a), id)
  {
    hide Ready, Known, RejudgeApply, RejudgeEnabled;
    if a.Clone? { CloneKnown(y, s, a, id); } else {
      RejudgeUntouched(s, a, id);
      UntouchedKnown(y, s, RejudgeApply(s, a), id);
    }
  }

  // ----- Every run -----

  lemma StepKnown(y: Story, s: State, a: Action, id: Id)
    requires Ready(s) && Known(y, s, id) && Enabled(s, a)
    ensures Known(Grow(y, s, a, id), Apply(s, a), id)
  {
    hide Ready, Known, HttpApply, JudgeApply, RemoverApply, RejudgeApply, HttpEnabled, JudgeEnabled, RemoverEnabled,
      RejudgeEnabled, Timely;
    match a
    case Http(h) => HttpKnown(y, s, h, id);
    case Judge(j) => JudgeKnown(y, s, j, id);
    case Remove(r) =>
      RemoverUntouched(s, r, id);
      UntouchedKnown(y, s, RemoverApply(s, r), id);
    case Rejudger(t) => RejudgeKnown(y, s, t, id);
    case Tick(_) => UntouchedKnown(y, s, Apply(s, a), id);
  }

  lemma StepReady(s: State, a: Action)
    requires Ready(s) && Enabled(s, a)
    ensures Ready(Apply(s, a))
  {
    hide Safe, Unfinished, Batch, Apply, Enabled;
    StepSafe(s, a);
    StepUnfinished(s, a);
    StepBatch(s, a);
  }

  lemma {:induction false} RunKnown(y: Story, s: State, run: seq<Action>, id: Id)
    requires Ready(s) && Known(y, s, id) && ValidRun(s, run)
    ensures Known(Told(y, s, run, id), Exec(s, run), id)
    decreases |run|
  {
    hide Ready, Known, Apply, Enabled, Grow;
    if run != [] {
      StepReady(s, run[0]);
      StepKnown(y, s, run[0], id);
      RunKnown(Grow(y, s, run[0], id), Apply(s, run[0]), run[1..], id);
    }
  }

  lemma InitialKnown(s: State, id: Id)
    requires Initial(s)
    ensures Ready(s) && Known(UNTOLD, s, id)
  {
    InitialSafe(s);
    InitialUnfinished(s);
    hide Safe, Unfinished;
  }

  /** In every run from the start each live object is what its story says: made once, with the key and settings of its
      request or of the last winner of the lock; holding the reports made while the judge had it, in that order, unless
      an exception left its one report of a system error; stamped when judging ended, and at most once. It was written
      to the database at most once, if normal and without exception exactly once by the time it is stamped, and never
      if it is of another kind. */
  lemma ObjectsAreTheirStories(start: State, run: seq<Action>, id: Id)
    requires Initial(start) && ValidRun(start, run) && id in Exec(start, run).heap
    ensures var o, y := Exec(start, run).heap[id], Told(UNTOLD, start, run, id);
            && y.born == [Birth(o.key, o.kind, o.settings)]
            && |y.failures| <= |y.stamps| <= 1
            && o.timeStamp == (if y.stamps == [] then 0 else y.stamps[0])
            && o.detail == (if y.failures == [] then y.reports else [Report(100, 0, 0, y.failures[0], 0)])
            && y.writes <= 1 && (o.kind != Normal ==> y.writes == 0)
            && (o.kind == Normal && y.stamps != [] && y.failures == [] ==> y.writes == 1)
  {
    InitialKnown(start, id);
    hide Ready, Exec, ValidRun, Told, Initial;
    RunKnown(UNTOLD, start, run, id);
  }
}
