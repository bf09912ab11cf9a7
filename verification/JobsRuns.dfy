/** Safety of whole runs of the daemon, from its start, under every interleaving. */
module JobsRuns {
  import opened Jobs
  import opened JobsInvariants
  import opened JobsTiming

  ghost predicate Safe(s: State) {
    Core(s) && Timing(s)
  }

  lemma InitialSafe(s: State)
    requires Initial(s)
    ensures Safe(s)
  {
  }

  lemma StepSafe(s: State, a: Action)
    requires Safe(s) && Enabled(s, a)
    ensures Safe(Apply(s, a))
  {
    hide Core, Times, Inserting, Entries, Queried, Apply;
    StepCore(s, a);
    StepTimes(s, a);
    StepInserting(s, a);
    StepEntries(s, a);
    StepQueried(s, a);
  }

  /** Every reachable state is safe. */
  lemma {:induction false} RunSafe(s: State, run: seq<Action>)
    requires Safe(s) && ValidRun(s, run)
    ensures Safe(Exec(s, run))
    decreases |run|
  {
    hide Safe, Apply, Enabled;
    if run != [] {
      StepSafe(s, run[0]);
      RunSafe(Apply(s, run[0]), run[1..]);
    }
  }

  // ----- Ownership -----

  /** In every reachable state each live object has exactly one owner, nothing dead is owned, and only objects
      of an unknown kind are ever lost. */
  lemma ReachableOwnership(s: State, run: seq<Action>, id: Id)
    requires Initial(s) && ValidRun(s, run)
    ensures var t := Exec(s, run);
            Owners(t, id) == (if id in t.heap then 1 else 0) &&
            (id in t.history.leaked ==> Deref(t, id).kind == Other)
  {
    hide Exec, ValidRun, Initial, Owners, Timing, Fifo, WrittenOnce, Flag;
    InitialSafe(s);
    RunSafe(s, run);
  }

  /** No step touches a dead object: not the judge, the threads that delete, the finder insertion after the
      push, nor a query that looked its target up earlier. */
  lemma NoDanglingTouch(s: State, a: Action)
    requires Safe(s) && Enabled(s, a)
    ensures Touches(s, a) <= s.heap.Keys
  {
    hide Ownership, Fifo, WrittenOnce, Kinds, Flag, Times, Entries;
    forall id | id in Touches(s, a) ensures id in s.heap {
      if a.Http? {
      } else {
        assert id in JudgeHolds(s) || id in s.removing || id in RemoverHolds(s) || id in RejudgeHolds(s);
      }
      if id in s.open || id in JudgeHolds(s) || id in s.removing || id in RemoverHolds(s) || id in RejudgeHolds(s) {
        HeldIsLive(s, id);
      }
    }
  }

  lemma ReachableNoDangling(s: State, run: seq<Action>, a: Action)
    requires Initial(s) && ValidRun(s, run) && Enabled(Exec(s, run), a)
    ensures Touches(Exec(s, run), a) <= Exec(s, run).heap.Keys
  {
    hide Touches, Safe, Enabled, Initial;
    InitialSafe(s);
    RunSafe(s, run);
    NoDanglingTouch(Exec(s, run), a);
  }

  /** And what a step is said to touch is all it looks at: with any other object changed it is enabled as before, does
      the same and leaves the change alone. */
  lemma OnlyTouchedMatters(s: State, a: Action, id: Id, o: Solution)
    requires Enabled(s, a) && id in s.heap && id != s.next && id !in Touches(s, a)
    ensures var s' := s.(heap := s.heap[id := o]);
            Enabled(s', a) && Apply(s', a) == Apply(s, a).(heap := Apply(s, a).heap[id := o])
  {
    var s' := s.(heap := s.heap[id := o]);
    hide HttpApply, JudgeApply, RemoverApply, RejudgeApply, HttpEnabled, JudgeEnabled, RemoverEnabled, RejudgeEnabled;
    match a
    case Http(h) => HttpTouches(s, h, id, o);
    case Judge(j) => JudgeTouches(s, j, id, o);
    case Remove(r) => RemoverTouches(s, r, id, o);
    case Rejudger(t) => RejudgeTouches(s, t, id, o);
    case Tick(_) =>
  }

  lemma HttpTouches(s: State, a: HttpAction, id: Id, o: Solution)
    requires HttpEnabled(s, a) && id in s.heap && id != s.next && id !in Touches(s, Http(a))
    ensures var s' := s.(heap := s.heap[id := o]);
            HttpEnabled(s', a) && HttpApply(s', a) == HttpApply(s, a).(heap := HttpApply(s, a).heap[id := o])
  {
    hide HttpApply;
    if a.PushSubmit? { PushTouches(s, a.id, id, o); }
    else if a.StartRejudge? || a.StartRejudgeFails? { StartTouches(s, a, id, o); }
    else if a.InsertFinder? { InsertTouches(s, a.id, id, o); }
    else { OpenTouches(s, a, id, o); }
  }

  lemma PushTouches(s: State, x: Id, id: Id, o: Solution)
    requires HttpEnabled(s, PushSubmit(x)) && id in s.heap && id != x
    ensures var s', a := s.(heap := s.heap[id := o]), PushSubmit(x);
            HttpEnabled(s', a) && HttpApply(s', a) == HttpApply(s, a).(heap := HttpApply(s, a).heap[id := o])
  {
    assert s.heap[id := o][x := Deref(s, x).(timeStamp := 0)] == s.heap[x := Deref(s, x).(timeStamp := 0)][id := o];
  }

  lemma StartTouches(s: State, a: HttpAction, id: Id, o: Solution)
    requires HttpEnabled(s, a) && (a.StartRejudge? || a.StartRejudgeFails?) && id in s.heap && id != a.id
    ensures var s' := s.(heap := s.heap[id := o]);
            HttpEnabled(s', a) && HttpApply(s', a) == HttpApply(s, a).(heap := HttpApply(s, a).heap[id := o])
  {
  }

  lemma InsertTouches(s: State, x: Id, id: Id, o: Solution)
    requires HttpEnabled(s, InsertFinder(x)) && id in s.heap && id != x
    ensures var s', a := s.(heap := s.heap[id := o]), InsertFinder(x);
            HttpEnabled(s', a) && HttpApply(s', a) == HttpApply(s, a).(heap := HttpApply(s, a).heap[id := o])
  {
  }

  lemma OpenTouches(s: State, a: HttpAction, id: Id, o: Solution)
    requires HttpEnabled(s, a) && (a.Open? || a.Close? || a.Find? || a.Answer?)
    requires id in s.heap && id != s.next && (a.Close? ==> a.id != id)
    ensures var s' := s.(heap := s.heap[id := o]);
            HttpEnabled(s', a) && HttpApply(s', a) == HttpApply(s, a).(heap := HttpApply(s, a).heap[id := o])
  {
    if a.Open? {
      var n := Solution(a.key, a.kind, a.settings, 0, []);
      assert s.heap[id := o][s.next := n] == s.heap[s.next := n][id := o];
    }
    if a.Close? { assert s.heap[id := o] - {a.id} == (s.heap - {a.id})[id := o]; }
  }

  lemma JudgeTouches(s: State, a: JudgeAction, id: Id, o: Solution)
    requires JudgeEnabled(s, a) && id in s.heap && id !in Touches(s, Judge(a))
    ensures var s' := s.(heap := s.heap[id := o]);
            JudgeEnabled(s', a) && JudgeApply(s', a) == JudgeApply(s, a).(heap := JudgeApply(s, a).heap[id := o])
  {
    hide JudgeApply, JudgeEnabled;
    if a.Append? || a.Stamp? || a.Fail? { JudgingTouches(s, a, id, o); } else { PassingTouches(s, a, id, o); }
  }

  lemma JudgingTouches(s: State, a: JudgeAction, id: Id, o: Solution)
    requires JudgeEnabled(s, a) && (a.Append? || a.Stamp? || a.Fail?) && id in s.heap && id != s.judge.id
    ensures var s' := s.(heap := s.heap[id := o]);
            JudgeEnabled(s', a) && JudgeApply(s', a) == JudgeApply(s, a).(heap := JudgeApply(s, a).heap[id := o])
  {
    var x, t := s.judge.id, JudgeApply(s, a);
    assert s.heap[id := o][x := t.heap[x]] == s.heap[x := t.heap[x]][id := o];
  }

  lemma PassingTouches(s: State, a: JudgeAction, id: Id, o: Solution)
    requires JudgeEnabled(s, a) && (a.Take? || a.WriteDatabase? || a.Release?)
    requires id in s.heap && (!a.Take? ==> id != s.judge.id)
    ensures var s' := s.(heap := s.heap[id := o]);
            JudgeEnabled(s', a) && JudgeApply(s', a) == JudgeApply(s, a).(heap := JudgeApply(s, a).heap[id := o])
  {
  }

  lemma RemoverTouches(s: State, a: RemoverAction, id: Id, o: Solution)
    requires RemoverEnabled(s, a) && id in s.heap && id !in Touches(s, Remove(a))
    ensures var s' := s.(heap := s.heap[id := o]);
            && RemoverEnabled(s', a)
            && RemoverApply(s', a) == RemoverApply(s, a).(heap := RemoverApply(s, a).heap[id := o])
  {
  }

  lemma RejudgeTouches(s: State, a: RejudgeAction, id: Id, o: Solution)
    requires RejudgeEnabled(s, a) && id in s.heap && id != s.next && id !in Touches(s, Rejudger(a))
    ensures var s' := s.(heap := s.heap[id := o]);
            && RejudgeEnabled(s', a)
            && RejudgeApply(s', a) == RejudgeApply(s, a).(heap := RejudgeApply(s, a).heap[id := o])
  {
  }

  /** What a step frees was live before and is dead after. */
  lemma FreedWasLive(s: State, a: Action)
    requires Safe(s) && Enabled(s, a)
    ensures Freed(s, a) <= s.heap.Keys && Freed(s, a) !! Apply(s, a).heap.Keys
  {
    hide Safe;
    NoDanglingTouch(s, a);
  }

  lemma {:induction false} DeadStaysDead(s: State, run: seq<Action>, id: Id)
    requires Safe(s) && ValidRun(s, run) && id < s.next && id !in s.heap
    ensures id < Exec(s, run).next && id !in Exec(s, run).heap
    decreases |run|
  {
    hide Safe, Apply, Enabled;
    if run != [] {
      StepSafe(s, run[0]);
      StepDead(s, run[0], id);
      DeadStaysDead(Apply(s, run[0]), run[1..], id);
    }
  }

  lemma StepDead(s: State, a: Action, id: Id)
    requires Safe(s) && Enabled(s, a) && id < s.next && id !in s.heap
    ensures id < Apply(s, a).next && id !in Apply(s, a).heap
  {
    hide Core, Timing, Apply, Enabled;
    StepFrame(s, a);
  }

  /** Each object is deleted at most once: what one step frees no later step frees again. */
  lemma DeletedOnce(s: State, a: Action, run: seq<Action>, b: Action, id: Id)
    requires Safe(s) && Enabled(s, a) && ValidRun(Apply(s, a), run) && Enabled(Exec(Apply(s, a), run), b)
    requires id in Freed(s, a)
    ensures id !in Freed(Exec(Apply(s, a), run), b)
  {
    hide Apply, Enabled, Exec, Freed, Timing, Fifo, WrittenOnce, Kinds, Flag, Owners;
    var t := Apply(s, a);
    StepSafe(s, a);
    FreedWasLive(s, a);
    StepFrame(s, a);
    DeadStaysDead(t, run, id);
    RunSafe(t, run);
    FreedWasLive(Exec(t, run), b);
  }

  // ----- Queue order and the rejudge flag -----

  /** What was judged, is being judged and is waiting is what was queued, in that order; nothing is queued,
      judged or written to the database twice. */
  lemma ReachableFifo(s: State, run: seq<Action>)
    requires Initial(s) && ValidRun(s, run)
    ensures var t := Exec(s, run);
            && t.history.completed + JudgeHolds(t) + t.waiting == t.history.enqueued
            && NoDuplicates(t.history.enqueued) && NoDuplicates(t.history.completed)
            && NoDuplicates(t.history.written)
            && (forall id :: id in t.history.written ==> id in t.history.completed || id in JudgeHolds(t))
  {
    hide Exec, ValidRun, Initial, Timing, Ownership, Kinds, Flag;
    InitialSafe(s);
    RunSafe(s, run);
    PrefixDistinct(Exec(s, run).history.completed, Exec(s, run).history.enqueued);
  }

  lemma PrefixDistinct(xs: seq<Id>, ys: seq<Id>)
    requires |xs| <= |ys| && xs == ys[..|xs|] && NoDuplicates(ys)
    ensures NoDuplicates(xs)
  {
    assert forall i :: 0 <= i < |xs| ==> xs[i] == ys[i];
  }

  /** While the rejudge thread waits, the flag is up exactly if its clone is queued or being judged, and no
      other rejudge object is. */
  lemma FlagMeansPending(s: State)
    requires Safe(s) && s.rejudge.TPushed?
    ensures s.rejudging <==> s.rejudge.id in JudgeHolds(s) + s.waiting
    ensures forall id :: id in JudgeHolds(s) + s.waiting && Deref(s, id).kind == Rejudge ==>
              s.rejudging && id == s.rejudge.id
  {
    hide Ownership, WrittenOnce, Timing;
    var e, c, pos := s.history.enqueued, s.history.completed, s.rejudge.pos;
    var pending := JudgeHolds(s) + s.waiting;
    assert c + pending == e;
    if s.rejudging {
      assert pending[pos - |c|] == e[pos];
    } else {
      forall i | 0 <= i < |pending| ensures pending[i] != s.rejudge.id {
        assert e[|c| + i] == pending[i];
      }
    }
  }

  /** The number of completions the rejudge thread still has to see. */
  function Rank(s: State): int
    requires s.rejudge.TPushed?
  {
    s.rejudge.pos + 1 - |s.history.completed|
  }

  /** A clone pushed behind m outstanding jobs starts at rank m + 1. */
  lemma PushRank(s: State)
    requires Safe(s) && Enabled(s, Rejudger(PushClone))
    ensures var t := Apply(s, Rejudger(PushClone));
            t.rejudge.TPushed? && Rank(t) == |JudgeHolds(s) + s.waiting| + 1
  {
    hide Ownership, WrittenOnce, Kinds, Flag, Timing;
  }

  /** Each completion lowers the rank by one, nothing else moves it, and the flag is up while it is positive:
      the clone's flag clears after exactly m + 1 completions. */
  lemma RankStep(s: State, a: Action)
    requires Safe(s) && Enabled(s, a) && s.rejudge.TPushed?
    ensures s.rejudging <==> Rank(s) > 0
    ensures var t := Apply(s, a);
            if a == Rejudger(SeeFlag) then !s.rejudging
            else t.rejudge == s.rejudge && Rank(t) == Rank(s) - if a == Judge(Release) then 1 else 0
  {
    hide Ownership, WrittenOnce, Kinds, Fifo, Timing, HttpApply, JudgeApply, RemoverApply;
    match a
    case Http(h) => HttpRank(s, h);
    case Judge(j) => JudgeRank(s, j);
    case Remove(r) => RemoverRank(s, r);
    case Rejudger(_) =>
    case Tick(_) =>
  }

  /** How many jobs the judge lets go of in a run. */
  function Releases(run: seq<Action>): nat {
    if run == [] then 0 else (if run[0] == Judge(Release) then 1 else 0) + Releases(run[1..])
  }

  /** Until the rejudge thread sees it, the flag is up exactly as long as the judge has let go of fewer jobs than the
      rank was at the start. */
  lemma {:induction false} RankFalls(s: State, run: seq<Action>)
    requires Safe(s) && ValidRun(s, run) && s.rejudge.TPushed? && Rejudger(SeeFlag) !in run
    ensures var t := Exec(s, run);
            && t.rejudge == s.rejudge && Rank(t) == Rank(s) - Releases(run)
            && (t.rejudging <==> Releases(run) < Rank(s))
    decreases |run|
  {
    hide Safe, Apply, Enabled;
    if run == [] {
      FlagIsRank(s);
    } else {
      RankStep(s, run[0]);
      StepSafe(s, run[0]);
      assert run[0] in run;
      RankFalls(Apply(s, run[0]), run[1..]);
    }
  }

  lemma FlagIsRank(s: State)
    requires Safe(s) && s.rejudge.TPushed?
    ensures s.rejudging <==> Rank(s) > 0
  {
    hide Ownership, WrittenOnce, Kinds, Fifo, Timing;
  }

  /** A clone pushed behind m outstanding jobs has its flag cleared by the completion number m + 1, whatever the other
      threads do. */
  lemma FlagClearsAfter(s: State, run: seq<Action>)
    requires Safe(s) && Enabled(s, Rejudger(PushClone)) && ValidRun(Apply(s, Rejudger(PushClone)), run)
    requires Rejudger(SeeFlag) !in run
    ensures var m, t := |JudgeHolds(s) + s.waiting|, Exec(Apply(s, Rejudger(PushClone)), run);
            t.rejudging <==> Releases(run) < m + 1
  {
    hide Safe, Exec, ValidRun, RejudgeApply;
    PushRank(s);
    StepSafe(s, Rejudger(PushClone));
    RankFalls(Apply(s, Rejudger(PushClone)), run);
  }

  lemma HttpRank(s: State, a: HttpAction)
    requires HttpEnabled(s, a)
    ensures HttpApply(s, a).rejudge == s.rejudge && HttpApply(s, a).history.completed == s.history.completed
  {
  }

  lemma JudgeRank(s: State, a: JudgeAction)
    requires JudgeEnabled(s, a)
    ensures JudgeApply(s, a).rejudge == s.rejudge
    ensures JudgeApply(s, a).history.completed ==
            if a.Release? then s.history.completed + [s.judge.id] else s.history.completed
  {
  }

  lemma RemoverRank(s: State, a: RemoverAction)
    requires RemoverEnabled(s, a)
    ensures RemoverApply(s, a).rejudge == s.rejudge && RemoverApply(s, a).history == s.history
  {
  }

  // ----- Finding submissions -----

  /** An accepted submission that can still be asked for. */
  predicate Askable(s: State, id: Id) {
    id in s.heap && s.heap[id].kind != Rejudge && id in s.history.enqueued
  }

  /** In the finder by now, and not yet erased. */
  predicate Settled(s: State, id: Id) {
    Askable(s, id) && id !in s.inserting && id !in RemoverHolds(s)
  }

  /** Every such submission is found under its key. */
  ghost predicate Findable(s: State) {
    forall id :: Settled(s, id) ==> s.heap[id].key in s.finder && s.finder[s.heap[id].key] == id
  }

  /** The insertion of a submission under the key of another one that can be found. */
  ghost predicate Overwrites(s: State, a: Action) {
    a.Http? && a.http.InsertFinder? &&
    exists x :: Settled(s, x) && x != a.http.id && s.heap[x].key == Deref(s, a.http.id).key
  }

  lemma HttpFindable(s: State, a: HttpAction)
    requires Safe(s) && Findable(s) && HttpEnabled(s, a) && !a.PushSubmit? && !a.InsertFinder?
    ensures Findable(HttpApply(s, a))
  {
    hide Core, Timing;
    var t := HttpApply(s, a);
    HttpFrame(s, a);
    HttpFinderMoves(s, a);
    HttpAskable(s, a);
    forall id | Settled(t, id) ensures Settled(s, id) && t.heap[id].key == s.heap[id].key {}
  }

  /** An insertion makes its own submission found, and another one lost exactly if it had the same key. */
  lemma InsertFindable(s: State, id: Id)
    requires Safe(s) && Findable(s) && HttpEnabled(s, InsertFinder(id))
    ensures Findable(HttpApply(s, InsertFinder(id))) <==> !Overwrites(s, Http(InsertFinder(id)))
  {
    hide Core, Timing;
    var t := HttpApply(s, InsertFinder(id));
    InsertingIsAskable(s, id);
    assert t.heap == s.heap && t.history == s.history && RemoverHolds(t) == RemoverHolds(s);
    assert forall x :: x != id ==> (Settled(t, x) <==> Settled(s, x));
    assert t.finder == s.finder[s.heap[id].key := id];
  }

  lemma InsertingIsAskable(s: State, id: Id)
    requires Safe(s) && id in s.inserting
    ensures Askable(s, id)
  {
    hide Core;
  }

  lemma HttpAskable(s: State, a: HttpAction)
    requires Safe(s) && HttpEnabled(s, a) && !a.PushSubmit?
    ensures forall id :: Askable(HttpApply(s, a), id) ==> Askable(s, id) && HttpApply(s, a).heap[id] == s.heap[id]
  {
    hide Timing, Owners, WrittenOnce, Kinds, Flag;
  }

  lemma PushFindable(s: State, id: Id)
    requires Safe(s) && Findable(s) && Enabled(s, Http(PushSubmit(id)))
    ensures Findable(Apply(s, Http(PushSubmit(id))))
  {
    hide Timing, Owners, WrittenOnce, Kinds, Flag;
    HeldIsLive(s, id);
    var t := Apply(s, Http(PushSubmit(id)));
    assert forall x :: x in t.history.enqueued <==> x in s.history.enqueued || x == id;
    assert RemoverHolds(t) == RemoverHolds(s);
  }

  lemma JudgeFindable(s: State, a: JudgeAction)
    requires Safe(s) && Findable(s) && JudgeEnabled(s, a)
    ensures Findable(JudgeApply(s, a))
  {
    hide Core, Timing, JudgeApply;
    var t := JudgeApply(s, a);
    JudgeMoves(s, a);
    JudgeFrame(s, a);
    JudgeAskable(s, a);
    assert RemoverHolds(t) == RemoverHolds(s);
  }

  lemma JudgeAskable(s: State, a: JudgeAction)
    requires Safe(s) && JudgeEnabled(s, a)
    ensures JudgeApply(s, a).heap.Keys == s.heap.Keys && JudgeApply(s, a).history.enqueued == s.history.enqueued
  {
    hide Timing, Ownership, WrittenOnce, Kinds, Flag, Fifo;
    if !a.Take? { HeldIsLive(s, s.judge.id); }
  }

  lemma RemoverFindable(s: State, a: RemoverAction)
    requires Safe(s) && Findable(s) && RemoverEnabled(s, a)
    ensures Findable(RemoverApply(s, a))
  {
    hide Safe;
    if a.Expire? {
      hide Findable;
      ExpireFindable(s);
    }
  }

  /** No other submission has the erased key: it would not be found now. */
  lemma ExpireFindable(s: State)
    requires Safe(s) && Findable(s) && RemoverEnabled(s, Expire)
    ensures Findable(RemoverApply(s, Expire))
  {
    hide Safe;
    var t, x := RemoverApply(s, Expire), s.removing[0];
    FrontSettled(s);
    FrontNotHeld(s);
    assert t.heap == s.heap && t.history == s.history && t.inserting == s.inserting;
    assert t.finder == s.finder - {s.heap[x].key};
    hide RemoverApply, RemoverEnabled, RemoverHolds;
    forall id | Settled(t, id) ensures s.heap[id].key in t.finder && t.finder[s.heap[id].key] == id {
      assert id != x && Settled(s, id);
    }
  }

  /** What the remover erases can be found: it has been in the finder for long, being too old to be on its way. */
  lemma FrontSettled(s: State)
    requires Safe(s) && RemoverEnabled(s, Expire)
    ensures Settled(s, s.removing[0])
  {
    hide WrittenOnce, Flag, Ownership, Times, Entries, Queried;
    var x := s.removing[0];
    HeldIsLive(s, x);
    assert x in s.removing + RemoverHolds(s);
    assert x in s.history.completed && x in s.history.completed + JudgeHolds(s) + s.waiting;
  }

  lemma FrontNotHeld(s: State)
    requires RemoverEnabled(s, Expire)
    ensures RemoverHolds(s) == [] && RemoverHolds(RemoverApply(s, Expire)) == [s.removing[0]]
  {
  }

  lemma RejudgeFindable(s: State, a: RejudgeAction)
    requires Safe(s) && Findable(s) && RejudgeEnabled(s, a)
    ensures Findable(RejudgeApply(s, a))
  {
    hide Core, Timing, RejudgeApply;
    var t := RejudgeApply(s, a);
    RejudgeMoves(s, a);
    RejudgeFrame(s, a);
    RejudgeAskable(s, a);
    assert RemoverHolds(t) == RemoverHolds(s);
  }

  /** The rejudge thread makes no submission askable and takes none away. */
  lemma RejudgeAskable(s: State, a: RejudgeAction)
    requires Safe(s) && RejudgeEnabled(s, a)
    ensures forall id :: Askable(RejudgeApply(s, a), id) ==> Askable(s, id) && RejudgeApply(s, a).heap[id] == s.heap[id]
  {
    hide Timing, Owners, WrittenOnce, Flag;
    assert forall id :: id in CloneInHand(s) ==> Deref(s, id).kind == Rejudge;
    if a.PushClone? {
      assert s.rejudge.id in CloneInHand(s) && s.rejudge.id in RejudgeHolds(s);
      HeldIsLive(s, s.rejudge.id);
    }
  }

  lemma TickFindable(s: State, a: Action)
    requires Findable(s) && Enabled(s, a) && a.Tick?
    ensures Findable(Apply(s, a))
  {
    assert RemoverHolds(Apply(s, a)) == RemoverHolds(s);
  }

  /** A step keeps everything findable exactly if it does not overwrite an entry. */
  lemma StepFindableIff(s: State, a: Action)
    requires Safe(s) && Findable(s) && Enabled(s, a)
    ensures Findable(Apply(s, a)) <==> !Overwrites(s, a)
  {
    hide Safe, Findable, HttpApply, JudgeApply, RemoverApply, RejudgeApply;
    match a
    case Http(h) =>
      if h.PushSubmit? { PushFindable(s, h.id); }
      else if h.InsertFinder? { InsertFindable(s, h.id); }
      else { HttpFindable(s, h); }
    case Judge(j) => JudgeFindable(s, j);
    case Remove(r) => RemoverFindable(s, r);
    case Rejudger(t) => RejudgeFindable(s, t);
    case Tick(_) => TickFindable(s, a);
  }

  ghost predicate AlwaysFindable(s: State, run: seq<Action>)
    requires ValidRun(s, run)
    decreases |run|
  {
    Findable(s) && (run != [] ==> AlwaysFindable(Apply(s, run[0]), run[1..]))
  }

  ghost predicate NeverOverwrites(s: State, run: seq<Action>)
    requires ValidRun(s, run)
    decreases |run|
  {
    run != [] ==> !Overwrites(s, run[0]) && NeverOverwrites(Apply(s, run[0]), run[1..])
  }

  lemma {:induction false} RunFindableIff(s: State, run: seq<Action>)
    requires Safe(s) && Findable(s) && ValidRun(s, run)
    ensures AlwaysFindable(s, run) <==> NeverOverwrites(s, run)
    decreases |run|
  {
    hide Safe, Findable, Apply, Enabled, Overwrites;
    if run != [] {
      StepSafe(s, run[0]);
      StepFindableIff(s, run[0]);
      if !Overwrites(s, run[0]) {
        RunFindableIff(Apply(s, run[0]), run[1..]);
      } else {
        NotAlways(Apply(s, run[0]), run[1..]);
      }
    }
  }

  lemma NotAlways(s: State, run: seq<Action>)
    requires ValidRun(s, run) && !Findable(s)
    ensures !AlwaysFindable(s, run)
  {
  }

  /** Throughout a run every accepted submission is found under its key, from its insertion until it is erased, exactly
      if no insertion takes the key of one that can be found. */
  lemma ReachableFindableIff(s: State, run: seq<Action>)
    requires Initial(s) && ValidRun(s, run)
    ensures AlwaysFindable(s, run) <==> NeverOverwrites(s, run)
  {
    InitialSafe(s);
    InitialFindable(s);
    hide *;
    RunFindableIff(s, run);
  }

  lemma InitialFindable(s: State)
    requires Initial(s)
    ensures Findable(s)
  {
  }

  // ----- Keys that are not reused -----

  /** Live submissions have different keys. */
  ghost predicate DistinctKeys(s: State) {
    forall x, y :: Askable(s, x) && Askable(s, y) && s.heap[x].key == s.heap[y].key ==> x == y
  }

  /** The key of a submission is not that of a live one. */
  predicate FreshKey(s: State, a: Action) {
    a.Http? && a.http.PushSubmit? ==>
      forall x :: x in s.history.enqueued && Askable(s, x) ==> s.heap[x].key != Deref(s, a.http.id).key
  }

  predicate DistinctLiveKeys(s: State, run: seq<Action>)
    requires ValidRun(s, run)
    decreases |run|
  {
    run != [] ==> FreshKey(s, run[0]) && DistinctLiveKeys(Apply(s, run[0]), run[1..])
  }

  /** Only a push makes a submission askable. */
  lemma StepAskable(s: State, a: Action, id: Id)
    requires Safe(s) && Enabled(s, a) && !(a.Http? && a.http.PushSubmit?) && Askable(Apply(s, a), id)
    ensures Askable(s, id) && Apply(s, a).heap[id].key == s.heap[id].key
  {
    hide Core, Timing, HttpApply, JudgeApply, RemoverApply, RejudgeApply;
    match a
    case Http(h) => HttpAskable(s, h);
    case Judge(j) => JudgeAskable(s, j); JudgeFrame(s, j);
    case Remove(r) => RemoverAskable(s, r, id);
    case Rejudger(t) => RejudgeAskable(s, t);
    case Tick(_) =>
  }

  lemma RemoverAskable(s: State, a: RemoverAction, id: Id)
    requires RemoverEnabled(s, a) && Askable(RemoverApply(s, a), id)
    ensures Askable(s, id) && RemoverApply(s, a).heap[id] == s.heap[id]
  {
  }

  lemma StepDistinct(s: State, a: Action)
    requires Safe(s) && DistinctKeys(s) && Enabled(s, a) && FreshKey(s, a)
    ensures DistinctKeys(Apply(s, a))
  {
    hide Safe, Apply, Enabled;
    if a.Http? && a.http.PushSubmit? {
      PushDistinct(s, a.http.id);
    } else {
      var t := Apply(s, a);
      forall id | Askable(t, id) ensures Askable(s, id) && t.heap[id].key == s.heap[id].key {
        StepAskable(s, a, id);
      }
    }
  }

  lemma PushDistinct(s: State, id: Id)
    requires Safe(s) && DistinctKeys(s) && Enabled(s, Http(PushSubmit(id))) && FreshKey(s, Http(PushSubmit(id)))
    ensures DistinctKeys(Apply(s, Http(PushSubmit(id))))
  {
    hide Timing, Owners, WrittenOnce, Kinds, Flag;
    HeldIsLive(s, id);
    var t := Apply(s, Http(PushSubmit(id)));
    assert forall x :: x in t.history.enqueued <==> x in s.history.enqueued || x == id;
    assert id !in s.history.enqueued;
  }

  /** For one, no entry is overwritten if no submission is queued under the key of a live one. */
  lemma {:induction false} DistinctNeverOverwrites(s: State, run: seq<Action>)
    requires Safe(s) && DistinctKeys(s) && ValidRun(s, run) && DistinctLiveKeys(s, run)
    ensures NeverOverwrites(s, run)
    decreases |run|
  {
    hide Safe, DistinctKeys, Apply, Enabled, FreshKey, Overwrites;
    if run != [] {
      StepSafe(s, run[0]);
      StepDistinct(s, run[0]);
      NoOverwriting(s, run[0]);
      DistinctNeverOverwrites(Apply(s, run[0]), run[1..]);
    }
  }

  lemma NoOverwriting(s: State, a: Action)
    requires Safe(s) && DistinctKeys(s) && Enabled(s, a)
    ensures !Overwrites(s, a)
  {
    hide Safe;
    if a.Http? && a.http.InsertFinder? {
      InsertingIsAskable(s, a.http.id);
    }
  }

  lemma ReachableFindable(s: State, run: seq<Action>)
    requires Initial(s) && ValidRun(s, run) && DistinctLiveKeys(s, run)
    ensures AlwaysFindable(s, run)
  {
    InitialSafe(s);
    InitialDistinct(s);
    hide *;
    DistinctNeverOverwrites(s, run);
    ReachableFindableIff(s, run);
  }

  lemma InitialDistinct(s: State)
    requires Initial(s)
    ensures DistinctKeys(s)
  {
  }

  /** A reused key does lose a submission: whatever is found under it before the second insertion is not afterwards. */
  lemma ReusedKeyLoses(s: State, x: Id, id: Id)
    requires Safe(s) && Findable(s) && HttpEnabled(s, InsertFinder(id))
    requires Settled(s, x) && s.heap[x].key == Deref(s, id).key
    ensures var t := HttpApply(s, InsertFinder(id)); Settled(t, x) && t.finder[t.heap[x].key] == id != x
  {
    hide Safe;
  }

  lemma OpenTwo(s: State, key: string, settings: Settings)
    requires Initial(s)
    ensures var t := HttpApply(HttpApply(s, Open(key, Normal, settings)), Open(key, Normal, settings));
            var o := Solution(key, Normal, settings, 0, []);
            && t.heap == map[s.next := o, s.next + 1 := o] && t.open == {s.next, s.next + 1}
            && t.inserting == map[] && t.finder == map[] && t.history.enqueued == [] && t.remover.RSleeping?
  {
  }

  lemma QueueTwo(s: State, x: Id, y: Id)
    requires x != y && s.open == {x, y} && s.heap.Keys == {x, y} && s.heap[x] == s.heap[y]
    requires s.heap[x].kind == Normal && s.heap[x].timeStamp == 0
    requires s.inserting == map[] && s.history.enqueued == []
    ensures HttpEnabled(s, PushSubmit(x)) && HttpEnabled(HttpApply(s, PushSubmit(x)), PushSubmit(y))
    ensures var t := HttpApply(HttpApply(s, PushSubmit(x)), PushSubmit(y));
            && t.heap == s.heap && t.inserting.Keys == {x, y} && t.history.enqueued == [x, y]
            && t.finder == s.finder && t.remover == s.remover
  {
    hide Enqueue;
    var t := HttpApply(s, PushSubmit(x));
    assert t.heap == s.heap && t.open == {y} && t.inserting.Keys == {x} && t.history.enqueued == [x] &&
      t.finder == s.finder && t.remover == s.remover by { PushOne(s, x); }
    PushOne(t, y);
  }

  lemma PushOne(s: State, id: Id)
    requires HttpEnabled(s, PushSubmit(id)) && id in s.heap && s.heap[id].timeStamp == 0
    ensures var t := HttpApply(s, PushSubmit(id));
            && t.heap == s.heap && t.open == s.open - {id} && t.inserting == s.inserting[id := Seconds(s.now)]
            && t.history.enqueued == s.history.enqueued + [id] && t.finder == s.finder && t.remover == s.remover
  {
  }

  lemma InsertTwo(s: State, x: Id, y: Id, key: string)
    requires x != y && s.inserting.Keys == {x, y} && s.heap.Keys == {x, y} && s.heap[x] == s.heap[y]
    requires s.heap[x].key == key && s.heap[x].kind == Normal && s.history.enqueued == [x, y]
    requires s.finder == map[] && s.remover.RSleeping?
    ensures HttpEnabled(s, InsertFinder(x)) && HttpEnabled(HttpApply(s, InsertFinder(x)), InsertFinder(y))
    ensures var t := HttpApply(HttpApply(s, InsertFinder(x)), InsertFinder(y));
            && Settled(t, x) && Settled(t, y) && t.heap == s.heap && t.finder == map[key := y]
  {
  }

  lemma HttpRun(s: State, a: HttpAction, run: seq<Action>)
    requires HttpEnabled(s, a) && ValidRun(HttpApply(s, a), run)
    ensures ValidRun(s, [Http(a)] + run) && Exec(s, [Http(a)] + run) == Exec(HttpApply(s, a), run)
  {
    hide HttpEnabled, HttpApply;
    ConsRun(s, Http(a), run);
  }

  /** And it happens: of two submissions under one key that wait side by side, only the later one is found. */
  lemma ReusedKeyExample(s: State, key: string, settings: Settings) returns (run: seq<Action>)
    requires Initial(s)
    ensures ValidRun(s, run)
    ensures var t, x, y := Exec(s, run), s.next, s.next + 1;
            && Settled(t, x) && Settled(t, y) && t.heap[x].key == t.heap[y].key == key
            && t.finder == map[key := y]
  {
    var x, y, open := s.next, s.next + 1, Open(key, Normal, settings);
    var s1 := HttpApply(s, open);
    var s2 := HttpApply(s1, open);
    OpenTwo(s, key, settings);
    QueueTwo(s2, x, y);
    hide HttpApply, Settled;
    var s3 := HttpApply(s2, PushSubmit(x));
    var s4 := HttpApply(s3, PushSubmit(y));
    InsertTwo(s4, x, y, key);
    run := [];
    hide HttpEnabled;
    HttpRun(HttpApply(s4, InsertFinder(x)), InsertFinder(y), run);
    run := [Http(InsertFinder(y))] + run;
    HttpRun(s4, InsertFinder(x), run);
    run := [Http(InsertFinder(x))] + run;
    HttpRun(s3, PushSubmit(y), run);
    run := [Http(PushSubmit(y))] + run;
    HttpRun(s2, PushSubmit(x), run);
    run := [Http(PushSubmit(x))] + run;
    HttpRun(s1, open, run);
    run := [Http(open)] + run;
    HttpRun(s, open, run);
    run := [Http(open)] + run;
  }
}
