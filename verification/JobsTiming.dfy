/** Expiry: time stamps, the finder, and queries that hold a pointer across other threads' steps. */
module JobsTiming {
  import opened Jobs
  import opened JobsInvariants

  function StampOf(s: State, id: Id): nat { Deref(s, id).timeStamp }

  /** The removing queue, and behind it what the judge has stamped and is about to push. */
  function Line(s: State): seq<Id> {
    s.removing + if s.judge.JStamped? then [s.judge.id] else []
  }

  /** Sorted by time stamp, and no stamp is zero or from the future. */
  ghost predicate SortedLine(s: State, line: seq<Id>) {
    && (forall i, j :: 0 <= i < j < |line| ==> StampOf(s, line[i]) <= StampOf(s, line[j]))
    && (forall i :: 0 <= i < |line| ==> 1 <= StampOf(s, line[i]) <= Seconds(s.now))
  }

  ghost predicate Times(s: State) {
    && Seconds(s.now) >= 1
    && SortedLine(s, Line(s))
    && (s.remover.RErased? ==> s.remover.at <= s.now && Seconds(s.remover.at) >= StampOf(s, s.remover.id) + EXPIRY)
  }

  /** A submission still being entered in the finder is live, and not old enough to be erased. */
  ghost predicate Inserting(s: State) {
    forall id :: id in s.inserting ==>
      && id in s.heap && s.heap[id].kind != Rejudge && id in s.history.enqueued
      && s.inserting[id] <= Seconds(s.now) < s.inserting[id] + EXPIRY
      && id !in RemoverHolds(s)
      && (id in s.removing || s.judge == JStamped(id) ==> s.inserting[id] <= StampOf(s, id))
  }

  /** Every finder entry points to a live submission with that key. */
  ghost predicate Entries(s: State) {
    forall key :: key in s.finder ==>
      var id := s.finder[key];
      && id in s.heap && s.heap[id].key == key && s.heap[id].kind != Rejudge
      && id in s.history.enqueued && id !in RemoverHolds(s)
  }

  /** A query in flight holds a live object; if the remover has already erased it, the query is older. */
  ghost predicate Queried(s: State) {
    forall q :: q in s.queries ==>
      var Query(id, since) := s.queries[q];
      && id in s.heap && s.heap[id].kind != Rejudge && id in s.history.enqueued
      && since <= s.now < since + GRACE
      && (s.remover.RErased? && s.remover.id == id ==> since <= s.remover.at)
  }

  ghost predicate Timing(s: State) {
    Times(s) && Inserting(s) && Entries(s) && Queried(s)
  }

  // ----- What a step does to objects -----

  /** The object a step frees. */
  function Freed(s: State, a: Action): set<Id>
    requires Enabled(s, a)
  {
    match a
    case Http(Close(id)) => {id}
    case Remove(Delete) => {s.remover.id}
    case Rejudger(DeleteClone) => {s.rejudge.id}
    case _ => {}
  }

  ghost predicate SameObject(s: State, s': State, id: Id) {
    Deref(s', id).key == Deref(s, id).key && Deref(s', id).kind == Deref(s, id).kind &&
    Deref(s', id).settings == Deref(s, id).settings
  }

  /** A step frees what it says, allocates at most the next id, and changes no key, kind or settings. */
  ghost predicate Frame(s: State, s': State, freed: set<Id>) {
    && (forall id :: id in s.heap && id !in freed ==> id in s'.heap && SameObject(s, s', id))
    && (forall id :: id in s.history.enqueued ==> id in s'.history.enqueued)
    && s.next <= s'.next && (forall id :: id in s'.heap && id !in s.heap ==> s.next <= id)
  }

  lemma HttpFrame(s: State, a: HttpAction)
    requires Core(s) && HttpEnabled(s, a)
    ensures Frame(s, HttpApply(s, a), Freed(s, Http(a)))
  {
    hide Ownership, Fifo, WrittenOnce, Kinds, Flag;
    if a.Open? { NextIsNew(s); }
    if a.PushSubmit? { HeldIsLive(s, a.id); }
  }

  lemma NextIsNew(s: State)
    requires Ownership(s)
    ensures s.next !in s.heap
  {
  }

  lemma JudgeFrame(s: State, a: JudgeAction)
    requires Core(s) && JudgeEnabled(s, a)
    ensures Frame(s, JudgeApply(s, a), {})
  {
    hide Ownership, Fifo, WrittenOnce, Kinds, Flag;
    if a.Take? || a.Release? {
      PassingFrame(s, a);
    } else {
      HeldIsLive(s, s.judge.id);
    }
  }

  lemma PassingFrame(s: State, a: JudgeAction)
    requires JudgeEnabled(s, a) && (a.Take? || a.Release?)
    ensures Frame(s, JudgeApply(s, a), {}) && JudgeApply(s, a).heap == s.heap
  {
  }

  lemma RemoverFrame(s: State, a: RemoverAction)
    requires Core(s) && RemoverEnabled(s, a)
    ensures Frame(s, RemoverApply(s, a), Freed(s, Remove(a)))
  {
    hide Ownership, Fifo, WrittenOnce, Kinds, Flag;
  }

  lemma RejudgeFrame(s: State, a: RejudgeAction)
    requires Core(s) && RejudgeEnabled(s, a)
    ensures Frame(s, RejudgeApply(s, a), Freed(s, Rejudger(a)))
  {
    hide Ownership, Fifo, WrittenOnce, Kinds, Flag;
    if a.Clone? { NextIsNew(s); }
  }

  lemma StepFrame(s: State, a: Action)
    requires Core(s) && Enabled(s, a)
    ensures Frame(s, Apply(s, a), Freed(s, a))
  {
    hide HttpApply, JudgeApply, RemoverApply, RejudgeApply, Frame, Core;
    match a
    case Http(h) => HttpFrame(s, h);
    case Judge(j) => JudgeFrame(s, j);
    case Remove(r) => RemoverFrame(s, r);
    case Rejudger(t) => RejudgeFrame(s, t);
    case Tick(_) => TickFrame(s, a);
  }

  lemma TickFrame(s: State, a: Action)
    requires Enabled(s, a) && a.Tick?
    ensures Frame(s, Apply(s, a), {})
  {
  }

  /** A live submission in the queue history that is not the remover's is never what a step frees. */
  lemma NotFreed(s: State, a: Action, id: Id)
    requires Core(s) && Enabled(s, a)
    requires id in s.heap && s.heap[id].kind != Rejudge && id in s.history.enqueued
    requires a == Remove(Delete) ==> s.remover.id != id
    ensures id !in Freed(s, a)
  {
    hide Ownership, WrittenOnce, Flag;
    if a == Rejudger(DeleteClone) {
      assert s.rejudge.id in CloneInHand(s);
    }
  }

  // ----- Queries and finder entries -----

  lemma StepQueried(s: State, a: Action)
    requires Core(s) && Timing(s) && Enabled(s, a)
    ensures Queried(Apply(s, a))
  {
    hide Core, Times, Inserting, HttpApply, JudgeApply, RemoverApply, RejudgeApply, Apply;
    var s' := Apply(s, a);
    StepFrame(s, a);
    StepMoves(s, a);
    forall q | q in s'.queries
      ensures var Query(id, since) := s'.queries[q];
              && id in s'.heap && s'.heap[id].kind != Rejudge && id in s'.history.enqueued
              && since <= s'.now < since + GRACE
              && (s'.remover.RErased? && s'.remover.id == id ==> since <= s'.remover.at)
    {
      var id := s'.queries[q].target;
      if q in s.queries {
        NotFreed(s, a, id);
        assert SameObject(s, s', id);
      } else {
        var key := a.http.key;
        assert s.finder[key] == id;
        assert SameObject(s, s', id);
      }
    }
  }

  /** How the query table, the clock and the remover may move. */
  ghost predicate Moves(s: State, s': State, a: Action) {
    && (forall q :: q in s'.queries ==>
          (q in s.queries && s'.queries[q] == s.queries[q]) ||
          (a.Http? && a.http.Find? && a.http.key in s.finder &&
           s'.queries[q] == Query(s.finder[a.http.key], s.now) && q == a.http.q))
    && s'.now == s.now + (if a.Tick? then a.ms else 0)
    && (a.Tick? ==> Timely(s, s'.now) && s'.queries == s.queries)
    && (s'.remover.RErased? ==>
          s'.remover == s.remover ||
          (a == Remove(Expire) && s.removing != [] && s'.remover == RErased(s.removing[0], s.now)))
    && (a.Http? ==> s'.remover == s.remover)
    && (a == Remove(Delete) ==> s.remover.RErased? && s'.remover.RSleeping?)
  }

  lemma HttpMoves(s: State, a: HttpAction)
    requires HttpEnabled(s, a)
    ensures Moves(s, HttpApply(s, a), Http(a))
  {
  }

  /** The judge thread leaves the HTTP side, the clock and the remover alone. */
  lemma JudgeMoves(s: State, a: JudgeAction)
    requires JudgeEnabled(s, a)
    ensures var s' := JudgeApply(s, a);
            && s'.queries == s.queries && s'.now == s.now && s'.remover == s.remover && s'.finder == s.finder
            && s'.open == s.open && s'.inserting == s.inserting
  {
    hide JudgeApply;
    if a.Release? { ReleaseMoves(s); } else if a.Take? { TakeMoves(s); } else { JudgingFrame(s, a); }
  }

  lemma TakeMoves(s: State)
    requires JudgeEnabled(s, Take)
    ensures JudgeApply(s, Take) == s.(judge := JRunning(s.waiting[0]), waiting := s.waiting[1..])
  {
  }

  lemma ReleaseMoves(s: State)
    requires JudgeEnabled(s, Release)
    ensures var s' := JudgeApply(s, Release);
            && s'.queries == s.queries && s'.now == s.now && s'.remover == s.remover && s'.finder == s.finder
            && s'.open == s.open && s'.inserting == s.inserting
  {
  }

  lemma RemoverMoves(s: State, a: RemoverAction)
    requires RemoverEnabled(s, a)
    ensures Moves(s, RemoverApply(s, a), Remove(a))
  {
  }

  /** The rejudge thread leaves the HTTP side, the clock and the remover alone. */
  lemma RejudgeMoves(s: State, a: RejudgeAction)
    requires RejudgeEnabled(s, a)
    ensures var s' := RejudgeApply(s, a);
            && s'.queries == s.queries && s'.now == s.now && s'.remover == s.remover && s'.finder == s.finder
            && s'.open == s.open && s'.inserting == s.inserting
  {
  }

  lemma StepMoves(s: State, a: Action)
    requires Enabled(s, a)
    ensures Moves(s, Apply(s, a), a)
  {
    match a
    case Http(h) => hide HttpApply; HttpMoves(s, h);
    case Judge(j) => hide JudgeApply; JudgeMoves(s, j);
    case Remove(r) => hide RemoverApply; RemoverMoves(s, r);
    case Rejudger(t) => hide RejudgeApply; RejudgeMoves(s, t);
    case Tick(_) =>
  }

  // ----- The finder -----

  /** Who is in the finder, and whom the remover holds, after a step. */
  ghost predicate FinderMoves(s: State, s': State, a: Action) {
    && (forall key :: key in s'.finder ==>
          (key in s.finder && s'.finder[key] == s.finder[key]) ||
          (a.Http? && a.http.InsertFinder? && s'.finder[key] == a.http.id && key == Deref(s, a.http.id).key))
    && (RemoverHolds(s') == RemoverHolds(s) || RemoverHolds(s') == [] ||
        (a == Remove(Expire) && s.removing != [] && RemoverHolds(s') == [s.removing[0]] &&
         Deref(s, s.removing[0]).key !in s'.finder))
    && (a.Http? ==> RemoverHolds(s') == RemoverHolds(s))
    && (a.Http? && a.http.InsertFinder? ==> a.http.id in s.inserting)
  }

  lemma HttpFinderMoves(s: State, a: HttpAction)
    requires HttpEnabled(s, a)
    ensures FinderMoves(s, HttpApply(s, a), Http(a))
  {
  }

  lemma RemoverFinderMoves(s: State, a: RemoverAction)
    requires RemoverEnabled(s, a)
    ensures FinderMoves(s, RemoverApply(s, a), Remove(a))
  {
  }

  lemma StepFinderMoves(s: State, a: Action)
    requires Enabled(s, a)
    ensures FinderMoves(s, Apply(s, a), a)
  {
    match a
    case Http(h) => hide HttpApply; HttpFinderMoves(s, h);
    case Judge(j) => hide JudgeApply; JudgeMoves(s, j);
    case Remove(r) => hide RemoverApply; RemoverFinderMoves(s, r);
    case Rejudger(t) => hide RejudgeApply; RejudgeMoves(s, t);
    case Tick(_) =>
  }

  lemma StepEntries(s: State, a: Action)
    requires Core(s) && Timing(s) && Enabled(s, a)
    ensures Entries(Apply(s, a))
  {
    hide Core, Times, Queried, HttpApply, JudgeApply, RemoverApply, RejudgeApply, Apply;
    var s' := Apply(s, a);
    StepFrame(s, a);
    StepFinderMoves(s, a);
    forall key | key in s'.finder
      ensures var id := s'.finder[key];
              && id in s'.heap && s'.heap[id].key == key && s'.heap[id].kind != Rejudge
              && id in s'.history.enqueued && id !in RemoverHolds(s')
    {
      var id := s'.finder[key];
      assert id in s.heap && s.heap[id].key == key && s.heap[id].kind != Rejudge && id in s.history.enqueued
             && id !in RemoverHolds(s);
      ErasedIsHeld(s, a, id);
      NotFreed(s, a, id);
      assert SameObject(s, s', id);
    }
  }

  lemma ErasedIsHeld(s: State, a: Action, id: Id)
    requires Enabled(s, a) && id !in RemoverHolds(s)
    ensures a == Remove(Delete) ==> s.remover.id != id
  {
  }

  // ----- Time stamps -----

  /** The stamps the order speaks of stay. */
  ghost predicate StampsKept(s: State, s': State) {
    forall id :: id in s.removing || id in RemoverHolds(s) || id in JudgeHolds(s) ==> StampOf(s', id) == StampOf(s, id)
  }

  lemma HttpStamps(s: State, a: HttpAction)
    requires Core(s) && HttpEnabled(s, a)
    ensures var s' := HttpApply(s, a);
            StampsKept(s, s') && s'.removing == s.removing && s'.judge == s.judge && s'.remover == s.remover &&
            s'.now == s.now
  {
    var s' := HttpApply(s, a);
    hide Ownership, Fifo, WrittenOnce, Kinds, Flag;
    forall id | id in s.removing || id in RemoverHolds(s) || id in JudgeHolds(s)
      ensures StampOf(s', id) == StampOf(s, id)
    {
      KindsFrame(s, id);
    }
  }

  lemma RejudgeStamps(s: State, a: RejudgeAction)
    requires Core(s) && RejudgeEnabled(s, a)
    ensures var s' := RejudgeApply(s, a);
            StampsKept(s, s') && s'.removing == s.removing && s'.judge == s.judge && s'.remover == s.remover &&
            s'.now == s.now
  {
    var s' := RejudgeApply(s, a);
    hide Ownership, Fifo, WrittenOnce, Kinds, Flag;
    forall id | id in s.removing || id in RemoverHolds(s) || id in JudgeHolds(s)
      ensures StampOf(s', id) == StampOf(s, id)
    {
      KindsFrame(s, id);
      if a.DeleteClone? { CloneAlone(s, id); }
    }
  }

  lemma LineKept(s: State, s': State, line: seq<Id>, line': seq<Id>)
    requires SortedLine(s, line) && |line'| <= |line| && s'.now >= s.now
    requires line' == line[|line| - |line'|..] || line' == line[..|line'|]
    requires forall i :: 0 <= i < |line'| ==> StampOf(s', line'[i]) == StampOf(s, line'[i])
    ensures SortedLine(s', line')
  {
  }

  lemma LineExtended(s: State, line: seq<Id>, id: Id)
    requires SortedLine(s, line) && StampOf(s, id) == Seconds(s.now) >= 1
    ensures SortedLine(s, line + [id])
  {
  }

  lemma KeptTimes(s: State, s': State)
    requires Times(s) && StampsKept(s, s') && s'.removing == s.removing && s'.judge == s.judge
    requires s'.remover == s.remover && s'.now >= s.now
    ensures Times(s')
  {
    forall i | 0 <= i < |Line(s)| ensures StampOf(s', Line(s)[i]) == StampOf(s, Line(s)[i]) {
      assert Line(s)[i] in s.removing || Line(s)[i] in JudgeHolds(s);
    }
    LineKept(s, s', Line(s), Line(s'));
    assert s.remover.RErased? ==> s.remover.id in RemoverHolds(s);
  }

  lemma JudgingTimes(s: State, a: JudgeAction)
    requires Core(s) && Times(s) && JudgeEnabled(s, a) && !a.Release? && !a.Take?
    ensures Times(JudgeApply(s, a))
  {
    hide JudgeApply, SortedLine, Core;
    var s' := JudgeApply(s, a);
    JudgingStamps(s, a);
    JudgingFrame(s, a);
    forall i | 0 <= i < |s.removing| ensures StampOf(s', s.removing[i]) == StampOf(s, s.removing[i]) {
      assert s.removing[i] in s.removing;
    }
    assert s.remover.RErased? ==> s.remover.id in RemoverHolds(s);
    assert Line(s) == s.removing;
    LineKept(s, s', s.removing, s.removing);
    if a.Stamp? || a.Fail? {
      LineExtended(s', s.removing, s.judge.id);
    }
  }

  lemma JudgingStamps(s: State, a: JudgeAction)
    requires Core(s) && JudgeEnabled(s, a) && !a.Release? && !a.Take?
    ensures var s' := JudgeApply(s, a);
            && (forall id :: id in s.removing || id in RemoverHolds(s) ==> StampOf(s', id) == StampOf(s, id))
            && !s.judge.JStamped?
            && (s'.judge.JStamped? <==> a.Stamp? || a.Fail?)
            && (s'.judge.JStamped? ==> s'.judge.id == s.judge.id && StampOf(s', s.judge.id) == Seconds(s.now))
  {
    hide Fifo, WrittenOnce, Kinds, Flag, Ownership;
    forall id | id in s.removing || id in RemoverHolds(s) ensures id != s.judge.id {
      JudgeAlone(s, id);
    }
  }

  /** What the judge has in hand is in no other queue. */
  lemma JudgeAlone(s: State, id: Id)
    requires Ownership(s) && !s.judge.JIdle?
    requires id in s.removing || id in RemoverHolds(s) || id in s.open || id in s.waiting || id in s.history.leaked
    ensures id != s.judge.id
  {
    assert s.judge.id in JudgeHolds(s);
    assert Owners(s, id) == if id in s.heap then 1 else 0;
  }

  lemma TakeTimes(s: State)
    requires Times(s) && JudgeEnabled(s, Take)
    ensures Times(JudgeApply(s, Take))
  {
    hide SortedLine;
    var s' := JudgeApply(s, Take);
    assert Line(s') == Line(s);
    LineKept(s, s', Line(s), Line(s'));
  }

  /** A released submission keeps its place; anything else leaves the end of the line. */
  lemma ReleaseTimes(s: State)
    requires Times(s) && JudgeEnabled(s, Release)
    ensures Times(JudgeApply(s, Release))
  {
    hide SortedLine;
    var s' := JudgeApply(s, Release);
    ReleaseLine(s);
    LineKept(s, s', Line(s), Line(s'));
  }

  lemma ReleaseLine(s: State)
    requires JudgeEnabled(s, Release)
    ensures var s' := JudgeApply(s, Release);
            && (Line(s') == Line(s) || Line(s') == Line(s)[..|s.removing|])
            && s'.heap == s.heap && s'.now == s.now && s'.remover == s.remover
  {
  }

  /** What the remover does to the line and the stamps. */
  lemma RemoverLine(s: State, a: RemoverAction)
    requires RemoverEnabled(s, a)
    ensures var t := RemoverApply(s, a);
            && t.now == s.now && t.heap == (if a.Delete? then s.heap - {s.remover.id} else s.heap)
            && (if a.Expire? then Line(s) != [] && Line(s)[0] == s.removing[0] && Line(t) == Line(s)[1..]
                else Line(t) == Line(s))
            && (t.remover.RErased? <==> a.Expire?) && (a.Expire? ==> t.remover == RErased(s.removing[0], s.now))
  {
    if a.Expire? { assert (RemoverApply(s, a).removing + []) == s.removing[1..]; }
  }

  lemma RemoverTimes(s: State, a: RemoverAction)
    requires Core(s) && Times(s) && RemoverEnabled(s, a)
    ensures Times(RemoverApply(s, a))
  {
    hide Core, SortedLine, Line, RemoverApply;
    var s' := RemoverApply(s, a);
    RemoverLine(s, a);
    if a.Delete? { LineNotDeleted(s); }
    LineKept(s, s', Line(s), Line(s'));
  }

  lemma LineNotDeleted(s: State)
    requires Core(s) && s.remover.RErased?
    ensures forall i :: 0 <= i < |Line(s)| ==> Line(s)[i] != s.remover.id
  {
    hide Core;
    forall i | 0 <= i < |Line(s)| ensures Line(s)[i] != s.remover.id {
      assert Line(s)[i] in s.removing || Line(s)[i] in JudgeHolds(s);
      RemoverAlone(s, Line(s)[i]);
    }
  }

  lemma StepTimes(s: State, a: Action)
    requires Core(s) && Times(s) && Enabled(s, a)
    ensures Times(Apply(s, a))
  {
    hide Core, Times, HttpApply, JudgeApply, RemoverApply, RejudgeApply;
    match a
    case Http(h) => HttpStamps(s, h); KeptTimes(s, HttpApply(s, h));
    case Judge(j) =>
      if j.Release? { ReleaseTimes(s); } else if j.Take? { TakeTimes(s); } else { JudgingTimes(s, j); }
    case Remove(r) => RemoverTimes(s, r);
    case Rejudger(t) => RejudgeStamps(s, t); KeptTimes(s, RejudgeApply(s, t));
    case Tick(_) => TickStamps(s, a); KeptTimes(s, Apply(s, a));
  }

  lemma TickStamps(s: State, a: Action)
    requires Enabled(s, a) && a.Tick?
    ensures var s' := Apply(s, a);
            StampsKept(s, s') && s'.removing == s.removing && s'.judge == s.judge && s'.remover == s.remover &&
            s'.now >= s.now
  {
  }

  // ----- Submissions on their way into the finder -----

  ghost predicate InsertingOne(s: State, id: Id)
    requires id in s.inserting
  {
    && id in s.heap && s.heap[id].kind != Rejudge && id in s.history.enqueued
    && s.inserting[id] <= Seconds(s.now) < s.inserting[id] + EXPIRY
    && id !in RemoverHolds(s)
    && (id in s.removing || s.judge == JStamped(id) ==> s.inserting[id] <= StampOf(s, id))
  }

  lemma StepInserting(s: State, a: Action)
    requires Core(s) && Times(s) && Inserting(s) && Enabled(s, a)
    ensures Inserting(Apply(s, a))
  {
    hide Core, Times, HttpApply, JudgeApply, RemoverApply, RejudgeApply, Apply;
    var s' := Apply(s, a);
    InsertingMoves(s, a);
    forall id | id in s'.inserting ensures InsertingOne(s', id) {
      if a == Http(PushSubmit(id)) {
        PushedInserting(s, id);
      } else {
        assert InsertingOne(s, id);
        StepInsertingOne(s, a, id);
      }
    }
    assert forall id :: id in s'.inserting ==> InsertingOne(s', id);
  }

  lemma StepInsertingOne(s: State, a: Action, id: Id)
    requires Core(s) && Times(s) && Enabled(s, a)
    requires id in s.inserting && InsertingOne(s, id)
    requires id in Apply(s, a).inserting && Apply(s, a).inserting[id] == s.inserting[id]
    ensures InsertingOne(Apply(s, a), id)
  {
    hide Core, Times, HttpApply, JudgeApply, RemoverApply, RejudgeApply, Apply;
    var s' := Apply(s, a);
    StepFrame(s, a);
    ErasedIsHeld(s, a, id);
    NotFreed(s, a, id);
    assert SameObject(s, s', id);
    StepMoves(s, a);
    StepFinderMoves(s, a);
    InsertingStamp(s, a, id);
    if a == Remove(Expire) {
      assert s.removing != [] ==> s.removing[0] in s.removing;
    }
  }

  /** The stamp of a submission that is done is never before its push. */
  lemma InsertingStamp(s: State, a: Action, id: Id)
    requires Core(s) && Enabled(s, a) && id in s.inserting && InsertingOne(s, id)
    ensures var s' := Apply(s, a);
            id in s'.removing || s'.judge == JStamped(id) ==> s.inserting[id] <= StampOf(s', id)
  {
    hide Core, HttpApply, JudgeApply, RemoverApply, RejudgeApply;
    match a
    case Http(h) =>
      HttpStamps(s, h);
      assert s.judge.JStamped? ==> s.judge.id in JudgeHolds(s);
    case Judge(j) => InsertingJudged(s, j, id);
    case Remove(r) => RemoverKeepsOthers(s, r, id);
    case Rejudger(t) =>
      RejudgeStamps(s, t);
      assert s.judge.JStamped? ==> s.judge.id in JudgeHolds(s);
    case Tick(_) =>
  }

  lemma RemoverKeepsOthers(s: State, a: RemoverAction, id: Id)
    requires RemoverEnabled(s, a) && id !in RemoverHolds(s)
    ensures var t := RemoverApply(s, a);
            StampOf(t, id) == StampOf(s, id) && t.judge == s.judge && (id in t.removing ==> id in s.removing)
  {
  }

  lemma InsertingJudged(s: State, a: JudgeAction, id: Id)
    requires Core(s) && JudgeEnabled(s, a) && id in s.inserting && InsertingOne(s, id)
    ensures var s' := JudgeApply(s, a);
            id in s'.removing || s'.judge == JStamped(id) ==> s.inserting[id] <= StampOf(s', id)
  {
    hide Fifo, WrittenOnce, Kinds, Flag, Ownership;
    if !a.Take? && !a.Release? && id in s.removing {
      JudgeAlone(s, id);
    }
  }

  lemma InsertingMoves(s: State, a: Action)
    requires Enabled(s, a)
    ensures forall id :: id in Apply(s, a).inserting ==>
              (id in s.inserting && Apply(s, a).inserting[id] == s.inserting[id]) || a == Http(PushSubmit(id))
  {
    hide HttpApply, JudgeApply, RemoverApply, RejudgeApply;
    match a
    case Http(h) => HttpInserting(s, h);
    case Judge(j) => JudgeMoves(s, j);
    case Remove(r) => RemoverInserting(s, r);
    case Rejudger(t) => RejudgeMoves(s, t);
    case Tick(_) =>
  }

  lemma HttpInserting(s: State, a: HttpAction)
    requires HttpEnabled(s, a)
    ensures HttpApply(s, a).inserting == match a
                                         case PushSubmit(id) => s.inserting[id := Seconds(s.now)]
                                         case InsertFinder(id) => s.inserting - {id}
                                         case _ => s.inserting
  {
  }

  lemma RemoverInserting(s: State, a: RemoverAction)
    requires RemoverEnabled(s, a)
    ensures RemoverApply(s, a).inserting == s.inserting
  {
  }

  lemma PushedInserting(s: State, id: Id)
    requires Core(s) && Enabled(s, Http(PushSubmit(id)))
    ensures var s' := Apply(s, Http(PushSubmit(id))); id in s'.inserting && InsertingOne(s', id)
  {
    hide Fifo, WrittenOnce, Kinds, Flag;
    HeldIsLive(s, id);
    assert id in s.open;
    assert Owners(s, id) == if id in s.heap then 1 else 0;
  }
}
