/** What every step of every thread keeps. */
module JobsInvariants {
  import opened Jobs

  function RemoverHolds(s: State): seq<Id> {
    match s.remover
    case RSleeping(_) => []
    case RErased(id, _) => [id]
  }

  /** The object the rejudge thread has in hand, whoever owns it. */
  function CloneInHand(s: State): seq<Id> {
    match s.rejudge
    case TWaiting => []
    case TNext(_) => []
    case TCloned(_, id) => [id]
    case TFlagged(_, id) => [id]
    case TPushed(_, id, _) => [id]
    case TJudged(_, id) => [id]
    case TFinished(_, id) => [id]
  }

  /** Between pushing a clone and seeing the flag cleared the rejudge thread does not own it. */
  function RejudgeHolds(s: State): seq<Id> {
    if s.rejudge.TPushed? && s.rejudging then [] else CloneInHand(s)
  }

  function Occurrences(xs: seq<Id>, id: Id): (n: nat)
    ensures n > 0 <==> id in xs
  {
    if xs == [] then 0 else (if xs[0] == id then 1 else 0) + Occurrences(xs[1..], id)
  }

  function InSet(xs: set<Id>, id: Id): nat { if id in xs then 1 else 0 }

  /** How many places own an object. */
  function Owners(s: State, id: Id): nat {
    InSet(s.open, id) + Occurrences(s.waiting, id) + Occurrences(JudgeHolds(s), id) + Occurrences(s.removing, id) +
    Occurrences(RemoverHolds(s), id) + Occurrences(RejudgeHolds(s), id) + InSet(s.history.leaked, id)
  }

  /** Each live object has exactly one owner, and nothing else is owned. */
  ghost predicate Ownership(s: State) {
    && (forall id :: Owners(s, id) == if id in s.heap then 1 else 0)
    && (forall id :: id in s.heap ==> id < s.next)
  }

  predicate NoDuplicates<T(==)>(xs: seq<T>) {
    forall i, j :: 0 <= i < j < |xs| ==> xs[i] != xs[j]
  }

  /** First in, first out, and nobody twice. */
  ghost predicate Fifo(s: State) {
    && s.history.completed + JudgeHolds(s) + s.waiting == s.history.enqueued
    && NoDuplicates(s.history.enqueued)
    && (forall id :: id in s.history.enqueued ==> id < s.next && id !in s.open)
    && (s.rejudge.TCloned? || s.rejudge.TFlagged? ==> s.rejudge.id !in s.history.enqueued)
    && (forall id :: id in s.removing || id in RemoverHolds(s) ==> id in s.history.completed)
  }

  ghost predicate WrittenOnce(s: State) {
    && NoDuplicates(s.history.written)
    && (forall id :: id in s.history.written ==>
          id in s.history.completed || s.judge == JWritten(id) || s.judge == JStamped(id))
  }

  /** Which kinds of objects may be where. */
  ghost predicate Kinds(s: State) {
    KindsOf(s, s.removing + RemoverHolds(s), JudgeHolds(s) + s.waiting, CloneInHand(s))
  }

  /** The flag stays up exactly until the judge is past the clone's place in the queue. */
  ghost predicate Flag(s: State) {
    s.rejudge.TPushed? ==>
      && s.rejudge.pos < |s.history.enqueued|
      && s.history.enqueued[s.rejudge.pos] == s.rejudge.id
      && (s.rejudging <==> |s.history.completed| <= s.rejudge.pos)
  }

  ghost predicate Core(s: State) {
    Ownership(s) && Fifo(s) && WrittenOnce(s) && Kinds(s) && Flag(s)
  }

  // ----- Ownership -----

  lemma {:induction false} OccurrencesAppend(xs: seq<Id>, x: Id, id: Id)
    ensures Occurrences(xs + [x], id) == Occurrences(xs, id) + if x == id then 1 else 0
  {
    if xs != [] {
      assert (xs + [x])[1..] == xs[1..] + [x];
      OccurrencesAppend(xs[1..], x, id);
    }
  }

  lemma OccurrencesHead(xs: seq<Id>, id: Id)
    requires xs != []
    ensures Occurrences(xs, id) == (if xs[0] == id then 1 else 0) + Occurrences(xs[1..], id)
  {
  }

  lemma OccurrencesOne(x: Id, id: Id)
    ensures Occurrences([x], id) == if x == id then 1 else 0
  {
  }

  /** What the HTTP threads leave alone, and what a request other than a submission does to the open ones. */
  lemma HttpHolders(s: State, a: HttpAction)
    requires HttpEnabled(s, a) && !a.PushSubmit?
    ensures var t := HttpApply(s, a);
            && t.waiting == s.waiting && t.judge == s.judge && t.removing == s.removing && t.remover == s.remover
            && t.rejudge == s.rejudge && t.rejudging == s.rejudging && t.history.leaked == s.history.leaked
            && t.open == (if a.Open? then s.open + {s.next} else if a.Close? then s.open - {a.id} else s.open)
            && t.next == (if a.Open? then s.next + 1 else s.next)
  {
  }

  lemma HttpHeap(s: State, a: HttpAction)
    requires HttpEnabled(s, a)
    ensures HttpApply(s, a).heap ==
            match a
            case Open(key, kind, settings) => s.heap[s.next := Solution(key, kind, settings, 0, [])]
            case PushSubmit(id) => s.heap[id := Deref(s, id).(timeStamp := 0)]
            case Close(id) => s.heap - {id}
            case _ => s.heap
  {
  }

  lemma OpenOwners(s: State, a: HttpAction, id: Id)
    requires Core(s) && HttpEnabled(s, a) && !a.PushSubmit?
    ensures var s' := HttpApply(s, a); Owners(s', id) == if id in s'.heap then 1 else 0
  {
    assert Owners(s, id) == if id in s.heap then 1 else 0;
    assert a.Open? ==> s.next !in s.heap && Owners(s, s.next) == 0;
    assert a.Close? ==> Owners(s, a.id) == if a.id in s.heap then 1 else 0;
    HttpHolders(s, a);
    HttpHeap(s, a);
    hide Core, HttpApply, Occurrences;
  }

  lemma PushSubmitOwners(s: State, x: Id, id: Id)
    requires Core(s) && HttpEnabled(s, PushSubmit(x))
    ensures var s' := HttpApply(s, PushSubmit(x)); Owners(s', id) == if id in s'.heap then 1 else 0
  {
    hide Fifo, Kinds, WrittenOnce, Flag, Occurrences;
    assert Owners(s, id) == if id in s.heap then 1 else 0;
    assert Owners(s, x) == if x in s.heap then 1 else 0;
    OccurrencesAppend(s.waiting, x, id);
  }

  lemma TakeOwners(s: State, id: Id)
    requires Core(s) && JudgeEnabled(s, Take)
    ensures var s' := JudgeApply(s, Take); Owners(s', id) == if id in s'.heap then 1 else 0
  {
    hide Fifo, Kinds, WrittenOnce, Flag, Occurrences;
    assert Owners(s, id) == if id in s.heap then 1 else 0;
    OccurrencesHead(s.waiting, id);
    OccurrencesOne(s.waiting[0], id);
  }

  /** While it works on an object the judge moves nothing. */
  lemma JudgingFrame(s: State, a: JudgeAction)
    requires JudgeEnabled(s, a) && !a.Release? && !a.Take?
    ensures var s' := JudgeApply(s, a);
            && JudgeHolds(s') == JudgeHolds(s) == [s.judge.id] && s'.judge.id == s.judge.id
            && s'.heap.Keys == s.heap.Keys + (if a.WriteDatabase? then {} else {s.judge.id})
            && s' == s.(heap := s'.heap, judge := s'.judge, history := s'.history)
            && s'.history == s.history.(written := s'.history.written)
  {
  }

  lemma JudgingOwners(s: State, a: JudgeAction, id: Id)
    requires Core(s) && JudgeEnabled(s, a) && !a.Release? && !a.Take?
    ensures var s' := JudgeApply(s, a); Owners(s', id) == if id in s'.heap then 1 else 0
  {
    hide Fifo, WrittenOnce, Flag, Kinds, Occurrences, JudgeApply;
    JudgingFrame(s, a);
    assert Owners(s, id) == if id in s.heap then 1 else 0;
    assert Owners(s, s.judge.id) == if s.judge.id in s.heap then 1 else 0;
  }

  lemma ReleaseNormalOwners(s: State, id: Id)
    requires Core(s) && JudgeEnabled(s, Release) && Deref(s, s.judge.id).kind == Normal
    ensures var s' := JudgeApply(s, Release); Owners(s', id) == if id in s'.heap then 1 else 0
  {
    hide Fifo, WrittenOnce, Flag, Occurrences;
    assert Owners(s, id) == if id in s.heap then 1 else 0;
    OccurrencesOne(s.judge.id, id);
    OccurrencesAppend(s.removing, s.judge.id, id);
  }

  lemma ReleaseRejudgeOwners(s: State, id: Id)
    requires Core(s) && JudgeEnabled(s, Release) && Deref(s, s.judge.id).kind == Rejudge
    ensures var s' := JudgeApply(s, Release); Owners(s', id) == if id in s'.heap then 1 else 0
  {
    hide Fifo, WrittenOnce, Flag, Occurrences;
    assert Owners(s, id) == if id in s.heap then 1 else 0;
    OccurrencesOne(s.judge.id, id);
    assert s.judge.id in JudgeHolds(s);
  }

  lemma ReleaseOtherOwners(s: State, id: Id)
    requires Core(s) && JudgeEnabled(s, Release) && Deref(s, s.judge.id).kind == Other
    ensures var s' := JudgeApply(s, Release); Owners(s', id) == if id in s'.heap then 1 else 0
  {
    hide Fifo, WrittenOnce, Flag, Occurrences;
    assert Owners(s, id) == if id in s.heap then 1 else 0;
    OccurrencesOne(s.judge.id, id);
    assert Owners(s, s.judge.id) == if s.judge.id in s.heap then 1 else 0;
    assert s.judge.id in JudgeHolds(s);
  }

  lemma RemoverOwners(s: State, a: RemoverAction, id: Id)
    requires Core(s) && RemoverEnabled(s, a)
    ensures var s' := RemoverApply(s, a); Owners(s', id) == if id in s'.heap then 1 else 0
  {
    hide Fifo, Kinds, WrittenOnce, Flag, Occurrences;
    assert Owners(s, id) == if id in s.heap then 1 else 0;
    match a
    case PollEmpty =>
    case PollYoung =>
    case Expire => OccurrencesHead(s.removing, id); OccurrencesOne(s.removing[0], id);
    case Delete => OccurrencesOne(s.remover.id, id);
  }

  /** The same objects are held in the same places. */
  ghost predicate SameHolders(s: State, t: State) {
    && t.open == s.open && t.waiting == s.waiting && JudgeHolds(t) == JudgeHolds(s) && t.removing == s.removing
    && RemoverHolds(t) == RemoverHolds(s) && RejudgeHolds(t) == RejudgeHolds(s)
    && t.history.leaked == s.history.leaked && t.heap.Keys == s.heap.Keys
  }

  lemma SameOwners(s: State, t: State, id: Id)
    requires SameHolders(s, t)
    ensures Owners(t, id) == Owners(s, id) && (id in t.heap <==> id in s.heap)
  {
    hide JudgeHolds, RemoverHolds, RejudgeHolds, Occurrences;
    assert id in t.heap.Keys <==> id in s.heap.Keys;
  }

  lemma RejudgeOwners(s: State, a: RejudgeAction, id: Id)
    requires Core(s) && RejudgeEnabled(s, a)
    ensures var s' := RejudgeApply(s, a); Owners(s', id) == if id in s'.heap then 1 else 0
  {
    assert Owners(s, id) == if id in s.heap then 1 else 0;
    match a
    case Clone(_) => CloneOwners(s, a, id);
    case PushClone => PushCloneOwners(s, id);
    case DeleteClone => DeleteCloneOwners(s, id);
    case _ =>
      hide Core, RejudgeApply, Owners;
      RejudgeQuiet(s, a);
      SameOwners(s, RejudgeApply(s, a), id);
  }

  lemma RejudgeQuiet(s: State, a: RejudgeAction)
    requires RejudgeEnabled(s, a) && !a.Clone? && !a.PushClone? && !a.DeleteClone?
    ensures SameHolders(s, RejudgeApply(s, a))
  {
  }

  lemma CloneOwners(s: State, a: RejudgeAction, id: Id)
    requires Core(s) && RejudgeEnabled(s, a) && a.Clone?
    ensures var s' := RejudgeApply(s, a); Owners(s', id) == if id in s'.heap then 1 else 0
  {
    hide Fifo, WrittenOnce, Flag, Kinds, Occurrences;
    assert Owners(s, id) == if id in s.heap then 1 else 0;
    OccurrencesOne(s.next, id);
  }

  lemma PushCloneOwners(s: State, id: Id)
    requires Core(s) && RejudgeEnabled(s, PushClone)
    ensures var s' := RejudgeApply(s, PushClone); Owners(s', id) == if id in s'.heap then 1 else 0
  {
    hide Fifo, WrittenOnce, Flag, Occurrences;
    assert Owners(s, id) == if id in s.heap then 1 else 0;
    OccurrencesOne(s.rejudge.id, id);
    OccurrencesAppend(s.waiting, s.rejudge.id, id);
  }

  lemma DeleteCloneOwners(s: State, id: Id)
    requires Core(s) && RejudgeEnabled(s, DeleteClone)
    ensures var s' := RejudgeApply(s, DeleteClone); Owners(s', id) == if id in s'.heap then 1 else 0
  {
    hide Fifo, WrittenOnce, Flag, Kinds, Occurrences;
    assert Owners(s, id) == if id in s.heap then 1 else 0;
    OccurrencesOne(s.rejudge.id, id);
  }

  lemma HttpOwnership(s: State, a: HttpAction)
    requires Core(s) && HttpEnabled(s, a)
    ensures Ownership(HttpApply(s, a))
  {
    hide Owners;
    var s' := HttpApply(s, a);
    forall id ensures Owners(s', id) == if id in s'.heap then 1 else 0 {
      if a.PushSubmit? { PushSubmitOwners(s, a.id, id); } else { OpenOwners(s, a, id); }
    }
    if a.PushSubmit? { HeldIsLive(s, a.id); }
  }

  /** Whatever is owned is live. */
  lemma HeldIsLive(s: State, id: Id)
    requires Ownership(s)
    requires id in s.open || id in s.waiting || id in JudgeHolds(s) || id in s.removing || id in RemoverHolds(s) ||
             id in RejudgeHolds(s) || id in s.history.leaked
    ensures id in s.heap && id < s.next
  {
    assert Owners(s, id) == if id in s.heap then 1 else 0;
  }

  lemma JudgeOwnership(s: State, a: JudgeAction)
    requires Core(s) && JudgeEnabled(s, a)
    ensures Ownership(JudgeApply(s, a))
  {
    hide Owners;
    var s' := JudgeApply(s, a);
    forall id ensures Owners(s', id) == if id in s'.heap then 1 else 0 {
      if a.Take? { TakeOwners(s, id); }
      else if !a.Release? { JudgingOwners(s, a, id); }
      else {
        match Deref(s, s.judge.id).kind
        case Normal => ReleaseNormalOwners(s, id);
        case Rejudge => ReleaseRejudgeOwners(s, id);
        case Other => ReleaseOtherOwners(s, id);
      }
    }
    if !a.Take? { HeldIsLive(s, s.judge.id); }
  }

  lemma RemoverOwnership(s: State, a: RemoverAction)
    requires Core(s) && RemoverEnabled(s, a)
    ensures Ownership(RemoverApply(s, a))
  {
    hide Owners;
    var s' := RemoverApply(s, a);
    forall id ensures Owners(s', id) == if id in s'.heap then 1 else 0 {
      RemoverOwners(s, a, id);
    }
  }

  lemma RejudgeOwnership(s: State, a: RejudgeAction)
    requires Core(s) && RejudgeEnabled(s, a)
    ensures Ownership(RejudgeApply(s, a))
  {
    hide Owners;
    var s' := RejudgeApply(s, a);
    forall id ensures Owners(s', id) == if id in s'.heap then 1 else 0 {
      RejudgeOwners(s, a, id);
    }
  }

  // ----- Queue order -----

  lemma HttpFifo(s: State, a: HttpAction)
    requires Core(s) && HttpEnabled(s, a) && !a.PushSubmit?
    ensures Fifo(HttpApply(s, a)) && WrittenOnce(HttpApply(s, a)) && Flag(HttpApply(s, a))
  {
    hide Kinds, Ownership;
  }

  lemma PushSubmitMoves(s: State, id: Id)
    requires HttpEnabled(s, PushSubmit(id))
    ensures var t := HttpApply(s, PushSubmit(id));
            && t.waiting == s.waiting + [id] && t.open == s.open - {id} && t.removing == s.removing && t.next == s.next
            && t.judge == s.judge && t.remover == s.remover && t.rejudge == s.rejudge && t.rejudging == s.rejudging
            && t.history == s.history.(enqueued := s.history.enqueued + [id])
  {
  }

  lemma PushSubmitFifo(s: State, id: Id)
    requires Core(s) && HttpEnabled(s, PushSubmit(id))
    ensures var s' := HttpApply(s, PushSubmit(id)); Fifo(s') && WrittenOnce(s') && Flag(s')
  {
    hide Kinds, Ownership, NoDuplicates, HttpApply;
    PushSubmitMoves(s, id);
    var h := s.history;
    HeldIsLive(s, id);
    assert id !in h.enqueued;
    StillDistinct(h.enqueued, id);
    assert h.completed + JudgeHolds(s) + (s.waiting + [id]) == h.completed + JudgeHolds(s) + s.waiting + [id];
    if s.rejudge.TCloned? || s.rejudge.TFlagged? {
      DifferentOwners(s, id);
    }
  }

  lemma StillDistinct(xs: seq<Id>, x: Id)
    requires NoDuplicates(xs) && x !in xs
    ensures NoDuplicates(xs + [x])
  {
  }

  /** An open request is not the rejudge thread's clone. */
  lemma DifferentOwners(s: State, id: Id)
    requires Ownership(s) && id in s.open && (s.rejudge.TCloned? || s.rejudge.TFlagged?)
    ensures s.rejudge.id != id
  {
    assert Owners(s, id) == if id in s.heap then 1 else 0;
    assert s.rejudge.id in RejudgeHolds(s);
  }

  lemma JudgeFifo(s: State, a: JudgeAction)
    requires Core(s) && JudgeEnabled(s, a)
    ensures Fifo(JudgeApply(s, a))
  {
    if a.Take? { TakeFifo(s); } else if a.Release? { ReleaseFifo(s); } else {
      hide JudgeApply, Kinds, Ownership, WrittenOnce, Flag;
      JudgingFrame(s, a);
    }
  }

  lemma TakeFifo(s: State)
    requires Fifo(s) && JudgeEnabled(s, Take)
    ensures Fifo(JudgeApply(s, Take))
  {
    assert s.waiting == [s.waiting[0]] + s.waiting[1..];
    assert s.history.completed + [s.waiting[0]] + s.waiting[1..] == s.history.completed + [] + s.waiting;
  }

  lemma ReleaseFifo(s: State)
    requires Fifo(s) && JudgeEnabled(s, Release)
    ensures Fifo(JudgeApply(s, Release))
  {
    assert s.history.completed + [s.judge.id] + [] + s.waiting == s.history.completed + [s.judge.id] + s.waiting;
  }

  lemma JudgeWrittenOnce(s: State, a: JudgeAction)
    requires Core(s) && JudgeEnabled(s, a) && !a.WriteDatabase?
    ensures WrittenOnce(JudgeApply(s, a))
  {
    hide Kinds, Ownership, Flag, Fifo;
  }

  lemma WritingOnce(s: State)
    requires Core(s) && JudgeEnabled(s, WriteDatabase)
    ensures WrittenOnce(JudgeApply(s, WriteDatabase))
  {
    hide Kinds, Ownership, Flag;
    var e := s.history.enqueued;
    var n := |s.history.completed|;
    assert e[n] == s.judge.id;
    forall i | 0 <= i < n ensures s.history.completed[i] != s.judge.id {
      assert e[i] == s.history.completed[i];
    }
  }

  lemma JudgeFlag(s: State, a: JudgeAction)
    requires Core(s) && JudgeEnabled(s, a)
    ensures Flag(JudgeApply(s, a))
  {
    hide Ownership, WrittenOnce;
    if a.Release? && s.rejudge.TPushed? {
      var n := |s.history.completed|;
      assert s.history.enqueued[n] == s.judge.id;
      assert s.judge.id in JudgeHolds(s);
      if Deref(s, s.judge.id).kind != Rejudge {
        assert s.rejudge.id in CloneInHand(s);
      }
    }
  }

  lemma RemoverFifo(s: State, a: RemoverAction)
    requires Core(s) && RemoverEnabled(s, a)
    ensures Fifo(RemoverApply(s, a)) && WrittenOnce(RemoverApply(s, a)) && Flag(RemoverApply(s, a))
  {
    hide Kinds, Ownership;
  }

  lemma RejudgeFifo(s: State, a: RejudgeAction)
    requires Core(s) && RejudgeEnabled(s, a)
    ensures Fifo(RejudgeApply(s, a)) && WrittenOnce(RejudgeApply(s, a)) && Flag(RejudgeApply(s, a))
  {
    hide Owners, Kinds;
    match a
    case Wake =>
    case Clone(_) =>
    case LoadFails =>
    case SetFlag =>
    case PushClone => ClonePushed(s);
    case SeeFlag =>
    case UpdateRow(_) =>
    case DeleteClone =>
    case EndBatch =>
  }

  lemma ClonePushed(s: State)
    requires Core(s) && RejudgeEnabled(s, PushClone)
    ensures var s' := RejudgeApply(s, PushClone); Fifo(s') && WrittenOnce(s') && Flag(s')
  {
    hide Owners;
    var h, id := s.history, s.rejudge.id;
    assert id in RejudgeHolds(s);
    HeldIsLive(s, id);
    assert h.completed + JudgeHolds(s) + (s.waiting + [id]) == h.completed + JudgeHolds(s) + s.waiting + [id];
    assert |h.completed| <= |h.enqueued|;
    CloneNotOpen(s);
  }

  lemma CloneNotOpen(s: State)
    requires Ownership(s) && s.rejudge.TFlagged?
    ensures s.rejudge.id !in s.open
  {
    assert Owners(s, s.rejudge.id) == if s.rejudge.id in s.heap then 1 else 0;
    assert s.rejudge.id in RejudgeHolds(s);
  }

  // ----- Kinds -----

  /** The invariant in terms of the parts of the state it reads. */
  ghost predicate KindsOf(s: State, normals: seq<Id>, pending: seq<Id>, clones: seq<Id>) {
    && (forall id :: id in normals ==> Deref(s, id).kind == Normal)
    && (forall id :: id in clones ==> Deref(s, id).kind == Rejudge)
    && (forall id :: id in s.history.leaked ==> Deref(s, id).kind == Other)
    && (forall id :: id in pending && Deref(s, id).kind == Rejudge ==>
          s.rejudging && s.rejudge.TPushed? && s.rejudge.id == id)
    && (s.judge.JWritten? ==> Deref(s, s.judge.id).kind == Normal)
    && (s.rejudging ==> s.rejudge.TFlagged? || s.rejudge.TPushed?)
    && (s.rejudge.TFlagged? ==> s.rejudging)
    && (s.filled || !s.rejudge.TWaiting? ==> s.init.kind == Rejudge)
  }

  lemma HttpKinds(s: State, a: HttpAction)
    requires Core(s) && HttpEnabled(s, a) && !a.PushSubmit? && !a.Open? && !a.Close?
    ensures Kinds(HttpApply(s, a))
  {
    hide Ownership, Fifo, WrittenOnce, Flag;
  }

  /** Everything the invariant speaks of is live and not open. */
  lemma KindsFrame(s: State, id: Id)
    requires Ownership(s)
    requires id in s.waiting || id in JudgeHolds(s) || id in s.removing || id in RemoverHolds(s) ||
             id in RejudgeHolds(s) || id in s.history.leaked
    ensures id in s.heap && id !in s.open && id < s.next
  {
    assert Owners(s, id) == if id in s.heap then 1 else 0;
  }

  /** A clone lent to the judge is live too. */
  lemma CloneLive(s: State, id: Id)
    requires Core(s) && id in CloneInHand(s)
    ensures id in s.heap && id !in s.open && id < s.next
    ensures id in RejudgeHolds(s) || id in s.waiting || id in JudgeHolds(s)
  {
    hide Owners, Kinds;
    if id !in RejudgeHolds(s) {
      var h, n := s.history, |s.history.completed|;
      assert h.enqueued[s.rejudge.pos] == id;
      assert (JudgeHolds(s) + s.waiting)[s.rejudge.pos - n] == h.enqueued[s.rejudge.pos];
    }
    KindsFrame(s, id);
  }

  lemma OpenKinds(s: State, a: HttpAction)
    requires Core(s) && HttpEnabled(s, a) && (a.PushSubmit? || a.Open? || a.Close?)
    ensures Kinds(HttpApply(s, a))
  {
    hide Ownership, Fifo, WrittenOnce, Flag;
    var s' := HttpApply(s, a);
    forall id | id in s.waiting || id in JudgeHolds(s) || id in s.removing || id in RemoverHolds(s) ||
                id in RejudgeHolds(s) || id in s.history.leaked
      ensures Deref(s', id).kind == Deref(s, id).kind
    {
      KindsFrame(s, id);
    }
    forall id | id in CloneInHand(s) ensures Deref(s', id).kind == Deref(s, id).kind {
      CloneLive(s, id);
    }
    if a.PushSubmit? {
      HeldIsLive(s, a.id);
    }
  }

  lemma JudgeKinds(s: State, a: JudgeAction)
    requires Core(s) && JudgeEnabled(s, a) && !a.Release? && !a.Take?
    ensures Kinds(JudgeApply(s, a))
  {
    hide Ownership, Fifo, WrittenOnce, Flag;
    var s' := JudgeApply(s, a);
    JudgingFrame(s, a);
    KindsFrame(s, s.judge.id);
    assert forall id :: Deref(s', id).kind == Deref(s, id).kind;
    hide JudgeApply;
  }

  lemma TakeKinds(s: State)
    requires Core(s) && JudgeEnabled(s, Take)
    ensures Kinds(JudgeApply(s, Take))
  {
    hide Ownership, Fifo, WrittenOnce, Flag;
    var s' := JudgeApply(s, Take);
    assert JudgeHolds(s') + s'.waiting == JudgeHolds(s) + s.waiting;
  }

  lemma ReleaseNormalKinds(s: State)
    requires Core(s) && JudgeEnabled(s, Release) && Deref(s, s.judge.id).kind == Normal
    ensures Kinds(JudgeApply(s, Release))
  {
    hide Ownership, WrittenOnce, Flag, Fifo;
    NotWaiting(s);
    var s' := JudgeApply(s, Release);
    assert RemoverHolds(s') == RemoverHolds(s) && CloneInHand(s') == CloneInHand(s) && JudgeHolds(s') == [];
    assert forall id :: id in s.waiting ==> id in JudgeHolds(s) + s.waiting;
    assert forall id :: id in s'.removing ==> id in s.removing || id == s.judge.id;
    assert forall id :: id in s.removing || id in RemoverHolds(s) ==> id in s.removing + RemoverHolds(s);
  }

  lemma ReleaseRejudgeKinds(s: State)
    requires Core(s) && JudgeEnabled(s, Release) && Deref(s, s.judge.id).kind == Rejudge
    ensures Kinds(JudgeApply(s, Release))
  {
    hide Ownership, WrittenOnce, Flag, Fifo;
    NotWaiting(s);
    var s' := JudgeApply(s, Release);
    assert RemoverHolds(s') == RemoverHolds(s) && CloneInHand(s') == CloneInHand(s) && JudgeHolds(s') == [];
    assert forall id :: id in s.waiting ==> id in JudgeHolds(s) + s.waiting;
    assert s.judge.id in JudgeHolds(s) + s.waiting;
  }

  lemma ReleaseOtherKinds(s: State)
    requires Core(s) && JudgeEnabled(s, Release) && Deref(s, s.judge.id).kind == Other
    ensures Kinds(JudgeApply(s, Release))
  {
    hide Ownership, WrittenOnce, Flag, Fifo;
    NotWaiting(s);
    var s' := JudgeApply(s, Release);
    assert RemoverHolds(s') == RemoverHolds(s) && CloneInHand(s') == CloneInHand(s) && JudgeHolds(s') == [];
    assert forall id :: id in s.waiting ==> id in JudgeHolds(s) + s.waiting;
  }

  lemma NotWaiting(s: State)
    requires Fifo(s) && s.judge.JStamped?
    ensures s.judge.id !in s.waiting
  {
    var h, n := s.history, |s.history.completed|;
    forall i | 0 <= i < |s.waiting| ensures s.waiting[i] != s.judge.id {
      assert h.enqueued[n] == s.judge.id && h.enqueued[n + 1 + i] == s.waiting[i];
    }
  }

  lemma RemoverKinds(s: State, a: RemoverAction)
    requires Core(s) && RemoverEnabled(s, a)
    ensures Kinds(RemoverApply(s, a))
  {
    hide Ownership, Fifo, WrittenOnce, Flag;
    var s' := RemoverApply(s, a);
    assert JudgeHolds(s') == JudgeHolds(s) && CloneInHand(s') == CloneInHand(s);
    match a
    case PollEmpty =>
    case PollYoung =>
    case Expire =>
      assert s.removing + RemoverHolds(s) == s.removing;
      forall id | id in s'.removing + RemoverHolds(s') ensures Deref(s', id).kind == Normal {
        assert id in s.removing;
        assert id in s.removing + RemoverHolds(s);
      }
    case Delete =>
      assert s.remover.id in RemoverHolds(s);
      forall id | id in s.waiting || id in JudgeHolds(s) || id in s.removing || id in RejudgeHolds(s) ||
                  id in s.history.leaked || id in CloneInHand(s)
        ensures id != s.remover.id
      {
        RemoverAlone(s, id);
      }
      assert s'.removing + RemoverHolds(s') == s.removing;
      assert forall id :: id in s.removing ==> id in s.removing + RemoverHolds(s);
      assert s.judge.JWritten? ==> s.judge.id in JudgeHolds(s);
  }

  /** What the remover is about to delete is in no other hands. */
  lemma RemoverAlone(s: State, id: Id)
    requires Core(s) && s.remover.RErased?
    requires id in s.waiting || id in JudgeHolds(s) || id in s.removing || id in RejudgeHolds(s) ||
             id in s.history.leaked || id in CloneInHand(s) || id in s.open
    ensures id != s.remover.id
  {
    hide Fifo, WrittenOnce, Flag;
    if id in CloneInHand(s) {
      assert s.remover.id in RemoverHolds(s);
    } else {
      assert Owners(s, id) == if id in s.heap then 1 else 0;
    }
  }

  lemma RejudgeKinds(s: State, a: RejudgeAction)
    requires Core(s) && RejudgeEnabled(s, a) && !a.Clone? && !a.DeleteClone? && !a.PushClone?
    ensures Kinds(RejudgeApply(s, a))
  {
    hide Ownership, Fifo, WrittenOnce, Flag;
    var s' := RejudgeApply(s, a);
    assert JudgeHolds(s') == JudgeHolds(s) && RemoverHolds(s') == RemoverHolds(s);
  }

  lemma PushCloneKinds(s: State)
    requires Core(s) && RejudgeEnabled(s, PushClone)
    ensures Kinds(RejudgeApply(s, PushClone))
  {
    hide Ownership, Fifo, WrittenOnce, Flag;
    var s' := RejudgeApply(s, PushClone);
    assert JudgeHolds(s') == JudgeHolds(s) && RemoverHolds(s') == RemoverHolds(s);
    assert s.rejudge.id in CloneInHand(s);
    assert JudgeHolds(s') + s'.waiting == JudgeHolds(s) + s.waiting + [s.rejudge.id];
  }

  lemma CloneKinds(s: State, a: RejudgeAction)
    requires Core(s) && RejudgeEnabled(s, a) && (a.Clone? || a.DeleteClone?)
    ensures Kinds(RejudgeApply(s, a))
  {
    hide Fifo, WrittenOnce, Flag, Owners;
    var s' := RejudgeApply(s, a);
    forall id | id in s.waiting || id in JudgeHolds(s) || id in s.removing || id in RemoverHolds(s) ||
                id in s.history.leaked
      ensures Deref(s', id).kind == Deref(s, id).kind
    {
      KindsFrame(s, id);
      if a.DeleteClone? { CloneAlone(s, id); }
    }
  }

  /** What the rejudge thread is about to delete is in no other hands. */
  lemma CloneAlone(s: State, id: Id)
    requires Ownership(s) && s.rejudge.TFinished?
    requires id in s.waiting || id in JudgeHolds(s) || id in s.removing || id in RemoverHolds(s) ||
             id in s.history.leaked || id in s.open
    ensures id != s.rejudge.id
  {
    assert s.rejudge.id in RejudgeHolds(s);
    assert Owners(s, id) == if id in s.heap then 1 else 0;
  }

  // ----- Every step -----

  lemma StepCore(s: State, a: Action)
    requires Core(s) && Enabled(s, a)
    ensures Core(Apply(s, a))
  {
    hide Ownership, Fifo, WrittenOnce, Kinds, Flag, HttpApply, JudgeApply, RemoverApply, RejudgeApply;
    match a
    case Http(h) =>
      HttpOwnership(s, h);
      if h.PushSubmit? { PushSubmitFifo(s, h.id); } else { HttpFifo(s, h); }
      if h.PushSubmit? || h.Open? || h.Close? { OpenKinds(s, h); } else { HttpKinds(s, h); }
    case Judge(j) =>
      JudgeOwnership(s, j);
      JudgeFifo(s, j);
      JudgeFlag(s, j);
      if j.WriteDatabase? { WritingOnce(s); } else { JudgeWrittenOnce(s, j); }
      if j.Take? { TakeKinds(s); } else if j.Release? {
        match Deref(s, s.judge.id).kind
        case Normal => ReleaseNormalKinds(s);
        case Rejudge => ReleaseRejudgeKinds(s);
        case Other => ReleaseOtherKinds(s);
      } else { JudgeKinds(s, j); }
    case Remove(r) =>
      RemoverOwnership(s, r);
      RemoverFifo(s, r);
      RemoverKinds(s, r);
    case Rejudger(t) =>
      RejudgeOwnership(s, t);
      RejudgeFifo(s, t);
      if t.Clone? || t.DeleteClone? { CloneKinds(s, t); }
      else if t.PushClone? { PushCloneKinds(s); }
      else { RejudgeKinds(s, t); }
    case Tick(_) => TickCore(s, a);
  }

  lemma TickCore(s: State, a: Action)
    requires Core(s) && Enabled(s, a) && a.Tick?
    ensures Core(Apply(s, a))
  {
    var t := Apply(s, a);
    assert t == s.(now := t.now);
    hide Apply, Enabled;
    LaterOwnership(s, t);
    LaterOrder(s, t);
    LaterKinds(s, t);
    hide Ownership, Fifo, WrittenOnce, Kinds, Flag;
  }

  /** Time alone changes none of the invariants. */
  lemma LaterOwnership(s: State, t: State)
    requires Ownership(s) && t == s.(now := t.now)
    ensures Ownership(t)
  {
    hide Owners;
    assert SameHolders(s, t);
    forall id ensures Owners(t, id) == if id in t.heap then 1 else 0 {
      SameOwners(s, t, id);
    }
  }

  lemma LaterOrder(s: State, t: State)
    requires Fifo(s) && WrittenOnce(s) && Flag(s) && t == s.(now := t.now)
    ensures Fifo(t) && WrittenOnce(t) && Flag(t)
  {
    assert JudgeHolds(t) == JudgeHolds(s) && RemoverHolds(t) == RemoverHolds(s);
    hide NoDuplicates, JudgeHolds, RemoverHolds;
  }

  lemma LaterKinds(s: State, t: State)
    requires Kinds(s) && t == s.(now := t.now)
    ensures Kinds(t)
  {
    assert JudgeHolds(t) == JudgeHolds(s) && RemoverHolds(t) == RemoverHolds(s) && CloneInHand(t) == CloneInHand(s);
    hide JudgeHolds, RemoverHolds, CloneInHand;
  }
}
