/** The job lifecycle of manager.cpp with the object ownership of http.cpp, as interleaved atomic steps of the
    HTTP threads, the judge, the remover and the rejudge thread under one clock.

    Every critical section and every access to a shared flag is one step. Times are in milliseconds; what
    the program reads with time(0) is the number of whole seconds. */
module Jobs {

  type Id = nat

  datatype Kind = Normal | Rejudge | Other

  datatype Report = Report(errorCode: int, time: int, memory: int, info: string, score: int)

  const SYSTEM_ERROR := 100

  datatype Settings = Settings(problem: nat, comparison: int, timeLimit: int, memoryLimit: int)

  /** A heap object of class solution. A time stamp of zero means that judging is not finished. */
  datatype Solution = Solution(key: string, kind: Kind, settings: Settings, timeStamp: nat, detail: seq<Report>)

  datatype JudgePc = JIdle | JRunning(id: Id) | JWritten(id: Id) | JStamped(id: Id)

  datatype RemoverPc = RSleeping(until: nat) | RErased(id: Id, at: nat)

  /** The rejudge thread: i is the position in the rejudge list, pos the place in the enqueue history. */
  datatype RejudgePc =
    | TWaiting
    | TNext(i: nat)
    | TCloned(i: nat, id: Id)
    | TFlagged(i: nat, id: Id)
    | TPushed(i: nat, id: Id, pos: nat)
    | TJudged(i: nat, id: Id)
    | TFinished(i: nat, id: Id)

  datatype Query = Query(target: Id, since: nat)

  /** What one POST of a rejudge request asks for. */
  datatype Request = Request(settings: Settings, list: seq<nat>)

  datatype State = State(
    now: nat,
    next: Id,
    heap: map<Id, Solution>,
    open: set<Id>,
    inserting: map<Id, nat>,
    waiting: seq<Id>,
    removing: seq<Id>,
    finder: map<string, Id>,
    rejudging: bool,
    filled: bool,
    init: Solution,
    list: seq<nat>,
    judge: JudgePc,
    remover: RemoverPc,
    rejudge: RejudgePc,
    queries: map<nat, Query>,
    history: History)

  /** What happened so far; no step reads it. */
  datatype History = History(
    enqueued: seq<Id>,
    completed: seq<Id>,
    written: seq<Id>,
    leaked: set<Id>,
    granted: seq<Request>,
    lastWinner: Settings,
    updated: seq<nat>)

  function Seconds(ms: nat): nat { ms / 1000 }

  const GARBAGE := Solution("", Other, Settings(0, 0, 0, 0), 0, [])

  /** The object behind a pointer; a dangling pointer yields garbage. */
  function Deref(s: State, id: Id): Solution {
    if id in s.heap then s.heap[id] else GARBAGE
  }

  function Write(s: State, id: Id, o: Solution): State {
    s.(heap := s.heap[id := o])
  }

  const EMPTY_SLEEP := 20000
  const EXPIRY := 25
  const GRACE := 1000

  // ----- HTTP threads -----

  datatype HttpAction =
    | Open(key: string, kind: Kind, settings: Settings)
    | PushSubmit(id: Id)
    | InsertFinder(id: Id)
    | StartRejudge(id: Id, list: seq<nat>)
    | StartRejudgeFails(id: Id)
    | Close(id: Id)
    | Find(q: nat, key: string)
    | Answer(q: nat)

  predicate HttpEnabled(s: State, a: HttpAction) {
    match a
    case Open(_, _, _) => true
    case PushSubmit(id) => id in s.open && Deref(s, id).kind != Rejudge
    case InsertFinder(id) => id in s.inserting
    // try_lock succeeds only while the rejudge thread is waiting on its condition
    case StartRejudge(id, _) => id in s.open && Deref(s, id).kind == Rejudge && s.rejudge == TWaiting
    case StartRejudgeFails(id) => id in s.open && Deref(s, id).kind == Rejudge && s.rejudge == TWaiting
    case Close(id) => id in s.open
    case Find(q, key) => q !in s.queries && key in s.finder
    case Answer(q) => q in s.queries
  }

  function Enqueue(s: State, id: Id): State {
    s.(waiting := s.waiting + [id], history := s.history.(enqueued := s.history.enqueued + [id]))
  }

  function HttpApply(s: State, a: HttpAction): State
    requires HttpEnabled(s, a)
  {
    match a
    case Open(key, kind, settings) =>
      s.(heap := s.heap[s.next := Solution(key, kind, settings, 0, [])], open := s.open + {s.next}, next := s.next + 1)
    case PushSubmit(id) =>
      Enqueue(Write(s, id, Deref(s, id).(timeStamp := 0)), id)
        .(open := s.open - {id}, inserting := s.inserting[id := Seconds(s.now)])
    case InsertFinder(id) =>
      s.(finder := s.finder[Deref(s, id).key := id], inserting := s.inserting - {id})
    case StartRejudge(id, list) =>
      s.(init := Deref(s, id), list := list, filled := true,
         history := s.history.(granted := s.history.granted + [Request(Deref(s, id).settings, list)],
                               lastWinner := Deref(s, id).settings))
    // get_solution_list throws after rejudge_init was overwritten
    case StartRejudgeFails(id) =>
      s.(init := Deref(s, id), history := s.history.(lastWinner := Deref(s, id).settings))
    case Close(id) => s.(heap := s.heap - {id}, open := s.open - {id})
    case Find(q, key) => s.(queries := s.queries[q := Query(s.finder[key], s.now)])
    case Answer(q) => s.(queries := s.queries - {q})
  }

  // ----- Judge thread -----

  datatype JudgeAction =
    | Take
    | Append(report: Report)
    | WriteDatabase
    | Stamp
    | Fail(info: string)
    | Release

  function JudgeHolds(s: State): seq<Id> {
    match s.judge
    case JIdle => []
    case JRunning(id) => [id]
    case JWritten(id) => [id]
    case JStamped(id) => [id]
  }

  predicate JudgeEnabled(s: State, a: JudgeAction) {
    match a
    case Take => s.judge.JIdle? && s.waiting != []
    case Append(_) => s.judge.JRunning?
    case WriteDatabase => s.judge.JRunning? && Deref(s, s.judge.id).kind == Normal
    case Stamp => s.judge.JWritten? || (s.judge.JRunning? && Deref(s, s.judge.id).kind != Normal)
    case Fail(_) => s.judge.JRunning? || s.judge.JWritten?
    // the remover keeps removing_mutex from erasing to deleting
    case Release => s.judge.JStamped? && (Deref(s, s.judge.id).kind == Normal ==> s.remover.RSleeping?)
  }

  function JudgeApply(s: State, a: JudgeAction): State
    requires JudgeEnabled(s, a)
  {
    match a
    case Take => s.(judge := JRunning(s.waiting[0]), waiting := s.waiting[1..])
    case Append(report) =>
      var o := Deref(s, s.judge.id);
      Write(s, s.judge.id, o.(detail := o.detail + [report]))
    case WriteDatabase =>
      s.(judge := JWritten(s.judge.id), history := s.history.(written := s.history.written + [s.judge.id]))
    case Stamp =>
      Write(s, s.judge.id, Deref(s, s.judge.id).(timeStamp := Seconds(s.now))).(judge := JStamped(s.judge.id))
    case Fail(info) =>
      Write(s, s.judge.id, Deref(s, s.judge.id).(timeStamp := Seconds(s.now), detail := [ErrorReport(info)]))
        .(judge := JStamped(s.judge.id))
    case Release =>
      var id, kind := s.judge.id, Deref(s, s.judge.id).kind;
      s.(judge := JIdle,
         removing := if kind == Normal then s.removing + [id] else s.removing,
         rejudging := s.rejudging && kind != Rejudge,
         history := s.history.(completed := s.history.completed + [id],
                               leaked := if kind == Other then s.history.leaked + {id} else s.history.leaked))
  }

  function ErrorReport(info: string): Report { Report(SYSTEM_ERROR, 0, 0, info, 0) }

  // ----- Remover thread -----

  datatype RemoverAction = PollEmpty | PollYoung | Expire | Delete

  /** now - TimeStamp in whole seconds, as time_t arithmetic. */
  function Age(s: State, id: Id): int { Seconds(s.now) - Deref(s, id).timeStamp }

  predicate Awake(s: State) { s.remover.RSleeping? && s.now >= s.remover.until }

  predicate RemoverEnabled(s: State, a: RemoverAction) {
    match a
    case PollEmpty => Awake(s) && s.removing == []
    case PollYoung => Awake(s) && s.removing != [] && Age(s, s.removing[0]) < EXPIRY
    case Expire => Awake(s) && s.removing != [] && Age(s, s.removing[0]) >= EXPIRY
    case Delete => s.remover.RErased? && s.now >= s.remover.at + GRACE
  }

  /** How many seconds the remover sleeps on a front of the given age. */
  function Nap(age: int): int { age + 1 }

  function RemoverApply(s: State, a: RemoverAction): State
    requires RemoverEnabled(s, a)
  {
    match a
    case PollEmpty => s.(remover := RSleeping(s.now + EMPTY_SLEEP))
    case PollYoung =>
      var wake := s.now + 1000 * Nap(Age(s, s.removing[0]));
      s.(remover := RSleeping(if wake < 0 then 0 else wake))
    case Expire =>
      var id := s.removing[0];
      s.(finder := s.finder - {Deref(s, id).key}, removing := s.removing[1..], remover := RErased(id, s.now))
    case Delete => s.(heap := s.heap - {s.remover.id}, remover := RSleeping(s.now))
  }

  // ----- Rejudge thread -----

  datatype RejudgeAction =
    | Wake
    | Clone(key: string)
    | LoadFails
    | SetFlag
    | PushClone
    | SeeFlag
    | UpdateRow(ok: bool)
    | DeleteClone
    | EndBatch

  predicate RejudgeEnabled(s: State, a: RejudgeAction) {
    match a
    case Wake => s.rejudge.TWaiting? && s.filled
    case Clone(_) => s.rejudge.TNext? && s.rejudge.i < |s.list|
    case LoadFails => s.rejudge.TCloned?
    case SetFlag => s.rejudge.TCloned?
    case PushClone => s.rejudge.TFlagged?
    case SeeFlag => s.rejudge.TPushed? && !s.rejudging
    case UpdateRow(_) => s.rejudge.TJudged?
    case DeleteClone => s.rejudge.TFinished?
    case EndBatch => s.rejudge.TNext? && s.rejudge.i >= |s.list|
  }

  function RejudgeApply(s: State, a: RejudgeAction): State
    requires RejudgeEnabled(s, a)
  {
    match a
    case Wake => s.(filled := false, rejudge := TNext(0), history := s.history.(updated := []))
    case Clone(key) =>
      s.(heap := s.heap[s.next := Solution(key, s.init.kind, s.init.settings, 0, [])], next := s.next + 1,
         rejudge := TCloned(s.rejudge.i, s.next))
    case LoadFails => s.(rejudge := TFinished(s.rejudge.i, s.rejudge.id))
    case SetFlag => s.(rejudging := true, rejudge := TFlagged(s.rejudge.i, s.rejudge.id))
    case PushClone =>
      Enqueue(s, s.rejudge.id).(rejudge := TPushed(s.rejudge.i, s.rejudge.id, |s.history.enqueued|))
    case SeeFlag => s.(rejudge := TJudged(s.rejudge.i, s.rejudge.id))
    case UpdateRow(ok) =>
      s.(rejudge := TFinished(s.rejudge.i, s.rejudge.id),
         history := if ok then s.history.(updated := s.history.updated + [s.rejudge.i]) else s.history)
    case DeleteClone => s.(heap := s.heap - {s.rejudge.id}, rejudge := TNext(s.rejudge.i + 1))
    case EndBatch => s.(rejudge := TWaiting)
  }

  // ----- All threads and the clock -----

  datatype Action = Http(http: HttpAction) | Judge(judge: JudgeAction) | Remove(remove: RemoverAction)
                  | Rejudger(rejudge: RejudgeAction) | Tick(ms: nat)

  /** What is assumed of the environment: a query lets go of its pointer within a second, and a submission is
      entered in the finder before time(0) has moved on by 25 since it was queued. */
  predicate Timely(s: State, now: nat) {
    && (forall q :: q in s.queries ==> now < s.queries[q].since + GRACE)
    && (forall id :: id in s.inserting ==> Seconds(now) < s.inserting[id] + EXPIRY)
  }

  predicate Enabled(s: State, a: Action) {
    match a
    case Http(h) => HttpEnabled(s, h)
    case Judge(j) => JudgeEnabled(s, j)
    case Remove(r) => RemoverEnabled(s, r)
    case Rejudger(t) => RejudgeEnabled(s, t)
    case Tick(ms) => Timely(s, s.now + ms)
  }

  function Apply(s: State, a: Action): State
    requires Enabled(s, a)
  {
    match a
    case Http(h) => HttpApply(s, h)
    case Judge(j) => JudgeApply(s, j)
    case Remove(r) => RemoverApply(s, r)
    case Rejudger(t) => RejudgeApply(s, t)
    case Tick(ms) => s.(now := s.now + ms)
  }

  /** The state when the threads start; the clock has passed its first second. */
  predicate Initial(s: State) {
    && Seconds(s.now) >= 1
    && s.heap == map[] && s.open == {} && s.inserting == map[]
    && s.waiting == [] && s.removing == [] && s.finder == map[]
    && !s.rejudging && !s.filled
    && s.judge == JIdle && s.remover == RSleeping(0) && s.rejudge == TWaiting
    && s.queries == map[]
    && s.history.enqueued == [] && s.history.completed == [] && s.history.written == []
    && s.history.leaked == {} && s.history.granted == [] && s.history.updated == []
  }

  predicate ValidRun(s: State, run: seq<Action>)
    decreases |run|
  {
    run != [] ==> Enabled(s, run[0]) && ValidRun(Apply(s, run[0]), run[1..])
  }

  function Exec(s: State, run: seq<Action>): State
    requires ValidRun(s, run)
    decreases |run|
  {
    if run == [] then s else Exec(Apply(s, run[0]), run[1..])
  }

  lemma ConsRun(s: State, a: Action, run: seq<Action>)
    requires Enabled(s, a) && ValidRun(Apply(s, a), run)
    ensures ValidRun(s, [a] + run) && Exec(s, [a] + run) == Exec(Apply(s, a), run)
  {
    hide Enabled, Apply;
    assert ([a] + run)[1..] == run;
  }

  /** The objects a step reads, writes or frees through a pointer. */
  function Touches(s: State, a: Action): set<Id>
    requires Enabled(s, a)
  {
    match a
    case Http(PushSubmit(id)) => {id}
    case Http(InsertFinder(id)) => {id}
    case Http(StartRejudge(id, _)) => {id}
    case Http(StartRejudgeFails(id)) => {id}
    case Http(Close(id)) => {id}
    case Http(Answer(q)) => {s.queries[q].target}
    case Http(_) => {}
    case Judge(Take) => {}
    case Judge(_) => {s.judge.id}
    case Remove(PollEmpty) => {}
    case Remove(PollYoung) => {s.removing[0]}
    case Remove(Expire) => {s.removing[0]}
    case Remove(Delete) => {s.remover.id}
    case Rejudger(Wake) => {}
    case Rejudger(Clone(_)) => {}
    case Rejudger(EndBatch) => {}
    case Rejudger(_) => {s.rejudge.id}
    case Tick(_) => {}
  }
}
