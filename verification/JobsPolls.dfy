/** How often the remover looks at one submission before it has expired. */
module JobsPolls {
  import opened Jobs
  import opened JobsInvariants
  import opened JobsTiming
  import opened JobsRuns

  // ----- One sleep -----

  /** While the remover sleeps the other threads leave it, its front and the front's stamp alone. */
  lemma NapKept(s: State, a: Action)
    requires Safe(s) && Enabled(s, a) && !a.Remove? && s.removing != []
    ensures var t := Apply(s, a);
            && t.remover == s.remover && t.now >= s.now
            && t.removing != [] && t.removing[0] == s.removing[0]
            && StampOf(t, s.removing[0]) == StampOf(s, s.removing[0])
  {
    hide Core, Timing, HttpApply, JudgeApply, RejudgeApply;
    assert s.removing[0] in s.removing;
    match a
    case Http(h) => HttpStamps(s, h);
    case Judge(j) => JudgeNapKept(s, j);
    case Rejudger(t) => RejudgeStamps(s, t);
    case Tick(_) => TickStamps(s, a);
  }

  lemma JudgeNapKept(s: State, a: JudgeAction)
    requires Core(s) && JudgeEnabled(s, a) && s.removing != []
    ensures var t := JudgeApply(s, a);
            && t.remover == s.remover && t.now == s.now
            && t.removing != [] && t.removing[0] == s.removing[0]
            && StampOf(t, s.removing[0]) == StampOf(s, s.removing[0])
  {
    hide Core, JudgeApply;
    assert s.removing[0] in s.removing;
    if a.Take? {
      TakeMoves(s);
    } else if a.Release? {
      ReleaseNapKept(s);
    } else {
      JudgingStamps(s, a);
      JudgingFrame(s, a);
    }
  }

  lemma ReleaseNapKept(s: State)
    requires JudgeEnabled(s, Release) && s.removing != []
    ensures var t := JudgeApply(s, Release);
            && t.remover == s.remover && t.now == s.now && t.heap == s.heap
            && t.removing != [] && t.removing[0] == s.removing[0]
  {
  }

  /** The front has been looked at, and the remover sleeps at least until it is w seconds old. */
  ghost predicate AsleepUntil(s: State, id: Id, w: nat) {
    && s.remover.RSleeping? && s.removing != [] && s.removing[0] == id
    && Seconds(s.remover.until) == StampOf(s, id) + w
  }

  /** No stamp is from the future. */
  lemma AgeNotNegative(s: State)
    requires Safe(s) && s.removing != []
    ensures Age(s, s.removing[0]) >= 0
  {
    hide Core, Inserting, Entries, Queried;
    assert Line(s)[0] == s.removing[0];
  }

  /** A front polled at age e is due again at age 2e + 1. */
  lemma PollSleeps(s: State)
    requires Safe(s) && RemoverEnabled(s, PollYoung)
    ensures Age(s, s.removing[0]) >= 0
    ensures AsleepUntil(RemoverApply(s, PollYoung), s.removing[0], 2 * Age(s, s.removing[0]) + 1)
    ensures RemoverApply(s, PollYoung).heap == s.heap
  {
    AgeNotNegative(s);
    hide Safe;
    var e := Age(s, s.removing[0]);
    assert Seconds(s.now + 1000 * (e + 1)) == Seconds(s.now) + e + 1;
  }

  predicate RemoverRests(run: seq<Action>) { forall a :: a in run ==> !a.Remove? }

  lemma {:induction false} RestKeeps(s: State, run: seq<Action>, id: Id, w: nat)
    requires Safe(s) && ValidRun(s, run) && RemoverRests(run) && AsleepUntil(s, id, w)
    ensures AsleepUntil(Exec(s, run), id, w)
    decreases |run|
  {
    hide Safe, Apply, Enabled;
    if run != [] {
      assert run[0] in run;
      NapKept(s, run[0]);
      StepSafe(s, run[0]);
      RestKeeps(Apply(s, run[0]), run[1..], id, w);
    }
  }

  /** Whatever the other threads do meanwhile, when the remover wakes from a poll at age e it finds the same front at
      age 2e + 1 or more; if it wakes on time, at exactly 2e + 1, which is 49 at most. */
  lemma NextPoll(s: State, run: seq<Action>)
    requires Safe(s) && Enabled(s, Remove(PollYoung))
    requires ValidRun(Apply(s, Remove(PollYoung)), run) && RemoverRests(run)
    ensures var e, t := Age(s, s.removing[0]), Exec(Apply(s, Remove(PollYoung)), run);
            && 0 <= e <= 24
            && t.remover.RSleeping? && t.removing != [] && t.removing[0] == s.removing[0]
            && (Awake(t) ==> Age(t, t.removing[0]) >= 2 * e + 1)
            && (t.now == t.remover.until ==> Age(t, t.removing[0]) == 2 * e + 1 <= 49)
  {
    var e := Age(s, s.removing[0]);
    PollSleeps(s);
    StepSafe(s, Remove(PollYoung));
    RestKeeps(Apply(s, Remove(PollYoung)), run, s.removing[0], 2 * e + 1);
    hide Exec, ValidRun, Safe, RemoverApply;
    var t := Exec(Apply(s, Remove(PollYoung)), run);
    assert t.now >= t.remover.until ==> Seconds(t.now) >= Seconds(t.remover.until);
  }

  // ----- Whole runs -----

  /** How often a run looks at an object at the front and finds it too young. */
  function Polls(s: State, run: seq<Action>, id: Id): nat
    requires ValidRun(s, run)
    decreases |run|
  {
    if run == [] then 0
    else
      Polls(Apply(s, run[0]), run[1..], id) + if IsPollOf(s, run[0], id) then 1 else 0
  }

  /** How many polls there can be from age w on, each at least doubling the age. */
  function PollsFrom(w: nat): nat
    decreases EXPIRY - w
  {
    if w >= EXPIRY then 0 else 1 + PollsFrom(w + Nap(w))
  }

  lemma {:induction false} FewerWhenOlder(v: nat, w: nat)
    requires v <= w
    ensures PollsFrom(w) <= PollsFrom(v)
    decreases EXPIRY - v
  {
    if w < EXPIRY { FewerWhenOlder(v + Nap(v), w + Nap(w)); }
  }

  lemma FiveFromZero()
    ensures PollsFrom(0) == 5
  {
    assert PollsFrom(31) == 0;
    assert PollsFrom(15) == 1;
    assert PollsFrom(7) == 2;
    assert PollsFrom(3) == 3;
    assert PollsFrom(1) == 4;
  }

  /** Erased or deleted. */
  predicate Gone(s: State, id: Id) { id < s.next && (id in RemoverHolds(s) || id !in s.heap) }

  lemma GoneIsNotQueued(s: State, id: Id)
    requires Safe(s) && Gone(s, id)
    ensures id !in s.removing && (s.removing != [] ==> s.removing[0] != id)
  {
    hide Timing, Fifo, WrittenOnce, Kinds, Flag;
    assert Owners(s, id) == if id in s.heap then 1 else 0;
  }

  lemma StepGone(s: State, a: Action, id: Id)
    requires Safe(s) && Enabled(s, a) && Gone(s, id)
    ensures Gone(Apply(s, a), id)
  {
    hide Core, Timing, Frame;
    StepSafe(s, a);
    if id !in s.heap {
      StepDead(s, a, id);
    } else if a.Remove? {
    } else {
      hide Apply, Enabled;
      HolderKept(s, a);
    }
  }

  lemma HolderKept(s: State, a: Action)
    requires Safe(s) && Enabled(s, a) && !a.Remove?
    ensures RemoverHolds(Apply(s, a)) == RemoverHolds(s) && Apply(s, a).next >= s.next
  {
    hide Core, Timing, HttpApply, JudgeApply, RejudgeApply;
    StepFrame(s, a);
    match a
    case Http(h) => HttpStamps(s, h);
    case Judge(j) => JudgeMoves(s, j);
    case Rejudger(t) => RejudgeStamps(s, t);
    case Tick(_) => TickStamps(s, a);
  }

  lemma {:induction false} GoneIsNotPolled(s: State, run: seq<Action>, id: Id)
    requires Safe(s) && ValidRun(s, run) && Gone(s, id)
    ensures Polls(s, run, id) == 0
    decreases |run|
  {
    hide Safe, Apply, Gone;
    if run != [] {
      GoneIsNotQueued(s, id);
      StepGone(s, run[0], id);
      StepSafe(s, run[0]);
      GoneIsNotPolled(Apply(s, run[0]), run[1..], id);
    }
  }

  lemma ExpireGone(s: State)
    requires Safe(s) && Enabled(s, Remove(Expire))
    ensures Gone(Apply(s, Remove(Expire)), s.removing[0])
  {
    hide Timing, Fifo, WrittenOnce, Kinds, Flag;
    HeldIsLive(s, s.removing[0]);
  }

  ghost predicate Due(s: State, id: Id, w: nat) { w == 0 || AsleepUntil(s, id, w) }

  /** A front that was looked at and is w seconds old when the remover wakes is looked at no more than PollsFrom(w)
      times again; an object of which nothing is known, no more than PollsFrom(0) times. */
  lemma {:induction false} PollsBounded(s: State, run: seq<Action>, id: Id, w: nat)
    requires Safe(s) && ValidRun(s, run) && Due(s, id, w)
    ensures Polls(s, run, id) <= PollsFrom(w)
    decreases |run|
  {
    if run != [] {
      PollsUnfold(s, run, id);
      var a, t, rest := run[0], Apply(s, run[0]), run[1..];
      hide *;
      StepSafe(s, a);
      if IsPollOf(s, a, id) {
        var w' := PollLeaves(s, a, id, w);
        PollsBounded(t, rest, id, w');
      } else if Gone(t, id) {
        GoneIsNotPolled(t, rest, id);
      } else {
        OtherStep(s, a, id, w);
        PollsBounded(t, rest, id, w);
      }
    }
  }

  predicate IsPollOf(s: State, a: Action, id: Id)
    requires Enabled(s, a)
  {
    a == Remove(PollYoung) && s.removing[0] == id
  }

  lemma PollsUnfold(s: State, run: seq<Action>, id: Id)
    requires ValidRun(s, run) && run != []
    ensures Enabled(s, run[0]) && ValidRun(Apply(s, run[0]), run[1..])
    ensures Polls(s, run, id) ==
            Polls(Apply(s, run[0]), run[1..], id) + if IsPollOf(s, run[0], id) then 1 else 0
  {
    hide Enabled, Apply;
  }

  /** A poll at age e is followed by a sleep until age 2e + 1, and uses up one of the polls that were left. */
  lemma PollLeaves(s: State, a: Action, id: Id, w: nat) returns (w': nat)
    requires Safe(s) && Enabled(s, a) && IsPollOf(s, a, id) && Due(s, id, w)
    ensures Due(Apply(s, a), id, w') && 1 + PollsFrom(w') <= PollsFrom(w)
  {
    PollSleeps(s);
    PollCounts(s, id, w);
    hide Safe, AsleepUntil, PollsFrom, RemoverApply;
    w' := 2 * Age(s, id) + 1;
  }

  /** Any other step leaves the sleep as it is, or erases the object. */
  lemma OtherStep(s: State, a: Action, id: Id, w: nat)
    requires Safe(s) && Enabled(s, a) && Due(s, id, w) && !IsPollOf(s, a, id) && !Gone(Apply(s, a), id)
    ensures Due(Apply(s, a), id, w)
  {
    if w > 0 {
      if a.Remove? {
        if a == Remove(Expire) { ExpireGone(s); }
        hide Safe, Gone;
      } else {
        NapKept(s, a);
        hide Safe, Enabled, Apply, Gone;
      }
    }
  }

  /** A poll at age e uses up one of those that were left. */
  lemma PollCounts(s: State, id: Id, w: nat)
    requires Safe(s) && RemoverEnabled(s, PollYoung) && s.removing[0] == id && Due(s, id, w)
    ensures var e := Age(s, id); e >= 0 && 1 + PollsFrom(2 * e + 1) <= PollsFrom(w)
  {
    AgeNotNegative(s);
    hide Safe;
    var e := Age(s, id);
    assert e >= w;
    FewerWhenOlder(w, e);
  }

  /** In every run of the daemon, however late it wakes, the remover looks at one object at most five times before it
      has expired. */
  lemma PolledAtMostFiveTimes(start: State, run: seq<Action>, id: Id)
    requires Initial(start) && ValidRun(start, run)
    ensures Polls(start, run, id) <= 5
  {
    InitialSafe(start);
    FiveFromZero();
    PollsBounded(start, run, id, 0);
  }

  // ----- The bound is met -----

  /** If nothing else happens and the remover wakes on time, a front of age e is looked at PollsFrom(e) times. */
  lemma PollOnTime(s: State) returns (run: seq<Action>)
    requires Safe(s) && Awake(s) && s.removing != [] && s.queries == map[] && s.inserting == map[]
    ensures ValidRun(s, run) && Age(s, s.removing[0]) >= 0
    ensures Polls(s, run, s.removing[0]) == PollsFrom(Age(s, s.removing[0]))
    decreases EXPIRY - Age(s, s.removing[0])
  {
    AgeNotNegative(s);
    var id := s.removing[0];
    run := [];
    if Age(s, id) < EXPIRY {
      var a, b, u := PollAndSleep(s);
      hide *;
      run := PollOnTime(u);
      var t := Apply(s, a);
      PollsCons(t, b, run, id);
      PollsCons(s, a, [b] + run, id);
      run := [a] + ([b] + run);
    }
  }

  /** A poll, and a sleep that ends on time. */
  lemma PollAndSleep(s: State) returns (a: Action, b: Action, u: State)
    requires Safe(s) && Awake(s) && s.removing != [] && s.queries == map[] && s.inserting == map[]
    requires Age(s, s.removing[0]) < EXPIRY
    ensures Enabled(s, a) && Enabled(Apply(s, a), b) && u == Apply(Apply(s, a), b)
    ensures IsPollOf(s, a, s.removing[0]) && !IsPollOf(Apply(s, a), b, s.removing[0])
    ensures Safe(u) && Awake(u) && u.removing == s.removing && u.queries == map[] && u.inserting == map[]
    ensures 0 <= Age(s, s.removing[0]) < Age(u, s.removing[0])
    ensures PollsFrom(Age(s, s.removing[0])) == 1 + PollsFrom(Age(u, s.removing[0]))
  {
    hide Safe, PollsFrom;
    assert RemoverEnabled(s, PollYoung);
    hide *;
    AgeNotNegative(s);
    var e := Age(s, s.removing[0]);
    a, b := Remove(PollYoung), Tick(1000 * (e + 1));
    SleepsOnTime(s);
    StepSafe(s, a);
    StepSafe(Apply(s, a), b);
    u := Apply(Apply(s, a), b);
    PollsFromUnfold(e);
  }

  /** When nothing is in flight, time can pass until the remover wakes. */
  lemma SleepsOnTime(s: State)
    requires RemoverEnabled(s, PollYoung) && s.queries == map[] && s.inserting == map[]
    requires Age(s, s.removing[0]) >= 0
    ensures var e, t := Age(s, s.removing[0]), Apply(s, Remove(PollYoung));
            && Enabled(s, Remove(PollYoung)) && IsPollOf(s, Remove(PollYoung), s.removing[0])
            && Enabled(t, Tick(1000 * (e + 1))) && !IsPollOf(t, Tick(1000 * (e + 1)), s.removing[0])
            && var u := Apply(t, Tick(1000 * (e + 1)));
               && Awake(u) && u.removing == s.removing && u.queries == map[] && u.inserting == map[]
               && Age(u, s.removing[0]) == 2 * e + 1
  {
    var e := Age(s, s.removing[0]);
    assert Seconds(s.now + 1000 * (e + 1)) == Seconds(s.now) + e + 1;
  }

  lemma PollsFromUnfold(w: nat)
    requires w < EXPIRY
    ensures PollsFrom(w) == 1 + PollsFrom(2 * w + 1)
  {
  }

  lemma PollsCons(s: State, a: Action, run: seq<Action>, id: Id)
    requires Enabled(s, a) && ValidRun(Apply(s, a), run)
    ensures ValidRun(s, [a] + run)
    ensures Polls(s, [a] + run, id) ==
            Polls(Apply(s, a), run, id) + if IsPollOf(s, a, id) then 1 else 0
  {
    hide Enabled, Apply;
    assert ([a] + run)[1..] == run;
  }

  /** What comes before the remover's first step is no poll. */
  lemma {:induction false} RestFirst(s: State, rest: seq<Action>, run: seq<Action>, id: Id)
    requires ValidRun(s, rest) && RemoverRests(rest) && ValidRun(Exec(s, rest), run)
    ensures ValidRun(s, rest + run) && Polls(s, rest + run, id) == Polls(Exec(s, rest), run, id)
    decreases |rest|
  {
    hide Apply, Enabled;
    if rest == [] {
      assert rest + run == run;
    } else {
      assert rest[0] in rest;
      assert (rest + run)[1..] == rest[1..] + run;
      RestFirst(Apply(s, rest[0]), rest[1..], run, id);
    }
  }

  lemma LastStep(s: State, a: Action)
    requires Enabled(s, a)
    ensures ValidRun(s, [a]) && Exec(s, [a]) == Apply(s, a)
  {
    hide Enabled, Apply;
    assert [a][1..] == [];
  }

  lemma FirstStep(s: State, a: Action, run: seq<Action>)
    requires Enabled(s, a) && ValidRun(Apply(s, a), run) && !a.Remove? && RemoverRests(run)
    ensures ValidRun(s, [a] + run) && Exec(s, [a] + run) == Exec(Apply(s, a), run) && RemoverRests([a] + run)
  {
    hide Enabled, Apply;
    assert ([a] + run)[1..] == run;
  }

  /** A submission is accepted. */
  lemma Submitted(start: State, key: string, settings: Settings) returns (run: seq<Action>)
    requires Initial(start)
    ensures ValidRun(start, run) && RemoverRests(run)
    ensures var t, id := Exec(start, run), start.next;
            && t.judge == JIdle && t.waiting == [id] && t.heap == map[id := Solution(key, Normal, settings, 0, [])]
            && t.removing == [] && t.remover == start.remover && t.now == start.now
            && t.queries == map[] && t.inserting == map[]
  {
    var id := start.next;
    var a1, a2, a3 := Http(Open(key, Normal, settings)), Http(PushSubmit(id)), Http(InsertFinder(id));
    var s1 := Apply(start, a1);
    var s2 := Apply(s1, a2);
    assert Apply(s2, a3).inserting == map[];
    LastStep(s2, a3);
    FirstStep(s1, a2, [a3]);
    FirstStep(start, a1, [a2] + [a3]);
    run := [a1] + ([a2] + [a3]);
  }

  /** And is judged at once. */
  lemma JudgedAtOnce(s: State, id: Id) returns (run: seq<Action>)
    requires s.judge == JIdle && s.waiting == [id] && id in s.heap && s.heap[id].kind == Normal && s.removing == []
    requires Awake(s) && s.queries == map[] && s.inserting == map[]
    ensures ValidRun(s, run) && RemoverRests(run)
    ensures var t := Exec(s, run);
            t.removing == [id] && Age(t, id) == 0 && Awake(t) && t.queries == map[] && t.inserting == map[]
  {
    var a1, a2, a3, a4 := Judge(Take), Judge(WriteDatabase), Judge(Stamp), Judge(Release);
    var s1 := Apply(s, a1);
    var s2 := Apply(s1, a2);
    var s3 := Apply(s2, a3);
    LastStep(s3, a4);
    FirstStep(s2, a3, [a4]);
    FirstStep(s1, a2, [a3] + [a4]);
    FirstStep(s, a1, [a2] + ([a3] + [a4]));
    run := [a1] + ([a2] + ([a3] + [a4]));
  }

  /** The bound is met, by a submission that is judged at once and then left alone. */
  lemma FivePolls(start: State, key: string, settings: Settings) returns (run: seq<Action>)
    requires Initial(start)
    ensures ValidRun(start, run) && Polls(start, run, start.next) == 5
  {
    var id := start.next;
    InitialSafe(start);
    assert Awake(start);
    hide Safe, Initial, Apply, Enabled, Exec, ValidRun, Polls, RemoverRests;
    var submitted := Submitted(start, key, settings);
    var s := Exec(start, submitted);
    var judged := JudgedAtOnce(s, id);
    var t := Exec(s, judged);
    RunSafe(start, submitted);
    RunSafe(s, judged);
    var polled := PollOnTime(t);
    FiveFromZero();
    RestFirst(s, judged, polled, id);
    RestFirst(start, submitted, judged + polled, id);
    run := submitted + (judged + polled);
  }
}
