/** Rejudge batches: whose list and whose settings a batch runs with, and what it visits. */
module JobsBatch {
  import opened Jobs

  /** The place in the list the rejudge thread has got to, and how far its row updates reach. */
  function Position(pc: RejudgePc): nat
    requires !pc.TWaiting?
  {
    match pc
    case TNext(i) => i
    case TCloned(i, _) => i
    case TFlagged(i, _) => i
    case TPushed(i, _, _) => i
    case TJudged(i, _) => i
    case TFinished(i, _) => i + 1
  }

  predicate Ascending(xs: seq<nat>, bound: nat) {
    && (forall i, j :: 0 <= i < j < |xs| ==> xs[i] < xs[j])
    && (forall i :: 0 <= i < |xs| ==> xs[i] < bound)
  }

  /** What a wake-up will use, or a running batch is using, and the rows updated so far. */
  ghost predicate Batch(s: State) {
    && (s.filled || !s.rejudge.TWaiting? ==>
          && s.history.granted != []
          && s.list == s.history.granted[|s.history.granted| - 1].list
          && s.init.settings == s.history.lastWinner)
    && (!s.rejudge.TWaiting? ==>
          && Position(s.rejudge) <= |s.list|
          && (s.rejudge.TNext? || s.rejudge.TFinished? || Position(s.rejudge) < |s.list|)
          && Ascending(s.history.updated, Position(s.rejudge)))
  }

  lemma HttpBatch(s: State, a: HttpAction)
    requires Batch(s) && HttpEnabled(s, a)
    ensures Batch(HttpApply(s, a))
  {
  }

  lemma JudgeBatch(s: State, a: JudgeAction)
    requires Batch(s) && JudgeEnabled(s, a)
    ensures Batch(JudgeApply(s, a))
  {
  }

  lemma RemoverBatch(s: State, a: RemoverAction)
    requires Batch(s) && RemoverEnabled(s, a)
    ensures Batch(RemoverApply(s, a))
  {
  }

  lemma RejudgeBatch(s: State, a: RejudgeAction)
    requires Batch(s) && RejudgeEnabled(s, a)
    ensures Batch(RejudgeApply(s, a))
  {
  }

  lemma StepBatch(s: State, a: Action)
    requires Batch(s) && Enabled(s, a)
    ensures Batch(Apply(s, a))
  {
    hide HttpApply, JudgeApply, RemoverApply, RejudgeApply;
    match a
    case Http(h) => HttpBatch(s, h);
    case Judge(j) => JudgeBatch(s, j);
    case Remove(r) => RemoverBatch(s, r);
    case Rejudger(t) => RejudgeBatch(s, t);
    case Tick(_) =>
  }

  lemma {:induction false} RunBatch(s: State, run: seq<Action>)
    requires Batch(s) && ValidRun(s, run)
    ensures Batch(Exec(s, run))
    decreases |run|
  {
    hide Batch, Apply, Enabled;
    if run != [] {
      StepBatch(s, run[0]);
      RunBatch(Apply(s, run[0]), run[1..]);
    }
  }

  /** The request a running batch belongs to: the list and the settings are those of the last granted one. */
  ghost predicate OneRequest(s: State) {
    s.history.granted != [] &&
    Request(s.init.settings, s.list) == s.history.granted[|s.history.granted| - 1]
  }

  /** In every reachable state a batch runs over the list of the last granted request with the settings of the
      last one to win the lock. It belongs to one request exactly if those two have the same settings: a
      request whose list query failed after winning the lock is what can come between. */
  lemma BatchOfOneRequestIff(s: State, run: seq<Action>)
    requires Initial(s) && ValidRun(s, run) && !Exec(s, run).rejudge.TWaiting?
    ensures var t := Exec(s, run);
            var granted := t.history.granted;
            && granted != [] && t.list == granted[|granted| - 1].list && t.init.settings == t.history.lastWinner
            && (OneRequest(t) <==> granted[|granted| - 1].settings == t.history.lastWinner)
  {
    hide Exec, ValidRun;
    RunBatch(s, run);
  }

  /** The last winner was granted. */
  ghost predicate WinnerGranted(s: State) {
    s.history.granted != [] ==> s.history.lastWinner == s.history.granted[|s.history.granted| - 1].settings
  }

  predicate QueryFails(a: Action) {
    a.Http? && a.http.StartRejudgeFails?
  }

  /** Without a failing list query every batch runs with the list and settings of one single request. */
  lemma {:induction false} NoFailureNoMixture(s: State, run: seq<Action>)
    requires WinnerGranted(s) && ValidRun(s, run)
    requires forall a :: a in run ==> !QueryFails(a)
    ensures WinnerGranted(Exec(s, run))
    decreases |run|
  {
    hide WinnerGranted, Apply, Enabled, QueryFails;
    if run != [] {
      assert !QueryFails(run[0]);
      StepWinner(s, run[0]);
      assert forall a :: a in run[1..] ==> a in run;
      NoFailureNoMixture(Apply(s, run[0]), run[1..]);
    }
  }

  lemma StepWinner(s: State, a: Action)
    requires WinnerGranted(s) && Enabled(s, a) && !QueryFails(a)
    ensures WinnerGranted(Apply(s, a))
  {
    hide HttpApply, JudgeApply, RemoverApply, RejudgeApply;
    match a
    case Http(h) => HttpWinner(s, h);
    case Judge(j) => JudgeLeavesBatch(s, j);
    case Remove(r) => RemoverLeavesBatch(s, r);
    case Rejudger(t) => RejudgeLeavesRequests(s, t);
    case Tick(_) =>
  }

  lemma HttpWinner(s: State, a: HttpAction)
    requires WinnerGranted(s) && HttpEnabled(s, a) && !a.StartRejudgeFails?
    ensures WinnerGranted(HttpApply(s, a))
  {
  }

  lemma ReachableOneRequest(s: State, run: seq<Action>)
    requires Initial(s) && ValidRun(s, run) && !Exec(s, run).rejudge.TWaiting?
    requires forall a :: a in run ==> !QueryFails(a)
    ensures OneRequest(Exec(s, run))
  {
    hide Exec, ValidRun, QueryFails;
    NoFailureNoMixture(s, run);
    BatchOfOneRequestIff(s, run);
  }

  /** In every reachable state the places of the rows a batch has updated so far are in list order, each once, and
      behind the thread's position. */
  lemma ReachableUpdates(s: State, run: seq<Action>)
    requires Initial(s) && ValidRun(s, run) && !Exec(s, run).rejudge.TWaiting?
    ensures var t := Exec(s, run);
            && Position(t.rejudge) <= |t.list|
            && Ascending(t.history.updated, Position(t.rejudge))
  {
    hide Exec, ValidRun, Ascending, Position;
    RunBatch(s, run);
  }

  /** While a batch runs its list and settings do not change, its position never moves back, a row update moves it on,
      and only its own wake-up starts the record of updated rows anew. */
  lemma BatchConstant(s: State, a: Action)
    requires Enabled(s, a) && !s.rejudge.TWaiting? && !Apply(s, a).rejudge.TWaiting?
    ensures var t := Apply(s, a);
            && t.list == s.list && t.init == s.init && t.history.granted == s.history.granted
            && Position(s.rejudge) <= Position(t.rejudge) <= Position(s.rejudge) + 1
            && (t.history.updated == s.history.updated ||
                (t.history.updated == s.history.updated + [Position(s.rejudge)] &&
                 Position(t.rejudge) == Position(s.rejudge) + 1))
  {
    hide HttpApply, JudgeApply, RemoverApply, RejudgeApply, Position;
    match a
    case Http(h) => HttpLeavesBatch(s, h);
    case Judge(j) => JudgeLeavesBatch(s, j);
    case Remove(r) => RemoverLeavesBatch(s, r);
    case Rejudger(t) =>
      RejudgeLeavesRequests(s, t);
      RejudgeAdvances(s, t);
    case Tick(_) =>
  }

  lemma RejudgeAdvances(s: State, a: RejudgeAction)
    requires RejudgeEnabled(s, a) && !s.rejudge.TWaiting? && !RejudgeApply(s, a).rejudge.TWaiting?
    ensures var t := RejudgeApply(s, a);
            && Position(s.rejudge) <= Position(t.rejudge) <= Position(s.rejudge) + 1
            && (t.history.updated == s.history.updated ||
                (t.history.updated == s.history.updated + [Position(s.rejudge)] &&
                 Position(t.rejudge) == Position(s.rejudge) + 1))
  {
  }

  lemma HttpLeavesBatch(s: State, a: HttpAction)
    requires HttpEnabled(s, a) && !s.rejudge.TWaiting?
    ensures var t := HttpApply(s, a);
            && t.list == s.list && t.init == s.init && t.rejudge == s.rejudge
            && t.history.granted == s.history.granted && t.history.updated == s.history.updated
  {
  }

  lemma JudgeLeavesBatch(s: State, a: JudgeAction)
    requires JudgeEnabled(s, a)
    ensures var t := JudgeApply(s, a);
            && t.list == s.list && t.init == s.init && t.rejudge == s.rejudge
            && t.history.granted == s.history.granted && t.history.updated == s.history.updated
            && t.history.lastWinner == s.history.lastWinner
  {
  }

  lemma RemoverLeavesBatch(s: State, a: RemoverAction)
    requires RemoverEnabled(s, a)
    ensures var t := RemoverApply(s, a);
            t.list == s.list && t.init == s.init && t.rejudge == s.rejudge && t.history == s.history
  {
  }

  lemma RejudgeLeavesRequests(s: State, a: RejudgeAction)
    requires RejudgeEnabled(s, a)
    ensures var t := RejudgeApply(s, a);
            && t.list == s.list && t.init == s.init
            && t.history.granted == s.history.granted && t.history.lastWinner == s.history.lastWinner
  {
  }

  /** A mixture does happen: a second request that wins the lock before the wake-up and then fails to read its
      list leaves its settings with the first one's list. */
  lemma MixtureExample(s: State, first: Settings, second: Settings, list: seq<nat>) returns (run: seq<Action>)
    requires Initial(s) && first != second
    ensures ValidRun(s, run) && !Exec(s, run).rejudge.TWaiting?
    ensures Exec(s, run).list == list && Exec(s, run).init.settings == second && !OneRequest(Exec(s, run))
  {
    var a1, a2 := Http(Open("a", Rejudge, first)), Http(Open("b", Rejudge, second));
    var a3, a4 := Http(StartRejudge(s.next, list)), Http(StartRejudgeFails(s.next + 1));
    var s1 := Apply(s, a1);
    var s2 := Apply(s1, a2);
    var s3 := Apply(s2, a3);
    var s4 := Apply(s3, a4);
    run := [Rejudger(Wake)];
    assert run[1..] == [];
    ConsRun(s3, a4, run);
    ConsRun(s2, a3, [a4] + run);
    ConsRun(s1, a2, [a3] + ([a4] + run));
    ConsRun(s, a1, [a2] + ([a3] + ([a4] + run)));
    run := [a1] + ([a2] + ([a3] + ([a4] + run)));
  }
}
