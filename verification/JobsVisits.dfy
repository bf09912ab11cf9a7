/** What a rejudge batch visits, counted from the steps of the rejudge thread. */
module JobsVisits {
  import opened Jobs
  import opened JobsInvariants
  import opened JobsRuns
  import opened JobsBatch

  /** The places of the list at which a run takes clones. */
  function Visits(s: State, run: seq<Action>): seq<nat>
    requires ValidRun(s, run)
    decreases |run|
  {
    if run == [] then []
    else
      (if run[0].Rejudger? && run[0].rejudge.Clone? then [s.rejudge.i] else []) + Visits(Apply(s, run[0]), run[1..])
  }

  /** The places whose row a run updates. */
  function Updates(s: State, run: seq<Action>): seq<nat>
    requires ValidRun(s, run)
    decreases |run|
  {
    if run == [] then []
    else
      (if run[0] == Rejudger(UpdateRow(true)) then [s.rejudge.i] else []) + Updates(Apply(s, run[0]), run[1..])
  }

  /** The places whose row it fails to load or to update. */
  function Skips(s: State, run: seq<Action>): seq<nat>
    requires ValidRun(s, run)
    decreases |run|
  {
    if run == [] then []
    else
      (if run[0] == Rejudger(LoadFails) || run[0] == Rejudger(UpdateRow(false)) then [s.rejudge.i] else []) +
      Skips(Apply(s, run[0]), run[1..])
  }

  /** The numbers from i up to n. */
  function Range(i: nat, n: nat): (r: seq<nat>)
    requires i <= n
    ensures |r| == n - i && forall k :: 0 <= k < n - i ==> r[k] == i + k
    decreases n - i
  {
    if i == n then [] else [i] + Range(i + 1, n)
  }

  /** How many clones a batch has taken, and with how many it is done. */
  function Taken(pc: RejudgePc): nat
    requires !pc.TWaiting?
  {
    if pc.TNext? then pc.i else pc.i + 1
  }

  function Done(pc: RejudgePc): nat
    requires !pc.TWaiting?
  {
    if pc.TFinished? then pc.i + 1 else pc.i
  }

  lemma OthersLeaveThread(s: State, a: Action)
    requires Enabled(s, a) && !a.Rejudger? && !s.rejudge.TWaiting?
    ensures Apply(s, a).rejudge == s.rejudge && Apply(s, a).list == s.list
  {
    hide HttpApply, JudgeApply, RemoverApply;
    match a
    case Http(h) => HttpLeavesBatch(s, h);
    case Judge(j) => JudgeLeavesBatch(s, j);
    case Remove(r) => RemoverLeavesBatch(s, r);
    case Tick(_) =>
  }

  /** One step of a running batch. */
  lemma StepVisits(s: State, a: Action)
    requires Enabled(s, a) && !s.rejudge.TWaiting? && a != Rejudger(EndBatch)
    ensures var t := Apply(s, a);
            && !t.rejudge.TWaiting? && t.list == s.list
            && Taken(t.rejudge) == Taken(s.rejudge) + (if a.Rejudger? && a.rejudge.Clone? then 1 else 0)
            && Done(t.rejudge) == Done(s.rejudge) +
               (if a.Rejudger? && (a.rejudge.UpdateRow? || a.rejudge.LoadFails?) then 1 else 0)
            && (a.Rejudger? && a.rejudge.Clone? ==> s.rejudge.TNext? && s.rejudge.i == Taken(s.rejudge) < |s.list|)
            && (a.Rejudger? && (a.rejudge.UpdateRow? || a.rejudge.LoadFails?) ==>
                  !s.rejudge.TWaiting? && s.rejudge.i == Done(s.rejudge))
  {
    if a.Rejudger? { RejudgeVisits(s, a.rejudge); } else { hide Apply, Enabled; OthersLeaveThread(s, a); }
  }

  lemma RejudgeVisits(s: State, a: RejudgeAction)
    requires RejudgeEnabled(s, a) && !s.rejudge.TWaiting? && a != EndBatch
    ensures var t := RejudgeApply(s, a);
            && !t.rejudge.TWaiting? && t.list == s.list
            && Taken(t.rejudge) == Taken(s.rejudge) + (if a.Clone? then 1 else 0)
            && Done(t.rejudge) == Done(s.rejudge) + (if a.UpdateRow? || a.LoadFails? then 1 else 0)
            && (a.Clone? ==> s.rejudge.TNext? && s.rejudge.i == Taken(s.rejudge) < |s.list|)
            && (a.UpdateRow? || a.LoadFails? ==> !s.rejudge.TWaiting? && s.rejudge.i == Done(s.rejudge))
  {
  }

  /** Ascending places, from i up to n. */
  predicate Between(xs: seq<nat>, i: nat, n: nat) {
    && (forall j, k :: 0 <= j < k < |xs| ==> xs[j] < xs[k])
    && (forall j :: 0 <= j < |xs| ==> i <= xs[j] < n)
  }

  lemma {:induction false} StillRunning(s: State, run: seq<Action>)
    requires ValidRun(s, run) && !s.rejudge.TWaiting? && Rejudger(EndBatch) !in run
    ensures var t := Exec(s, run);
            && !t.rejudge.TWaiting? && t.list == s.list
            && Taken(s.rejudge) <= Taken(t.rejudge) && Done(s.rejudge) <= Done(t.rejudge)
    decreases |run|
  {
    hide Apply, Enabled, Taken, Done;
    if run != [] {
      assert run[0] in run;
      StepVisits(s, run[0]);
      StillRunning(Apply(s, run[0]), run[1..]);
    }
  }

  /** Over any part of a batch the places are visited in turn. */
  lemma {:induction false} PartVisits(s: State, run: seq<Action>)
    requires ValidRun(s, run) && !s.rejudge.TWaiting? && Rejudger(EndBatch) !in run
    ensures var t := Exec(s, run);
            && !t.rejudge.TWaiting? && Taken(s.rejudge) <= Taken(t.rejudge)
            && Visits(s, run) == Range(Taken(s.rejudge), Taken(t.rejudge))
    decreases |run|
  {
    hide Apply, Enabled, Taken, Done;
    StillRunning(s, run);
    if run != [] {
      assert run[0] in run;
      StepVisits(s, run[0]);
      StillRunning(Apply(s, run[0]), run[1..]);
      PartVisits(Apply(s, run[0]), run[1..]);
    }
  }

  /** And done with in turn, updated or not. */
  lemma {:induction false} PartOutcomes(s: State, run: seq<Action>)
    requires ValidRun(s, run) && !s.rejudge.TWaiting? && Rejudger(EndBatch) !in run
    ensures var t := Exec(s, run);
            && !t.rejudge.TWaiting? && Done(s.rejudge) <= Done(t.rejudge)
            && Splits(Updates(s, run), Skips(s, run), Done(s.rejudge), Done(t.rejudge))
    decreases |run|
  {
    hide Apply, Enabled, Taken, Done, Range, Splits;
    StillRunning(s, run);
    if run == [] {
      NothingSplits(Done(s.rejudge));
    } else {
      assert run[0] in run;
      StepVisits(s, run[0]);
      StillRunning(Apply(s, run[0]), run[1..]);
      PartOutcomes(Apply(s, run[0]), run[1..]);
      SplitsMore(Updates(Apply(s, run[0]), run[1..]), Skips(Apply(s, run[0]), run[1..]), Done(s.rejudge),
                 Done(Exec(s, run).rejudge));
    }
  }

  /** Each place from i up to n is in exactly one of two ascending sequences. */
  ghost predicate Splits(xs: seq<nat>, ys: seq<nat>, i: nat, n: nat)
    requires i <= n
  {
    Between(xs, i, n) && Between(ys, i, n) && forall k: nat :: i <= k < n ==> (k in xs <==> k !in ys)
  }

  lemma NothingSplits(i: nat)
    ensures Splits([], [], i, i)
  {
  }

  lemma SplitsMore(xs: seq<nat>, ys: seq<nat>, i: nat, n: nat)
    ensures i < n && Splits(xs, ys, i + 1, n) ==> Splits([i] + xs, ys, i, n) && Splits(xs, [i] + ys, i, n)
    ensures [] + xs == xs && [] + ys == ys
  {
    hide Splits;
    if i < n && Splits(xs, ys, i + 1, n) {
      AddFirst(xs, ys, i, n);
      SplitsSwap(xs, ys, i + 1, n);
      AddFirst(ys, xs, i, n);
      SplitsSwap([i] + ys, xs, i, n);
    }
  }

  lemma SplitsSwap(xs: seq<nat>, ys: seq<nat>, i: nat, n: nat)
    requires i <= n && Splits(xs, ys, i, n)
    ensures Splits(ys, xs, i, n)
  {
    hide Between;
  }

  lemma AddFirst(xs: seq<nat>, ys: seq<nat>, i: nat, n: nat)
    requires i < n && Splits(xs, ys, i + 1, n)
    ensures Splits([i] + xs, ys, i, n)
  {
    BetweenMore(xs, i, n);
    BetweenMore(ys, i, n);
    assert i !in ys;
    hide Between;
    assert forall k: nat :: k in [i] + xs <==> k == i || k in xs;
  }

  lemma BetweenMore(xs: seq<nat>, i: nat, n: nat)
    requires i < n && Between(xs, i + 1, n)
    ensures Between(xs, i, n) && Between([i] + xs, i, n)
  {
    assert forall j :: 1 <= j < |xs| + 1 ==> ([i] + xs)[j] == xs[j - 1];
  }

  /** A batch, from the wake-up to its end, whatever the other threads do meanwhile: it takes one clone for each place
      of the list it woke up with, in the order of the list, and each place ends up either in the row updates or in the
      failures, each in the order of the list. */
  lemma BatchVisitsAll(start: State, before: seq<Action>, batch: seq<Action>)
    requires Initial(start) && ValidRun(start, before) && Enabled(Exec(start, before), Rejudger(Wake))
    requires ValidRun(Apply(Exec(start, before), Rejudger(Wake)), batch) && Rejudger(EndBatch) !in batch
    requires Enabled(Exec(Apply(Exec(start, before), Rejudger(Wake)), batch), Rejudger(EndBatch))
    ensures var n, woken := |Exec(start, before).list|, Apply(Exec(start, before), Rejudger(Wake));
            && Exec(woken, batch).list == Exec(start, before).list
            && |Visits(woken, batch)| == n && (forall k :: 0 <= k < n ==> Visits(woken, batch)[k] == k)
            && Splits(Updates(woken, batch), Skips(woken, batch), 0, n)
  {
    var woken := Apply(Exec(start, before), Rejudger(Wake));
    RunBatch(start, before);
    WakeStarts(Exec(start, before));
    hide Exec, ValidRun, Splits, Visits, Updates, Skips, Apply;
    RunBatch(woken, batch);
    StillRunning(woken, batch);
    PartVisits(woken, batch);
    PartOutcomes(woken, batch);
  }

  lemma WakeStarts(s: State)
    requires Batch(s) && Enabled(s, Rejudger(Wake))
    ensures var t := Apply(s, Rejudger(Wake));
            Batch(t) && t.list == s.list && !t.rejudge.TWaiting? && Taken(t.rejudge) == Done(t.rejudge) == 0
  {
  }

  /** Without a failure every row is updated, in the order of the list. */
  lemma BatchUpdatesAll(start: State, before: seq<Action>, batch: seq<Action>)
    requires Initial(start) && ValidRun(start, before) && Enabled(Exec(start, before), Rejudger(Wake))
    requires ValidRun(Apply(Exec(start, before), Rejudger(Wake)), batch) && Rejudger(EndBatch) !in batch
    requires Enabled(Exec(Apply(Exec(start, before), Rejudger(Wake)), batch), Rejudger(EndBatch))
    requires Rejudger(LoadFails) !in batch && Rejudger(UpdateRow(false)) !in batch
    ensures var n, woken := |Exec(start, before).list|, Apply(Exec(start, before), Rejudger(Wake));
            |Updates(woken, batch)| == n && forall k :: 0 <= k < n ==> Updates(woken, batch)[k] == k
  {
    hide Exec, ValidRun, Visits, Updates, Skips, Apply, Enabled;
    var n, woken := |Exec(start, before).list|, Apply(Exec(start, before), Rejudger(Wake));
    BatchVisitsAll(start, before, batch);
    NoSkips(woken, batch);
    OnlyRange(Updates(woken, batch), n);
  }

  lemma {:induction false} NoSkips(s: State, run: seq<Action>)
    requires ValidRun(s, run) && Rejudger(LoadFails) !in run && Rejudger(UpdateRow(false)) !in run
    ensures Skips(s, run) == []
    decreases |run|
  {
    hide Apply, Enabled;
    if run != [] {
      assert run[0] in run;
      NoSkips(Apply(s, run[0]), run[1..]);
    }
  }

  /** The only ascending sequence of all numbers below n. */
  lemma {:induction false} OnlyRange(xs: seq<nat>, n: nat)
    requires Between(xs, 0, n) && forall k: nat :: k < n ==> k in xs
    ensures |xs| == n && forall k :: 0 <= k < n ==> xs[k] == k
  {
    assert xs == [] || 0 <= xs[0] < n;
    if n > 0 {
      var last: nat := n - 1;
      assert last in xs;
      assert xs[|xs| - 1] == last;
      var front := xs[..|xs| - 1];
      assert xs == front + [last];
      forall k: nat | k < last ensures k in front {
        assert k in xs;
      }
      OnlyRange(front, last);
    }
  }

  // ----- One batch for each granted request -----

  predicate Grants(a: Action) { a.Http? && a.http.StartRejudge? }

  /** Whether a request has been granted since the last wake-up. */
  function Owed(before: bool, run: seq<Action>): bool
    decreases |run|
  {
    if run == [] then before
    else Owed(if Grants(run[0]) then true else if run[0] == Rejudger(Wake) then false else before, run[1..])
  }

  function GrantsIn(run: seq<Action>): nat {
    if run == [] then 0 else (if Grants(run[0]) then 1 else 0) + GrantsIn(run[1..])
  }

  function WakesIn(run: seq<Action>): nat {
    if run == [] then 0 else (if run[0] == Rejudger(Wake) then 1 else 0) + WakesIn(run[1..])
  }

  lemma StepOwed(s: State, a: Action)
    requires Enabled(s, a)
    ensures Apply(s, a).filled == if Grants(a) then true else if a == Rejudger(Wake) then false else s.filled
    ensures a == Rejudger(Wake) ==> s.filled
  {
    hide HttpApply, JudgeApply, RemoverApply, RejudgeApply, HttpEnabled, JudgeEnabled, RemoverEnabled, Timely;
    match a
    case Http(h) => HttpOwed(s, h);
    case Judge(j) => JudgeOwed(s, j);
    case Remove(r) => RemoverOwed(s, r);
    case Rejudger(t) => RejudgeOwed(s, t);
    case Tick(_) =>
  }

  lemma HttpOwed(s: State, a: HttpAction)
    requires HttpEnabled(s, a)
    ensures HttpApply(s, a).filled == (a.StartRejudge? || s.filled)
  {
  }

  lemma JudgeOwed(s: State, a: JudgeAction)
    requires JudgeEnabled(s, a)
    ensures JudgeApply(s, a).filled == s.filled
  {
  }

  lemma RemoverOwed(s: State, a: RemoverAction)
    requires RemoverEnabled(s, a)
    ensures RemoverApply(s, a).filled == s.filled
  {
  }

  lemma RejudgeOwed(s: State, a: RejudgeAction)
    requires RejudgeEnabled(s, a)
    ensures RejudgeApply(s, a).filled == (s.filled && a != Wake) && (a == Wake ==> s.filled)
  {
  }

  /** Waking up is due exactly while a request has been granted since the last wake-up. So no granted request is
      forgotten, and none makes a second batch. */
  lemma {:induction false} BatchesFollowGrants(s: State, run: seq<Action>)
    requires ValidRun(s, run)
    ensures Exec(s, run).filled == Owed(s.filled, run)
    ensures WakesIn(run) + (if Exec(s, run).filled then 1 else 0) <= GrantsIn(run) + if s.filled then 1 else 0
    decreases |run|
  {
    hide Apply, Enabled, Grants;
    if run != [] {
      StepOwed(s, run[0]);
      BatchesFollowGrants(Apply(s, run[0]), run[1..]);
    }
  }

  // ----- What an updated row is updated from -----

  /** The clone whose row is about to be updated is through the judge's hands. */
  ghost predicate CloneCompleted(s: State) {
    s.rejudge.TJudged? ==> s.rejudge.id in s.history.completed
  }

  lemma StepCompleted(s: State, a: Action)
    requires Safe(s) && CloneCompleted(s) && Enabled(s, a)
    ensures CloneCompleted(Apply(s, a))
  {
    hide Safe, HttpApply, JudgeApply, RemoverApply, RejudgeApply, HttpEnabled, JudgeEnabled, RemoverEnabled,
      RejudgeEnabled;
    match a
    case Http(h) => HttpRank(s, h);
    case Judge(j) => JudgeRank(s, j);
    case Remove(r) => RemoverRank(s, r);
    case Rejudger(t) => RejudgeCompleted(s, t);
    case Tick(_) =>
  }

  lemma RejudgeCompleted(s: State, a: RejudgeAction)
    requires Safe(s) && CloneCompleted(s) && RejudgeEnabled(s, a)
    ensures CloneCompleted(RejudgeApply(s, a))
  {
    hide Safe;
    if a.SeeFlag? { SeenIsCompleted(s); }
  }

  lemma SeenIsCompleted(s: State)
    requires Safe(s) && RejudgeEnabled(s, SeeFlag)
    ensures s.rejudge.id in s.history.completed
  {
    var h, pos := s.history, s.rejudge.pos;
    assert h.enqueued[pos] == s.rejudge.id && pos < |h.completed|;
    assert h.enqueued[pos] == h.completed[pos];
  }

  lemma {:induction false} RunCompleted(s: State, run: seq<Action>)
    requires Safe(s) && CloneCompleted(s) && ValidRun(s, run)
    ensures CloneCompleted(Exec(s, run))
    decreases |run|
  {
    hide Safe, CloneCompleted, Apply, Enabled;
    if run != [] {
      StepSafe(s, run[0]);
      StepCompleted(s, run[0]);
      RunCompleted(Apply(s, run[0]), run[1..]);
    }
  }

  /** In every run a row is updated only after the judge is through with its clone. */
  lemma UpdateFollowsJudging(start: State, run: seq<Action>, ok: bool)
    requires Initial(start) && ValidRun(start, run) && Enabled(Exec(start, run), Rejudger(UpdateRow(ok)))
    ensures Exec(start, run).rejudge.id in Exec(start, run).history.completed
  {
    InitialSafe(start);
    UpdateHasClone(Exec(start, run), ok);
    assert CloneCompleted(start);
    hide Safe, Exec, ValidRun, Initial, Enabled;
    RunCompleted(start, run);
  }

  lemma UpdateHasClone(s: State, ok: bool)
    requires Enabled(s, Rejudger(UpdateRow(ok)))
    ensures s.rejudge.TJudged?
  {
  }
}
