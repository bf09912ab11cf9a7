# cwoj_daemon: a verified model

cwoj_daemon is the judging daemon of an online judge. It takes submissions and rejudge requests over HTTP, runs
them one after the other, compares their output with the answer files, keeps a scoreboard in a database and lets
clients poll for the result. This project models its core in Dafny and proves what that core keeps over every run,
every interleaving and every input.

| part | modules | what is modelled |
|---|---|---|
| scoreboard | `Totals`, `Scoreboard`, `ScoreboardSubmit`, `ScoreboardRuns`, `ScoreboardRefresh`, `ScoreboardSessions`, `ScoreboardMessages`, `ScoreboardRows`, `Database` | the tables as values, each SQL statement as one step that may be the last to succeed; the functions of `database.cpp` as methods of a connection, proved equal to these steps |
| job lifecycle | `Jobs`, `JobsInvariants`, `JobsTiming`, `JobsRuns`, `JobsBatch`, `JobsVisits`, `JobsDetails`, `JobsStories`, `JobsPolls`, `JobsTurns`, `Manager` | HTTP threads, judge, remover and rejudge thread as interleaved atomic steps over a heap of solution objects, two queues, the finder, the flags and a clock; the critical sections of `manager.cpp` as methods, proved to be these steps and to keep every state safe, and the turns of its loops as runs of them |
| validators | `CFile`, `Texts`, `LineValidator`, `LineVerdicts`, `CenaValidator`, `CenaNormalForm`, `ValidatorRefinement` | the cursor-walking comparison loops over byte files, and what equality they decide |
| scoring | `Scoring`, `CaseVerdicts` | the loop over the test cases, what decides each of them, and the final score in exact arithmetic |
| report | `CStrings`, `JsonBuilder`, `JsonUtf8`, `Encodings`, `Answers` | the escaping buffer, the report text, a reader for it, and what a polling client reads over time |
| configuration | `EnvExpansion`, `IniFile`, `IniLines`, `IniOutcomes`, `IniParser` | reading and writing INI files with environment references, and which files cannot be read |

`Wrappers` holds the option type and `Prefixes` the part of a sequence before a stopping element.
`dafny verify dfyconfig.toml` checks everything.

## Where the code does something else than it seems meant to do

* `trip` (`src/daemon/validator.cpp:132-142`) steps back over one more byte before it looks whether the start of the
  line is reached, so a line that trims to exactly two bytes is compared by its first byte only: 42 and 43 pass as
  equal. An answer file is judged as intended against every output exactly if each of its compared lines trims to at
  least three bytes (`LineVerdicts.AnswerFileSafeIff`): for every shorter line there is an output that passes wrongly.
  Under the same condition, and no other, everything it accepts is accepted by the normalising comparison
  (`ValidatorRefinement.RefinementIff`).
* The user update of a submit joins a subquery on the level table (`src/daemon/database.cpp:191`). If the problem's
  level has no row there, the join is empty and the user's counters are not touched at all, although the
  `IFNULL` suggests that only the experience should be missing. `ScoreboardSubmit.SubmitConsistentIff` is exact about
  it.
* A refresh updates a user's solved count and experience only through joins with accepted rows
  (`src/daemon/database.cpp:271-277`). A user whose last accepted row was taken away by a rejudge keeps the old values;
  `ScoreboardRefresh.RefreshedUser` says exactly when the values are right, `ScoreboardSessions.StaleSolved` is an
  example.
* A refresh marks every accepted row of the problem as `valid` (`src/daemon/database.cpp:296`), a submit only the first
  one of each user. `ScoreboardRefresh.RefreshMarksFirstOnlyIff` says when the two agree.
* A rejudge request overwrites the shared settings before its list query can fail (`src/daemon/manager.cpp:265-266`), so
  a batch can run over the list of one request with the settings of another. `JobsBatch.BatchOfOneRequestIff` and
  `JobsBatch.MixtureExample` show when. The refresh at its end is then of the other problem
  (`src/daemon/manager.cpp:252`), and the counters of the rejudged one stay as they were
  (`ScoreboardSessions.MixedBatch`, with `ScoreboardSessions.StaleProblem` as an example).
* The message of a compile error is written before its row (`src/daemon/database.cpp:153-165`). If the write stops
  between the two, the next submission gets the same id and with it a message that is not its own
  (`ScoreboardMessages.MessagesExactIff`, `ScoreboardMessages.StrayIsMisread`). A rejudge does not touch the messages at
  all (`ScoreboardMessages.RejudgeMessagesIff`).
* Nothing checks that the key of a submission is not in use (`src/daemon/manager.cpp:298`). An insertion under the key
  of a submission that can still be found makes that one unfindable; short of that, everything stays findable
  (`JobsRuns.ReachableFindableIff`, `JobsRuns.ReusedKeyLoses`, `JobsRuns.ReusedKeyExample`).
* With 200 test cases or more a solution that fails a case can be shown with the full score
  (`Scoring.FullMeansAcceptIff`), without being counted as accepted.
* A text with a NUL byte loses its closing quote in the report (`JsonBuilder.NulCutsTheLiteral`), which then is not
  JSON any more.
* The normalising comparison reads bytes into a `char` and takes 255 for the end of the file, so nothing behind that
  byte counts (`CenaNormalForm.EndsAtFF`).
* The INI reader drops the last visible character of a header whatever it is, and takes the first word of the rest, so
  `[a b)` opens section `a` (`IniLines.HeaderOpens`).
* In the INI reader `$()` does not close the reference, and an unclosed reference swallows the rest of the value.
* A line of 512 bytes or more puts the INI reader's stream into a failed state that is not its end, and the loop goes on
  for ever. A header with nothing behind its bracket, and a key before the first header, are undefined behaviour.
  `IniOutcomes.OutcomeIff` says exactly which files are read, which are never finished and which are undefined;
  `IniOutcomes.LongLineSticks` and `IniOutcomes.UndefinedLines` are examples.

## Model

| member | source | states |
|---|---|---|
| Scoreboard.NextId | src/daemon/database.cpp:66-88 | the new id is one more than the largest in use, 1000 if there is none, so ids identify rows and the `solution_id<%d` test finds all earlier tries |
| Database.Connection.GetNextSolutionId | src/daemon/database.cpp:66-88 | the method computes that number from the stored rows, in both cases |
| Scoreboard.MaxScore | src/daemon/database.cpp:131-146 | NULL exactly if the user has no row for the problem, else attained and an upper bound |
| Scoreboard.ProblemsSolved | src/daemon/database.cpp:271 | the recomputed set holds exactly the problems with an accepted row |
| Scoreboard.Solvers | src/daemon/database.cpp:287 | the recomputed set holds exactly the users with an accepted row for the problem |
| Scoreboard.BestScores | src/daemon/database.cpp:282 | the grouped maximum has an entry exactly for the problems with rows, and it is the best score |
| Database.Connection.WriteResultToDatabase | src/daemon/database.cpp:123-208 | the write that stops after any number of its five statements leaves exactly the prefix of the statement sequence, and returns normally exactly if all five ran |
| Database.Connection.InsertRows | src/daemon/database.cpp:153-186 | the three inserts in order, up to the one that fails |
| Database.Connection.UpdateUserInfo | src/daemon/database.cpp:188-194 | the joined update of one user, which touches nobody when the level row is missing |
| Database.Connection.UpdateProblemInfo | src/daemon/database.cpp:198-205 | the four problem counters move by the right increments, the first-try test included |
| Database.Connection.WriteDatabase | src/daemon/judge.cpp:382-388 | a submission without user name writes nothing and throws; if nothing fails, consistent tables stay consistent if and only if the submission is scorable |
| Database.Connection.UpdateExistSolutionInfo | src/daemon/database.cpp:242-251 | in the row with the id time, memory, result and score become the new ones; its other columns, all other rows and all other tables stay |
| Database.Connection.RefreshUsersProblem | src/daemon/database.cpp:263-299 | the six refresh statements, up to the one that fails; if none fails, every user's score is the recomputed one and the marked rows of the problem are its accepted ones |
| Database.Connection.GetSolutionList | src/daemon/database.cpp:300-317 | the ids of the problem's rows that are not malicious, in table order |
| ScoreboardSubmit.UserTruth | src/daemon/database.cpp:188-194 | how each recomputed value of a user changes with one more row |
| ScoreboardSubmit.ProblemTruth | src/daemon/database.cpp:198-205 | how each recomputed value of a problem changes with one more row |
| ScoreboardSubmit.FirstTry | src/daemon/database.cpp:106-121 | the id test after the insert recognises a first try exactly if the user had no row for the problem |
| ScoreboardSubmit.ValidAppend | src/daemon/database.cpp:167-171 | marking the new row as the insert does keeps `valid` at exactly the first accepted row of each user and problem |
| ScoreboardSubmit.SubmitConsistentIff | src/daemon/database.cpp:123-208 | one complete write keeps every counter and every `valid` mark equal to its recomputation if and only if the user is unknown to the table, or the level has a row and the score is not a negative first one |
| ScoreboardSubmit.SettledSubmit | src/daemon/database.cpp:149-203 | behind an accepted row with full score a further write changes nobody's score, solved or experience and no problem's solved or submit_user |
| ScoreboardRuns.SubmitRunConsistent | src/daemon/database.cpp:123-208 | after every run of complete submits all kept aggregates equal their recomputation from the rows |
| ScoreboardRuns.SolvedTotalsAgree | src/daemon/database.cpp:189-203 | over every run the two `solved` columns have the same sum |
| ScoreboardRuns.RowsJudged | src/daemon/judge.cpp:359-376 | in runs of judged submits every accepted row has score 100 and every score is within 0..100 |
| ScoreboardRuns.AcceptedIsSettled | src/daemon/database.cpp:128-203 | in such runs an accepted problem is settled for its user |
| ScoreboardRuns.TotalsStep | src/daemon/database.cpp:153-207 | how far a stopped write moves the four column sums, statement by statement |
| ScoreboardRuns.StoppedRunBounded | src/daemon/database.cpp:153-207 | over every run of submits with non-negative scores that may each stop after any statement, no user or problem counter exceeds its recomputed value |
| ScoreboardRuns.StoppedRunOrdered | src/daemon/database.cpp:153-207 | over every run of submits by listed users to listed problems that may each stop after any statement: rows >= sources >= total user submits >= total problem submits, and user solved total >= problem solved total |
| ScoreboardRefresh.RefreshRows | src/daemon/database.cpp:292-298 | a refresh stopped anywhere changes no row beyond its mark |
| ScoreboardRefresh.MixedRunSteady | src/daemon/database.cpp:242-299 | over every mixture of submits, rejudge updates and refreshes stopped anywhere, the submit counters stay exact and the accepted counters are exact for every problem without a rejudged row since its last refresh |
| ScoreboardRefresh.RefreshedUser | src/daemon/database.cpp:269-284 | after a refresh a user's score is right, and solved and experience are each right if and only if there is an accepted row to join or the stored value was zero |
| ScoreboardRefresh.RefreshRestores | src/daemon/database.cpp:263-290 | a finished refresh after any such run restores the score of all users, solved and experience of exactly the users it can join or that stood at zero, and all counters of every problem that no other rejudge left stale |
| ScoreboardRefresh.ListedIdStays | src/daemon/database.cpp:300-317 | an id from the rejudge list still belongs to the problem at any later time |
| ScoreboardRefresh.RejudgeDirtiesOnlyItsProblem | src/daemon/manager.cpp:219-252 | a rejudge of the list disturbs the counters of no other problem, whatever submits come between |
| ScoreboardRefresh.RefreshRestoresUsers | src/daemon/database.cpp:269-284 | a finished refresh of any problem, after any such run, leaves every user's submit count and score right, and solved and experience right for each user with an accepted row to join |
| ScoreboardRefresh.RejudgeSessionRestores | src/daemon/manager.cpp:212-259 | a rejudge session interleaved with submits, closed by the refresh, restores that for every user and every counter of every problem, and leaves what the next session starts from, however rows are marked |
| ScoreboardSessions.SessionsRestore | src/daemon/manager.cpp:212-259 | so after any number of sessions, over the same or different problems with submits before and during each, everything is restored |
| ScoreboardSessions.AcceptedBySubmits | src/daemon/database.cpp:196-207 | until a refresh of the problem its accepted and solved counters move by its accepted submits and first solves alone, whatever is rejudged |
| ScoreboardSessions.MixedBatch | src/daemon/manager.cpp:250-256 | a session over the list of one problem closed by the refresh of another restores all users and all other problems, leaves the rejudged one's accepted counters at what the submits made them, and these are right if and only if the rejudged rows left the true numbers there |
| ScoreboardSessions.StaleSolved | src/daemon/database.cpp:269-279 | a run from empty tables after whose refresh a user has a solved problem and its experience without an accepted row |
| ScoreboardSessions.StaleProblem | src/daemon/manager.cpp:250-256 | and one after whose refresh of another problem a problem has a solver it does not have |
| ScoreboardMessages.MessagesExactIff | src/daemon/database.cpp:153-178 | over every run of submits and refreshes stopped anywhere, the compile messages belong to the compile-error rows, one to each, if and only if no compile-error write stops right after its first statement |
| ScoreboardMessages.StrayIsMisread | src/daemon/database.cpp:153-178 | the message such a write leaves is found under the id of the next submission, whoever makes it |
| ScoreboardMessages.RejudgeMessagesIff | src/daemon/database.cpp:242-251 | a rejudge keeps the messages right if and only if it moves no row into the compile errors or out of them |
| ScoreboardRows.RowsAreSubmissions | src/daemon/database.cpp:166-251 | over every run of submits, rejudge updates and refreshes stopped anywhere, the rows are the submissions that got as far as their row, numbered from 1000 in their order; every column is what was submitted, and time, memory, result and score what was measured last |
| ScoreboardRows.SourcesAreSubmitted | src/daemon/database.cpp:179-186 | over every such run a row has a source exactly if its write got as far, and it is the submitted one |
| ScoreboardRows.RejudgedColumns | src/daemon/database.cpp:246-247 | which columns of which rows the update writes, and that it writes nothing else |
| ScoreboardRows.RejudgeRescores | src/daemon/database.cpp:242-290 | after a rejudge of one row and a finished refresh the user's best score for the problem is the larger of the rejudged score and those of the user's other rows for it, the user's score has moved by the difference, and nobody else's has |
| ScoreboardRows.ListIsRising | src/daemon/database.cpp:300-317 | over rows numbered in their order the rejudge list holds exactly the problem's ids that are not malicious, each once and rising |
| ScoreboardRefresh.RefreshMarksAllAccepted | src/daemon/database.cpp:292-298 | after a refresh a row of the problem is marked exactly if it is accepted, and the marks of other problems are as before |
| ScoreboardRefresh.RefreshMarksFirstOnlyIff | src/daemon/database.cpp:292-298 | these marks are those of the submit path if and only if no user has two accepted rows for the problem |
| JobsInvariants.StepCore | src/daemon/manager.cpp:116-310 | every step of every thread keeps: one owner per live object, queue order, no second database write, which kinds of objects may be where, and the meaning of the rejudge flag |
| JobsTiming.StepTimes | src/daemon/manager.cpp:116-155 | every step keeps the removing queue sorted by time stamp with no stamp from the future |
| JobsTiming.StepInserting | src/daemon/manager.cpp:285-300 | every step keeps a submission that is not yet in the finder alive and not erased |
| JobsTiming.StepEntries | src/daemon/manager.cpp:141-153 | every step keeps all finder entries live, also when keys repeat |
| JobsTiming.StepQueried | src/daemon/manager.cpp:81-106 | every step keeps the target of every query in flight alive |
| JobsRuns.ReachableOwnership | src/daemon/manager.cpp:157-310 | in every reachable state each live object has exactly one owner among connection, waiting queue, judge, removing queue, remover and rejudge thread, nothing dead is owned, and only objects of an unknown kind are lost |
| JobsRuns.ReachableNoDangling | src/daemon/manager.cpp:81-155 | in no reachable state does any enabled step of any thread touch a deleted object |
| JobsRuns.OnlyTouchedMatters | src/daemon/manager.cpp:81-310 | the objects a step is said to touch are all it looks at: with any other object changed it is enabled as before, does the same and leaves the change alone |
| JobsRuns.DeletedOnce | src/daemon/manager.cpp:153-248 | what one step deletes no later step deletes again |
| JobsRuns.ReachableFifo | src/daemon/manager.cpp:157-209 | judged, current and waiting together are the queue history in order; nothing is queued, judged or written twice |
| JobsRuns.FlagMeansPending | src/daemon/manager.cpp:203-240 | while the rejudge thread waits, the flag is up exactly if its clone is queued or being judged, and no other rejudge object is |
| JobsRuns.PushRank | src/daemon/manager.cpp:232-240 | a clone queued behind m outstanding jobs has m+1 completions to wait for |
| JobsRuns.RankStep | src/daemon/manager.cpp:203-240 | each completion lowers that number by one, no other step moves it, and the flag is up exactly while it is positive |
| JobsRuns.RankFalls | src/daemon/manager.cpp:203-240 | over every run until the flag is seen, that number is what it was less the completions, and the flag is up exactly while it is positive |
| JobsRuns.FlagClearsAfter | src/daemon/manager.cpp:203-240 | after a clone is queued behind m jobs, whatever the threads do, the flag is up exactly until m+1 jobs are completed |
| JobsRuns.ReachableFindableIff | src/daemon/manager.cpp:81-94 | throughout a run from the start every accepted submission is found under its key, from its insertion until it is erased, if and only if no insertion takes the key of one that can be found |
| JobsRuns.ReachableFindable | src/daemon/manager.cpp:285-300 | that is so if no submission is queued under the key of a live one |
| JobsRuns.ReusedKeyLoses | src/daemon/manager.cpp:296-299 | after the insertion under a key in use, queries for the earlier submission get the later one |
| JobsRuns.ReusedKeyExample | src/daemon/manager.cpp:285-300 | a run from every start after which two submissions under one key wait and only the later one is found |
| JobsBatch.BatchOfOneRequestIff | src/daemon/manager.cpp:261-283 | a batch runs over the list of the last granted request with the settings of the last one to win the lock; it belongs to one request if and only if these settings are the same |
| JobsBatch.ReachableOneRequest | src/daemon/manager.cpp:212-283 | without a failing list query every batch belongs to one single request |
| JobsBatch.MixtureExample | src/daemon/manager.cpp:261-283 | a run whose batch mixes two requests |
| JobsBatch.BatchConstant | src/daemon/manager.cpp:219-249 | during a batch list and settings do not change, the position never moves back, and a row update is at the position and moves it on |
| JobsBatch.ReachableUpdates | src/daemon/manager.cpp:219-249 | in every reachable state the rows a batch has updated are in list order, each once, and behind its position |
| JobsVisits.BatchVisitsAll | src/daemon/manager.cpp:212-259 | from a wake-up to the end of the batch, whatever the other threads do, the clones are taken for the places 0, 1, ... of the list, each once and none left out, and each place ends up in either the row updates or the failures |
| JobsVisits.BatchUpdatesAll | src/daemon/manager.cpp:219-242 | if no row fails to load or to be updated, the row updates are those of all places in order |
| JobsVisits.BatchesFollowGrants | src/daemon/manager.cpp:215-271 | over every run a batch is due exactly while a request has been granted since the last wake-up, so none is forgotten and none makes two batches |
| JobsVisits.UpdateFollowsJudging | src/daemon/manager.cpp:232-242 | a row is updated only after the judge has let go of its clone |
| JobsStories.ObjectsAreTheirStories | src/daemon/manager.cpp:157-310 | in every run each live object is what was done to it: made once with its request's key, kind and settings, or as a clone with those of the last winner of the lock; holding the reports made while the judge had it in their order, or after an exception the one report 100 with its text; stamped with the time at which judging ended, once; written to the database once if normal, stamped and without exception, never if of another kind |
| JobsDetails.AnswersAgree | src/daemon/manager.cpp:96-100 | of two answers about one object the later extends the earlier or is the single system error, and a finished answer is final |
| JobsDetails.QueryAnswersItsKey | src/daemon/manager.cpp:81-106 | whatever happens between the lookup of a query and its answer, it answers about a live submission with the key asked for |
| JobsDetails.FrontIsOldest | src/daemon/manager.cpp:130-131 | looking only at the front misses no expired object |
| JobsDetails.DeletedAfterExpiry | src/daemon/manager.cpp:130-153 | nothing is deleted before it is 25 s old and a second after its erasure |
| JobsPolls.NextPoll | src/daemon/manager.cpp:131-141 | whatever the other threads do during the sleep, a front polled at age e is still the front when the remover wakes, at age 2e+1 or more, and at exactly 2e+1, which is 49 at most, if it wakes on time |
| JobsPolls.PolledAtMostFiveTimes | src/daemon/manager.cpp:116-141 | in every run of the daemon, however late the remover wakes, it polls one object at most five times before it has expired |
| JobsPolls.FivePolls | src/daemon/manager.cpp:116-141 | from every start there is a run with five polls of one object |
| Manager.Daemon.FinishBody | src/daemon/http.cpp:159-171 | the dispatch of a finished body is the run its kind calls for; a submission ends up unstamped, last in the queue and in the finder under its key, a rejudge request leaves its settings and, if its query succeeds, its list; nothing else changes |
| Manager.Daemon.RequestCompleted | src/daemon/http.cpp:175-186 | the connection deletes the object exactly if it still owns it |
| Manager.Daemon.AcceptSubmit | src/daemon/manager.cpp:289-295 | queueing is the step that hands the object over |
| Manager.Daemon.EnterInFinder | src/daemon/manager.cpp:296-299 | the insertion finds its object alive and is the second step |
| Manager.Daemon.StartRejudge | src/daemon/manager.cpp:261-283 | the three replies, and the step each of them stands for |
| Manager.Daemon.GetProgress | src/daemon/manager.cpp:81-94 | the lookup of a query, or the invalid answer |
| Manager.Daemon.JudgeTurn | src/daemon/manager.cpp:157-209 | a turn of the judge's loop, for any number of reports and any way to end, takes the first job; its object has the reports behind those it had, or after an exception the one report 100 with the exception's text, and the time; a normal one is last in the removing queue, a rejudged one lowers the flag; nothing else changes |
| Manager.Daemon.CatchException | src/daemon/manager.cpp:182-186 | an exception leaves the single error report and a stamp on a live object |
| Manager.Daemon.Handover | src/daemon/manager.cpp:203-208 | where the judged object goes, by its kind |
| Manager.Daemon.RemoverStep | src/daemon/manager.cpp:118-146 | a turn up to its sleep takes exactly one of its enabled steps |
| Manager.Daemon.RemoverTurn | src/daemon/manager.cpp:116-155 | a turn of the remover's loop sleeps 20 s if there is nothing, one second more than the front's age if that is below 25 s, and else takes the key from the finder, the front from the queue and a second later the object from the heap; nothing else changes |
| Manager.Daemon.QueueNext | src/daemon/manager.cpp:219-237 | the loop over the list queues a clone with the id as key, the request's settings, no report and no time, and the flag up; goes on to the next place if the row cannot be loaded; or ends the batch; nothing else changes |
| Manager.Daemon.FinishClone | src/daemon/manager.cpp:240-248 | behind the busy wait the row is updated, the clone deleted and the next place is due |
| Manager.Daemon.PollFlag | src/daemon/manager.cpp:239-240 | the busy wait ends exactly when the flag is down |
| LineValidator.FileLines | src/daemon/validator.cpp:92-108 | the two-accumulator loop counts the lines up to the last one that holds a byte, stopping at a NUL |
| LineValidator.FindEnd | src/daemon/validator.cpp:79-84 | the field ends at the line feed or at the last byte of the file |
| LineValidator.Trip | src/daemon/validator.cpp:128-144 | the backwards walk finds the right-trimmed end, except that of two bytes it keeps one |
| LineValidator.Compare | src/daemon/validator.cpp:146-164 | two fields compare equal exactly if their effective texts are equal |
| LineValidator.Validator | src/daemon/validator.cpp:166-201 | the whole loop returns the verdict the line-by-line definition gives |
| LineVerdicts.IdenticalIsEquivalence | src/daemon/validator.cpp:166-201 | being identical is an equivalence relation, and shorter is the converse of longer |
| LineVerdicts.IdenticalIff | src/daemon/validator.cpp:166-201 | on files without NUL: identical if and only if the counted lines are equally many and agree in their effective texts; shorter and longer are exactly the orders of the counts |
| LineVerdicts.IntendedWithoutPairs | src/daemon/validator.cpp:128-201 | when no compared line trims to two bytes the verdict is equality up to trailing white space |
| LineVerdicts.AnswerFileSafeIff | src/daemon/validator.cpp:128-201 | an answer file is judged as intended against every output if and only if each compared line trims to at least three bytes |
| LineVerdicts.FoolingIsAccepted | src/daemon/validator.cpp:128-144 | for every shorter line there is an output that is wrongly accepted |
| LineVerdicts.FortyTwoIsFortyThree | src/daemon/validator.cpp:132-142 | 42 and 43 are called identical |
| Texts.JoinLines | src/daemon/validator.cpp:79-84 | the lines put together again are the file, so the line-by-line definition leaves out no byte of it |
| Texts.LinesAtTen | src/daemon/validator.cpp:79-84 | lines end at the byte 10 and nowhere else |
| LineVerdicts.CountStopsAtNul | src/daemon/validator.cpp:92-108 | lines are counted up to the first byte 0 |
| CaseVerdicts.BlankBytes | src/daemon/validator.cpp:128-144 | which six bytes do not count at the end of a line |
| CenaValidator.Checker.GetChar | src/daemon/cena_validator.cpp:31-62 | one call consumes the bytes up to the next visible one and yields the next token of the stream |
| CenaValidator.Checker.CheckNow | src/daemon/cena_validator.cpp:64-103 | the loop returns the verdict of comparing the two token streams |
| CenaNormalForm.SpellIsNormalForm | src/daemon/cena_validator.cpp:31-62 | the token stream of a text spells exactly its normal form: lines split at LF, CR or CRLF, words between spaces, trailing empty lines dropped |
| CenaNormalForm.SpellInjective | src/daemon/cena_validator.cpp:31-62 | the spelling determines the stream |
| CenaNormalForm.IdenticalIff | src/daemon/cena_validator.cpp:64-103 | identical if and only if the normal forms are equal |
| CenaNormalForm.OtherVerdicts | src/daemon/cena_validator.cpp:76-98 | longer and shorter mean that one stream is a proper prefix of the other, mismatch everything else |
| CenaNormalForm.LineEnds | src/daemon/cena_validator.cpp:31-62 | 10, 13 and 13 10 end a line, and no other byte does |
| CenaNormalForm.WordBytes | src/daemon/cena_validator.cpp:31-62 | 32 separates words, and no other byte does |
| CenaNormalForm.EndsAtFF | src/daemon/cena_validator.cpp:31-62 | nothing counts from the first byte 255 on |
| ValidatorRefinement.IntendedRefines | src/daemon/cena_validator.cpp:64-103 | on files with no white space but spaces and line feeds, equality up to trailing space implies equal normal forms |
| ValidatorRefinement.LineComparisonRefines | src/daemon/validator.cpp:166-201 | on such files without two-byte lines, identical for the line comparison implies identical for the normalising one |
| ValidatorRefinement.RefinementIff | src/daemon/validator.cpp:128-201 | against a plain answer file the line comparison refines the normalising one on all plain outputs if and only if each compared line trims to at least three bytes |
| ValidatorRefinement.FoolingIsSeen | src/daemon/cena_validator.cpp:64-103 | the normalising comparison refuses every output that is built to pass a shorter line wrongly |
| ValidatorRefinement.PairsBreakIt | src/daemon/validator.cpp:132-142 | for one, 42 and 43 pass the line comparison and not the normalising one |
| Scoring.Solution.CloneFrom | src/daemon/judge.cpp:68-77 | takes the settings of the request and leaves verdict, details and stamp |
| Scoring.Solution.RejectCompilation | src/daemon/judge.cpp:137-148 | a compilation error is a judged outcome with score 0 and one report |
| Scoring.Solution.JudgeCase | src/daemon/judge.cpp:246-347 | status and tips of one case for each way its run and its comparison can end; by the mode's upper half the lines of the two files or the numeric comparison decide, and code 99 stands for every other mode |
| CaseVerdicts.ModeDecides | src/daemon/judge.cpp:256-277 | for every lower half of the mode: 0 passes exactly if the line comparison calls the files identical, 1 and 2 exactly if the numeric one does, all others never, with code 99 unless it is the special judge's |
| CaseVerdicts.OutcomeDecides | src/daemon/judge.cpp:280-311 | the code and the text for each outcome of the comparison |
| CaseVerdicts.FilesDecide | src/daemon/judge.cpp:256-311 | in the traditional mode, on files without NUL: fewer or more counted lines are the answers too short and too long; with equally many and none trimmed to two bytes the case passes exactly if they agree up to trailing white space, and is a mismatch with the excerpts otherwise |
| CaseVerdicts.OtherwiseDecided | src/daemon/judge.cpp:312-347 | the code and the text of a case whose run fails or whose files are missing |
| CaseVerdicts.FirstFailureDecides | src/daemon/judge.cpp:354-362 | the first case that fails gives the verdict and its text, whatever the later ones do |
| CaseVerdicts.ReportsAt | src/daemon/judge.cpp:368-369 | every case has its report at its place, with its code, time, memory, text and points |
| CaseVerdicts.AcceptedCounts | src/daemon/judge.cpp:280-284 | the points are earned by exactly the passing cases, each once |
| Scoring.Solution.Judge | src/daemon/judge.cpp:191-380 | the loop leaves the first error in test order or acceptance, all reports in order, the score of the passed cases, and stops at the first input that cannot be copied |
| Scoring.ShareCancels | src/daemon/judge.cpp:216-220 | truncating or clamping the points of one case does not change the final score |
| Scoring.ScoreIs | src/daemon/judge.cpp:376-376 | the final score as an integer inequality |
| Scoring.ScoreMonotone | src/daemon/judge.cpp:376-376 | more accepted cases never lower the score |
| Scoring.ScoreInRange | src/daemon/judge.cpp:376-376 | the score is within 0..100, 100 for all cases and 0 for none |
| Scoring.FullScoreIff | src/daemon/judge.cpp:376-376 | a failed case keeps the score below 100, however many pass, if and only if there are at most 199 cases |
| Scoring.RoundsHalfUpIff | src/daemon/judge.cpp:376-376 | the score is 100k/n rounded half up if and only if that number is not within a millionth below a half |
| Scoring.RoundsHalfUp | src/daemon/judge.cpp:376-376 | which is so up to 500000 cases |
| Scoring.RoundsHalfUpBound | src/daemon/judge.cpp:376-376 | and not always with one case more |
| Scoring.MaxMemoryIs | src/daemon/judge.cpp:354-356 | the memory kept is no less than any case's, and some case's unless it is zero |
| Scoring.AcceptMeansFull | src/daemon/judge.cpp:359-376 | accepted if and only if every case passes, and then the score is full: results are judged rows of the scoreboard |
| Scoring.FullMeansAcceptIff | src/daemon/judge.cpp:359-376 | full score means acceptance for every judgement of n cases if and only if n is at most 199 |
| Scoring.ScoreFromReports | src/daemon/judge.cpp:369-376 | the score is the sum of the reported case scores as a share of what they could be |
| JsonBuilder.LiteralFits | src/daemon/json_builder.cpp:8-38 | the escaped literal and its NUL fit 2n+3 bytes, and fill them if and only if every character is escaped |
| JsonBuilder.Encoder.constructor | src/daemon/json_builder.cpp:8-38 | every write through the moving pointer is inside the buffer, and the buffer holds the literal and a NUL |
| JsonBuilder.Build | src/daemon/json_builder.cpp:50-65 | the stream gets the report text |
| JsonBuilder.TextStartsAndEnds | src/daemon/json_builder.cpp:50-65 | the text starts with the finish header if and only if the time stamp is not zero, with the wait header if and only if it is, and ends with the empty list and two brackets |
| JsonBuilder.TextWithoutReports | src/daemon/json_builder.cpp:50-65 | the whole text when there is no report |
| JsonBuilder.TextsInOrder | src/daemon/json_builder.cpp:59-62 | the reports stand in their order, nothing between them |
| JsonBuilder.OneText | src/daemon/json_builder.cpp:60-62 | one report is its five values in brackets, with a comma behind |
| JsonBuilder.RoundTripIff | src/daemon/json_builder.cpp:50-65 | a reader recovers state and details, for all integers and texts, if and only if no text holds a NUL |
| JsonBuilder.ReadDetailIs | src/daemon/json_builder.cpp:59-64 | the trailing empty list stops the reader after exactly the reports |
| JsonBuilder.NulCutsTheLiteral | src/daemon/json_builder.cpp:44-47 | what is printed of a text with a NUL, and that it is no literal |
| JsonBuilder.LegalIff | src/daemon/json_builder.cpp:14-35 | the printed literal has the syntax of section 7 of RFC 8259 if and only if the text holds no control character but LF and CR |
| JsonUtf8.EscapeKeepsEncoding | src/daemon/json_builder.cpp:14-35 | escaping neither breaks nor repairs UTF-8 |
| JsonUtf8.LegalEncodedIff | src/daemon/json_builder.cpp:8-38 | the printed literal is such a string in UTF-8 if and only if the text is UTF-8 without control characters other than LF and CR |
| Encodings.WellFormedIff | src/daemon/json_builder.cpp:8-38 | the texts called UTF-8 here are exactly the encodings of code points by section 3 of RFC 3629 |
| Answers.ClientSeesProgress | src/daemon/manager.cpp:96-106 | what two answers about one submission decode to agrees over time, in every run, as long as no report text holds a NUL |
| Answers.AnswerTellsStory | src/daemon/manager.cpp:96-106 | what an answer decodes to is the story so far: whether judging has ended, and the reports made until then or the one of the exception |
| EnvExpansion.ExpandEnv | src/daemon/INI1.26.h:313-335 | the scanner with its start pointer computes the expansion |
| EnvExpansion.ExpandTemplate | src/daemon/INI1.26.h:313-335 | literals stay and references are replaced by their values, in order |
| EnvExpansion.EveryTextIsATemplate | src/daemon/INI1.26.h:313-335 | every text is literals interleaved with references, up to an unclosed one |
| EnvExpansion.ExpandIs | src/daemon/INI1.26.h:313-335 | so expansion is determined on every text; what follows an unclosed reference is lost |
| IniLines.ReferenceIs | src/daemon/INI1.26.h:313-335 | a reference anywhere stands for the variable's value, and for nothing if it is not set |
| IniFile.ReadBack | src/daemon/INI1.26.h:198-311 | reading a written file gives the sections that have entries, with values expanded, whatever way the map is walked |
| IniFile.RoundTripIff | src/daemon/INI1.26.h:198-311 | the same map comes back if and only if no section is empty and no value is changed by expansion |
| IniFile.PlainValuesSurvive | src/daemon/INI1.26.h:313-335 | no value without a reference is changed |
| IniLines.HeaderOpens | src/daemon/INI1.26.h:214-232 | a header opens an empty section under the first word between its brackets, whatever white space is around it and whatever closes it |
| IniLines.EntrySets | src/daemon/INI1.26.h:233-258 | an entry goes to the open section under the text up to its first equals sign |
| IniLines.IdleLines | src/daemon/INI1.26.h:211-252 | which lines do nothing |
| IniLines.FileTextExample | src/daemon/INI1.26.h:289-311 | the text of a file with one entry |
| IniOutcomes.OutcomeIff | src/daemon/INI1.26.h:198-267 | a file is read to its end if and only if every line fits the buffer and none is faulty; it is never finished if and only if some line does not fit and none up to it is faulty; it is undefined if and only if some line is faulty and all before it fit |
| IniOutcomes.StepDefined | src/daemon/INI1.26.h:214-258 | a line is undefined exactly if it is a bare header or an entry outside every section |
| IniOutcomes.LongLineSticks | src/daemon/INI1.26.h:204-207 | 512 letters are never finished, 511 are read |
| IniOutcomes.UndefinedLines | src/daemon/INI1.26.h:214-258 | a lone bracket, and an entry before the first header, are undefined |
| IniParser.InputStream.GetLine | src/daemon/INI1.26.h:207-207 | the three ways a bounded line read can end, and that a failed or ended stream reads nothing and stays where it is |
| IniParser.Ini.OpenSection | src/daemon/INI1.26.h:214-232 | a header opens a new section object under its first word, also under a name that was there before |
| IniParser.Ini.Interpret | src/daemon/INI1.26.h:211-260 | one line does what its kind calls for, undefined behaviour included |
| IniParser.Ini.Parse | src/daemon/INI1.26.h:198-267 | watched for any number of turns: a readable file is done after as many as it has lines and not before, an undefined one has crashed by then, and one that sticks is still running after any number |
| IniParser.Ini.Save | src/daemon/INI1.26.h:289-311 | what is written is a walk through all sections and entries |

## Left out

- JobsRuns.ReachableNoDangling: assumes that a query holds its pointer for less than a second and that a submission is entered in the finder before `time(0)` has moved on by 25 since it was queued, which may be little more than 24 s; the program enforces neither.
- ScoreboardRefresh.RefreshRestores: assumes that every problem with a level row is in the problem table, as the joins of the refresh need.
- ScoreboardRuns.SolvedTotalsAgree: assumes that users and problems of all submits are in their tables.
- ScoreboardRuns.StoppedRunOrdered: assumes the same.
- ScoreboardRuns.StoppedRunBounded: assumes that no score is negative; judging gives none.
- IniFile.RoundTripIff: for section names without white space, keys without `=` that look neither like a header nor like a comment, no line feed or NUL anywhere, and lines of at most 511 bytes.
- ValidatorRefinement.LineComparisonRefines: one direction only; the normalising comparison also ignores leading and repeated spaces.
- Database: each SQL statement is one assignment of its effect, which the database computes and the program does not.
- Scoring.Solution.Judge: total time and largest memory are sums over whatever the sandbox reports, which is uninitialised for runs that did not exit; the score is computed over the reals, not in double precision.
- Data races: each critical section and each access to a shared flag is one atomic step. `finder.erase` runs without the finder's mutex (src/daemon/manager.cpp:145) and is a step like the others.
- Manager: solution objects are values in a heap map with numeric pointers, and thread control points are fields; the methods for whole turns run without interference, which the runs of `Jobs` have in full.
- Allocation failure, and exceptions other than the thrown strings.
- rejudge_init is copied with its QueryMutex pointer (src/daemon/manager.cpp:265); the pointer is not modelled.
- MySQL: connection, SQL text, escaping, character sets and `mysql_store_result` failures in haveSolved and haveSubmitted; each statement is its effect on the tables.
- get_problem_level and problem_flag_to_level are not part of this model; a problem's experience is one table from problem to experience.
- Columns in_date, code_length and public_code, the contest flag.
- compileinfo is a list of rows; whether its id column is a key is not in the program. If it is, an insert under an id with a stray message is a statement that fails.
- get_exist_solution_info: only that it may throw.
- validator_int and validator_float: their verdict is an input of the case; the special judge, whose call is commented out, is excluded by a precondition.
- The excerpts shown for a mismatch (read_around) are inputs.
- The line and column counters of the normalising comparison, which nothing reads.
- Sandbox, compilation, directory listing, file copying and logging: outcomes are inputs.
- HTTP beyond the dispatch of a finished body, the delete on completion and queries.
- Integer widths: ids, scores and times are unbounded.
- JsonBuilder.LegalIff: syntax only; the encoding is `JsonUtf8.LegalEncodedIff`.
- INI: Create, Select, Set and Get, which are one-line map operations, and the order of std::map, which the round trip does not depend on.
- YAML configuration, language tables and src/expr.
