/** What a polling client reads: the reports of a submission over time, through the JSON text. */
module Answers {
  import opened CStrings
  import opened Jobs
  import opened JobsDetails
  import opened JobsStories
  import opened Wrappers
  import JsonBuilder

  /** The text that answers a query about an object, read back. */
  function Received(o: Solution): Option<JsonBuilder.Progress> {
    JsonBuilder.Decode(JsonBuilder.Json(o.timeStamp, o.detail))
  }

  predicate WithoutNul(detail: seq<Report>) { forall r :: r in detail ==> NUL !in r.info }

  /** Of two answers about one submission, in time order, the later one extends the earlier or is the single system
      error report, and after a finished one nothing changes any more. */
  lemma ClientSeesProgress(start: State, run: seq<Action>, between: seq<Action>, id: Id)
    requires Initial(start) && ValidRun(start, run) && ValidRun(Exec(start, run), between)
    requires id in Exec(start, run).heap && id in Exec(Exec(start, run), between).heap
    requires WithoutNul(Exec(start, run).heap[id].detail) && WithoutNul(Exec(Exec(start, run), between).heap[id].detail)
    ensures var first := Received(Exec(start, run).heap[id]);
            var second := Received(Exec(Exec(start, run), between).heap[id]);
            && first.Some? && second.Some?
            && (first.value.finished ==> second == first)
            && (first.value.detail <= second.value.detail ||
                (second.value.finished && ErrorOnly(second.value.detail)))
  {
    var first := Exec(start, run).heap[id];
    var second := Exec(Exec(start, run), between).heap[id];
    AnswersAgree(start, run, between, id);
    JsonBuilder.RoundTripIff(first.timeStamp, first.detail);
    JsonBuilder.RoundTripIff(second.timeStamp, second.detail);
    hide Exec, ValidRun, Initial, JsonBuilder.Decode, JsonBuilder.Json;
  }

  /** What a client reads at any time is the story so far: whether judging has ended, and the reports made until then,
      or the one report of a system error with the exception's text. */
  lemma AnswerTellsStory(start: State, run: seq<Action>, id: Id)
    requires Initial(start) && ValidRun(start, run) && id in Exec(start, run).heap
    requires WithoutNul(Exec(start, run).heap[id].detail)
    ensures var y := Told(UNTOLD, start, run, id);
            Received(Exec(start, run).heap[id]) ==
            Some(JsonBuilder.Progress(y.stamps != [],
                                      if y.failures == [] then y.reports else [Report(100, 0, 0, y.failures[0], 0)]))
  {
    var o := Exec(start, run).heap[id];
    ObjectsAreTheirStories(start, run, id);
    StampsShow(start, run, id);
    JsonBuilder.RoundTripIff(o.timeStamp, o.detail);
    hide Exec, ValidRun, Initial, Told, JsonBuilder.Decode, JsonBuilder.Json;
  }

  lemma StampsShow(start: State, run: seq<Action>, id: Id)
    requires Initial(start) && ValidRun(start, run) && id in Exec(start, run).heap
    ensures Exec(start, run).heap[id].timeStamp != 0 <==> Told(UNTOLD, start, run, id).stamps != []
  {
    InitialKnown(start, id);
    hide Ready, Exec, ValidRun, Told, Initial;
    RunKnown(UNTOLD, start, run, id);
  }
}
