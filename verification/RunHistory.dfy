/** What the metrics of a run say about the events that it saw. */
module RunHistory {
  import opened Results
  import opened Performance

  /** Events and the clock at each of them. */
  type Log = seq<(Event, int)>

  function After(log: Log): Times {
    if log == [] then NOTHING else
      var last := |log| - 1;
      Recorded(After(log[..last]), log[last].0, log[last].1)
  }

  predicate StartsCall(event: Event, id: nat) {
    event.ToolStarted? && event.id == id
  }

  predicate EndsCall(event: Event, id: nat) {
    event.RunStarted? || (event.ToolCompleted? && event.id == id)
  }

  /** The call was reported as started at `k`, and neither it nor the run was over after that. */
  ghost predicate OpenSince(log: Log, id: nat, k: nat) {
    && k < |log| && StartsCall(log[k].0, id)
    && forall j | k < j < |log| :: !EndsCall(log[j].0, id)
  }

  /** The first such report counts. */
  ghost predicate OpenedAt(log: Log, id: nat, k: nat) {
    OpenSince(log, id, k) && forall j | 0 <= j < k :: !OpenSince(log, id, j)
  }

  lemma OneMoreEvent(log: Log, id: nat, k: nat)
    requires log != [] && k < |log| - 1
    ensures var last := |log| - 1;
            OpenSince(log, id, k) <==> OpenSince(log[..last], id, k) && !EndsCall(log[last].0, id)
  {
    var last := |log| - 1;
    assert forall j | 0 <= j < last :: log[..last][j] == log[j];
  }

  /** The open calls are those that were reported and are not over ... */
  lemma {:induction false} OpenIff(log: Log, id: nat)
    ensures id in After(log).openTools <==> exists k: nat :: OpenSince(log, id, k)
    decreases |log|
  {
    if log != [] {
      var last := |log| - 1;
      OpenIff(log[..last], id);
      forall k: nat | k < last
        ensures OpenSince(log, id, k) <==> OpenSince(log[..last], id, k) && !EndsCall(log[last].0, id)
      {
        OneMoreEvent(log, id, k);
      }
      LastEvent(After(log[..last]), log[last].0, log[last].1, id);
      assert StartsCall(log[last].0, id) ==> OpenSince(log, id, last);
    }
  }

  /** ... with the name and the clock of the first report. */
  lemma {:induction false} OpenCall(log: Log, id: nat, k: nat)
    requires OpenedAt(log, id, k)
    ensures log[k].0.ToolStarted? && id in After(log).openTools
    ensures After(log).openTools[id] == (log[k].0.name, log[k].1)
    decreases |log|
  {
    var last := |log| - 1;
    var before := log[..last];
    LastEvent(After(before), log[last].0, log[last].1, id);
    forall j: nat | j < last
      ensures OpenSince(log, id, j) <==> OpenSince(before, id, j) && !EndsCall(log[last].0, id)
    {
      OneMoreEvent(log, id, j);
    }
    if k < last {
      OpenCall(before, id, k);
    } else {
      OpenIff(before, id);
    }
  }

  lemma LastEvent(t: Times, event: Event, clock: int, id: nat)
    ensures var open := Recorded(t, event, clock).openTools;
            && (EndsCall(event, id) ==> id !in open)
            && (StartsCall(event, id) ==>
                  id in open && open[id] == if id in t.openTools then t.openTools[id] else (event.name, clock))
            && (!EndsCall(event, id) && !StartsCall(event, id) ==>
                  (id in open <==> id in t.openTools) && (id in open ==> open[id] == t.openTools[id]))
  {
  }

  /** What a completed call records: from its first report to now under the reported name, or nothing
      more than itself if it was never reported. */
  lemma CompletedCall(log: Log, id: nat, name: string, clock: int)
    ensures var t, s := After(log), After(log + [(ToolCompleted(id, name), clock)]);
            && (forall k: nat | OpenedAt(log, id, k) ::
                  && log[k].0.ToolStarted?
                  && s.toolIntervals == t.toolIntervals + [Interval(log[k].1, clock)]
                  && s.toolSpans == AddSpan(t.toolSpans, log[k].0.name, clock - log[k].1))
            && ((forall k: nat :: !OpenSince(log, id, k)) ==>
                  && s.toolIntervals == t.toolIntervals + [Interval(clock, clock)]
                  && s.toolSpans == AddSpan(t.toolSpans, name, 0))
  {
    hide AddSpan;
    AppendEvent(log, ToolCompleted(id, name), clock);
    OpenIff(log, id);
    forall k: nat | OpenedAt(log, id, k)
      ensures log[k].0.ToolStarted? && id in After(log).openTools
              && After(log).openTools[id] == (log[k].0.name, log[k].1)
    {
      OpenCall(log, id, k);
    }
  }

  lemma AppendEvent(log: Log, event: Event, clock: int)
    ensures After(log + [(event, clock)]) == Recorded(After(log), event, clock)
  {
    assert (log + [(event, clock)])[..|log|] == log;
  }

  /** A model call is going on exactly since the last report of a start, if neither its completion nor
      the start of a run came after that. */
  predicate ModelOpenAt(log: Log, k: nat) {
    && k < |log| && log[k].0.AssistantStarted?
    && forall j | k < j < |log| :: !(log[j].0 in {AssistantStarted, AssistantCompleted, RunStarted})
  }

  lemma {:induction false} ModelOpenIff(log: Log)
    ensures forall k: nat | ModelOpenAt(log, k) :: After(log).modelStarted == Some(log[k].1)
    ensures After(log).modelStarted.Some? ==> exists k: nat :: ModelOpenAt(log, k)
    decreases |log|
  {
    if log != [] {
      var last := |log| - 1;
      var before := log[..last];
      ModelOpenIff(before);
      forall k: nat | k < last
        ensures ModelOpenAt(log, k) <==>
                  ModelOpenAt(before, k) && log[last].0 !in {AssistantStarted, AssistantCompleted, RunStarted}
      {
        assert forall j | 0 <= j < last :: before[j] == log[j];
      }
      assert log[last].0.AssistantStarted? ==> ModelOpenAt(log, last);
    }
  }

  /** A completed model call is counted from there. */
  lemma CompletedModelCall(log: Log, k: nat, clock: int)
    requires ModelOpenAt(log, k)
    ensures var t, s := After(log), After(log + [(AssistantCompleted, clock)]);
            && s.modelIntervals == t.modelIntervals + [Interval(log[k].1, clock)]
            && s.modelTicks == t.modelTicks + (clock - log[k].1)
  {
    AppendEvent(log, AssistantCompleted, clock);
    ModelOpenIff(log);
  }

  /** The start of a run forgets everything before it. */
  lemma {:induction false} StartForgets(before: Log, clock: int, after: Log)
    ensures After(before + [(RunStarted, clock)] + after) == After([(RunStarted, clock)] + after)
  {
    hide After, Recorded;
    var start := [(RunStarted, clock)];
    if after == [] {
      StartIsNew(before, clock);
      StartIsNew([], clock);
      assert before + start + [] == before + start && [] + start == start + [];
    } else {
      var last := |after| - 1;
      StartForgets(before, clock, after[..last]);
      AppendEvent(before + start + after[..last], after[last].0, after[last].1);
      AppendEvent(start + after[..last], after[last].0, after[last].1);
      assert before + start + after == (before + start + after[..last]) + [after[last]];
      assert start + after == (start + after[..last]) + [after[last]];
    }
  }

  lemma StartIsNew(before: Log, clock: int)
    ensures After(before + [(RunStarted, clock)]) == NOTHING.(started := Some(clock))
  {
    AppendEvent(before, RunStarted, clock);
  }

  function Received(log: Log): nat {
    if log == [] then 0 else
      var last := |log| - 1;
      Received(log[..last]) + if log[last].0.ModelMetrics? then log[last].0.input else 0
  }

  function Sent(log: Log): nat {
    if log == [] then 0 else
      var last := |log| - 1;
      Sent(log[..last]) + if log[last].0.ModelMetrics? then log[last].0.output else 0
  }

  /** The times to the first token that were reported, as far as they make sense. */
  function FirstTokens(log: Log): seq<int> {
    if log == [] then [] else
      var last := |log| - 1;
      FirstTokens(log[..last])
      + match log[last].0
        case ModelMetrics(Some(ttft), _, _) => if ttft < 0 then [] else [ttft]
        case _ => []
  }

  predicate EndedAt(log: Log, k: nat) {
    k < |log| && log[k].0.RunEnded? && forall j | k < j < |log| :: !log[j].0.RunEnded?
  }

  /** A run without another start behind it: its start and its last end ... */
  lemma {:induction false} RunSpans(clock: int, log: Log)
    requires forall k | 0 <= k < |log| :: !log[k].0.RunStarted?
    ensures var t := After([(RunStarted, clock)] + log);
            && t.started == Some(clock)
            && (forall k: nat | EndedAt(log, k) :: t.finished == Some(log[k].1))
            && ((forall k: nat :: !EndedAt(log, k)) ==> t.finished.None?)
    decreases |log|
  {
    FirstEvent(clock);
    if log != [] {
      var last := |log| - 1;
      var before := log[..last];
      RunSpans(clock, before);
      LastOfRun(clock, log);
      forall k: nat | k < last
        ensures EndedAt(log, k) <==> EndedAt(before, k) && !log[last].0.RunEnded?
      {
        assert forall j | 0 <= j < last :: before[j] == log[j];
      }
      assert log[last].0.RunEnded? ==> EndedAt(log, last);
    }
  }

  /** ... and what its reports add up to. */
  lemma {:induction false} RunAddsUp(clock: int, log: Log)
    requires forall k | 0 <= k < |log| :: !log[k].0.RunStarted?
    ensures var t := After([(RunStarted, clock)] + log);
            t.input == Received(log) && t.output == Sent(log) && t.ttft == FirstTokens(log)
    decreases |log|
  {
    FirstEvent(clock);
    if log != [] {
      RunAddsUp(clock, log[..|log| - 1]);
      LastOfRun(clock, log);
    }
  }

  lemma FirstEvent(clock: int)
    ensures After([(RunStarted, clock)] + []) == NOTHING.(started := Some(clock))
  {
    StartIsNew([], clock);
    assert [] + [(RunStarted, clock)] == [(RunStarted, clock)] + [];
  }

  lemma LastOfRun(clock: int, log: Log)
    requires log != []
    ensures var start, last := [(RunStarted, clock)], |log| - 1;
            After(start + log) == Recorded(After(start + log[..last]), log[last].0, log[last].1)
  {
    hide After, Recorded;
    var start, last := [(RunStarted, clock)], |log| - 1;
    assert start + log == (start + log[..last]) + [log[last]];
    AppendEvent(start + log[..last], log[last].0, log[last].1);
  }
}
