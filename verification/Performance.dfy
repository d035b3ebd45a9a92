/** Tool time of a run as the measure of a union of intervals, in integer clock ticks. */
module Performance {
  import opened Results

  datatype Interval = Interval(start: int, end: int)

  predicate Forward(intervals: seq<Interval>) {
    forall k | 0 <= k < |intervals| :: intervals[k].start <= intervals[k].end
  }

  predicate Contains(interval: Interval, t: int) {
    interval.start <= t < interval.end
  }

  ghost predicate IsCovered(intervals: seq<Interval>, t: int) {
    exists k | 0 <= k < |intervals| :: Contains(intervals[k], t)
  }

  ghost function Range(a: int, b: int): (ticks: set<int>)
    ensures forall t :: t in ticks <==> a <= t < b
    decreases b - a
  {
    if b <= a then {} else Range(a, b - 1) + {b - 1}
  }

  /** The ticks that at least one interval covers. */
  ghost function Covered(intervals: seq<Interval>): set<int> {
    if intervals == [] then {} else
      var last := |intervals| - 1;
      Covered(intervals[..last]) + Range(intervals[last].start, intervals[last].end)
  }

  lemma NothingCovered()
    ensures Covered([]) == {}
  {
  }

  lemma {:induction false} CoveredMeans(intervals: seq<Interval>, t: int)
    ensures t in Covered(intervals) <==> IsCovered(intervals, t)
  {
    if intervals != [] {
      var last := |intervals| - 1;
      CoveredMeans(intervals[..last], t);
      if IsCovered(intervals[..last], t) {
        var k :| 0 <= k < last && Contains(intervals[..last][k], t);
        assert Contains(intervals[k], t);
      }
      if IsCovered(intervals, t) && !Contains(intervals[last], t) {
        var k :| 0 <= k < |intervals| && Contains(intervals[k], t);
        assert Contains(intervals[..last][k], t);
      }
      assert Contains(intervals[last], t) ==> IsCovered(intervals, t);
    }
  }

  predicate Before(a: Interval, b: Interval) {
    a.start < b.start || (a.start == b.start && a.end <= b.end)
  }

  predicate InOrder(intervals: seq<Interval>) {
    forall i, j | 0 <= i < j < |intervals| :: Before(intervals[i], intervals[j])
  }

  function Insert(x: Interval, sorted: seq<Interval>): seq<Interval> {
    if sorted == [] || Before(x, sorted[0]) then [x] + sorted
    else [sorted[0]] + Insert(x, sorted[1..])
  }

  /** `sorted(intervals)` */
  function Sorted(intervals: seq<Interval>): seq<Interval> {
    if intervals == [] then [] else Insert(intervals[0], Sorted(intervals[1..]))
  }

  lemma {:induction false} InsertMembers(x: Interval, sorted: seq<Interval>, y: Interval)
    ensures y in Insert(x, sorted) <==> y == x || y in sorted
  {
    if sorted != [] && !Before(x, sorted[0]) {
      InsertMembers(x, sorted[1..], y);
      assert sorted == [sorted[0]] + sorted[1..];
    }
  }

  lemma {:induction false} InsertKeepsOrder(x: Interval, sorted: seq<Interval>)
    requires InOrder(sorted)
    ensures InOrder(Insert(x, sorted))
  {
    if sorted != [] && !Before(x, sorted[0]) {
      var rest := Insert(x, sorted[1..]);
      InsertKeepsOrder(x, sorted[1..]);
      forall k | 0 <= k < |rest|
        ensures Before(sorted[0], rest[k])
      {
        InsertMembers(x, sorted[1..], rest[k]);
      }
    }
  }

  lemma {:induction false} SortedIsSorted(intervals: seq<Interval>)
    ensures InOrder(Sorted(intervals))
    ensures forall y :: y in Sorted(intervals) <==> y in intervals
  {
    if intervals != [] {
      var rest := Sorted(intervals[1..]);
      SortedIsSorted(intervals[1..]);
      InsertKeepsOrder(intervals[0], rest);
      assert intervals == [intervals[0]] + intervals[1..];
      forall y
        ensures y in Sorted(intervals) <==> y in intervals
      {
        InsertMembers(intervals[0], rest, y);
      }
    }
  }

  lemma {:induction false} RangeSize(a: int, b: int)
    requires a <= b
    ensures |Range(a, b)| == b - a
    decreases b - a
  {
    if a < b {
      RangeSize(a, b - 1);
    }
  }

  lemma DisjointSize(a: set<int>, b: set<int>)
    requires a !! b
    ensures |a + b| == |a| + |b|
  {
    assert (a + b) - a == b;
  }

  /** Coverage depends on the members of the list only, not on order or repetition. */
  lemma SameCoverage(a: seq<Interval>, b: seq<Interval>)
    requires forall x :: x in a <==> x in b
    ensures Covered(a) == Covered(b)
  {
    forall t
      ensures t in Covered(a) <==> t in Covered(b)
    {
      CoveredMeans(a, t);
      CoveredMeans(b, t);
      if IsCovered(a, t) {
        var k :| 0 <= k < |a| && Contains(a[k], t);
        assert a[k] in b;
      }
      if IsCovered(b, t) {
        var k :| 0 <= k < |b| && Contains(b[k], t);
        assert b[k] in a;
      }
    }
  }

  /** The sweep has seen `seen`: `done` are the ticks of closed segments, all of them before
      the open segment. */
  ghost predicate Swept(seen: seq<Interval>, total: int, open: bool, start: int, end: int, done: set<int>) {
    && (open <==> seen != [])
    && total == |done|
    && (open ==> start <= end && start <= seen[|seen| - 1].start)
    && (forall t | t in done :: open && t < start)
    && Covered(seen) == done + OpenRange(open, start, end)
  }

  lemma OpensNew(seen: seq<Interval>, next: Interval, total: int, open: bool, start: int, end: int, done: set<int>)
    requires Swept(seen, total, open, start, end, done)
    requires next.start <= next.end && (open ==> end < next.start)
    ensures Swept(seen + [next], if open then total + (end - start) else total, true, next.start, next.end,
                  done + OpenRange(open, start, end))
  {
    CoveredNext(seen, next);
    if open {
      CloseRange(done, start, end);
    } else {
      assert done + {} == done;
    }
  }

  lemma Extends(seen: seq<Interval>, next: Interval, total: int, start: int, end: int, done: set<int>)
    requires Swept(seen, total, true, start, end, done)
    requires seen[|seen| - 1].start <= next.start <= end && next.start <= next.end
    ensures Swept(seen + [next], total, true, start, if end < next.end then next.end else end, done)
  {
    CoveredNext(seen, next);
    JoinRanges(start, end, next.start, next.end);
    var both := Range(start, end) + Range(next.start, next.end);
    assert done + Range(start, end) + Range(next.start, next.end) == done + both;
  }

  lemma JoinRanges(a: int, b: int, c: int, d: int)
    requires a <= c <= b && c <= d
    ensures Range(a, b) + Range(c, d) == Range(a, if b < d then d else b)
  {
  }

  lemma Closes(seen: seq<Interval>, total: int, open: bool, start: int, end: int, done: set<int>)
    requires Swept(seen, total, open, start, end, done)
    ensures |Covered(seen)| == if open then total + (end - start) else total
  {
    if open {
      CloseRange(done, start, end);
    } else {
      assert done + {} == done;
    }
  }

  /** `_union_seconds`: the number of covered ticks. */
  method UnionTicks(intervals: seq<Interval>) returns (total: int)
    requires Forward(intervals)
    ensures total == |Covered(intervals)|
  {
    var sorted := Sorted(intervals);
    SortedIsSorted(intervals);
    SameCoverage(intervals, sorted);
    forall k | 0 <= k < |sorted| ensures sorted[k].start <= sorted[k].end {
      assert sorted[k] in intervals;
    }
    total := Sweep(sorted);
  }

  method Sweep(sorted: seq<Interval>) returns (total: int)
    requires Forward(sorted) && InOrder(sorted)
    ensures total == |Covered(sorted)|
  {
    hide Covered, Range, OpenRange, Swept, InOrder;
    total := 0;
    var open := false;
    var currentStart, currentEnd := 0, 0;
    ghost var done: set<int> := {};
    NothingSwept(sorted);
    for k := 0 to |sorted|
      invariant Swept(sorted[..k], total, open, currentStart, currentEnd, done)
    {
      var next := sorted[k];
      if !open || next.start > currentEnd {
        OpensAt(sorted, k, total, open, currentStart, currentEnd, done);
        done := done + OpenRange(open, currentStart, currentEnd);
        if open {
          total := total + (currentEnd - currentStart);
        }
        open := true;
        currentStart, currentEnd := next.start, next.end;
      } else {
        ExtendsAt(sorted, k, total, currentStart, currentEnd, done);
        currentEnd := if currentEnd < next.end then next.end else currentEnd;
      }
    }
    assert sorted[..|sorted|] == sorted;
    Closes(sorted, total, open, currentStart, currentEnd, done);
    if open {
      total := total + (currentEnd - currentStart);
    }
  }

  lemma NothingSwept(sorted: seq<Interval>)
    ensures Swept(sorted[..0], 0, false, 0, 0, {})
  {
  }

  /** The next interval lies behind the open segment. */
  lemma OpensAt(sorted: seq<Interval>, k: nat, total: int, open: bool, start: int, end: int, done: set<int>)
    requires Forward(sorted) && k < |sorted| && Swept(sorted[..k], total, open, start, end, done)
    requires open ==> end < sorted[k].start
    ensures Swept(sorted[..k + 1], if open then total + (end - start) else total, true, sorted[k].start, sorted[k].end,
                  done + OpenRange(open, start, end))
  {
    hide Covered, Range, OpenRange, Swept;
    assert sorted[..k + 1] == sorted[..k] + [sorted[k]];
    OpensNew(sorted[..k], sorted[k], total, open, start, end, done);
  }

  /** The next interval begins inside the open segment. */
  lemma ExtendsAt(sorted: seq<Interval>, k: nat, total: int, start: int, end: int, done: set<int>)
    requires Forward(sorted) && InOrder(sorted) && k < |sorted| && Swept(sorted[..k], total, true, start, end, done)
    requires sorted[k].start <= end
    ensures Swept(sorted[..k + 1], total, true, start, if end < sorted[k].end then sorted[k].end else end, done)
  {
    hide Covered, Range, OpenRange;
    assert sorted[..k + 1] == sorted[..k] + [sorted[k]];
    assert Before(sorted[k - 1], sorted[k]);
    Extends(sorted[..k], sorted[k], total, start, end, done);
  }

  ghost function OpenRange(open: bool, start: int, end: int): set<int> {
    if open then Range(start, end) else {}
  }

  lemma CloseRange(done: set<int>, start: int, end: int)
    requires start <= end && forall t | t in done :: t < start
    ensures |done + Range(start, end)| == |done| + (end - start)
  {
    RangeSize(start, end);
    DisjointSize(done, Range(start, end));
  }

  lemma CoveredNext(seen: seq<Interval>, next: Interval)
    ensures Covered(seen + [next]) == Covered(seen) + Range(next.start, next.end)
  {
    assert (seen + [next])[..|seen|] == seen;
  }

  function TotalLength(intervals: seq<Interval>): int {
    if intervals == [] then 0 else
      var last := |intervals| - 1;
      TotalLength(intervals[..last]) + (intervals[last].end - intervals[last].start)
  }

  /** Parallel tool calls are not counted twice. */
  lemma {:induction false} UnionAtMostSum(intervals: seq<Interval>)
    requires Forward(intervals)
    ensures |Covered(intervals)| <= TotalLength(intervals)
  {
    if intervals != [] {
      var last := |intervals| - 1;
      UnionAtMostSum(intervals[..last]);
      RangeSize(intervals[last].start, intervals[last].end);
      var a, b := Covered(intervals[..last]), Range(intervals[last].start, intervals[last].end);
      DisjointSize(a, b - a);
      assert a + (b - a) == a + b;
      SubsetSize(b - a, b);
    }
  }

  lemma {:induction false} SubsetSize(a: set<int>, b: set<int>)
    requires a <= b
    ensures |a| <= |b|
  {
    DisjointSize(a, b - a);
    assert a + (b - a) == b;
  }

  lemma UnionWithinSpan(intervals: seq<Interval>, first: int, last: int)
    requires first <= last
    requires forall k | 0 <= k < |intervals| :: first <= intervals[k].start && intervals[k].end <= last
    ensures |Covered(intervals)| <= last - first
  {
    RangeSize(first, last);
    forall t | t in Covered(intervals)
      ensures t in Range(first, last)
    {
      CoveredMeans(intervals, t);
      var k :| 0 <= k < |intervals| && Contains(intervals[k], t);
    }
    SubsetSize(Covered(intervals), Range(first, last));
  }

  datatype Event =
    | RunStarted | RunEnded
    | AssistantStarted | AssistantCompleted
    | ModelMetrics(ttft: Option<int>, input: nat, output: nat)
    | ToolStarted(id: nat, name: string) | ToolCompleted(id: nat, name: string)
    | Other

  /** The durations of the calls of one tool. */
  datatype Spans = Spans(name: string, ticks: seq<int>)

  /** `tool_seconds.setdefault(name, []).append(ticks)` */
  function AddSpan(all: seq<Spans>, name: string, ticks: int): seq<Spans> {
    if all == [] then [Spans(name, [ticks])]
    else if all[0].name == name then [Spans(name, all[0].ticks + [ticks])] + all[1..]
    else [all[0]] + AddSpan(all[1..], name, ticks)
  }

  function Sum(ticks: seq<int>): int {
    if ticks == [] then 0 else Sum(ticks[..|ticks| - 1]) + ticks[|ticks| - 1]
  }

  function CallCount(all: seq<Spans>): nat {
    if all == [] then 0 else |all[0].ticks| + CallCount(all[1..])
  }

  function ByName(all: seq<Spans>): (r: seq<(string, int)>)
    ensures |r| == |all| && forall k | 0 <= k < |all| :: r[k] == (all[k].name, Sum(all[k].ticks))
  {
    seq(|all|, k requires 0 <= k < |all| => (all[k].name, Sum(all[k].ticks)))
  }

  function Total(named: seq<(string, int)>): int {
    if named == [] then 0 else named[0].1 + Total(named[1..])
  }

  /** Recording a call adds one call and its ticks, whatever its name. */
  lemma {:induction false} AddSpanAdds(all: seq<Spans>, name: string, ticks: int)
    ensures CallCount(AddSpan(all, name, ticks)) == CallCount(all) + 1
    ensures Total(ByName(AddSpan(all, name, ticks))) == Total(ByName(all)) + ticks
  {
    var more := AddSpan(all, name, ticks);
    if all == [] {
      assert [ticks][..0] == [] && more[1..] == [];
      TotalFirst(more);
    } else {
      TotalFirst(all);
      TotalFirst(more);
      if all[0].name == name {
        assert (all[0].ticks + [ticks])[..|all[0].ticks|] == all[0].ticks;
        assert more[1..] == all[1..];
      } else {
        AddSpanAdds(all[1..], name, ticks);
        assert more[1..] == AddSpan(all[1..], name, ticks);
      }
    }
  }

  /** The durations filed under a name. */
  function TicksOf(all: seq<Spans>, name: string): seq<int> {
    if all == [] then [] else if all[0].name == name then all[0].ticks else TicksOf(all[1..], name)
  }

  /** They come under the name of the call, behind those of before, and under no other. */
  lemma {:induction false} AddSpanFiles(all: seq<Spans>, name: string, ticks: int, other: string)
    ensures TicksOf(AddSpan(all, name, ticks), other) ==
            TicksOf(all, other) + if other == name then [ticks] else []
  {
    if all != [] && all[0].name != name {
      AddSpanFiles(all[1..], name, ticks, other);
    }
  }

  lemma TotalFirst(all: seq<Spans>)
    requires all != []
    ensures Total(ByName(all)) == Sum(all[0].ticks) + Total(ByName(all[1..]))
  {
    assert ByName(all)[1..] == ByName(all[1..]);
  }

  /** What the metrics of a run hold; `modelIntervals` are the model calls behind the total. */
  datatype Times = Times(
    started: Option<int>, finished: Option<int>, modelStarted: Option<int>,
    openTools: map<nat, (string, int)>, toolIntervals: seq<Interval>, toolSpans: seq<Spans>,
    modelCalls: nat, modelTicks: int, modelIntervals: seq<Interval>,
    ttft: seq<int>, input: nat, output: nat)

  const NOTHING := Times(None, None, None, map[], [], [], 0, 0, [], [], 0, 0)

  /** What one event at `clock` makes of them. */
  function Recorded(t: Times, event: Event, clock: int): Times {
    match event
    case RunStarted => NOTHING.(started := Some(clock))
    case AssistantStarted => t.(modelStarted := Some(clock))
    case AssistantCompleted =>
      if t.modelStarted.None? then t
      else t.(modelCalls := t.modelCalls + 1, modelTicks := t.modelTicks + (clock - t.modelStarted.value),
              modelIntervals := t.modelIntervals + [Interval(t.modelStarted.value, clock)], modelStarted := None)
    case ModelMetrics(ttft, input, output) =>
      t.(ttft := t.ttft + (if ttft.Some? && ttft.value >= 0 then [ttft.value] else []),
         input := t.input + input, output := t.output + output)
    case ToolStarted(id, name) =>
      if id in t.openTools then t else t.(openTools := t.openTools[id := (name, clock)])
    case ToolCompleted(id, name) =>
      var call := if id in t.openTools then t.openTools[id] else (name, clock);
      t.(openTools := t.openTools - {id}, toolIntervals := t.toolIntervals + [Interval(call.1, clock)],
         toolSpans := AddSpan(t.toolSpans, call.0, clock - call.1))
    case RunEnded => t.(finished := Some(clock))
    case Other => t
  }

  /** Everything recorded since the run started lies between its start and now. */
  ghost predicate Timely(t: Times, now: int) {
    && (forall id | id in t.openTools :: t.openTools[id].1 <= now)
    && (forall k | 0 <= k < |t.toolIntervals| :: t.toolIntervals[k].end <= now)
    && (t.finished.Some? ==> t.finished.value <= now)
    && (t.started.Some? ==>
          && t.started.value <= now
          && (forall id | id in t.openTools :: t.started.value <= t.openTools[id].1)
          && (forall k | 0 <= k < |t.toolIntervals| :: t.started.value <= t.toolIntervals[k].start)
          && (t.finished.Some? ==> t.started.value <= t.finished.value)
          && (t.modelStarted.Some? ==> t.started.value <= t.modelStarted.value)
          && forall k | 0 <= k < |t.modelIntervals| :: t.started.value <= t.modelIntervals[k].start)
  }

  /** Model calls follow one another, so their total is the time that some call covers. */
  ghost predicate CallsInTurn(t: Times, now: int) {
    var until := if t.modelStarted.Some? then t.modelStarted.value else now;
    && until <= now
    && t.modelCalls == |t.modelIntervals| && t.modelTicks == |Covered(t.modelIntervals)|
    && forall k | 0 <= k < |t.modelIntervals| :: t.modelIntervals[k].start <= t.modelIntervals[k].end <= until
  }

  /** The tool calls are the same in both tables. */
  ghost predicate SpansMatch(t: Times) {
    && Forward(t.toolIntervals)
    && CallCount(t.toolSpans) == |t.toolIntervals|
    && Total(ByName(t.toolSpans)) == TotalLength(t.toolIntervals)
  }

  ghost predicate Sound(t: Times, now: int) {
    Timely(t, now) && CallsInTurn(t, now) && SpansMatch(t)
  }

  lemma NothingIsSound(clock: int)
    ensures Sound(NOTHING, clock)
  {
    NothingCovered();
  }

  lemma RecordedIsSound(t: Times, event: Event, before: int, clock: int)
    requires Sound(t, before) && before <= clock
    ensures Sound(Recorded(t, event, clock), clock)
  {
    hide Timely, CallsInTurn, SpansMatch;
    RecordedIsTimely(t, event, before, clock);
    RecordedInTurn(t, event, before, clock);
    RecordedMatches(t, event, before, clock);
  }

  lemma RecordedIsTimely(t: Times, event: Event, before: int, clock: int)
    requires Timely(t, before) && CallsInTurn(t, before) && before <= clock
    ensures Timely(Recorded(t, event, clock), clock)
  {
    hide Covered;
  }

  lemma RecordedInTurn(t: Times, event: Event, before: int, clock: int)
    requires CallsInTurn(t, before) && before <= clock
    ensures CallsInTurn(Recorded(t, event, clock), clock)
  {
    hide Covered;
    NothingCovered();
    if event.AssistantCompleted? && t.modelStarted.Some? {
      var call := Interval(t.modelStarted.value, clock);
      CoveredNext(t.modelIntervals, call);
      forall tick | tick in Covered(t.modelIntervals)
        ensures tick < call.start
      {
        CoveredMeans(t.modelIntervals, tick);
      }
      CloseRange(Covered(t.modelIntervals), call.start, call.end);
    }
  }

  lemma RecordedMatches(t: Times, event: Event, before: int, clock: int)
    requires SpansMatch(t) && Timely(t, before) && before <= clock
    ensures SpansMatch(Recorded(t, event, clock))
  {
    hide CallCount, Total, ByName, AddSpan;
    NoSpans();
    if event.ToolCompleted? {
      var call := if event.id in t.openTools then t.openTools[event.id] else (event.name, clock);
      AddSpanAdds(t.toolSpans, call.0, clock - call.1);
      assert (t.toolIntervals + [Interval(call.1, clock)])[..|t.toolIntervals|] == t.toolIntervals;
    }
  }

  lemma NoSpans()
    ensures CallCount([]) == 0 && Total(ByName([])) == 0
  {
  }

  datatype Summary = Summary(
    wall: Option<int>, modelCalls: nat, model: int, ttft: seq<int>,
    toolCalls: nat, tool: int, toolByName: seq<(string, int)>, scheduling: Option<int>, input: nat, output: nat)

  /** `RunMetrics`, driven by a clock that never goes back. */
  class RunMetrics {
    var started: Option<int>
    var finished: Option<int>
    var modelStarted: Option<int>
    var openTools: map<nat, (string, int)>
    var toolIntervals: seq<Interval>
    var toolSpans: seq<Spans>
    var modelCalls: nat
    var modelTicks: int
    var ttft: seq<int>
    var input: nat
    var output: nat
    ghost var modelIntervals: seq<Interval>
    ghost var now: int

    ghost function State(): Times
      reads this
    {
      Times(started, finished, modelStarted, openTools, toolIntervals, toolSpans,
            modelCalls, modelTicks, modelIntervals, ttft, input, output)
    }

    ghost predicate Valid()
      reads this
    {
      Sound(State(), now)
    }

    constructor (clock: int)
      ensures Valid() && now == clock && State() == NOTHING
    {
      started, finished, modelStarted, openTools := None, None, None, map[];
      toolIntervals, toolSpans, modelCalls, modelTicks, modelIntervals := [], [], 0, 0, [];
      ttft, input, output, now := [], 0, 0, clock;
      new;
      NothingIsSound(clock);
    }

    method OnEvent(event: Event, clock: int)
      requires Valid() && now <= clock
      modifies this
      ensures Valid() && now == clock
      ensures State() == Recorded(old(State()), event, clock)
    {
      hide Sound, AddSpan;
      RecordedIsSound(State(), event, now, clock);
      now := clock;
      match event
      case RunStarted =>
        Reset();
        started := Some(clock);
      case AssistantStarted => modelStarted := Some(clock);
      case AssistantCompleted =>
        if modelStarted.Some? {
          modelCalls := modelCalls + 1;
          modelTicks := modelTicks + (clock - modelStarted.value);
          modelIntervals := modelIntervals + [Interval(modelStarted.value, clock)];
          modelStarted := None;
        }
      case ModelMetrics(first, received, sent) =>
        assert ttft + [] == ttft;
        if first.Some? && first.value >= 0 {
          ttft := ttft + [first.value];
        }
        input := input + received;
        output := output + sent;
      case ToolStarted(id, name) =>
        if id !in openTools {
          openTools := openTools[id := (name, clock)];
        }
      case ToolCompleted(id, name) =>
        var call := if id in openTools then openTools[id] else (name, clock);
        openTools := openTools - {id};
        toolIntervals := toolIntervals + [Interval(call.1, clock)];
        toolSpans := AddSpan(toolSpans, call.0, clock - call.1);
      case RunEnded => finished := Some(clock);
      case Other =>
    }

    /** `_reset` */
    method Reset()
      modifies this
      ensures State() == NOTHING && now == old(now)
    {
      started, finished, modelStarted, openTools := None, None, None, map[];
      toolIntervals, toolSpans, modelCalls, modelTicks, modelIntervals := [], [], 0, 0, [];
      ttft, input, output := [], 0, 0;
    }

    /** `summary`.  Tool and model time are the ticks that some call covers, and every call is counted
        under one name.  When the run's end is the last thing recorded, neither exceeds wall time, and
        wall time is model plus tool plus scheduling time exactly when the first two leave room. */
    method Summarize() returns (s: Summary)
      requires Valid()
      ensures s.tool == |Covered(toolIntervals)| && s.model == |Covered(modelIntervals)|
      ensures s.toolCalls == |toolIntervals| && s.modelCalls == |modelIntervals|
      ensures s.tool <= Total(s.toolByName) == TotalLength(toolIntervals)
      ensures s.ttft == ttft && s.input == input && s.output == output
      ensures s.wall.Some? <==> started.Some? && finished.Some?
      ensures s.wall.Some? ==> s.wall.value == finished.value - started.value && s.scheduling.Some?
      ensures s.wall.Some? && finished.value == now ==> s.tool <= s.wall.value && s.model <= s.wall.value
      ensures s.wall.Some? ==>
                && s.scheduling.value >= 0
                && (s.wall.value == s.model + s.tool + s.scheduling.value <==> s.model + s.tool <= s.wall.value)
    {
      hide Covered, TotalLength, CallCount, Total, ByName;
      var tool := UnionTicks(toolIntervals);
      var wall := if started.Some? && finished.Some? && started.value <= finished.value
                  then Some(finished.value - started.value) else None;
      UnionAtMostSum(toolIntervals);
      if wall.Some? && finished.value == now {
        UnionWithinSpan(toolIntervals, started.value, now);
        UnionWithinSpan(modelIntervals, started.value, now);
      }
      var rest := if wall.None? then None
                  else if wall.value - modelTicks - tool > 0 then Some(wall.value - modelTicks - tool) else Some(0);
      return Summary(wall, modelCalls, modelTicks, ttft, CallCount(toolSpans), tool,
                     ByName(toolSpans), rest, input, output);
    }
  }
}
