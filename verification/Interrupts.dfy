/** Who is told of a cancel, as a step relation.

    The controller's lock makes single steps of a method atomic, not the methods: `cancel` marks its
    run and takes stock under the lock and tells everybody afterwards, and `open_tool_context` takes
    the lock three times. The steps of any number of threads interleave freely. */
module Interrupts {
  import opened Results
  import G = Generations

  datatype Notice = ToStream(stream: nat) | ToTool(tool: nat) | ToChild(child: nat) | ToGraph(generation: nat)

  /** How far the opening of a tool context has come. */
  datatype Stage = Scoped | Checked | Opened | Closed

  /** A tool context and the generation whose event it carries. */
  datatype Context = Context(event: Option<nat>, stage: Stage)

  /** `streams` are those of the active run, `tools` the registered contexts, `begun` the generations
      that have a graph; `owed` is what some cancel has taken stock of and not yet told. */
  datatype State = State(
    ledger: G.Ledger,
    streams: set<nat>, tools: set<nat>, children: set<nat>, begun: set<nat>,
    contexts: map<nat, Context>,
    owed: set<Notice>, told: set<Notice>)

  const INITIAL := State(G.EMPTY, {}, {}, {}, {}, map[], {}, {})

  datatype Step =
    | Reserve | Release(generation: nat) | Begin | End
    | Cancel | Tell(notice: Notice)
    | JoinStream(stream: nat) | LeaveStream(stream: nat)
    | ReadScope(tool: nat) | Check(tool: nat) | Enter(tool: nat) | Close(tool: nat)
    | AddChild(child: nat) | DropChild(child: nat)

  /** `_current_scope` */
  function Current(l: G.Ledger): Option<nat> {
    if l.active.Some? then l.active else if l.reserved.Some? then l.reserved else l.last
  }

  /** `cancel_requested` */
  predicate Requested(l: G.Ledger) {
    Current(l).Some? && Current(l).value in l.cancelled
  }

  predicate ActiveCancelled(l: G.Ledger) {
    l.active.Some? && l.active.value in l.cancelled
  }

  /** A cancel that finds its event not set yet. */
  predicate Effective(l: G.Ledger) {
    G.Target(l) !in l.cancelled
  }

  /** What an effective cancel takes stock of: the streams and the graph of the run that it selects, and
      every tool and child, whichever run that is. */
  function Stock(s: State): set<Notice> {
    var target := G.Target(s.ledger);
    (set x | x in s.streams && s.ledger.active == Some(target) :: ToStream(x))
    + (set x | x in s.tools :: ToTool(x)) + (set x | x in s.children :: ToChild(x))
    + if target in s.begun then {ToGraph(target)} else {}
  }

  predicate At(s: State, tool: nat, stage: Stage) {
    tool in s.contexts && s.contexts[tool].stage == stage
  }

  /** Each context goes through its stages in order; the other steps can come at any time. */
  predicate Enabled(s: State, step: Step) {
    match step
    case Tell(notice) => notice in s.owed
    case ReadScope(tool) => tool !in s.contexts
    case Check(tool) => At(s, tool, Scoped)
    case Enter(tool) => At(s, tool, Checked)
    case Close(tool) => At(s, tool, Opened)
    case _ => true
  }

  function Do(s: State, step: Step): State
    requires Enabled(s, step)
  {
    match step
    case Reserve => s.(ledger := G.Apply(s.ledger, G.Reserve))
    case Release(generation) => s.(ledger := G.Apply(s.ledger, G.Release(generation)))
    case Begin => BeginRun(s)
    case End => s.(ledger := G.Apply(s.ledger, G.End), streams := {}, tools := {})
    case Cancel =>
      s.(ledger := G.Apply(s.ledger, G.Cancel), owed := s.owed + if Effective(s.ledger) then Stock(s) else {})
    case Tell(notice) => s.(owed := s.owed - {notice}, told := s.told + {notice})
    case JoinStream(stream) =>
      if s.ledger.active.Some? && !ActiveCancelled(s.ledger) then s.(streams := s.streams + {stream}) else s
    case LeaveStream(stream) => s.(streams := s.streams - {stream})
    case ReadScope(tool) => s.(contexts := s.contexts[tool := Context(Current(s.ledger), Scoped)])
    case Check(tool) =>
      MoveTo(s, tool, Checked).(told := s.told + if Requested(s.ledger) then {ToTool(tool)} else {})
    case Enter(tool) => MoveTo(s, tool, Opened).(tools := s.tools + {tool})
    case Close(tool) => MoveTo(s, tool, Closed).(tools := s.tools - {tool})
    case AddChild(child) =>
      s.(children := s.children + {child}, told := s.told + if Requested(s.ledger) then {ToChild(child)} else {})
    case DropChild(child) => s.(children := s.children - {child})
  }

  /** The graph of a run that begins cancelled is drained once the lock is released. */
  function BeginRun(s: State): State {
    var g := G.Upcoming(s.ledger);
    var ledger := G.Apply(s.ledger, G.Begin);
    s.(ledger := ledger, streams := {}, tools := {}, begun := s.begun + {g},
       owed := s.owed + if g in ledger.cancelled then {ToGraph(g)} else {})
  }

  function MoveTo(s: State, tool: nat, stage: Stage): State
    requires tool in s.contexts
  {
    s.(contexts := s.contexts[tool := s.contexts[tool].(stage := stage)])
  }

  /** A finite interleaving, from a new controller. */
  predicate Runnable(trace: seq<Step>)
    decreases |trace|, 0
  {
    trace == [] ||
      var before := trace[..|trace| - 1];
      Runnable(before) && Enabled(After(before), trace[|trace| - 1])
  }

  function After(trace: seq<Step>): State
    requires Runnable(trace)
    decreases |trace|, 1
  {
    if trace == [] then INITIAL else Do(After(trace[..|trace| - 1]), trace[|trace| - 1])
  }

  /** Told, or about to be. */
  predicate Reached(s: State, notice: Notice) {
    notice in s.told || notice in s.owed
  }

  /** What holds of the run's own streams and graph, and of the tools that are not opened yet. */
  ghost predicate Inv(s: State) {
    && G.Sound(s.ledger)
    && (forall g | g in s.begun :: g < s.ledger.next && s.ledger.reserved != Some(g))
    && (s.ledger.active.Some? ==> s.ledger.active.value in s.begun)
    && (s.ledger.active.None? ==> s.streams == {})
    && (ActiveCancelled(s.ledger) ==> Reached(s, ToGraph(s.ledger.active.value)))
    && (ActiveCancelled(s.ledger) ==> forall x | x in s.streams :: Reached(s, ToStream(x)))
    && (forall g | Reached(s, ToGraph(g)) :: g in s.ledger.cancelled)
    && (forall x | x in s.tools :: At(s, x, Opened))
    && (forall x | Reached(s, ToTool(x)) :: x in s.contexts && s.contexts[x].stage != Scoped)
    && (forall x | ToTool(x) in s.owed :: s.contexts[x].stage in {Opened, Closed})
  }

  lemma StepKeeps(s: State, step: Step)
    requires Inv(s) && Enabled(s, step)
    ensures Inv(Do(s, step))
  {
    match step
    case Begin => BeginKeeps(s);
    case Cancel => CancelKeeps(s);
    case _ => OtherKeeps(s, step);
  }

  lemma BeginKeeps(s: State)
    requires Inv(s)
    ensures Inv(Do(s, Begin))
  {
    G.ApplyIsSound(s.ledger, G.Begin);
  }

  lemma CancelKeeps(s: State)
    requires Inv(s)
    ensures Inv(Do(s, Cancel))
  {
    hide G.Sound;
    G.ApplyIsSound(s.ledger, G.Cancel);
    G.SoundMeans(s.ledger);
    assert forall x | x in s.streams && s.ledger.active == Some(G.Target(s.ledger)) :: ToStream(x) in Stock(s);
  }

  lemma OtherKeeps(s: State, step: Step)
    requires Inv(s) && Enabled(s, step) && !step.Begin? && !step.Cancel?
    ensures Inv(Do(s, step))
  {
  }

  lemma {:induction false} ReachableIsSound(trace: seq<Step>)
    requires Runnable(trace)
    ensures Inv(After(trace))
  {
    if trace != [] {
      ReachableIsSound(trace[..|trace| - 1]);
      StepKeeps(After(trace[..|trace| - 1]), trace[|trace| - 1]);
    }
  }

  lemma {:induction false} PrefixRuns(trace: seq<Step>, n: nat)
    requires Runnable(trace) && n <= |trace|
    ensures Runnable(trace[..n])
    decreases |trace|
  {
    if n == |trace| {
      assert trace[..n] == trace;
    } else {
      PrefixRuns(trace[..|trace| - 1], n);
      assert trace[..|trace| - 1][..n] == trace[..n];
    }
  }

  /** The state before step `n`. */
  ghost function Before(trace: seq<Step>, n: nat): State
    requires Runnable(trace) && n <= |trace|
  {
    PrefixRuns(trace, n);
    After(trace[..n])
  }

  lemma BeforeIsSame(trace: seq<Step>, n: nat)
    requires Runnable(trace) && trace != [] && n < |trace|
    ensures Runnable(trace[..|trace| - 1]) && Before(trace, n) == Before(trace[..|trace| - 1], n)
    ensures Enabled(Before(trace, n), trace[n])
  {
    var last := |trace| - 1;
    PrefixRuns(trace, last);
    assert trace[..last][..n] == trace[..n];
    PrefixRuns(trace, n + 1);
    assert trace[..n + 1][..n] == trace[..n];
  }

  /** All that a cancelled active run has of its own is told or about to be told: its graph and its
      streams. Nothing is told for a graph whose event is not set. */
  lemma RunIsInterrupted(trace: seq<Step>)
    requires Runnable(trace)
    ensures var s := After(trace);
            && (ActiveCancelled(s.ledger) ==>
                  && Reached(s, ToGraph(s.ledger.active.value))
                  && forall x | x in s.streams :: Reached(s, ToStream(x)))
            && forall g | Reached(s, ToGraph(g)) :: g in s.ledger.cancelled
  {
    ReachableIsSound(trace);
  }

  /** The check of the tool came at `i` and saw no cancel; at its registration at `j` the active run was
      cancelled all the same; and no cancel has taken stock since. */
  ghost predicate MissedAt(trace: seq<Step>, tool: nat, i: nat, j: nat)
    requires Runnable(trace)
  {
    && i < j < |trace| && trace[i] == Check(tool) && trace[j] == Enter(tool)
    && !Requested(Before(trace, i).ledger) && ActiveCancelled(Before(trace, j).ledger)
    && forall k | j < k < |trace| && trace[k] == Cancel :: !Effective(Before(trace, k).ledger)
  }

  ghost predicate Missed(trace: seq<Step>, tool: nat)
    requires Runnable(trace)
  {
    exists i, j :: MissedAt(trace, tool, i, j)
  }

  lemma {:induction false} StageAfter(trace: seq<Step>, n: nat, tool: nat)
    requires Runnable(trace) && n < |trace| && trace[n] in {Check(tool), Enter(tool)}
    ensures tool in After(trace).contexts && After(trace).contexts[tool].stage != Scoped
    ensures trace[n] == Enter(tool) ==> After(trace).contexts[tool].stage in {Opened, Closed}
  {
    var last := |trace| - 1;
    if n < last {
      StageAfter(trace[..last], n, tool);
    }
  }

  lemma OnlyOnce(trace: seq<Step>, m: nat, n: nat, tool: nat)
    requires Runnable(trace) && m < n < |trace|
    requires trace[m] in {Check(tool), Enter(tool)}
    ensures trace[n] != Check(tool) && (trace[m] == Enter(tool) ==> trace[n] != Enter(tool))
  {
    BeforeIsSame(trace, n);
    PrefixRuns(trace, n);
    StageAfter(trace[..n], m, tool);
  }

  /** Until a tool is registered, only its own check can have told it. */
  lemma {:induction false} CheckedAt(trace: seq<Step>, tool: nat) returns (i: nat)
    requires Runnable(trace) && At(After(trace), tool, Checked)
    ensures i < |trace| && trace[i] == Check(tool)
    ensures Reached(After(trace), ToTool(tool)) <==> Requested(Before(trace, i).ledger)
  {
    var last := |trace| - 1;
    ReachableIsSound(trace[..last]);
    if trace[last] == Check(tool) {
      i := last;
    } else {
      CheckedStays(After(trace[..last]), trace[last], tool);
      i := CheckedAt(trace[..last], tool);
      BeforeIsSame(trace, i);
    }
  }

  lemma CheckedStays(s: State, step: Step, tool: nat)
    requires Inv(s) && Enabled(s, step) && step != Check(tool) && At(Do(s, step), tool, Checked)
    ensures At(s, tool, Checked)
    ensures Reached(Do(s, step), ToTool(tool)) <==> Reached(s, ToTool(tool))
  {
    hide G.Apply, G.Sound;
    assert tool !in s.tools;
  }

  /** A registered tool of a cancelled active run is told, or about to be told, except exactly when the
      cancel fell between its check and its registration, and no later cancel took stock. */
  lemma {:induction false} UntoldIffMissed(trace: seq<Step>, tool: nat)
    requires Runnable(trace) && tool in After(trace).tools && ActiveCancelled(After(trace).ledger)
    ensures !Reached(After(trace), ToTool(tool)) <==> Missed(trace, tool)
    decreases |trace|
  {
    hide Enabled, Missed, Inv, Reached, Effective, ActiveCancelled;
    var last := |trace| - 1;
    var before := After(trace[..last]);
    ReachableIsSound(trace[..last]);
    BeforeIsSame(trace, last);
    if trace[last] == Enter(tool) {
      AtRegistration(trace, tool);
    } else if trace[last] == Cancel && Effective(before.ledger) {
      StockTells(before, tool);
      CancelIsLast(trace, tool);
    } else {
      OtherStep(before, trace[last], tool);
      UntoldIffMissed(trace[..last], tool);
      MissedStays(trace, tool);
    }
  }

  lemma StockTells(s: State, tool: nat)
    requires Effective(s.ledger) && tool in Do(s, Cancel).tools
    ensures Reached(Do(s, Cancel), ToTool(tool))
  {
    assert ToTool(tool) in Stock(s);
  }

  lemma CancelIsLast(trace: seq<Step>, tool: nat)
    requires Runnable(trace) && trace != []
    requires var last := |trace| - 1; trace[last] == Cancel && Effective(Before(trace, last).ledger)
    ensures !Missed(trace, tool)
  {
    hide Runnable, Before;
  }

  lemma AtRegistration(trace: seq<Step>, tool: nat)
    requires Runnable(trace) && trace != [] && trace[|trace| - 1] == Enter(tool)
    requires ActiveCancelled(After(trace).ledger)
    ensures !Reached(After(trace), ToTool(tool)) <==> Missed(trace, tool)
  {
    var last := |trace| - 1;
    var i := CheckedAt(trace[..last], tool);
    BeforeIsSame(trace, i);
    BeforeIsSame(trace, last);
    if !Requested(Before(trace, i).ledger) {
      assert MissedAt(trace, tool, i, last);
    }
    if Missed(trace, tool) {
      var m, j :| MissedAt(trace, tool, m, j);
      if m < i { OnlyOnce(trace, m, i, tool); }
      if i < m { OnlyOnce(trace, i, m, tool); }
    }
  }

  /** Any other step leaves a registered tool and its run as they are. */
  lemma OtherStep(s: State, step: Step, tool: nat)
    requires Inv(s) && Enabled(s, step)
    requires step != Enter(tool) && (step == Cancel ==> !Effective(s.ledger))
    requires tool in Do(s, step).tools && ActiveCancelled(Do(s, step).ledger)
    ensures tool in s.tools && ActiveCancelled(s.ledger)
    ensures Reached(Do(s, step), ToTool(tool)) <==> Reached(s, ToTool(tool))
  {
  }

  lemma MissedStays(trace: seq<Step>, tool: nat)
    requires Runnable(trace) && trace != []
    requires var last := trace[|trace| - 1];
             last != Enter(tool) && (last == Cancel ==> !Effective(Before(trace, |trace| - 1).ledger))
    ensures Runnable(trace[..|trace| - 1])
    ensures Missed(trace, tool) <==> Missed(trace[..|trace| - 1], tool)
  {
    var last := |trace| - 1;
    PrefixRuns(trace, last);
    if Missed(trace, tool) {
      var i, j :| MissedAt(trace, tool, i, j);
      MissedAtSame(trace, tool, i, j);
    }
    if Missed(trace[..last], tool) {
      var i, j :| MissedAt(trace[..last], tool, i, j);
      MissedAtSame(trace, tool, i, j);
    }
  }

  lemma MissedAtSame(trace: seq<Step>, tool: nat, i: nat, j: nat)
    requires Runnable(trace) && trace != [] && Runnable(trace[..|trace| - 1]) && i < j
    requires var last := trace[|trace| - 1];
             last != Enter(tool) && (last == Cancel ==> !Effective(Before(trace, |trace| - 1).ledger))
    ensures MissedAt(trace, tool, i, j) <==> MissedAt(trace[..|trace| - 1], tool, i, j)
  {
    hide Before, Requested, ActiveCancelled, Effective;
    var last := |trace| - 1;
    var shorter := trace[..last];
    if j < last {
      BeforeIsSame(trace, i);
      BeforeIsSame(trace, j);
      forall k | j < k < last
        ensures Before(trace, k) == Before(shorter, k)
      {
        BeforeIsSame(trace, k);
      }
      assert forall k | j < k < last :: trace[k] == shorter[k];
    }
  }

  /** `ToolCancelContext.cancelled`: told, or the event it carries is set. */
  predicate Stops(s: State, tool: nat) {
    ToTool(tool) in s.told ||
    (tool in s.contexts && s.contexts[tool].event.Some? && s.contexts[tool].event.value in s.ledger.cancelled)
  }

  /** Told or not, a tool whose run neither began nor ended while it was opening, and since, sees the
      cancel of its run through the event. */
  lemma OwnRunStops(trace: seq<Step>, tool: nat, r: nat)
    requires Runnable(trace) && r < |trace| && trace[r] == ReadScope(tool)
    requires forall k | r < k < |trace| :: trace[k] != Begin && trace[k] != End
    requires ActiveCancelled(After(trace).ledger)
    ensures Stops(After(trace), tool)
  {
    EventKept(trace, tool, r);
  }

  lemma {:induction false} EventKept(trace: seq<Step>, tool: nat, r: nat)
    requires Runnable(trace) && r < |trace| && trace[r] == ReadScope(tool)
    requires forall k | r < k < |trace| :: trace[k] != Begin && trace[k] != End
    ensures var s := After(trace);
            && tool in s.contexts
            && (s.ledger.active.Some? ==> s.contexts[tool].event == s.ledger.active)
    decreases |trace|
  {
    var last := |trace| - 1;
    if r < last {
      EventKept(trace[..last], tool, r);
    }
  }

  lemma OneMore(trace: seq<Step>, step: Step) returns (longer: seq<Step>)
    requires Runnable(trace) && Enabled(After(trace), step)
    ensures longer == trace + [step] && Runnable(longer) && After(longer) == Do(After(trace), step)
  {
    longer := trace + [step];
    assert longer[..|trace|] == trace;
  }

  /** A run that leaves a tool untold for good: the cancel falls between its check and its
      registration, and every later cancel finds the event set. The event is what stops the tool. */
  lemma UntoldTool(tool: nat) returns (trace: seq<Step>)
    ensures trace == [Begin, ReadScope(tool), Check(tool), Cancel, Enter(tool)] && Runnable(trace)
    ensures var s := After(trace);
            && tool in s.tools && ActiveCancelled(s.ledger) && !Reached(s, ToTool(tool))
            && !Effective(s.ledger) && Stops(s, tool)
  {
    hide Runnable, After, Stock;
    trace := OpeningTool(tool);
    trace := OneMore(trace, Cancel);
    NoTools(OpeningState(tool));
    trace := OneMore(trace, Enter(tool));
  }

  /** A tool that opens across a change of runs is stopped by nothing. */
  lemma OutlivingTool(tool: nat) returns (trace: seq<Step>)
    ensures trace == [Begin, ReadScope(tool), Check(tool), End, Begin, Cancel, Enter(tool)] && Runnable(trace)
    ensures var s := After(trace);
            && tool in s.tools && ActiveCancelled(s.ledger) && !Reached(s, ToTool(tool))
            && !Effective(s.ledger) && !Stops(s, tool)
  {
    hide Runnable, After, Stock;
    trace := OpeningTool(tool);
    trace := OneMore(trace, End);
    trace := OneMore(trace, Begin);
    NoTools(After(trace));
    trace := OneMore(trace, Cancel);
    trace := OneMore(trace, Enter(tool));
  }

  ghost function OpeningState(tool: nat): State {
    INITIAL.(ledger := G.Ledger(Some(1), None, Some(1), 2, {}), begun := {1},
             contexts := map[tool := Context(Some(1), Checked)])
  }

  lemma OpeningTool(tool: nat) returns (trace: seq<Step>)
    ensures trace == [Begin, ReadScope(tool), Check(tool)] && Runnable(trace)
    ensures After(trace) == OpeningState(tool)
  {
    hide Runnable, After;
    NothingRun();
    trace := OneMore([], Begin);
    trace := OneMore(trace, ReadScope(tool));
    trace := OneMore(trace, Check(tool));
  }

  lemma NothingRun()
    ensures Runnable([]) && After([]) == INITIAL
  {
  }

  lemma NoTools(s: State)
    requires s.tools == {}
    ensures forall tool :: ToTool(tool) !in Stock(s)
  {
  }

  /** A cancel that selects a reservation leaves the active run uncancelled, and takes stock of the
      active tools and the children exactly when the reservation was not cancelled before. */
  lemma CancelOfReservation(s: State)
    requires Inv(s) && s.ledger.reserved.Some? && s.ledger.active.Some? && !ActiveCancelled(s.ledger)
    ensures !ActiveCancelled(Do(s, Cancel).ledger)
    ensures Effective(s.ledger) <==> s.ledger.reserved.value !in s.ledger.cancelled
    ensures Do(s, Cancel).owed == s.owed + if !Effective(s.ledger) then {} else
              (set x | x in s.tools :: ToTool(x)) + (set x | x in s.children :: ToChild(x))
  {
  }

  /** After a cancel the controller reports that one was requested, idle or not, exactly unless it went to
      a reservation while another run is active that is not cancelled itself. */
  lemma CancelIsSeenIff(s: State)
    requires Inv(s)
    ensures Requested(Do(s, Cancel).ledger) <==>
              !(s.ledger.active.Some? && s.ledger.reserved.Some?) || Requested(s.ledger)
  {
  }

  /** For instance a tool of the active run is told to stop when a later run is reserved and cancelled. */
  lemma ReservationStopsTool(tool: nat) returns (trace: seq<Step>)
    ensures trace == [Begin, ReadScope(tool), Check(tool), Enter(tool), Reserve, Cancel] && Runnable(trace)
    ensures var s := After(trace);
            && s.ledger.active.Some? && !ActiveCancelled(s.ledger) && tool in s.tools && ToTool(tool) in s.owed
            && s.ledger.reserved.Some? && s.ledger.reserved.value in s.ledger.cancelled
  {
    hide Runnable, After, Stock;
    trace := OpeningTool(tool);
    trace := OneMore(trace, Enter(tool));
    trace := OneMore(trace, Reserve);
    var s := After(trace);
    assert s.tools == {tool} && s.ledger == G.Ledger(Some(1), Some(2), Some(1), 3, {});
    ToolsInStock(s);
    trace := OneMore(trace, Cancel);
  }

  lemma ToolsInStock(s: State)
    ensures forall tool | tool in s.tools :: ToTool(tool) in Stock(s)
  {
  }
}
