/** Who is registered with the controller and who is told, from the steps of a run alone. */
module Membership {
  import opened Results
  import G = Generations
  import opened Interrupts

  /** The part of a step that concerns the generations. */
  function Ops(step: Step): seq<G.Op> {
    match step
    case Reserve => [G.Reserve]
    case Release(generation) => [G.Release(generation)]
    case Begin => [G.Begin]
    case End => [G.End]
    case Cancel => [G.Cancel]
    case _ => []
  }

  function History(trace: seq<Step>): seq<G.Op> {
    if trace == [] then [] else History(trace[..|trace| - 1]) + Ops(trace[|trace| - 1])
  }

  /** Whatever else the threads do in between, generations and events are those of the history of these
      operations, so what is proved of histories holds in every interleaving. */
  lemma {:induction false} LedgerFollows(trace: seq<Step>)
    requires Runnable(trace)
    ensures After(trace).ledger == G.After(History(trace))
  {
    if trace != [] {
      var before, step := trace[..|trace| - 1], trace[|trace| - 1];
      LedgerFollows(before);
      var history := History(before);
      if Ops(step) == [] {
        assert history + [] == history;
        QuietLedger(After(before), step);
      } else {
        assert Ops(step) == [Ops(step)[0]];
        assert (history + Ops(step))[..|history|] == history;
        LedgerStep(After(before), step);
      }
    }
  }

  lemma QuietLedger(s: State, step: Step)
    requires Enabled(s, step) && Ops(step) == []
    ensures Do(s, step).ledger == s.ledger
  {
  }

  lemma LedgerStep(s: State, step: Step)
    requires Enabled(s, step) && Ops(step) != []
    ensures Do(s, step).ledger == G.Apply(s.ledger, Ops(step)[0])
  {
    hide G.Apply;
  }

  /** `x` came at `k`, and nothing took it away since. */
  ghost predicate Since(trace: seq<Step>, comes: Step, goes: set<Step>, k: nat) {
    k < |trace| && trace[k] == comes && forall j | k < j < |trace| :: trace[j] !in goes
  }

  lemma SinceSnoc(trace: seq<Step>, comes: Step, goes: set<Step>)
    requires trace != [] && comes !in goes
    ensures var last := |trace| - 1;
            (exists k: nat :: Since(trace, comes, goes, k)) <==>
              trace[last] == comes || (trace[last] !in goes && exists k: nat :: Since(trace[..last], comes, goes, k))
  {
    var last := |trace| - 1;
    assert forall j | 0 <= j < last :: trace[..last][j] == trace[j];
    if trace[last] == comes {
      assert Since(trace, comes, goes, last);
    }
    if k: nat :| Since(trace, comes, goes, k) && k < last {
      assert Since(trace[..last], comes, goes, k);
    }
    if trace[last] !in goes && exists k: nat :: Since(trace[..last], comes, goes, k) {
      var k: nat :| Since(trace[..last], comes, goes, k);
      assert Since(trace, comes, goes, k);
    }
  }

  /** A tool is registered from its opening until it is closed or a run begins or ends. */
  lemma {:induction false} ToolsIff(trace: seq<Step>, tool: nat)
    requires Runnable(trace)
    ensures tool in After(trace).tools <==>
              exists k: nat :: Since(trace, Enter(tool), {Close(tool), Begin, End}, k)
    decreases |trace|
  {
    if trace != [] {
      var before := trace[..|trace| - 1];
      ToolsIff(before, tool);
      SinceSnoc(trace, Enter(tool), {Close(tool), Begin, End});
      ToolStep(After(before), trace[|trace| - 1], tool);
    }
  }

  lemma ToolStep(s: State, step: Step, tool: nat)
    requires Enabled(s, step)
    ensures tool in Do(s, step).tools <==>
              step == Enter(tool) || (step !in {Close(tool), Begin, End} && tool in s.tools)
  {
  }

  /** A child is registered from its coming until its going. */
  lemma {:induction false} ChildrenIff(trace: seq<Step>, child: nat)
    requires Runnable(trace)
    ensures child in After(trace).children <==> exists k: nat :: Since(trace, AddChild(child), {DropChild(child)}, k)
    decreases |trace|
  {
    if trace != [] {
      var before := trace[..|trace| - 1];
      ChildrenIff(before, child);
      SinceSnoc(trace, AddChild(child), {DropChild(child)});
      ChildStep(After(before), trace[|trace| - 1], child);
    }
  }

  lemma ChildStep(s: State, step: Step, child: nat)
    requires Enabled(s, step)
    ensures child in Do(s, step).children <==>
              step == AddChild(child) || (step != DropChild(child) && child in s.children)
  {
  }

  /** A stream joins at `k` if a run is active and not cancelled then. */
  ghost predicate Joins(trace: seq<Step>, stream: nat, k: nat)
    requires Runnable(trace)
  {
    && Since(trace, JoinStream(stream), {LeaveStream(stream), Begin, End}, k)
    && var l := Before(trace, k).ledger; l.active.Some? && l.active.value !in l.cancelled
  }

  lemma {:induction false} StreamsIff(trace: seq<Step>, stream: nat)
    requires Runnable(trace)
    ensures stream in After(trace).streams <==> exists k: nat :: Joins(trace, stream, k)
    decreases |trace|
  {
    if trace != [] {
      var last := |trace| - 1;
      var before, s, step := trace[..last], After(trace[..last]), trace[last];
      StreamsIff(before, stream);
      StreamStep(s, step, stream);
      BeforeIsSame(trace, last);
      assert before[..last] == before;
      forall k: nat | k < last
        ensures Joins(trace, stream, k) <==> step !in {LeaveStream(stream), Begin, End} && Joins(before, stream, k)
      {
        BeforeIsSame(trace, k);
        assert forall j | 0 <= j < last :: before[j] == trace[j];
      }
      if step == JoinStream(stream) && s.ledger.active.Some? && !ActiveCancelled(s.ledger) {
        assert Joins(trace, stream, last);
      }
    }
  }

  lemma StreamStep(s: State, step: Step, stream: nat)
    requires Enabled(s, step)
    ensures stream in Do(s, step).streams <==>
              || (step == JoinStream(stream) && s.ledger.active.Some? && s.ledger.active.value !in s.ledger.cancelled)
              || (step !in {LeaveStream(stream), Begin, End} && stream in s.streams)
  {
  }

  /** The step of somebody who is to be told: a cancel that sets an event, while the stream is one of the
      run that it selects or the tool or child is registered; an opening or a coming after a cancel; a
      run that begins cancelled, for its graph. */
  predicate Calls(s: State, step: Step, notice: Notice) {
    var cancels := step == Cancel && Effective(s.ledger);
    match notice
    case ToStream(x) => cancels && x in s.streams && s.ledger.active == Some(G.Target(s.ledger))
    case ToTool(x) => (cancels && x in s.tools) || (step == Check(x) && Requested(s.ledger))
    case ToChild(x) => (cancels && x in s.children) || (step == AddChild(x) && Requested(s.ledger))
    case ToGraph(g) =>
      || (cancels && G.Target(s.ledger) == g && g in s.begun)
      || (step == Begin && G.Upcoming(s.ledger) == g && (g in s.ledger.cancelled || ActiveCancelled(s.ledger)))
  }

  ghost predicate CalledAt(trace: seq<Step>, notice: Notice, k: nat)
    requires Runnable(trace)
  {
    k < |trace| && Calls(Before(trace, k), trace[k], notice)
  }

  /** Exactly who is told, or will be once the pending notices are delivered. */
  lemma {:induction false} NoticedIff(trace: seq<Step>, notice: Notice)
    requires Runnable(trace)
    ensures Reached(After(trace), notice) <==> exists k: nat :: CalledAt(trace, notice, k)
    decreases |trace|
  {
    if trace != [] {
      var last := |trace| - 1;
      var before, s, step := trace[..last], After(trace[..last]), trace[last];
      NoticedIff(before, notice);
      NoticeStep(s, step, notice);
      BeforeIsSame(trace, last);
      assert before[..last] == before;
      forall k: nat | k < last
        ensures CalledAt(trace, notice, k) <==> CalledAt(before, notice, k)
      {
        BeforeIsSame(trace, k);
      }
      if Calls(s, step, notice) {
        assert CalledAt(trace, notice, last);
      }
    }
  }

  lemma NoticeStep(s: State, step: Step, notice: Notice)
    requires Enabled(s, step)
    ensures Reached(Do(s, step), notice) <==> Reached(s, notice) || Calls(s, step, notice)
  {
  }

  /** A delivered notice is no longer pending, and nothing else leaves the pending ones. */
  lemma Delivered(s: State, step: Step, notice: Notice)
    requires Enabled(s, step)
    ensures step == Tell(notice) ==> notice in Do(s, step).told && notice !in Do(s, step).owed
    ensures step != Tell(notice) && notice in s.owed ==> notice in Do(s, step).owed
    ensures notice in s.told ==> notice in Do(s, step).told
  {
  }

  ghost predicate BegunAt(trace: seq<Step>, g: nat, k: nat)
    requires Runnable(trace)
  {
    k < |trace| && trace[k] == Begin && G.Upcoming(Before(trace, k).ledger) == g
  }

  /** The generations that have begun are those of the begins. */
  lemma {:induction false} BegunIff(trace: seq<Step>, g: nat)
    requires Runnable(trace)
    ensures g in After(trace).begun <==> exists k: nat :: BegunAt(trace, g, k)
    decreases |trace|
  {
    if trace != [] {
      var last := |trace| - 1;
      var before, s, step := trace[..last], After(trace[..last]), trace[last];
      BegunIff(before, g);
      BegunStep(s, step, g);
      BeforeIsSame(trace, last);
      assert before[..last] == before;
      forall k: nat | k < last
        ensures BegunAt(trace, g, k) <==> BegunAt(before, g, k)
      {
        BeforeIsSame(trace, k);
      }
      if step == Begin && G.Upcoming(s.ledger) == g {
        assert BegunAt(trace, g, last);
      }
    }
  }

  lemma BegunStep(s: State, step: Step, g: nat)
    requires Enabled(s, step)
    ensures g in Do(s, step).begun <==> g in s.begun || (step == Begin && G.Upcoming(s.ledger) == g)
  {
  }

  /** A child that joins while a run is active whose successor is already cancelled is not told, and no
      later cancel of that successor tells it. */
  lemma UntoldChild(child: nat) returns (trace: seq<Step>)
    ensures trace == [Begin, Reserve, Cancel, AddChild(child), Begin] && Runnable(trace)
    ensures var s := After(trace);
            && child in s.children && ActiveCancelled(s.ledger) && !Reached(s, ToChild(child)) && !Effective(s.ledger)
  {
    hide Runnable, After, Stock;
    NothingRun();
    trace := OneMore([], Begin);
    trace := OneMore(trace, Reserve);
    NobodyInStock(After(trace));
    trace := OneMore(trace, Cancel);
    trace := OneMore(trace, AddChild(child));
    trace := OneMore(trace, Begin);
  }

  lemma NobodyInStock(s: State)
    requires s.streams == {} && s.tools == {} && s.children == {} && G.Target(s.ledger) !in s.begun
    ensures Stock(s) == {}
  {
  }
}
