/** The run controller: run scopes with their cancel events, the model streams of a run, and
    the steering and follow-up queues. */
module Control {
  import opened Results
  import G = Generations
  import I = Interrupts

  datatype Mode = Steer | FollowUp
  datatype Queued = Queued(text: string, mode: Mode, order: nat)

  predicate Increasing(messages: seq<Queued>) {
    forall i, j | 0 <= i < j < |messages| :: messages[i].order < messages[j].order
  }

  predicate Disjoint(a: seq<Queued>, b: seq<Queued>) {
    forall x, y | x in a && y in b :: x.order != y.order
  }

  /** `sorted((*a, *b), key=order)` for two queues that are in order themselves. */
  function Merged(a: seq<Queued>, b: seq<Queued>): (r: seq<Queued>)
    ensures |r| == |a| + |b|
  {
    if a == [] then b
    else if b == [] then a
    else if a[0].order < b[0].order then [a[0]] + Merged(a[1..], b)
    else [b[0]] + Merged(a, b[1..])
  }

  lemma {:induction false} MergedMembers(a: seq<Queued>, b: seq<Queued>, m: Queued)
    ensures m in Merged(a, b) <==> m in a || m in b
  {
    if a != [] && b != [] {
      if a[0].order < b[0].order {
        MergedMembers(a[1..], b, m);
        assert a == [a[0]] + a[1..];
      } else {
        MergedMembers(a, b[1..], m);
        assert b == [b[0]] + b[1..];
      }
    }
  }

  lemma {:induction false} MergedIsSorted(a: seq<Queued>, b: seq<Queued>)
    requires Increasing(a) && Increasing(b) && Disjoint(a, b)
    ensures Increasing(Merged(a, b))
  {
    if a != [] && b != [] {
      HeadIsLeast(a);
      HeadIsLeast(b);
      assert a[0] in a && b[0] in b;
      if a[0].order < b[0].order {
        MergedIsSorted(a[1..], b);
        forall m | m in Merged(a[1..], b) ensures a[0].order < m.order { MergedMembers(a[1..], b, m); }
        HeadFirst(a[0], Merged(a[1..], b));
      } else {
        MergedIsSorted(a, b[1..]);
        forall m | m in Merged(a, b[1..]) ensures b[0].order < m.order { MergedMembers(a, b[1..], m); }
        HeadFirst(b[0], Merged(a, b[1..]));
      }
    }
  }

  lemma HeadIsLeast(queue: seq<Queued>)
    requires queue != [] && Increasing(queue)
    ensures Increasing(queue[1..])
    ensures forall m | m in queue[1..] :: m in queue && queue[0].order < m.order
    ensures forall m | m in queue :: m == queue[0] || m in queue[1..]
  {
    assert queue == [queue[0]] + queue[1..];
  }

  lemma HeadFirst(head: Queued, tail: seq<Queued>)
    requires Increasing(tail) && forall m | m in tail :: head.order < m.order
    ensures Increasing([head] + tail)
  {
  }

  class RunScope {
    const generation: nat
    var cancelled: bool
    var streams: set<nat>

    constructor (generation: nat)
      ensures this.generation == generation && !cancelled && streams == {}
    {
      this.generation, cancelled, streams := generation, false, {};
    }
  }

  /** The controller, one method for each part that runs under its lock. Every method is one step of
      `Interrupts`, so whatever order the threads take them in is a run of that relation. */
  class RunController {
    var active: RunScope?
    var reserved: RunScope?
    var last: RunScope?
    var nextGeneration: nat
    var pauseRequested: bool
    var tools: set<nat>
    var children: set<nat>
    /** The generations that have a graph to drain: those that have begun. */
    var begun: set<nat>
    /** Every generation whose event was ever set, the tool contexts, and who was or will be told. */
    ghost var marks: set<nat>
    ghost var contexts: map<nat, I.Context>
    ghost var owed: set<I.Notice>
    ghost var told: set<I.Notice>

    ghost function Scopes(): set<RunScope>
      reads `active, `reserved, `last
    {
      (if active == null then {} else {active}) + (if reserved == null then {} else {reserved})
      + (if last == null then {} else {last})
    }

    static function GenerationOf(scope: RunScope?): Option<nat> {
      if scope == null then None else Some(scope.generation)
    }

    ghost function Ledger(): G.Ledger
      reads `active, `reserved, `last, `nextGeneration, `marks
    {
      G.Ledger(GenerationOf(active), GenerationOf(reserved), GenerationOf(last), nextGeneration, marks)
    }

    ghost function View(): I.State
      reads this, Scopes()
    {
      I.State(Ledger(), if active == null then {} else active.streams, tools, children, begun, contexts, owed, told)
    }

    /** The active run is the last one, a reservation has a generation of its own, an event is set iff
        its generation is marked, and only the active run has streams. */
    ghost predicate Valid()
      reads `active, `reserved, `last, `nextGeneration, `marks, Scopes()
    {
      && G.Sound(Ledger())
      && (active != null ==> last == active)
      && (reserved != null ==> (reserved.cancelled <==> reserved.generation in marks) && reserved.streams == {})
      && (last != null ==> (last.cancelled <==> last.generation in marks))
      && (last != null && active == null ==> last.streams == {})
    }

    constructor ()
      ensures Valid() && View() == I.INITIAL
    {
      active, reserved, last, nextGeneration := null, null, null, 1;
      pauseRequested, tools, children, begun := false, {}, {}, {};
      marks, contexts, owed, told := {}, map[], {}, {};
    }

    /** `_current_scope` */
    function CurrentScope(): RunScope?
      reads this
    {
      if active != null then active else if reserved != null then reserved else last
    }

    /** `cancel_requested` */
    predicate CancelRequested()
      reads this, CurrentScope()
    {
      CurrentScope() != null && CurrentScope().cancelled
    }

    lemma RequestedInView()
      requires Valid()
      ensures CancelRequested() <==> I.Requested(View().ledger)
      ensures GenerationOf(CurrentScope()) == I.Current(View().ledger)
    {
    }

    method ReserveRun() returns (generation: nat)
      requires Valid()
      modifies `reserved, `nextGeneration
      ensures Valid() && fresh(Scopes() - old(Scopes()))
      ensures View() == I.Do(old(View()), I.Reserve)
      ensures reserved != null && generation == reserved.generation
    {
      if reserved == null {
        reserved := new RunScope(nextGeneration);
        nextGeneration := nextGeneration + 1;
      }
      generation := reserved.generation;
    }

    method ReleaseReservation(generation: nat)
      requires Valid()
      modifies `reserved
      ensures Valid() && Scopes() <= old(Scopes())
      ensures View() == I.Do(old(View()), I.Release(generation))
    {
      if reserved != null && reserved.generation == generation {
        reserved := null;
      }
    }

    /** The reservation if there is one, else a new scope. */
    method TakeReservation() returns (scope: RunScope)
      modifies `reserved, `nextGeneration
      ensures reserved == null
      ensures old(reserved) != null ==> scope == old(reserved) && nextGeneration == old(nextGeneration)
      ensures old(reserved) == null ==>
                && fresh(scope) && scope.generation == old(nextGeneration) && nextGeneration == old(nextGeneration) + 1
                && !scope.cancelled && scope.streams == {}
    {
      if reserved != null {
        scope := reserved;
      } else {
        scope := new RunScope(nextGeneration);
        nextGeneration := nextGeneration + 1;
      }
      reserved := null;
    }

    /** A begin without an end carries an accepted cancel over and retires the streams of before. */
    method Inherit(previous: RunScope?, scope: RunScope)
      requires previous != scope
      modifies `marks, scope`cancelled, if previous == null then {} else {previous}
      ensures previous != null ==> previous.streams == {} && previous.cancelled == old(previous.cancelled)
      ensures var carried := previous != null && old(previous.cancelled);
              && scope.cancelled == (old(scope.cancelled) || carried)
              && marks == old(marks) + if carried then {scope.generation} else {}
    {
      if previous != null {
        if previous.cancelled {
          scope.cancelled := true;
          marks := marks + {scope.generation};
        }
        previous.streams := {};
      }
    }

    /** A run that begins cancelled owes its graph a notice. */
    method StartGraph(scope: RunScope)
      modifies `begun, `owed
      ensures begun == old(begun) + {scope.generation}
      ensures owed == old(owed) + if scope.cancelled then {I.ToGraph(scope.generation)} else {}
    {
      begun := begun + {scope.generation};
      if scope.cancelled {
        owed := owed + {I.ToGraph(scope.generation)};
      }
    }

    /** The scope of the run that begins: its cancel carried over, its graph started. */
    method NextScope() returns (scope: RunScope)
      requires active == null || active != reserved
      modifies `reserved, `nextGeneration, `marks, `begun, `owed, Scopes()
      ensures reserved == null && scope != active
      ensures old(reserved) != null ==>
                scope == old(reserved) && scope.streams == old(scope.streams) && nextGeneration == old(nextGeneration)
      ensures old(reserved) == null ==>
                && fresh(scope) && scope.generation == old(nextGeneration) && nextGeneration == old(nextGeneration) + 1
                && scope.streams == {}
      ensures active != null ==> active.streams == {} && active.cancelled == old(active.cancelled)
      ensures var carried := active != null && active.cancelled;
              && scope.cancelled == (carried || (old(reserved) != null && old(reserved.cancelled)))
              && marks == old(marks) + if carried then {scope.generation} else {}
      ensures begun == old(begun) + {scope.generation}
      ensures owed == old(owed) + if scope.cancelled then {I.ToGraph(scope.generation)} else {}
    {
      scope := TakeReservation();
      Inherit(active, scope);
      StartGraph(scope);
    }

    method BeginRun()
      requires Valid()
      modifies `active, `reserved, `last, `nextGeneration, `tools, `begun, `marks, `owed, Scopes()
      ensures Valid() && fresh(Scopes() - old(Scopes()))
      ensures View() == I.Do(old(View()), I.Begin)
    {
      hide G.Sound;
      G.SoundMeans(Ledger());
      G.ApplyIsSound(Ledger(), G.Begin);
      var scope := NextScope();
      active, last, tools := scope, scope, {};
      assert Ledger() == G.Apply(old(Ledger()), G.Begin);
    }

    method EndRun()
      requires Valid()
      modifies `active, `tools, Scopes()
      ensures Valid() && Scopes() <= old(Scopes())
      ensures View() == I.Do(old(View()), I.End)
    {
      var scope := active;
      active, tools := null, {};
      if scope != null {
        scope.streams := {};
      }
    }

    /** The scope that a cancel selects; an idle one is recorded without touching any future run. */
    method SelectScope() returns (scope: RunScope)
      modifies `last, `nextGeneration
      ensures scope.generation == G.Target(old(Ledger()))
      ensures Ledger().(cancelled := marks + {scope.generation}) == G.Apply(old(Ledger()), G.Cancel)
      ensures reserved != null ==> scope == reserved
      ensures reserved == null && active != null ==> scope == active
      ensures reserved == null && active == null ==> scope == last
      ensures (reserved != null || active != null || old(last) != null) ==>
                last == old(last) && nextGeneration == old(nextGeneration)
      ensures reserved == null && active == null && old(last) == null ==>
                && fresh(scope) && scope.generation == old(nextGeneration) && nextGeneration == old(nextGeneration) + 1
                && !scope.cancelled && scope.streams == {}
    {
      var selected := if reserved != null then reserved else active;
      if selected == null {
        if last == null {
          last := new RunScope(nextGeneration);
          nextGeneration := nextGeneration + 1;
        }
        selected := last;
      }
      return selected;
    }

    /** What `scope` and the controller have to be told. */
    function Notices(scope: RunScope): set<I.Notice>
      reads this, scope
    {
      (set x | x in scope.streams :: I.ToStream(x)) + (set x | x in tools :: I.ToTool(x))
      + (set x | x in children :: I.ToChild(x))
      + if scope.generation in begun then {I.ToGraph(scope.generation)} else {}
    }

    /** The part of `cancel` under the lock: it sets one event and takes stock of whom to tell; a repeated
        cancel only clears the pause. */
    method Cancel() returns (notices: set<I.Notice>)
      requires Valid()
      modifies `last, `nextGeneration, `pauseRequested, `marks, `owed, Scopes()
      ensures Valid() && fresh(Scopes() - old(Scopes())) && !pauseRequested
      ensures View() == I.Do(old(View()), I.Cancel)
      ensures notices == if I.Effective(old(Ledger())) then I.Stock(old(View())) else {}
    {
      hide G.Sound, G.Apply, I.Stock;
      G.SoundMeans(Ledger());
      G.ApplyIsSound(Ledger(), G.Cancel);
      var scope := SelectScope();
      pauseRequested := false;
      if scope.cancelled {
        assert marks + {scope.generation} == marks && owed + {} == owed;
        return {};
      }
      notices := Mark(scope);
      StockIsNotices(old(View()), scope.streams, notices);
    }

    method Mark(scope: RunScope) returns (notices: set<I.Notice>)
      modifies `marks, `owed, scope`cancelled
      ensures scope.cancelled && marks == old(marks) + {scope.generation}
      ensures notices == Notices(scope) && owed == old(owed) + notices
    {
      notices := Notices(scope);
      scope.cancelled := true;
      marks := marks + {scope.generation};
      owed := owed + notices;
    }

    /** One notice of the part of `cancel` that follows without the lock. */
    ghost method Tell(notice: I.Notice)
      requires notice in owed
      modifies `owed, `told
      ensures View() == I.Do(old(View()), I.Tell(notice))
    {
      owed, told := owed - {notice}, told + {notice};
    }

    /** A stream joins the active run unless that run is cancelled or absent. */
    method RegisterModelStream(stream: nat) returns (accepted: bool)
      requires Valid()
      modifies Scopes()
      ensures Valid() && View() == I.Do(old(View()), I.JoinStream(stream))
      ensures accepted <==> active != null && !active.cancelled
    {
      if active == null || active.cancelled {
        return false;
      }
      active.streams := active.streams + {stream};
      return true;
    }

    /** The first part of `open_tool_context`: the event of the current scope, or one of its own. */
    method ReadScope(tool: nat) returns (scope: RunScope?)
      requires Valid() && tool !in contexts
      modifies `contexts
      ensures Valid() && View() == I.Do(old(View()), I.ReadScope(tool))
      ensures scope == CurrentScope()
    {
      RequestedInView();
      scope := CurrentScope();
      contexts := contexts[tool := I.Context(GenerationOf(scope), I.Scoped)];
    }

    /** The second part: a tool that opens after the cancel is told at once. */
    method CheckCancelled(tool: nat) returns (seen: bool)
      requires Valid() && I.At(View(), tool, I.Scoped)
      modifies `contexts, `told
      ensures Valid() && View() == I.Do(old(View()), I.Check(tool))
      ensures seen == CancelRequested()
    {
      RequestedInView();
      seen := CancelRequested();
      contexts := contexts[tool := contexts[tool].(stage := I.Checked)];
      told := told + if seen then {I.ToTool(tool)} else {};
    }

    /** The third part, `register_tool`. */
    method RegisterTool(tool: nat)
      requires Valid() && I.At(View(), tool, I.Checked)
      modifies `contexts, `tools
      ensures Valid() && View() == I.Do(old(View()), I.Enter(tool))
    {
      contexts := contexts[tool := contexts[tool].(stage := I.Opened)];
      tools := tools + {tool};
    }

    /** `unregister_tool` */
    method UnregisterTool(tool: nat)
      requires Valid() && I.At(View(), tool, I.Opened)
      modifies `contexts, `tools
      ensures Valid() && View() == I.Do(old(View()), I.Close(tool))
    {
      contexts := contexts[tool := contexts[tool].(stage := I.Closed)];
      tools := tools - {tool};
    }

    /** `register_child` */
    method RegisterChild(child: nat)
      requires Valid()
      modifies `children, `told
      ensures Valid() && View() == I.Do(old(View()), I.AddChild(child))
    {
      RequestedInView();
      children := children + {child};
      told := told + if CancelRequested() then {I.ToChild(child)} else {};
    }
  }

  /** The stock of a cancel is the notices of the scope that it selects. */
  lemma StockIsNotices(s: I.State, streams: set<nat>, notices: set<I.Notice>)
    requires streams == if s.ledger.active == Some(G.Target(s.ledger)) then s.streams else {}
    requires var g := G.Target(s.ledger);
             notices == (set x | x in streams :: I.ToStream(x)) + (set x | x in s.tools :: I.ToTool(x))
                        + (set x | x in s.children :: I.ToChild(x)) + if g in s.begun then {I.ToGraph(g)} else {}
    ensures notices == I.Stock(s)
  {
  }

  /** The two input queues of the controller, with a record of what became of each message. */
  class InputQueues {
    var steering: seq<Queued>
    var followUps: seq<Queued>
    var nextOrder: nat
    var deferSteering: bool
    ghost var submitted: seq<Queued>
    ghost var applied: seq<Queued>
    ghost var reclaimed: set<Queued>

    /** Both queues are in submission order, and every submitted message is in exactly one of
        the queues, the applied messages and the reclaimed ones. */
    ghost predicate Valid()
      reads this
    {
      && nextOrder == |submitted|
      && (forall k | 0 <= k < |submitted| :: submitted[k].order == k)
      && Increasing(steering) && Increasing(followUps)
      && (forall m | m in steering :: m.mode.Steer?) && (forall m | m in followUps :: m.mode.FollowUp?)
      && (forall i, j | 0 <= i < j < |applied| :: applied[i] != applied[j])
      && (forall m :: m in submitted <==> m in steering || m in followUps || m in applied || m in reclaimed)
      && (forall m | m in applied :: m !in steering && m !in followUps && m !in reclaimed)
      && (forall m | m in reclaimed :: m !in steering && m !in followUps)
    }

    constructor ()
      ensures Valid() && submitted == [] && !deferSteering
    {
      steering, followUps, nextOrder, deferSteering := [], [], 0, false;
      submitted, applied, reclaimed := [], [], {};
    }

    method Submit(text: string, mode: Mode) returns (message: Queued)
      requires Valid()
      modifies this`steering, this`followUps, this`nextOrder, this`submitted
      ensures Valid() && message == Queued(text, mode, old(nextOrder))
      ensures submitted == old(submitted) + [message]
      ensures steering == old(steering) + if mode.Steer? then [message] else []
      ensures followUps == old(followUps) + if mode.FollowUp? then [message] else []
    {
      message := Queued(text, mode, nextOrder);
      nextOrder := nextOrder + 1;
      if mode.Steer? {
        steering := steering + [message];
      } else {
        followUps := followUps + [message];
      }
      submitted := submitted + [message];
    }

    /** Takes the oldest steering message, unless steering is deferred, the run is cancelled or
        an older follow-up is waiting. */
    method PopSteering(cancelRequested: bool) returns (message: Option<Queued>)
      requires Valid()
      modifies this`steering, this`applied
      ensures Valid()
      ensures message.Some? <==>
              !deferSteering && !cancelRequested && old(steering) != []
              && forall f | f in followUps :: old(steering)[0].order < f.order
      ensures message.None? ==> steering == old(steering) && applied == old(applied)
      ensures message.Some? ==> old(steering) == [message.value] + steering
                                && applied == old(applied) + [message.value]
    {
      message := None;
      if deferSteering || cancelRequested || steering == [] {
        return;
      }
      OrdersDiffer();
      assert followUps != [] ==> followUps[0] in followUps && steering[0] in steering;
      if followUps != [] && followUps[0].order < steering[0].order {
        return;
      }
      message := Some(steering[0]);
      TakeHead(steering);
      steering := steering[1..];
      applied := applied + [message.value];
    }

    method PopFollowUp() returns (message: Option<Queued>)
      requires Valid()
      modifies this`followUps, this`applied
      ensures Valid()
      ensures message.Some? <==> old(followUps) != []
      ensures message.None? ==> followUps == old(followUps) && applied == old(applied)
      ensures message.Some? ==> old(followUps) == [message.value] + followUps
                                && applied == old(applied) + [message.value]
    {
      if followUps == [] {
        return None;
      }
      message := Some(followUps[0]);
      TakeHead(followUps);
      followUps := followUps[1..];
      applied := applied + [message.value];
    }

    /** Hands back everything still queued, in submission order. */
    method TakeUnapplied() returns (messages: seq<Queued>)
      requires Valid()
      modifies this`steering, this`followUps, this`reclaimed
      ensures Valid() && steering == [] && followUps == []
      ensures Increasing(messages)
      ensures forall m :: m in messages <==> m in old(steering) || m in old(followUps)
      ensures reclaimed == old(reclaimed) + set m | m in messages
    {
      messages := Merged(steering, followUps);
      forall m ensures m in messages <==> m in steering || m in followUps {
        MergedMembers(steering, followUps, m);
      }
      OrdersDiffer();
      MergedIsSorted(steering, followUps);
      steering, followUps := [], [];
      reclaimed := reclaimed + set m | m in messages;
    }

    /** What the run boundary may still consume, in the order in which it will. */
    ghost function Consumable(): seq<Queued>
      reads this
    {
      if deferSteering then followUps else Merged(steering, followUps)
    }

    lemma ConsumableIsSorted()
      requires Valid()
      ensures Increasing(Consumable())
      ensures forall m :: m in Consumable() <==> (m in steering && !deferSteering) || m in followUps
    {
      OrdersDiffer();
      MergedIsSorted(steering, followUps);
      forall m ensures m in Merged(steering, followUps) <==> m in steering || m in followUps {
        MergedMembers(steering, followUps, m);
      }
    }

    /** The run-boundary loop with nothing cancelled or submitted meanwhile: it consumes
        exactly the pending messages in submission order or, with steering deferred, exactly
        the follow-ups. */
    method DrainBoundary() returns (ghost consumed: seq<Queued>)
      requires Valid()
      modifies this`steering, this`followUps, this`applied
      ensures Valid() && followUps == []
      ensures steering == if deferSteering then old(steering) else []
      ensures applied == old(applied) + consumed && Increasing(consumed)
      ensures forall m :: m in consumed <==> (m in old(steering) && !deferSteering) || m in old(followUps)
    {
      ConsumableIsSorted();
      consumed := Consumable();
      ghost var target := applied + consumed;
      var next := PopNext();
      while next.Some?
        invariant Valid()
        invariant next.None? ==> Consumable() == [] && followUps == []
        invariant deferSteering ==> steering == old(steering)
        invariant applied + Consumable() == target
        decreases |Consumable()|, next.Some?
      {
        next := PopNext();
      }
      assert applied + [] == applied;
    }

    /** One turn of that loop: a steering message if one may go first, else a follow-up. */
    method PopNext() returns (next: Option<Queued>)
      requires Valid()
      modifies this`steering, this`followUps, this`applied
      ensures Valid()
      ensures applied == old(applied) + Listed(next)
      ensures old(Consumable()) == Listed(next) + Consumable()
      ensures applied + Consumable() == old(applied + Consumable())
      ensures next.None? ==> Consumable() == [] && followUps == []
      ensures deferSteering ==> steering == old(steering)
    {
      hide Merged, Increasing;
      OrdersDiffer();
      ghost var s, f := steering, followUps;
      next := PopSteering(false);
      if next.Some? {
        SteeringFirst(s, f);
      } else {
        next := PopFollowUp();
        if !deferSteering {
          FollowUpFirst(s, f);
        }
      }
      Regroup(old(applied), Listed(next), Consumable(), old(Consumable()));
    }

    lemma OrdersDiffer()
      requires Valid()
      ensures Disjoint(steering, followUps)
    {
      forall x, y | x in steering && y in followUps
        ensures x.order != y.order
      {
        assert x in submitted && y in submitted;
      }
    }
  }

  lemma TakeHead(queue: seq<Queued>)
    requires queue != [] && Increasing(queue)
    ensures Increasing(queue[1..]) && queue[0] !in queue[1..]
    ensures forall m :: m in queue <==> m == queue[0] || m in queue[1..]
  {
    assert queue == [queue[0]] + queue[1..];
  }

  function Listed(message: Option<Queued>): seq<Queued> {
    if message.None? then [] else [message.value]
  }

  /** When steering may not go first, the oldest pending message is a follow-up. */
  lemma FollowUpFirst(steering: seq<Queued>, followUps: seq<Queued>)
    requires Increasing(followUps) && Disjoint(steering, followUps)
    requires steering == [] || exists f :: f in followUps && f.order <= steering[0].order
    ensures Merged(steering, followUps) ==
            if followUps == [] then [] else [followUps[0]] + Merged(steering, followUps[1..])
  {
    if followUps != [] {
      HeadIsLeast(followUps);
      if steering == [] {
        assert followUps == [followUps[0]] + followUps[1..];
      } else {
        assert steering[0] in steering && followUps[0] in followUps;
      }
    }
  }

  lemma SteeringFirst(steering: seq<Queued>, followUps: seq<Queued>)
    requires steering != [] && forall f | f in followUps :: steering[0].order < f.order
    ensures Merged(steering, followUps) == [steering[0]] + Merged(steering[1..], followUps)
  {
    if followUps == [] {
      assert steering == [steering[0]] + steering[1..];
    } else {
      assert followUps[0] in followUps;
    }
  }

  lemma Regroup(consumed: seq<Queued>, head: seq<Queued>, rest: seq<Queued>, before: seq<Queued>)
    ensures before == head + rest ==> consumed + before == consumed + head + rest
  {
    if before == head + rest {
      assert consumed + (head + rest) == consumed + head + rest;
    }
  }
}
