/** Cancellation by run generation: which cancel reaches which run, over whole histories. */
module Generations {
  import opened Results

  datatype Op = Reserve | Release(generation: nat) | Begin | End | Cancel

  /** Who is active, reserved and last, and which generations have their event set. */
  datatype Ledger = Ledger(
    active: Option<nat>, reserved: Option<nat>, last: Option<nat>, next: nat, cancelled: set<nat>)

  const EMPTY := Ledger(None, None, None, 1, {})

  /** The generation a cancel selects now. */
  function Target(s: Ledger): nat {
    if s.reserved.Some? then s.reserved.value
    else if s.active.Some? then s.active.value
    else if s.last.Some? then s.last.value
    else s.next
  }

  /** The generation `begin_run` would start now. */
  function Upcoming(s: Ledger): nat {
    if s.reserved.Some? then s.reserved.value else s.next
  }

  predicate Inherits(s: Ledger) {
    s.active.Some? && s.active.value in s.cancelled
  }

  function Apply(s: Ledger, op: Op): Ledger {
    match op
    case Reserve =>
      if s.reserved.Some? then s else s.(reserved := Some(s.next), next := s.next + 1)
    case Release(g) => if s.reserved == Some(g) then s.(reserved := None) else s
    case Begin =>
      var g := Upcoming(s);
      Ledger(Some(g), None, Some(g), if s.reserved.Some? then s.next else s.next + 1,
             if Inherits(s) then s.cancelled + {g} else s.cancelled)
    case End => s.(active := None)
    case Cancel =>
      var idle := s.reserved.None? && s.active.None? && s.last.None?;
      var s' := if idle then s.(last := Some(s.next), next := s.next + 1) else s;
      s'.(cancelled := s.cancelled + {Target(s)})
  }

  function After(history: seq<Op>): Ledger {
    if history == [] then EMPTY else
      Apply(After(history[..|history| - 1]), history[|history| - 1])
  }

  /** Generations in use are distinct and already handed out. */
  predicate Sound(s: Ledger) {
    && s.next >= 1
    && (s.active.Some? ==> s.active.value < s.next && s.reserved != s.active)
    && (s.reserved.Some? ==> s.reserved.value < s.next)
    && (s.last.Some? ==> s.last.value < s.next && s.reserved != s.last)
    && (s.active.Some? ==> s.last == s.active)
    && forall g | g in s.cancelled :: g < s.next
  }

  lemma ApplyIsSound(s: Ledger, op: Op)
    requires Sound(s)
    ensures Sound(Apply(s, op))
  {
  }

  lemma SoundMeans(s: Ledger)
    requires Sound(s)
    ensures s.active.Some? ==> s.active.value < s.next && s.reserved != s.active && s.last == s.active
    ensures s.reserved.Some? ==> s.reserved.value < s.next && s.last != s.reserved
    ensures s.last.Some? ==> s.last.value < s.next
    ensures s.next !in s.cancelled
  {
  }

  lemma {:induction false} HistoryIsSound(history: seq<Op>)
    ensures Sound(After(history))
  {
    if history != [] {
      HistoryIsSound(history[..|history| - 1]);
    }
  }

  /** Generation `g` is cancelled by this history: some cancel selected it, or its run began
      while a predecessor that had not ended was cancelled.  This never looks at the event
      flags, only at who was active, reserved and last. */
  predicate Reached(history: seq<Op>, g: nat)
    decreases |history|
  {
    if history == [] then false else
      var before := history[..|history| - 1];
      var s := After(before);
      match history[|history| - 1]
      case Cancel => Target(s) == g || Reached(before, g)
      case Begin =>
        || (Upcoming(s) == g && s.active.Some? && Reached(before, s.active.value))
        || Reached(before, g)
      case _ => Reached(before, g)
  }

  /** The event of every generation is set exactly when the history reaches it. */
  lemma {:induction false} EventIsReached(history: seq<Op>, g: nat)
    ensures g in After(history).cancelled <==> Reached(history, g)
    decreases |history|
  {
    if history != [] {
      var before := history[..|history| - 1];
      EventIsReached(before, g);
      var s := After(before);
      if s.active.Some? {
        EventIsReached(before, s.active.value);
      }
    }
  }

  /** The operation at `at` begins the run `g`. */
  predicate Begins(history: seq<Op>, at: nat, g: nat)
    requires at < |history|
  {
    history[at] == Begin && Upcoming(After(history[..at])) == g
  }

  /** The run `g` began and neither an end nor another begin came after that. */
  ghost predicate Runs(history: seq<Op>, g: nat) {
    exists at ::
      0 <= at < |history| && Begins(history, at, g)
      && forall k | at < k < |history| :: history[k] != Begin && history[k] != End
  }

  /** A run is active from its begin to the next end or begin, and at no other time. */
  lemma {:induction false} ActiveIff(history: seq<Op>, g: nat)
    ensures After(history).active == Some(g) <==> Runs(history, g)
  {
    if history != [] {
      var last := |history| - 1;
      var before := history[..last];
      ActiveIff(before, g);
      RunsOn(history, g);
      LastActive(After(before), history[last]);
    }
  }

  /** What an operation does to the active run. */
  lemma LastActive(s: Ledger, op: Op)
    ensures Apply(s, op).active == if op == Begin then Some(Upcoming(s)) else if op == End then None else s.active
  {
  }

  lemma RunsOn(history: seq<Op>, g: nat)
    requires history != []
    ensures var last := |history| - 1;
            Runs(history, g) <==>
              if history[last] == Begin then Upcoming(After(history[..last])) == g
              else history[last] != End && Runs(history[..last], g)
  {
    hide After, Upcoming;
    var last := |history| - 1;
    var before := history[..last];
    assert forall k | 0 <= k < last :: history[..k] == before[..k];
    if history[last] == Begin && Upcoming(After(before)) == g {
      assert Begins(history, last, g);
    }
    if Runs(before, g) {
      var at :| 0 <= at < last && Begins(before, at, g)
                && forall k | at < k < last :: before[k] != Begin && before[k] != End;
      assert Begins(history, at, g);
    }
    if Runs(history, g) {
      var at :| 0 <= at < |history| && Begins(history, at, g)
                && forall k | at < k < |history| :: history[k] != Begin && history[k] != End;
      if at < last {
        assert Begins(before, at, g);
      }
    }
  }

  /** At `at` the run `to` begins while the run `from` is still active. */
  ghost predicate Carries(history: seq<Op>, at: nat, from: nat, to: nat)
    requires at < |history|
  {
    Begins(history, at, to) && Runs(history[..at], from)
  }

  /** A cancel that selected `gens[0]`, and then begins at `at[1..]` that carry it on, each from a run
      that had not ended, to the last of `gens`. */
  ghost predicate Chain(history: seq<Op>, at: seq<nat>, gens: seq<nat>) {
    && |at| == |gens| && at != []
    && (forall k | 0 <= k < |at| :: at[k] < |history|)
    && (forall j, k | 0 <= j < k < |at| :: at[j] < at[k])
    && history[at[0]] == Cancel && Target(After(history[..at[0]])) == gens[0]
    && forall k | 1 <= k < |at| :: Carries(history, at[k], gens[k - 1], gens[k])
  }

  ghost predicate CancelReaches(history: seq<Op>, g: nat) {
    exists at, gens :: Chain(history, at, gens) && gens[|gens| - 1] == g
  }

  /** The event of a generation is set exactly when some cancel selected a generation from which an
      unbroken chain of begins leads to it. */
  lemma EventIsSetIff(history: seq<Op>, g: nat)
    ensures g in After(history).cancelled <==> CancelReaches(history, g)
  {
    EventIsReached(history, g);
    if Reached(history, g) {
      var at, gens := ChainOf(history, g);
    }
    if CancelReaches(history, g) {
      var at, gens :| Chain(history, at, gens) && gens[|gens| - 1] == g;
      ChainReaches(history, at, gens);
    }
  }

  lemma {:induction false} ChainOf(history: seq<Op>, g: nat) returns (at: seq<nat>, gens: seq<nat>)
    requires Reached(history, g)
    ensures Chain(history, at, gens) && gens[|gens| - 1] == g
    decreases |history|
  {
    var last := |history| - 1;
    var before := history[..last];
    var s := After(before);
    if history[last] == Cancel && Target(s) == g {
      at, gens := [last], [g];
    } else if Reached(before, g) {
      at, gens := ChainOf(before, g);
      ChainExtends(history, last, at, gens);
    } else {
      ActiveIff(before, s.active.value);
      at, gens := ChainOf(before, s.active.value);
      ChainExtends(history, last, at, gens);
      at, gens := at + [last], gens + [g];
    }
  }

  /** What a part of a history shows, the history shows. */
  lemma ChainExtends(history: seq<Op>, n: nat, at: seq<nat>, gens: seq<nat>)
    requires n <= |history|
    requires |at| == |gens| && at != [] && forall k | 0 <= k < |at| :: at[k] < n
    ensures Chain(history[..n], at, gens) <==> Chain(history, at, gens)
  {
    forall k | 0 <= k < |at|
      ensures history[..n][..at[k]] == history[..at[k]] && history[..n][at[k]] == history[at[k]]
    {
    }
    assert forall k | 1 <= k < |at| ::
        Carries(history[..n], at[k], gens[k - 1], gens[k]) == Carries(history, at[k], gens[k - 1], gens[k]);
  }

  lemma {:induction false} ChainReaches(history: seq<Op>, at: seq<nat>, gens: seq<nat>)
    requires Chain(history, at, gens)
    ensures Reached(history, gens[|gens| - 1])
    decreases |history|
  {
    var last, end := |history| - 1, |at| - 1;
    if at[end] < last {
      ChainExtends(history, last, at, gens);
      ChainReaches(history[..last], at, gens);
    } else if end > 0 {
      var shorter, before := at[..end], gens[..end];
      assert Chain(history, shorter, before);
      ChainExtends(history, last, shorter, before);
      ChainReaches(history[..last], shorter, before);
      assert Carries(history, at[end], gens[end - 1], gens[end]);
      ActiveIff(history[..last], gens[end - 1]);
    }
  }

  /** No run that begins after an end starts cancelled, or becomes so without a later cancel, unless it
      was reserved and its reservation cancelled before. */
  lemma {:induction false} FreshRunIsClean(before: seq<Op>, after: seq<Op>)
    requires var s := After(before); s.reserved.Some? ==> s.reserved.value !in s.cancelled
    requires Cancel !in after
    ensures Clean(After(before + [End] + after))
    decreases |after|
  {
    hide Apply, Clean;
    var history := before + [End] + after;
    if after == [] {
      assert history[..|history| - 1] == before;
      CleanAfterEnd(After(before));
    } else {
      var last := |after| - 1;
      FreshRunIsClean(before, after[..last]);
      assert history[..|history| - 1] == before + [End] + after[..last];
      HistoryIsSound(history[..|history| - 1]);
      CleanStays(After(history[..|history| - 1]), after[last]);
    }
  }

  /** Neither the active nor the reserved run is cancelled. */
  predicate Clean(s: Ledger) {
    && (s.active.Some? ==> s.active.value !in s.cancelled)
    && (s.reserved.Some? ==> s.reserved.value !in s.cancelled)
  }

  lemma CleanAfterEnd(s: Ledger)
    requires s.reserved.Some? ==> s.reserved.value !in s.cancelled
    ensures Clean(Apply(s, End))
  {
  }

  lemma CleanStays(s: Ledger, op: Op)
    requires Sound(s) && Clean(s) && op != Cancel
    ensures Clean(Apply(s, op))
  {
  }

  predicate InUse(s: Ledger, g: nat) {
    s.active == Some(g) || s.reserved == Some(g)
  }

  predicate Retired(s: Ledger, g: nat) {
    g < s.next && !InUse(s, g)
  }

  lemma RetiredStep(s: Ledger, op: Op, g: nat)
    requires Retired(s, g)
    ensures Retired(Apply(s, op), g)
  {
  }

  /** A generation that was handed out and is neither reserved nor active never runs again. */
  lemma {:induction false} RetiredForGood(before: seq<Op>, after: seq<Op>, g: nat)
    requires Retired(After(before), g)
    ensures Retired(After(before + after), g)
  {
    hide Apply, Retired;
    if after == [] {
      assert before + after == before;
    } else {
      var last := |after| - 1;
      RetiredForGood(before, after[..last], g);
      RetiredStep(After(before + after[..last]), after[last], g);
      assert (before + after)[..|before + after| - 1] == before + after[..last];
    }
  }

  /** Cancel isolation: of all cancels in a history, one at position `i` can only have
      selected the run that is active at the end if that run was the reserved or else the
      active one at position `i`.  Idle cancels, cancels aimed at a later reservation and
      cancels of reservations that were released never reach it. */
  lemma CancelIsIsolated(history: seq<Op>, i: nat, g: nat)
    requires i < |history| && history[i] == Cancel
    requires After(history).active == Some(g) && Target(After(history[..i])) == g
    ensures var s := After(history[..i]);
            s.reserved == Some(g) || (s.reserved.None? && s.active == Some(g))
  {
    hide After, Apply, Sound, Retired;
    var s := After(history[..i]);
    HistoryIsSound(history[..i]);
    if s.reserved.None? && s.active.None? {
      var upto := history[..i + 1];
      NextEntry(history, i);
      IdleTargetRetires(s);
      assert history == upto + history[i + 1..];
      RetiredForGood(upto, history[i + 1..], g);
      RetiredMeans(After(history), g);
    }
  }

  lemma IdleTargetRetires(s: Ledger)
    requires Sound(s) && s.reserved.None? && s.active.None?
    ensures Retired(Apply(s, Cancel), Target(s))
  {
  }

  lemma RetiredMeans(s: Ledger, g: nat)
    requires Retired(s, g)
    ensures s.active != Some(g)
  {
  }

  lemma NextEntry(history: seq<Op>, i: nat)
    requires i < |history|
    ensures After(history[..i + 1]) == Apply(After(history[..i]), history[i])
  {
    assert history[..i + 1][..i] == history[..i];
  }

  /** A released reservation never becomes a run, so a cancel aimed at it is dropped. */
  lemma ReleasedNeverRuns(before: seq<Op>, after: seq<Op>, g: nat)
    requires After(before).reserved == Some(g)
    ensures After(before + [Release(g)] + after).active != Some(g)
  {
    HistoryIsSound(before);
    var upto := before + [Release(g)];
    assert upto[..|before|] == before;
    RetiredForGood(upto, after, g);
  }

  /** A cancel accepted on a reservation is still set when that run begins, whatever happens
      in between short of releasing it. */
  lemma {:induction false} ReservationKeepsCancel(before: seq<Op>, middle: seq<Op>, g: nat)
    requires After(before).reserved == Some(g)
    requires forall k | 0 <= k < |middle| :: middle[k] != Begin && middle[k] != Release(g)
    ensures After(before + [Cancel] + middle).reserved == Some(g)
    ensures After(before + [Cancel] + middle + [Begin]).active == Some(g)
    ensures g in After(before + [Cancel] + middle + [Begin]).cancelled
  {
    var h := before + [Cancel] + middle;
    HoldsReservation(before, middle, g);
    assert (h + [Begin])[..|h|] == h;
  }

  lemma {:induction false} HoldsReservation(before: seq<Op>, middle: seq<Op>, g: nat)
    requires After(before).reserved == Some(g)
    requires forall k | 0 <= k < |middle| :: middle[k] != Begin && middle[k] != Release(g)
    ensures After(before + [Cancel] + middle).reserved == Some(g)
    ensures g in After(before + [Cancel] + middle).cancelled
  {
    var start := before + [Cancel];
    if middle == [] {
      assert start + middle == start && start[..|before|] == before;
    } else {
      var shorter := middle[..|middle| - 1];
      HoldsReservation(before, shorter, g);
      assert (start + middle)[..|start + middle| - 1] == start + shorter;
    }
  }
}
