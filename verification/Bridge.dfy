/** The cancellable stream bridge as a step relation: one consumer thread, one event-loop
    thread and any number of cancelling threads, interleaved freely.

    Of all `cancel` calls only the first one gets past the flag, so its remaining steps are
    one field of the state; every other call returns at once and changes nothing. */
module Bridge {
  import opened Results

  /** The contents of a chunk; the bridge never looks inside. */
  type Value = int

  datatype Item = Chunk(value: Value) | Done | Error | Cancelled | Wake

  /** Callbacks the event loop still has to run, in FIFO order. */
  datatype Callback = CreateTask | CancelTask | ReleaseSlot | FinishTask

  /** The pump coroutine: created, awaiting an item, awaiting a slot for one, awaiting the
      iterator's `aclose`, or over. */
  datatype Task = NoTask | Unstarted | Reading | Waiting(value: Value) | Closing(outcome: Item) | Ended

  /** What the pump knows of its cancellation. */
  datatype Notice = Quiet | Pending | Swallowed

  datatype Phase = New | Running | Finished

  datatype Reason = Returned | Raised | Interrupted | Abandoned

  datatype Consumer =
    | NotStarted
    | Getting
    | Checking(item: Item)
    | Deciding(item: Item)
    | Releasing(value: Value)
    | Yielded
    | Leaving(reason: Reason)
    | Cancelling(reason: Reason)
    | Gone(reason: Reason)

  /** The first `cancel`: the flag is set, then the wake item queued, then the loop told. */
  datatype Canceller = Idle | Flagged(onLoop: bool) | Woken(onLoop: bool) | Complete(onLoop: bool)

  datatype State = State(
    phase: Phase,
    flag: bool,
    closed: bool,
    queue: seq<Item>,
    callbacks: seq<Callback>,
    task: Task,
    notice: Notice,
    slots: nat,
    pos: nat,
    consumer: Consumer,
    canceller: Canceller,
    received: seq<Value>)

  /** What the source will produce, how many chunks may be buffered, and whether the source lets a
      cancellation through: another one may catch it and go on. */
  datatype Setup = Setup(source: seq<Value>, limit: nat, obedient: bool)

  datatype Step =
    | Start
    | Cancel | CancelWake | CancelNotify
    | RunCallback
    | TaskStart | TaskStartFails | TaskUnstartedCancelled
    | ReadItem | ReadEnd | ReadFails | TakeSlot
    | TaskCancelled(converted: bool) | Swallow
    | PutOutcome
    | Get | Check | Decide | HandOut | Resume | Abandon | Close | CloseCancel

  function Initial(): State {
    State(New, false, false, [], [], NoTask, Quiet, 0, 0, NotStarted, Idle, [])
  }

  predicate Enabled(c: Setup, s: State, step: Step) {
    match step
    case Start => s.consumer.NotStarted? && s.phase.New?
    case Cancel => !s.flag
    case CancelWake => s.canceller.Flagged?
    case CancelNotify => s.canceller.Woken?
    case RunCallback => s.callbacks != []
    case TaskStart => s.task.Unstarted? && !s.notice.Pending?
    case TaskStartFails => s.task.Unstarted? && !s.notice.Pending?
    case TaskUnstartedCancelled => s.task.Unstarted? && s.notice.Pending?
    case ReadItem => s.task.Reading? && !s.notice.Pending? && s.pos < |c.source|
    case ReadEnd => s.task.Reading? && !s.notice.Pending? && s.pos == |c.source|
    case ReadFails => s.task.Reading? && !s.notice.Pending?
    case TakeSlot => s.task.Waiting? && !s.notice.Pending? && s.slots > 0
    case TaskCancelled(_) => (s.task.Reading? || s.task.Waiting?) && s.notice.Pending?
    case Swallow => s.task.Reading? && s.notice.Pending? && !c.obedient
    case PutOutcome => s.task.Closing?
    case Get => s.consumer.Getting? && s.queue != []
    case Check => s.consumer.Checking?
    case Decide => s.consumer.Deciding?
    case HandOut => s.consumer.Releasing?
    case Resume => s.consumer.Yielded?
    case Abandon => s.consumer.Yielded?
    case Close => s.consumer.Leaving?
    case CloseCancel => s.consumer.Cancelling?
  }

  /** `cancel` under the lock. */
  function SetFlag(s: State): State {
    if s.flag then s else s.(flag := true, canceller := Flagged(s.phase.Running?))
  }

  function RunOne(c: Setup, s: State, callback: Callback): State {
    match callback
    case CreateTask =>
      if s.flag then s.(queue := s.queue + [Cancelled], phase := Finished, closed := true)
      else s.(task := Unstarted, slots := c.limit)
    case CancelTask => if s.task.NoTask? || s.task.Ended? then s else s.(notice := Pending)
    case ReleaseSlot => s.(slots := s.slots + 1)
    case FinishTask => s.(phase := Finished, closed := true)
  }

  /** The pump hands one item to the queue if a slot is free, or waits with it. */
  function Offer(s: State, value: Value): State {
    if s.slots > 0 then
      s.(slots := s.slots - 1, pos := s.pos + 1, queue := s.queue + [Chunk(value)], task := Reading)
    else s.(task := Waiting(value))
  }

  function EndTask(s: State): State {
    s.(task := Ended, notice := Quiet, callbacks := s.callbacks + [FinishTask])
  }

  function Do(c: Setup, s: State, step: Step): State
    requires Enabled(c, s, step)
  {
    match step
    case Start =>
      if s.flag then
        s.(phase := Finished, closed := true, queue := s.queue + [Cancelled], consumer := Getting)
      else s.(phase := Running, callbacks := s.callbacks + [CreateTask], consumer := Getting)
    case Cancel => SetFlag(s)
    case CancelWake => s.(queue := s.queue + [Wake], canceller := Woken(s.canceller.onLoop))
    case CancelNotify =>
      var told := s.(canceller := Complete(s.canceller.onLoop));
      if s.canceller.onLoop then told.(callbacks := s.callbacks + [CancelTask]) else told
    case RunCallback => RunOne(c, s.(callbacks := s.callbacks[1..]), s.callbacks[0])
    case TaskStart => s.(task := Reading)
    case TaskStartFails => s.(task := Closing(Error))
    case TaskUnstartedCancelled => EndTask(s)
    case ReadItem => Offer(s, c.source[s.pos])
    case ReadEnd => s.(task := Closing(Done))
    case ReadFails => s.(task := Closing(Error))
    case TakeSlot => Offer(s, s.task.value)
    case TaskCancelled(converted) =>
      s.(task := Closing(if converted then Error else Cancelled), notice := Quiet)
    case Swallow => s.(notice := Swallowed)
    case PutOutcome => EndTask(s.(queue := s.queue + [s.task.outcome]))
    case Get => s.(queue := s.queue[1..], consumer := Checking(s.queue[0]))
    case Check =>
      var item := s.consumer.item;
      if item.Done? then s.(consumer := Leaving(Returned))
      else if item.Error? && !s.flag then s.(consumer := Leaving(Raised))
      else s.(consumer := Deciding(item))
    case Decide =>
      var item := s.consumer.item;
      if s.flag || !item.Chunk? then s.(consumer := Leaving(Interrupted))
      else s.(consumer := Releasing(item.value))
    case HandOut =>
      s.(callbacks := s.callbacks + [ReleaseSlot], received := s.received + [s.consumer.value],
         consumer := Yielded)
    case Resume => s.(consumer := Getting)
    case Abandon => s.(consumer := Leaving(Abandoned))
    case Close =>
      if s.phase.Running? && !s.closed then s.(consumer := Cancelling(s.consumer.reason))
      else s.(consumer := Gone(s.consumer.reason))
    case CloseCancel => SetFlag(s).(consumer := Gone(s.consumer.reason))
  }

  /** A finite interleaving, from a new bridge. */
  predicate Runnable(c: Setup, steps: seq<Step>)
    decreases |steps|, 0
  {
    steps == [] ||
      var before := steps[..|steps| - 1];
      Runnable(c, before) && Enabled(c, After(c, before), steps[|steps| - 1])
  }

  function After(c: Setup, steps: seq<Step>): State
    requires Runnable(c, steps)
    decreases |steps|, 1
  {
    if steps == [] then Initial() else
      Do(c, After(c, steps[..|steps| - 1]), steps[|steps| - 1])
  }

  function Chunks(queue: seq<Item>): seq<Value> {
    if queue == [] then [] else
      Chunks(queue[..|queue| - 1]) +
      if queue[|queue| - 1].Chunk? then [queue[|queue| - 1].value] else []
  }

  function InHand(consumer: Consumer): seq<Value> {
    match consumer
    case Checking(Chunk(v)) => [v]
    case Deciding(Chunk(v)) => [v]
    case Releasing(v) => [v]
    case _ => []
  }

  /** The consumer has not decided to stop. */
  predicate Active(consumer: Consumer) {
    !(consumer.Leaving? || consumer.Cancelling? || consumer.Gone?)
  }

  function Releases(callbacks: seq<Callback>): nat {
    if callbacks == [] then 0 else
      (if callbacks[0] == ReleaseSlot then 1 else 0) + Releases(callbacks[1..])
  }

  ghost predicate Ending(queue: seq<Item>) {
    exists k | 0 <= k < |queue| :: !queue[k].Chunk?
  }

  /** Some item that ends the consumer's loop is queued or already taken. */
  ghost predicate Alerted(s: State) {
    || !Active(s.consumer)
    || Ending(s.queue)
    || ((s.consumer.Checking? || s.consumer.Deciding?) && !s.consumer.item.Chunk?)
  }

  /** The request is over, being cancelled, or about to be: a pending creation will see the flag,
      a cancellation is pending, or the pump is being closed or over. */
  ghost predicate Doomed(s: State) {
    || CreateTask in s.callbacks
    || CancelTask in s.callbacks
    || s.notice.Pending? || s.task.Closing? || s.task.Ended?
    || (s.task.NoTask? && s.phase.Finished?)
  }

  /** Data: what was put is what was received, is in hand, or is queued, in order. */
  ghost predicate InOrder(c: Setup, s: State) {
    && s.pos <= |c.source|
    && s.received <= c.source
    && (Active(s.consumer) ==> s.received + InHand(s.consumer) + Chunks(s.queue) == c.source[..s.pos])
    && (s.task.Waiting? ==> s.pos < |c.source| && s.task.value == c.source[s.pos])
  }

  /** Slots: free, queued, in hand, or on their way back. */
  ghost predicate SlotsBalance(c: Setup, s: State) {
    var used := |Chunks(s.queue)| + |InHand(s.consumer)| + Releases(s.callbacks);
    if s.task.NoTask? then used == 0
    else if Active(s.consumer) then s.slots + used == c.limit
    else s.slots + used <= c.limit
  }

  predicate Returns(consumer: Consumer) {
    consumer in {Leaving(Returned), Cancelling(Returned), Gone(Returned)}
  }

  /** A done item is the last word about a fully read source. */
  ghost predicate DoneIsLast(c: Setup, s: State) {
    && (s.task.Closing? && s.task.outcome.Done? ==> s.pos == |c.source|)
    && (forall k, j | 0 <= k < j < |s.queue| && s.queue[k].Done? :: !s.queue[j].Chunk?)
    && (Done in s.queue ==> s.task.Ended? && s.pos == |c.source|)
    && (s.consumer.Checking? && s.consumer.item.Done? ==>
          && s.task.Ended? && s.pos == |c.source|
          && forall j | 0 <= j < |s.queue| :: !s.queue[j].Chunk?)
    && (s.consumer.Deciding? ==> !s.consumer.item.Done?)
    && (Returns(s.consumer) ==> s.received == c.source)
  }

  /** The life cycle of the request and of its pump. */
  ghost predicate Lifecycle(s: State) {
    && (s.phase.New? ==>
          s.consumer.NotStarted? && s.callbacks == [] && s.task.NoTask? && !s.closed)
    && (s.consumer.NotStarted? ==> s.phase.New?)
    && (CreateTask in s.callbacks ==>
          && s.callbacks[0] == CreateTask && CreateTask !in s.callbacks[1..]
          && s.task.NoTask? && s.phase.Running?)
    && (s.task.NoTask? && CreateTask !in s.callbacks && !s.phase.New? ==> s.phase.Finished?)
    && (s.phase.Running? && s.task.Ended? ==> FinishTask in s.callbacks)
    && (FinishTask in s.callbacks ==> s.task.Ended?)
    && (s.phase.Finished? ==> s.task.NoTask? || s.task.Ended?)
    && (s.closed <==> s.phase.Finished?)
    && (s.notice.Pending? ==> !s.task.NoTask? && !s.task.Ended?)
    && (s.task.Closing? ==> s.task.outcome in {Done, Error, Cancelled})
  }

  ghost predicate Cancels(s: State) {
    Flags(s) && Effects(s)
  }

  /** How the flag, the first `cancel` and the phase go together. */
  ghost predicate Flags(s: State) {
    && (s.flag <==> !s.canceller.Idle?)
    && (s.notice.Pending? || CancelTask in s.callbacks ==> s.canceller == Complete(true))
    && (!s.canceller.Idle? && !s.canceller.onLoop ==> !s.phase.Running?)
    && (!s.canceller.Idle? && s.canceller.onLoop ==> !s.phase.New?)
  }

  /** What the steps of the first `cancel` have brought about. */
  ghost predicate Effects(s: State) {
    && (s.canceller.Woken? || s.canceller.Complete? ==> Alerted(s))
    && (s.canceller.Complete? && s.canceller.onLoop ==> Doomed(s) || s.notice.Swallowed?)
  }

  /** No consumer is left waiting: once the loop side is over there is an item to stop it. */
  ghost predicate NoHang(s: State) {
    !s.phase.New? && (s.task.Ended? || (s.task.NoTask? && CreateTask !in s.callbacks)) ==> Alerted(s)
  }

  ghost predicate Inv(c: Setup, s: State) {
    InOrder(c, s) && SlotsBalance(c, s) && DoneIsLast(c, s) && Lifecycle(s) && Cancels(s) && NoHang(s)
  }

  lemma ChunksSnoc(queue: seq<Item>, item: Item)
    ensures Chunks(queue + [item]) == Chunks(queue) + if item.Chunk? then [item.value] else []
  {
    assert (queue + [item])[..|queue|] == queue;
  }

  lemma {:induction false} ChunksCons(queue: seq<Item>)
    requires queue != []
    ensures Chunks(queue) == (if queue[0].Chunk? then [queue[0].value] else []) + Chunks(queue[1..])
  {
    if |queue| > 1 {
      var last := |queue| - 1;
      ChunksCons(queue[..last]);
      assert queue[..last][1..] == queue[1..][..last - 1];
    }
  }

  /** The steps of the pump that put a chunk. */
  predicate PutsChunk(step: Step) {
    step.ReadItem? || step.TakeSlot?
  }

  /** The steps of the consumer thread. */
  predicate Consumes(step: Step) {
    || step.Get? || step.Check? || step.Decide? || step.HandOut?
    || step.Resume? || step.Abandon? || step.Close? || step.CloseCancel?
  }

  /** What any other step adds to the queue. */
  function Added(s: State, step: Step): seq<Item> {
    match step
    case Start => if s.flag then [Cancelled] else []
    case CancelWake => [Wake]
    case RunCallback => if s.callbacks != [] && s.callbacks[0] == CreateTask && s.flag then [Cancelled] else []
    case PutOutcome => if s.task.Closing? then [s.task.outcome] else []
    case _ => []
  }

  lemma QueueGrows(c: Setup, s: State, step: Step)
    requires Lifecycle(s) && Enabled(c, s, step) && !PutsChunk(step) && !Consumes(step)
    ensures Do(c, s, step).queue == s.queue + Added(s, step)
    ensures Added(s, step) == [] || (|Added(s, step)| == 1 && !Added(s, step)[0].Chunk?)
  {
  }

  lemma OtherSteps(c: Setup, s: State, step: Step)
    requires Lifecycle(s) && Enabled(c, s, step) && !PutsChunk(step) && !Consumes(step)
    ensures var t := Do(c, s, step);
            && Chunks(t.queue) == Chunks(s.queue)
            && t.received == s.received && t.pos == s.pos
            && t.consumer == (if step.Start? then Getting else s.consumer)
            && (t.task.Waiting? ==> t.task == s.task)
  {
    hide Chunks, Added;
    QueueGrows(c, s, step);
    if Added(s, step) == [] {
      assert s.queue + [] == s.queue;
    } else {
      ChunksSnoc(s.queue, Added(s, step)[0]);
      assert Added(s, step) == [Added(s, step)[0]];
    }
  }

  lemma InOrderStep(c: Setup, s: State, step: Step)
    requires InOrder(c, s) && Lifecycle(s) && Enabled(c, s, step)
    ensures InOrder(c, Do(c, s, step))
  {
    if PutsChunk(step) {
      PutInOrder(c, s, step);
    } else if Consumes(step) {
      ConsumeInOrder(c, s, step);
    } else {
      OtherSteps(c, s, step);
    }
  }

  lemma PutInOrder(c: Setup, s: State, step: Step)
    requires InOrder(c, s) && Enabled(c, s, step) && PutsChunk(step)
    ensures InOrder(c, Do(c, s, step))
  {
    OfferInOrder(c, s, c.source[s.pos]);
  }

  lemma OfferInOrder(c: Setup, s: State, value: Value)
    requires InOrder(c, s) && s.pos < |c.source| && value == c.source[s.pos]
    ensures InOrder(c, Offer(s, value))
  {
    if s.slots > 0 {
      ChunksSnoc(s.queue, Chunk(value));
      assert c.source[..s.pos + 1] == c.source[..s.pos] + [value];
      var flow := s.received + InHand(s.consumer);
      assert flow + (Chunks(s.queue) + [value]) == (flow + Chunks(s.queue)) + [value];
    }
  }

  lemma ConsumeInOrder(c: Setup, s: State, step: Step)
    requires InOrder(c, s) && Enabled(c, s, step) && Consumes(step)
    ensures InOrder(c, Do(c, s, step))
  {
    if step.Get? {
      GetInOrder(c, s);
    } else if step.HandOut? {
      HandOutInOrder(c, s);
    } else {
      QuietStep(c, s, step);
      InOrderFrame(c, s, Do(c, s, step));
    }
  }

  /** The steps of the consumer that neither take an item nor hand one out. */
  lemma QuietStep(c: Setup, s: State, step: Step)
    requires Enabled(c, s, step) && Consumes(step) && !step.Get? && !step.HandOut?
    ensures var t := Do(c, s, step);
            && t.received == s.received && t.pos == s.pos
            && t.queue == s.queue && t.callbacks == s.callbacks && t.slots == s.slots && t.task == s.task
            && |InHand(t.consumer)| <= |InHand(s.consumer)|
            && (Active(t.consumer) ==> Active(s.consumer) && InHand(t.consumer) == InHand(s.consumer))
  {
  }

  lemma InOrderFrame(c: Setup, s: State, t: State)
    requires InOrder(c, s)
    requires t.received == s.received && t.queue == s.queue && t.task == s.task && t.pos == s.pos
    requires Active(t.consumer) ==> Active(s.consumer) && InHand(t.consumer) == InHand(s.consumer)
    ensures InOrder(c, t)
  {
  }

  lemma GetInOrder(c: Setup, s: State)
    requires InOrder(c, s) && Enabled(c, s, Get)
    ensures InOrder(c, Do(c, s, Get))
  {
    hide Chunks;
    var t := Do(c, s, Get);
    ChunksCons(s.queue);
    assert s.received + [] + Chunks(s.queue) == s.received + (InHand(t.consumer) + Chunks(t.queue));
    assert s.received + (InHand(t.consumer) + Chunks(t.queue)) == s.received + InHand(t.consumer) + Chunks(t.queue);
  }

  lemma HandOutInOrder(c: Setup, s: State)
    requires InOrder(c, s) && Enabled(c, s, HandOut)
    ensures InOrder(c, Do(c, s, HandOut))
  {
    hide Chunks;
    var t := Do(c, s, HandOut);
    assert t.received + [] == s.received + [s.consumer.value];
    assert t.received <= t.received + Chunks(s.queue) == c.source[..s.pos];
  }

  lemma {:induction false} ReleasesSnoc(callbacks: seq<Callback>, next: Callback)
    ensures Releases(callbacks + [next]) == Releases(callbacks) + if next == ReleaseSlot then 1 else 0
  {
    if callbacks == [] {
      assert [] + [next] == [next];
    } else {
      assert (callbacks + [next])[1..] == callbacks[1..] + [next];
      ReleasesSnoc(callbacks[1..], next);
    }
  }

  lemma SlotsStep(c: Setup, s: State, step: Step)
    requires SlotsBalance(c, s) && InOrder(c, s) && Lifecycle(s) && Enabled(c, s, step)
    ensures SlotsBalance(c, Do(c, s, step))
  {
    if PutsChunk(step) {
      OfferSlots(c, s, c.source[s.pos]);
    } else if Consumes(step) {
      ConsumeSlots(c, s, step);
    } else if step.RunCallback? {
      OtherSteps(c, s, step);
      CallbackSlots(c, s);
    } else {
      OtherSteps(c, s, step);
      LoopSlots(c, s, step);
    }
  }

  lemma OfferSlots(c: Setup, s: State, value: Value)
    requires SlotsBalance(c, s) && !s.task.NoTask?
    ensures SlotsBalance(c, Offer(s, value))
  {
    var t := Offer(s, value);
    if s.slots > 0 {
      ChunksSnoc(s.queue, Chunk(value));
      assert |Chunks(t.queue)| == |Chunks(s.queue)| + 1;
      assert t.callbacks == s.callbacks && t.consumer == s.consumer;
    }
  }

  lemma ConsumeSlots(c: Setup, s: State, step: Step)
    requires SlotsBalance(c, s) && Enabled(c, s, step) && Consumes(step)
    ensures SlotsBalance(c, Do(c, s, step))
  {
    if step.Get? {
      GetSlots(c, s);
    } else if step.HandOut? {
      HandOutSlots(c, s);
    } else {
      QuietStep(c, s, step);
      SlotsFrame(c, s, Do(c, s, step));
    }
  }

  lemma SlotsFrame(c: Setup, s: State, t: State)
    requires SlotsBalance(c, s)
    requires t.queue == s.queue && t.callbacks == s.callbacks && t.slots == s.slots && t.task == s.task
    requires |InHand(t.consumer)| <= |InHand(s.consumer)|
    requires Active(t.consumer) ==> Active(s.consumer) && |InHand(t.consumer)| == |InHand(s.consumer)|
    ensures SlotsBalance(c, t)
  {
  }

  lemma GetSlots(c: Setup, s: State)
    requires SlotsBalance(c, s) && Enabled(c, s, Get)
    ensures SlotsBalance(c, Do(c, s, Get))
  {
    ChunksCons(s.queue);
    var t := Do(c, s, Get);
    assert |Chunks(t.queue)| + |InHand(t.consumer)| == |Chunks(s.queue)|;
  }

  lemma HandOutSlots(c: Setup, s: State)
    requires SlotsBalance(c, s) && Enabled(c, s, HandOut)
    ensures SlotsBalance(c, Do(c, s, HandOut))
  {
    ReleasesSnoc(s.callbacks, ReleaseSlot);
    var t := Do(c, s, HandOut);
    assert Releases(t.callbacks) == Releases(s.callbacks) + 1;
    assert |InHand(s.consumer)| == 1 && |InHand(t.consumer)| == 0;
  }

  lemma CallbackSlots(c: Setup, s: State)
    requires SlotsBalance(c, s) && Lifecycle(s) && s.callbacks != []
    requires Chunks(Do(c, s, RunCallback).queue) == Chunks(s.queue)
    ensures SlotsBalance(c, Do(c, s, RunCallback))
  {
  }

  lemma LoopSlots(c: Setup, s: State, step: Step)
    requires SlotsBalance(c, s) && Lifecycle(s) && Enabled(c, s, step)
    requires !PutsChunk(step) && !Consumes(step) && !step.RunCallback?
    requires Chunks(Do(c, s, step).queue) == Chunks(s.queue)
    ensures SlotsBalance(c, Do(c, s, step))
  {
    hide Chunks, Releases;
    ReleasesSnoc(s.callbacks, CreateTask);
    ReleasesSnoc(s.callbacks, CancelTask);
    ReleasesSnoc(s.callbacks, FinishTask);
  }

  lemma LifecycleStep(c: Setup, s: State, step: Step)
    requires Lifecycle(s) && Cancels(s) && Enabled(c, s, step)
    ensures Lifecycle(Do(c, s, step))
  {
    hide Do, Lifecycle, Flags, Effects;
    if step.RunCallback? {
      CallbackLifecycle(c, s);
    } else if Consumes(step) {
      ConsumerLifecycle(c, s, step);
    } else {
      LoopLifecycle(c, s, step);
    }
  }

  lemma ConsumerLifecycle(c: Setup, s: State, step: Step)
    requires Lifecycle(s) && Enabled(c, s, step) && Consumes(step)
    ensures Lifecycle(Do(c, s, step))
  {
    hide Do, Lifecycle;
    ConsumerFrame(c, s, step);
    LifecycleFrame(s, Do(c, s, step));
  }

  /** What the consumer thread never touches. */
  lemma ConsumerFrame(c: Setup, s: State, step: Step)
    requires Enabled(c, s, step) && Consumes(step)
    ensures var t := Do(c, s, step);
            && t.phase == s.phase && t.closed == s.closed && t.task == s.task && t.notice == s.notice
            && (t.callbacks == s.callbacks || t.callbacks == s.callbacks + [ReleaseSlot])
            && !s.consumer.NotStarted? && !t.consumer.NotStarted?
  {
  }

  lemma LifecycleFrame(s: State, t: State)
    requires Lifecycle(s)
    requires t.phase == s.phase && t.closed == s.closed && t.task == s.task && t.notice == s.notice
    requires t.callbacks == s.callbacks || t.callbacks == s.callbacks + [ReleaseSlot]
    requires !s.consumer.NotStarted? && !t.consumer.NotStarted?
    ensures Lifecycle(t)
  {
    AppendLifecycle(s, ReleaseSlot);
  }

  lemma LoopLifecycle(c: Setup, s: State, step: Step)
    requires Lifecycle(s) && Flags(s) && Enabled(c, s, step) && !Consumes(step) && !step.RunCallback?
    ensures Lifecycle(Do(c, s, step))
  {
    hide Flags;
    if step.CancelNotify? {
      NewIsNotOnLoop(s);
      AppendLifecycle(s, CancelTask);
    } else if step.TaskUnstartedCancelled? || step.PutOutcome? {
      AppendLifecycle(s, FinishTask);
    }
  }

  lemma NewIsNotOnLoop(s: State)
    requires Flags(s)
    ensures s.phase.New? && !s.canceller.Idle? ==> !s.canceller.onLoop
  {
  }

  lemma AppendLifecycle(s: State, next: Callback)
    requires Lifecycle(s) && !next.CreateTask?
    ensures var t := s.callbacks + [next];
            && (forall x :: x in t <==> x in s.callbacks || x == next)
            && (s.callbacks != [] ==> t[0] == s.callbacks[0] && t[1..] == s.callbacks[1..] + [next])
  {
  }

  lemma CallbackLifecycle(c: Setup, s: State)
    requires Lifecycle(s) && s.callbacks != []
    ensures Lifecycle(Do(c, s, RunCallback))
  {
    assert forall x :: x in s.callbacks <==> x == s.callbacks[0] || x in s.callbacks[1..];
  }

  lemma {:induction false} NoChunksAfter(queue: seq<Item>)
    requires forall k | 0 <= k < |queue| :: !queue[k].Chunk?
    ensures Chunks(queue) == []
  {
    if queue != [] {
      NoChunksAfter(queue[..|queue| - 1]);
    }
  }

  lemma DoneStep(c: Setup, s: State, step: Step)
    requires DoneIsLast(c, s) && InOrder(c, s) && Lifecycle(s) && Enabled(c, s, step)
    ensures DoneIsLast(c, Do(c, s, step))
  {
    hide DoneIsLast, InOrder, Lifecycle;
    if PutsChunk(step) {
      PutDone(c, s, step);
    } else if step.Get? {
      GetDone(c, s);
    } else if step.Check? {
      CheckDone(c, s);
    } else if Consumes(step) {
      QuietDone(c, s, step);
    } else {
      QueueGrows(c, s, step);
      LoopDone(c, s, step);
    }
  }

  lemma PutDone(c: Setup, s: State, step: Step)
    requires DoneIsLast(c, s) && Enabled(c, s, step) && PutsChunk(step)
    ensures DoneIsLast(c, Do(c, s, step))
  {
    assert Done !in s.queue;
  }

  lemma QuietDone(c: Setup, s: State, step: Step)
    requires DoneIsLast(c, s) && Enabled(c, s, step) && Consumes(step) && !step.Get? && !step.Check?
    ensures DoneIsLast(c, Do(c, s, step))
  {
    hide Do, DoneIsLast;
    QuietConsumer(c, s, step);
    DoneStays(c, s, Do(c, s, step));
  }

  lemma QuietConsumer(c: Setup, s: State, step: Step)
    requires Enabled(c, s, step) && Consumes(step) && !step.Get? && !step.Check?
    ensures var t := Do(c, s, step);
            && t.queue == s.queue && t.task == s.task && t.pos == s.pos
            && !t.consumer.Checking? && !t.consumer.Deciding?
            && (Returns(t.consumer) ==> Returns(s.consumer) && t.received == s.received)
  {
  }

  lemma DoneStays(c: Setup, s: State, t: State)
    requires DoneIsLast(c, s)
    requires t.queue == s.queue && t.task == s.task && t.pos == s.pos
    requires !t.consumer.Checking? && !t.consumer.Deciding?
    requires Returns(t.consumer) ==> Returns(s.consumer) && t.received == s.received
    ensures DoneIsLast(c, t)
  {
  }

  lemma GetDone(c: Setup, s: State)
    requires DoneIsLast(c, s) && Enabled(c, s, Get)
    ensures DoneIsLast(c, Do(c, s, Get))
  {
    assert forall j | 1 <= j < |s.queue| :: s.queue[j] == s.queue[1..][j - 1];
    assert Done in s.queue[1..] ==> Done in s.queue;
  }

  lemma CheckDone(c: Setup, s: State)
    requires DoneIsLast(c, s) && InOrder(c, s) && Enabled(c, s, Check)
    ensures DoneIsLast(c, Do(c, s, Check))
  {
    if s.consumer.item.Done? {
      NoChunksAfter(s.queue);
      assert c.source[..s.pos] == c.source;
      assert s.received + [] + [] == s.received;
    }
  }

  lemma LoopDone(c: Setup, s: State, step: Step)
    requires DoneIsLast(c, s) && Lifecycle(s) && Enabled(c, s, step)
    requires !PutsChunk(step) && !Consumes(step)
    requires Do(c, s, step).queue == s.queue + Added(s, step)
    ensures DoneIsLast(c, Do(c, s, step))
  {
    LoopKeepsDone(c, s, step);
    QueueGrows(c, s, step);
    DoneFrame(c, s, Do(c, s, step), Added(s, step));
  }

  lemma LoopKeepsDone(c: Setup, s: State, step: Step)
    requires DoneIsLast(c, s) && Lifecycle(s) && Enabled(c, s, step)
    requires !PutsChunk(step) && !Consumes(step)
    ensures var t := Do(c, s, step);
            && t.received == s.received && t.pos == s.pos
            && (t.consumer == s.consumer || t.consumer.Getting?)
            && (s.task.Ended? ==> t.task.Ended?)
            && (t.task.Closing? && t.task.outcome.Done? ==> t.pos == |c.source|)
            && (Done in Added(s, step) ==> t.task.Ended? && t.pos == |c.source|)
  {
  }

  lemma DoneFrame(c: Setup, s: State, t: State, added: seq<Item>)
    requires DoneIsLast(c, s)
    requires t.queue == s.queue + added && forall k | 0 <= k < |added| :: !added[k].Chunk?
    requires t.received == s.received && t.pos == s.pos
    requires t.consumer == s.consumer || t.consumer.Getting?
    requires s.task.Ended? ==> t.task.Ended?
    requires t.task.Closing? && t.task.outcome.Done? ==> t.pos == |c.source|
    requires Done in added ==> t.task.Ended? && t.pos == |c.source|
    ensures DoneIsLast(c, t)
  {
    assert Done in t.queue <==> Done in s.queue || Done in added;
  }

  lemma EndingGrows(queue: seq<Item>, item: Item)
    ensures Ending(queue + [item]) <==> Ending(queue) || !item.Chunk?
  {
    var longer := queue + [item];
    if Ending(queue) {
      var k :| 0 <= k < |queue| && !queue[k].Chunk?;
      assert !longer[k].Chunk?;
    }
    if !item.Chunk? {
      assert !longer[|queue|].Chunk?;
    }
  }

  lemma AlertedStays(c: Setup, s: State, step: Step)
    requires Alerted(s) && Lifecycle(s) && Enabled(c, s, step)
    ensures Alerted(Do(c, s, step))
  {
    hide Alerted, Lifecycle;
    if PutsChunk(step) {
      AlertedPut(c, s, step);
    } else if step.Get? {
      AlertedGet(c, s);
    } else if Consumes(step) {
      AlertedQuiet(c, s, step);
    } else {
      AlertedLoop(c, s, step);
    }
  }

  lemma AlertedPut(c: Setup, s: State, step: Step)
    requires Alerted(s) && Enabled(c, s, step) && PutsChunk(step)
    ensures Alerted(Do(c, s, step))
  {
    hide Ending;
    EndingGrows(s.queue, Chunk(if step.ReadItem? then c.source[s.pos] else s.task.value));
  }

  lemma AlertedGet(c: Setup, s: State)
    requires Alerted(s) && Enabled(c, s, Get)
    ensures Alerted(Do(c, s, Get))
  {
    if s.queue[0].Chunk? && Ending(s.queue) {
      var k :| 0 <= k < |s.queue| && !s.queue[k].Chunk?;
      assert !s.queue[1..][k - 1].Chunk?;
    }
  }

  lemma AlertedQuiet(c: Setup, s: State, step: Step)
    requires Alerted(s) && Enabled(c, s, step) && Consumes(step) && !step.Get?
    ensures Alerted(Do(c, s, step))
  {
    hide Ending;
  }

  lemma AlertedLoop(c: Setup, s: State, step: Step)
    requires Alerted(s) && Lifecycle(s) && Enabled(c, s, step) && !PutsChunk(step) && !Consumes(step)
    ensures Alerted(Do(c, s, step))
  {
    hide Ending, Lifecycle, Added;
    QueueGrows(c, s, step);
    AddedEnds(s, step);
    StartsOrStays(c, s, step);
  }

  lemma StartsOrStays(c: Setup, s: State, step: Step)
    requires Lifecycle(s) && Enabled(c, s, step) && !PutsChunk(step) && !Consumes(step)
    ensures var t := Do(c, s, step);
            t.consumer == s.consumer || (step.Start? && s.consumer.NotStarted? && t.consumer.Getting?)
  {
  }

  lemma AddedEnds(s: State, step: Step)
    requires Added(s, step) == [] || (|Added(s, step)| == 1 && !Added(s, step)[0].Chunk?)
    ensures Ending(s.queue + Added(s, step)) <==> Ending(s.queue) || Added(s, step) != []
  {
    if Added(s, step) == [] {
      assert s.queue + [] == s.queue;
    } else {
      EndingGrows(s.queue, Added(s, step)[0]);
      assert Added(s, step) == [Added(s, step)[0]];
    }
  }

  lemma DoomedStays(c: Setup, s: State, step: Step)
    requires (Doomed(s) || s.notice.Swallowed?) && s.flag && Lifecycle(s) && Enabled(c, s, step)
    ensures Doomed(Do(c, s, step)) || Do(c, s, step).notice.Swallowed?
  {
    if step.RunCallback? {
      assert forall x :: x in s.callbacks <==> x == s.callbacks[0] || x in s.callbacks[1..];
    }
  }

  lemma CancelsStep(c: Setup, s: State, step: Step)
    requires Cancels(s) && Lifecycle(s) && Enabled(c, s, step)
    ensures Cancels(Do(c, s, step))
  {
    hide Do, Lifecycle, Flags, Effects;
    FlagsStep(c, s, step);
    EffectsStep(c, s, step);
  }

  lemma FlagsStep(c: Setup, s: State, step: Step)
    requires Flags(s) && Lifecycle(s) && Enabled(c, s, step)
    ensures Flags(Do(c, s, step))
  {
    hide Do, Flags, Lifecycle;
    if step.RunCallback? {
      CallbackFlags(c, s);
    } else if Consumes(step) {
      ConsumerFlags(c, s, step);
    } else {
      LoopFlags(c, s, step);
    }
  }

  lemma CallbackFlags(c: Setup, s: State)
    requires Flags(s) && Lifecycle(s) && s.callbacks != []
    ensures Flags(Do(c, s, RunCallback))
  {
    assert forall x :: x in s.callbacks <==> x == s.callbacks[0] || x in s.callbacks[1..];
  }

  lemma ConsumerFlags(c: Setup, s: State, step: Step)
    requires Flags(s) && Lifecycle(s) && Enabled(c, s, step) && Consumes(step)
    ensures Flags(Do(c, s, step))
  {
    assert forall x :: x in s.callbacks + [ReleaseSlot] <==> x in s.callbacks || x == ReleaseSlot;
  }

  lemma LoopFlags(c: Setup, s: State, step: Step)
    requires Flags(s) && Lifecycle(s) && Enabled(c, s, step) && !Consumes(step) && !step.RunCallback?
    ensures Flags(Do(c, s, step))
  {
  }

  lemma EffectsStep(c: Setup, s: State, step: Step)
    requires Flags(s) && Effects(s) && Lifecycle(s) && Enabled(c, s, step)
    ensures Effects(Do(c, s, step))
  {
    hide Alerted, Doomed, Lifecycle;
    if Alerted(s) {
      AlertedStays(c, s, step);
    }
    if (Doomed(s) || s.notice.Swallowed?) && s.flag {
      DoomedStays(c, s, step);
    }
    if step.CancelWake? {
      WakeAlerts(s, Do(c, s, step));
    }
    if step.CancelNotify? && s.canceller.onLoop {
      NotifyDooms(s, Do(c, s, step));
    }
  }

  lemma WakeAlerts(s: State, t: State)
    requires t.queue == s.queue + [Wake]
    ensures Alerted(t)
  {
    EndingGrows(s.queue, Wake);
  }

  lemma NotifyDooms(s: State, t: State)
    requires t.callbacks == s.callbacks + [CancelTask]
    ensures Doomed(t)
  {
  }

  lemma NoHangStep(c: Setup, s: State, step: Step)
    requires NoHang(s) && Cancels(s) && Lifecycle(s) && Enabled(c, s, step)
    ensures NoHang(Do(c, s, step))
  {
    if Alerted(s) {
      AlertedStays(c, s, step);
    } else if !PutsChunk(step) && !Consumes(step) {
      QueueGrows(c, s, step);
      AddedEnds(s, step);
    }
  }

  lemma {:induction false} ReachableIsSafe(c: Setup, steps: seq<Step>)
    requires Runnable(c, steps)
    ensures Inv(c, After(c, steps))
    decreases |steps|
  {
    if steps != [] {
      var before := steps[..|steps| - 1];
      var step := steps[|steps| - 1];
      ReachableIsSafe(c, before);
      var s := After(c, before);
      InOrderStep(c, s, step);
      SlotsStep(c, s, step);
      DoneStep(c, s, step);
      LifecycleStep(c, s, step);
      CancelsStep(c, s, step);
      NoHangStep(c, s, step);
    }
  }

  /** Once the `cancel` that set the flag has returned, in every interleaving: the consumer
      has stopped or a non-chunk item will stop it, and if the bridge was running the request
      is over, being cancelled, or certain to be, unless its source swallowed the cancellation. */
  lemma CancelTakesEffect(c: Setup, steps: seq<Step>)
    requires Runnable(c, steps) && After(c, steps).canceller.Complete?
    ensures var s := After(c, steps);
            && s.flag && Alerted(s)
            && (s.canceller.onLoop ==> Doomed(s) || s.notice.Swallowed?)
            && (s.notice.Swallowed? ==> !c.obedient)
            && (!s.canceller.onLoop ==> !s.phase.Running?)
  {
    ReachableIsSafe(c, steps);
    ObedientNeverSwallows(c, steps);
  }

  lemma {:induction false} ObedientNeverSwallows(c: Setup, steps: seq<Step>)
    requires Runnable(c, steps)
    ensures After(c, steps).notice.Swallowed? ==> !c.obedient
    decreases |steps|
  {
    hide Enabled, Do;
    if steps != [] {
      var before, step := steps[..|steps| - 1], steps[|steps| - 1];
      ObedientNeverSwallows(c, before);
      ObedientStep(c, After(c, before), step);
    }
  }

  lemma ObedientStep(c: Setup, s: State, step: Step)
    requires Enabled(c, s, step) && (s.notice.Swallowed? ==> !c.obedient)
    ensures Do(c, s, step).notice.Swallowed? ==> !c.obedient
  {
  }

  /** The guarantee of a `cancel` that has taken effect. */
  ghost predicate Settled(s: State) {
    Alerted(s) && (s.phase.Running? ==> Doomed(s))
  }

  /** A `cancel` that finds the flag set returns at once, whatever stage the first one is at. */
  ghost predicate SettledAt(c: Setup, stage: Canceller) {
    forall steps | Runnable(c, steps) && After(c, steps).canceller == stage :: Settled(After(c, steps))
  }

  /** Such a call can rely on the guarantee exactly when the first one has queued its wake item and
      found the bridge not running, or is complete and the source obeys. */
  lemma LaterCancelIsSettledIff(c: Setup, stage: Canceller)
    requires !stage.Idle?
    ensures SettledAt(c, stage) <==>
            stage in {Woken(false), Complete(false)} || (stage == Complete(true) && c.obedient)
  {
    if stage in {Woken(false), Complete(false)} || (stage == Complete(true) && c.obedient) {
      forall steps | Runnable(c, steps) && After(c, steps).canceller == stage
        ensures Settled(After(c, steps))
      {
        ReachableIsSafe(c, steps);
        ObedientNeverSwallows(c, steps);
      }
    } else {
      var steps := UnsettledRun(c, stage);
      assert Runnable(c, steps) && !Settled(After(c, steps));
    }
  }

  function UnsettledSteps(stage: Canceller): seq<Step> {
    match stage
    case Flagged(true) => [Start, RunCallback, Cancel]
    case Woken(true) => [Start, RunCallback, Cancel, CancelWake]
    case Complete(true) =>
      [Start, RunCallback, TaskStart, Cancel, CancelWake, CancelNotify, RunCallback, Swallow]
    case _ => [Cancel]
  }

  /** A run on which a later `cancel` returns without the guarantee: before the first one has queued
      anything, before it has told the loop, or after the source swallowed the cancellation. */
  lemma UnsettledRun(c: Setup, stage: Canceller) returns (steps: seq<Step>)
    requires stage.Flagged? || stage == Woken(true) || (stage == Complete(true) && !c.obedient)
    ensures steps == UnsettledSteps(stage)
    ensures Runnable(c, steps) && After(c, steps).canceller == stage
    ensures var s := After(c, steps);
            s.flag && SetFlag(s) == s && !Settled(s) && !Doomed(s) && (stage.Flagged? ==> !Alerted(s))
  {
    hide Runnable, After;
    if stage.Complete? {
      steps := SwallowingRun(c);
    } else {
      steps := [];
      NoSteps(c);
      if stage != Flagged(false) {
        steps := OneMoreStep(c, steps, Start);
        steps := OneMoreStep(c, steps, RunCallback);
      }
      steps := OneMoreStep(c, steps, Cancel);
      if stage.Woken? {
        steps := OneMoreStep(c, steps, CancelWake);
      }
    }
  }

  lemma SwallowingRun(c: Setup) returns (steps: seq<Step>)
    requires !c.obedient
    ensures steps == UnsettledSteps(Complete(true)) && Runnable(c, steps)
    ensures After(c, steps) == State(Running, true, false, [Wake], [], Reading, Swallowed, c.limit, 0, Getting,
                                     Complete(true), [])
  {
    hide Runnable, After;
    steps := ReadingRun(c);
    steps := OneMoreStep(c, steps, Cancel);
    steps := OneMoreStep(c, steps, CancelWake);
    steps := OneMoreStep(c, steps, CancelNotify);
    assert After(c, steps) == State(Running, true, false, [Wake], [CancelTask], Reading, Quiet, c.limit, 0, Getting,
                                    Complete(true), []);
    steps := OneMoreStep(c, steps, RunCallback);
    steps := OneMoreStep(c, steps, Swallow);
  }

  lemma ReadingRun(c: Setup) returns (steps: seq<Step>)
    ensures steps == [Start, RunCallback, TaskStart] && Runnable(c, steps)
    ensures After(c, steps) ==
            State(Running, false, false, [], [], Reading, Quiet, c.limit, 0, Getting, Idle, [])
  {
    hide Runnable, After;
    steps := [];
    NoSteps(c);
    steps := OneMoreStep(c, steps, Start);
    steps := OneMoreStep(c, steps, RunCallback);
    steps := OneMoreStep(c, steps, TaskStart);
  }

  lemma NoSteps(c: Setup)
    ensures Runnable(c, []) && After(c, []) == Initial()
  {
  }

  lemma OneMoreStep(c: Setup, steps: seq<Step>, step: Step) returns (longer: seq<Step>)
    requires Runnable(c, steps) && Enabled(c, After(c, steps), step)
    ensures longer == steps + [step]
    ensures Runnable(c, longer) && After(c, longer) == Do(c, After(c, steps), step)
  {
    longer := steps + [step];
    assert longer[..|steps|] == steps;
  }

  /** A `cancel` that finds the flag set returns at once, and may do so before the first one
      has queued or scheduled anything. */
  lemma SecondCancelMayReturnEarly(c: Setup)
    ensures var steps := [Start, RunCallback, Cancel];
            && Runnable(c, steps)
            && var s := After(c, steps);
               && s.flag && s.canceller == Flagged(true) && SetFlag(s) == s
               && !Alerted(s) && !Doomed(s)
  {
    var steps := UnsettledRun(c, Flagged(true));
  }

  /** Never more than the limit is buffered, and what the consumer got is an in-order prefix
      of the source; a normal return means it got all of it. */
  lemma ConsumerSeesPrefix(c: Setup, steps: seq<Step>)
    requires Runnable(c, steps)
    ensures var s := After(c, steps);
            && |Chunks(s.queue)| <= c.limit
            && s.received <= c.source
            && (s.consumer == Gone(Returned) ==> s.received == c.source)
  {
    ReachableIsSafe(c, steps);
  }

  /** Once the consumer has stopped nothing is handed out any more, whatever the threads do ... */
  lemma {:induction false} NothingAfterStop(c: Setup, steps: seq<Step>, n: nat)
    requires Runnable(c, steps) && n <= |steps|
    ensures Runnable(c, steps[..n])
    ensures !Active(After(c, steps[..n]).consumer) ==>
              && !Active(After(c, steps).consumer)
              && After(c, steps).received == After(c, steps[..n]).received
    decreases |steps|
  {
    if n == |steps| {
      assert steps[..n] == steps;
    } else {
      hide Do, Enabled;
      var before := steps[..|steps| - 1];
      NothingAfterStop(c, before, n);
      assert before[..n] == steps[..n];
      if !Active(After(c, before).consumer) {
        ReasonStays(c, After(c, before), steps[|steps| - 1]);
      }
    }
  }

  /** ... and it stops when the caller abandons it, and at the first item that it takes once the cancel
      flag is set, unless that item was the end of the source. */
  lemma NothingAfterSeenCancel(c: Setup, steps: seq<Step>, n: nat)
    requires Runnable(c, steps) && n < |steps|
    ensures Runnable(c, steps[..n])
    ensures steps[n] == Abandon || (steps[n] == Decide && After(c, steps[..n]).flag) ==>
              After(c, steps).received == After(c, steps[..n]).received
  {
    hide Runnable, After;
    NothingAfterStop(c, steps, n);
    NothingAfterStop(c, steps, n + 1);
    LastStep(c, steps, n);
  }

  lemma LastStep(c: Setup, steps: seq<Step>, n: nat)
    requires Runnable(c, steps) && n < |steps| && Runnable(c, steps[..n]) && Runnable(c, steps[..n + 1])
    ensures Enabled(c, After(c, steps[..n]), steps[n])
    ensures After(c, steps[..n + 1]) == Do(c, After(c, steps[..n]), steps[n])
  {
    assert steps[..n + 1][..n] == steps[..n];
  }

  /** The steps of the event-loop thread. */
  predicate OnLoopThread(step: Step) {
    step in {RunCallback, TaskStart, TaskUnstartedCancelled, ReadItem, ReadEnd, TakeSlot,
             TaskCancelled(false), PutOutcome}
  }

  /** The consumer waits for an item. */
  predicate Blocked(s: State) {
    s.consumer.Getting? && s.queue == []
  }

  /** While the consumer waits the event loop can always move.  No buffer slot is ever lost, so the
      pump never starves either. */
  lemma NeverDeadlocks(c: Setup, steps: seq<Step>)
    requires Runnable(c, steps) && c.limit >= 1
    requires Blocked(After(c, steps))
    ensures exists step :: OnLoopThread(step) && Enabled(c, After(c, steps), step)
  {
    ReachableIsSafe(c, steps);
    var s := After(c, steps);
    assert !Alerted(s);
    if s.callbacks != [] {
      assert Enabled(c, s, RunCallback) && OnLoopThread(RunCallback);
    } else {
      var step := match s.task
        case Unstarted => if s.notice.Pending? then TaskUnstartedCancelled else TaskStart
        case Reading =>
          if s.notice.Pending? then TaskCancelled(false) else if s.pos < |c.source| then ReadItem else ReadEnd
        case Waiting(_) => if s.notice.Pending? then TaskCancelled(false) else TakeSlot
        case _ => PutOutcome;
      assert Chunks(s.queue) == [] && Releases(s.callbacks) == 0;
      assert Enabled(c, s, step) && OnLoopThread(step);
    }
  }

  /** A bound for the steps that all threads together can take while the consumer waits. */
  function Work(s: State): nat {
    |s.callbacks|
    + (if s.flag then 0 else 1)
    + match s.task
      case NoTask => 3
      case Unstarted => 3
      case Reading => 2
      case Waiting(_) => 1
      case _ => 0
  }

  lemma WorkFalls(c: Setup, s: State, step: Step)
    requires Cancels(s) && NoHang(s) && Lifecycle(s) && Blocked(s) && Enabled(c, s, step)
    ensures Blocked(Do(c, s, step)) ==> Work(Do(c, s, step)) < Work(s)
  {
    assert !Alerted(s);
  }

  /** No interleaving leaves the consumer waiting for ever: it waits through a bounded number of
      steps, whichever threads take them. */
  lemma {:induction false} WaitIsBounded(c: Setup, steps: seq<Step>, n: nat)
    requires Runnable(c, steps) && n <= |steps|
    requires forall m | n <= m <= |steps| :: Runnable(c, steps[..m]) && Blocked(After(c, steps[..m]))
    ensures |steps| - n + Work(After(c, steps)) <= Work(After(c, steps[..n]))
    decreases |steps|
  {
    if n == |steps| {
      assert steps[..n] == steps;
    } else {
      var before := steps[..|steps| - 1];
      assert steps[..|steps|] == steps;
      assert forall m | n <= m <= |before| :: before[..m] == steps[..m];
      WaitIsBounded(c, before, n);
      ReachableIsSafe(c, before);
      WorkFalls(c, After(c, before), steps[|steps| - 1]);
    }
  }

  /** The request failed: it could not start, or its source raised. */
  predicate Fails(step: Step) {
    step in {TaskStartFails, ReadFails, TaskCancelled(true)}
  }

  ghost predicate Failed(steps: seq<Step>) {
    exists k :: 0 <= k < |steps| && Fails(steps[k])
  }

  /** An item that the pump is about to queue, that is queued, or that the consumer has taken. */
  predicate Speaks(s: State, item: Item) {
    || s.task == Closing(item)
    || item in s.queue
    || s.consumer == Checking(item) || s.consumer == Deciding(item)
  }

  /** What the items say about the past: whether a cancel, a failure and the end of the source came. */
  ghost predicate Story(s: State, cancelled: bool, failed: bool, ended: bool) {
    && (Speaks(s, Error) ==> failed)
    && (Speaks(s, Done) ==> ended)
    && (Speaks(s, Wake) || Speaks(s, Cancelled) || s.consumer == Deciding(Error) ==> s.flag)
    && !(failed && ended)
    && (failed || ended ==> s.task.Closing? || s.task.Ended?)
    && (Active(s.consumer) ==> (s.flag <==> cancelled))
  }

  lemma {:induction false} ItemsTellTheStory(c: Setup, steps: seq<Step>)
    requires Runnable(c, steps)
    ensures Story(After(c, steps), Cancel in steps, Failed(steps), ReadEnd in steps)
    decreases |steps|
  {
    hide Story, Enabled, Do, Inv, Fails, Failed, Lifecycle, Flags;
    if steps == [] {
      StoryBegins(c);
    } else {
      var before, step := steps[..|steps| - 1], steps[|steps| - 1];
      ItemsTellTheStory(c, before);
      ReachableIsSafe(c, before);
      InvMeans(c, After(c, before));
      StoryGoesOn(c, After(c, before), step, Cancel in before, Failed(before), ReadEnd in before);
      assert steps == before + [step];
      OneStepLater(before, step);
    }
  }

  lemma StoryBegins(c: Setup)
    ensures Runnable(c, []) && Story(After(c, []), false, Failed([]), false)
  {
  }

  lemma InvMeans(c: Setup, s: State)
    requires Inv(c, s)
    ensures Lifecycle(s) && Flags(s)
  {
  }

  lemma OneStepLater(before: seq<Step>, step: Step)
    ensures Failed(before + [step]) <==> Failed(before) || Fails(step)
    ensures forall x :: x in before + [step] <==> x in before || x == step
  {
    hide Fails;
    if Failed(before) {
      var k :| 0 <= k < |before| && Fails(before[k]);
      assert Fails((before + [step])[k]);
    }
    if Fails(step) {
      assert Fails((before + [step])[|before|]);
    }
  }

  lemma StoryGoesOn(c: Setup, s: State, step: Step, cancelled: bool, failed: bool, ended: bool)
    requires Story(s, cancelled, failed, ended) && Lifecycle(s) && Flags(s) && Enabled(c, s, step)
    ensures Story(Do(c, s, step), cancelled || step == Cancel, failed || Fails(step), ended || step == ReadEnd)
  {
    hide Story, Lifecycle, Flags, Enabled, Do;
    if Consumes(step) {
      ConsumerStory(c, s, step, cancelled, failed, ended);
    } else if PutsChunk(step) {
      PutStory(c, s, step, cancelled, failed, ended);
    } else if step.RunCallback? {
      CallbackStory(c, s, cancelled, failed, ended);
    } else {
      LoopStory(c, s, step, cancelled, failed, ended);
    }
  }

  lemma ConsumerStory(c: Setup, s: State, step: Step, cancelled: bool, failed: bool, ended: bool)
    requires Story(s, cancelled, failed, ended) && Enabled(c, s, step) && Consumes(step)
    ensures Story(Do(c, s, step), cancelled, failed, ended)
  {
    hide Enabled, Do;
    if step.Get? {
      GetStory(c, s, cancelled, failed, ended);
    } else if step.Check? {
      CheckStory(c, s, cancelled, failed, ended);
    } else {
      QuietConsumer(c, s, step);
      FlagStays(c, s, step);
    }
  }

  lemma GetStory(c: Setup, s: State, cancelled: bool, failed: bool, ended: bool)
    requires Story(s, cancelled, failed, ended) && Enabled(c, s, Get)
    ensures Story(Do(c, s, Get), cancelled, failed, ended)
  {
    assert forall item | item in s.queue[1..] :: item in s.queue;
    assert s.queue[0] in s.queue;
  }

  lemma CheckStory(c: Setup, s: State, cancelled: bool, failed: bool, ended: bool)
    requires Story(s, cancelled, failed, ended) && Enabled(c, s, Check)
    ensures Story(Do(c, s, Check), cancelled, failed, ended)
  {
  }

  /** While the consumer is active its own steps leave the flag alone. */
  lemma FlagStays(c: Setup, s: State, step: Step)
    requires Enabled(c, s, step) && Consumes(step)
    ensures var t := Do(c, s, step);
            (s.flag ==> t.flag) && (Active(t.consumer) ==> Active(s.consumer) && t.flag == s.flag)
  {
  }

  lemma PutStory(c: Setup, s: State, step: Step, cancelled: bool, failed: bool, ended: bool)
    requires Story(s, cancelled, failed, ended) && Enabled(c, s, step) && PutsChunk(step)
    ensures Story(Do(c, s, step), cancelled, failed, ended)
  {
  }

  lemma CallbackStory(c: Setup, s: State, cancelled: bool, failed: bool, ended: bool)
    requires Story(s, cancelled, failed, ended) && Lifecycle(s) && Enabled(c, s, RunCallback)
    ensures Story(Do(c, s, RunCallback), cancelled, failed, ended)
  {
  }

  lemma LoopStory(c: Setup, s: State, step: Step, cancelled: bool, failed: bool, ended: bool)
    requires Story(s, cancelled, failed, ended) && Lifecycle(s) && Flags(s)
    requires Enabled(c, s, step) && !Consumes(step) && !PutsChunk(step) && !step.RunCallback?
    ensures Story(Do(c, s, step), cancelled || step == Cancel, failed || Fails(step), ended || step == ReadEnd)
  {
    hide Added;
    QueueGrows(c, s, step);
  }

  function ReasonOf(consumer: Consumer): Option<Reason> {
    match consumer
    case Leaving(reason) => Some(reason)
    case Cancelling(reason) => Some(reason)
    case Gone(reason) => Some(reason)
    case _ => None
  }

  /** Why the consumer stops, at the step that makes it stop. */
  lemma ReasonAtStep(c: Setup, steps: seq<Step>, step: Step)
    requires Runnable(c, steps) && Enabled(c, After(c, steps), step)
    requires Active(After(c, steps).consumer) && !Active(Do(c, After(c, steps), step).consumer)
    ensures var s := After(c, steps);
            var reason := ReasonOf(Do(c, s, step).consumer);
            && (reason == Some(Abandoned) <==> step == Abandon)
            && (reason == Some(Raised) <==> step != Abandon && Failed(steps) && Cancel !in steps)
            && (reason == Some(Interrupted) ==> Cancel in steps)
            && (reason == Some(Returned) ==> ReadEnd in steps && !Failed(steps))
            && (step != Abandon && Cancel !in steps && !Failed(steps) ==> reason == Some(Returned))
            && (reason == Some(Returned) <==> s.consumer == Checking(Done))
  {
    hide Runnable, After, Failed, Speaks, Story, Inv;
    ReachableIsSafe(c, steps);
    ItemsTellTheStory(c, steps);
    TakenItem(c, After(c, steps), Cancel in steps, Failed(steps), ReadEnd in steps);
  }

  /** What the item that the consumer has taken says. */
  lemma TakenItem(c: Setup, s: State, cancelled: bool, failed: bool, ended: bool)
    requires Inv(c, s) && Story(s, cancelled, failed, ended)
    ensures !(failed && ended)
    ensures Active(s.consumer) ==> (s.flag <==> cancelled)
    ensures s.consumer.Checking? || s.consumer.Deciding? ==>
              && (s.consumer.item.Error? ==> failed)
              && (s.consumer.item.Done? ==> ended && s.consumer.Checking?)
              && (s.consumer.item in {Wake, Cancelled} || s.consumer == Deciding(Error) ==> s.flag)
  {
  }

  /** Once it has stopped the consumer keeps its reason and what it received. */
  lemma ReasonStays(c: Setup, s: State, step: Step)
    requires Enabled(c, s, step) && !Active(s.consumer)
    ensures var t := Do(c, s, step);
            !Active(t.consumer) && ReasonOf(t.consumer) == ReasonOf(s.consumer) && t.received == s.received
  {
    hide Enabled, Do;
    if Consumes(step) {
      ConsumerReason(c, s, step);
    } else {
      OthersLeaveConsumer(c, s, step);
    }
  }

  lemma ConsumerReason(c: Setup, s: State, step: Step)
    requires Enabled(c, s, step) && !Active(s.consumer) && Consumes(step)
    ensures var t := Do(c, s, step);
            !Active(t.consumer) && ReasonOf(t.consumer) == ReasonOf(s.consumer) && t.received == s.received
  {
  }

  lemma OthersLeaveConsumer(c: Setup, s: State, step: Step)
    requires Enabled(c, s, step) && !Active(s.consumer) && !Consumes(step)
    ensures var t := Do(c, s, step); t.consumer == s.consumer && t.received == s.received
  {
  }

  /** Why a consumer has stopped, over whole runs: it stopped at some step `n`.  Unless the caller
      abandoned it, it raised exactly when the request had failed by then and no `cancel` had come;
      with neither it returned, and then it received the whole source. */
  lemma {:induction false} ReasonOfLeaving(c: Setup, steps: seq<Step>) returns (n: nat)
    requires Runnable(c, steps) && !Active(After(c, steps).consumer)
    ensures n < |steps| && Runnable(c, steps[..n]) && Active(After(c, steps[..n]).consumer)
    ensures var s := After(c, steps);
            var reason := ReasonOf(s.consumer);
            var cancelled, failed := Cancel in steps[..n], Failed(steps[..n]);
            && (reason == Some(Abandoned) <==> steps[n] == Abandon)
            && (reason == Some(Raised) <==> steps[n] != Abandon && failed && !cancelled)
            && (reason == Some(Interrupted) ==> cancelled)
            && (reason == Some(Returned) ==> ReadEnd in steps[..n] && !failed && s.received == c.source)
            && (steps[n] != Abandon && !cancelled && !failed ==> reason == Some(Returned))
            && (reason == Some(Returned) <==> After(c, steps[..n]).consumer == Checking(Done))
    decreases |steps|
  {
    hide Failed, Do, Enabled;
    NothingStopsFirst(c);
    n := |steps| - 1;
    var before, step := steps[..n], steps[n];
    ConsumerSeesReturn(c, steps);
    if Active(After(c, before).consumer) {
      ReasonAtStep(c, before, step);
    } else {
      ReasonStays(c, After(c, before), step);
      n := ReasonOfLeaving(c, before);
      assert before[..n] == steps[..n];
    }
  }

  lemma NothingStopsFirst(c: Setup)
    ensures Runnable(c, []) && Active(After(c, []).consumer)
  {
  }

  lemma ConsumerSeesReturn(c: Setup, steps: seq<Step>)
    requires Runnable(c, steps)
    ensures ReasonOf(After(c, steps).consumer) == Some(Returned) ==> After(c, steps).received == c.source
  {
    ReachableIsSafe(c, steps);
  }

  /** A request that nobody cancels or abandons, and that does not fail, returns with the whole source. */
  lemma UndisturbedReturns(c: Setup, steps: seq<Step>)
    requires Runnable(c, steps) && !Active(After(c, steps).consumer)
    requires Cancel !in steps && Abandon !in steps && !Failed(steps)
    ensures ReasonOf(After(c, steps).consumer) == Some(Returned)
    ensures After(c, steps).received == c.source
  {
    hide Runnable, After;
    var n := ReasonOfLeaving(c, steps);
    assert forall k | 0 <= k < n :: steps[..n][k] == steps[k];
    assert steps[n] in steps;
  }

  /** A consumer that is gone, however it left, leaves no request running that is not cancelled. */
  lemma {:induction false} NothingLeftRunning(c: Setup, steps: seq<Step>)
    requires Runnable(c, steps)
    ensures var s := After(c, steps); s.consumer.Gone? ==> s.phase.Finished? || s.flag
    decreases |steps|
  {
    hide Enabled, Do, Inv, Lifecycle, Flags;
    if steps == [] {
      NothingStopsFirst(c);
    } else {
      var before, step := steps[..|steps| - 1], steps[|steps| - 1];
      NothingLeftRunning(c, before);
      ReachableIsSafe(c, before);
      InvMeans(c, After(c, before));
      GoneStep(c, After(c, before), step);
    }
  }

  lemma GoneStep(c: Setup, s: State, step: Step)
    requires Lifecycle(s) && Enabled(c, s, step) && (s.consumer.Gone? ==> s.phase.Finished? || s.flag)
    ensures var t := Do(c, s, step); t.consumer.Gone? ==> t.phase.Finished? || t.flag
  {
    hide Enabled, Do, Lifecycle;
    PhaseStays(c, s, step);
    if Consumes(step) && Do(c, s, step).consumer.Gone? {
      ConsumerGoes(c, s, step);
    }
  }

  lemma PhaseStays(c: Setup, s: State, step: Step)
    requires Enabled(c, s, step)
    ensures var t := Do(c, s, step);
            && (s.phase.Finished? && !step.Start? ==> t.phase.Finished?)
            && (s.flag ==> t.flag)
            && (!Consumes(step) ==> t.consumer == s.consumer || t.consumer.Getting?)
            && (step.Start? ==> s.phase.New? && t.consumer.Getting?)
  {
  }

  lemma ConsumerGoes(c: Setup, s: State, step: Step)
    requires Lifecycle(s) && Enabled(c, s, step) && Consumes(step) && Do(c, s, step).consumer.Gone?
    ensures var t := Do(c, s, step); t.phase.Finished? || t.flag
  {
    assert s.phase.New? ==> s.consumer.NotStarted?;
  }

  /** What nobody has to do: cancelling, abandoning, failing. */
  predicate Optional(step: Step) {
    step == Cancel || step == Abandon || Fails(step)
  }

  /** The consumer itself can always move, unless it waits or is done. */
  lemma ConsumerMoves(c: Setup, s: State)
    ensures !s.consumer.NotStarted? && !Blocked(s) && !s.consumer.Gone? ==>
              exists step :: Consumes(step) && !Optional(step) && Enabled(c, s, step)
  {
    var step := match s.consumer
      case Getting => Get
      case Checking(_) => Check
      case Deciding(_) => Decide
      case Releasing(_) => HandOut
      case Yielded => Resume
      case Leaving(_) => Close
      case _ => CloseCancel;
    assert !s.consumer.NotStarted? && !Blocked(s) && !s.consumer.Gone? ==>
             Consumes(step) && !Optional(step) && Enabled(c, s, step);
  }

  /** What may happen at any time: a request can fail to start or fail at any read, a cancellation can
      come out as any exception, and the caller can cancel or stop iterating. */
  lemma AnythingMayFail(c: Setup, s: State, converted: bool)
    ensures s.task.Unstarted? && !s.notice.Pending? ==> Enabled(c, s, TaskStartFails)
    ensures s.task.Reading? && !s.notice.Pending? ==> Enabled(c, s, ReadFails)
    ensures (s.task.Reading? || s.task.Waiting?) && s.notice.Pending? ==> Enabled(c, s, TaskCancelled(converted))
    ensures !c.obedient && s.task.Reading? && s.notice.Pending? ==> Enabled(c, s, Swallow)
    ensures !s.flag ==> Enabled(c, s, Cancel)
    ensures s.consumer.Releasing? ==> Enabled(c, Do(c, s, HandOut), Abandon)
  {
  }

  function CallbackCost(callback: Callback): nat {
    match callback
    case CreateTask => 12
    case CancelTask => 2
    case _ => 1
  }

  function CallbacksCost(callbacks: seq<Callback>): nat {
    if callbacks == [] then 0 else CallbackCost(callbacks[0]) + CallbacksCost(callbacks[1..])
  }

  function TaskCost(task: Task): nat {
    match task
    case Unstarted => 11
    case Reading => 10
    case Waiting(_) => 9
    case Closing(_) => 8
    case _ => 0
  }

  function ConsumerCost(consumer: Consumer): nat {
    match consumer
    case NotStarted => 16
    case Checking(_) => 8
    case Deciding(_) => 7
    case Releasing(_) => 6
    case Yielded => 4
    case Getting => 3
    case Leaving(_) => 2
    case Cancelling(_) => 1
    case Gone(_) => 0
  }

  function CancellerCost(canceller: Canceller): nat {
    match canceller
    case Idle => 11
    case Flagged(_) => 10
    case Woken(_) => 3
    case Complete(_) => 0
  }

  /** How many steps all threads together can still take. */
  function StepsLeft(c: Setup, s: State): int {
    8 * (|c.source| - s.pos) + 6 * |s.queue| + CallbacksCost(s.callbacks) + TaskCost(s.task)
    + (if s.notice.Pending? then 1 else 0) + ConsumerCost(s.consumer) + CancellerCost(s.canceller)
  }

  lemma {:induction false} CostSnoc(callbacks: seq<Callback>, next: Callback)
    ensures CallbacksCost(callbacks + [next]) == CallbacksCost(callbacks) + CallbackCost(next)
  {
    if callbacks == [] {
      assert [] + [next] == [next];
    } else {
      assert (callbacks + [next])[1..] == callbacks[1..] + [next];
      CostSnoc(callbacks[1..], next);
    }
  }

  lemma StepCosts(c: Setup, s: State, step: Step)
    requires Flags(s) && Enabled(c, s, step)
    ensures StepsLeft(c, Do(c, s, step)) < StepsLeft(c, s)
  {
    hide Flags;
    FlagMeansCanceller(s);
    if step.RunCallback? {
      CallbackCosts(c, s);
    } else if Consumes(step) {
      ConsumerCosts(c, s, step);
    } else {
      LoopCosts(c, s, step);
    }
  }

  lemma FlagMeansCanceller(s: State)
    requires Flags(s)
    ensures s.flag <==> !s.canceller.Idle?
  {
  }

  lemma CallbackCosts(c: Setup, s: State)
    requires Enabled(c, s, RunCallback)
    ensures StepsLeft(c, Do(c, s, RunCallback)) < StepsLeft(c, s)
  {
  }

  lemma ConsumerCosts(c: Setup, s: State, step: Step)
    requires Enabled(c, s, step) && Consumes(step) && (s.flag <==> !s.canceller.Idle?)
    ensures StepsLeft(c, Do(c, s, step)) < StepsLeft(c, s)
  {
    hide CallbacksCost;
    CostSnoc(s.callbacks, ReleaseSlot);
  }

  lemma LoopCosts(c: Setup, s: State, step: Step)
    requires Enabled(c, s, step) && !Consumes(step) && !step.RunCallback? && (s.flag <==> !s.canceller.Idle?)
    ensures StepsLeft(c, Do(c, s, step)) < StepsLeft(c, s)
  {
    hide CallbacksCost;
    CostSnoc(s.callbacks, CreateTask);
    CostSnoc(s.callbacks, CancelTask);
    CostSnoc(s.callbacks, FinishTask);
  }

  /** Every run ends: no interleaving of all threads has more steps than this. */
  lemma {:induction false} EveryRunEnds(c: Setup, steps: seq<Step>)
    requires Runnable(c, steps)
    ensures |steps| + StepsLeft(c, After(c, steps)) <= 8 * |c.source| + 27
    ensures |steps| <= 8 * |c.source| + 27
    decreases |steps|
  {
    hide Do, Enabled;
    ReachableIsSafe(c, steps);
    if steps != [] {
      var before := steps[..|steps| - 1];
      EveryRunEnds(c, before);
      ReachableIsSafe(c, before);
      StepCosts(c, After(c, before), steps[|steps| - 1]);
    }
  }

  /** A run that need not go on has served its consumer to the end: nothing gets stuck before that. */
  lemma StuckIsDone(c: Setup, steps: seq<Step>)
    requires Runnable(c, steps) && c.limit >= 1
    requires forall step | Enabled(c, After(c, steps), step) :: Optional(step)
    ensures After(c, steps).consumer.Gone?
  {
    hide Runnable, After;
    ReachableIsSafe(c, steps);
    var s := After(c, steps);
    ConsumerMoves(c, s);
    if Blocked(s) {
      NeverDeadlocks(c, steps);
    }
    assert s.consumer.NotStarted? ==> Enabled(c, s, Start) && !Optional(Start);
  }

  /** So a request that nobody cancels or abandons, and that does not fail, has come to its return with
      the whole source after a bounded number of steps, in every interleaving. */
  lemma UndisturbedCompletes(c: Setup, steps: seq<Step>)
    requires Runnable(c, steps) && c.limit >= 1
    requires forall k | 0 <= k < |steps| :: !Optional(steps[k])
    requires forall step | Enabled(c, After(c, steps), step) :: Optional(step)
    ensures After(c, steps).consumer == Gone(Returned) && After(c, steps).received == c.source
    ensures |steps| <= 8 * |c.source| + 27
  {
    hide Runnable, After, Enabled;
    StuckIsDone(c, steps);
    UndisturbedReturns(c, steps);
    EveryRunEnds(c, steps);
  }

  /** Closing cancels nothing that is over: if nobody else cancels, a request that had finished before its
      consumer stopped is never cancelled. */
  lemma {:induction false} FinishedIsNotCancelled(c: Setup, steps: seq<Step>, n: nat)
    requires Runnable(c, steps) && n <= |steps| && Cancel !in steps
    requires Runnable(c, steps[..n])
    requires Active(After(c, steps[..n]).consumer) && After(c, steps[..n]).phase.Finished?
    ensures var s := After(c, steps); s.phase.Finished? && !s.consumer.Cancelling? && !s.flag
    decreases |steps|
  {
    hide Enabled, Do;
    if n == |steps| {
      assert steps[..n] == steps;
      ActiveIsUnflagged(c, steps);
    } else {
      var before, step := steps[..|steps| - 1], steps[|steps| - 1];
      assert before[..n] == steps[..n];
      FinishedIsNotCancelled(c, before, n);
      ReachableIsSafe(c, before);
      InvMeans(c, After(c, before));
      OverStaysOver(c, After(c, before), step);
    }
  }

  lemma ActiveIsUnflagged(c: Setup, steps: seq<Step>)
    requires Runnable(c, steps) && Cancel !in steps && Active(After(c, steps).consumer)
    ensures !After(c, steps).flag && !After(c, steps).consumer.Cancelling?
  {
    hide Failed, Speaks;
    ItemsTellTheStory(c, steps);
  }

  lemma OverStaysOver(c: Setup, s: State, step: Step)
    requires Lifecycle(s) && Enabled(c, s, step) && step != Cancel
    requires s.phase.Finished? && !s.consumer.Cancelling? && !s.flag
    ensures var t := Do(c, s, step); t.phase.Finished? && !t.consumer.Cancelling? && !t.flag
  {
  }
}
