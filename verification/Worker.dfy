/** The control channel of the sandbox worker, and the kills that arrive on it. */
module Worker {
  import opened Results
  import opened Framing

  datatype Operation = Run | RunArgv | Kill | Other

  datatype Message = Message(op: Operation, id: int, body: string)

  type Process = nat

  /** A control line as a message, if it is well formed. */
  type Decoder = Bytes -> Option<Message>
  type Encoder = Message -> Bytes

  predicate WellFormed(decode: Decoder, lines: seq<Bytes>) {
    forall i | 0 <= i < |lines| :: decode(lines[i]).Some?
  }

  /** The messages before the first malformed line. */
  function Decoded(decode: Decoder, lines: seq<Bytes>): seq<Message> {
    if lines == [] || decode(lines[0]).None? then [] else [decode(lines[0]).value] + Decoded(decode, lines[1..])
  }

  lemma {:induction false} DecodedAppend(decode: Decoder, a: seq<Bytes>, b: seq<Bytes>)
    ensures Decoded(decode, a + b) ==
            if WellFormed(decode, a) then Decoded(decode, a) + Decoded(decode, b) else Decoded(decode, a)
  {
    if a == [] {
      assert a + b == b;
    } else {
      assert (a + b)[1..] == a[1..] + b;
      DecodedAppend(decode, a[1..], b);
      assert forall i | 0 <= i < |a[1..]| :: a[1..][i] == a[i + 1];
      assert WellFormed(decode, a) <==> decode(a[0]).Some? && WellFormed(decode, a[1..]);
    }
  }

  /** The threads that the messages start. */
  function Launches(messages: seq<Message>): seq<Message> {
    if messages == [] then []
    else
      var last := |messages| - 1;
      var m := messages[last];
      Launches(messages[..last]) + if m.op == Run || m.op == RunArgv then [m] else []
  }

  /** The requests that the messages ask to kill. */
  ghost function Killed(messages: seq<Message>): set<int> {
    set m | m in messages && m.op == Kill :: m.id
  }

  lemma OneMoreMessage(messages: seq<Message>, m: Message)
    ensures Launches(messages + [m]) == Launches(messages) + if m.op == Run || m.op == RunArgv then [m] else []
    ensures Killed(messages + [m]) == Killed(messages) + if m.op == Kill then {m.id} else {}
  {
    assert (messages + [m])[..|messages|] == messages;
  }

  /** What one process of the host writes: one line per message. */
  function Frames(encode: Encoder, messages: seq<Message>): Bytes {
    Join(Encoded(encode, messages), [])
  }

  function Encoded(encode: Encoder, messages: seq<Message>): seq<Bytes> {
    seq(|messages|, i requires 0 <= i < |messages| => encode(messages[i]))
  }

  /** The encoding escapes line feeds and can be read back. */
  ghost predicate Faithful(encode: Encoder, decode: Decoder) {
    forall m :: Unbroken(encode(m)) && decode(encode(m)) == Some(m)
  }

  /** Whatever part of the host's bytes has arrived, the worker has decoded the messages in order
      from the first on, and all of them once everything has arrived. */
  lemma WorkerHearsHost(encode: Encoder, decode: Decoder, sent: seq<Message>, arrived: Bytes)
    requires Faithful(encode, decode) && arrived <= Frames(encode, sent)
    ensures WellFormed(decode, Lines(arrived))
    ensures |Lines(arrived)| <= |sent|
    ensures Decoded(decode, Lines(arrived)) == sent[..|Lines(arrived)|]
    ensures arrived == Frames(encode, sent) ==> Decoded(decode, Lines(arrived)) == sent
  {
    var lines := Encoded(encode, sent);
    LinesOfJoin(lines, []);
    var missing := Frames(encode, sent)[|arrived|..];
    assert Frames(encode, sent) == arrived + missing;
    FeedMore(arrived, missing);
    var n := |Lines(arrived)|;
    assert Lines(arrived) == lines[..n];
    DecodedPrefix(encode, decode, sent, n);
  }

  lemma {:induction false} DecodedPrefix(encode: Encoder, decode: Decoder, sent: seq<Message>, n: nat)
    requires Faithful(encode, decode) && n <= |sent|
    ensures WellFormed(decode, Encoded(encode, sent)[..n])
    ensures Decoded(decode, Encoded(encode, sent)[..n]) == sent[..n]
  {
    var lines := Encoded(encode, sent);
    if n > 0 {
      DecodedPrefix(encode, decode, sent, n - 1);
      assert lines[..n] == lines[..n - 1] + [encode(sent[n - 1])];
      DecodedAppend(decode, lines[..n - 1], [encode(sent[n - 1])]);
      assert Decoded(decode, [encode(sent[n - 1])]) == [sent[n - 1]];
      assert sent[..n] == sent[..n - 1] + [sent[n - 1]];
    }
  }

  /** The position of the first line feed. */
  function FirstNewline(bytes: Bytes): (at: nat)
    requires NEWLINE in bytes
    ensures at < |bytes| && bytes[at] == NEWLINE && Unbroken(bytes[..at])
  {
    if bytes[0] == NEWLINE then 0
    else
      assert bytes == [bytes[0]] + bytes[1..];
      var at := 1 + FirstNewline(bytes[1..]);
      assert bytes[..at] == [bytes[0]] + bytes[1..][..at - 1];
      at
  }

  class Worker {
    const decode: Decoder
    var buffer: Bytes
    var stopped: bool
    /** The request threads started so far. */
    var threads: seq<Message>
    var running: map<int, Process>
    var killedBeforeStart: set<int>
    /** The process groups that were sent the kill signal. */
    var signalled: set<Process>
    ghost var received: Bytes
    ghost var handled: seq<Message>
    /** Every process that was ever registered. */
    ghost var processes: map<int, Process>

    /** The messages handled are those of the complete lines received, up to a malformed one. */
    ghost predicate InStep()
      reads `buffer, `stopped, `threads, `received, `handled
    {
      && handled == Decoded(decode, Lines(received))
      && threads == Launches(handled)
      && (!stopped ==> buffer == Rest(received) && WellFormed(decode, Lines(received)))
    }

    /** No kill is lost, whether it arrives before or after its process is registered, and no
        process is signalled that nobody asked to kill. */
    ghost predicate KillsReach()
      reads `stopped, `running, `killedBeforeStart, `signalled, `handled, `processes
    {
      && (forall id | id in running :: id in processes && running[id] == processes[id])
      && killedBeforeStart <= Killed(handled)
      && (forall id | id in Killed(handled) && id !in processes :: id in killedBeforeStart)
      && (forall id | id in Killed(handled) && id in running :: running[id] in signalled)
      && (!stopped ==> forall p | p in signalled :: Asked(p))
      && (stopped ==> forall id | id in running :: running[id] in signalled)
    }

    ghost predicate Asked(p: Process)
      reads `handled, `processes
    {
      exists id :: id in Killed(handled) && id in processes && processes[id] == p
    }

    ghost predicate Valid()
      reads this
    {
      InStep() && KillsReach()
    }

    constructor (decode: Decoder)
      ensures Valid() && !stopped && received == [] && this.decode == decode
    {
      this.decode := decode;
      buffer, stopped, threads, running, killedBeforeStart, signalled := [], false, [], map[], {}, {};
      received, handled, processes := [], [], map[];
    }

    /** One turn of the loop of `main`, with what one read returned. */
    method Turn(data: Bytes)
      requires Valid() && !stopped
      modifies this
      ensures Valid() && received == old(received) + data
      ensures stopped <==> data == [] || !WellFormed(decode, Lines(received))
      ensures running == old(running) && processes == old(processes)
    {
      hide Lines, Rest, Decoded, Launches, WellFormed, KillsReach;
      received := received + data;
      if data == [] {
        assert received == old(received);
        Stop();
        return;
      }
      FeedMore(old(received), data);
      buffer := buffer + data;
      Handle(Lines(old(received)));
    }

    /** The inner loop of `main`. */
    method Handle(ghost before: seq<Bytes>)
      requires KillsReach() && !stopped && threads == Launches(handled)
      requires handled == Decoded(decode, before) && WellFormed(decode, before)
      requires before + Lines(buffer) == Lines(received) && Rest(buffer) == Rest(received)
      modifies this
      ensures Valid()
      ensures stopped <==> !WellFormed(decode, Lines(received))
      ensures received == old(received) && running == old(running) && processes == old(processes)
    {
      hide Lines, Rest, Decoded, Launches, WellFormed, KillsReach, Unbroken;
      ghost var done := before;
      while NEWLINE in buffer
        invariant KillsReach() && !stopped && threads == Launches(handled)
        invariant handled == Decoded(decode, done) && WellFormed(decode, done)
        invariant done + Lines(buffer) == Lines(received) && Rest(buffer) == Rest(received)
        invariant received == old(received) && running == old(running) && processes == old(processes)
        decreases |buffer|
      {
        var at := FirstNewline(buffer);
        var line := buffer[..at];
        TakeLine(buffer, at);
        NextLine(decode, done, line, Lines(buffer[at + 1..]));
        buffer := buffer[at + 1..];
        if decode(line).None? {
          Stop();
          return;
        }
        var message := decode(line).value;
        done := done + [line];
        Dispatch(message);
      }
      UnbrokenIsRest(buffer);
      assert done + [] == done;
    }

    method Dispatch(message: Message)
      requires KillsReach() && !stopped && threads == Launches(handled)
      modifies `threads, `killedBeforeStart, `signalled, `handled
      ensures KillsReach() && threads == Launches(handled)
      ensures handled == old(handled) + [message]
    {
      hide Launches, Killed;
      OneMoreMessage(handled, message);
      handled := handled + [message];
      assert forall p | old(Asked(p)) :: Asked(p);
      match message.op
      case Run => threads := threads + [message];
      case RunArgv => threads := threads + [message];
      case Kill => KillRequest(message.id);
      case Other =>
    }

    /** `_kill` */
    method KillRequest(id: int)
      modifies `killedBeforeStart, `signalled
      ensures id !in running ==> killedBeforeStart == old(killedBeforeStart) + {id} && signalled == old(signalled)
      ensures id in running ==>
                killedBeforeStart == old(killedBeforeStart) && signalled == old(signalled) + {running[id]}
    {
      if id !in running {
        killedBeforeStart := killedBeforeStart + {id};
      } else {
        signalled := signalled + {running[id]};
      }
    }

    /** The locked step in the middle of `_run`. The host numbers its requests, so no identifier
        is registered twice. */
    method Register(id: int, process: Process)
      requires Valid() && !stopped && id !in processes
      modifies `running, `processes, `killedBeforeStart, `signalled
      ensures Valid()
      ensures running == old(running)[id := process] && processes == old(processes)[id := process]
      ensures killedBeforeStart == old(killedBeforeStart) - {id}
      ensures signalled == old(signalled) + if id in Killed(handled) then {process} else {}
    {
      hide InStep, Killed;
      running := running[id := process];
      processes := processes[id := process];
      if id in killedBeforeStart {
        killedBeforeStart := killedBeforeStart - {id};
        signalled := signalled + {process};
        assert Asked(process);
      }
      assert forall p | old(Asked(p)) :: Asked(p);
    }

    /** The last locked step of `_run`. */
    method Finish(id: int)
      requires Valid() && !stopped
      modifies `running
      ensures Valid() && running == old(running) - {id}
    {
      running := running - {id};
      assert forall p | old(Asked(p)) :: Asked(p);
    }

    /** `_shutdown`: every running command dies with the worker. */
    method Stop()
      requires KillsReach()
      modifies `signalled, `stopped
      ensures stopped && signalled == old(signalled) + running.Values
      ensures KillsReach()
    {
      signalled := signalled + running.Values;
      stopped := true;
    }
  }

  lemma TakeLine(buffer: Bytes, at: nat)
    requires at < |buffer| && buffer[at] == NEWLINE && Unbroken(buffer[..at])
    ensures Lines(buffer) == [buffer[..at]] + Lines(buffer[at + 1..])
    ensures Rest(buffer) == Rest(buffer[at + 1..])
  {
    FirstLine(buffer[..at], buffer[at + 1..]);
    Rejoin(buffer, at);
  }

  lemma NextLine(decode: Decoder, done: seq<Bytes>, line: Bytes, left: seq<Bytes>)
    requires WellFormed(decode, done)
    ensures done + ([line] + left) == done + [line] + left
    ensures decode(line).Some? ==>
              && WellFormed(decode, done + [line])
              && Decoded(decode, done + [line]) == Decoded(decode, done) + [decode(line).value]
    ensures decode(line).None? ==>
              && !WellFormed(decode, done + [line] + left)
              && Decoded(decode, done + [line] + left) == Decoded(decode, done)
  {
    hide Decoded, WellFormed;
    DecodedAppend(decode, done, [line]);
    DecodedAppend(decode, done + [line], left);
    DecodedSingle(decode, line);
    WellFormedAppend(decode, done, [line]);
    WellFormedAppend(decode, done + [line], left);
  }

  lemma DecodedSingle(decode: Decoder, line: Bytes)
    ensures Decoded(decode, [line]) == if decode(line).Some? then [decode(line).value] else []
    ensures WellFormed(decode, [line]) <==> decode(line).Some?
  {
  }

  lemma WellFormedAppend(decode: Decoder, a: seq<Bytes>, b: seq<Bytes>)
    ensures WellFormed(decode, a + b) <==> WellFormed(decode, a) && WellFormed(decode, b)
  {
    assert forall i | 0 <= i < |a| :: (a + b)[i] == a[i];
    assert forall i | 0 <= i < |b| :: (a + b)[|a| + i] == b[i];
  }
}
