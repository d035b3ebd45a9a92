/** The bounded rolling tail of one command's output, and its spill log. */
module Output {
  type Byte = b: int | 0 <= b < 256

  /** `byte & 0xC0 == 0x80` (section 3 of RFC 3629). */
  predicate Continuation(b: Byte) {
    0x80 <= b < 0xC0
  }

  /** Its two highest bits are 10. */
  lemma ContinuationIff(b: Byte)
    ensures Continuation(b) <==> b / 64 == 2
  {
  }

  function DropHead(data: seq<Byte>): (rest: seq<Byte>)
    ensures |rest| <= |data| && rest == data[|data| - |rest|..]
    ensures rest == [] || !Continuation(rest[0])
    ensures forall k | 0 <= k < |data| - |rest| :: Continuation(data[k])
  {
    if data != [] && Continuation(data[0]) then
      var rest := DropHead(data[1..]);
      assert forall k | 1 <= k < |data| - |rest| :: data[k] == data[1..][k - 1];
      rest
    else data
  }

  function Last(data: seq<Byte>, n: nat): (tail: seq<Byte>)
    ensures |tail| == if |data| < n then |data| else n
  {
    if |data| <= n then data else data[|data| - n..]
  }

  function First(data: seq<Byte>, n: nat): seq<Byte> {
    if |data| <= n then data else data[..n]
  }

  predicate Suffix(tail: seq<Byte>, all: seq<Byte>) {
    |tail| <= |all| && tail == all[|all| - |tail|..]
  }

  lemma FirstGrows(all: seq<Byte>, raw: seq<Byte>, limit: nat)
    ensures First(all + raw, limit) ==
            First(all, limit) + First(raw, if |all| < limit then limit - |all| else 0)
  {
  }

  lemma SuffixGrows(tail: seq<Byte>, all: seq<Byte>, raw: seq<Byte>)
    requires Suffix(tail, all)
    ensures Suffix(tail + raw, all + raw)
  {
  }

  lemma SuffixOfSuffix(inner: seq<Byte>, tail: seq<Byte>, all: seq<Byte>)
    requires Suffix(inner, tail) && Suffix(tail, all)
    ensures Suffix(inner, all)
  {
  }

  /** The tail after one chunk. */
  function NextTail(tail: seq<Byte>, raw: seq<Byte>, limit: nat): seq<Byte> {
    if |tail + raw| > limit then DropHead(Last(tail + raw, limit)) else tail + raw
  }

  lemma NothingToAdd(tail: seq<Byte>, limit: nat)
    requires |tail| <= limit
    ensures NextTail(tail, [], limit) == tail
  {
    assert tail + [] == tail;
  }

  lemma NextTailIsSuffix(tail: seq<Byte>, all: seq<Byte>, raw: seq<Byte>, limit: nat)
    requires Suffix(tail, all)
    ensures Suffix(NextTail(tail, raw, limit), all + raw) && |NextTail(tail, raw, limit)| <= limit
  {
    SuffixGrows(tail, all, raw);
    if |tail + raw| > limit {
      var cut := Last(tail + raw, limit);
      SuffixOfSuffix(DropHead(cut), cut, tail + raw);
      SuffixOfSuffix(DropHead(cut), tail + raw, all + raw);
    }
  }

  /** What the tail should hold after output `all`: all of it while it fits, and after that
      the last `limit` bytes without the pieces of a character cut in half. */
  function Window(all: seq<Byte>, limit: nat): seq<Byte> {
    if |all| <= limit then all else DropHead(Last(all, limit))
  }

  /** How writing to the log can go wrong for one chunk. */
  datatype LogStep = Works | Fails

  /** `_drop_partial_character_head`, in place on a byte buffer. */
  method DropPartialHead(data: seq<Byte>) returns (rest: seq<Byte>)
    ensures rest == DropHead(data)
  {
    var head := 0;
    while head < |data| && Continuation(data[head])
      invariant head <= |data|
      invariant DropHead(data) == DropHead(data[head..])
    {
      assert data[head..][1..] == data[head + 1..];
      head := head + 1;
    }
    return data[head..];
  }

  class OutputCollector {
    const limit: nat
    var tail: seq<Byte>
    var total: nat
    var truncated: bool
    var logOpen: bool
    var logFailed: bool
    var log: seq<Byte>
    /** Bytes the merged-stream decoder was fed. */
    var decoded: seq<Byte>
    ghost var all: seq<Byte>
    ghost var chunks: seq<seq<Byte>>

    ghost predicate Valid()
      reads this
    {
      && decoded == First(all, limit) && Bounded()
      && all == Concat(chunks) && tail == TailOf(chunks, limit)
    }

    ghost predicate Bounded()
      reads this
    {
      && total == |all|
      && (truncated <==> |all| > limit)
      && Suffix(tail, all) && |tail| <= limit
      && (!truncated ==> tail == all && !logOpen && !logFailed)
      && (truncated ==> logOpen != logFailed)
      && (logOpen ==> log == all)
    }

    constructor (limit: nat)
      ensures Valid() && this.limit == limit && all == []
    {
      this.limit := limit;
      tail, total, truncated := [], 0, false;
      logOpen, logFailed, log, decoded := false, false, [], [];
      all, chunks := [], [];
    }

    /** One `append`.  The tail is always a suffix of the output that fits the limit, the log
        holds everything unless writing it failed, and the decoder saw exactly the first
        `limit` bytes.  When the tail was the window before, it is the window afterwards
        unless the window had been emptied and the chunk begins inside a character. */
    method Append(raw: seq<Byte>, logging: LogStep)
      requires Valid() && limit > 0
      modifies this
      ensures Valid() && all == old(all) + raw && chunks == old(chunks) + [raw]
      ensures old(logFailed) ==> logFailed
      ensures logging == Works && !old(logFailed) ==> !logFailed
      ensures tail == NextTail(old(tail), raw, limit)
    {
      hide First, Suffix, NextTail, Concat, TailOf;
      OneMoreChunk(chunks, raw, limit);
      chunks := chunks + [raw];
      if raw == [] {
        assert all + raw == all;
        NothingToAdd(tail, limit);
        return;
      }
      FirstGrows(all, raw, limit);
      decoded := decoded + First(raw, if total < limit then limit - total else 0);
      Spill(raw, logging);
      total := total + |raw|;
      tail := Rolled(raw);
      all := all + raw;
    }

    method Rolled(raw: seq<Byte>) returns (next: seq<Byte>)
      requires Suffix(tail, all) && |tail| <= limit
      ensures next == NextTail(tail, raw, limit)
      ensures Suffix(next, all + raw) && |next| <= limit
      ensures |all + raw| <= limit && tail == all ==> next == all + raw
    {
      NextTailIsSuffix(tail, all, raw, limit);
      next := tail + raw;
      if |next| > limit {
        next := DropPartialHead(Last(next, limit));
      }
    }

    method Spill(raw: seq<Byte>, logging: LogStep)
      requires Bounded()
      modifies this`truncated, this`logOpen, this`logFailed, this`log
      ensures truncated <==> |all + raw| > limit
      ensures truncated ==> logOpen != logFailed
      ensures !truncated ==> !logOpen && !logFailed
      ensures logOpen ==> log == all + raw
      ensures old(logFailed) ==> logFailed
      ensures logging == Works && !old(logFailed) ==> !logFailed
    {
      if !truncated && total + |raw| > limit {
        truncated := true;
        if !logOpen && !logFailed {
          Log(tail + raw, logging);
        }
      } else if logOpen {
        Log(log + raw, logging);
      }
    }

    /** `_write_all` to the log, or `_discard_log`. */
    method Log(content: seq<Byte>, logging: LogStep)
      modifies this`logOpen, this`logFailed, this`log
      ensures logging == Works ==> logOpen && log == content && logFailed == old(logFailed)
      ensures logging == Fails ==> !logOpen && logFailed
    {
      if logging == Works {
        logOpen, log := true, content;
      } else {
        logOpen, logFailed := false, true;
      }
    }
  }

  function Concat(chunks: seq<seq<Byte>>): seq<Byte> {
    if chunks == [] then [] else Concat(chunks[..|chunks| - 1]) + chunks[|chunks| - 1]
  }

  /** The tail after a whole sequence of chunks. */
  function TailOf(chunks: seq<seq<Byte>>, limit: nat): seq<Byte> {
    if chunks == [] then [] else NextTail(TailOf(chunks[..|chunks| - 1], limit), chunks[|chunks| - 1], limit)
  }

  lemma {:induction false} DropHeadSkips(head: seq<Byte>, data: seq<Byte>)
    requires forall k | 0 <= k < |head| :: Continuation(head[k])
    ensures DropHead(head + data) == DropHead(data)
  {
    if head == [] {
      assert head + data == data;
    } else {
      assert (head + data)[1..] == head[1..] + data;
      DropHeadSkips(head[1..], data);
    }
  }

  /** The last `limit` bytes are all continuation bytes, so the tail was emptied, and the
      next chunk goes on inside the same character. */
  predicate Stuck(all: seq<Byte>, raw: seq<Byte>, limit: nat) {
    && |all| > limit && raw != [] && |raw| <= limit
    && Continuation(raw[0])
    && DropHead(Last(all, limit)) == []
  }

  lemma LastOfSuffix(tail: seq<Byte>, all: seq<Byte>, n: nat)
    requires Suffix(tail, all) && n <= |tail|
    ensures Last(all, n) == Last(tail, n)
  {
  }

  lemma LastAfter(all: seq<Byte>, raw: seq<Byte>, limit: nat, skip: nat)
    requires |all| > limit && |raw| <= skip <= limit
    ensures Last(all + raw, limit) == Last(all, limit)[|raw|..skip] + (Last(all, limit)[skip..] + raw)
  {
  }

  /** When the chunk fits beside the tail, the new last `limit` bytes are the tail and the
      chunk behind bytes that were dropped before. */
  lemma FittingStep(all: seq<Byte>, raw: seq<Byte>, limit: nat)
    requires |all| > limit
    requires |DropHead(Last(all, limit)) + raw| <= limit
    ensures Window(all + raw, limit) == DropHead(DropHead(Last(all, limit)) + raw)
  {
    var full := Last(all, limit);
    var tail := DropHead(full);
    var skip := |full| - |tail|;
    hide DropHead, Last;
    LastAfter(all, raw, limit, skip);
    DropHeadSkips(full[|raw|..skip], tail + raw);
  }

  lemma OverflowingStep(all: seq<Byte>, raw: seq<Byte>, limit: nat)
    requires |all| > limit
    requires |DropHead(Last(all, limit)) + raw| > limit
    ensures Last(DropHead(Last(all, limit)) + raw, limit) == Last(all + raw, limit)
  {
    hide DropHead;
    var full := Last(all, limit);
    var tail := DropHead(full);
    SuffixOfSuffix(tail, full, all);
    SuffixGrows(tail, all, raw);
    LastOfSuffix(tail + raw, all + raw, limit);
  }

  /** One chunk takes a window to the next window, except when stuck. */
  lemma StepKeepsWindow(all: seq<Byte>, raw: seq<Byte>, limit: nat)
    requires limit > 0
    ensures NextTail(Window(all, limit), raw, limit) == Window(all + raw, limit) <==> !Stuck(all, raw, limit)
  {
    if |all| > limit {
      hide Last;
      var tail := DropHead(Last(all, limit));
      if |tail + raw| > limit {
        OverflowingStep(all, raw, limit);
      } else {
        FittingStep(all, raw, limit);
        if tail == [] {
          assert tail + raw == raw;
        }
      }
    }
  }

  /** Somewhere after its first byte the output holds `n` continuation bytes in a row. */
  ghost predicate LongRun(all: seq<Byte>, n: nat) {
    exists i :: RunAt(all, i, n)
  }

  predicate RunAt(all: seq<Byte>, i: nat, n: nat) {
    1 <= i && i + n <= |all| && forall k | i <= k < i + n :: Continuation(all[k])
  }

  ghost predicate ChunkIndependent(all: seq<Byte>, limit: nat) {
    forall chunks: seq<seq<Byte>> ::
      Concat(chunks) <= all ==> TailOf(chunks, limit) == Window(Concat(chunks), limit)
  }

  /** The tail is a function of the output alone, however it was chunked, exactly when no
      such run occurs; UTF-8 text never has more than three continuation bytes in a row. */
  lemma TailIsChunkIndependent(all: seq<Byte>, limit: nat)
    requires limit > 0
    ensures ChunkIndependent(all, limit) <==> !LongRun(all, limit + 1)
  {
    if LongRun(all, limit + 1) {
      var i :| RunAt(all, i, limit + 1);
      StuckSplit(all, limit, i);
    } else {
      forall chunks: seq<seq<Byte>> | Concat(chunks) <= all
        ensures TailOf(chunks, limit) == Window(Concat(chunks), limit)
      {
        WithoutLongRun(all, chunks, limit);
      }
    }
  }

  lemma {:induction false} WithoutLongRun(all: seq<Byte>, chunks: seq<seq<Byte>>, limit: nat)
    requires limit > 0 && !LongRun(all, limit + 1) && Concat(chunks) <= all
    ensures TailOf(chunks, limit) == Window(Concat(chunks), limit)
    decreases |chunks|
  {
    if chunks != [] {
      var before := chunks[..|chunks| - 1];
      var raw := chunks[|chunks| - 1];
      var seen := Concat(before);
      assert seen <= all;
      WithoutLongRun(all, before, limit);
      StepKeepsWindow(seen, raw, limit);
      if Stuck(seen, raw, limit) {
        StuckIsLongRun(seen, raw, all, limit);
      }
    }
  }

  lemma StuckIsLongRun(seen: seq<Byte>, raw: seq<Byte>, all: seq<Byte>, limit: nat)
    requires Stuck(seen, raw, limit) && seen + raw <= all
    ensures LongRun(all, limit + 1)
  {
    var i := |seen| - limit;
    var full := Last(seen, limit);
    assert forall k | i <= k < |seen| :: all[k] == seen[k] == full[k - i];
    assert all[|seen|] == raw[0];
    assert RunAt(all, i, limit + 1);
  }

  lemma RunFits(all: seq<Byte>, i: nat, n: nat)
    requires RunAt(all, i, n)
    ensures i + n <= |all|
  {
  }

  lemma StuckSplit(all: seq<Byte>, limit: nat, i: nat)
    requires limit > 0 && RunAt(all, i, limit + 1)
    ensures !ChunkIndependent(all, limit)
  {
    hide RunAt, Stuck, TailOf, Window, Concat;
    RunFits(all, i, limit + 1);
    var seen, raw := all[..i + limit], all[i + limit..i + limit + 1];
    StuckAfterRun(all, limit, i);
    var chunks := TwoChunks(seen, raw, limit);
    assert seen + raw == all[..i + limit + 1];
    assert Concat(chunks) <= all;
  }

  lemma StuckAfterRun(all: seq<Byte>, limit: nat, i: nat)
    requires limit > 0 && RunAt(all, i, limit + 1)
    ensures Stuck(all[..i + limit], all[i + limit..i + limit + 1], limit)
  {
    EmptiedBy(all, all[..i + limit], limit, i);
  }

  lemma TwoChunks(seen: seq<Byte>, raw: seq<Byte>, limit: nat) returns (chunks: seq<seq<Byte>>)
    requires limit > 0 && Stuck(seen, raw, limit)
    ensures Concat(chunks) == seen + raw
    ensures TailOf(chunks, limit) != Window(seen + raw, limit)
  {
    StepKeepsWindow(seen, raw, limit);
    FirstChunk(seen, limit);
    OneMoreChunk([seen], raw, limit);
    chunks := [seen] + [raw];
  }

  lemma OneMoreChunk(chunks: seq<seq<Byte>>, raw: seq<Byte>, limit: nat)
    ensures Concat(chunks + [raw]) == Concat(chunks) + raw
    ensures TailOf(chunks + [raw], limit) == NextTail(TailOf(chunks, limit), raw, limit)
  {
    assert (chunks + [raw])[..|chunks|] == chunks;
  }

  lemma FirstChunk(raw: seq<Byte>, limit: nat)
    requires limit > 0
    ensures Concat([raw]) == raw
    ensures TailOf([raw], limit) == Window(raw, limit)
  {
    OneMoreChunk([], raw, limit);
    assert [] + [raw] == [raw];
    assert [] + raw == raw;
    StepKeepsWindow([], raw, limit);
  }

  lemma EmptiedBy(all: seq<Byte>, seen: seq<Byte>, limit: nat, i: nat)
    requires RunAt(all, i, limit + 1) && seen == all[..i + limit]
    ensures DropHead(Last(seen, limit)) == []
  {
    var full := Last(seen, limit);
    assert forall k | 0 <= k < limit :: full[k] == all[i + k];
    DropHeadSkips(full, []);
    assert full + [] == full;
  }

  /** On text whose runs are at most three long, a truncated tail misses at most three of the
      last `limit` bytes and starts at the beginning of a character. */
  lemma WindowIsNearlyFull(all: seq<Byte>, limit: nat)
    requires limit >= 4 && |all| > limit && !LongRun(all, 4)
    ensures var tail := Window(all, limit);
            limit - 3 <= |tail| <= limit && !Continuation(tail[0]) && Suffix(tail, all)
  {
    var tail := Window(all, limit);
    var i := |all| - limit;
    var full := Last(all, limit);
    assert forall k | 0 <= k < limit :: full[k] == all[i + k];
    assert !RunAt(all, i, 4);
  }

  /** What the collector holds after truncation, on text whose runs are at most three long: a suffix of
      the output that misses at most three of the last `limit` bytes and, from a limit of three on,
      starts at the beginning of a character. */
  lemma TailIsNearlyFull(chunks: seq<seq<Byte>>, limit: nat)
    requires limit > 0 && |Concat(chunks)| > limit && !LongRun(Concat(chunks), 4)
    ensures var tail := TailOf(chunks, limit);
            && Suffix(tail, Concat(chunks)) && limit - 3 <= |tail| <= limit
            && (limit >= 3 && tail != [] ==> !Continuation(tail[0]))
  {
    hide Concat, TailOf, DropHead, Last, LongRun, Suffix;
    var all := Concat(chunks);
    TailIsSuffix(chunks, limit);
    if limit >= 3 {
      ShorterRun(all, limit + 1, 4);
      TailIsChunkIndependent(all, limit);
      if limit >= 4 {
        WindowIsNearlyFull(all, limit);
      }
    }
  }

  lemma ShorterRun(all: seq<Byte>, long: nat, short: nat)
    requires short <= long
    ensures LongRun(all, long) ==> LongRun(all, short)
  {
    if LongRun(all, long) {
      var i :| RunAt(all, i, long);
      assert RunAt(all, i, short);
    }
  }

  lemma {:induction false} TailIsSuffix(chunks: seq<seq<Byte>>, limit: nat)
    ensures Suffix(TailOf(chunks, limit), Concat(chunks)) && |TailOf(chunks, limit)| <= limit
  {
    if chunks != [] {
      var last := |chunks| - 1;
      TailIsSuffix(chunks[..last], limit);
      NextTailIsSuffix(TailOf(chunks[..last], limit), Concat(chunks[..last]), chunks[last], limit);
    }
  }

  /** With a smaller limit the tail can start inside a character, which the next chunk went on with. */
  lemma SmallLimit()
    ensures var chunks: seq<seq<Byte>> := [[0x61, 0x82], [0x83]];
            TailOf(chunks, 1) == [0x83] && Continuation(0x83) && !LongRun(Concat(chunks), 4)
  {
    hide Concat, TailOf, DropHead, Last, LongRun, NextTail;
    var first: seq<Byte> := [0x61, 0x82];
    NothingYet();
    TooShort(first + [0x83], 4);
    OneMoreChunk([], first, 1);
    OneMoreChunk([first], [0x83], 1);
    assert [] + [first] == [first] && [first] + [[0x83]] == [first, [0x83]];
    assert [] + first == first;
    OnlyContinuation();
  }

  lemma TooShort(all: seq<Byte>, n: nat)
    requires |all| < n
    ensures !LongRun(all, n)
  {
  }

  lemma NothingYet()
    ensures Concat([]) == [] && TailOf([], 1) == []
  {
  }

  lemma OnlyContinuation()
    ensures NextTail([], [0x61, 0x82], 1) == [] && NextTail([], [0x83], 1) == [0x83]
  {
    hide DropHead;
    var first: seq<Byte> := [0x61, 0x82];
    assert [] + first == first && [] + [0x83] == [0x83];
    assert Last(first, 1) == [0x82];
    DropsAll(0x82);
  }

  lemma DropsAll(b: Byte)
    requires Continuation(b)
    ensures DropHead([b]) == []
  {
    assert [b][1..] == [];
  }
}
