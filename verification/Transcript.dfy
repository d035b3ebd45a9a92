/** The incremental transcript: render units are regrouped only from the first block that
    changed, and the result equals a rebuild from scratch. */
module Transcript {
  import opened Results

  /** A timeline block: an object identity and its revision counter. */
  datatype Block = Block(id: nat, revision: nat)

  datatype Kind =
    | Message(fromUser: bool, placeholder: bool)
    | Summary
    | Tool(created: Option<string>, explore: bool, modified: Option<string>, running: bool)

  datatype Settings = Settings(
    width: nat, timezone: string, limits: nat,
    thinkingCollapsed: bool, messagesExpanded: bool, toolsExpanded: bool)

  /** Everything a structural pass reads besides the blocks.  `what` classifies a block; an
      unchanged identity and revision mean an unchanged classification. */
  datatype Pass = Pass(what: Block -> Kind, settings: Settings, tick: nat)

  datatype Tag = MessageUnit | SummaryUnit | ToolUnit | CreateGroup | ExploreGroup | ModifyGroup

  datatype Unit =
    | Header
    | Unit(tag: Tag, members: seq<Block>, afterUser: bool, settings: Settings, tick: Option<nat>)

  predicate Running(what: Block -> Kind, block: Block) {
    what(block).Tool? && what(block).running
  }

  predicate FromUser(what: Block -> Kind, block: Block) {
    what(block).Message? && what(block).fromUser
  }

  predicate Creates(what: Block -> Kind, block: Block) {
    what(block).Tool? && what(block).created.Some?
  }

  predicate Explores(what: Block -> Kind, block: Block) {
    what(block).Tool? && what(block).explore
  }

  predicate Modifies(what: Block -> Kind, block: Block, path: string) {
    what(block).Tool? && what(block).modified == Some(path)
  }

  /** The end of the run of blocks from `from` that satisfy `member`. */
  function RunEnd(blocks: seq<Block>, from: nat, member: Block -> bool): (end: nat)
    requires from <= |blocks|
    ensures from <= end <= |blocks|
    ensures forall k | from <= k < end :: member(blocks[k])
    ensures end < |blocks| ==> !member(blocks[end])
    decreases |blocks| - from
  {
    if from < |blocks| && member(blocks[from]) then RunEnd(blocks, from + 1, member) else from
  }

  datatype Grouped = Grouped(tag: Tag, end: nat)

  /** `_next_unit`: which unit starts at `i`, and where it ends. */
  function NextGroup(pass: Pass, blocks: seq<Block>, i: nat): (g: Grouped)
    requires i < |blocks|
    ensures i < g.end <= |blocks|
  {
    match pass.what(blocks[i])
    case Message(_, _) => Grouped(MessageUnit, i + 1)
    case Summary => Grouped(SummaryUnit, i + 1)
    case Tool(created, explore, modified, _) =>
      var creates := RunEnd(blocks, i, b => Creates(pass.what, b));
      if created.Some? && creates - i > 1 then Grouped(CreateGroup, creates)
      else if !pass.settings.toolsExpanded && explore then
        Grouped(ExploreGroup, RunEnd(blocks, i, b => Explores(pass.what, b)))
      else if modified.Some? && RunEnd(blocks, i, b => Modifies(pass.what, b, modified.value)) - i > 1 then
        Grouped(ModifyGroup, RunEnd(blocks, i, b => Modifies(pass.what, b, modified.value)))
      else Grouped(ToolUnit, i + 1)
  }

  /** The spinner frame of a unit, if one of its members is still running. */
  function Tick(pass: Pass, members: seq<Block>): Option<nat> {
    if exists b | b in members :: Running(pass.what, b) then Some(pass.tick) else None
  }

  function UnitAt(pass: Pass, blocks: seq<Block>, i: nat): Unit
    requires i < |blocks|
  {
    var g := NextGroup(pass, blocks, i);
    var members := blocks[i..g.end];
    Unit(g.tag, members, i > 0 && FromUser(pass.what, blocks[i - 1]), pass.settings, Tick(pass, members))
  }

  function Units(pass: Pass, blocks: seq<Block>, i: nat): seq<Unit>
    requires i <= |blocks|
    decreases |blocks| - i
  {
    if i == |blocks| then [] else
      [UnitAt(pass, blocks, i)] + Units(pass, blocks, NextGroup(pass, blocks, i).end)
  }

  function Ends(pass: Pass, blocks: seq<Block>, i: nat): (ends: seq<nat>)
    requires i <= |blocks|
    ensures |ends| == |Units(pass, blocks, i)|
    ensures forall k | 0 <= k < |ends| :: i < ends[k] <= |blocks|
    ensures Ascending(ends)
    decreases |blocks| - i
  {
    if i == |blocks| then [] else
      var end := NextGroup(pass, blocks, i).end;
      [end] + Ends(pass, blocks, end)
  }

  predicate Ascending(xs: seq<nat>) {
    forall i, j | 0 <= i < j < |xs| :: xs[i] < xs[j]
  }

  /** `bisect_left` */
  function BisectLeft(xs: seq<nat>, v: nat): (k: nat)
    requires Ascending(xs)
    ensures k <= |xs|
    ensures forall i | 0 <= i < k :: xs[i] < v
    ensures forall i | k <= i < |xs| :: v <= xs[i]
  {
    if xs == [] || v <= xs[0] then 0 else 1 + BisectLeft(xs[1..], v)
  }

  /** `bisect_right` */
  function BisectRight(xs: seq<nat>, v: nat): (k: nat)
    requires Ascending(xs)
    ensures k <= |xs|
    ensures forall i | 0 <= i < k :: xs[i] <= v
    ensures forall i | k <= i < |xs| :: v < xs[i]
  {
    if xs == [] || v < xs[0] then 0 else 1 + BisectRight(xs[1..], v)
  }

  /** Empty assistant placeholders are left out of the layout. */
  function Shown(what: Block -> Kind, blocks: seq<Block>): seq<Block> {
    if blocks == [] then [] else
      var rest := Shown(what, blocks[1..]);
      if what(blocks[0]).Message? && what(blocks[0]).placeholder then rest else [blocks[0]] + rest
  }

  /** A rebuild from scratch. */
  function Rebuild(pass: Pass, blocks: seq<Block>): seq<Unit> {
    [Header] + Units(pass, blocks, 0)
  }

  predicate Stable(what: Block -> Kind, old_: seq<Block>, new_: seq<Block>, k: nat)
    requires k < |old_| && k < |new_|
  {
    new_[k] == old_[k] && !Running(what, new_[k])
  }

  /** What `first_changed` computes. */
  predicate IsFirstChanged(what: Block -> Kind, old_: seq<Block>, new_: seq<Block>, changed: nat) {
    && changed <= |old_| && changed <= |new_|
    && (forall k | 0 <= k < changed :: Stable(what, old_, new_, k))
    && (changed < |old_| && changed < |new_| ==> !Stable(what, old_, new_, changed))
  }

  /** The locality of grouping: a unit depends only on the block before it, on its members
      and on the one block after it. */
  lemma UnitIsLocal(p: Pass, q: Pass, a: seq<Block>, b: seq<Block>, i: nat)
    requires p.what == q.what && p.settings == q.settings
    requires i < |a|
    requires var end := NextGroup(p, a, i).end;
             && end <= |b| && a[..end] == b[..end]
             && (end < |b| ==> end < |a| && a[end] == b[end])
             && (forall k | i <= k < end :: !Running(p.what, a[k]))
    ensures NextGroup(q, b, i) == NextGroup(p, a, i)
    ensures UnitAt(q, b, i) == UnitAt(p, a, i)
  {
    var end := NextGroup(p, a, i).end;
    assert forall k | 0 <= k < end :: a[k] == a[..end][k] == b[..end][k] == b[k];
    GroupIsLocal(p, q, a, b, i);
    assert a[i..end] == b[i..end];
  }

  lemma GroupIsLocal(p: Pass, q: Pass, a: seq<Block>, b: seq<Block>, i: nat)
    requires p.what == q.what && p.settings == q.settings
    requires i < |a|
    requires var end := NextGroup(p, a, i).end;
             && end <= |b| && (forall k | 0 <= k < end :: a[k] == b[k])
             && (end < |b| ==> end < |a| && a[end] == b[end])
    ensures NextGroup(q, b, i) == NextGroup(p, a, i)
  {
    hide RunEnd;
    var g := NextGroup(p, a, i);
    var kind := p.what(a[i]);
    if kind.Tool? {
      RunIsLocal(a, b, i, g.end, b => Creates(p.what, b));
      RunIsLocal(a, b, i, g.end, b => Explores(p.what, b));
      if kind.modified.Some? {
        RunIsLocal(a, b, i, g.end, b => Modifies(p.what, b, kind.modified.value));
      }
    }
  }

  /** Lists that agree up to and including position `end` have the same run if it ends there,
      and both or neither have a run of at most one if `end` is the next position. */
  lemma RunIsLocal(a: seq<Block>, b: seq<Block>, i: nat, end: nat, member: Block -> bool)
    requires i < end <= |a| && end <= |b|
    requires forall k | 0 <= k < end :: a[k] == b[k]
    requires end < |b| ==> end < |a| && a[end] == b[end]
    ensures RunEnd(a, i, member) == end ==> RunEnd(b, i, member) == end
    ensures end == i + 1 && RunEnd(a, i, member) <= end ==> RunEnd(b, i, member) <= end
    ensures RunEnd(a, i, member) < end ==> RunEnd(b, i, member) == RunEnd(a, i, member)
  {
    var x, y := RunEnd(a, i, member), RunEnd(b, i, member);
    assert x < end ==> !member(b[x]);
    assert y < end ==> !member(a[y]);
  }

  /** Whether a unit ending at `end` may be kept when `changed` is the first changed block. */
  predicate Keeps(end: nat, changed: nat, count: nat) {
    if changed < count then end < changed else end <= changed
  }

  function Start(ends: seq<nat>, kept: nat, i: nat): nat
    requires kept <= |ends|
  {
    if kept == 0 then i else ends[kept - 1]
  }

  /** The first `kept` units of the previous pass are also those of the new pass. */
  ghost predicate SharePrefix(p: Pass, q: Pass, before: seq<Block>, now: seq<Block>, i: nat, kept: nat)
    requires i <= |before| && i <= |now| && kept <= |Ends(p, before, i)|
  {
    var start := Start(Ends(p, before, i), kept, i);
    && start <= |now|
    && Units(q, now, i) == Units(p, before, i)[..kept] + Units(q, now, start)
    && Ends(q, now, i) == Ends(p, before, i)[..kept] + Ends(q, now, start)
  }

  /** Any kept prefix of the previous units is a prefix of the rebuilt ones. */
  lemma {:induction false} KeptPrefix(
    p: Pass, q: Pass, before: seq<Block>, now: seq<Block>, changed: nat, i: nat, kept: nat)
    requires p.what == q.what && p.settings == q.settings
    requires IsFirstChanged(p.what, before, now, changed)
    requires i <= changed && kept <= |Ends(p, before, i)|
    requires kept > 0 ==> Keeps(Ends(p, before, i)[kept - 1], changed, |now|)
    ensures SharePrefix(p, q, before, now, i, kept)
    decreases kept
  {
    if kept == 0 {
      ShareNone(p, q, before, now, i);
    } else {
      var end := NextGroup(p, before, i).end;
      var rest := Ends(p, before, end);
      EndsCons(p, before, i);
      assert end <= Ends(p, before, i)[kept - 1];
      StableUnit(p, q, before, now, changed, i);
      KeptPrefix(p, q, before, now, changed, end, kept - 1);
      ShareOneMore(p, q, before, now, i, kept);
    }
  }

  lemma EndsCons(p: Pass, blocks: seq<Block>, i: nat)
    requires i < |blocks|
    ensures var end := NextGroup(p, blocks, i).end;
            Ends(p, blocks, i) == [end] + Ends(p, blocks, end)
  {
  }

  lemma ShareNone(p: Pass, q: Pass, before: seq<Block>, now: seq<Block>, i: nat)
    requires i <= |before| && i <= |now|
    ensures SharePrefix(p, q, before, now, i, 0)
  {
  }

  lemma ShareOneMore(p: Pass, q: Pass, before: seq<Block>, now: seq<Block>, i: nat, kept: nat)
    requires i < |before| && i < |now| && 0 < kept <= |Ends(p, before, i)|
    requires NextGroup(q, now, i) == NextGroup(p, before, i) && UnitAt(q, now, i) == UnitAt(p, before, i)
    requires SharePrefix(p, q, before, now, NextGroup(p, before, i).end, kept - 1)
    ensures SharePrefix(p, q, before, now, i, kept)
  {
    var end := NextGroup(p, before, i).end;
    var start := Start(Ends(p, before, end), kept - 1, end);
    assert Start(Ends(p, before, i), kept, i) == start;
    ShareCons(UnitAt(p, before, i), Units(p, before, end), Units(q, now, end), Units(q, now, start), kept);
    ShareCons(end, Ends(p, before, end), Ends(q, now, end), Ends(q, now, start), kept);
  }

  lemma ShareCons<T>(head: T, before: seq<T>, now: seq<T>, rest: seq<T>, n: nat)
    requires 0 < n <= |before| + 1 && now == before[..n - 1] + rest
    ensures [head] + now == ([head] + before)[..n] + rest
  {
  }

  /** A kept unit is the unit a rebuild would make. */
  lemma StableUnit(p: Pass, q: Pass, before: seq<Block>, now: seq<Block>, changed: nat, i: nat)
    requires p.what == q.what && p.settings == q.settings
    requires IsFirstChanged(p.what, before, now, changed)
    requires i < |before| && Keeps(NextGroup(p, before, i).end, changed, |now|)
    ensures i < |now|
    ensures NextGroup(q, now, i) == NextGroup(p, before, i)
    ensures UnitAt(q, now, i) == UnitAt(p, before, i)
  {
    forall k | 0 <= k < changed
      ensures now[k] == before[k] && !Running(p.what, before[k])
    {
      assert Stable(p.what, before, now, k);
    }
    UnitIsLocal(p, q, before, now, i);
  }

  function Zip(ids: seq<nat>, revisions: seq<nat>): (blocks: seq<Block>)
    requires |ids| == |revisions|
    ensures |blocks| == |ids|
  {
    seq(|ids|, k requires 0 <= k < |ids| => Block(ids[k], revisions[k]))
  }

  class TranscriptUnitMemo {
    var settings: Option<Settings>
    var blocks: seq<nat>
    var revisions: seq<nat>
    var units: seq<Unit>
    var ends: seq<nat>
    /** The pass that filled the memo. */
    ghost var last: Option<Pass>

    /** The memo holds the result of a rebuild of the blocks it remembers. */
    ghost predicate Valid(what: Block -> Kind)
      reads this
    {
      && |blocks| == |revisions|
      && (last.None? ==> settings.None? && blocks == [] && units == [] && ends == [])
      && (last.Some? ==>
            && last.value.what == what && settings == Some(last.value.settings)
            && units == Units(last.value, Zip(blocks, revisions), 0)
            && ends == Ends(last.value, Zip(blocks, revisions), 0))
    }

    constructor (what: Block -> Kind)
      ensures Valid(what)
    {
      settings, blocks, revisions, units, ends, last := None, [], [], [], [], None;
    }

    /** Where the kept blocks end: every block before the result can be reused. */
    method FirstChanged(what: Block -> Kind, now: seq<Block>) returns (changed: nat)
      requires |blocks| == |revisions|
      ensures IsFirstChanged(what, Zip(blocks, revisions), now, changed)
    {
      var limit := if |now| < |blocks| then |now| else |blocks|;
      for index := 0 to limit
        invariant forall k | 0 <= k < index :: Stable(what, Zip(blocks, revisions), now, k)
      {
        if now[index].id != blocks[index] || now[index].revision != revisions[index]
           || Running(what, now[index]) {
          return index;
        }
      }
      return limit;
    }

    /** How many of the previous units stay. */
    method Kept(pass: Pass, now: seq<Block>) returns (kept: nat)
      requires Valid(pass.what)
      ensures kept <= |ends| && |units| == |ends|
      ensures var start := Start(ends, kept, 0);
              && start <= |now|
              && Units(pass, now, 0) == units[..kept] + Units(pass, now, start)
              && Ends(pass, now, 0) == ends[..kept] + Ends(pass, now, start)
    {
      kept := 0;
      if settings == Some(pass.settings) {
        var changed := FirstChanged(pass.what, now);
        kept := if changed < |now| then BisectLeft(ends, changed) else BisectRight(ends, changed);
        KeptPrefix(last.value, pass, Zip(blocks, revisions), now, changed, 0, kept);
      }
    }

    /** `transcript_units`.  Whatever happened to the blocks and settings since the last
        call, the units are those of a rebuild from scratch. */
    method TranscriptUnits(pass: Pass, all: seq<Block>) returns (result: seq<Unit>)
      requires Valid(pass.what)
      modifies this
      ensures Valid(pass.what)
      ensures result == Rebuild(pass, Shown(pass.what, all))
      ensures last == Some(pass) && Zip(blocks, revisions) == Shown(pass.what, all)
    {
      hide Units, Ends, Shown;
      var now := Shown(pass.what, all);
      var kept := Kept(pass, now);
      settings := Some(pass.settings);
      var start := Start(ends, kept, 0);
      var newUnits, newEnds := UnitsFrom(pass, now, start);
      units := units[..kept] + newUnits;
      ends := ends[..kept] + newEnds;
      blocks := seq(|now|, k requires 0 <= k < |now| => now[k].id);
      revisions := seq(|now|, k requires 0 <= k < |now| => now[k].revision);
      last := Some(pass);
      assert Zip(blocks, revisions) == now;
      result := [Header] + units;
    }
  }

  lemma OneMoreUnit(pass: Pass, blocks: seq<Block>, i: nat, units: seq<Unit>, ends: seq<nat>)
    requires i < |blocks|
    ensures var end := NextGroup(pass, blocks, i).end;
            && units + Units(pass, blocks, i) == units + [UnitAt(pass, blocks, i)] + Units(pass, blocks, end)
            && ends + Ends(pass, blocks, i) == ends + [end] + Ends(pass, blocks, end)
  {
  }

  /** `_units_from` */
  method UnitsFrom(pass: Pass, blocks: seq<Block>, from: nat) returns (units: seq<Unit>, ends: seq<nat>)
    requires from <= |blocks|
    ensures units == Units(pass, blocks, from) && ends == Ends(pass, blocks, from)
  {
    units, ends := [], [];
    var index := from;
    while index < |blocks|
      invariant from <= index <= |blocks|
      invariant Units(pass, blocks, from) == units + Units(pass, blocks, index)
      invariant Ends(pass, blocks, from) == ends + Ends(pass, blocks, index)
    {
      OneMoreUnit(pass, blocks, index, units, ends);
      units := units + [UnitAt(pass, blocks, index)];
      index := NextGroup(pass, blocks, index).end;
      ends := ends + [index];
    }
  }
}
