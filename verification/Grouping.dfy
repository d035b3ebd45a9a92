/** What the units of a transcript are, without the pass that computes them. */
module Grouping {
  import opened Results
  import opened Transcript

  /** A tool call that created a file. */
  predicate CreatesFile(kind: Kind) {
    kind.Tool? && kind.created.Some?
  }

  /** A call that joins a group of explorations, which only a collapsed view has. */
  predicate Joins(kind: Kind, settings: Settings) {
    kind.Tool? && kind.explore && !settings.toolsExpanded
  }

  predicate Edits(kind: Kind, path: string) {
    kind.Tool? && kind.modified == Some(path)
  }

  /** `blocks[i..end]` satisfies `member`, and the block behind does not. */
  ghost predicate FullRun(blocks: seq<Block>, i: nat, end: nat, member: Block -> bool)
    requires end <= |blocks|
  {
    && (forall k | i <= k < end :: member(blocks[k]))
    && (end < |blocks| ==> !member(blocks[end]))
  }

  /** The block at `i` and the one behind it created files, so a group of them starts at `i`. */
  predicate StartsCreates(pass: Pass, blocks: seq<Block>, i: nat)
    requires i < |blocks|
  {
    CreatesFile(pass.what(blocks[i])) && i + 1 < |blocks| && CreatesFile(pass.what(blocks[i + 1]))
  }

  /** The block at `i` and the one behind it edited one file. */
  predicate StartsEdits(pass: Pass, blocks: seq<Block>, i: nat)
    requires i < |blocks|
  {
    && pass.what(blocks[i]).Tool? && pass.what(blocks[i]).modified.Some?
    && i + 1 < |blocks| && Edits(pass.what(blocks[i + 1]), pass.what(blocks[i]).modified.value)
  }

  /** The members of a unit at `i` that ends at `end`, for each of its tags.  A group of creations or
      edits has two members at least, and every group goes on as far as it can. */
  ghost predicate Fits(pass: Pass, blocks: seq<Block>, i: nat, end: nat, tag: Tag)
    requires i < end <= |blocks|
  {
    var kind := pass.what(blocks[i]);
    match tag
    case MessageUnit => kind.Message? && end == i + 1
    case SummaryUnit => kind.Summary? && end == i + 1
    case CreateGroup =>
      end - i >= 2 && FullRun(blocks, i, end, b => CreatesFile(pass.what(b)))
    case ExploreGroup =>
      && !StartsCreates(pass, blocks, i)
      && FullRun(blocks, i, end, b => Joins(pass.what(b), pass.settings))
    case ModifyGroup =>
      && !StartsCreates(pass, blocks, i) && !Joins(kind, pass.settings)
      && end - i >= 2 && kind.Tool? && kind.modified.Some?
      && FullRun(blocks, i, end, b => Edits(pass.what(b), kind.modified.value))
    case ToolUnit =>
      && kind.Tool? && end == i + 1
      && !StartsCreates(pass, blocks, i) && !Joins(kind, pass.settings) && !StartsEdits(pass, blocks, i)
  }

  /** A unit of the blocks from `i` to `end`. */
  ghost predicate Describes(pass: Pass, blocks: seq<Block>, i: nat, end: nat, unit: Unit)
    requires i < end <= |blocks|
  {
    && unit.Unit? && unit.members == blocks[i..end] && unit.settings == pass.settings
    && Fits(pass, blocks, i, end, unit.tag)
    && (unit.afterUser <==>
          i > 0 && pass.what(blocks[i - 1]).Message? && pass.what(blocks[i - 1]).fromUser)
    && (unit.tick == Some(pass.tick) || unit.tick == None)
    && (unit.tick.Some? <==>
          exists k :: i <= k < end && pass.what(blocks[k]).Tool? && pass.what(blocks[k]).running)
  }

  /** `units` are the units of the blocks from `i` on. */
  ghost predicate Groups(pass: Pass, blocks: seq<Block>, i: nat, units: seq<Unit>)
    decreases |units|
  {
    if units == [] then
      i == |blocks|
    else
      && units[0].Unit?
      && var end := i + |units[0].members|;
         && i < end <= |blocks| && Describes(pass, blocks, i, end, units[0])
         && Groups(pass, blocks, end, units[1..])
  }

  /** The blocks of the units, in order. */
  function Joined(units: seq<Unit>): seq<Block> {
    if units == [] then [] else (if units[0].Unit? then units[0].members else []) + Joined(units[1..])
  }

  /** A rebuild gives the units that are described above, and only they are. */
  lemma RebuildIff(pass: Pass, blocks: seq<Block>, units: seq<Unit>)
    ensures [Header] + units == Rebuild(pass, blocks) <==> Groups(pass, blocks, 0, units)
    ensures Joined(Rebuild(pass, blocks)) == blocks
  {
    assert forall us: seq<Unit> :: ([Header] + us)[1..] == us;
    UnitsGroup(pass, blocks, 0);
    GroupsAreUnique(pass, blocks, 0, units, Units(pass, blocks, 0));
    JoinedGroups(pass, blocks, 0, Units(pass, blocks, 0));
    assert blocks[0..] == blocks;
  }

  lemma {:induction false} UnitsGroup(pass: Pass, blocks: seq<Block>, i: nat)
    requires i <= |blocks|
    ensures Groups(pass, blocks, i, Units(pass, blocks, i))
    decreases |blocks| - i
  {
    if i < |blocks| {
      var end := NextGroup(pass, blocks, i).end;
      UnitIsDescribed(pass, blocks, i);
      UnitsGroup(pass, blocks, end);
      var units := Units(pass, blocks, i);
      assert units == [UnitAt(pass, blocks, i)] + Units(pass, blocks, end);
      assert units[1..] == Units(pass, blocks, end);
    }
  }

  lemma UnitIsDescribed(pass: Pass, blocks: seq<Block>, i: nat)
    requires i < |blocks|
    ensures Describes(pass, blocks, i, NextGroup(pass, blocks, i).end, UnitAt(pass, blocks, i))
  {
    hide Fits, NextGroup;
    GroupFits(pass, blocks, i);
    var end := NextGroup(pass, blocks, i).end;
    TickIs(pass, blocks, i, end);
  }

  lemma TickIs(pass: Pass, blocks: seq<Block>, i: nat, end: nat)
    requires i < end <= |blocks|
    ensures Tick(pass, blocks[i..end]) ==
            if exists k :: i <= k < end && pass.what(blocks[k]).Tool? && pass.what(blocks[k]).running
            then Some(pass.tick) else None
  {
    var members := blocks[i..end];
    forall k | i <= k < end
      ensures blocks[k] in members
    {
      assert blocks[k] == members[k - i];
    }
    if b :| b in members && Running(pass.what, b) {
      var k :| 0 <= k < |members| && members[k] == b;
      assert blocks[i + k] == b;
    }
  }

  lemma GroupFits(pass: Pass, blocks: seq<Block>, i: nat)
    requires i < |blocks|
    ensures var g := NextGroup(pass, blocks, i); Fits(pass, blocks, i, g.end, g.tag)
  {
    var creates := RunEnd(blocks, i, b => Creates(pass.what, b));
    assert creates - i > 1 <==> StartsCreates(pass, blocks, i);
    var kind := pass.what(blocks[i]);
    if kind.Tool? && kind.modified.Some? {
      var edits := RunEnd(blocks, i, b => Modifies(pass.what, b, kind.modified.value));
      assert edits - i > 1 <==> StartsEdits(pass, blocks, i);
    }
  }

  /** No two tags or ends fit at one position. */
  lemma FitsOnce(pass: Pass, blocks: seq<Block>, i: nat, m: nat, s: Tag, n: nat, t: Tag)
    requires i < m <= |blocks| && i < n <= |blocks|
    requires Fits(pass, blocks, i, m, s) && Fits(pass, blocks, i, n, t)
    ensures m == n && s == t
  {
    TagOnce(pass, blocks, i, m, s);
    TagOnce(pass, blocks, i, n, t);
    if m < n {
      SameRun(pass, blocks, i, m, n, s);
    } else if n < m {
      SameRun(pass, blocks, i, n, m, s);
    }
  }

  /** The tag that the blocks at `i` call for. */
  function TagAt(pass: Pass, blocks: seq<Block>, i: nat): Tag
    requires i < |blocks|
  {
    var kind := pass.what(blocks[i]);
    if kind.Message? then MessageUnit
    else if kind.Summary? then SummaryUnit
    else if StartsCreates(pass, blocks, i) then CreateGroup
    else if Joins(kind, pass.settings) then ExploreGroup
    else if StartsEdits(pass, blocks, i) then ModifyGroup
    else ToolUnit
  }

  lemma TagOnce(pass: Pass, blocks: seq<Block>, i: nat, end: nat, tag: Tag)
    requires i < end <= |blocks| && Fits(pass, blocks, i, end, tag)
    ensures tag == TagAt(pass, blocks, i)
  {
  }

  lemma SameRun(pass: Pass, blocks: seq<Block>, i: nat, m: nat, n: nat, tag: Tag)
    requires i < m < n <= |blocks| && Fits(pass, blocks, i, m, tag)
    ensures !Fits(pass, blocks, i, n, tag)
  {
  }

  lemma {:induction false} GroupsAreUnique(pass: Pass, blocks: seq<Block>, i: nat, us: seq<Unit>, vs: seq<Unit>)
    requires Groups(pass, blocks, i, vs)
    ensures Groups(pass, blocks, i, us) <==> us == vs
    decreases |us| + |vs|
  {
    hide Describes;
    if us != [] && vs != [] && Groups(pass, blocks, i, us) {
      var m, n := i + |us[0].members|, i + |vs[0].members|;
      UnitOnce(pass, blocks, i, m, us[0], n, vs[0]);
      GroupsAreUnique(pass, blocks, m, us[1..], vs[1..]);
      assert us == [us[0]] + us[1..] && vs == [vs[0]] + vs[1..];
    }
  }

  lemma UnitOnce(pass: Pass, blocks: seq<Block>, i: nat, m: nat, u: Unit, n: nat, v: Unit)
    requires i < m <= |blocks| && i < n <= |blocks|
    requires Describes(pass, blocks, i, m, u) && Describes(pass, blocks, i, n, v)
    ensures m == n && u == v
  {
    hide Fits;
    FitsOnce(pass, blocks, i, m, u.tag, n, v.tag);
  }

  lemma MembersAre(pass: Pass, blocks: seq<Block>, i: nat, end: nat, unit: Unit)
    requires i < end <= |blocks| && Describes(pass, blocks, i, end, unit)
    ensures unit.members == blocks[i..end]
  {
  }

  lemma {:induction false} JoinedGroups(pass: Pass, blocks: seq<Block>, i: nat, units: seq<Unit>)
    requires Groups(pass, blocks, i, units)
    ensures i <= |blocks| && Joined(units) == blocks[i..]
    decreases |units|
  {
    hide Describes;
    if units != [] {
      var end := i + |units[0].members|;
      MembersAre(pass, blocks, i, end, units[0]);
      JoinedGroups(pass, blocks, end, units[1..]);
      assert blocks[i..] == blocks[i..end] + blocks[end..];
    }
  }

  predicate IsPlaceholder(kind: Kind) {
    kind.Message? && kind.placeholder
  }

  /** What is shown, block by block and in order: everything but the placeholders. */
  lemma {:induction false} ShownIs(what: Block -> Kind, before: seq<Block>, block: Block, after: seq<Block>)
    ensures Shown(what, []) == []
    ensures Shown(what, before + [block] + after) ==
            Shown(what, before) + (if IsPlaceholder(what(block)) then [] else [block]) + Shown(what, after)
  {
    var all := before + [block] + after;
    if before == [] {
      assert all[0] == block && all[1..] == after;
    } else {
      ShownIs(what, before[1..], block, after);
      assert all[0] == before[0] && all[1..] == before[1..] + [block] + after;
    }
  }
}
