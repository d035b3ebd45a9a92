/** The rendered transcript: a per-unit render cache and a line-indexed document. */
module Document {
  import opened Results
  import opened Transcript
  import Grouping

  datatype Key = HeaderKey | UnitKey(tag: Tag, first: nat, expanded: bool)

  /** What a cached render is checked against besides its owner. */
  datatype Fingerprint =
    | HeaderPrint
    | MessagePrint(revision: nat, thinkingCollapsed: bool, limits: nat, expanded: bool, afterUser: bool)
    | SummaryPrint(timezone: string)
    | ToolPrint(revision: nat, expanded: bool, tick: Option<nat>, limits: nat, afterUser: bool)
    | ExplorePrint(revisions: seq<nat>, tick: Option<nat>, limits: nat, afterUser: bool)
    | CreatePrint(revisions: seq<nat>, ids: seq<nat>, expanded: bool, limits: nat, afterUser: bool)
    | ModifyPrint(revisions: seq<nat>, ids: seq<nat>, limits: nat, afterUser: bool)

  function Ids(blocks: seq<Block>): seq<nat> {
    seq(|blocks|, k requires 0 <= k < |blocks| => blocks[k].id)
  }

  function Revisions(blocks: seq<Block>): seq<nat> {
    seq(|blocks|, k requires 0 <= k < |blocks| => blocks[k].revision)
  }

  function KeyOf(unit: Unit): Key {
    match unit
    case Header => HeaderKey
    case Unit(tag, members, _, settings, _) =>
      UnitKey(tag, if members == [] then 0 else members[0].id,
              tag in {ToolUnit, CreateGroup} && settings.toolsExpanded)
  }

  function OwnerOf(unit: Unit): seq<nat> {
    match unit
    case Header => []
    case Unit(_, members, _, _, _) => Ids(members)
  }

  function PrintOf(what: Block -> Kind, unit: Unit): Fingerprint {
    match unit
    case Header => HeaderPrint
    case Unit(tag, members, afterUser, settings, tick) =>
      var revision := if members == [] then 0 else members[0].revision;
      match tag
      case MessageUnit =>
        var fromUser := members != [] && FromUser(what, members[0]);
        MessagePrint(revision, settings.thinkingCollapsed, settings.limits,
                     fromUser && settings.messagesExpanded, afterUser)
      case SummaryUnit => SummaryPrint(settings.timezone)
      case ToolUnit => ToolPrint(revision, settings.toolsExpanded, tick, settings.limits, afterUser)
      case ExploreGroup => ExplorePrint(Revisions(members), tick, settings.limits, afterUser)
      case CreateGroup =>
        CreatePrint(Revisions(members), Ids(members), settings.toolsExpanded, settings.limits, afterUser)
      case ModifyGroup => ModifyPrint(Revisions(members), Ids(members), settings.limits, afterUser)
  }

  type Lines = s: seq<string> | |s| > 0 witness [""]

  /** What the rendering of a unit reads: its blocks at their present revisions, and the settings that
      matter to its kind.  The summary of a turn never changes. */
  datatype Look =
    | HeaderLook
    | MessageLook(block: Block, thinkingCollapsed: bool, userExpanded: Option<bool>, limits: nat, afterUser: bool)
    | SummaryLook(id: nat, timezone: string)
    | ToolLook(block: Block, expanded: bool, tick: Option<nat>, limits: nat, afterUser: bool)
    | ExploreLook(members: seq<Block>, tick: Option<nat>, limits: nat, afterUser: bool)
    | CreateLook(members: seq<Block>, expanded: bool, limits: nat, afterUser: bool)
    | ModifyLook(members: seq<Block>, limits: nat, afterUser: bool)

  /** Messages, summaries and single calls have one block, groups at least one. */
  predicate Drawable(unit: Unit) {
    unit.Unit? ==> |unit.members| > 0 && (unit.tag in {MessageUnit, SummaryUnit, ToolUnit} ==> |unit.members| == 1)
  }

  function LookOf(what: Block -> Kind, unit: Unit): Look
    requires Drawable(unit)
  {
    match unit
    case Header => HeaderLook
    case Unit(tag, members, afterUser, settings, tick) =>
      match tag
      case MessageUnit =>
        MessageLook(members[0], settings.thinkingCollapsed,
                    if FromUser(what, members[0]) then Some(settings.messagesExpanded) else None,
                    settings.limits, afterUser)
      case SummaryUnit => SummaryLook(members[0].id, settings.timezone)
      case ToolUnit => ToolLook(members[0], settings.toolsExpanded, tick, settings.limits, afterUser)
      case ExploreGroup => ExploreLook(members, tick, settings.limits, afterUser)
      case CreateGroup => CreateLook(members, settings.toolsExpanded, settings.limits, afterUser)
      case ModifyGroup => ModifyLook(members, settings.limits, afterUser)
  }

  /** The code that renders what a unit looks like, at a width. */
  type Draw = (Look, nat) -> Lines

  function Fresh(draw: Draw, what: Block -> Kind, width: nat, unit: Unit): Lines
    requires Drawable(unit)
  {
    draw(LookOf(what, unit), width)
  }

  /** Units with one key, owner and fingerprint look the same. */
  lemma PrintDetermines(what: Block -> Kind, u: Unit, v: Unit)
    requires Drawable(u) && Drawable(v)
    requires KeyOf(u) == KeyOf(v) && OwnerOf(u) == OwnerOf(v) && PrintOf(what, u) == PrintOf(what, v)
    ensures LookOf(what, u) == LookOf(what, v)
  {
    if u.Unit? && v.Unit? {
      SameIds(u.members, v.members);
      if u.tag in {MessageUnit, ToolUnit} {
        assert u.members[0] == v.members[0];
      } else if u.tag in {ExploreGroup, CreateGroup, ModifyGroup} {
        SameBlocks(u.members, v.members);
      }
    }
  }

  lemma SameIds(a: seq<Block>, b: seq<Block>)
    requires Ids(a) == Ids(b)
    ensures |a| == |b| && forall k | 0 <= k < |a| :: a[k].id == b[k].id
  {
    assert |Ids(a)| == |a| && |Ids(b)| == |b|;
    assert forall k | 0 <= k < |a| :: Ids(a)[k] == a[k].id && Ids(b)[k] == b[k].id;
  }

  lemma SameBlocks(a: seq<Block>, b: seq<Block>)
    requires Ids(a) == Ids(b) && Revisions(a) == Revisions(b)
    ensures a == b
  {
    SameIds(a, b);
    assert forall k | 0 <= k < |a| :: Revisions(a)[k] == a[k].revision && Revisions(b)[k] == b[k].revision;
  }

  /** Every unit of a rebuild has the blocks that its rendering needs. */
  lemma RebuildIsDrawable(pass: Pass, blocks: seq<Block>)
    ensures AllDrawable(Rebuild(pass, blocks))
  {
    Grouping.UnitsGroup(pass, blocks, 0);
    GroupsAreDrawable(pass, blocks, 0, Units(pass, blocks, 0));
  }

  predicate AllDrawable(units: seq<Unit>) {
    forall k | 0 <= k < |units| :: Drawable(units[k])
  }

  lemma {:induction false} GroupsAreDrawable(pass: Pass, blocks: seq<Block>, i: nat, units: seq<Unit>)
    requires Grouping.Groups(pass, blocks, i, units)
    ensures AllDrawable(units)
    decreases |units|
  {
    hide Drawable;
    if units != [] {
      var end := i + |units[0].members|;
      FitIsDrawable(pass, blocks, i, end, units[0]);
      GroupsAreDrawable(pass, blocks, end, units[1..]);
      assert forall k | 1 <= k < |units| :: units[k] == units[1..][k - 1];
    }
  }

  lemma FitIsDrawable(pass: Pass, blocks: seq<Block>, i: nat, end: nat, unit: Unit)
    requires i < end <= |blocks| && Grouping.Describes(pass, blocks, i, end, unit)
    ensures Drawable(unit)
  {
  }

  datatype Document = Document(units: seq<Lines>, starts: seq<nat>, lineCount: nat)

  function Joined(units: seq<Lines>): seq<string> {
    if units == [] then [] else Joined(units[..|units| - 1]) + units[|units| - 1]
  }

  /** The start table of a list of rendered units. */
  ghost predicate Indexes(units: seq<Lines>, starts: seq<nat>, lineCount: nat) {
    && |starts| == |units|
    && lineCount == |Joined(units)|
    && forall k | 0 <= k < |units| :: starts[k] == |Joined(units[..k])|
  }

  ghost predicate WellIndexed(doc: Document) {
    Indexes(doc.units, doc.starts, doc.lineCount)
  }

  lemma {:induction false} JoinedSplit(units: seq<Lines>, k: nat)
    requires k < |units|
    ensures |Joined(units[..k])| + |units[k]| <= |Joined(units)|
    ensures Joined(units)[|Joined(units[..k])|..|Joined(units[..k])| + |units[k]|] == units[k]
    decreases |units|
  {
    var last := |units| - 1;
    if k == last {
      assert units[..k] == units[..last];
    } else {
      JoinedSplit(units[..last], k);
      assert units[..last][..k] == units[..k];
      var start := |Joined(units[..k])|;
      assert Joined(units) == Joined(units[..last]) + units[last];
      assert Joined(units)[start..start + |units[k]|] == Joined(units[..last])[start..start + |units[k]|];
    }
  }

  lemma {:induction false} StartsAscend(doc: Document)
    requires WellIndexed(doc)
    ensures Ascending(doc.starts)
  {
    forall i, j | 0 <= i < j < |doc.starts|
      ensures doc.starts[i] < doc.starts[j]
    {
      JoinedSplit(doc.units[..j], i);
      assert doc.units[..j][..i] == doc.units[..i];
    }
  }

  /** `get_line`: bisection finds the line of the concatenated units, and an index outside
      the document is an error. */
  method GetLine(doc: Document, index: int) returns (line: Option<string>)
    requires WellIndexed(doc)
    ensures line == if 0 <= index < doc.lineCount then Some(Joined(doc.units)[index]) else None
  {
    if index < 0 || index >= doc.lineCount {
      return None;
    }
    StartsAscend(doc);
    var after := BisectRight(doc.starts, index);
    assert after > 0 by {
      assert doc.lineCount == |Joined(doc.units)|;
      assert doc.units != [] && doc.units[..0] == [];
      assert doc.starts[0] == 0;
    }
    var u := after - 1;
    LineIsInUnit(doc, u, index);
    return Some(doc.units[u][index - doc.starts[u]]);
  }

  lemma LineIsInUnit(doc: Document, u: nat, index: nat)
    requires WellIndexed(doc) && u < |doc.units| && index < doc.lineCount
    requires doc.starts[u] <= index
    requires u + 1 < |doc.units| ==> index < doc.starts[u + 1]
    ensures index - doc.starts[u] < |doc.units[u]|
    ensures doc.units[u][index - doc.starts[u]] == Joined(doc.units)[index]
  {
    var start := doc.starts[u];
    JoinedSplit(doc.units, u);
    assert doc.units[..u + 1][..u] == doc.units[..u];
    assert Joined(doc.units[..u + 1]) == Joined(doc.units[..u]) + doc.units[u];
    if u + 1 == |doc.units| {
      assert doc.units[..u + 1] == doc.units;
    }
    assert Joined(doc.units)[start..start + |doc.units[u]|][index - start] == Joined(doc.units)[index];
  }

  function FreshAll(draw: Draw, what: Block -> Kind, width: nat, units: seq<Unit>): (r: seq<Lines>)
    requires AllDrawable(units)
    ensures |r| == |units|
    ensures forall k | 0 <= k < |units| :: r[k] == Fresh(draw, what, width, units[k])
  {
    seq(|units|, k requires 0 <= k < |units| => Fresh(draw, what, width, units[k]))
  }

  /** A document whose units are rendered afresh. */
  ghost predicate IsFresh(draw: Draw, what: Block -> Kind, width: nat, units: seq<Unit>, doc: Document) {
    AllDrawable(units) && doc.units == FreshAll(draw, what, width, units) && WellIndexed(doc)
  }

  datatype Entry = Entry(owner: seq<nat>, stamp: Fingerprint, rendered: Lines)

  /** The entry holds what this unit looks like. */
  ghost predicate Holds(draw: Draw, what: Block -> Kind, width: nat, key: Key, entry: Entry, unit: Unit) {
    && Drawable(unit)
    && KeyOf(unit) == key && OwnerOf(unit) == entry.owner && PrintOf(what, unit) == entry.stamp
    && entry.rendered == Fresh(draw, what, width, unit)
  }

  /** A replay of the entry shows every unit that it serves as it looks now. */
  ghost predicate Replays(draw: Draw, what: Block -> Kind, width: nat, key: Key, entry: Entry) {
    exists unit :: Holds(draw, what, width, key, entry, unit)
  }

  datatype Saved = Saved(signature: seq<Unit>, document: Document)

  class TranscriptRenderer {
    const draw: Draw
    const what: Block -> Kind
    var cache: map<Key, Entry>
    var memos: map<bool, TranscriptUnitMemo>
    var documents: map<bool, Saved>
    var width: nat

    ghost predicate Valid()
      reads this, memos.Values
    {
      MemosValid() && CacheValid() && DocumentsValid()
    }

    ghost predicate MemosValid()
      reads `memos, memos.Values
    {
      forall mode | mode in memos :: memos[mode].Valid(what)
    }

    ghost predicate CacheValid()
      reads `cache, `width
    {
      forall key | key in cache ::
        Replays(draw, what, width, key, cache[key])
    }

    ghost predicate DocumentsValid()
      reads `documents, `width
    {
      forall mode | mode in documents ::
        IsFresh(draw, what, width, documents[mode].signature, documents[mode].document)
    }

    constructor (draw: Draw, what: Block -> Kind)
      ensures Valid() && memos == map[] && this.draw == draw && this.what == what
    {
      this.draw, this.what := draw, what;
      cache, memos, documents, width := map[], map[], map[], 0;
    }

    method Clear(newWidth: nat)
      modifies this`cache, this`memos, this`documents, this`width
      ensures cache == map[] && memos == map[] && documents == map[] && width == newWidth
      ensures Valid()
    {
      cache, memos, documents, width := map[], map[], map[], newWidth;
    }

    /** `render_document`.  `identical` says whether the unit objects happen to be the very
        objects of the saved signature, which only equal units can be.  The document is the
        one that renders every unit of a rebuild afresh. */
    method RenderDocument(pass: Pass, all: seq<Block>, identical: bool) returns (doc: Document)
      requires Valid() && pass.what == what
      modifies this, memos.Values
      ensures Valid() && fresh(memos.Values - old(memos.Values))
      ensures IsFresh(draw, what, pass.settings.width, Rebuild(pass, Shown(what, all)), doc)
    {
      hide MemosValid, IsFresh, Rebuild, Shown, Replays, AllDrawable;
      RebuildIsDrawable(pass, Shown(what, all));
      if pass.settings.width != width {
        Clear(pass.settings.width);
      }
      var mode := pass.settings.toolsExpanded;
      var units := UnitsFor(mode, pass, all);
      cache := Live(cache, all);
      if mode in documents && identical && documents[mode].signature == units {
        return documents[mode].document;
      }
      doc := Build(units);
      documents := documents[mode := Saved(units, doc)];
    }

    /** The memo of this display mode, made on first use. */
    method UnitsFor(mode: bool, pass: Pass, all: seq<Block>) returns (units: seq<Unit>)
      requires MemosValid() && pass.what == what
      modifies this`memos, memos.Values
      ensures MemosValid() && fresh(memos.Values - old(memos.Values))
      ensures units == Rebuild(pass, Shown(what, all))
    {
      if mode !in memos {
        var memo := new TranscriptUnitMemo(what);
        memos := memos[mode := memo];
      }
      var memo := memos[mode];
      assert memo in memos.Values;
      units := memo.TranscriptUnits(pass, all);
    }

    method Build(units: seq<Unit>) returns (doc: Document)
      requires CacheValid() && AllDrawable(units)
      modifies this`cache
      ensures CacheValid()
      ensures IsFresh(draw, what, width, units, doc)
    {
      var rendered: seq<Lines> := [];
      var starts: seq<nat> := [];
      var lineCount: nat := 0;
      for k := 0 to |units|
        invariant CacheValid()
        invariant rendered == FreshAll(draw, what, width, units[..k])
        invariant Indexes(rendered, starts, lineCount)
      {
        var lines := RenderUnit(units[k]);
        OneMoreIndexed(rendered, starts, lineCount, lines);
        starts := starts + [lineCount];
        lineCount := lineCount + |lines|;
        rendered := rendered + [lines];
        assert rendered == FreshAll(draw, what, width, units[..k + 1]);
      }
      assert units[..|units|] == units;
      return Document(rendered, starts, lineCount);
    }

    /** Replays a cached render only when owner and fingerprint still match. */
    method RenderUnit(unit: Unit) returns (lines: Lines)
      requires CacheValid() && Drawable(unit)
      modifies this`cache
      ensures CacheValid()
      ensures lines == Fresh(draw, what, width, unit)
    {
      var key, owner, stamp := KeyOf(unit), OwnerOf(unit), PrintOf(what, unit);
      if key !in cache || cache[key].owner != owner || cache[key].stamp != stamp {
        lines := draw(LookOf(what, unit), width);
        cache := cache[key := Entry(owner, stamp, lines)];
        assert Holds(draw, what, width, key, cache[key], unit);
      } else {
        ghost var drawn :| Holds(draw, what, width, key, cache[key], drawn);
        PrintDetermines(what, unit, drawn);
        lines := cache[key].rendered;
      }
    }
  }

  /** Only the header and keys of blocks still on the timeline stay cached. */
  function Live(cache: map<Key, Entry>, all: seq<Block>): (kept: map<Key, Entry>)
    ensures forall key | key in kept :: key in cache && kept[key] == cache[key]
    ensures forall key | key in cache ::
              key in kept <==> key.HeaderKey? || exists k :: 0 <= k < |all| && all[k].id == key.first
  {
    assert forall k | 0 <= k < |all| :: Ids(all)[k] == all[k].id;
    map key | key in cache && (key.HeaderKey? || key.first in Ids(all)) :: cache[key]
  }

  lemma OneMoreIndexed(units: seq<Lines>, starts: seq<nat>, lineCount: nat, lines: Lines)
    requires Indexes(units, starts, lineCount)
    ensures Indexes(units + [lines], starts + [lineCount], lineCount + |lines|)
  {
    var longer := units + [lines];
    assert longer[..|units|] == units;
    assert forall k | 0 <= k < |units| :: longer[..k] == units[..k];
  }
}
