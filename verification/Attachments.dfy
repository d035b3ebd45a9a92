/** The search for attachment references in checkpoint data, and the cleanup that relies on it. */
module Attachments {
  import opened Results

  type Id = nat

  /** An object that the search may meet. A mapping carries the storage key of the valid
      attachment reference it spells, if it spells one; a model may refuse to be dumped. */
  datatype Node =
    | Mapping(reference: Option<string>, values: seq<Id>)
    | Sequence(items: seq<Id>)
    | Model(dump: Option<Id>)
    | Plain(variables: Id)
    | Scalar

  type Heap = map<Id, Node>

  /** The address of an object, which is what `id` returns. */
  type Addresses = Id -> int

  function KeysOf(node: Node): set<string> {
    if node.Mapping? && node.reference.Some? then {node.reference.value} else {}
  }

  /** Where the search goes from a node. A valid reference is not searched any further. */
  function Children(node: Node): seq<Id> {
    match node
    case Mapping(reference, values) => if reference.Some? then [] else values
    case Sequence(items) => items
    case Model(dump) => if dump.Some? then [dump.value] else []
    case Plain(variables) => [variables]
    case Scalar => []
  }

  predicate Closed(heap: Heap) {
    forall x, i | x in heap && 0 <= i < |Children(heap[x])| :: Children(heap[x])[i] in heap
  }

  /** Every step of a path goes from an object to one of its children. */
  ghost predicate Path(heap: Heap, p: seq<Id>) {
    && p != []
    && (forall i | 0 <= i < |p| :: p[i] in heap)
    && forall i | 0 <= i < |p| - 1 :: p[i + 1] in Children(heap[p[i]])
  }

  /** `y` is directly inside `node`: a value of a mapping that is no valid reference, an item, the dump of
      a model, or the variables of an object. */
  predicate Inside(node: Node, y: Id) {
    || (node.Mapping? && node.reference.None? && y in node.values)
    || (node.Sequence? && y in node.items)
    || (node.Model? && node.dump == Some(y))
    || (node.Plain? && node.variables == y)
  }

  /** Paths lead inside, and nothing is reached through a valid reference. */
  lemma PathIff(heap: Heap, p: seq<Id>)
    requires p != [] && forall i | 0 <= i < |p| :: p[i] in heap
    ensures Path(heap, p) <==> forall i | 0 <= i < |p| - 1 :: Inside(heap[p[i]], p[i + 1])
  {
  }

  ghost predicate Reachable(heap: Heap, root: Id, x: Id) {
    exists p :: Path(heap, p) && p[0] == root && p[|p| - 1] == x
  }

  /** Some mapping that is reachable without passing through a valid reference spells `key`. */
  ghost predicate Referenced(heap: Heap, root: Id, key: string) {
    exists x :: Reachable(heap, root, x) && x in heap && key in KeysOf(heap[x])
  }

  /** No two containers that the search can reach share an address. */
  ghost predicate Distinct(heap: Heap, address: Addresses, root: Id) {
    forall a, b | Container(heap, root, a) && Container(heap, root, b) && a != b :: address(a) != address(b)
  }

  ghost predicate Container(heap: Heap, root: Id, x: Id) {
    Reachable(heap, root, x) && x in heap && !heap[x].Scalar?
  }

  function Unseen(heap: Heap, address: Addresses, seen: set<int>): set<int> {
    (set x | x in heap :: address(x)) - seen
  }

  /** The worklist search, from a state of its loop. */
  function Search(heap: Heap, address: Addresses, stack: seq<Id>, seen: set<int>, found: set<string>): set<string>
    requires Closed(heap) && forall i | 0 <= i < |stack| :: stack[i] in heap
    decreases Unseen(heap, address, seen), |stack|
  {
    if stack == [] then
      found
    else
      var item, rest := stack[|stack| - 1], stack[..|stack| - 1];
      if heap[item].Scalar? || address(item) in seen then
        Search(heap, address, rest, seen, found)
      else
        assert address(item) in Unseen(heap, address, seen);
        Search(heap, address, rest + Children(heap[item]), seen + {address(item)}, found + KeysOf(heap[item]))
  }

  /** `find_attachment_storage_keys` */
  method FindStorageKeys(heap: Heap, address: Addresses, root: Id, ghost maker: Maker) returns (found: set<string>)
    requires Closed(heap) && root in heap
    ensures found == Search(heap, address, [root], {}, {})
    ensures forall key | key in found :: Referenced(heap, root, key)
    ensures Reliable(heap, maker, address, root) ==> forall key | Referenced(heap, root, key) :: key in found
  {
    found := {};
    var stack: seq<Id> := [root];
    var seen: set<int> := {};
    while stack != []
      invariant forall i | 0 <= i < |stack| :: stack[i] in heap
      invariant Search(heap, address, stack, seen, found) == Search(heap, address, [root], {}, {})
      decreases Unseen(heap, address, seen), |stack|
    {
      var item := stack[|stack| - 1];
      stack := stack[..|stack| - 1];
      if !heap[item].Scalar? {
        if address(item) in seen {
          continue;
        }
        assert address(item) in Unseen(heap, address, seen);
        assert stack + [] == stack && found + {} == found;
        seen := seen + {address(item)};
        match heap[item]
        case Mapping(Some(key), _) => found := found + {key};
        case Mapping(None, values) => stack := stack + values;
        case Sequence(items) => stack := stack + items;
        case Model(dump) =>
          if dump.Some? {
            stack := stack + [dump.value];
          }
        case Plain(variables) => stack := stack + [variables];
      }
    }
    SearchIsSound(heap, address, root);
    if Reliable(heap, maker, address, root) {
      if !Distinct(heap, address, root) {
        OneDumpIsDistinct(heap, maker, address, root);
      }
      SearchIsComplete(heap, address, root);
    }
  }

  /** The search cannot mistake an object for another: it dumps at most one model, or happens to find
      every container that it reaches at an address of its own. */
  ghost predicate Reliable(heap: Heap, maker: Maker, address: Addresses, root: Id) {
    (Possible(heap, maker, address, root) && |Dumped(heap, root)| <= 1) || Distinct(heap, address, root)
  }

  lemma RootIsReachable(heap: Heap, root: Id)
    requires root in heap
    ensures Reachable(heap, root, root)
  {
    assert Path(heap, [root]);
  }

  lemma ChildIsReachable(heap: Heap, root: Id, x: Id, i: nat)
    requires Closed(heap) && x in heap && Reachable(heap, root, x) && i < |Children(heap[x])|
    ensures Reachable(heap, root, Children(heap[x])[i])
  {
    var p :| Path(heap, p) && p[0] == root && p[|p| - 1] == x;
    assert Path(heap, p + [Children(heap[x])[i]]);
  }

  /** Everything on the stack is reachable. */
  ghost predicate Pending(heap: Heap, root: Id, stack: seq<Id>) {
    forall i | 0 <= i < |stack| :: stack[i] in heap && Reachable(heap, root, stack[i])
  }

  lemma PendingChildren(heap: Heap, root: Id, stack: seq<Id>)
    requires Closed(heap) && stack != [] && Pending(heap, root, stack)
    ensures Pending(heap, root, stack[..|stack| - 1] + Children(heap[stack[|stack| - 1]]))
  {
    var item := stack[|stack| - 1];
    forall i | 0 <= i < |Children(heap[item])|
      ensures Reachable(heap, root, Children(heap[item])[i])
    {
      ChildIsReachable(heap, root, item, i);
    }
  }

  /** Whatever the addresses, only referenced keys are found. */
  lemma SearchIsSound(heap: Heap, address: Addresses, root: Id)
    requires Closed(heap) && root in heap
    ensures forall key | key in Search(heap, address, [root], {}, {}) :: Referenced(heap, root, key)
  {
    RootIsReachable(heap, root);
    SoundFrom(heap, address, root, [root], {}, {});
  }

  lemma {:induction false} SoundFrom(heap: Heap, address: Addresses, root: Id,
                                     stack: seq<Id>, seen: set<int>, found: set<string>)
    requires Closed(heap) && Pending(heap, root, stack)
    requires forall key | key in found :: Referenced(heap, root, key)
    ensures forall key | key in Search(heap, address, stack, seen, found) :: Referenced(heap, root, key)
    decreases Unseen(heap, address, seen), |stack|
  {
    if stack != [] {
      var item, rest := stack[|stack| - 1], stack[..|stack| - 1];
      if heap[item].Scalar? || address(item) in seen {
        SoundFrom(heap, address, root, rest, seen, found);
      } else {
        assert address(item) in Unseen(heap, address, seen);
        PendingChildren(heap, root, stack);
        SoundFrom(heap, address, root, rest + Children(heap[item]), seen + {address(item)},
                  found + KeysOf(heap[item]));
      }
    }
  }

  /** `x` is dealt with: visited, still to be visited, or without anything to visit. */
  ghost predicate Known(heap: Heap, stack: seq<Id>, visited: set<Id>, x: Id) {
    x in visited || x in stack || (x in heap && heap[x].Scalar?)
  }

  /** The state of a search that has visited `visited`. */
  ghost predicate Visited(heap: Heap, root: Id, stack: seq<Id>, visited: set<Id>, found: set<string>) {
    && Known(heap, stack, visited, root)
    && (forall v | v in visited :: Container(heap, root, v) && KeysOf(heap[v]) <= found)
    && forall v, i | v in visited && 0 <= i < |Children(heap[v])| :: Known(heap, stack, visited, Children(heap[v])[i])
  }

  ghost function AddressesOf(address: Addresses, visited: set<Id>): set<int> {
    set v | v in visited :: address(v)
  }

  /** When no two reachable containers share an address, every referenced key is found. */
  lemma SearchIsComplete(heap: Heap, address: Addresses, root: Id)
    requires Closed(heap) && root in heap && Distinct(heap, address, root)
    ensures forall key | Referenced(heap, root, key) :: key in Search(heap, address, [root], {}, {})
  {
    RootIsReachable(heap, root);
    assert AddressesOf(address, {}) == {};
    CompleteFrom(heap, address, root, [root], {}, {});
  }

  lemma {:induction false} CompleteFrom(heap: Heap, address: Addresses, root: Id,
                                        stack: seq<Id>, visited: set<Id>, found: set<string>)
    requires Closed(heap) && Pending(heap, root, stack) && Distinct(heap, address, root)
    requires Visited(heap, root, stack, visited, found)
    ensures forall key | Referenced(heap, root, key)
              :: key in Search(heap, address, stack, AddressesOf(address, visited), found)
    decreases Unseen(heap, address, AddressesOf(address, visited)), |stack|
  {
    var seen := AddressesOf(address, visited);
    if stack == [] {
      EverythingVisited(heap, root, visited, found);
    } else {
      var item, rest := stack[|stack| - 1], stack[..|stack| - 1];
      if heap[item].Scalar? || address(item) in seen {
        assert item in visited || heap[item].Scalar?;
        KnownWithout(heap, root, stack, visited, found);
        CompleteFrom(heap, address, root, rest, visited, found);
      } else {
        assert address(item) in Unseen(heap, address, seen);
        PendingChildren(heap, root, stack);
        VisitOne(heap, root, stack, visited, found);
        assert AddressesOf(address, visited + {item}) == seen + {address(item)};
        CompleteFrom(heap, address, root, rest + Children(heap[item]), visited + {item},
                     found + KeysOf(heap[item]));
      }
    }
  }

  lemma KnownWithout(heap: Heap, root: Id, stack: seq<Id>, visited: set<Id>, found: set<string>)
    requires stack != [] && Visited(heap, root, stack, visited, found)
    requires Known(heap, [], visited, stack[|stack| - 1])
    ensures Visited(heap, root, stack[..|stack| - 1], visited, found)
  {
    var rest := stack[..|stack| - 1];
    assert stack == rest + [stack[|stack| - 1]];
    assert forall x | Known(heap, stack, visited, x) :: Known(heap, rest, visited, x);
  }

  lemma VisitOne(heap: Heap, root: Id, stack: seq<Id>, visited: set<Id>, found: set<string>)
    requires stack != [] && Visited(heap, root, stack, visited, found)
    requires Container(heap, root, stack[|stack| - 1])
    ensures var item := stack[|stack| - 1];
            Visited(heap, root, stack[..|stack| - 1] + Children(heap[item]), visited + {item},
                    found + KeysOf(heap[item]))
  {
    var item, rest := stack[|stack| - 1], stack[..|stack| - 1];
    assert stack == rest + [item];
    var next := rest + Children(heap[item]);
    assert forall x | Known(heap, stack, visited, x) :: Known(heap, next, visited + {item}, x);
    forall v, i | v in visited + {item} && 0 <= i < |Children(heap[v])|
      ensures Known(heap, next, visited + {item}, Children(heap[v])[i])
    {
      var child := Children(heap[v])[i];
      if v in visited {
        assert Known(heap, stack, visited, child);
      } else {
        assert child in next;
      }
    }
  }

  /** With nothing left to visit, every reachable container has been visited. */
  lemma EverythingVisited(heap: Heap, root: Id, visited: set<Id>, found: set<string>)
    requires Visited(heap, root, [], visited, found)
    ensures forall key | Referenced(heap, root, key) :: key in found
  {
    forall key | Referenced(heap, root, key)
      ensures key in found
    {
      var x :| Reachable(heap, root, x) && x in heap && key in KeysOf(heap[x]);
      var p :| Path(heap, p) && p[0] == root && p[|p| - 1] == x;
      PathIsKnown(heap, root, visited, found, p, |p| - 1);
    }
  }

  lemma {:induction false} PathIsKnown(heap: Heap, root: Id, visited: set<Id>, found: set<string>, p: seq<Id>, i: nat)
    requires Visited(heap, root, [], visited, found)
    requires Path(heap, p) && p[0] == root && i < |p|
    ensures Known(heap, [], visited, p[i])
  {
    if i > 0 {
      PathIsKnown(heap, root, visited, found, p, i - 1);
      var children := Children(heap[p[i - 1]]);
      assert p[(i - 1) + 1] in children;
      var k :| 0 <= k < |children| && children[k] == p[i];
    }
  }

  /** The models that the search has dumped when it ends. */
  ghost function Dumped(heap: Heap, root: Id): set<Id> {
    set m | m in heap && Reachable(heap, root, m) && heap[m].Model? && heap[m].dump.Some?
  }

  /** `maker` names the model whose dump made an object, if one did; the search meets such an object
      only through that dump. */
  ghost predicate Made(heap: Heap, maker: Maker, root: Id) {
    && Closed(heap) && root in heap && maker(root) == None
    && forall x, i | x in heap && 0 <= i < |Children(heap[x])| :: MetThroughMaker(heap, maker, x, Children(heap[x])[i])
  }

  /** At least what an interpreter can do: objects of the data itself are alive all the time and so
      are, together, those of one dump; an object of a dump that was dropped can pass its address on
      to an object of another. */
  ghost predicate Possible(heap: Heap, maker: Maker, address: Addresses, root: Id) {
    && Made(heap, maker, root)
    && forall a, b | a in heap && b in heap && a != b && address(a) == address(b) ::
         maker(a).Some? && maker(b).Some? && maker(a) != maker(b)
  }

  type Maker = Id -> Option<Id>

  ghost predicate MetThroughMaker(heap: Heap, maker: Maker, x: Id, child: Id)
    requires x in heap
  {
    maker(child).Some? ==> maker(child) == maker(x) || (maker(child).value == x && heap[x].Model?)
  }

  /** An object made by a dump is reached only if its model was reached and dumped. */
  lemma {:induction false} MakerIsDumped(heap: Heap, maker: Maker, root: Id, p: seq<Id>)
    requires Made(heap, maker, root) && Path(heap, p) && p[0] == root
    ensures var x := p[|p| - 1]; maker(x).Some? ==> maker(x).value in Dumped(heap, root)
    decreases |p|
  {
    if |p| > 1 {
      var before := p[..|p| - 1];
      var x, child := before[|before| - 1], p[|p| - 1];
      assert Path(heap, before);
      MakerIsDumped(heap, maker, root, before);
      assert Reachable(heap, root, x);
      assert child in Children(heap[x]);
      var i :| 0 <= i < |Children(heap[x])| && Children(heap[x])[i] == child;
      assert MetThroughMaker(heap, maker, x, child);
    }
  }

  /** With at most one dumped model no two objects that the search reaches share an address. */
  lemma OneDumpIsDistinct(heap: Heap, maker: Maker, address: Addresses, root: Id)
    requires Possible(heap, maker, address, root) && |Dumped(heap, root)| <= 1
    ensures Distinct(heap, address, root)
  {
    forall a, b | Container(heap, root, a) && Container(heap, root, b) && a != b
      ensures address(a) != address(b)
    {
      if address(a) == address(b) {
        var p :| Path(heap, p) && p[0] == root && p[|p| - 1] == a;
        var q :| Path(heap, q) && q[0] == root && q[|q| - 1] == b;
        MakerIsDumped(heap, maker, root, p);
        MakerIsDumped(heap, maker, root, q);
        TwoMembers(Dumped(heap, root), maker(a).value, maker(b).value);
        assert false;
      }
    }
  }

  lemma TwoMembers(s: set<Id>, a: Id, b: Id)
    requires a in s && b in s && a != b
    ensures |s| >= 2
  {
    assert |s - {a}| >= 1 by {
      assert b in s - {a};
    }
    assert s == (s - {a}) + {a};
  }

  /** The search finds exactly the referenced keys. */
  ghost predicate Exact(heap: Heap, address: Addresses, root: Id)
    requires Closed(heap) && root in heap
  {
    forall key :: key in Search(heap, address, [root], {}, {}) <==> Referenced(heap, root, key)
  }

  /** The search is exact, wherever the interpreter places the objects, on all data in which it
      dumps at most `n` models. */
  ghost predicate ExactUpTo(n: nat) {
    forall heap: Heap, maker: Maker, address: Addresses, root: Id
      | Possible(heap, maker, address, root) && |Dumped(heap, root)| <= n :: Exact(heap, address, root)
  }

  /** One dumped model is always safe, and two are not. */
  lemma ExactIffOneDump(n: nat)
    ensures ExactUpTo(n) <==> n <= 1
  {
    if n <= 1 {
      forall heap: Heap, maker: Maker, address: Addresses, root: Id
        | Possible(heap, maker, address, root) && |Dumped(heap, root)| <= n
        ensures Exact(heap, address, root)
      {
        OneDumpIsDistinct(heap, maker, address, root);
        SearchIsSound(heap, address, root);
        SearchIsComplete(heap, address, root);
      }
    } else {
      ReusedDump();
      assert !Exact(DATA, SHARED, 0);
    }
  }

  lemma SearchVisits(heap: Heap, address: Addresses, rest: seq<Id>, item: Id, seen: set<int>, found: set<string>)
    requires Closed(heap) && (forall i | 0 <= i < |rest| :: rest[i] in heap) && item in heap
    requires !heap[item].Scalar? && address(item) !in seen
    ensures Search(heap, address, rest + [item], seen, found) ==
            Search(heap, address, rest + Children(heap[item]), seen + {address(item)}, found + KeysOf(heap[item]))
  {
    var stack := rest + [item];
    assert stack[..|stack| - 1] == rest;
  }

  lemma SearchSkips(heap: Heap, address: Addresses, rest: seq<Id>, item: Id, seen: set<int>, found: set<string>)
    requires Closed(heap) && (forall i | 0 <= i < |rest| :: rest[i] in heap) && item in heap
    requires heap[item].Scalar? || address(item) in seen
    ensures Search(heap, address, rest + [item], seen, found) == Search(heap, address, rest, seen, found)
  {
    var stack := rest + [item];
    assert stack[..|stack| - 1] == rest;
  }

  /** A list of two models, the first of which dumps to a reference. */
  const DATA: Heap := map[
    0 := Sequence([1, 2]),
    1 := Model(Some(3)),
    2 := Model(Some(4)),
    3 := Mapping(Some("key"), []),
    4 := Mapping(None, [])
  ]
  const MAKERS: Maker := x => if x == 3 then Some(1) else if x == 4 then Some(2) else None
  const SHARED: Addresses := x => if x == 4 then 3 else x

  /** The second model of the list is dumped first, its dump is dropped, and the dump of the first
      model is given the same address: its reference is missed. */
  lemma ReusedDump()
    ensures Possible(DATA, MAKERS, SHARED, 0) && |Dumped(DATA, 0)| <= 2
    ensures Referenced(DATA, 0, "key") && Search(DATA, SHARED, [0], {}, {}) == {}
  {
    hide Search, Path, Reachable, Possible, Dumped;
    RootIsReachable(DATA, 0);
    ChildIsReachable(DATA, 0, 0, 0);
    ChildIsReachable(DATA, 0, 1, 0);
    assert Referenced(DATA, 0, "key");
    DataIsPossible();
    TwoModels();
    DumpIsSkipped(SHARED);
  }

  lemma DataIsPossible()
    ensures Possible(DATA, MAKERS, SHARED, 0)
  {
    forall x, i | x in DATA && 0 <= i < |Children(DATA[x])|
      ensures MetThroughMaker(DATA, MAKERS, x, Children(DATA[x])[i])
    {
    }
  }

  lemma TwoModels()
    ensures |Dumped(DATA, 0)| <= 2
  {
    assert Dumped(DATA, 0) <= {1, 2};
    SubsetSize(Dumped(DATA, 0), {1, 2});
  }

  lemma SubsetSize(a: set<Id>, b: set<Id>)
    requires a <= b
    ensures |a| <= |b|
  {
    assert b == a + (b - a);
  }

  lemma DumpIsSkipped(address: Addresses)
    requires Closed(DATA)
    requires forall x, y | 0 <= x < y <= 4 :: address(x) == address(y) <==> x == 3 && y == 4
    ensures Search(DATA, address, [0], {}, {}) == {}
  {
    hide Search, Closed;
    var none: set<string> := {};
    assert forall x | x in {0, 1, 2, 4} :: none + KeysOf(DATA[x]) == none;
    var seen0, seen1, seen2, seen3 := {address(0)}, {address(0), address(2)},
      {address(0), address(2), address(4)}, {address(0), address(1), address(2), address(4)};
    assert {} + {address(0)} == seen0 && seen0 + {address(2)} == seen1;
    assert seen1 + {address(4)} == seen2 && seen2 + {address(1)} == seen3;
    SearchVisits(DATA, address, [], 0, {}, none);
    assert [] + [0] == [0] && [] + Children(DATA[0]) == [1] + [2];
    SearchVisits(DATA, address, [1], 2, seen0, none);
    SearchVisits(DATA, address, [1], 4, seen1, none);
    assert [1] + [] == [] + [1];
    SearchVisits(DATA, address, [], 1, seen2, none);
    SearchSkips(DATA, address, [], 3, seen3, none);
    SearchEnds(DATA, address, seen3, none);
  }

  lemma SearchEnds(heap: Heap, address: Addresses, seen: set<int>, found: set<string>)
    requires Closed(heap)
    ensures Search(heap, address, [], seen, found) == found
  {
  }

  const SUFFIXES := {"png", "jpg", "jpeg", "webp", "gif"}

  /** The name of a stored attachment: a SHA-256 digest in lower-case hexadecimal and a suffix. */
  predicate StorageKey(name: string) {
    && |name| > 65 && name[64] == '.' && name[65..] in SUFFIXES
    && forall i | 0 <= i < 64 :: '0' <= name[i] <= '9' || 'a' <= name[i] <= 'f'
  }

  /** The pattern of the names: 64 hexadecimal digits, a dot and one of five suffixes. */
  ghost predicate Matches(name: string, digest: string, suffix: string) {
    && name == digest + "." + suffix && |digest| == 64
    && (forall i | 0 <= i < 64 :: digest[i] in "0123456789abcdef")
    && suffix in ["png", "jpg", "jpeg", "webp", "gif"]
  }

  lemma StorageKeyIff(name: string)
    ensures StorageKey(name) <==> exists digest, suffix :: Matches(name, digest, suffix)
  {
    forall i | 0 <= i < |name|
      ensures name[i] in "0123456789abcdef" <==> '0' <= name[i] <= '9' || 'a' <= name[i] <= 'f'
    {
      HexDigit(name[i]);
    }
    if StorageKey(name) {
      assert name == name[..64] + "." + name[65..];
      assert Matches(name, name[..64], name[65..]);
    }
    if digest, suffix :| Matches(name, digest, suffix) {
      assert name[64] == '.' && name[65..] == suffix;
      assert forall i | 0 <= i < 64 :: name[i] == digest[i];
    }
  }

  lemma HexDigit(x: char)
    ensures x in "0123456789abcdef" <==> '0' <= x <= '9' || 'a' <= x <= 'f'
  {
    var digits := "0123456789abcdef";
    if '0' <= x <= '9' {
      assert digits[x as int - '0' as int] == x;
    }
    if 'a' <= x <= 'f' {
      assert digits[10 + x as int - 'a' as int] == x;
    }
  }

  datatype CleanupResult = CleanupResult(scanned: nat, kept: nat, deleted: nat, freed: nat, skippedBusy: bool)

  ghost predicate NoRepeats(names: seq<string>) {
    forall i, j | 0 <= i < j < |names| :: names[i] != names[j]
  }

  /** A listing of a directory: every name once, in any order. */
  ghost predicate Lists(listing: seq<string>, files: map<string, nat>) {
    && (forall i | 0 <= i < |listing| :: listing[i] in files)
    && (forall name | name in files :: name in listing)
    && NoRepeats(listing)
  }

  /** The listed files that are attachments. */
  function Attachments(listing: seq<string>): seq<string> {
    if listing == [] then []
    else if StorageKey(listing[0]) then [listing[0]] + Attachments(listing[1..])
    else Attachments(listing[1..])
  }

  /** The bytes that the given files take up. */
  function Bytes(files: map<string, nat>, names: seq<string>): nat {
    if names == [] then 0
    else (if names[0] in files then files[names[0]] else 0) + Bytes(files, names[1..])
  }

  lemma {:induction false} BytesAdd(files: map<string, nat>, a: seq<string>, b: seq<string>)
    ensures Bytes(files, a + b) == Bytes(files, a) + Bytes(files, b)
    ensures forall name | name in files :: Bytes(files, [name]) == files[name]
  {
    if a == [] {
      assert a + b == b;
    } else {
      assert (a + b)[1..] == a[1..] + b;
      BytesAdd(files, a[1..], b);
    }
  }

  /** The attachments among some names. */
  ghost function Stored(names: set<string>): set<string> {
    set name | name in names && StorageKey(name)
  }

  /** What a cleanup leaves of a directory. */
  ghost function Remaining(files: map<string, nat>, live: set<string>): map<string, nat> {
    files - (Stored(files.Keys) - live)
  }

  lemma {:induction false} AttachmentsAreStored(listing: seq<string>, files: map<string, nat>)
    requires Lists(listing, files)
    ensures var names := Attachments(listing);
            && (forall name :: name in names <==> name in Stored(files.Keys))
            && (forall i | 0 <= i < |names| :: names[i] in listing && names[i] in files)
            && NoRepeats(names) && NoRepeats(listing)
  {
    AttachmentsFilter(listing);
    var names := Attachments(listing);
    forall i | 0 <= i < |names|
      ensures names[i] in listing && names[i] in files
    {
      assert names[i] in names;
    }
  }

  lemma {:induction false} AttachmentsFilter(listing: seq<string>)
    requires NoRepeats(listing)
    ensures var names := Attachments(listing);
            && (forall name :: name in names <==> name in listing && StorageKey(name))
            && NoRepeats(names)
  {
    if listing != [] {
      AttachmentsFilter(listing[1..]);
      assert listing == [listing[0]] + listing[1..];
      assert listing[0] !in listing[1..];
    }
  }

  /** Removing one listed file takes its size off the total. */
  lemma {:induction false} BytesWithout(files: map<string, nat>, names: seq<string>, name: string)
    requires name in files && name in names
    requires NoRepeats(names)
    ensures Bytes(files, names) == Bytes(files - {name}, names) + files[name]
  {
    if names[0] == name {
      assert name !in names[1..];
      BytesUnaffected(files, names[1..], name);
    } else {
      assert names == [names[0]] + names[1..];
      BytesWithout(files, names[1..], name);
    }
  }

  lemma {:induction false} BytesUnaffected(files: map<string, nat>, names: seq<string>, name: string)
    requires name !in names
    ensures Bytes(files, names) == Bytes(files - {name}, names)
  {
    if names != [] {
      assert names == [names[0]] + names[1..];
      BytesUnaffected(files, names[1..], name);
    }
  }

  lemma NoRepeatsAmong(names: seq<string>)
    requires NoRepeats(names)
    ensures forall i, j | 0 <= i < |names| && 0 <= j < |names| :: names[i] == names[j] <==> i == j
  {
  }

  lemma RemoveOne(files: map<string, nat>, removed: set<string>, name: string)
    ensures files - removed - {name} == files - (removed + {name})
  {
  }

  lemma SurvivorsRemain(files: map<string, nat>, live: set<string>, names: seq<string>, removed: set<string>)
    requires NoRepeats(names) && forall name :: name in names <==> name in Stored(files.Keys)
    requires forall k | 0 <= k < |names| :: names[k] in removed <==> names[k] !in live
    requires removed <= Stored(files.Keys)
    ensures Remaining(files, live) == files - removed
    ensures |names| == |Stored(files.Keys)| == |Stored(Remaining(files, live).Keys)| + |removed|
  {
    NoRepeatsCount(names, Stored(files.Keys));
    forall name | name in Stored(files.Keys)
      ensures name in removed <==> name !in live
    {
      assert name in names;
    }
    assert removed == Stored(files.Keys) - live;
    assert Stored(Remaining(files, live).Keys) == Stored(files.Keys) - removed;
  }

  lemma {:induction false} NoRepeatsCount(names: seq<string>, all: set<string>)
    requires NoRepeats(names) && forall name :: name in names <==> name in all
    ensures |names| == |all|
  {
    if names == [] {
      assert all == {};
    } else {
      assert names == [names[0]] + names[1..];
      assert names[0] !in names[1..];
      NoRepeatsCount(names[1..], all - {names[0]});
    }
  }

  /** The attachment directory of a workspace, as one process sees it. */
  class AttachmentStore {
    var files: map<string, nat>
    var leased: bool

    constructor (files: map<string, nat>)
      ensures this.files == files && !leased
    {
      this.files, leased := files, false;
    }

    /** `cleanup`. `others` says whether another process holds the lock of the workspace. */
    method Cleanup(live: set<string>, protected: set<string>, release: bool, others: bool, listing: seq<string>)
      returns (result: CleanupResult)
      requires Lists(listing, files)
      modifies this
      ensures leased == old(leased)
      ensures result.skippedBusy <==> others || (leased && !release)
      ensures result.skippedBusy ==> files == old(files) && result == CleanupResult(0, 0, 0, 0, true)
      ensures !result.skippedBusy ==>
                && files == Remaining(old(files), live + protected)
                && result.scanned == |Stored(old(files).Keys)|
                && result.kept == |Stored(files.Keys)|
                && result.kept + result.deleted == result.scanned
                && Bytes(files, listing) + result.freed == Bytes(old(files), listing)
    {
      var kept: set<string> := live + protected;
      var hadRuntime := release && leased;
      if hadRuntime {
        leased := false;
      }
      var locked := !others && !leased;
      if !locked {
        result := CleanupResult(0, 0, 0, 0, true);
      } else {
        result := DeleteUnreferenced(kept, listing);
      }
      if hadRuntime {
        leased := true;
      }
    }

    /** The loop of `cleanup`, under the lock. */
    method DeleteUnreferenced(live: set<string>, listing: seq<string>) returns (result: CleanupResult)
      requires Lists(listing, files)
      modifies `files
      ensures files == Remaining(old(files), live)
      ensures !result.skippedBusy
      ensures result.scanned == |Stored(old(files).Keys)| && result.kept == |Stored(files.Keys)|
      ensures result.kept + result.deleted == result.scanned
      ensures Bytes(files, listing) + result.freed == Bytes(old(files), listing)
    {
      hide *;
      var names := Attachments(listing);
      AttachmentsAreStored(listing, files);
      NoRepeatsAmong(names);
      var deleted: nat, freed: nat, kept: nat := 0, 0, 0;
      ghost var removed: set<string> := {};
      for i := 0 to |names|
        invariant |removed| == deleted && kept + deleted == i
        invariant forall k | 0 <= k < |names| :: names[k] in removed <==> k < i && names[k] !in live
        invariant removed <= Stored(old(files).Keys)
        invariant files == old(files) - removed
        invariant Bytes(files, listing) + freed == Bytes(old(files), listing)
      {
        var name := names[i];
        if name in live {
          kept := kept + 1;
          continue;
        }
        var size := files[name];
        BytesWithout(files, listing, name);
        RemoveOne(old(files), removed, name);
        files := files - {name};
        deleted := deleted + 1;
        freed := freed + size;
        removed := removed + {name};
      }
      SurvivorsRemain(old(files), live, names, removed);
      result := CleanupResult(|names|, kept, deleted, freed, false);
    }
  }

  /** `attachment_storage_keys`: the search over every retained checkpoint and pending write. Each of the
      searches finds the objects at places of its own. */
  method AttachmentStorageKeys(heap: Heap, places: nat -> Addresses, roots: seq<Id>, ghost maker: Maker)
    returns (live: set<string>)
    requires Closed(heap) && forall i | 0 <= i < |roots| :: roots[i] in heap
    ensures forall key | key in live :: ReferencedBySome(heap, roots, key)
    ensures forall i, key | 0 <= i < |roots| && Reliable(heap, maker, places(i), roots[i])
                            && Referenced(heap, roots[i], key) :: key in live
  {
    hide Closed, Reliable, Referenced;
    live := {};
    for i := 0 to |roots|
      invariant forall key | key in live :: ReferencedBySome(heap, roots, key)
      invariant forall k, key | 0 <= k < i && Reliable(heap, maker, places(k), roots[k])
                                && Referenced(heap, roots[k], key) :: key in live
    {
      var found := FindStorageKeys(heap, places(i), roots[i], maker);
      assert forall key | key in found :: Referenced(heap, roots[i], key);
      live := live + found;
    }
  }

  ghost predicate ReferencedBySome(heap: Heap, roots: seq<Id>, key: string) {
    exists i :: 0 <= i < |roots| && Referenced(heap, roots[i], key)
  }

  /** `cleanup_attachments`: it removes no file that is protected, or referenced from data that the
      search is reliable on, and keeps no other attachment. */
  method CleanupAttachments(store: AttachmentStore, heap: Heap, places: nat -> Addresses, roots: seq<Id>,
                            ghost maker: Maker, protected: set<string>, release: bool, others: bool,
                            listing: seq<string>)
    returns (result: CleanupResult)
    requires Closed(heap) && (forall i | 0 <= i < |roots| :: roots[i] in heap) && Lists(listing, store.files)
    modifies store
    ensures store.leased == old(store.leased)
    ensures forall name | name in store.files :: name in old(store.files) && store.files[name] == old(store.files)[name]
    ensures forall name | name in old(store.files) && !StorageKey(name) :: name in store.files
    ensures forall name | name in old(store.files) && name in protected :: name in store.files
    ensures forall i, name | 0 <= i < |roots| && Reliable(heap, maker, places(i), roots[i]) && name in old(store.files)
                && Referenced(heap, roots[i], name) :: name in store.files
    ensures !result.skippedBusy ==>
              forall name | name in store.files && StorageKey(name)
                :: name in protected || ReferencedBySome(heap, roots, name)
  {
    hide Closed, Reliable, Referenced, ReferencedBySome, StorageKey;
    var live := AttachmentStorageKeys(heap, places, roots, maker);
    result := store.Cleanup(live, protected, release, others, listing);
  }
}
