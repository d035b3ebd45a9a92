/** The file-tool mount stack: which layouts are accepted, and why an accepted layout is
    unambiguous. */
module Mounts {
  import opened Paths
  import opened Results

  /** What the mount rules and the file tools ask the host file system. */
  datatype Host = Host(
    resolve: Path -> Path,
    present: Path -> bool,
    regular: Path -> bool,
    directory: Path -> bool,
    device: Path -> bool,
    symlink: Path -> bool,
    refuses: string -> bool)

  /** Resolving a prefix of a path first changes nothing. */
  ghost predicate ResolvesThrough(host: Host, p: Path, q: Path) {
    host.resolve(host.resolve(p) + q) == host.resolve(p + q)
  }

  /** Every prefix of a resolved path is resolved. */
  ghost predicate PrefixResolved(host: Host, p: Path, q: Path) {
    host.resolve(p + q) == p + q ==> host.resolve(p) == p
  }

  /** Resolved paths have proper components, and no symlink is resolved. */
  ghost predicate ProperlyResolved(host: Host, p: Path) {
    WellNamed(host.resolve(p)) && (host.symlink(p) ==> host.resolve(p) != p)
  }

  /** Below a resolved parent, a final component that neither leads up nor is a symlink is resolved. */
  ghost predicate StaysPut(host: Host, p: Path, name: string) {
    IsName(name) && name != ".." && host.resolve(p) == p && !host.symlink(p + [name]) ==>
      host.resolve(p + [name]) == p + [name]
  }

  ghost predicate ThroughLaw(host: Host) {
    forall p, q :: ResolvesThrough(host, p, q)
  }

  ghost predicate PrefixLaw(host: Host) {
    forall p, q :: PrefixResolved(host, p, q)
  }

  ghost predicate ProperLaw(host: Host) {
    forall p :: ProperlyResolved(host, p)
  }

  ghost predicate StayLaw(host: Host) {
    forall p, name :: StaysPut(host, p, name)
  }

  /** The laws of real-path resolution that the file tools rely on; each result below names those
      it needs. */
  ghost predicate Lawful(host: Host) {
    ThroughLaw(host) && PrefixLaw(host) && ProperLaw(host) && StayLaw(host)
  }

  /** One entry of the ordered stack, before its source is resolved. */
  datatype Declared = Declared(source: Path, absolute: bool, destination: Path, readOnly: bool)

  datatype Mount = Mount(destination: Path, source: Path, readOnly: bool, isFile: bool)

  datatype MountFault =
    | BadDestination | MissingSource | BadSourceKind
    | Duplicate | HidesEarlier | InsideFile | NestedMismatch

  function Resolved(host: Host, entry: Declared): Mount {
    var source := host.resolve(entry.source);
    Mount(entry.destination, source, entry.readOnly, host.regular(source) || host.device(source))
  }

  function ResolvedAll(host: Host, ordered: seq<Declared>): (mounts: seq<Mount>)
    ensures |mounts| == |ordered|
    ensures forall k | 0 <= k < |ordered| :: mounts[k] == Resolved(host, ordered[k])
  {
    seq(|ordered|, k requires 0 <= k < |ordered| => Resolved(host, ordered[k]))
  }

  predicate Usable(host: Host, entry: Declared) {
    var source := host.resolve(entry.source);
    && entry.absolute && ".." !in entry.destination
    && host.present(source)
    && (host.regular(source) || host.device(source) || host.directory(source))
  }

  /** `path` lies at or below the mount's destination. */
  predicate Covers(mount: Mount, path: Path) {
    mount.destination <= path
  }

  /** Where a covering mount says `path` lives on the host. */
  function HostPath(host: Host, mount: Mount, path: Path): Path
    requires Covers(mount, path)
  {
    host.resolve(mount.source + path[|mount.destination|..])
  }

  /** Python's order on pairs. */
  predicate Below(a: (nat, nat), b: (nat, nat)) {
    a.0 < b.0 || (a.0 == b.0 && a.1 < b.1)
  }

  /** `max(filter(keep, items), key=rank)`: the first element of highest rank, or -1. */
  function FirstHighest<T>(items: seq<T>, keep: T -> bool, rank: T -> (nat, nat)): (best: int)
    ensures -1 <= best < |items|
    ensures best == -1 <==> forall k | 0 <= k < |items| :: !keep(items[k])
    ensures best >= 0 ==>
              && keep(items[best])
              && (forall k | 0 <= k < |items| && keep(items[k]) :: !Below(rank(items[best]), rank(items[k])))
              && (forall k | 0 <= k < best && keep(items[k]) :: Below(rank(items[k]), rank(items[best])))
  {
    if items == [] then -1 else
      var last := |items| - 1;
      var best := FirstHighest(items[..last], keep, rank);
      assert forall k | 0 <= k < last :: items[..last][k] == items[k];
      if keep(items[last]) && (best == -1 || Below(rank(items[best]), rank(items[last]))) then last else best
  }

  /** `max(parents, key=depth)`: the deepest of the mounts covering `path`, or -1. */
  function Deepest(mounts: seq<Mount>, path: Path): (best: int)
    ensures -1 <= best < |mounts|
    ensures best == -1 <==> forall k | 0 <= k < |mounts| :: !Covers(mounts[k], path)
    ensures best >= 0 ==>
              && Covers(mounts[best], path)
              && (forall k | 0 <= k < |mounts| && Covers(mounts[k], path) ::
                    |mounts[k].destination| <= |mounts[best].destination|)
  {
    FirstHighest(mounts, m => Covers(m, path), (m: Mount) => (|m.destination|, 0))
  }

  /** Bubblewrap applies the stack in order, so the last covering mount is the visible one. */
  function LastApplied(mounts: seq<Mount>, path: Path): (top: int)
    ensures -1 <= top < |mounts|
    ensures top == -1 <==> forall k | 0 <= k < |mounts| :: !Covers(mounts[k], path)
    ensures top >= 0 ==>
              && Covers(mounts[top], path)
              && forall k | top < k < |mounts| :: !Covers(mounts[k], path)
  {
    if mounts == [] then -1 else
      var last := |mounts| - 1;
      if Covers(mounts[last], path) then last else LastApplied(mounts[..last], path)
  }

  /** `mount` may be applied on top of `below`. */
  predicate Fits(host: Host, below: seq<Mount>, mount: Mount) {
    && (forall k | 0 <= k < |below| :: !(mount.destination <= below[k].destination))
    && var parent := Deepest(below, mount.destination);
       parent >= 0 ==>
         && !below[parent].isFile
         && mount.source == HostPath(host, below[parent], mount.destination)
  }

  /** An accepted stack: every mount fits on the ones applied before it. */
  ghost predicate Stacked(host: Host, mounts: seq<Mount>) {
    forall j | 0 <= j < |mounts| :: Fits(host, mounts[..j], mounts[j])
  }

  ghost predicate Acceptable(host: Host, ordered: seq<Declared>) {
    && (forall j | 0 <= j < |ordered| :: Usable(host, ordered[j]))
    && Stacked(host, ResolvedAll(host, ordered))
  }

  /** `entry` breaks the rule behind `fault` when it is applied on top of `below`. */
  ghost predicate Rejects(host: Host, below: seq<Mount>, entry: Declared, fault: MountFault) {
    var mount := Resolved(host, entry);
    var clash := k => 0 <= k < |below| && mount.destination <= below[k].destination;
    match fault
    case BadDestination => !entry.absolute || ".." in entry.destination
    case MissingSource => !host.present(mount.source)
    case BadSourceKind => !mount.isFile && !host.directory(mount.source)
    case Duplicate => exists k :: clash(k) && mount.destination == below[k].destination
    case HidesEarlier => exists k :: clash(k) && mount.destination != below[k].destination
    case InsideFile =>
      var parent := Deepest(below, mount.destination);
      parent >= 0 && below[parent].isFile
    case NestedMismatch =>
      var parent := Deepest(below, mount.destination);
      parent >= 0 && mount.source != HostPath(host, below[parent], mount.destination)
  }

  /** The place of a rule in the order of the checks; the two rules about earlier mounts are checked
      mount by mount. */
  function Rank(fault: MountFault): nat {
    match fault
    case BadDestination => 0
    case MissingSource => 1
    case BadSourceKind => 2
    case Duplicate => 3
    case HidesEarlier => 3
    case InsideFile => 4
    case NestedMismatch => 5
  }

  /** `fault` is the first rule that `entry` breaks. */
  ghost predicate FirstFault(host: Host, below: seq<Mount>, entry: Declared, fault: MountFault) {
    && Rejects(host, below, entry, fault)
    && forall other: MountFault | Rank(other) < Rank(fault) :: !Rejects(host, below, entry, other)
  }

  datatype Rejection = Rejection(at: nat, fault: MountFault)

  /** The entries before the rejected one are acceptable, and it breaks `fault` first. */
  ghost predicate FirstRejected(host: Host, ordered: seq<Declared>, rejection: Rejection) {
    && rejection.at < |ordered|
    && Acceptable(host, ordered[..rejection.at])
    && FirstFault(host, ResolvedAll(host, ordered[..rejection.at]), ordered[rejection.at], rejection.fault)
  }

  /** The checks on one entry, in order. */
  method Check(host: Host, effective: seq<Mount>, entry: Declared) returns (r: Result<Mount, MountFault>)
    ensures r.Success? <==> Usable(host, entry) && Fits(host, effective, Resolved(host, entry))
    ensures r.Success? ==> r.value == Resolved(host, entry)
    ensures r.Failure? ==> FirstFault(host, effective, entry, r.error)
  {
    if !entry.absolute || ".." in entry.destination {
      return Failure(BadDestination);
    }
    var point := Resolved(host, entry);
    if !host.present(point.source) {
      return Failure(MissingSource);
    }
    if !point.isFile && !host.directory(point.source) {
      return Failure(BadSourceKind);
    }
    for k := 0 to |effective|
      invariant forall i | 0 <= i < k :: !(point.destination <= effective[i].destination)
    {
      if effective[k].destination == point.destination {
        return Failure(Duplicate);
      }
      if point.destination <= effective[k].destination {
        return Failure(HidesEarlier);
      }
    }
    var parent := Deepest(effective, point.destination);
    if parent >= 0 {
      if effective[parent].isFile {
        return Failure(InsideFile);
      }
      if point.source != HostPath(host, effective[parent], point.destination) {
        return Failure(NestedMismatch);
      }
    }
    return Success(point);
  }

  /** Accepts exactly the acceptable stacks, and names the first entry that breaks one. */
  method MountPoints(host: Host, ordered: seq<Declared>) returns (r: Result<seq<Mount>, Rejection>)
    ensures r.Success? <==> Acceptable(host, ordered)
    ensures r.Success? ==> r.value == ResolvedAll(host, ordered)
    ensures r.Failure? ==> FirstRejected(host, ordered, r.error)
  {
    var effective: seq<Mount> := [];
    for j := 0 to |ordered|
      invariant effective == ResolvedAll(host, ordered[..j])
      invariant Acceptable(host, ordered[..j])
    {
      AcceptOne(host, ordered, j);
      var point := Check(host, effective, ordered[j]);
      if point.Failure? {
        return Failure(Rejection(j, point.error));
      }
      effective := effective + [point.value];
    }
    assert ordered[..|ordered|] == ordered;
    return Success(effective);
  }

  /** One more entry keeps a stack acceptable exactly when it is usable and fits; an entry
      that does not, breaks every longer stack. */
  lemma AcceptOne(host: Host, ordered: seq<Declared>, j: nat)
    requires j < |ordered| && Acceptable(host, ordered[..j])
    ensures ResolvedAll(host, ordered[..j + 1]) ==
            ResolvedAll(host, ordered[..j]) + [Resolved(host, ordered[j])]
    ensures var good := Usable(host, ordered[j]) &&
                        Fits(host, ResolvedAll(host, ordered[..j]), Resolved(host, ordered[j]));
            (good ==> Acceptable(host, ordered[..j + 1])) && (!good ==> !Acceptable(host, ordered))
  {
    var below := ResolvedAll(host, ordered[..j]);
    var mount := Resolved(host, ordered[j]);
    assert ResolvedAll(host, ordered[..j + 1]) == below + [mount];
    StackedAppend(host, below, mount);
    var whole := ResolvedAll(host, ordered);
    assert whole[..j] == below && whole[j] == mount;
    assert forall i | 0 <= i < j :: ordered[..j + 1][i] == ordered[..j][i];
  }

  lemma StackedAppend(host: Host, below: seq<Mount>, mount: Mount)
    requires Stacked(host, below)
    ensures Stacked(host, below + [mount]) <==> Fits(host, below, mount)
  {
    var longer := below + [mount];
    assert longer[..|below|] == below;
    forall i | 0 <= i < |below|
      ensures Fits(host, longer[..i], longer[i])
    {
      assert longer[..i] == below[..i];
    }
  }

  /** A later mount is never at or above an earlier one. */
  lemma LaterIsNotAbove(host: Host, mounts: seq<Mount>, i: nat, j: nat)
    requires Stacked(host, mounts) && i < j < |mounts|
    ensures !(mounts[j].destination <= mounts[i].destination)
  {
    assert Fits(host, mounts[..j], mounts[j]);
    assert mounts[..j][i] == mounts[i];
  }

  /** Of two mounts covering one path, the later one is strictly deeper. */
  lemma CoveringOrder(host: Host, mounts: seq<Mount>, path: Path, i: nat, j: nat)
    requires Stacked(host, mounts) && i < j < |mounts|
    requires Covers(mounts[i], path) && Covers(mounts[j], path)
    ensures mounts[i].destination < mounts[j].destination
  {
    LaterIsNotAbove(host, mounts, i, j);
    PrefixesAreOrdered(mounts[i].destination, mounts[j].destination, path);
  }

  lemma PrefixesAreOrdered(a: Path, b: Path, whole: Path)
    requires a <= whole && b <= whole
    ensures a <= b || b <= a
  {
    if |a| <= |b| {
      assert a == whole[..|a|] == b[..|a|];
    } else {
      assert b == whole[..|b|] == a[..|b|];
    }
  }

  lemma DeepestIsUnique(host: Host, mounts: seq<Mount>, path: Path, j: nat)
    requires Stacked(host, mounts) && j < |mounts| && Covers(mounts[j], path)
    requires forall k | 0 <= k < |mounts| && Covers(mounts[k], path) ::
               |mounts[k].destination| <= |mounts[j].destination|
    ensures j == Deepest(mounts, path) == LastApplied(mounts, path)
  {
    var best := Deepest(mounts, path);
    var top := LastApplied(mounts, path);
    if best < j { CoveringOrder(host, mounts, path, best, j); }
    if j < best { CoveringOrder(host, mounts, path, j, best); }
    if j < top { CoveringOrder(host, mounts, path, j, top); }
  }

  /** The deepest covering mount of an accepted stack is the one applied last. */
  lemma DeepestIsLastApplied(host: Host, mounts: seq<Mount>, path: Path)
    requires Stacked(host, mounts)
    ensures Deepest(mounts, path) == LastApplied(mounts, path)
  {
    var best := Deepest(mounts, path);
    if best >= 0 {
      DeepestIsUnique(host, mounts, path, best);
    }
  }

  /** All mounts that cover a path send it to the same host path, so they can only differ
      in permission. */
  lemma {:induction false} CoveringMountsAgree(host: Host, mounts: seq<Mount>, path: Path, i: nat, j: nat)
    requires ThroughLaw(host) && Stacked(host, mounts)
    requires i <= j < |mounts| && Covers(mounts[i], path) && Covers(mounts[j], path)
    ensures HostPath(host, mounts[i], path) == HostPath(host, mounts[j], path)
    decreases j
  {
    if i < j {
      var p := NestingParent(host, mounts, path, i, j);
      NestedAgrees(host, mounts[p], mounts[j], path);
      CoveringMountsAgree(host, mounts, path, i, p);
    }
  }

  /** The mount whose contents the `j`th mount was checked against. */
  lemma NestingParent(host: Host, mounts: seq<Mount>, path: Path, i: nat, j: nat) returns (p: nat)
    requires Stacked(host, mounts)
    requires i < j < |mounts| && Covers(mounts[i], path) && Covers(mounts[j], path)
    ensures i <= p < j && Covers(mounts[p], path) && Covers(mounts[p], mounts[j].destination)
    ensures mounts[j].source == HostPath(host, mounts[p], mounts[j].destination)
  {
    var below := mounts[..j];
    var destination := mounts[j].destination;
    CoveringOrder(host, mounts, path, i, j);
    assert Covers(below[i], destination);
    assert Fits(host, below, mounts[j]);
    p := Deepest(below, destination);
    assert below[p] == mounts[p];
    if p < i {
      CoveringOrder(host, mounts, destination, p, i);
    }
  }

  /** One nesting step of the agreement. */
  lemma NestedAgrees(host: Host, parent: Mount, inner: Mount, path: Path)
    requires ThroughLaw(host)
    requires Covers(parent, inner.destination) && Covers(inner, path)
    requires inner.source == HostPath(host, parent, inner.destination)
    ensures Covers(parent, path)
    ensures HostPath(host, inner, path) == HostPath(host, parent, path)
  {
    var down := inner.destination[|parent.destination|..];
    var rest := path[|inner.destination|..];
    assert path == inner.destination + rest;
    assert path[|parent.destination|..] == down + rest;
    assert parent.source + (down + rest) == (parent.source + down) + rest;
    assert ResolvesThrough(host, parent.source + down, rest);
  }
}
