/** Deleting through a routed path never removes a mount source. */
module Deletion {
  import opened Paths
  import opened Results
  import opened Mounts
  import opened Routing
  import opened Mutation

  function LastSlash(key: string): (at: nat)
    requires Rooted(key)
    ensures at < |key| && key[at] == '/' && '/' !in key[at + 1..]
    decreases |key|
  {
    if key[|key| - 1] == '/' then |key| - 1
    else
      var at := LastSlash(key[..|key| - 1]);
      assert key[at + 1..] == key[..|key| - 1][at + 1..] + [key[|key| - 1]];
      at
  }

  predicate UnsafeKey(key: string)
    requires Rooted(key)
  {
    ".." in Split(key) || '~' in key || '\0' in key
  }

  datatype Unfollowed = Unfollowed(parent: Path, candidate: Path)

  /** `_unfollowed_host_path` for a key other than "/": the parent is resolved, the final
      component is not followed. */
  function UnfollowedPath(host: Host, mount: Mount, key: string): Option<Unfollowed>
    requires Rooted(key)
  {
    var at := LastSlash(key);
    var name := key[at + 1..];
    if UnsafeKey(key) || name in ["", ".", ".."] then None else
      match Locate(host, mount, if at == 0 then "/" else key[..at])
      case None => None
      case Some(parent) => Some(Unfollowed(parent, parent + [name]))
  }

  /** `_deletion_removes_mount_source` */
  predicate RemovesSource(host: Host, mounts: seq<Mount>, place: Path) {
    exists k | 0 <= k < |mounts| :: host.resolve(place) <= mounts[k].source
  }

  /** `_is_mount_virtual` */
  predicate IsMountVirtual(mounts: seq<Mount>, text: string) {
    exists k | 0 <= k < |mounts| :: StripSlashes(Posix(mounts[k].destination)) == StripSlashes(text)
  }

  datatype DeletePlan =
    | Unroutable | IsMount | OutsideMount | Protected
    | Unlink(link: Path) | Remove(target: Path)

  /** `delete`, up to the file-system call it ends in. */
  function PlanDelete(host: Host, mounts: seq<Mount>, text: string): DeletePlan {
    match Lookup(SortedRoutes(mounts), text)
    case None => Unroutable
    case Some(backend) => PlanRouted(host, mounts, backend, RoutePoint(mounts, text), text)
  }

  function PlanRouted(host: Host, mounts: seq<Mount>, backend: Mount, route: int, text: string): DeletePlan
    requires route < |mounts| && Routes(backend, text)
  {
    var key := BackendKey(backend, text);
    if IsMountVirtual(mounts, text) || key == "/" then IsMount else
      match UnfollowedPath(host, backend, key)
      case None => OutsideMount
      case Some(found) => Decide(host, mounts, backend, route, key, found)
  }

  /** The checks of `delete` once the candidate is known. */
  function Decide(host: Host, mounts: seq<Mount>, backend: Mount, route: int, key: string,
                  found: Unfollowed): DeletePlan
    requires route < |mounts| && Rooted(key)
  {
    var owner := if route >= 0 then MoreSpecific(mounts, mounts[route], found.parent) else -1;
    if owner >= 0 && mounts[owner].readOnly then Protected
    else if host.symlink(found.candidate) then
      if backend.readOnly then Protected else Unlink(found.candidate)
    else if RemovesSource(host, mounts, found.candidate) then IsMount
    else if backend.readOnly then Protected
    else if backend.isFile then IsMount
    else
      match Locate(host, backend, key)
      case None => OutsideMount
      case Some(target) => Remove(target)
  }

  /** The host tree once the plan has run. */
  ghost function After(tree: set<Path>, plan: DeletePlan): set<Path> {
    match plan
    case Unlink(link) => tree - {link}
    case Remove(target) => set p | p in tree && !(target <= p)
    case _ => tree
  }

  lemma NameEndsBefore(key: string, at: nat)
    requires Rooted(key) && 0 < at < |key| && key[at] == '/'
    ensures NameEnd(key, 1) <= at
  {
    assert forall k | 1 <= k < NameEnd(key, 1) :: key[k] in key[1..NameEnd(key, 1)];
  }

  lemma NameEndsLast(key: string)
    requires Rooted(key) && '/' !in key[1..]
    ensures NameEnd(key, 1) == |key|
    ensures Split(key) == [key[1..]]
  {
    assert forall k | 1 <= k < |key| :: key[k] in key[1..];
    assert key[1..NameEnd(key, 1)] == key[1..] && key[NameEnd(key, 1)..] == "";
    assert Split(key) == [key[1..]] + Split("");
  }

  lemma {:induction false} SplitAtSlash(key: string, at: nat)
    requires Rooted(key) && at < |key| && key[at] == '/' && '/' !in key[at + 1..]
    ensures key[..at] == "" || Rooted(key[..at])
    ensures Split(key) == Split(key[..at]) + [key[at + 1..]]
    decreases |key|
  {
    if at == 0 {
      NameEndsLast(key);
    } else {
      hide Paths.Split, Paths.NameEnd;
      NameEndsBefore(key, at);
      HeadEnd(key, at);
      var end := NameEnd(key, 1);
      CutTwice(key, at, end);
      SplitFirst(key);
      SplitFirst(key[..at]);
      SplitAtSlash(key[end..], at - end);
    }
  }

  lemma CutTwice(key: string, at: nat, end: nat)
    requires 1 <= end <= at < |key|
    ensures key[..at][1..end] == key[1..end]
    ensures key[end..][at - end] == key[at] && key[end..][at - end + 1..] == key[at + 1..]
    ensures key[end..][..at - end] == key[..at][end..]
  {
  }

  lemma SplitFirst(text: string)
    requires Rooted(text)
    ensures Split(text) == [text[1..NameEnd(text, 1)]] + Split(text[NameEnd(text, 1)..])
  {
  }

  lemma HeadEnd(key: string, at: nat)
    requires Rooted(key) && 0 < at < |key| && NameEnd(key, 1) <= at
    ensures NameEnd(key[..at], 1) == NameEnd(key, 1)
  {
    var head, end, cut := key[..at], NameEnd(key, 1), NameEnd(key[..at], 1);
    assert forall k | 1 <= k < end :: key[k] in key[1..end];
    assert forall k | 1 <= k < cut :: head[k] in head[1..cut];
    assert cut < at ==> head[cut] == key[cut];
    assert end < at ==> head[end] == key[end];
  }

  lemma {:induction false} KeepPartsAppend(left: Path, name: string)
    requires IsName(name)
    ensures KeepParts(left + [name]) == KeepParts(left) + [name]
  {
    if left == [] {
      assert [] + [name] == [name];
    } else {
      assert (left + [name])[1..] == left[1..] + [name];
      KeepPartsAppend(left[1..], name);
    }
  }

  function ParentKey(key: string): (parent: string)
    requires Rooted(key)
    ensures Rooted(parent)
  {
    var at := LastSlash(key);
    if at == 0 then "/" else key[..at]
  }

  lemma ParentKeyParts(key: string)
    requires Rooted(key) && IsName(key[LastSlash(key) + 1..])
    ensures KeyParts(key) == KeyParts(ParentKey(key)) + [key[LastSlash(key) + 1..]]
  {
    var at := LastSlash(key);
    var name := key[at + 1..];
    var left := key[..at];
    SplitAtSlash(key, at);
    KeepPartsAppend(Split(left), name);
    assert KeyParts(key) == KeyParts(left) + [name];
    assert KeyParts(ParentKey(key)) == KeyParts(left) by {
      if at == 0 {
        PosixKeyParts([]);
        assert left == "";
      }
    }
  }

  /** The key of the backend resolves to the candidate that was checked. */
  lemma KeyIsCandidate(host: Host, mount: Mount, key: string)
    requires ThroughLaw(host) && StayLaw(host)
    requires !mount.isFile && Rooted(key)
    requires UnfollowedPath(host, mount, key).Some?
    requires !host.symlink(UnfollowedPath(host, mount, key).value.candidate)
    ensures var found := UnfollowedPath(host, mount, key).value;
            && host.resolve(found.candidate) == found.candidate
            && host.resolve(mount.source + KeyParts(key)) == found.candidate
            && mount.source <= found.candidate
  {
    hide KeyParts, ParentKey, UnfollowedPath;
    var found := UnfollowedPath(host, mount, key).value;
    var name := key[LastSlash(key) + 1..];
    var parentKey := ParentKey(key);
    UnfollowedMeans(host, mount, key);
    ParentKeyParts(key);
    LocatedIsResolved(host, mount, parentKey);
    assert StaysPut(host, found.parent, name);
    var above := mount.source + KeyParts(parentKey);
    assert host.resolve(above) == found.parent;
    assert ResolvesThrough(host, above, [name]);
    assert above + [name] == mount.source + KeyParts(key);
  }

  /** What the backend removes is the candidate that was checked, unless it refuses the key. */
  lemma RemovedIsCandidate(host: Host, mount: Mount, key: string)
    requires ThroughLaw(host) && ProperLaw(host) && StayLaw(host)
    requires !mount.isFile && Rooted(key)
    requires UnfollowedPath(host, mount, key).Some?
    requires !host.symlink(UnfollowedPath(host, mount, key).value.candidate)
    ensures var found := UnfollowedPath(host, mount, key).value;
            && host.resolve(found.candidate) == found.candidate
            && Locate(host, mount, key) == if host.refuses(key) then None else Some(found.candidate)
  {
    hide KeyParts, UnfollowedPath;
    KeyIsCandidate(host, mount, key);
  }

  /** The parent is located, and the candidate is the name below it. */
  lemma UnfollowedMeans(host: Host, mount: Mount, key: string)
    requires Rooted(key) && UnfollowedPath(host, mount, key).Some?
    ensures var found, name := UnfollowedPath(host, mount, key).value, key[LastSlash(key) + 1..];
            && Locate(host, mount, ParentKey(key)) == Some(found.parent)
            && found.candidate == found.parent + [name]
            && IsName(name) && name != ".."
  {
    hide Locate, UnsafeKey, LastSlash;
    var name := key[LastSlash(key) + 1..];
    assert name !in ["", ".", ".."];
  }

  /** An admitted delete leaves every mount source in place, whether it removes a tree or
      unlinks a symlink, and it only removes what its owner mount lets it write. */
  lemma DeleteKeepsMounts(host: Host, mounts: seq<Mount>, text: string, tree: set<Path>)
    requires ThroughLaw(host) && ProperLaw(host) && StayLaw(host)
    requires Served(host, mounts) && Rooted(text)
    ensures (forall k | 0 <= k < |mounts| :: mounts[k].source in tree) ==>
              forall k | 0 <= k < |mounts| :: mounts[k].source in After(tree, PlanDelete(host, mounts, text))
    ensures var top := LastApplied(mounts, Components(text));
            top >= 0 ==> Permitted(host, mounts, mounts[top], PlanDelete(host, mounts, text))
  {
    hide PlanDelete, Permitted, Served, LastApplied;
    var plan := PlanDelete(host, mounts, text);
    PlanSpares(host, mounts, text, plan);
  }

  lemma PlanSpares(host: Host, mounts: seq<Mount>, text: string, plan: DeletePlan)
    requires ThroughLaw(host) && ProperLaw(host) && StayLaw(host)
    requires Served(host, mounts) && Rooted(text) && plan == PlanDelete(host, mounts, text)
    ensures Spares(mounts, plan)
    ensures var top := LastApplied(mounts, Components(text));
            top >= 0 ==> Permitted(host, mounts, mounts[top], plan)
  {
    RoutePointIsRoute(host, mounts, text);
    var top := LastApplied(mounts, Components(text));
    if top >= 0 {
      PlanOnRoute(host, mounts, top, text);
      RoutedKeepsMounts(host, mounts, top, text);
    }
  }

  lemma PlanOnRoute(host: Host, mounts: seq<Mount>, top: nat, text: string)
    requires top < |mounts| && RoutePoint(mounts, text) == top
    requires Lookup(SortedRoutes(mounts), text) == Some(mounts[top])
    ensures Routes(mounts[top], text)
    ensures PlanDelete(host, mounts, text) == PlanRouted(host, mounts, mounts[top], top, text)
  {
  }

  lemma RoutedKeepsMounts(host: Host, mounts: seq<Mount>, top: nat, text: string)
    requires ThroughLaw(host) && ProperLaw(host) && StayLaw(host)
    requires top < |mounts| && Routes(mounts[top], text)
    requires forall k | 0 <= k < |mounts| :: host.resolve(mounts[k].source) == mounts[k].source
    ensures var plan := PlanRouted(host, mounts, mounts[top], top, text);
            Spares(mounts, plan) && Permitted(host, mounts, mounts[top], plan)
  {
    var key := BackendKey(mounts[top], text);
    if UnfollowedPath(host, mounts[top], key).Some? {
      DecideKeepsMounts(host, mounts, top, key);
    }
  }

  ghost predicate Spares(mounts: seq<Mount>, plan: DeletePlan) {
    forall k | 0 <= k < |mounts| ::
      && (plan.Unlink? ==> mounts[k].source != plan.link)
      && (plan.Remove? ==> !(plan.target <= mounts[k].source))
  }

  ghost predicate Permitted(host: Host, mounts: seq<Mount>, route: Mount, plan: DeletePlan) {
    && (plan.Unlink? ==>
          && plan.link != [] && host.symlink(plan.link)
          && !route.readOnly && !Owner(mounts, route, plan.link[..|plan.link| - 1]).readOnly)
    && (plan.Remove? ==>
          && !route.readOnly && !Owner(mounts, route, plan.target).readOnly
          && host.resolve(plan.target) == plan.target && !host.symlink(plan.target))
  }

  lemma DecideKeepsMounts(host: Host, mounts: seq<Mount>, top: nat, key: string)
    requires ThroughLaw(host) && ProperLaw(host) && StayLaw(host)
    requires top < |mounts| && Rooted(key)
    requires forall k | 0 <= k < |mounts| :: host.resolve(mounts[k].source) == mounts[k].source
    requires UnfollowedPath(host, mounts[top], key).Some?
    ensures var found := UnfollowedPath(host, mounts[top], key).value;
            var plan := Decide(host, mounts, mounts[top], top, key, found);
            Spares(mounts, plan) && Permitted(host, mounts, mounts[top], plan)
  {
    var found := UnfollowedPath(host, mounts[top], key).value;
    var plan := Decide(host, mounts, mounts[top], top, key, found);
    if plan.Unlink? {
      assert ProperlyResolved(host, plan.link);
    } else if plan.Remove? {
      RemovedIsCandidate(host, mounts[top], key);
      SameOwner(mounts, mounts[top], found.parent, plan.target);
    }
  }

  /** A location that holds no mount source has the owner of its parent directory. */
  lemma SameOwner(mounts: seq<Mount>, route: Mount, parent: Path, target: Path)
    requires |target| == |parent| + 1 && parent == target[..|parent|]
    requires forall k | 0 <= k < |mounts| :: !(target <= mounts[k].source)
    ensures MoreSpecific(mounts, route, parent) == MoreSpecific(mounts, route, target)
  {
    forall k | 0 <= k < |mounts|
      ensures Nested(route, mounts[k], parent) <==> Nested(route, mounts[k], target)
    {
      var source := mounts[k].source;
      if source <= target && |source| <= |parent| {
        assert source == target[..|source|] == parent[..|source|];
      }
      if source <= parent {
        assert source == parent[..|source|] == target[..|source|];
      }
    }
    var a, b := MoreSpecific(mounts, route, parent), MoreSpecific(mounts, route, target);
    SameChoice(mounts, p => Nested(route, p, parent), p => Nested(route, p, target));
  }

  lemma SameChoice(mounts: seq<Mount>, keep: Mount -> bool, same: Mount -> bool)
    requires forall k | 0 <= k < |mounts| :: keep(mounts[k]) == same(mounts[k])
    ensures FirstHighest(mounts, keep, Specificity) == FirstHighest(mounts, same, Specificity)
  {
    var a := FirstHighest(mounts, keep, Specificity);
    var b := FirstHighest(mounts, same, Specificity);
    if 0 <= a < b {
      assert false;
    } else if 0 <= b < a {
      assert false;
    }
  }

  /** Up to trailing slashes the text is the virtual path of a mount. */
  lemma IsMountVirtualIff(mounts: seq<Mount>, text: string)
    requires NamedStack(mounts) && Rooted(text)
    ensures IsMountVirtual(mounts, text) <==>
              exists k :: 0 <= k < |mounts| && Components(text) == mounts[k].destination
  {
    forall k | 0 <= k < |mounts|
      ensures StripSlashes(Posix(mounts[k].destination)) == StripSlashes(text) <==>
                Components(text) == mounts[k].destination
    {
      NamesOf(mounts[k].destination, text);
    }
  }

  lemma NamesOf(path: Path, text: string)
    requires WellNamed(path) && Rooted(text)
    ensures StripSlashes(Posix(path)) == StripSlashes(text) <==> Components(text) == path
  {
    StripText(path);
    SplitText(path);
    TextOfSplit(StripSlashes(text));
    if path != [] {
      TextEndsInName(path);
    }
  }

  /** Both the route and the mount that owns the parent directory may be written. */
  predicate Writable(mounts: seq<Mount>, route: Mount, parent: Path) {
    !route.readOnly && !Owner(mounts, route, parent).readOnly
  }

  /** What becomes of the candidate: a link that may be written is unlinked, and anything else is removed
      if it holds no mount source, lies in a mounted directory and its backend accepts the key; otherwise
      the reason that is given. */
  ghost predicate Decided(host: Host, mounts: seq<Mount>, route: Mount, key: string, found: Unfollowed,
                          plan: DeletePlan) {
    var writable := Writable(mounts, route, found.parent);
    var nested := MoreSpecific(mounts, route, found.parent);
    var shut := nested >= 0 && mounts[nested].readOnly;
    var link := host.symlink(found.candidate);
    var holds := exists k :: 0 <= k < |mounts| && found.candidate <= mounts[k].source;
    && (plan.Unlink? <==> writable && link)
    && (plan.Unlink? ==> plan.link == found.candidate)
    && (plan.Remove? <==> writable && !link && !holds && !route.isFile && !host.refuses(key))
    && (plan.Remove? ==> plan.target == found.candidate)
    && (plan.OutsideMount? <==> writable && !link && !holds && !route.isFile && host.refuses(key))
    && (plan.Protected? <==> shut || (route.readOnly && (link || !holds)))
    && (plan.IsMount? <==> !shut && !link && (holds || (!route.readOnly && route.isFile)))
  }

  /** Exactly which deletes are admitted, over all lawful hosts, served stacks and paths. */
  lemma DeleteIsAdmittedIff(host: Host, mounts: seq<Mount>, text: string)
    requires ThroughLaw(host) && ProperLaw(host) && StayLaw(host)
    requires Served(host, mounts) && Rooted(text)
    ensures var plan := PlanDelete(host, mounts, text);
            match Visible(mounts, text)
            case None => plan.Unroutable?
            case Some(route) =>
              && Routes(route, text)
              && var key := BackendKey(route, text);
                 if key == "/" || IsMountVirtual(mounts, text) then plan.IsMount?
                 else match UnfollowedPath(host, route, key) {
                   case None => plan.OutsideMount?
                   case Some(found) => Decided(host, mounts, route, key, found, plan)
                 }
  {
    hide Decide, Decided, Served, UnfollowedPath, IsMountVirtual, LastApplied, Routes;
    RouteOfDelete(host, mounts, text);
    var top := LastApplied(mounts, Components(text));
    if top >= 0 {
      PlanOnRoute(host, mounts, top, text);
      var key := BackendKey(mounts[top], text);
      if UnfollowedPath(host, mounts[top], key).Some? {
        SourcesAreFixed(host, mounts);
        DecisionIs(host, mounts, top, key);
      }
    }
  }

  lemma RouteOfDelete(host: Host, mounts: seq<Mount>, text: string)
    requires Served(host, mounts) && Rooted(text)
    ensures RoutePoint(mounts, text) == LastApplied(mounts, Components(text))
    ensures Lookup(SortedRoutes(mounts), text) == Visible(mounts, text)
  {
    RoutePointIsRoute(host, mounts, text);
  }

  lemma SourcesAreFixed(host: Host, mounts: seq<Mount>)
    requires Served(host, mounts)
    ensures forall k | 0 <= k < |mounts| :: host.resolve(mounts[k].source) == mounts[k].source
  {
  }

  lemma DecisionIs(host: Host, mounts: seq<Mount>, top: nat, key: string)
    requires ThroughLaw(host) && ProperLaw(host) && StayLaw(host)
    requires top < |mounts| && Rooted(key) && host.resolve(mounts[top].source) == mounts[top].source
    requires UnfollowedPath(host, mounts[top], key).Some?
    ensures var found := UnfollowedPath(host, mounts[top], key).value;
            Decided(host, mounts, mounts[top], key, found, Decide(host, mounts, mounts[top], top, key, found))
  {
    hide UnfollowedPath, Locate, KeyParts;
    var route, found := mounts[top], UnfollowedPath(host, mounts[top], key).value;
    if !host.symlink(found.candidate) {
      CandidateIsFixed(host, route, key);
      if !route.isFile {
        RemovedIsCandidate(host, route, key);
      }
    }
  }

  /** A candidate that is no link is resolved, in a directory as in a mounted file. */
  lemma CandidateIsFixed(host: Host, mount: Mount, key: string)
    requires ThroughLaw(host) && StayLaw(host) && Rooted(key)
    requires UnfollowedPath(host, mount, key).Some?
    requires !host.symlink(UnfollowedPath(host, mount, key).value.candidate)
    ensures var found := UnfollowedPath(host, mount, key).value; host.resolve(found.candidate) == found.candidate
  {
    hide KeyParts, ParentKey;
    UnfollowedMeans(host, mount, key);
    var found, name := UnfollowedPath(host, mount, key).value, key[LastSlash(key) + 1..];
    LocatedIsResolved(host, mount, ParentKey(key));
    assert StaysPut(host, found.parent, name);
  }

  /** Which keys have an unfollowed location: those of proper names whose parent is located. */
  lemma UnfollowedIff(host: Host, mount: Mount, key: string)
    requires Rooted(key)
    ensures UnfollowedPath(host, mount, key).Some? <==>
              && ".." !in Split(key) && '~' !in key && '\0' !in key
              && IsName(key[LastSlash(key) + 1..])
              && Locate(host, mount, ParentKey(key)).Some?
  {
    hide Locate, LastSlash, Split;
    var at := LastSlash(key);
    SplitAtSlash(key, at);
    var name := key[at + 1..];
    assert Split(key)[|Split(key)| - 1] == name;
    assert name == ".." ==> ".." in Split(key);
  }
}
