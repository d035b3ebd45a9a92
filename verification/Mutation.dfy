/** Which backend may write or delete a routed path (restricted mode). */
module Mutation {
  import opened Paths
  import opened Results
  import opened Mounts
  import opened Routing

  function KeepParts(parts: Path): (kept: Path)
    ensures WellNamed(parts) ==> kept == parts
  {
    if parts == [] then []
    else if parts[0] == "" || parts[0] == "." then KeepParts(parts[1..])
    else
      assert parts == [parts[0]] + parts[1..];
      [parts[0]] + KeepParts(parts[1..])
  }

  /** `pathlib` drops empty and "." components of a backend key. */
  function KeyParts(key: string): Path
    requires key == "" || Rooted(key)
  {
    KeepParts(Split(key))
  }

  /** The backend of a mounted file works on its directory, which may refuse the file's own name. */
  predicate RefusesOwn(host: Host, mount: Mount) {
    mount.source != [] && host.refuses("/" + mount.source[|mount.source| - 1])
  }

  /** `_resolve_path` of the backend mounted at `mount`: the resolved host path, or an error
      when the key is refused or leads out of the mount. */
  function Locate(host: Host, mount: Mount, key: string): (r: Option<Path>)
    requires Rooted(key)
    ensures r.Some? ==> mount.source <= r.value || mount.isFile
  {
    if mount.isFile then
      var exact := mount.source != [] && key == "/" + mount.source[|mount.source| - 1];
      if (key == "/" || exact) && !RefusesOwn(host, mount) then Some(host.resolve(mount.source)) else None
    else
      var actual := host.resolve(mount.source + KeyParts(key));
      if !host.refuses(key) && mount.source <= actual then Some(actual) else None
  }

  /** `point` is mounted below the route from a different directory that holds `actual`. */
  predicate Nested(route: Mount, point: Mount, actual: Path) {
    && point.destination != route.destination
    && route.destination <= point.destination
    && point.source != route.source
    && route.source <= point.source
    && point.source <= actual
  }

  function Specificity(mount: Mount): (nat, nat) {
    (|mount.source|, |mount.destination|)
  }

  /** `_more_specific_mount` */
  function MoreSpecific(mounts: seq<Mount>, route: Mount, actual: Path): (owner: int)
    ensures -1 <= owner < |mounts|
    ensures owner == -1 <==> forall k | 0 <= k < |mounts| :: !Nested(route, mounts[k], actual)
    ensures owner >= 0 ==>
              && Nested(route, mounts[owner], actual)
              && forall k | 0 <= k < |mounts| && Nested(route, mounts[k], actual) ::
                   !Below(Specificity(mounts[owner]), Specificity(mounts[k]))
  {
    FirstHighest(mounts, point => Nested(route, point, actual), Specificity)
  }

  /** The mount whose permission governs `actual` when it was reached through `route`. */
  function Owner(mounts: seq<Mount>, route: Mount, actual: Path): Mount {
    var owner := MoreSpecific(mounts, route, actual);
    if owner >= 0 then mounts[owner] else route
  }

  /** The virtual path under `owner` that names the host path `actual`. */
  function OwnerVirtual(owner: Mount, actual: Path): string
    requires owner.source <= actual
  {
    Posix(owner.destination) + Text(actual[|owner.source|..])
  }

  datatype Plan = Unrouted | Escapes | ReadOnly | Write(mount: Mount, key: string)

  /** `_mutation_plan_unprotected` */
  function MutationPlan(host: Host, mounts: seq<Mount>, text: string): Plan {
    match Lookup(SortedRoutes(mounts), text)
    case None => Unrouted
    case Some(backend) =>
      var key := BackendKey(backend, text);
      match Locate(host, backend, key)
      case None => Escapes
      case Some(actual) => PlanAt(mounts, RoutePoint(mounts, text), backend, key, actual)
  }

  /** The choice of the writing backend once the location is known. */
  function PlanAt(mounts: seq<Mount>, route: int, backend: Mount, key: string, actual: Path): Plan
    requires route < |mounts|
  {
    var owner := if route >= 0 then MoreSpecific(mounts, mounts[route], actual) else -1;
    if owner >= 0 then
      if mounts[owner].readOnly then ReadOnly else
        var virtual := OwnerVirtual(mounts[owner], actual);
        match Lookup(SortedRoutes(mounts), virtual) {
          case None => Unrouted
          case Some(target) => Write(target, BackendKey(target, virtual))
        }
    else if backend.readOnly then ReadOnly
    else Write(backend, key)
  }

  /** A stack `MountPoints` accepted, with no mount at "/" and every source resolved. */
  ghost predicate Served(host: Host, mounts: seq<Mount>) {
    && Stacked(host, mounts) && NamedStack(mounts) && RootFree(mounts)
    && forall k | 0 <= k < |mounts| :: host.resolve(mounts[k].source) == mounts[k].source
  }

  lemma ResolvedIsFixed(host: Host, path: Path)
    requires ThroughLaw(host)
    ensures host.resolve(host.resolve(path)) == host.resolve(path)
  {
    assert ResolvesThrough(host, path, []);
    assert host.resolve(path) + [] == host.resolve(path) && path + [] == path;
  }

  lemma PrefixIsFixed(host: Host, prefix: Path, path: Path)
    requires PrefixLaw(host) && host.resolve(path) == path && prefix <= path
    ensures host.resolve(prefix) == prefix
  {
    var rest := path[|prefix|..];
    assert path == prefix + rest;
    assert PrefixResolved(host, prefix, rest);
  }

  /** What the plans below assume is what `MountPoints` guarantees. */
  lemma AcceptedIsServed(host: Host, ordered: seq<Declared>)
    requires ThroughLaw(host) && Acceptable(host, ordered)
    requires forall k | 0 <= k < |ordered| :: WellNamed(ordered[k].destination) && ordered[k].destination != []
    ensures Served(host, ResolvedAll(host, ordered))
  {
    forall k | 0 <= k < |ordered| {
      ResolvedIsFixed(host, ordered[k].source);
    }
  }

  /** Nothing below the owner covers the owner's own virtual path more deeply. */
  lemma OwnerIsVisible(host: Host, mounts: seq<Mount>, route: Mount, actual: Path)
    requires ThroughLaw(host) && PrefixLaw(host)
    requires Served(host, mounts) && host.resolve(actual) == actual
    requires MoreSpecific(mounts, route, actual) >= 0
    ensures var owner := mounts[MoreSpecific(mounts, route, actual)];
            var path := owner.destination + actual[|owner.source|..];
            LastApplied(mounts, path) == MoreSpecific(mounts, route, actual)
  {
    var o := MoreSpecific(mounts, route, actual);
    var owner := mounts[o];
    var path := owner.destination + actual[|owner.source|..];
    assert Covers(owner, path);
    var top := LastApplied(mounts, path);
    if top != o {
      CoveringOrder(host, mounts, path, o, top);
      DeeperMountIsDeeperSource(host, mounts, actual, o, top);
      assert Nested(route, mounts[top], actual);
      assert false;
    }
  }

  lemma DeeperMountIsDeeperSource(host: Host, mounts: seq<Mount>, actual: Path, o: nat, top: nat)
    requires ThroughLaw(host) && PrefixLaw(host)
    requires Served(host, mounts) && host.resolve(actual) == actual
    requires o < top < |mounts| && mounts[o].source <= actual
    requires mounts[o].destination < mounts[top].destination
    requires mounts[top].destination <= mounts[o].destination + actual[|mounts[o].source|..]
    ensures mounts[o].source < mounts[top].source <= actual
  {
    hide Served;
    var owner, inner := mounts[o], mounts[top];
    var rest := actual[|owner.source|..];
    var down := inner.destination[|owner.destination|..];
    assert HostPath(host, owner, inner.destination) == inner.source by {
      SameHostPath(host, mounts, o, top);
    }
    DownIsPrefix(owner.destination, inner.destination, rest);
    assert actual == owner.source + rest;
    MovedPrefix(owner.source, down, rest);
    PrefixIsFixed(host, owner.source + down, actual);
  }

  /** A mount agrees with the mounts above it on its own destination. */
  lemma SameHostPath(host: Host, mounts: seq<Mount>, o: nat, top: nat)
    requires ThroughLaw(host) && Served(host, mounts) && o < top < |mounts|
    requires mounts[o].destination < mounts[top].destination
    ensures HostPath(host, mounts[o], mounts[top].destination) == mounts[top].source
  {
    var inner := mounts[top];
    CoveringMountsAgree(host, mounts, inner.destination, o, top);
    assert inner.source + inner.destination[|inner.destination|..] == inner.source;
  }

  lemma DownIsPrefix(above: Path, inner: Path, rest: Path)
    requires above < inner <= above + rest
    ensures inner[|above|..] <= rest && inner[|above|..] != []
  {
    var down := inner[|above|..];
    assert down == (above + rest)[|above|..|inner|] == rest[..|down|];
  }

  lemma MovedPrefix(base: Path, down: Path, rest: Path)
    requires down <= rest && down != []
    ensures base < base + down <= base + rest
  {
    assert base + down == (base + rest)[..|base| + |down|];
  }

  lemma RoutedSuffix(owner: Mount, rest: Path)
    requires WellNamed(owner.destination) && owner.destination != []
    ensures var virtual := Text(owner.destination) + Text(rest);
            Routes(owner, virtual) && BackendKey(owner, virtual) == Posix(rest)
  {
    var base := Text(owner.destination);
    StripText(owner.destination);
    if rest == [] {
      assert base + "" == base;
    } else {
      var name := rest[0] + Text(rest[1..]);
      assert Text(rest) == "/" + name;
      assert base + Text(rest) == RouteKey(owner) + name;
      assert |RouteKey(owner) + name| > |base|;
    }
  }

  /** The virtual path of a location below `owner` routes to it with the location as key. */
  lemma VirtualRoundTrip(owner: Mount, rest: Path)
    requires WellNamed(owner.destination) && owner.destination != [] && WellNamed(rest)
    ensures var virtual := Posix(owner.destination) + Text(rest);
            && Rooted(virtual)
            && Components(virtual) == owner.destination + rest
            && Routes(owner, virtual)
            && BackendKey(owner, virtual) == Posix(rest)
  {
    RoutedSuffix(owner, rest);
    TextAppend(owner.destination, rest);
    ComponentsOfPosix(owner.destination + rest);
  }

  lemma PosixKeyParts(rest: Path)
    requires WellNamed(rest)
    ensures KeyParts(Posix(rest)) == rest
  {
    if rest == [] {
      assert "/"[1..1] == "" && "/"[1..] == "";
      assert Split("/") == [""] + Split("");
    } else {
      SplitText(rest);
    }
  }

  /** Where the admitted write to `key` of `mount` lands when the path resolved to `actual`: on
      `actual` itself if the backend accepts the key, unless `mount` is a file that `actual` lies
      strictly below. Then it lands on the file if the file's own name is all that is left, and is
      refused otherwise. A file whose own name is refused is never reached. */
  ghost predicate LandsAsMeant(host: Host, mount: Mount, key: string, actual: Path)
    requires Rooted(key) && mount.source <= actual
  {
    var landed := Locate(host, mount, key);
    if !mount.isFile then landed == if host.refuses(key) then None else Some(actual)
    else landed == if !RefusesOwn(host, mount) && (actual == mount.source || OwnName(mount, actual))
                   then Some(mount.source) else None
  }

  /** What `actual` has below the source of `mount` is the name of that source once more. */
  predicate OwnName(mount: Mount, actual: Path)
    requires mount.source <= actual
  {
    mount.source != [] && actual[|mount.source|..] == [mount.source[|mount.source| - 1]]
  }

  lemma OwnerKeyLands(host: Host, owner: Mount, actual: Path)
    requires ThroughLaw(host) && ProperLaw(host)
    requires host.resolve(actual) == actual && host.resolve(owner.source) == owner.source
    requires owner.source <= actual
    ensures LandsAsMeant(host, owner, Posix(actual[|owner.source|..]), actual)
  {
    var rest := actual[|owner.source|..];
    assert actual == owner.source + rest;
    assert ProperlyResolved(host, actual) && ProperlyResolved(host, owner.source);
    PosixKeyParts(rest);
    if owner.source != [] {
      NameKey(rest, owner.source[|owner.source| - 1]);
    }
  }

  lemma NameKey(rest: Path, name: string)
    requires WellNamed(rest) && IsName(name)
    ensures Posix(rest) == "/" + name <==> rest == [name]
    ensures Posix(rest) == "/" <==> rest == []
  {
    SplitText(rest);
    SplitText([name]);
    assert [name][1..] == [];
    assert Text([name]) == "/" + name;
    if rest != [] {
      assert |Text(rest)| > 1;
    }
  }

  /** The mutation plan, over every host that obeys the laws, every served stack and every path:
      it is a write exactly when the path is routed, resolves inside its route, and the deepest
      mount beneath the route whose source holds the real location (or the route itself) is
      read-write. The write goes to that mount and lands as meant. */
  lemma PlanIsSound(host: Host, mounts: seq<Mount>, text: string)
    requires ThroughLaw(host) && PrefixLaw(host) && ProperLaw(host)
    requires Served(host, mounts) && Rooted(text)
    ensures var plan := MutationPlan(host, mounts, text);
            match Visible(mounts, text)
            case None => plan.Unrouted?
            case Some(route) =>
              && Routes(route, text)
              && match Locate(host, route, BackendKey(route, text)) {
                   case None => plan.Escapes?
                   case Some(actual) => FollowsOwner(host, plan, Owner(mounts, route, actual), actual)
                 }
  {
    hide Served, Locate, Owner, PlanAt, LastApplied, SortedRoutes, FollowsOwner;
    PlanByRoute(host, mounts, text);
    var top := LastApplied(mounts, Components(text));
    if top >= 0 {
      var key := BackendKey(mounts[top], text);
      if Locate(host, mounts[top], key).Some? {
        LocatedPlan(host, mounts, top, key, Locate(host, mounts[top], key).value);
      }
    }
  }

  /** The permission of `owner` decides, and a write goes to `owner` and lands as meant. */
  ghost predicate FollowsOwner(host: Host, plan: Plan, owner: Mount, actual: Path) {
    && (plan.ReadOnly? <==> owner.readOnly)
    && (plan.Write? <==> !owner.readOnly)
    && (plan.Write? ==>
          && plan.mount == owner && Rooted(plan.key) && owner.source <= actual
          && LandsAsMeant(host, owner, plan.key, actual))
  }

  /** The branches of the plan that come before the owner is looked up. */
  lemma PlanByRoute(host: Host, mounts: seq<Mount>, text: string)
    requires Served(host, mounts) && Rooted(text)
    ensures var plan := MutationPlan(host, mounts, text);
            var top := LastApplied(mounts, Components(text));
            if top < 0 then plan.Unrouted?
            else
              && Routes(mounts[top], text)
              && match Locate(host, mounts[top], BackendKey(mounts[top], text)) {
                   case None => plan.Escapes?
                   case Some(actual) => plan == PlanAt(mounts, top, mounts[top], BackendKey(mounts[top], text), actual)
                 }
  {
    hide Locate, SortedRoutes, PlanAt, Served;
    RouteIsServed(host, mounts, text);
  }

  lemma RouteIsServed(host: Host, mounts: seq<Mount>, text: string)
    requires Served(host, mounts) && Rooted(text)
    ensures Lookup(SortedRoutes(mounts), text) == Visible(mounts, text)
    ensures RoutePoint(mounts, text) == LastApplied(mounts, Components(text))
  {
    RoutePointIsRoute(host, mounts, text);
  }

  lemma LocatedPlan(host: Host, mounts: seq<Mount>, top: nat, key: string, actual: Path)
    requires ThroughLaw(host) && PrefixLaw(host) && ProperLaw(host)
    requires Served(host, mounts) && top < |mounts|
    requires Rooted(key) && Locate(host, mounts[top], key) == Some(actual)
    ensures FollowsOwner(host, PlanAt(mounts, top, mounts[top], key, actual),
                         Owner(mounts, mounts[top], actual), actual)
  {
    hide Locate, SortedRoutes, LandsAsMeant;
    LocatedIsResolved(host, mounts[top], key);
    RouteKeyLands(host, mounts[top], key, actual);
    OwnerPlan(host, mounts, mounts[top], actual);
  }

  /** The key that was asked for lands where it was located. */
  lemma RouteKeyLands(host: Host, route: Mount, key: string, actual: Path)
    requires Rooted(key) && Locate(host, route, key) == Some(actual)
    requires host.resolve(route.source) == route.source
    ensures route.source <= actual && LandsAsMeant(host, route, key, actual)
  {
  }

  lemma LocatedIsResolved(host: Host, mount: Mount, key: string)
    requires ThroughLaw(host) && Rooted(key)
    requires Locate(host, mount, key).Some?
    ensures var actual := Locate(host, mount, key).value; host.resolve(actual) == actual
  {
    ResolvedIsFixed(host, mount.source);
    ResolvedIsFixed(host, mount.source + KeyParts(key));
  }

  lemma OwnerPlan(host: Host, mounts: seq<Mount>, route: Mount, actual: Path)
    requires ThroughLaw(host) && PrefixLaw(host) && ProperLaw(host)
    requires Served(host, mounts) && host.resolve(actual) == actual
    ensures var o := MoreSpecific(mounts, route, actual);
            o >= 0 ==>
              var virtual := OwnerVirtual(mounts[o], actual);
              && Lookup(SortedRoutes(mounts), virtual) == Some(mounts[o])
              && Routes(mounts[o], virtual)
              && LandsAsMeant(host, mounts[o], BackendKey(mounts[o], virtual), actual)
  {
    var o := MoreSpecific(mounts, route, actual);
    if o >= 0 {
      OwnerIsVisible(host, mounts, route, actual);
      var rest := actual[|mounts[o].source|..];
      assert ProperlyResolved(host, actual);
      VirtualRoundTrip(mounts[o], rest);
      OwnerKeyLands(host, mounts[o], actual);
      RoutePointIsRoute(host, mounts, OwnerVirtual(mounts[o], actual));
    }
  }

  /** An admitted write lands on the location that was judged exactly when its mount is a file that is
      mounted at that location and not refused by its own name, or a directory whose backend accepts
      the key. */
  lemma WriteLandsIff(host: Host, mounts: seq<Mount>, text: string)
    requires ThroughLaw(host) && PrefixLaw(host) && ProperLaw(host)
    requires Served(host, mounts) && Rooted(text) && MutationPlan(host, mounts, text).Write?
    ensures var plan := MutationPlan(host, mounts, text);
            && Visible(mounts, text).Some? && Routes(Visible(mounts, text).value, text) && Rooted(plan.key)
            && var route := Visible(mounts, text).value;
               var located := Locate(host, route, BackendKey(route, text));
               && located.Some?
               && (Locate(host, plan.mount, plan.key) == located <==>
                     if plan.mount.isFile
                     then located.value == plan.mount.source && !RefusesOwn(host, plan.mount)
                     else !host.refuses(plan.key))
  {
    hide MutationPlan, Served, Locate, Owner, Visible;
    PlanIsSound(host, mounts, text);
  }
}
