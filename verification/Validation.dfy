/** The configuration checks that come before the mount stack is routed, and what they guarantee. */
module Validation {
  import opened Paths
  import opened Results
  import opened Mounts
  import opened Routing
  import opened Mutation

  datatype UserMount = UserMount(source: Path, absolute: bool, destination: Path, devBind: bool)

  /** The skills path and the state directories are those of the installation. */
  datatype Config = Config(
    workspace: Path, skills: Path, state: seq<Path>, readOnly: seq<UserMount>, readWrite: seq<UserMount>)

  datatype ConfigFault =
    | BadWorkspace | BadSkills | StateInside
    | BadMount(at: nat, readOnly: bool) | BadStack(rejection: Rejection)

  const SKILLS_ROOT: Path := ["skills"]
  const WORKER_DIR: Path := ["run", "deep-agent"]
  const TMP: Path := ["tmp"]
  const HOME: Path := ["home", "agent"]

  /** One path is the other or lies above it. */
  predicate Related(a: Path, b: Path) {
    a <= b || b <= a
  }

  /** `_mount_args` accepts the mount. */
  predicate Allowed(host: Host, root: Path, mount: UserMount, readOnly: bool) {
    var source := host.resolve(mount.source);
    && host.present(source)
    && mount.absolute && ".." !in mount.destination
    && mount.destination !in [root, TMP, HOME]
    && !Related(mount.destination, WORKER_DIR)
    && !Related(mount.destination, SKILLS_ROOT)
    && if mount.devBind then !readOnly else !host.device(source)
  }

  /** `_validated_skills_dir`, on a host where the directory has been made if it was missing. */
  function SkillsDir(host: Host, workspace: Path, source: Path): (r: Option<Path>)
    requires source != []
    ensures workspace == [] ==> r.None?
  {
    var parent := source[..|source| - 1];
    var candidate := (if host.present(parent) then host.resolve(parent) else parent) + [source[|source| - 1]];
    if host.symlink(source) || !host.directory(source) || workspace <= candidate then None
    else Some(host.resolve(source))
  }

  function DeclaredMounts(mounts: seq<UserMount>, readOnly: bool): seq<Declared> {
    seq(|mounts|, k requires 0 <= k < |mounts| =>
      Declared(mounts[k].source, mounts[k].absolute, mounts[k].destination, readOnly))
  }

  /** The stack that `_mount_points` is given. */
  function Ordered(host: Host, config: Config, skills: Path): seq<Declared> {
    var workspace := host.resolve(config.workspace);
    [Declared(workspace, true, host.resolve(workspace), false)]
    + DeclaredMounts(config.readOnly, true) + DeclaredMounts(config.readWrite, false)
    + [Declared(skills, true, SKILLS_ROOT, false)]
  }

  predicate AllAllowed(host: Host, root: Path, mounts: seq<UserMount>, readOnly: bool) {
    forall k | 0 <= k < |mounts| :: Allowed(host, root, mounts[k], readOnly)
  }

  ghost predicate Valid(host: Host, config: Config)
    requires config.skills != []
  {
    var workspace := host.resolve(config.workspace);
    var skills := SkillsDir(host, workspace, config.skills);
    && host.directory(workspace)
    && skills.Some?
    && (forall k | 0 <= k < |config.state| :: !(workspace <= config.state[k]))
    && AllAllowed(host, host.resolve(workspace), config.readOnly, true)
    && AllAllowed(host, host.resolve(workspace), config.readWrite, false)
    && Acceptable(host, Ordered(host, config, skills.value))
  }

  /** `fault` is the first check that the configuration does not pass. */
  ghost predicate FirstFailing(host: Host, config: Config, fault: ConfigFault)
    requires config.skills != []
  {
    var workspace := host.resolve(config.workspace);
    var root := host.resolve(workspace);
    var skills := SkillsDir(host, workspace, config.skills);
    var placed := host.directory(workspace) && skills.Some?;
    var apart := placed && forall k | 0 <= k < |config.state| :: !(workspace <= config.state[k]);
    match fault
    case BadWorkspace => !host.directory(workspace)
    case BadSkills => host.directory(workspace) && skills.None?
    case StateInside => placed && exists k :: 0 <= k < |config.state| && workspace <= config.state[k]
    case BadMount(at, true) => apart && FirstRefused(host, root, config.readOnly, true, at)
    case BadMount(at, false) =>
      apart && AllAllowed(host, root, config.readOnly, true) && FirstRefused(host, root, config.readWrite, false, at)
    case BadStack(rejection) =>
      && apart && AllAllowed(host, root, config.readOnly, true) && AllAllowed(host, root, config.readWrite, false)
      && FirstRejected(host, Ordered(host, config, skills.value), rejection)
  }

  predicate FirstRefused(host: Host, root: Path, mounts: seq<UserMount>, readOnly: bool, at: nat) {
    && at < |mounts| && !Allowed(host, root, mounts[at], readOnly)
    && AllAllowed(host, root, mounts[..at], readOnly)
  }

  /** `mount` shows the source of `declared` at its destination, with the given permission. */
  predicate Shows(host: Host, mount: Mount, declared: UserMount, readOnly: bool) {
    && mount.destination == declared.destination && mount.readOnly == readOnly
    && mount.source == host.resolve(declared.source)
    && (mount.isFile <==> host.regular(mount.source) || host.device(mount.source))
  }

  /** The stack of a configuration, entry by entry: the workspace at its own place, the user's read-only
      and then the read-write mounts, and the skills directory.  Only the second kind is read-only. */
  ghost predicate StackOf(host: Host, config: Config, mounts: seq<Mount>)
    requires config.skills != []
  {
    var n, m := |config.readOnly|, |config.readWrite|;
    var workspace := host.resolve(config.workspace);
    var skills := SkillsDir(host, workspace, config.skills);
    && |mounts| == n + m + 2
    && mounts[0].destination == host.resolve(workspace) == mounts[0].source && !mounts[0].readOnly
    && (forall k | 0 <= k < n :: Shows(host, mounts[1 + k], config.readOnly[k], true))
    && (forall k | 0 <= k < m :: Shows(host, mounts[1 + n + k], config.readWrite[k], false))
    && mounts[1 + n + m].destination == SKILLS_ROOT && !mounts[1 + n + m].readOnly
    && skills.Some? && mounts[1 + n + m].source == host.resolve(skills.value)
    && AllDistinct(mounts)
  }

  /** No two mounts have one destination. */
  ghost predicate AllDistinct(mounts: seq<Mount>) {
    forall j, k | 0 <= j < k < |mounts| :: mounts[j].destination != mounts[k].destination
  }

  /** Destinations are what `pathlib` makes of them. */
  ghost predicate Named(config: Config) {
    && (forall k | 0 <= k < |config.readOnly| :: WellNamed(config.readOnly[k].destination))
    && (forall k | 0 <= k < |config.readWrite| :: WellNamed(config.readWrite[k].destination))
  }

  /** The checks on the mounts of one kind, in order. */
  method CheckMounts(host: Host, root: Path, mounts: seq<UserMount>, readOnly: bool) returns (bad: Option<nat>)
    ensures bad.None? <==> AllAllowed(host, root, mounts, readOnly)
    ensures bad.Some? ==> FirstRefused(host, root, mounts, readOnly, bad.value)
  {
    for k := 0 to |mounts|
      invariant AllAllowed(host, root, mounts[..k], readOnly)
    {
      if !Allowed(host, root, mounts[k], readOnly) {
        return Some(k);
      }
      assert forall i | 0 <= i < k :: mounts[..k + 1][i] == mounts[..k][i];
    }
    assert mounts[..|mounts|] == mounts;
    return None;
  }

  /** `_validate_config` in restricted mode. A configuration passes exactly when it is valid, and
      its stack meets the assumptions of the write and delete theorems; otherwise the first check
      that fails is reported. */
  method Validate(host: Host, config: Config) returns (r: Result<seq<Mount>, ConfigFault>)
    requires config.skills != []
    ensures r.Success? <==> Valid(host, config)
    ensures r.Success? && ThroughLaw(host) && ProperLaw(host) && Named(config) ==> Served(host, r.value)
    ensures r.Success? ==>
              var skills := SkillsDir(host, host.resolve(config.workspace), config.skills);
              skills.Some? && r.value == ResolvedAll(host, Ordered(host, config, skills.value))
    ensures r.Success? ==> StackOf(host, config, r.value)
    ensures r.Failure? ==> FirstFailing(host, config, r.error)
  {
    var workspace := host.resolve(config.workspace);
    if !host.directory(workspace) {
      return Failure(BadWorkspace);
    }
    var skills := SkillsDir(host, workspace, config.skills);
    if skills.None? {
      return Failure(BadSkills);
    }
    for k := 0 to |config.state|
      invariant forall i | 0 <= i < k :: !(workspace <= config.state[i])
    {
      if workspace <= config.state[k] {
        return Failure(StateInside);
      }
    }
    var root := host.resolve(workspace);
    var bad := CheckMounts(host, root, config.readOnly, true);
    if bad.Some? {
      return Failure(BadMount(bad.value, true));
    }
    bad := CheckMounts(host, root, config.readWrite, false);
    if bad.Some? {
      return Failure(BadMount(bad.value, false));
    }
    var points := MountPoints(host, Ordered(host, config, skills.value));
    if points.Failure? {
      return Failure(BadStack(points.error));
    }
    if ThroughLaw(host) && ProperLaw(host) && Named(config) {
      ValidIsServed(host, config);
    }
    StackFollowsConfig(host, config, skills.value);
    return Success(points.value);
  }

  /** No valid stack has a mount at "/": the workspace would hold the skills directory, and a user
      mount would conflict with the skills destination. */
  lemma ValidIsServed(host: Host, config: Config)
    requires ThroughLaw(host) && ProperLaw(host)
    requires config.skills != [] && Named(config) && Valid(host, config)
    ensures var skills := SkillsDir(host, host.resolve(config.workspace), config.skills);
            skills.Some? && Served(host, ResolvedAll(host, Ordered(host, config, skills.value)))
  {
    var workspace := host.resolve(config.workspace);
    var skills := SkillsDir(host, workspace, config.skills).value;
    var ordered := Ordered(host, config, skills);
    ResolvedIsFixed(host, config.workspace);
    assert ProperlyResolved(host, config.workspace);
    forall k | 0 <= k < |ordered|
      ensures WellNamed(ordered[k].destination) && ordered[k].destination != []
    {
      OrderedAreNamed(host, config, skills, k);
    }
    AcceptedIsServed(host, ordered);
  }

  lemma OrderedAreNamed(host: Host, config: Config, skills: Path, k: nat)
    requires config.skills != [] && Named(config)
    requires k < |Ordered(host, config, skills)|
    requires var root := host.resolve(host.resolve(config.workspace));
             && WellNamed(root) && root != []
             && AllAllowed(host, root, config.readOnly, true) && AllAllowed(host, root, config.readWrite, false)
    ensures var entry := Ordered(host, config, skills)[k];
            WellNamed(entry.destination) && entry.destination != []
  {
    var ordered := Ordered(host, config, skills);
    var n, m := |config.readOnly|, |config.readWrite|;
    if 1 <= k <= n {
      assert ordered[k].destination == config.readOnly[k - 1].destination;
      assert Allowed(host, host.resolve(host.resolve(config.workspace)), config.readOnly[k - 1], true);
    } else if n < k <= n + m {
      assert ordered[k].destination == config.readWrite[k - 1 - n].destination;
      assert Allowed(host, host.resolve(host.resolve(config.workspace)), config.readWrite[k - 1 - n], false);
    }
  }

  lemma StackFollowsConfig(host: Host, config: Config, skills: Path)
    requires config.skills != [] && Acceptable(host, Ordered(host, config, skills))
    requires SkillsDir(host, host.resolve(config.workspace), config.skills) == Some(skills)
    ensures StackOf(host, config, ResolvedAll(host, Ordered(host, config, skills)))
  {
    hide AllDistinct, Stacked, Usable, SkillsDir, Ordered;
    StackIsDistinct(host, ResolvedAll(host, Ordered(host, config, skills)));
    OrderedAre(host, config, skills);
    var mounts := ResolvedAll(host, Ordered(host, config, skills));
    forall k | 0 <= k < |config.readOnly|
      ensures Shows(host, mounts[1 + k], config.readOnly[k], true)
    {
      assert DeclaredMounts(config.readOnly, true)[k].source == config.readOnly[k].source;
    }
    forall k | 0 <= k < |config.readWrite|
      ensures Shows(host, mounts[1 + |config.readOnly| + k], config.readWrite[k], false)
    {
      assert DeclaredMounts(config.readWrite, false)[k].source == config.readWrite[k].source;
    }
  }

  lemma OrderedAre(host: Host, config: Config, skills: Path)
    ensures var ordered, n, m := Ordered(host, config, skills), |config.readOnly|, |config.readWrite|;
            var workspace := host.resolve(config.workspace);
            && |ordered| == n + m + 2
            && ordered[0] == Declared(workspace, true, host.resolve(workspace), false)
            && (forall k | 0 <= k < n :: ordered[1 + k] == DeclaredMounts(config.readOnly, true)[k])
            && (forall k | 0 <= k < m :: ordered[1 + n + k] == DeclaredMounts(config.readWrite, false)[k])
            && ordered[1 + n + m] == Declared(skills, true, SKILLS_ROOT, false)
  {
  }

  lemma StackIsDistinct(host: Host, mounts: seq<Mount>)
    requires Stacked(host, mounts)
    ensures AllDistinct(mounts)
  {
    hide Stacked;
    forall j, k | 0 <= j < k < |mounts|
      ensures mounts[j].destination != mounts[k].destination
    {
      LaterIsNotAbove(host, mounts, j, k);
    }
  }

  /** The destination is that of a read-only mount of the user. */
  ghost predicate DeclaredReadOnly(config: Config, destination: Path) {
    exists k :: 0 <= k < |config.readOnly| && config.readOnly[k].destination == destination
  }

  /** On the stack of a valid configuration a write that has a location is refused exactly when the mount
      that owns the location is one of the user's read-only mounts. */
  lemma WritesFollowConfig(host: Host, config: Config, mounts: seq<Mount>, text: string)
    requires ThroughLaw(host) && PrefixLaw(host) && ProperLaw(host)
    requires config.skills != [] && StackOf(host, config, mounts) && Served(host, mounts) && Rooted(text)
    ensures match Visible(mounts, text)
            case None => true
            case Some(route) =>
              && Routes(route, text)
              && match Locate(host, route, BackendKey(route, text)) {
                   case None => true
                   case Some(actual) =>
                     var plan, owner := MutationPlan(host, mounts, text), Owner(mounts, route, actual);
                     && (plan.ReadOnly? <==> DeclaredReadOnly(config, owner.destination))
                     && (plan.Write? <==> !DeclaredReadOnly(config, owner.destination))
                     && (plan.Write? ==> plan.mount == owner)
                 }
  {
    hide MutationPlan, Locate, Owner, Visible, StackOf, Served;
    PlanIsSound(host, mounts, text);
    if Visible(mounts, text).Some? {
      var route := Visible(mounts, text).value;
      VisibleIsMounted(mounts, text);
      match Locate(host, route, BackendKey(route, text)) {
        case None =>
        case Some(actual) =>
          OwnerIsMounted(mounts, route, actual);
          ReadOnlyIsDeclared(host, config, mounts, Owner(mounts, route, actual));
      }
    }
  }

  lemma VisibleIsMounted(mounts: seq<Mount>, text: string)
    requires Rooted(text)
    ensures Visible(mounts, text).Some? ==> Visible(mounts, text).value in mounts
  {
  }

  lemma OwnerIsMounted(mounts: seq<Mount>, route: Mount, actual: Path)
    requires route in mounts
    ensures Owner(mounts, route, actual) in mounts
  {
  }

  lemma ReadOnlyIsDeclared(host: Host, config: Config, mounts: seq<Mount>, mount: Mount)
    requires config.skills != [] && StackOf(host, config, mounts) && mount in mounts
    ensures mount.readOnly <==> DeclaredReadOnly(config, mount.destination)
  {
    var n, m := |config.readOnly|, |config.readWrite|;
    var at :| 0 <= at < |mounts| && mounts[at] == mount;
    if 1 <= at <= n {
      assert Shows(host, mounts[1 + (at - 1)], config.readOnly[at - 1], true);
    } else if n < at <= n + m {
      assert Shows(host, mounts[1 + n + (at - 1 - n)], config.readWrite[at - 1 - n], false);
    }
    if DeclaredReadOnly(config, mount.destination) {
      var k :| 0 <= k < n && config.readOnly[k].destination == mount.destination;
      assert Shows(host, mounts[1 + k], config.readOnly[k], true);
      assert at == 1 + k;
    }
  }

  /** No mount of the user replaces the workspace, the temporary or the home directory, shows anything at
      or below the places of the worker and the skills, or lies there.  A device node is mounted only
      read-write and as a device. */
  lemma UserMountsKeepOff(host: Host, config: Config, mounts: seq<Mount>, k: nat, path: Path)
    requires config.skills != [] && Valid(host, config) && StackOf(host, config, mounts)
    requires 1 <= k <= |config.readOnly| + |config.readWrite|
    ensures mounts[k].destination != host.resolve(host.resolve(config.workspace))
    ensures mounts[k].destination != ["tmp"] && mounts[k].destination != ["home", "agent"]
    ensures ["run", "deep-agent"] <= path || ["skills"] <= path ==> !Covers(mounts[k], path)
    ensures !(["run", "deep-agent"] <= mounts[k].destination) && !(["skills"] <= mounts[k].destination)
    ensures ".." !in mounts[k].destination
    ensures host.present(mounts[k].source)
    ensures host.device(mounts[k].source) ==>
              !mounts[k].readOnly && k > |config.readOnly| && config.readWrite[k - 1 - |config.readOnly|].devBind
    ensures k <= |config.readOnly| ==> !config.readOnly[k - 1].devBind
  {
    hide Acceptable, SkillsDir;
    var n := |config.readOnly|;
    var root := host.resolve(host.resolve(config.workspace));
    if k <= n {
      assert Shows(host, mounts[1 + (k - 1)], config.readOnly[k - 1], true);
      assert Allowed(host, root, config.readOnly[k - 1], true);
    } else {
      assert Shows(host, mounts[1 + n + (k - 1 - n)], config.readWrite[k - 1 - n], false);
      assert Allowed(host, root, config.readWrite[k - 1 - n], false);
    }
    UnrelatedShareNothing(mounts[k].destination, WORKER_DIR, path);
    UnrelatedShareNothing(mounts[k].destination, SKILLS_ROOT, path);
  }

  lemma UnrelatedShareNothing(a: Path, b: Path, path: Path)
    requires !Related(a, b)
    ensures !(a <= path && b <= path)
  {
    if a <= path && b <= path {
      PrefixesAreOrdered(a, b, path);
    }
  }

  /** The skills directory that is mounted lies outside the workspace. */
  lemma SkillsAreOutside(host: Host, workspace: Path, source: Path)
    requires ThroughLaw(host) && StayLaw(host)
    requires source != [] && IsName(source[|source| - 1]) && source[|source| - 1] != ".."
    requires host.present(source[..|source| - 1])
    requires SkillsDir(host, workspace, source).Some?
    ensures host.directory(source) && !host.symlink(source)
    ensures !host.symlink(host.resolve(source[..|source| - 1]) + [source[|source| - 1]]) ==>
              !(workspace <= SkillsDir(host, workspace, source).value)
  {
    var above, name := source[..|source| - 1], source[|source| - 1];
    assert source == above + [name];
    assert ResolvesThrough(host, above, [name]);
    ResolvedIsFixed(host, above);
    assert StaysPut(host, host.resolve(above), name);
  }
}
