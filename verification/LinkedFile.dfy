/** A valid configuration on lawful hosts in which an admitted write does not land where it was
    judged: a link in the workspace leads to a mounted file. */
module LinkedFile {
  import opened Paths
  import opened Results
  import opened Mounts
  import opened Hosts
  import opened Routing
  import opened Mutation
  import opened Validation

  const LINK: Path := ["w", "l"]
  const FILE: Path := ["w", "f"]
  const LINKS: Links := map[LINK := FILE]

  const WORKSPACE := Mount(["w"], ["w"], false, false)
  const FILE_MOUNT := Mount(FILE, FILE, false, true)
  const SKILLS := Mount(SKILLS_ROOT, ["s", "skills"], false, false)
  const MOUNTS := [WORKSPACE, FILE_MOUNT, SKILLS]

  /** Which keys the backends refuse. */
  type Refusal = string -> bool

  function TheHost(r: Refusal): Host {
    Linked(Host(p => p, p => true, p => p == FILE, p => p != FILE, p => false, p => false, r), LINKS)
  }

  function TheConfig(): Config {
    Config(["w"], ["s", "skills"], [], [], [UserMount(FILE, true, FILE, false)])
  }

  lemma Letters()
    ensures "w" != "l" && "f" != "l" && "w" != "f" && "s" != "w" && "w" != "skills"
    ensures IsName("w") && IsName("l") && IsName("f") && IsName("s") && IsName("skills")
    ensures forall name | name in ["w", "l", "f", "s", "skills"] :: name != ".."
  {
    assert "w"[0] != "l"[0] && "f"[0] != "l"[0] && "w"[0] != "f"[0] && "s"[0] != "w"[0];
  }

  lemma ShortIsClean(r: Refusal, path: Path)
    requires path in [["w"], FILE, ["s"], ["s", "skills"]]
    ensures Clean(LINKS, path) && TheHost(r).resolve(path) == path
  {
    Letters();
    forall k | 0 <= k <= |path|
      ensures path[..k] != LINK
    {
      assert k == 2 ==> path[..k] == path;
      assert LINK[0] == "w" && LINK[1] == "l";
      assert FILE[1] == "f" && ["s", "skills"][0] == "s";
    }
    WalkOfClean(LINKS, path);
  }

  lemma TheHostIsLawful(r: Refusal)
    ensures Lawful(TheHost(r))
  {
    ShortIsClean(r, FILE);
    assert [] != LINK;
    LinkedIsLawful(TheHost(r), LINKS);
    assert Linked(TheHost(r), LINKS) == TheHost(r);
  }

  lemma StackFits(r: Refusal)
    ensures Stacked(TheHost(r), MOUNTS)
  {
    Letters();
    var host := TheHost(r);
    assert MOUNTS[..0] == [] && MOUNTS[..1] == [WORKSPACE] && MOUNTS[..2] == [WORKSPACE, FILE_MOUNT];
    ShortIsClean(r, FILE);
    assert Fits(host, MOUNTS[..0], WORKSPACE);
    assert ["w"] + FILE[1..] == FILE;
    assert Covers(WORKSPACE, FILE) && !(FILE <= WORKSPACE.destination);
    assert Fits(host, MOUNTS[..1], FILE_MOUNT);
    SkillsApart(SKILLS_ROOT, "skills");
    assert Fits(host, MOUNTS[..2], SKILLS);
  }

  lemma SkillsApart(path: Path, name: string)
    requires path != [] && path[0] == name && name != "w"
    ensures !Covers(WORKSPACE, path) && !Covers(FILE_MOUNT, path)
    ensures !(path <= WORKSPACE.destination) && !(path <= FILE)
  {
    assert WORKSPACE.destination[0] == "w" && FILE[0] == "w";
  }

  lemma StackIsServed(r: Refusal)
    ensures Served(TheHost(r), MOUNTS)
  {
    Letters();
    StackFits(r);
    ShortIsClean(r, ["w"]);
    ShortIsClean(r, FILE);
    ShortIsClean(r, ["s", "skills"]);
  }

  lemma TheConfigIsValid(r: Refusal)
    ensures Valid(TheHost(r), TheConfig())
    ensures SkillsDir(TheHost(r), TheHost(r).resolve(["w"]), ["s", "skills"]) == Some(["s", "skills"])
    ensures ResolvedAll(TheHost(r), Ordered(TheHost(r), TheConfig(), ["s", "skills"])) == MOUNTS
  {
    hide Walk, Clean, IsLink, Fits;
    Letters();
    StackFits(r);
    ShortIsClean(r, ["w"]);
    ShortIsClean(r, FILE);
    SkillsFound(r);
    StackIsOrdered(r);
    FileIsAllowed(r);
  }

  lemma SkillsFound(r: Refusal)
    ensures SkillsDir(TheHost(r), ["w"], ["s", "skills"]) == Some(["s", "skills"])
  {
    hide Walk, Clean;
    Letters();
    var source := ["s", "skills"];
    ShortIsClean(r, ["s"]);
    ShortIsClean(r, source);
    CleanIsNoLink(LINKS, source);
    assert source[..1] == ["s"] && ["s"] + ["skills"] == source;
    assert source[0] == "s" && ["w"][0] == "w";
  }

  lemma StackIsOrdered(r: Refusal)
    ensures var ordered := Ordered(TheHost(r), TheConfig(), ["s", "skills"]);
            && ResolvedAll(TheHost(r), ordered) == MOUNTS
            && forall k | 0 <= k < |ordered| :: Usable(TheHost(r), ordered[k])
  {
    hide Walk, Clean;
    Letters();
    ShortIsClean(r, ["w"]);
    ShortIsClean(r, FILE);
    ShortIsClean(r, ["s", "skills"]);
    assert ["w"] != FILE && ["s", "skills"] != FILE by {
      assert ["s", "skills"][0] == "s" && FILE[0] == "w";
    }
    var ordered := Ordered(TheHost(r), TheConfig(), ["s", "skills"]);
    assert ordered == [Declared(["w"], true, ["w"], false), Declared(FILE, true, FILE, false),
                       Declared(["s", "skills"], true, SKILLS_ROOT, false)];
  }

  lemma FileIsAllowed(r: Refusal)
    ensures Allowed(TheHost(r), ["w"], UserMount(FILE, true, FILE, false), false)
  {
    hide Walk;
    Letters();
    assert FILE[0] == "w" && WORKER_DIR[0] == "run" && SKILLS_ROOT[0] == "skills" && HOME[0] == "home";
    assert |"run"| != |"w"| && |"home"| != |"w"| && |TMP| != |FILE|;
  }

  /** `text` is routed to the workspace and judged as the location `actual`. */
  ghost predicate JudgedAt(r: Refusal, text: string, actual: Path) {
    && Rooted(text) && Visible(MOUNTS, text) == Some(WORKSPACE) && Routes(WORKSPACE, text)
    && Locate(TheHost(r), WORKSPACE, BackendKey(WORKSPACE, text)) == Some(actual)
  }

  /** The write to the mounted file is admitted, and lands there or nowhere. */
  ghost predicate Admitted(r: Refusal, text: string, lands: bool) {
    var plan := MutationPlan(TheHost(r), MOUNTS, text);
    && plan.Write? && plan.mount == FILE_MOUNT && Rooted(plan.key)
    && Locate(TheHost(r), FILE_MOUNT, plan.key) == if lands then Some(FILE) else None
  }

  lemma AllIsValid(r: Refusal)
    ensures Lawful(TheHost(r)) && Valid(TheHost(r), TheConfig()) && Served(TheHost(r), MOUNTS)
  {
    hide *;
    TheHostIsLawful(r);
    TheConfigIsValid(r);
    StackIsServed(r);
  }

  /** Whatever lies below the link is judged as a location below the mounted file, and a write there
      is admitted. It lands on the file itself when it asks for the file's own name and that name is
      not refused, and nowhere otherwise. */
  lemma WriteBelowFile(r: Refusal, name: string)
    requires IsName(name) && name != ".." && !r("/l/" + name)
    ensures Lawful(TheHost(r)) && Valid(TheHost(r), TheConfig()) && Served(TheHost(r), MOUNTS)
    ensures JudgedAt(r, "/w/l/" + name, FILE + [name])
    ensures Admitted(r, "/w/l/" + name, name == "f" && !r("/f"))
  {
    hide *;
    AllIsValid(r);
    TextBelowLink(name);
    BelowLinkIsClean(name);
    WalkBelowLink(r, name);
    RouteOfLink(r, "/w/l/" + name, ["l", name], FILE + [name]);
    PlanBelowLink(r, "/w/l/" + name, FILE + [name]);
    RestOfFile(name);
  }

  /** The link itself is judged as the mounted file, and a write to it is admitted; but it lands
      nowhere when the file's own name is refused. */
  lemma WriteThroughLink(r: Refusal)
    requires !r("/l")
    ensures Lawful(TheHost(r)) && Valid(TheHost(r), TheConfig()) && Served(TheHost(r), MOUNTS)
    ensures JudgedAt(r, "/w/l", FILE)
    ensures Admitted(r, "/w/l", !r("/f"))
  {
    hide *;
    AllIsValid(r);
    TextOfLink();
    WalkOfLink(r);
    RouteOfLink(r, "/w/l", ["l"], FILE);
    PlanBelowLink(r, "/w/l", FILE);
  }

  lemma PlanBelowLink(r: Refusal, text: string, actual: Path)
    requires JudgedAt(r, text, actual) && FILE <= actual && Served(TheHost(r), MOUNTS) && Lawful(TheHost(r))
    ensures Admitted(r, text, !r("/f") && (actual == FILE || actual[2..] == ["f"]))
  {
    hide MutationPlan, Served, Locate, Owner, FollowsOwner, Visible, Routes;
    PlanIsSound(TheHost(r), MOUNTS, text);
    OwnerBelowLink(actual);
    LandingOnFile(r, MutationPlan(TheHost(r), MOUNTS, text), actual);
  }

  lemma LandingOnFile(r: Refusal, plan: Plan, actual: Path)
    requires FILE <= actual && FollowsOwner(TheHost(r), plan, FILE_MOUNT, actual)
    ensures plan.Write? && plan.mount == FILE_MOUNT && Rooted(plan.key)
    ensures Locate(TheHost(r), FILE_MOUNT, plan.key) ==
            if !r("/f") && (actual == FILE || actual[2..] == ["f"]) then Some(FILE) else None
  {
    hide Locate;
    assert FILE[1] == "f" && "/" + "f" == "/f";
  }

  lemma RestOfFile(name: string)
    ensures FILE + [name] != FILE && ((FILE + [name])[2..] == ["f"] <==> name == "f")
    ensures FILE <= FILE + [name]
  {
    assert (FILE + [name])[2..] == [name];
    assert name != "f" ==> [name][0] != ["f"][0];
  }

  /** A path of the workspace through the link. */
  lemma RouteOfLink(r: Refusal, text: string, rest: Path, actual: Path)
    requires text == Posix(["w"]) + Text(rest) && rest != [] && rest[0] == "l"
    requires WellNamed(rest) && !r(Posix(rest))
    requires TheHost(r).resolve(["w"] + rest) == actual && FILE <= actual
    ensures JudgedAt(r, text, actual)
  {
    hide Routes, Walk, KeyParts, Components;
    Letters();
    VirtualRoundTrip(WORKSPACE, rest);
    TopBelowLink(["w"] + rest);
    PosixKeyParts(rest);
    assert ["w"] <= actual by {
      assert ["w"] <= FILE;
    }
  }

  lemma TextBelowLink(name: string)
    ensures Posix(["w"]) + Text(["l", name]) == "/w/l/" + name
    ensures Posix(["l", name]) == "/l/" + name
  {
    assert ["w"][1..] == [] && ["l", name][1..] == [name] && [name][1..] == [];
    assert Text([name]) == "/" + name;
    assert Text(["l", name]) == "/" + "l" + Text([name]);
    assert Text(["w"]) == "/" + "w";
  }

  lemma BelowLinkIsClean(name: string)
    requires IsName(name)
    ensures WellNamed(["l", name]) && ["l", name][0] == "l" && FILE <= FILE + [name]
  {
    Letters();
  }

  lemma TextOfLink()
    ensures Posix(["w"]) + Text(["l"]) == "/w/l" && Posix(["l"]) == "/l"
    ensures WellNamed(["l"]) && ["l"][0] == "l" && FILE <= FILE
  {
    Letters();
    assert ["w"][1..] == [] && ["l"][1..] == [];
    assert Text(["l"]) == "/" + "l" && Text(["w"]) == "/" + "w";
  }

  lemma TopBelowLink(path: Path)
    requires |path| >= 2 && path[0] == "w" && path[1] == "l"
    ensures LastApplied(MOUNTS, path) == 0
  {
    Letters();
    assert FILE[1] == "f" && SKILLS_ROOT[0] == "skills";
    assert Covers(MOUNTS[0], path) && !Covers(MOUNTS[1], path) && !Covers(MOUNTS[2], path);
  }

  lemma WalkOfLink(r: Refusal)
    ensures TheHost(r).resolve(["w"] + ["l"]) == FILE
  {
    Letters();
    assert ["w"] + ["l"] == LINK && LINK[..1] == ["w"] && ["w"][..0] == [];
    assert ["w"] != LINK && [] + ["w"] == ["w"];
    assert Walk(LINKS, ["w"]) == ["w"];
  }

  lemma WalkBelowLink(r: Refusal, name: string)
    requires IsName(name) && name != ".."
    ensures TheHost(r).resolve(["w"] + ["l", name]) == FILE + [name]
  {
    Letters();
    WalkOfLink(r);
    var path := ["w"] + ["l", name];
    assert path[..2] == LINK && ["w"] + ["l"] == LINK && FILE + [name] != LINK;
    assert Walk(LINKS, LINK) == FILE;
  }

  lemma OwnerBelowLink(actual: Path)
    requires FILE <= actual
    ensures Owner(MOUNTS, WORKSPACE, actual) == FILE_MOUNT
  {
    assert ["w"] <= FILE;
    assert Nested(WORKSPACE, MOUNTS[1], actual);
    assert !Nested(WORKSPACE, MOUNTS[0], actual);
    assert SKILLS_ROOT[0] == "skills" && |"skills"| != |"w"|;
    assert !Nested(WORKSPACE, MOUNTS[2], actual);
  }
}
