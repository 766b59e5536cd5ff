/** Walking a node, and then the nodes that follow it, to a newer runtime. */
module Upgrade {
  import opened Common
  import opened Text
  import opened NodeArgs
  import opened NodeLaws
  import opened Recreate
  import opened Versions

  /** The order in which a node's two maps happen to be ranged over. */
  datatype Orders = Orders(labelKeys: seq<string>, portKeys: seq<string>)
  type Ranging = Node -> Orders

  ghost predicate Ranges(rg: Ranging) {
    forall c: Node :: Lists(rg(c).labelKeys, c.labels) && Lists(rg(c).portKeys, c.ports)
  }

  /** How an image is read as a version; `ImageVersion` below is the reading orcinus uses. */
  type Reading = string -> Option<Version>

  function RepoOf(image: string): string {
    match Cut(image, ':')
    case Some((repo, _)) => repo
    case None => image
  }

  function TagOf(image: string): string {
    match Cut(image, ':')
    case Some((_, tag)) => tag
    case None => ""
  }

  function ImageVersion(image: string): Option<Version> {
    MinorPatch(FromDockerTag(TagOf(image)))
  }

  function ImageFor(repo: string, r: Release): string {
    repo + ":" + DockerTag(r.text)
  }

  /** An image built for a release reads as that release. */
  lemma ImageReads(repo: string, r: Release)
    requires ':' !in repo && ReleaseSpelling(r.text) && MinorPatch(r.text) == Some(r.version)
    ensures ImageVersion(ImageFor(repo, r)) == Some(r.version)
  {
    CutIs(repo, ':', DockerTag(r.text));
    assert ImageFor(repo, r) == repo + [':'] + DockerTag(r.text);
    TagRoundTripIff(r.text);
  }

  /** Every release orcinus ships is read back from the image built for it. */
  lemma ShippedImagesRead(repo: string)
    requires ':' !in repo
    ensures forall r | r in UPGRADE_PATH :: ImageVersion(ImageFor(repo, r)) == Some(r.version)
  {
    forall r | r in UPGRADE_PATH ensures ImageVersion(ImageFor(repo, r)) == Some(r.version) {
      var i :| 0 <= i < |UPGRADE_PATH| && UPGRADE_PATH[i] == r;
      ShippedEntry(i);
      ImageReads(repo, r);
    }
  }

  function ArgsFor(c: Node, name: string, image: string, rg: Ranging): seq<string>
    requires Ranges(rg)
  {
    var n := c.(image := image);
    CreateArgs(n, name, PublishedPort(c, "80"), PublishedPort(c, "443"), rg(n).labelKeys, rg(n).portKeys)
  }

  /** One step: fetch the image first, then recreate the node on it; `None` when the image could not be fetched. */
  datatype Step = Step(engine: Engine, run: Option<Outcome>) {
    predicate Ok() {
      run.Some? && run.value.failed.None?
    }
  }

  function StepOnce(e: Engine, faults: Faults, name: string, c: Node, image: string, rg: Ranging): Step
    requires Ranges(rg)
  {
    var e1 := Do(e, faults, Fetch(image));
    if !Works(e, faults, Fetch(image)) then Step(e1, None)
    else
      var r := Run(e1, faults, name, ArgsFor(c, name, image, rg));
      Step(r.engine, Some(r))
  }

  /** How far a walk got: docker, the number of steps that reported ready, and whether that was all. */
  datatype Walk = Walk(engine: Engine, done: nat, ok: bool)

  function WalkSteps(e: Engine, faults: Faults, name: string, c: Node, repo: string, steps: seq<Release>,
      rg: Ranging): Walk
    requires Ranges(rg)
    decreases |steps|
  {
    if steps == [] then Walk(e, 0, true)
    else
      var image := ImageFor(repo, steps[0]);
      var s := StepOnce(e, faults, name, c, image, rg);
      if !s.Ok() then Walk(s.engine, 0, false)
      else
        var w := WalkSteps(s.engine, faults, name, c.(image := image), repo, steps[1..], rg);
        Walk(w.engine, w.done + 1, w.ok)
  }

  datatype Plan = Refused | Go(steps: seq<Release>)

  function PlanSteps(image: string, step: bool, path: seq<Release>, ver: Reading): Plan
    requires path != []
  {
    match ver(image)
    case None => Refused
    case Some(v) =>
      match StepsFrom(path, v)
      case Steps(s) => Go(if step || s == [] then s else s[|s| - 1..])
      case _ => Refused
  }

  /** `planes` is the number of control-plane nodes the cluster reports. */
  function UpgradeNode(e: Engine, faults: Faults, name: string, step: bool, planes: nat,
                       path: seq<Release>, rg: Ranging, ver: Reading): Walk
    requires path != [] && Ranges(rg)
  {
    var e1 := Do(e, faults, Query(name));
    if !Works(e, faults, Query(name)) then Walk(e1, 0, false)
    else
      var c := e.store[name].node;
      match PlanSteps(c.image, step, path, ver)
      case Refused => Walk(e1, 0, false)
      case Go(steps) =>
        if steps == [] then Walk(e1, 0, true)
        else if c.cmd != [] && c.cmd[0] == "server" && step then
          var e2 := Do(e1, faults, Query(name));
          if !Works(e1, faults, Query(name)) || planes > 1 then Walk(e2, 0, false)
          else WalkSteps(e2, faults, name, c, RepoOf(c.image), steps, rg)
        else WalkSteps(e1, faults, name, c, RepoOf(c.image), steps, rg)
  }

  /** The other nodes in turn, each straight to the target; the first failure ends the run. */
  function FollowAll(e: Engine, faults: Faults, nodes: seq<string>, path: seq<Release>, rg: Ranging, ver: Reading): Walk
    requires path != [] && Ranges(rg)
  {
    if nodes == [] then Walk(e, 0, true)
    else
      var w := FollowAll(e, faults, nodes[..|nodes| - 1], path, rg, ver);
      if !w.ok then w else UpgradeNode(w.engine, faults, nodes[|nodes| - 1], false, 0, path, rg, ver)
  }

  /** A server that is not running is refused; else the server first, and the other nodes after a success. */
  function UpgradeAll(e: Engine, faults: Faults, name: string, planes: nat, followers: seq<string>,
                      path: seq<Release>, rg: Ranging, ver: Reading): Walk
    requires path != [] && Ranges(rg)
  {
    var e1 := Do(e, faults, Query(name));
    if !Works(e, faults, Query(name)) || !e.store[name].running then Walk(e1, 0, false)
    else
      var w := UpgradeNode(e1, faults, name, true, planes, path, rg, ver);
      if !w.ok then w else FollowAll(w.engine, faults, followers, path, rg, ver)
  }

  /******* The loops *******/

  method RunStep(h: Host, name: string, c: Node, image: string, rg: Ranging) returns (ok: bool)
    requires Ranges(rg)
    modifies h
    ensures
      var s := StepOnce(old(h.engine), h.faults, name, c, image, rg);
      h.engine == s.engine && ok == s.Ok()
  {
    ok := h.Docker(Fetch(image));
    if !ok { return; }
    var n := c.(image := image);
    var args := BuildCreateArgs(n, name, PublishedPort(c, "80"), PublishedPort(c, "443"), rg(n).labelKeys,
        rg(n).portKeys);
    var failed := h.Recreate(name, args);
    ok := failed.None?;
  }

  method RunWalk(h: Host, name: string, c0: Node, repo: string, steps: seq<Release>, rg: Ranging) returns (done: nat,
      ok: bool)
    requires Ranges(rg)
    modifies h
    ensures Walk(h.engine, done, ok) == WalkSteps(old(h.engine), h.faults, name, c0, repo, steps, rg)
  {
    hide StepOnce;
    var c := c0;
    done := 0;
    while done < |steps|
      invariant done <= |steps|
      invariant
        var rest := WalkSteps(h.engine, h.faults, name, c, repo, steps[done..], rg);
        Walk(rest.engine, rest.done + done, rest.ok) == WalkSteps(old(h.engine), h.faults, name, c0, repo, steps, rg)
    {
      var image := ImageFor(repo, steps[done]);
      assert steps[done..][1..] == steps[done + 1..];
      ok := RunStep(h, name, c, image, rg);
      if !ok { return; }
      c := c.(image := image);
      done := done + 1;
    }
    ok := true;
  }

  method RunUpgradeNode(h: Host, name: string, step: bool, planes: nat, path: seq<Release>,
      rg: Ranging) returns (done: nat, ok: bool)
    requires path != [] && Ranges(rg)
    modifies h
    ensures Walk(h.engine, done, ok) == UpgradeNode(old(h.engine), h.faults, name, step, planes, path, rg, ImageVersion)
  {
    var found := h.Docker(Query(name));
    if !found { return 0, false; }
    var c := h.engine.store[name].node;
    var plan := PlanSteps(c.image, step, path, ImageVersion);
    if plan.Refused? { return 0, false; }
    if plan.steps == [] { return 0, true; }
    if c.cmd != [] && c.cmd[0] == "server" && step {
      var listed := h.Docker(Query(name));
      if !listed || planes > 1 { return 0, false; }
    }
    done, ok := RunWalk(h, name, c, RepoOf(c.image), plan.steps, rg);
  }

  method RunUpgrade(h: Host, name: string, planes: nat, followers: seq<string>, path: seq<Release>,
      rg: Ranging) returns (done: nat, ok: bool)
    requires path != [] && Ranges(rg)
    modifies h
    ensures Walk(h.engine, done, ok)
        == UpgradeAll(old(h.engine), h.faults, name, planes, followers, path, rg, ImageVersion)
  {
    var found := h.Docker(Query(name));
    if !found || !h.engine.store[name].running { return 0, false; }
    done, ok := RunUpgradeNode(h, name, true, planes, path, rg);
    if !ok { return; }
    done := 0;
    ghost var e := h.engine;
    for i := 0 to |followers|
      invariant Walk(h.engine, done, true) == FollowAll(e, h.faults, followers[..i], path, rg, ImageVersion)
    {
      assert followers[..i + 1][..i] == followers[..i];
      done, ok := RunUpgradeNode(h, followers[i], false, 0, path, rg);
      if !ok {
        FollowStops(e, h.faults, followers, i + 1, path, rg, ImageVersion);
        return;
      }
    }
    assert followers[..|followers|] == followers;
  }

  /** Once a node has failed, the nodes after it change nothing. */
  lemma {:induction false} FollowStops(e: Engine, faults: Faults, nodes: seq<string>, k: nat, path: seq<Release>,
      rg: Ranging, ver: Reading)
    requires path != [] && Ranges(rg) && k <= |nodes| && !FollowAll(e, faults, nodes[..k], path, rg, ver).ok
    ensures FollowAll(e, faults, nodes, path, rg, ver) == FollowAll(e, faults, nodes[..k], path, rg, ver)
  {
    if k < |nodes| {
      var init := nodes[..|nodes| - 1];
      assert init[..k] == nodes[..k];
      FollowStops(e, faults, init, k, path, rg, ver);
    } else {
      assert nodes[..k] == nodes;
    }
  }
}
