/** Where an upgrade leaves the nodes, and the order their versions keep on the way. */
module UpgradeLaws {
  import opened Common
  import opened Text
  import opened NodeArgs
  import opened NodeLaws
  import opened Recreate
  import opened Versions
  import opened Upgrade

  /** The node an upgrade step makes of the one it started from. */
  ghost function Stepped(c: Node, image: string): Node {
    Canonical(c.(image := image), PublishedPort(c, "80"), PublishedPort(c, "443"))
  }

  lemma ArgsRead(c: Node, name: string, image: string, rg: Ranging)
    requires Ranges(rg) && Inspected(c) && image != "" && image[0] != '-'
    ensures Interpret(ArgsFor(c, name, image, rg)) == Some(Created(name, Stepped(c, image)))
  {
    var n := c.(image := image);
    assert Lists(rg(n).labelKeys, n.labels) && Lists(rg(n).portKeys, n.ports);
    ReadsBack(n, name, PublishedPort(c, "80"), PublishedPort(c, "443"), rg(n).labelKeys, rg(n).portKeys);
  }

  lemma ImagePlain(repo: string, r: Release)
    requires repo != "" && repo[0] != '-'
    ensures ImageFor(repo, r) != "" && ImageFor(repo, r)[0] != '-'
  {
  }

  ghost predicate PlainRepo(repo: string) {
    repo != "" && repo[0] != '-'
  }

  /** A node that is up, under its own name, and older than the next command. */
  ghost predicate Up(e: Engine, name: string) {
    name in e.store && e.store[name].running && e.store[name].id < e.clock
  }

  /******* One step *******/

  lemma StepOk(e: Engine, faults: Faults, name: string, c: Node, image: string, rg: Ranging)
    requires Ranges(rg) && Inspected(c) && image != "" && image[0] != '-' && Up(e, name)
    requires StepOnce(e, faults, name, c, image, rg).Ok()
    ensures
      var s := StepOnce(e, faults, name, c, image, rg);
      && Up(s.engine, name) && s.engine.store[name].node == Stepped(c, image)
      && s.engine.store[name].password == e.store[name].password
  {
    ArgsRead(c, name, image, rg);
    var e1 := Do(e, faults, Fetch(image));
    assert e1.store == e.store;
    var args := ArgsFor(c, name, image, rg);
    Success(e1, faults, name, args);
    RunClock(e1, faults, name, args);
    var r := Run(e1, faults, name, args).engine;
    assert Get(r.store, name).Some?;
  }

  /** A run that succeeds has issued eight commands. */
  lemma RunClock(e: Engine, faults: Faults, name: string, args: seq<string>)
    requires name in e.store && Run(e, faults, name, args).failed.None?
    ensures Run(e, faults, name, args).engine.clock == e.clock + 8
  {
    var e3 := Do(Do(Do(e, faults, CopyOut(name)), faults, StopNode(name)), faults, Rename(name, Old(name)));
    ReplaceClock(e3, faults, name, NewNode(name, args, e.store[name].password.value));
  }

  lemma {:induction false} ReplaceClock(e: Engine, faults: Faults, name: string, steps: seq<(Cmd, Stage)>)
    ensures
      var r := Replace(e, faults, name, steps);
      r.failed.None? ==> r.engine.clock == e.clock + |steps| + 1
    decreases |steps|
  {
    if steps != [] {
      ReplaceClock(Do(e, faults, steps[0].0), faults, name, steps[1..]);
    }
  }

  lemma StepFailed(e: Engine, faults: Faults, name: string, c: Node, image: string, rg: Ranging)
    requires Ranges(rg) && Inspected(c) && image != "" && image[0] != '-' && Up(e, name)
    requires
      var s := StepOnce(e, faults, name, c, image, rg);
      !s.Ok() && (s.run.Some? ==> RestoreWorked(s.run.value, faults))
    ensures StepOnce(e, faults, name, c, image, rg).engine.store == e.store
  {
    ArgsRead(c, name, image, rg);
    var e1 := Do(e, faults, Fetch(image));
    assert e1.store == e.store;
    if Works(e, faults, Fetch(image)) {
      ErrorRestoresIff(e1, faults, name, ArgsFor(c, name, image, rg));
    }
  }

  /** Giving the configuration another image first changes nothing of what a step makes of it. */
  lemma SameNode(c: Node, image: string)
    requires Inspected(c) && image != "" && image[0] != '-'
    ensures Inspected(c.(image := image))
    ensures forall i :: Stepped(c.(image := image), i) == Stepped(c, i)
  {
  }

  /******* Whole walks *******/

  /** The restoring commands of the step that failed, if one did, went through. */
  ghost predicate Restored(e: Engine, faults: Faults, name: string, c: Node, repo: string, steps: seq<Release>,
      rg: Ranging)
    requires Ranges(rg)
    decreases |steps|
  {
    steps == [] ||
    var image := ImageFor(repo, steps[0]);
    var s := StepOnce(e, faults, name, c, image, rg);
    if s.Ok() then Restored(s.engine, faults, name, c.(image := image), repo, steps[1..], rg)
    else s.run.Some? ==> RestoreWorked(s.run.value, faults)
  }

  /** A node's container apart from which one it is: what it was made of, its password, and that it runs. */
  ghost predicate IsNode(e: Engine, name: string, node: Node, password: Option<string>) {
    name in e.store && e.store[name].running && e.store[name].node == node && e.store[name].password == password
  }

  /**
   A walk leaves the node on the last release that reported ready, or untouched when
   none did; a walk that succeeds ends on its last release.
   */
  lemma {:induction false} WalkEnds(e: Engine, faults: Faults, name: string, c: Node, repo: string,
      steps: seq<Release>, rg: Ranging)
    requires Ranges(rg) && Inspected(c) && PlainRepo(repo) && Up(e, name)
    requires Restored(e, faults, name, c, repo, steps, rg)
    ensures
      var w := WalkSteps(e, faults, name, c, repo, steps, rg);
      && w.done <= |steps| && (w.ok ==> w.done == |steps|)
      && (w.done == 0 ==> w.engine.store == e.store)
      && (w.done > 0 ==> IsNode(w.engine, name, Stepped(c, ImageFor(repo, steps[w.done - 1])), e.store[name].password))
    decreases |steps|
  {
    hide StepOnce;
    hide Stepped;
    hide Inspected;
    hide ImageFor;
    if steps != [] {
      var image := ImageFor(repo, steps[0]);
      ImagePlain(repo, steps[0]);
      var s := StepOnce(e, faults, name, c, image, rg);
      if s.Ok() {
        StepOk(e, faults, name, c, image, rg);
        var c' := c.(image := image);
        SameNode(c, image);
        WalkEnds(s.engine, faults, name, c', repo, steps[1..], rg);
        var w := WalkSteps(s.engine, faults, name, c', repo, steps[1..], rg);
        if w.done > 0 {
          assert steps[1..][w.done - 1] == steps[w.done];
        }
      } else {
        StepFailed(e, faults, name, c, image, rg);
      }
    }
  }

  /** A node orcinus can upgrade: as docker shows it, on an image whose releases the reading understands. */
  ghost predicate Upgradable(c: Node, path: seq<Release>, ver: Reading) {
    && Inspected(c) && PlainRepo(RepoOf(c.image))
    && forall r | r in path :: ver(ImageFor(RepoOf(c.image), r)) == Some(r.version)
  }

  /** Docker when the first step of an upgrade begins. */
  ghost function WalkStart(e: Engine, faults: Faults, name: string, step: bool): Engine
    requires name in e.store
  {
    var e1, c := Do(e, faults, Query(name)), e.store[name].node;
    if c.cmd != [] && c.cmd[0] == "server" && step then Do(e1, faults, Query(name)) else e1
  }

  lemma PlanIsSteps(image: string, step: bool, path: seq<Release>, ver: Reading)
    requires Climbs(path) && PlanSteps(image, step, path, ver).Go?
    ensures
      var steps, v := PlanSteps(image, step, path, ver).steps, ver(image).value;
      && ver(image).Some?
      && (steps == [] <==> !Newer(Target(path).version, v))
      && (steps != [] ==> steps[|steps| - 1] == Target(path))
      && forall r | r in steps :: r in path && Newer(r.version, v)
  {
    var v := ver(image).value;
    StepsClimb(path, v);
    var k := RemainingIsSuffix(path, v);
    assert forall r | r in path[k..] :: r in path;
  }

  /** The node runs the given release, with everything else about it as before. */
  ghost predicate OnRelease(e: Engine, name: string, c: Node, password: Option<string>, r: Release, ver: Reading) {
    && IsNode(e, name, Stepped(c, ImageFor(RepoOf(c.image), r)), password)
    && ver(e.store[name].node.image) == Some(r.version) && e.store[name].node.privileged
  }

  lemma ClimbsSomewhere(path: seq<Release>)
    requires Climbs(path)
    ensures path != []
  {
  }

  /** An upgrade of one node either touches nothing or walks its plan. */
  lemma NodeWalks(e: Engine, faults: Faults, name: string, step: bool, planes: nat, path: seq<Release>, rg: Ranging,
      ver: Reading)
    requires path != [] && Ranges(rg) && Up(e, name)
    ensures
      var c := e.store[name].node;
      var w := UpgradeNode(e, faults, name, step, planes, path, rg, ver);
      var plan := PlanSteps(c.image, step, path, ver);
      var e' := WalkStart(e, faults, name, step);
      && e'.store == e.store && Up(e', name)
      && (|| (w.done == 0 && w.engine.store == e.store && (w.ok ==> plan == Go([])))
          || (plan.Go? && w == WalkSteps(e', faults, name, c, RepoOf(c.image), plan.steps, rg)))
  {
    hide WalkSteps;
    hide PlanSteps;
    hide RepoOf;
  }

  /**
   With restores succeeding, a failed run leaves the node on the last release that
   reported ready (or as it was), and a successful one on the target, unless it was
   already at or past it and is untouched.
   */
  lemma NodeEnds(e: Engine, faults: Faults, name: string, step: bool, planes: nat, path: seq<Release>, rg: Ranging,
      ver: Reading)
    requires Climbs(path) && Ranges(rg) && Up(e, name) && Upgradable(e.store[name].node, path, ver)
    requires
      var c := e.store[name].node;
      var plan := PlanSteps(c.image, step, path, ver);
      plan.Go? ==> Restored(WalkStart(e, faults, name, step), faults, name, c, RepoOf(c.image), plan.steps, rg)
    ensures
      var c, password := e.store[name].node, e.store[name].password;
      var w := UpgradeNode(e, faults, name, step, planes, path, rg, ver);
      var plan := PlanSteps(c.image, step, path, ver);
      && (w.done == 0 ==> w.engine.store == e.store)
      && (w.done > 0 ==>
            plan.Go? && w.done <= |plan.steps| && OnRelease(w.engine, name, c, password, plan.steps[w.done - 1], ver))
      && (w.ok ==>
            && ver(c.image).Some?
            && (if Newer(Target(path).version, ver(c.image).value)
                then w.done > 0 && ver(w.engine.store[name].node.image) == Some(Target(path).version)
                else w.done == 0))
  {
    hide WalkSteps;
    hide WalkStart;
    hide Restored;
    hide Inspected;
    hide Climbs;
    hide RepoOf;
    hide ImageFor;
    hide UpgradeNode;
    hide PlanSteps;
    var c := e.store[name].node;
    ClimbsSomewhere(path);
    NodeWalks(e, faults, name, step, planes, path, rg, ver);
    var plan := PlanSteps(c.image, step, path, ver);
    var e' := WalkStart(e, faults, name, step);
    if plan.Go? {
      var repo := RepoOf(c.image);
      PlanIsSteps(c.image, step, path, ver);
      WalkEnds(e', faults, name, c, repo, plan.steps, rg);
      var w := WalkSteps(e', faults, name, c, repo, plan.steps, rg);
      if w.done > 0 {
        var r := plan.steps[w.done - 1];
        assert r in plan.steps;
        assert Stepped(c, ImageFor(repo, r)).image == ImageFor(repo, r);
      }
    }
  }

  /** What the upgrade reports is the target, so a node already past it is misreported: exactly then. */
  lemma ReportedVersionIff(e: Engine, faults: Faults, name: string, planes: nat, path: seq<Release>, rg: Ranging,
      ver: Reading)
    requires Climbs(path) && Ranges(rg) && Up(e, name) && Upgradable(e.store[name].node, path, ver)
    requires
      var c := e.store[name].node;
      var plan := PlanSteps(c.image, true, path, ver);
      plan.Go? ==> Restored(WalkStart(e, faults, name, true), faults, name, c, RepoOf(c.image), plan.steps, rg)
    requires UpgradeNode(e, faults, name, true, planes, path, rg, ver).ok
    ensures
      var w := UpgradeNode(e, faults, name, true, planes, path, rg, ver);
      && name in w.engine.store
      && (ver(w.engine.store[name].node.image) == Some(Target(path).version)
          <==> !Newer(ver(e.store[name].node.image).value, Target(path).version))
  {
    hide UpgradeNode;
    hide Restored;
    hide Inspected;
    NodeEnds(e, faults, name, true, planes, path, rg, ver);
  }

  /******* Which images are seen on the way *******/

  /** The node's names hold only these images, apart from an older "-old" that was there before. */
  ghost predicate Within(s: Store, s0: Store, name: string, images: set<string>) {
    && (name in s ==> s[name].node.image in images)
    && (Old(name) in s ==> s[Old(name)].node.image in images || Get(s0, Old(name)) == Some(s[Old(name)]))
    && (name !in s ==> Old(name) in s && s[Old(name)].node.image in images)
    && Apart(s, s0, name)
  }

  ghost predicate AllWithin(log: seq<Entry>, from: nat, s0: Store, name: string, images: set<string>) {
    forall k | from <= k < |log| :: Within(log[k].store, s0, name, images)
  }

  lemma StepWithin(e: Engine, faults: Faults, name: string, c: Node, image: string, rg: Ranging, s0: Store,
      images: set<string>)
    requires Ranges(rg) && Inspected(c) && image != "" && image[0] != '-' && image in images
    requires name in e.store && Within(e.store, s0, name, images)
    ensures
      var s := StepOnce(e, faults, name, c, image, rg);
      && e.log <= s.engine.log && AllWithin(s.engine.log, |e.log|, s0, name, images)
      && Within(s.engine.store, s0, name, images)
      && (s.Ok() ==> name in s.engine.store)
  {
    hide Run;
    hide Interpret;
    hide ArgsFor;
    hide Inspected;
    ArgsRead(c, name, image, rg);
    var args := ArgsFor(c, name, image, rg);
    var e1 := Do(e, faults, Fetch(image));
    assert e1.store == e.store && e1.log == e.log + [Entry(Fetch(image), Works(e, faults, Fetch(image)), e.store)];
    if Works(e, faults, Fetch(image)) {
      RunSeen(e1, faults, name, args, Stepped(c, image));
      RunApart(e1, faults, name, args);
      assert Stepped(c, image).image == image;
      var r := Run(e1, faults, name, args);
      forall s | Seen(s, e1.store, name, Stepped(c, image)) && Apart(s, e1.store, name)
        ensures Within(s, s0, name, images)
      {
        SeenWithin(s, e.store, s0, name, Stepped(c, image), images);
      }
      if r.failed.None? { Success(e1, faults, name, args); }
    }
  }

  lemma SeenWithin(s: Store, s1: Store, s0: Store, name: string, new': Node, images: set<string>)
    requires name in s1 && Within(s1, s0, name, images) && Seen(s, s1, name, new') && new'.image in images
        && Apart(s, s1, name)
    ensures Within(s, s0, name, images)
  {
  }

  lemma {:induction false} WalkWithin(e: Engine, faults: Faults, name: string, c: Node, repo: string,
      steps: seq<Release>, rg: Ranging,
                                      s0: Store, images: set<string>)
    requires Ranges(rg) && Inspected(c) && PlainRepo(repo) && forall r | r in steps :: ImageFor(repo, r) in images
    requires name in e.store && Within(e.store, s0, name, images)
    ensures
      var w := WalkSteps(e, faults, name, c, repo, steps, rg).engine;
      e.log <= w.log && AllWithin(w.log, |e.log|, s0, name, images) && Within(w.store, s0, name, images)
    decreases |steps|
  {
    hide StepOnce;
    hide Inspected;
    hide Within;
    hide ImageFor;
    if steps != [] {
      var image := ImageFor(repo, steps[0]);
      assert steps[0] in steps;
      ImagePlain(repo, steps[0]);
      StepWithin(e, faults, name, c, image, rg, s0, images);
      var s := StepOnce(e, faults, name, c, image, rg);
      if s.Ok() {
        SameNode(c, image);
        WalkWithin(s.engine, faults, name, c.(image := image), repo, steps[1..], rg, s0, images);
      }
    }
  }

  /** The images an upgrade of a node can put it on, its own included. */
  ghost function Images(c: Node, step: bool, path: seq<Release>, ver: Reading): set<string>
    requires path != []
  {
    var plan := PlanSteps(c.image, step, path, ver);
    {c.image} + if plan.Refused? then {} else set r | r in plan.steps :: ImageFor(RepoOf(c.image), r)
  }

  lemma NodeWithin(e: Engine, faults: Faults, name: string, step: bool, planes: nat, path: seq<Release>, rg: Ranging,
      ver: Reading)
    requires path != [] && Ranges(rg) && name in e.store && Inspected(e.store[name].node)
        && PlainRepo(RepoOf(e.store[name].node.image))
    ensures
      var w := UpgradeNode(e, faults, name, step, planes, path, rg, ver).engine;
      var images := Images(e.store[name].node, step, path, ver);
      e.log <= w.log && AllWithin(w.log, |e.log|, e.store, name, images) && Within(w.store, e.store, name, images)
  {
    hide WalkSteps;
    hide Inspected;
    hide StepsFrom;
    var c := e.store[name].node;
    var images := Images(c, step, path, ver);
    assert Within(e.store, e.store, name, images);
    var plan := PlanSteps(c.image, step, path, ver);
    var e1 := Do(e, faults, Query(name));
    var e2 := Do(e1, faults, Query(name));
    if plan.Go? {
      WalkWithin(e1, faults, name, c, RepoOf(c.image), plan.steps, rg, e.store, images);
      WalkWithin(e2, faults, name, c, RepoOf(c.image), plan.steps, rg, e.store, images);
    }
  }

  /******* No follower overtakes the server *******/

  /** The container that stands for a node: the one under its name, or else the one put aside. */
  ghost function Face(s: Store, name: string): Ctr
    requires name in s || Old(name) in s
  {
    if name in s then s[name] else s[Old(name)]
  }

  ghost predicate AtMost(a: Option<Version>, b: Option<Version>) {
    a.Some? && b.Some? && !Newer(a.value, b.value)
  }

  /** Not known to be newer: an image that reads as no version is newer than none. */
  ghost predicate NotNewer(a: Option<Version>, b: Option<Version>) {
    a.Some? && b.Some? ==> !Newer(a.value, b.value)
  }

  /** No container a follower has, under either name, is newer than the server. */
  ghost predicate Behind(s: Store, name: string, followers: seq<string>, ver: Reading) {
    && (name in s || Old(name) in s)
    && forall n, x | n in followers && (x == n || x == Old(n)) && x in s ::
      NotNewer(ver(s[x].node.image), ver(Face(s, name).node.image))
  }

  ghost predicate AllBehind(log: seq<Entry>, from: nat, name: string, followers: seq<string>, ver: Reading) {
    forall k | from <= k < |log| :: Behind(log[k].store, name, followers, ver)
  }

  /** No node is called what another one is called while it is put aside. */
  ghost predicate Separate(name: string, followers: seq<string>) {
    && Distinct(followers) && name !in followers
    && forall a, b | (a == name || a in followers) && (b == name || b in followers) :: a != Old(b)
  }

  lemma OldInjective(a: string, b: string)
    requires Old(a) == Old(b)
    ensures a == b
  {
    SuffixInjective(a, b, "-old");
  }

  lemma ImagesNotOlder(c: Node, step: bool, path: seq<Release>, ver: Reading, image: string)
    requires Climbs(path) && Upgradable(c, path, ver) && image in Images(c, step, path, ver)
    ensures image == c.image || AtMost(ver(c.image), ver(image))
  {
    hide PlanSteps;
    hide Inspected;
    var plan := PlanSteps(c.image, step, path, ver);
    if plan.Go? {
      PlanIsSteps(c.image, step, path, ver);
    }
  }

  /** While the server is being upgraded nothing of the followers changes, and the server only gets newer. */
  lemma ServerLeads(s: Store, s0: Store, name: string, followers: seq<string>, path: seq<Release>, ver: Reading)
    requires Climbs(path) && name in s0 && Upgradable(s0[name].node, path, ver) && Separate(name, followers)
    requires Behind(s0, name, followers, ver)
    requires Within(s, s0, name, Images(s0[name].node, true, path, ver))
    ensures Behind(s, name, followers, ver)
  {
    hide Upgradable;
    hide Images;
    var c := s0[name].node;
    var face := Face(s, name).node.image;
    ImagesNotOlder(c, true, path, ver, face);
    forall n, x | n in followers && (x == n || x == Old(n)) && x in s
      ensures NotNewer(ver(s[x].node.image), ver(face))
    {
      if Old(n) == Old(name) { OldInjective(n, name); }
      assert Get(s, x) == Get(s0, x);
      assert NotNewer(ver(s0[x].node.image), ver(Face(s0, name).node.image));
    }
  }

  /** While a follower is being upgraded the server stands still, at the target or past it. */
  lemma FollowerStays(s: Store, s0: Store, name: string, f: string, followers: seq<string>, path: seq<Release>,
      ver: Reading)
    requires Climbs(path) && name in s0 && f in followers && f in s0 && Upgradable(s0[f].node, path, ver)
        && Separate(name, followers)
    requires Behind(s0, name, followers, ver)
    requires AtMost(Some(Target(path).version), ver(s0[name].node.image))
    requires Within(s, s0, f, Images(s0[f].node, false, path, ver))
    ensures Behind(s, name, followers, ver) && Get(s, name) == Some(s0[name])
    ensures forall n | n in followers && n != f :: Get(s, n) == Get(s0, n)
  {
    hide Upgradable;
    hide Images;
    if Old(name) == Old(f) { OldInjective(name, f); }
    assert Get(s, name) == Get(s0, name);
    var lead := ver(s0[name].node.image);
    assert NotNewer(ver(s0[f].node.image), lead);
    forall i | i in Images(s0[f].node, false, path, ver) ensures NotNewer(ver(i), lead) {
      ImagesAtMost(s0[f].node, path, ver, i, lead);
    }
    forall n, x | n in followers && (x == n || x == Old(n)) && x in s
      ensures NotNewer(ver(s[x].node.image), lead)
    {
      if n != f && Old(n) == Old(f) { OldInjective(n, f); }
      if x != f && x != Old(f) {
        assert Get(s, x) == Get(s0, x);
      }
    }
  }

  lemma ImagesAtMost(c: Node, path: seq<Release>, ver: Reading, image: string, lead: Option<Version>)
    requires Climbs(path) && Upgradable(c, path, ver) && image in Images(c, false, path, ver)
    requires NotNewer(ver(c.image), lead) && AtMost(Some(Target(path).version), lead)
    ensures NotNewer(ver(image), lead)
  {
    hide PlanSteps;
    hide Inspected;
    var plan := PlanSteps(c.image, false, path, ver);
    if plan.Go? {
      PlanIsSteps(c.image, false, path, ver);
      if r :| r in plan.steps && image == ImageFor(RepoOf(c.image), r) {
        assert !Newer(r.version, Target(path).version);
      }
    }
  }

  ghost predicate FollowersReady(s: Store, followers: seq<string>, path: seq<Release>, ver: Reading) {
    forall n | n in followers && n in s :: Upgradable(s[n].node, path, ver)
  }

  lemma {:induction false} FollowersStayBehind(e: Engine, faults: Faults, name: string, todo: seq<string>,
      followers: seq<string>,
                                               path: seq<Release>, rg: Ranging, ver: Reading)
    requires Climbs(path) && Ranges(rg) && Separate(name, followers) && name in e.store && todo <= followers
    requires Behind(e.store, name, followers, ver) && FollowersReady(e.store, followers, path, ver)
    requires AtMost(Some(Target(path).version), ver(e.store[name].node.image))
    ensures
      var w := FollowAll(e, faults, todo, path, rg, ver).engine;
      && e.log <= w.log && AllBehind(w.log, |e.log|, name, followers, ver)
      && Behind(w.store, name, followers, ver) && Get(w.store, name) == Some(e.store[name])
      && forall n | n in followers && n !in todo :: Get(w.store, n) == Get(e.store, n)
  {
    hide UpgradeNode;
    hide Behind;
    hide Upgradable;
    if todo != [] {
      var init, f := todo[..|todo| - 1], todo[|todo| - 1];
      FollowersStayBehind(e, faults, name, init, followers, path, rg, ver);
      var w0 := FollowAll(e, faults, init, path, rg, ver);
      assert f == followers[|init|] && f !in init;
      if w0.ok {
        FollowerTurn(w0.engine, faults, name, f, followers, path, rg, ver);
      }
    }
  }

  lemma UpgradableIs(c: Node, path: seq<Release>, ver: Reading)
    requires Upgradable(c, path, ver)
    ensures Inspected(c) && PlainRepo(RepoOf(c.image))
  {
  }

  lemma MissingNode(e: Engine, faults: Faults, f: string, path: seq<Release>, rg: Ranging, ver: Reading)
    requires path != [] && Ranges(rg) && f !in e.store
    ensures
      var w := UpgradeNode(e, faults, f, false, 0, path, rg, ver).engine;
      w.store == e.store && w.log == e.log + [Entry(Query(f), false, e.store)]
  {
    hide WalkSteps;
    hide PlanSteps;
    hide RepoOf;
  }

  /** One follower's whole upgrade keeps every state behind the server. */
  lemma FollowerTurn(e: Engine, faults: Faults, name: string, f: string, followers: seq<string>, path: seq<Release>,
      rg: Ranging, ver: Reading)
    requires Climbs(path) && Ranges(rg) && Separate(name, followers) && name in e.store && f in followers
    requires Behind(e.store, name, followers, ver)
    requires f in e.store ==> Upgradable(e.store[f].node, path, ver)
    requires AtMost(Some(Target(path).version), ver(e.store[name].node.image))
    ensures
      var w := UpgradeNode(e, faults, f, false, 0, path, rg, ver).engine;
      && e.log <= w.log && AllBehind(w.log, |e.log|, name, followers, ver)
      && Behind(w.store, name, followers, ver) && Get(w.store, name) == Some(e.store[name])
      && forall n | n in followers && n != f :: Get(w.store, n) == Get(e.store, n)
  {
    hide UpgradeNode;
    hide Behind;
    hide Within;
    hide Images;
    hide Upgradable;
    if f !in e.store {
      MissingNode(e, faults, f, path, rg, ver);
    } else {
      assert Inspected(e.store[f].node) && PlainRepo(RepoOf(e.store[f].node.image))
          by { UpgradableIs(e.store[f].node, path, ver); }
      NodeWithin(e, faults, f, false, 0, path, rg, ver);
      forall s | Within(s, e.store, f, Images(e.store[f].node, false, path, ver))
        ensures Behind(s, name, followers, ver) && Get(s, name) == Some(e.store[name])
        ensures forall n | n in followers && n != f :: Get(s, n) == Get(e.store, n)
      {
        FollowerStays(s, e.store, name, f, followers, path, ver);
      }
    }
  }

  /**
   In a server-first upgrade no follower is newer than the server in any state of the
   run, whatever docker commands fail, if none was at the start.
   */
  lemma NeverOvertaken(e: Engine, faults: Faults, name: string, planes: nat, followers: seq<string>,
                       path: seq<Release>, rg: Ranging, ver: Reading)
    requires Climbs(path) && Ranges(rg) && Separate(name, followers) && Up(e, name)
    requires Upgradable(e.store[name].node, path, ver) && FollowersReady(e.store, followers, path, ver)
    requires Behind(e.store, name, followers, ver)
    ensures
      var w := UpgradeAll(e, faults, name, planes, followers, path, rg, ver).engine;
      e.log <= w.log && AllBehind(w.log, |e.log|, name, followers, ver)
  {
    hide UpgradeNode;
    hide FollowAll;
    hide Behind;
    hide Within;
    hide Images;
    hide Upgradable;
    LooksOnce(e, faults, name);
    var e1 := Do(e, faults, Query(name));
    var w := UpgradeNode(e1, faults, name, true, planes, path, rg, ver);
    ServerWithin(e1, faults, name, planes, path, rg, ver);
    forall s | Within(s, e.store, name, Images(e.store[name].node, true, path, ver))
        ensures Behind(s, name, followers, ver) {
      ServerLeads(s, e.store, name, followers, path, ver);
    }
    if w.ok {
      NodeReached(e1, faults, name, true, planes, path, rg, ver);
      FollowersUntouched(w.engine.store, e.store, name, followers, path, ver);
      FollowersStayBehind(w.engine, faults, name, followers, followers, path, rg, ver);
    }
  }

  lemma LooksOnce(e: Engine, faults: Faults, name: string)
    requires Up(e, name)
    ensures
      var e1 := Do(e, faults, Query(name));
      e1.store == e.store && Up(e1, name) && |e1.log| == |e.log| + 1 && e.log <= e1.log && e1.log[|e.log|].store == e.store
  {
  }

  lemma ServerWithin(e: Engine, faults: Faults, name: string, planes: nat, path: seq<Release>, rg: Ranging,
      ver: Reading)
    requires path != [] && Ranges(rg) && name in e.store && Upgradable(e.store[name].node, path, ver)
    ensures
      var w := UpgradeNode(e, faults, name, true, planes, path, rg, ver).engine;
      var images := Images(e.store[name].node, true, path, ver);
      e.log <= w.log && AllWithin(w.log, |e.log|, e.store, name, images) && Within(w.store, e.store, name, images)
  {
    NodeWithin(e, faults, name, true, planes, path, rg, ver);
  }

  lemma FollowersUntouched(s: Store, s0: Store, name: string, followers: seq<string>, path: seq<Release>, ver: Reading)
    requires Apart(s, s0, name) && Separate(name, followers) && FollowersReady(s0, followers, path, ver)
    ensures FollowersReady(s, followers, path, ver)
  {
    hide Upgradable;
    forall n | n in followers && n in s ensures Upgradable(s[n].node, path, ver) {
      assert Get(s, n) == Get(s0, n);
    }
  }

  /** After a successful upgrade the node is at the target or past it, restores or not. */
  lemma NodeReached(e: Engine, faults: Faults, name: string, step: bool, planes: nat, path: seq<Release>, rg: Ranging,
      ver: Reading)
    requires Climbs(path) && Ranges(rg) && Up(e, name) && Upgradable(e.store[name].node, path, ver)
    requires UpgradeNode(e, faults, name, step, planes, path, rg, ver).ok
    ensures
      var w := UpgradeNode(e, faults, name, step, planes, path, rg, ver).engine;
      && name in w.store && Apart(w.store, e.store, name)
      && AtMost(Some(Target(path).version), ver(w.store[name].node.image))
  {
    var c := e.store[name].node;
    var plan := PlanSteps(c.image, step, path, ver);
    var e' := WalkStart(e, faults, name, step);
    if plan.Go? {
      OkIsRestored(e', faults, name, c, RepoOf(c.image), plan.steps, rg);
    }
    NodeEnds(e, faults, name, step, planes, path, rg, ver);
    NodeWithin(e, faults, name, step, planes, path, rg, ver);
  }

  lemma {:induction false} OkIsRestored(e: Engine, faults: Faults, name: string, c: Node, repo: string,
      steps: seq<Release>, rg: Ranging)
    requires Ranges(rg) && WalkSteps(e, faults, name, c, repo, steps, rg).ok
    ensures Restored(e, faults, name, c, repo, steps, rg)
    decreases |steps|
  {
    hide StepOnce;
    if steps != [] {
      var image := ImageFor(repo, steps[0]);
      var s := StepOnce(e, faults, name, c, image, rg);
      OkIsRestored(s.engine, faults, name, c.(image := image), repo, steps[1..], rg);
    }
  }

  /******* The whole cluster *******/

  lemma {:induction false} WalkClock(e: Engine, faults: Faults, name: string, c: Node, repo: string,
      steps: seq<Release>, rg: Ranging)
    requires Ranges(rg) && Inspected(c) && PlainRepo(repo) && Up(e, name)
    ensures WalkSteps(e, faults, name, c, repo, steps, rg).engine.clock >= e.clock
    decreases |steps|
  {
    hide Run;
    hide ArgsFor;
    hide Interpret;
    hide Inspected;
    hide ImageFor;
    if steps != [] {
      var image := ImageFor(repo, steps[0]);
      ImagePlain(repo, steps[0]);
      var s := StepOnce(e, faults, name, c, image, rg);
      LastLogged(Do(e, faults, Fetch(image)), faults, name, ArgsFor(c, name, image, rg));
      if s.Ok() {
        StepOk(e, faults, name, c, image, rg);
        SameNode(c, image);
        WalkClock(s.engine, faults, name, c.(image := image), repo, steps[1..], rg);
      }
    }
  }

  lemma NodeClock(e: Engine, faults: Faults, name: string, step: bool, planes: nat, path: seq<Release>, rg: Ranging,
      ver: Reading)
    requires path != [] && Ranges(rg) && Up(e, name) && Upgradable(e.store[name].node, path, ver)
    ensures UpgradeNode(e, faults, name, step, planes, path, rg, ver).engine.clock >= e.clock
  {
    hide WalkSteps;
    hide Inspected;
    hide RepoOf;
    hide PlanSteps;
    var c := e.store[name].node;
    var plan := PlanSteps(c.image, step, path, ver);
    if plan.Go? {
      var e1 := Do(e, faults, Query(name));
      WalkClock(e1, faults, name, c, RepoOf(c.image), plan.steps, rg);
      WalkClock(Do(e1, faults, Query(name)), faults, name, c, RepoOf(c.image), plan.steps, rg);
    }
  }

  ghost predicate AtTarget(s: Store, n: string, path: seq<Release>, ver: Reading)
    requires path != []
  {
    n in s && AtMost(Some(Target(path).version), ver(s[n].node.image))
  }

  ghost predicate Waiting(e: Engine, n: string, path: seq<Release>, ver: Reading) {
    Up(e, n) && Upgradable(e.store[n].node, path, ver)
  }

  /** One node's successful turn brings it to the target and leaves the others where they are. */
  lemma TurnReaches(e: Engine, faults: Faults, f: string, step: bool, planes: nat, path: seq<Release>, rg: Ranging,
      ver: Reading, n: string)
    requires Climbs(path) && Ranges(rg) && Waiting(e, f, path, ver) && n != Old(f)
    requires UpgradeNode(e, faults, f, step, planes, path, rg, ver).ok
    ensures
      var w := UpgradeNode(e, faults, f, step, planes, path, rg, ver).engine;
      && AtTarget(w.store, f, path, ver)
      && (n != f && AtTarget(e.store, n, path, ver) ==> AtTarget(w.store, n, path, ver))
      && (n != f && Waiting(e, n, path, ver) ==> Waiting(w, n, path, ver))
  {
    hide UpgradeNode;
    hide Upgradable;
    NodeReached(e, faults, f, step, planes, path, rg, ver);
    NodeClock(e, faults, f, step, planes, path, rg, ver);
    var w := UpgradeNode(e, faults, f, step, planes, path, rg, ver).engine;
    if n != f {
      assert Get(w.store, n) == Get(e.store, n);
    }
  }

  lemma {:induction false} FollowersReach(e: Engine, faults: Faults, name: string, todo: seq<string>,
      followers: seq<string>, path: seq<Release>, rg: Ranging, ver: Reading)
    requires Climbs(path) && Ranges(rg) && Separate(name, followers) && todo <= followers
    requires AtTarget(e.store, name, path, ver) && forall n | n in followers :: Waiting(e, n, path, ver)
    requires FollowAll(e, faults, todo, path, rg, ver).ok
    ensures
      var w := FollowAll(e, faults, todo, path, rg, ver).engine;
      && AtTarget(w.store, name, path, ver)
      && (forall n | n in todo :: AtTarget(w.store, n, path, ver))
      && (forall n | n in followers && n !in todo :: Waiting(w, n, path, ver))
  {
    hide UpgradeNode;
    hide AtTarget;
    hide Waiting;
    if todo != [] {
      var init, f := todo[..|todo| - 1], todo[|todo| - 1];
      FollowersReach(e, faults, name, init, followers, path, rg, ver);
      var w0 := FollowAll(e, faults, init, path, rg, ver).engine;
      assert f == followers[|init|] && f !in init;
      forall n | n == name || n in followers
        ensures
          var w := UpgradeNode(w0, faults, f, false, 0, path, rg, ver).engine;
          && AtTarget(w.store, f, path, ver)
          && (n != f && AtTarget(w0.store, n, path, ver) ==> AtTarget(w.store, n, path, ver))
          && (n != f && Waiting(w0, n, path, ver) ==> Waiting(w, n, path, ver))
      {
        TurnReaches(w0, faults, f, false, 0, path, rg, ver, n);
      }
    }
  }

  lemma WaitingStill(e: Engine, faults: Faults, name: string, n: string, path: seq<Release>, ver: Reading)
    requires Climbs(path) && Waiting(e, n, path, ver)
    ensures Waiting(Do(e, faults, Query(name)), n, path, ver)
  {
  }

  /** A cluster whose server is not there or not running is refused after a look at it. */
  lemma StoppedServerIsRefused(e: Engine, faults: Faults, name: string, planes: nat, followers: seq<string>,
      path: seq<Release>, rg: Ranging, ver: Reading)
    requires path != [] && Ranges(rg) && (name !in e.store || !e.store[name].running)
    ensures
      var w := UpgradeAll(e, faults, name, planes, followers, path, rg, ver);
      && !w.ok && w.engine.store == e.store
      && w.engine.log == e.log + [Entry(Query(name), Works(e, faults, Query(name)), e.store)]
  {
  }

  /** When the upgrade of a cluster succeeds, its server and every other node are at the target or past it. */
  lemma AllReach(e: Engine, faults: Faults, name: string, planes: nat, followers: seq<string>, path: seq<Release>,
      rg: Ranging, ver: Reading)
    requires Climbs(path) && Ranges(rg) && Separate(name, followers)
    requires forall n | n == name || n in followers :: Waiting(e, n, path, ver)
    requires UpgradeAll(e, faults, name, planes, followers, path, rg, ver).ok
    ensures
      var w := UpgradeAll(e, faults, name, planes, followers, path, rg, ver).engine;
      forall n | n == name || n in followers :: AtTarget(w.store, n, path, ver)
  {
    hide UpgradeNode;
    hide FollowAll;
    hide AtTarget;
    hide Waiting;
    var e1 := Do(e, faults, Query(name));
    var w := UpgradeNode(e1, faults, name, true, planes, path, rg, ver);
    OldIsOther(name);
    forall n | n == name || n in followers ensures Waiting(e1, n, path, ver) {
      WaitingStill(e, faults, name, n, path, ver);
    }
    TurnReaches(e1, faults, name, true, planes, path, rg, ver, name);
    forall n | n in followers ensures Waiting(w.engine, n, path, ver) {
      TurnReaches(e1, faults, name, true, planes, path, rg, ver, n);
    }
    FollowersReach(w.engine, faults, name, followers, followers, path, rg, ver);
  }

  /******* Images are fetched before a node is touched *******/

  /** A recreation begins right after an image was fetched, and what it creates runs a fetched image. */
  ghost predicate FetchedFirst(log: seq<Entry>, from: nat) {
    forall k | from <= k < |log| :: FetchedAt(log, from, k)
  }

  ghost predicate FetchedAt(log: seq<Entry>, from: nat, k: nat)
    requires from <= k < |log|
  {
    match log[k].cmd
    case CopyOut(_) => from < k && log[k - 1].ok && log[k - 1].cmd.Fetch?
    case Create(args) => Interpret(args).Some? ==> HasFetched(log[from..k], Interpret(args).value.node.image)
    case _ => true
  }

  ghost predicate HasFetched(log: seq<Entry>, image: string) {
    exists j | 0 <= j < |log| :: log[j].ok && log[j].cmd == Fetch(image)
  }

  /** A stretch of the log with one recreation at most, which begins it and creates from these arguments. */
  ghost predicate OneCreation(log: seq<Entry>, from: nat, args: seq<string>) {
    forall k | from <= k < |log| :: (log[k].cmd.CopyOut? ==> k == from) && (log[k].cmd.Create? ==> log[k].cmd.args == args)
  }

  lemma {:induction false} ReplaceCreates(e: Engine, faults: Faults, name: string, steps: seq<(Cmd, Stage)>, from: nat,
      args: seq<string>)
    requires from < |e.log| && OneCreation(e.log, from, args)
    requires forall i | 0 <= i < |steps| :: !steps[i].0.CopyOut? && (steps[i].0.Create? ==> steps[i].0.args == args)
    ensures
      var log := Replace(e, faults, name, steps).engine.log;
      e.log <= log && OneCreation(log, from, args)
    decreases |steps|
  {
    hide Effect;
    if steps != [] {
      ReplaceCreates(Do(e, faults, steps[0].0), faults, name, steps[1..], from, args);
    }
  }

  lemma RunCreates(e: Engine, faults: Faults, name: string, args: seq<string>)
    requires name in e.store
    ensures
      var log := Run(e, faults, name, args).engine.log;
      e.log <= log && OneCreation(log, |e.log|, args)
  {
    hide Effect;
    var e1 := Do(e, faults, CopyOut(name));
    var e3 := Do(Do(e1, faults, StopNode(name)), faults, Rename(name, Old(name)));
    if Works(e, faults, CopyOut(name)) {
      ReplaceCreates(e3, faults, name, NewNode(name, args, SavedPassword(e, faults, name)), |e.log|, args);
    }
  }

  lemma StepFetches(e: Engine, faults: Faults, name: string, c: Node, image: string, rg: Ranging)
    requires Ranges(rg) && Inspected(c) && image != "" && image[0] != '-' && name in e.store
    ensures
      var log := StepOnce(e, faults, name, c, image, rg).engine.log;
      e.log <= log && FetchedFirst(log, |e.log|)
  {
    hide Run;
    hide Interpret;
    hide ArgsFor;
    hide Inspected;
    hide Stepped;
    ArgsRead(c, name, image, rg);
    SteppedImage(c, image);
    var args := ArgsFor(c, name, image, rg);
    var e1 := Do(e, faults, Fetch(image));
    var first := Entry(Fetch(image), Works(e, faults, Fetch(image)), e.store);
    assert e1.log == e.log + [first] && e1.store == e.store;
    if first.ok {
      RunCreates(e1, faults, name, args);
      var log := Run(e1, faults, name, args).engine.log;
      assert log[|e.log|] == first;
      forall k | |e.log| <= k < |log| && log[k].cmd.Create? ensures HasFetched(log[|e.log|..k], image) {
        assert k > |e.log| && log[|e.log|..k][0] == first;
      }
    }
  }

  /** What holds of one stretch of the log and of the next holds of both. */
  lemma FetchedBoth(a: seq<Entry>, b: seq<Entry>, from: nat)
    requires from <= |a| && a <= b && FetchedFirst(a, from) && FetchedFirst(b, |a|)
    ensures FetchedFirst(b, from)
  {
    hide Interpret;
    forall k | from <= k < |b| ensures FetchedAt(b, from, k) {
      if k < |a| {
        assert FetchedAt(a, from, k) && b[k] == a[k] && b[from..k] == a[from..k] && (k > 0 ==> b[k - 1] == a[k - 1]);
      } else if FetchedAt(b, |a|, k) && b[k].cmd.Create? && Interpret(b[k].cmd.args).Some? {
        var image := Interpret(b[k].cmd.args).value.node.image;
        var j :| 0 <= j < |b[|a|..k]| && b[|a|..k][j].ok && b[|a|..k][j].cmd == Fetch(image);
        assert b[from..k][|a| - from + j] == b[|a|..k][j];
      }
    }
  }

  lemma {:induction false} WalkFetches(e: Engine, faults: Faults, name: string, c: Node, repo: string,
      steps: seq<Release>, rg: Ranging)
    requires Ranges(rg) && Inspected(c) && PlainRepo(repo) && Up(e, name)
    ensures
      var log := WalkSteps(e, faults, name, c, repo, steps, rg).engine.log;
      e.log <= log && FetchedFirst(log, |e.log|)
    decreases |steps|
  {
    hide StepOnce;
    hide Inspected;
    hide Stepped;
    hide ImageFor;
    hide FetchedFirst;
    if steps == [] {
      NothingFetched(e.log, []);
      assert e.log + [] == e.log;
    } else {
      var image := ImageFor(repo, steps[0]);
      ImagePlain(repo, steps[0]);
      var s := StepOnce(e, faults, name, c, image, rg);
      StepFetches(e, faults, name, c, image, rg);
      if s.Ok() {
        StepOk(e, faults, name, c, image, rg);
        SameNode(c, image);
        WalkFetches(s.engine, faults, name, c.(image := image), repo, steps[1..], rg);
        var w := WalkSteps(s.engine, faults, name, c.(image := image), repo, steps[1..], rg);
        FetchedBoth(s.engine.log, w.engine.log, |e.log|);
      }
    }
  }

  lemma NothingFetched(log: seq<Entry>, more: seq<Entry>)
    requires forall i | 0 <= i < |more| :: more[i].cmd.Query?
    ensures FetchedFirst(log + more, |log|)
  {
  }

  /** Whatever fails, an upgrade takes a node down only after fetching the image it is to run next. */
  lemma NodeFetches(e: Engine, faults: Faults, name: string, step: bool, planes: nat, path: seq<Release>, rg: Ranging,
      ver: Reading)
    requires path != [] && Ranges(rg) && Up(e, name) && Inspected(e.store[name].node)
        && PlainRepo(RepoOf(e.store[name].node.image))
    ensures
      var log := UpgradeNode(e, faults, name, step, planes, path, rg, ver).engine.log;
      e.log <= log && FetchedFirst(log, |e.log|)
  {
    hide WalkSteps;
    hide Inspected;
    hide PlanSteps;
    hide FetchedFirst;
    hide RepoOf;
    var c := e.store[name].node;
    OnlyLooked(e, faults, name);
    var e1 := Do(e, faults, Query(name));
    var e2 := Do(e1, faults, Query(name));
    NothingFetched(e.log, e1.log[|e.log|..]);
    NothingFetched(e.log, e2.log[|e.log|..]);
    assert e1.log == e.log + e1.log[|e.log|..] && e2.log == e.log + e2.log[|e.log|..];
    var plan := PlanSteps(c.image, step, path, ver);
    if plan.Go? {
      var repo := RepoOf(c.image);
      WalkFetches(e1, faults, name, c, repo, plan.steps, rg);
      WalkFetches(e2, faults, name, c, repo, plan.steps, rg);
      FetchedBoth(e1.log, WalkSteps(e1, faults, name, c, repo, plan.steps, rg).engine.log, |e.log|);
      FetchedBoth(e2.log, WalkSteps(e2, faults, name, c, repo, plan.steps, rg).engine.log, |e.log|);
    }
  }

  /******* A server climbs, the others jump *******/

  /** At most one minor apart, whenever both can be read. */
  ghost predicate Near(a: Option<Version>, b: Option<Version>) {
    a.Some? && b.Some? ==> -1 <= b.value.minor - a.value.minor <= 1
  }

  ghost predicate Stands(s: Store, name: string) {
    name in s || Old(name) in s
  }

  /** The store that the k-th entry of a log found, the first of them finding `s0`. */
  ghost function Before(log: seq<Entry>, from: nat, k: nat, s0: Store): Store
    requires from <= k <= |log|
  {
    if k == from then s0 else log[k - 1].store
  }

  /** From one state to the next, the version that stands for the node changes by at most one minor. */
  ghost predicate OneMinor(s: Store, t: Store, name: string, ver: Reading) {
    Stands(s, name) && Stands(t, name) && Near(ver(Face(s, name).node.image), ver(Face(t, name).node.image))
  }

  ghost predicate Stepwise(log: seq<Entry>, from: nat, s0: Store, name: string, ver: Reading) {
    forall k | from <= k < |log| :: OneMinor(Before(log, from, k, s0), log[k].store, name, ver)
  }

  lemma StepwiseJoin(a: seq<Entry>, b: seq<Entry>, from: nat, s0: Store, s1: Store, name: string, ver: Reading)
    requires a <= b && from <= |a| && s1 == Before(a, from, |a|, s0)
    requires Stepwise(a, from, s0, name, ver) && Stepwise(b, |a|, s1, name, ver)
    ensures Stepwise(b, from, s0, name, ver)
  {
    hide OneMinor;
    forall k | from <= k < |b| ensures OneMinor(Before(b, from, k, s0), b[k].store, name, ver) {
      if k < |a| {
        assert OneMinor(Before(a, from, k, s0), a[k].store, name, ver);
      } else {
        assert OneMinor(Before(b, |a|, k, s1), b[k].store, name, ver);
      }
    }
  }

  /** Where only neighbouring images are seen, every change is to a neighbour. */
  lemma WithinStepwise(log: seq<Entry>, from: nat, s0: Store, name: string, images: set<string>, ver: Reading)
    requires from <= |log| && Within(s0, s0, name, images) && AllWithin(log, from, s0, name, images)
    requires forall a, b | a in images && b in images :: Near(ver(a), ver(b))
    ensures Stepwise(log, from, s0, name, ver)
  {
    hide Near;
    forall k | from <= k <= |log| ensures Within(Before(log, from, k, s0), s0, name, images) {
    }
    forall s | Within(s, s0, name, images) ensures Stands(s, name) && Face(s, name).node.image in images {
    }
  }

  /** The log ends with docker as it is. */
  ghost predicate Current(e: Engine, from: nat, s0: Store) {
    from <= |e.log| && e.store == Before(e.log, from, |e.log|, s0)
  }

  lemma StepCurrent(e: Engine, faults: Faults, name: string, c: Node, image: string, rg: Ranging)
    requires Ranges(rg) && name in e.store
    ensures Current(StepOnce(e, faults, name, c, image, rg).engine, |e.log|, e.store)
  {
    hide Run;
    hide ArgsFor;
    hide Interpret;
    var e1 := Do(e, faults, Fetch(image));
    if Works(e, faults, Fetch(image)) {
      LastLogged(e1, faults, name, ArgsFor(c, name, image, rg));
      RunLonger(e1, faults, name, ArgsFor(c, name, image, rg));
    }
  }

  lemma RunLonger(e: Engine, faults: Faults, name: string, args: seq<string>)
    requires name in e.store
    ensures |Run(e, faults, name, args).engine.log| > |e.log|
  {
    hide Effect;
    hide Interpret;
    var e3 := Do(Do(Do(e, faults, CopyOut(name)), faults, StopNode(name)), faults, Rename(name, Old(name)));
    if Works(e, faults, CopyOut(name)) {
      ReplaceLonger(e3, faults, name, NewNode(name, args, SavedPassword(e, faults, name)));
    }
  }

  lemma {:induction false} ReplaceLonger(e: Engine, faults: Faults, name: string, steps: seq<(Cmd, Stage)>)
    ensures |Replace(e, faults, name, steps).engine.log| > |e.log|
    decreases |steps|
  {
    hide Effect;
    if steps != [] {
      ReplaceLonger(Do(e, faults, steps[0].0), faults, name, steps[1..]);
    }
  }

  lemma {:induction false} WalkStepwise(e: Engine, faults: Faults, name: string, c: Node, repo: string,
      steps: seq<Release>, rg: Ranging, cur: Version, ver: Reading)
    requires Ranges(rg) && Inspected(c) && PlainRepo(repo) && Up(e, name)
    requires ver(e.store[name].node.image) == Some(cur) && Gradual(steps, cur)
    requires forall r | r in steps :: ver(ImageFor(repo, r)) == Some(r.version)
    ensures
      var w := WalkSteps(e, faults, name, c, repo, steps, rg).engine;
      e.log <= w.log && Stepwise(w.log, |e.log|, e.store, name, ver)
    decreases |steps|
  {
    hide StepOnce;
    hide Inspected;
    hide Stepped;
    hide ImageFor;
    hide Within;
    hide Stepwise;
    if steps == [] {
      assert Stepwise(e.log, |e.log|, e.store, name, ver) by { NothingLogged(e, name, ver); }
    } else {
      var image, r := ImageFor(repo, steps[0]), steps[0];
      GradualFirst(steps, cur);
      assert r in steps;
      ImagePlain(repo, r);
      var was := e.store[name].node.image;
      assert Within(e.store, e.store, name, {was, image}) by { WithinSelf(e.store, name, image); }
      StepWithin(e, faults, name, c, image, rg, e.store, {was, image});
      var s := StepOnce(e, faults, name, c, image, rg);
      WithinStepwise(s.engine.log, |e.log|, e.store, name, {was, image}, ver);
      if s.Ok() {
        StepOk(e, faults, name, c, image, rg);
        StepCurrent(e, faults, name, c, image, rg);
        SameNode(c, image);
        SteppedImage(c, image);
        assert Gradual(steps[1..], r.version) by { GradualRest(steps, cur); }
        WalkStepwise(s.engine, faults, name, c.(image := image), repo, steps[1..], rg, r.version, ver);
        var w := WalkSteps(s.engine, faults, name, c.(image := image), repo, steps[1..], rg).engine;
        StepwiseJoin(s.engine.log, w.log, |e.log|, e.store, s.engine.store, name, ver);
      }
    }
  }

  lemma NothingLogged(e: Engine, name: string, ver: Reading)
    ensures Stepwise(e.log, |e.log|, e.store, name, ver)
  {
  }

  lemma WithinSelf(s: Store, name: string, image: string)
    requires name in s
    ensures Within(s, s, name, {s[name].node.image, image})
  {
  }

  lemma SteppedImage(c: Node, image: string)
    ensures Stepped(c, image).image == image && Stepped(c, image).privileged
  {
  }

  lemma GradualRest(steps: seq<Release>, cur: Version)
    requires steps != [] && Gradual(steps, cur)
    ensures Gradual(steps[1..], steps[0].version)
  {
    var rest := steps[1..];
    forall i | 0 <= i < |rest|
      ensures
        var before := Reached(rest, steps[0].version, i);
        Newer(rest[i].version, before) && rest[i].version.minor <= before.minor + 1
    {
      assert rest[i] == steps[i + 1];
      assert i > 0 ==> rest[i - 1] == steps[i];
    }
  }

  /** At some point the wait for the node ended well while it ran as this configuration. */
  ghost predicate Awaited(log: seq<Entry>, from: nat, name: string, node: Node) {
    exists k | from <= k < |log| ::
      && log[k].cmd == AwaitReady(name) && log[k].ok
      && name in log[k].store && log[k].store[name].running && log[k].store[name].node == node
  }

  lemma StepAwaited(e: Engine, faults: Faults, name: string, c: Node, image: string, rg: Ranging)
    requires Ranges(rg) && Inspected(c) && image != "" && image[0] != '-' && Up(e, name)
    requires StepOnce(e, faults, name, c, image, rg).Ok()
    ensures
      var s := StepOnce(e, faults, name, c, image, rg).engine;
      e.log <= s.log && Awaited(s.log, |e.log|, name, Stepped(c, image))
  {
    hide Run;
    hide Interpret;
    hide ArgsFor;
    hide Inspected;
    hide Stepped;
    ArgsRead(c, name, image, rg);
    var e1 := Do(e, faults, Fetch(image));
    DroppedWhenReady(e1, faults, name, ArgsFor(c, name, image, rg));
    var log := Run(e1, faults, name, ArgsFor(c, name, image, rg)).engine.log;
    assert log[|log| - 2].cmd == AwaitReady(name);
  }

  lemma AwaitedLonger(a: seq<Entry>, b: seq<Entry>, from: nat, to: nat, name: string, node: Node)
    requires a <= b && to <= from && Awaited(a, from, name, node)
    ensures Awaited(b, to, name, node)
  {
    var k :| from <= k < |a| && a[k].cmd == AwaitReady(name) && a[k].ok
      && name in a[k].store && a[k].store[name].running && a[k].store[name].node == node;
    assert b[k] == a[k];
  }

  /** Every step that is counted as done was waited for, and reported ready. */
  lemma {:induction false} WalkAwaited(e: Engine, faults: Faults, name: string, c: Node, repo: string,
      steps: seq<Release>, rg: Ranging)
    requires Ranges(rg) && Inspected(c) && PlainRepo(repo) && Up(e, name)
    ensures
      var w := WalkSteps(e, faults, name, c, repo, steps, rg);
      && w.done <= |steps| && (w.ok ==> w.done == |steps|) && e.log <= w.engine.log
      && forall i | 0 <= i < w.done ::
          Awaited(w.engine.log, |e.log|, name, Stepped(c, ImageFor(repo, steps[i])))
    decreases |steps|
  {
    hide StepOnce;
    hide Inspected;
    hide Stepped;
    hide ImageFor;
    hide Awaited;
    if steps != [] {
      var image := ImageFor(repo, steps[0]);
      ImagePlain(repo, steps[0]);
      var s := StepOnce(e, faults, name, c, image, rg);
      assert e.log <= s.engine.log by {
        WithinSelf(e.store, name, image);
        StepWithin(e, faults, name, c, image, rg, e.store, {e.store[name].node.image, image});
      }
      if s.Ok() {
        StepOk(e, faults, name, c, image, rg);
        StepAwaited(e, faults, name, c, image, rg);
        SameNode(c, image);
        WalkAwaited(s.engine, faults, name, c.(image := image), repo, steps[1..], rg);
        var w := WalkSteps(s.engine, faults, name, c.(image := image), repo, steps[1..], rg);
        AwaitedLonger(s.engine.log, w.engine.log, |e.log|, |e.log|, name, Stepped(c, image));
        forall i | 0 <= i < w.done + 1
          ensures Awaited(w.engine.log, |e.log|, name, Stepped(c, ImageFor(repo, steps[i])))
        {
          if i > 0 {
            assert steps[1..][i - 1] == steps[i];
            AwaitedLonger(w.engine.log, w.engine.log, |s.engine.log|, |e.log|, name,
              Stepped(c, ImageFor(repo, steps[i])));
          }
        }
      }
    }
  }

  /** A step plan keeps to the path, gradually. */
  lemma PlanClimbs(image: string, path: seq<Release>, ver: Reading)
    requires Climbs(path) && PlanSteps(image, true, path, ver).Go?
    ensures
      var steps := PlanSteps(image, true, path, ver).steps;
      && ver(image).Some? && Gradual(steps, ver(image).value)
      && forall r | r in path && Newer(r.version, ver(image).value) :: r in steps
  {
    var v := ver(image).value;
    StepsClimb(path, v);
    var k := RemainingIsSuffix(path, v);
    forall r | r in path && Newer(r.version, v) ensures r in path[k..] {
      var i :| 0 <= i < |path| && path[i] == r;
      assert path[k..][i - k] == r;
    }
  }

  lemma OnlyLooked(e: Engine, faults: Faults, name: string)
    requires name in e.store
    ensures
      var e1 := Do(e, faults, Query(name));
      var e2 := Do(e1, faults, Query(name));
      && e1.store == e.store && e2.store == e.store
      && e1.log == e.log + [Entry(Query(name), Works(e, faults, Query(name)), e.store)]
      && e2.log == e.log + [Entry(Query(name), Works(e, faults, Query(name)), e.store),
                            Entry(Query(name), Works(e1, faults, Query(name)), e.store)]
  {
  }

  lemma LooksStepwise(log: seq<Entry>, more: seq<Entry>, s0: Store, name: string, ver: Reading)
    requires name in s0 && forall i | 0 <= i < |more| :: more[i].store == s0
    ensures Stepwise(log + more, |log|, s0, name, ver)
  {
    forall k | |log| <= k <= |log + more| ensures Before(log + more, |log|, k, s0) == s0 {
      if k > |log| {
        assert (log + more)[k - 1] == more[k - 1 - |log|];
      }
    }
  }

  /**
   An upgrade that steps, the server's, never skips a minor: from each state of the run to the next the
   version that stands for the node changes by at most one minor, whatever docker commands fail. When it
   succeeds, every release of the path newer than the start has been waited for and reported ready.
   */
  lemma ServerClimbs(e: Engine, faults: Faults, name: string, planes: nat, path: seq<Release>, rg: Ranging,
      ver: Reading)
    requires Climbs(path) && Ranges(rg) && Up(e, name) && Upgradable(e.store[name].node, path, ver)
    ensures
      var c := e.store[name].node;
      var w := UpgradeNode(e, faults, name, true, planes, path, rg, ver);
      && e.log <= w.engine.log && Stepwise(w.engine.log, |e.log|, e.store, name, ver)
      && (w.ok ==> ver(c.image).Some? && forall r | r in path && Newer(r.version, ver(c.image).value) ::
            Awaited(w.engine.log, |e.log|, name, Stepped(c, ImageFor(RepoOf(c.image), r))))
  {
    hide WalkSteps;
    hide PlanSteps;
    hide Inspected;
    hide RepoOf;
    hide ImageFor;
    hide Stepwise;
    hide Awaited;
    hide Stepped;
    hide Gradual;
    hide Works;
    hide Do;
    var c := e.store[name].node;
    var repo := RepoOf(c.image);
    ClimbsSomewhere(path);
    OnlyLooked(e, faults, name);
    var e1 := Do(e, faults, Query(name));
    var e2 := Do(e1, faults, Query(name));
    LooksStepwise(e.log, e1.log[|e.log|..], e.store, name, ver);
    LooksStepwise(e.log, e2.log[|e.log|..], e.store, name, ver);
    assert e1.log == e.log + e1.log[|e.log|..] && e2.log == e.log + e2.log[|e.log|..];
    var plan := PlanSteps(c.image, true, path, ver);
    if plan.Go? {
      PlanClimbs(c.image, path, ver);
      PlanIsSteps(c.image, true, path, ver);
      NoStepsNothingNewer(c.image, path, ver);
      ClimbFrom(e, e1, faults, name, c, repo, plan.steps, rg, ver(c.image).value, ver) by { LookedUp(e, faults, name); }
      ClimbFrom(e, e2, faults, name, c, repo, plan.steps, rg, ver(c.image).value, ver) by { LookedUp(e, faults, name); }
    }
  }

  lemma LookedUp(e: Engine, faults: Faults, name: string)
    requires Up(e, name)
    ensures
      var e1 := Do(e, faults, Query(name));
      Up(e1, name) && Up(Do(e1, faults, Query(name)), name)
  {
  }

  lemma NoStepsNothingNewer(image: string, path: seq<Release>, ver: Reading)
    requires Climbs(path) && PlanSteps(image, true, path, ver).Go?
    ensures PlanSteps(image, true, path, ver).steps == [] ==>
        ver(image).Some? && forall r | r in path :: !Newer(r.version, ver(image).value)
  {
    PlanClimbs(image, path, ver);
  }

  /** The same for the walk, after some looking. */
  lemma ClimbFrom(e: Engine, e': Engine, faults: Faults, name: string, c: Node, repo: string, steps: seq<Release>,
      rg: Ranging, cur: Version, ver: Reading)
    requires Ranges(rg) && Inspected(c) && PlainRepo(repo) && Up(e', name) && e.store == e'.store && e.log <= e'.log
    requires Stepwise(e'.log, |e.log|, e.store, name, ver) && Current(e', |e.log|, e.store)
    requires ver(e.store[name].node.image) == Some(cur) && Gradual(steps, cur)
    requires forall r | r in steps :: ver(ImageFor(repo, r)) == Some(r.version)
    ensures
      var w := WalkSteps(e', faults, name, c, repo, steps, rg);
      && e.log <= w.engine.log && Stepwise(w.engine.log, |e.log|, e.store, name, ver)
      && (w.ok ==> forall r | r in steps ::
            Awaited(w.engine.log, |e.log|, name, Stepped(c, ImageFor(repo, r))))
  {
    hide WalkSteps;
    hide Inspected;
    hide ImageFor;
    hide Stepwise;
    hide Awaited;
    hide Stepped;
    hide Gradual;
    WalkStepwise(e', faults, name, c, repo, steps, rg, cur, ver);
    WalkAwaited(e', faults, name, c, repo, steps, rg);
    var w := WalkSteps(e', faults, name, c, repo, steps, rg);
    StepwiseJoin(e'.log, w.engine.log, |e.log|, e.store, e'.store, name, ver);
    if w.ok {
      forall r | r in steps ensures Awaited(w.engine.log, |e.log|, name, Stepped(c, ImageFor(repo, r))) {
        var i :| 0 <= i < |steps| && steps[i] == r;
        AwaitedLonger(w.engine.log, w.engine.log, |e'.log|, |e.log|, name, Stepped(c, ImageFor(repo, r)));
      }
    }
  }

  /** At some point the wait for the node ended well while it ran this minor. */
  ghost predicate MinorReady(log: seq<Entry>, from: nat, name: string, minor: int, ver: Reading) {
    exists k | from <= k < |log| ::
      && log[k].cmd == AwaitReady(name) && log[k].ok && name in log[k].store && log[k].store[name].running
      && ver(log[k].store[name].node.image).Some? && ver(log[k].store[name].node.image).value.minor == minor
  }

  /** From an older start a success means that every minor up to the target's reported ready in its turn. */
  lemma EveryMinorReady(e: Engine, faults: Faults, name: string, planes: nat, path: seq<Release>, rg: Ranging,
      ver: Reading)
    requires Climbs(path) && Ranges(rg) && Up(e, name) && Upgradable(e.store[name].node, path, ver)
    requires UpgradeNode(e, faults, name, true, planes, path, rg, ver).ok
    ensures
      var v := ver(e.store[name].node.image);
      var w := UpgradeNode(e, faults, name, true, planes, path, rg, ver).engine;
      && v.Some? && Stepwise(w.log, |e.log|, e.store, name, ver)
      && forall m | v.value.minor < m <= Target(path).version.minor :: MinorReady(w.log, |e.log|, name, m, ver)
  {
    hide UpgradeNode;
    hide RepoOf;
    hide ImageFor;
    hide Stepwise;
    hide Inspected;
    hide Stepped;
    hide Awaited;
    ServerClimbs(e, faults, name, planes, path, rg, ver);
    var c := e.store[name].node;
    var w := UpgradeNode(e, faults, name, true, planes, path, rg, ver).engine;
    var v := ver(c.image).value;
    SupportedStart(e, faults, name, planes, path, rg, ver);
    forall m | v.minor < m <= Target(path).version.minor ensures MinorReady(w.log, |e.log|, name, m, ver) {
      var r := path[m - path[0].version.minor];
      assert r in path && r.version.minor == m && Newer(r.version, v);
      var image := ImageFor(RepoOf(c.image), r);
      assert Awaited(w.log, |e.log|, name, Stepped(c, image));
      SteppedImage(c, image);
      MinorOf(w.log, |e.log|, name, Stepped(c, image), m, ver);
    }
  }

  lemma MinorOf(log: seq<Entry>, from: nat, name: string, node: Node, minor: int, ver: Reading)
    requires Awaited(log, from, name, node) && ver(node.image).Some? && ver(node.image).value.minor == minor
    ensures MinorReady(log, from, name, minor, ver)
  {
  }

  /** What is upgraded is at most one minor older than the path. */
  lemma SupportedStart(e: Engine, faults: Faults, name: string, planes: nat, path: seq<Release>, rg: Ranging,
      ver: Reading)
    requires path != [] && Ranges(rg) && name in e.store && UpgradeNode(e, faults, name, true, planes, path, rg, ver).ok
    ensures
      var v := ver(e.store[name].node.image);
      v.Some? && v.value.minor >= path[0].version.minor - 1
  {
    hide WalkSteps;
    hide RepoOf;
    hide Remaining;
  }

  /** An upgrade that does not step sees no image but the node's own and the target's, whatever fails. */
  lemma FollowerJumps(e: Engine, faults: Faults, name: string, path: seq<Release>, rg: Ranging, ver: Reading)
    requires Climbs(path) && Ranges(rg) && Up(e, name) && Upgradable(e.store[name].node, path, ver)
    ensures
      var c := e.store[name].node;
      var w := UpgradeNode(e, faults, name, false, 0, path, rg, ver);
      var jump := ImageFor(RepoOf(c.image), Target(path));
      && e.log <= w.engine.log && AllWithin(w.engine.log, |e.log|, e.store, name, {c.image, jump})
      && (w.ok ==> ver(c.image).Some? && (Newer(Target(path).version, ver(c.image).value) ==>
            Awaited(w.engine.log, |e.log|, name, Stepped(c, jump))))
  {
    hide WalkSteps;
    hide Inspected;
    hide RepoOf;
    hide ImageFor;
    hide Awaited;
    hide Stepped;
    hide Within;
    hide StepsFrom;
    hide PlanSteps;
    var c := e.store[name].node;
    var repo := RepoOf(c.image);
    NodeWithin(e, faults, name, false, 0, path, rg, ver);
    JumpsOnce(c, path, ver);
    WithinFewer(e, faults, name, path, rg, ver);
    var e1 := Do(e, faults, Query(name));
    var plan := PlanSteps(c.image, false, path, ver);
    if plan.Go? && plan.steps != [] {
      WalkAwaited(e1, faults, name, c, repo, plan.steps, rg);
      var w := WalkSteps(e1, faults, name, c, repo, plan.steps, rg);
      if w.ok {
        assert plan.steps[0] == Target(path);
        AwaitedLonger(w.engine.log, w.engine.log, |e1.log|, |e.log|, name, Stepped(c, ImageFor(repo, Target(path))));
      }
    }
  }

  lemma JumpsOnce(c: Node, path: seq<Release>, ver: Reading)
    requires Climbs(path)
    ensures
      var plan := PlanSteps(c.image, false, path, ver);
      && (plan.Go? ==>
            && ver(c.image).Some?
            && plan.steps == if Newer(Target(path).version, ver(c.image).value) then [Target(path)] else [])
      && Images(c, false, path, ver) <= {c.image, ImageFor(RepoOf(c.image), Target(path))}
  {
    hide RepoOf;
    hide ImageFor;
    var plan := PlanSteps(c.image, false, path, ver);
    if plan.Go? {
      PlanIsSteps(c.image, false, path, ver);
    }
  }

  lemma WithinFewer(e: Engine, faults: Faults, name: string, path: seq<Release>, rg: Ranging, ver: Reading)
    requires Climbs(path) && Ranges(rg) && name in e.store
    requires
      var w := UpgradeNode(e, faults, name, false, 0, path, rg, ver).engine;
      AllWithin(w.log, |e.log|, e.store, name, Images(e.store[name].node, false, path, ver))
    ensures
      var c := e.store[name].node;
      var w := UpgradeNode(e, faults, name, false, 0, path, rg, ver).engine;
      AllWithin(w.log, |e.log|, e.store, name, {c.image, ImageFor(RepoOf(c.image), Target(path))})
  {
    hide UpgradeNode;
    hide Images;
    hide RepoOf;
    hide ImageFor;
    JumpsOnce(e.store[name].node, path, ver);
  }

  /******* When an upgrade is refused, and when it goes through *******/

  /** The upgrade has to walk several control planes in lockstep, which orcinus does not do. */
  predicate Shared(c: Node, step: bool, planes: nat) {
    step && planes > 1 && c.cmd != [] && c.cmd[0] == "server"
  }

  /** An image that reads as a version at most one minor older than the path's first release. */
  predicate Supported(image: string, path: seq<Release>, ver: Reading)
    requires path != []
  {
    ver(image).Some? && ver(image).value.minor >= path[0].version.minor - 1
  }

  /** A node that is refused, or has nothing to do, is looked at and no more. */
  lemma RefusedIsUntouched(e: Engine, faults: Faults, name: string, step: bool, planes: nat, path: seq<Release>,
      rg: Ranging, ver: Reading)
    requires Climbs(path) && Ranges(rg) && name in e.store
    requires
      var c := e.store[name].node;
      !Supported(c.image, path, ver) || Shared(c, step, planes) || !Newer(Target(path).version, ver(c.image).value)
    ensures
      var c := e.store[name].node;
      var w := UpgradeNode(e, faults, name, step, planes, path, rg, ver);
      && w.engine.store == e.store && w.done == 0
      && e.log <= w.engine.log && (forall k | |e.log| <= k < |w.engine.log| :: w.engine.log[k].cmd == Query(name))
      && (w.ok ==> Supported(c.image, path, ver) && !Newer(Target(path).version, ver(c.image).value))
  {
    hide WalkSteps;
    hide RepoOf;
    var c := e.store[name].node;
    var plan := PlanSteps(c.image, step, path, ver);
    if plan.Go? {
      PlanIsSteps(c.image, step, path, ver);
    }
  }

  lemma PlanGoesIff(image: string, step: bool, path: seq<Release>, ver: Reading)
    requires Climbs(path)
    ensures
      var plan := PlanSteps(image, step, path, ver);
      && (plan.Go? <==> Supported(image, path, ver))
      && (plan.Go? ==> ver(image).Some? && (plan.steps == [] <==> !Newer(Target(path).version, ver(image).value)))
  {
    if PlanSteps(image, step, path, ver).Go? {
      PlanIsSteps(image, step, path, ver);
    }
  }

  /** No command fails from here on. */
  ghost predicate Calm(e: Engine, faults: Faults) {
    forall t | t >= e.clock :: !faults(t)
  }

  /** A node that can be recreated: it has its password, and nothing is left of an earlier attempt. */
  ghost predicate Replaceable(e: Engine, name: string) {
    Up(e, name) && e.store[name].password.Some? && Old(name) !in e.store
  }

  lemma CalmStep(e: Engine, faults: Faults, name: string, c: Node, image: string, rg: Ranging)
    requires Ranges(rg) && Inspected(c) && image != "" && image[0] != '-' && Replaceable(e, name) && Calm(e, faults)
    ensures
      var s := StepOnce(e, faults, name, c, image, rg);
      s.Ok() && Replaceable(s.engine, name) && Calm(s.engine, faults)
  {
    hide Run;
    hide Interpret;
    hide ArgsFor;
    hide Inspected;
    ArgsRead(c, name, image, rg);
    var e1 := Do(e, faults, Fetch(image));
    var args := ArgsFor(c, name, image, rg);
    SucceedsIff(e1, faults, name, args);
    Success(e1, faults, name, args);
    RunClock(e1, faults, name, args);
    StepOk(e, faults, name, c, image, rg);
  }

  lemma {:induction false} CalmWalk(e: Engine, faults: Faults, name: string, c: Node, repo: string,
      steps: seq<Release>, rg: Ranging)
    requires Ranges(rg) && Inspected(c) && PlainRepo(repo) && Replaceable(e, name) && Calm(e, faults)
    ensures WalkSteps(e, faults, name, c, repo, steps, rg).ok
    decreases |steps|
  {
    hide StepOnce;
    hide Inspected;
    hide Replaceable;
    hide ImageFor;
    if steps != [] {
      var image := ImageFor(repo, steps[0]);
      ImagePlain(repo, steps[0]);
      CalmStep(e, faults, name, c, image, rg);
      SameNode(c, image);
      CalmWalk(StepOnce(e, faults, name, c, image, rg).engine, faults, name, c.(image := image), repo, steps[1..], rg);
    }
  }

  /**
   When docker does what it is told, an upgrade succeeds if and only if the node is there, its version is
   supported, and either nothing is newer or it is not one of several control planes that would have to step.
   */
  lemma UpgradesIff(e: Engine, faults: Faults, name: string, step: bool, planes: nat, path: seq<Release>, rg: Ranging,
      ver: Reading)
    requires Climbs(path) && Ranges(rg) && Calm(e, faults)
    requires name in e.store ==> Replaceable(e, name) && Upgradable(e.store[name].node, path, ver)
    ensures UpgradeNode(e, faults, name, step, planes, path, rg, ver).ok <==>
            && name in e.store && Supported(e.store[name].node.image, path, ver)
            && (Newer(Target(path).version, ver(e.store[name].node.image).value) ==>
                  !Shared(e.store[name].node, step, planes))
  {
    hide WalkSteps;
    hide RepoOf;
    hide Inspected;
    hide PlanSteps;
    hide Supported;
    hide Newer;
    if name in e.store {
      var c := e.store[name].node;
      var plan := PlanSteps(c.image, step, path, ver);
      PlanGoesIff(c.image, step, path, ver);
      if plan.Go? {
        var e1 := Do(e, faults, Query(name));
        CalmWalk(e1, faults, name, c, RepoOf(c.image), plan.steps, rg);
        CalmWalk(Do(e1, faults, Query(name)), faults, name, c, RepoOf(c.image), plan.steps, rg);
      }
    }
  }

  /******* The shipped path, read as orcinus reads it *******/

  /** Every node docker shows is one orcinus can upgrade along its own path. */
  lemma ShippedUpgradable(c: Node)
    requires Inspected(c) && PlainRepo(RepoOf(c.image))
    ensures Upgradable(c, UPGRADE_PATH, ImageVersion)
  {
    hide ImageVersion;
    hide Inspected;
    RepoPlain(c.image);
    ShippedImagesRead(RepoOf(c.image));
  }

  lemma RepoPlain(image: string)
    ensures ':' !in RepoOf(image)
  {
  }

  /** `NodeEnds` for the path orcinus ships: the last release that reported ready, and on success v1.36.5 or later. */
  lemma ShippedNodeEnds(e: Engine, faults: Faults, name: string, step: bool, planes: nat, rg: Ranging)
    requires Ranges(rg) && Up(e, name) && Inspected(e.store[name].node) && PlainRepo(RepoOf(e.store[name].node.image))
    requires
      var c := e.store[name].node;
      var plan := PlanSteps(c.image, step, UPGRADE_PATH, ImageVersion);
      plan.Go? ==> Restored(WalkStart(e, faults, name, step), faults, name, c, RepoOf(c.image), plan.steps, rg)
    ensures
      var c, password := e.store[name].node, e.store[name].password;
      var w := UpgradeNode(e, faults, name, step, planes, UPGRADE_PATH, rg, ImageVersion);
      var plan := PlanSteps(c.image, step, UPGRADE_PATH, ImageVersion);
      && (w.done == 0 ==> w.engine.store == e.store)
      && (w.done > 0 ==>
            plan.Go? && w.done <= |plan.steps|
              && OnRelease(w.engine, name, c, password, plan.steps[w.done - 1], ImageVersion))
      && (w.ok ==>
            && ImageVersion(c.image).Some?
            && (if Newer(Version(36, 5), ImageVersion(c.image).value)
                then w.done > 0 && ImageVersion(w.engine.store[name].node.image) == Some(Version(36, 5))
                else w.done == 0))
  {
    hide UpgradeNode;
    hide Inspected;
    hide ImageVersion;
    hide Restored;
    hide RepoOf;
    hide PlanSteps;
    hide Upgradable;
    hide WalkStart;
    hide OnRelease;
    ShippedPathReads();
    ShippedUpgradable(e.store[name].node);
    NodeEnds(e, faults, name, step, planes, UPGRADE_PATH, rg, ImageVersion);
    assert Target(UPGRADE_PATH).version == Version(36, 5) by { ShippedTarget(); }
  }

  lemma ShippedTarget()
    ensures Target(UPGRADE_PATH).version == Version(36, 5)
  {
  }

  /** A node already past the target is left alone, with success. */
  lemma NothingToDo(e: Engine, faults: Faults, name: string, step: bool, planes: nat, path: seq<Release>, rg: Ranging,
      ver: Reading)
    requires path != [] && Ranges(rg) && name in e.store && !faults(e.clock)
    requires PlanSteps(e.store[name].node.image, step, path, ver) == Go([])
    ensures
      var w := UpgradeNode(e, faults, name, step, planes, path, rg, ver);
      w.ok && w.engine.store == e.store
  {
    hide PlanSteps;
    hide WalkSteps;
    hide RepoOf;
  }

  /** A node already on 1.37 is reported to be on 1.36.5: nothing is done to it, and the report is wrong. */
  lemma NewerIsMisreported(e: Engine, faults: Faults, name: string, planes: nat, rg: Ranging, repo: string)
    requires Ranges(rg) && name in e.store && !faults(e.clock)
    requires ':' !in repo && e.store[name].node.image == ImageFor(repo, LATER)
    ensures
      var w := UpgradeNode(e, faults, name, true, planes, UPGRADE_PATH, rg, ImageVersion);
      && w.ok && w.engine.store == e.store
      && ImageVersion(e.store[name].node.image) == Some(Version(37, 0))
          && Target(UPGRADE_PATH).version == Version(36, 5)
  {
    hide UpgradeNode;
    hide StepsFrom;
    hide Target;
    hide ImageFor;
    hide ImageVersion;
    hide ReleaseSpelling;
    hide MinorPatch;
    LaterReads();
    ImageReads(repo, LATER);
    ShippedTarget();
    NothingNewer(Version(37, 0));
    NothingToDo(e, faults, name, true, planes, UPGRADE_PATH, rg, ImageVersion);
  }

  lemma NothingNewer(cur: Version)
    requires !Newer(Target(UPGRADE_PATH).version, cur)
    ensures StepsFrom(UPGRADE_PATH, cur) == Steps([])
  {
    ShippedPathReads();
    ShippedTarget();
    var k := RemainingIsSuffix(UPGRADE_PATH, cur);
    assert k == |UPGRADE_PATH|;
  }

  /** No follower overtakes the server along the shipped path. */
  lemma ShippedNeverOvertaken(e: Engine, faults: Faults, name: string, planes: nat, followers: seq<string>, rg: Ranging)
    requires Ranges(rg) && Separate(name, followers) && Up(e, name) && Behind(e.store, name, followers, ImageVersion)
    requires forall n | (n == name || n in followers) && n in e.store ::
               Inspected(e.store[n].node) && PlainRepo(RepoOf(e.store[n].node.image))
    ensures
      var w := UpgradeAll(e, faults, name, planes, followers, UPGRADE_PATH, rg, ImageVersion).engine;
      e.log <= w.log && AllBehind(w.log, |e.log|, name, followers, ImageVersion)
  {
    hide UpgradeAll;
    hide Inspected;
    hide ImageVersion;
    hide Upgradable;
    hide Behind;
    hide RepoOf;
    ShippedPathReads();
    forall n | (n == name || n in followers) && n in e.store
        ensures Upgradable(e.store[n].node, UPGRADE_PATH, ImageVersion) {
      ShippedUpgradable(e.store[n].node);
    }
    NeverOvertaken(e, faults, name, planes, followers, UPGRADE_PATH, rg, ImageVersion);
  }

  /** `ServerClimbs` and `EveryMinorReady` for the path orcinus ships. */
  lemma ShippedServerClimbs(e: Engine, faults: Faults, name: string, planes: nat, rg: Ranging)
    requires Ranges(rg) && Up(e, name) && Inspected(e.store[name].node) && PlainRepo(RepoOf(e.store[name].node.image))
    ensures
      var v := ImageVersion(e.store[name].node.image);
      var w := UpgradeNode(e, faults, name, true, planes, UPGRADE_PATH, rg, ImageVersion);
      && Stepwise(w.engine.log, |e.log|, e.store, name, ImageVersion)
      && (w.ok ==> v.Some? && forall m | v.value.minor < m <= 36 ::
            MinorReady(w.engine.log, |e.log|, name, m, ImageVersion))
  {
    hide UpgradeNode;
    hide Inspected;
    hide ImageVersion;
    hide Upgradable;
    hide Stepwise;
    hide MinorReady;
    hide RepoOf;
    ShippedPathReads();
    ShippedUpgradable(e.store[name].node);
    ServerClimbs(e, faults, name, planes, UPGRADE_PATH, rg, ImageVersion);
    assert Target(UPGRADE_PATH).version == Version(36, 5) by { ShippedTarget(); }
    if UpgradeNode(e, faults, name, true, planes, UPGRADE_PATH, rg, ImageVersion).ok {
      EveryMinorReady(e, faults, name, planes, UPGRADE_PATH, rg, ImageVersion);
    }
  }
}
