/** Changing the ingress ports of a running cluster by recreating its server container. */
module Update {
  import opened Common
  import opened NodeArgs
  import opened NodeLaws
  import opened Recreate
  import opened Upgrade
  import opened UpgradeLaws

  /** Docker afterwards, the recreation if there was one, and the ports reported, `None` being an error. */
  datatype Result = Result(engine: Engine, run: Option<Outcome>, ports: Option<(int, int)>)

  function Wanted(asked: Option<int>, published: int): int {
    if asked.Some? then asked.value else published
  }

  /** `http` and `https` are the ports asked for; what is not asked for stays as it is published. */
  function UpdatePorts(e: Engine, faults: Faults, name: string, http: Option<int>, https: Option<int>,
      rg: Ranging): Result
    requires Ranges(rg)
  {
    var e1 := Do(e, faults, Query(name));
    if !Works(e, faults, Query(name)) || !e.store[name].running then Result(e1, None, None)
    else
      var e2 := Do(e1, faults, Query(name));
      if !Works(e1, faults, Query(name)) then Result(e2, None, None)
      else
        var c := e1.store[name].node;
        var h, s := Wanted(http, PublishedPort(c, "80")), Wanted(https, PublishedPort(c, "443"));
        if h == PublishedPort(c, "80") && s == PublishedPort(c, "443") then Result(e2, None, Some((h, s)))
        else
          var r := Run(e2, faults, name, CreateArgs(c, name, h, s, rg(c).labelKeys, rg(c).portKeys));
          Result(r.engine, Some(r), if r.failed.None? then Some((h, s)) else None)
  }

  method RunUpdate(h: Host, name: string, http: Option<int>, https: Option<int>, rg: Ranging)
    returns (ghost run: Option<Outcome>, ports: Option<(int, int)>)
    requires Ranges(rg)
    modifies h
    ensures Result(h.engine, run, ports) == UpdatePorts(old(h.engine), h.faults, name, http, https, rg)
  {
    hide CreateArgs;
    hide Run;
    hide PublishedPort;
    run := None;
    var found := h.Docker(Query(name));
    if !found || !h.engine.store[name].running { return None, None; }
    found := h.Docker(Query(name));
    if !found { return None, None; }
    var c := h.engine.store[name].node;
    var httpPort, httpsPort := PublishedPort(c, "80"), PublishedPort(c, "443");
    if http.Some? { httpPort := http.value; }
    if https.Some? { httpsPort := https.value; }
    if httpPort == PublishedPort(c, "80") && httpsPort == PublishedPort(c, "443") {
      return None, Some((httpPort, httpsPort));
    }
    var args := BuildCreateArgs(c, name, httpPort, httpsPort, rg(c).labelKeys, rg(c).portKeys);
    var failed := h.Recreate(name, args);
    run := Some(Outcome(h.engine, failed));
    ports := if failed.None? then Some((httpPort, httpsPort)) else None;
  }

  /**
   A reported success means the node is up with exactly those ports and is otherwise itself, with its
   password, untouched if the ports were already so. An error leaves docker as it was found if and
   only if the restoring commands worked. No other container changes either way.
   */
  lemma UpdateEnds(e: Engine, faults: Faults, name: string, http: Option<int>, https: Option<int>, rg: Ranging)
    requires Ranges(rg) && Up(e, name) && Inspected(e.store[name].node)
    ensures
      var u, c := UpdatePorts(e, faults, name, http, https, rg), e.store[name].node;
      var h := if http.Some? then http.value else PublishedPort(c, "80");
      var s := if https.Some? then https.value else PublishedPort(c, "443");
      && Apart(u.engine.store, e.store, name)
      && (u.ports.Some? ==>
            && u.ports.value == (h, s)
            && Up(u.engine, name) && u.engine.store[name].password == e.store[name].password
            && (if h == PublishedPort(c, "80") && s == PublishedPort(c, "443") then u.engine.store == e.store
                else u.engine.store[name].node == Canonical(c, h, s) && u.engine.store[name].node.privileged
                     && PublishedPort(u.engine.store[name].node, "80") == Asked(h)
                     && PublishedPort(u.engine.store[name].node, "443") == Asked(s)))
      && (u.ports.None? ==>
            && (u.run.Some? ==> u.run.value.failed.Some?)
            && (u.engine.store == e.store <==> (u.run.Some? ==> RestoreWorked(u.run.value, faults))))
  {
    hide CreateArgs;
    hide Canonical;
    hide PublishedPort;
    hide Inspected;
    hide Run;
    hide RestoreWorked;
    hide Interpret;
    var c := e.store[name].node;
    var h, s := Wanted(http, PublishedPort(c, "80")), Wanted(https, PublishedPort(c, "443"));
    var e2 := Do(Do(e, faults, Query(name)), faults, Query(name));
    assert e2.store == e.store;
    var args := CreateArgs(c, name, h, s, rg(c).labelKeys, rg(c).portKeys);
    assert Lists(rg(c).labelKeys, c.labels) && Lists(rg(c).portKeys, c.ports);
    ReadsBack(c, name, h, s, rg(c).labelKeys, rg(c).portKeys);
    NeverLost(e2, faults, name, args);
    var r := Run(e2, faults, name, args);
    if r.failed.None? {
      Success(e2, faults, name, args);
      RunClock(e2, faults, name, args);
      assert Get(r.engine.store, name).Some?;
      PortsAsAsked(c, h, s);
    } else {
      ErrorRestoresIff(e2, faults, name, args);
    }
  }

  /** A cluster that is not there or not running is refused after a look at it. */
  lemma StoppedIsRefused(e: Engine, faults: Faults, name: string, http: Option<int>, https: Option<int>, rg: Ranging)
    requires Ranges(rg) && (name !in e.store || !e.store[name].running)
    ensures
      var u := UpdatePorts(e, faults, name, http, https, rg);
      && u.ports.None? && u.run.None? && u.engine.store == e.store
      && e.log <= u.engine.log && forall k | |e.log| <= k < |u.engine.log| :: u.engine.log[k].cmd == Query(name)
  {
  }

  /**
   When docker does what it is told, an update succeeds if and only if the cluster is running and either
   publishes those ports already or can be recreated: its password is there, and no "-old" is left over.
   */
  lemma UpdatesIff(e: Engine, faults: Faults, name: string, http: Option<int>, https: Option<int>, rg: Ranging)
    requires Ranges(rg) && Calm(e, faults)
    requires name in e.store ==> e.store[name].id < e.clock && Inspected(e.store[name].node)
    ensures UpdatePorts(e, faults, name, http, https, rg).ports.Some? <==>
            && name in e.store && e.store[name].running
            && (var c := e.store[name].node;
                || (http in {None, Some(PublishedPort(c, "80"))} && https in {None, Some(PublishedPort(c, "443"))})
                || (e.store[name].password.Some? && Old(name) !in e.store))
  {
    hide CreateArgs;
    hide PublishedPort;
    hide Inspected;
    hide Run;
    hide Interpret;
    if name in e.store && e.store[name].running {
      var c := e.store[name].node;
      var h, s := Wanted(http, PublishedPort(c, "80")), Wanted(https, PublishedPort(c, "443"));
      var e2 := Do(Do(e, faults, Query(name)), faults, Query(name));
      assert e2.store == e.store && e2.clock == e.clock + 2;
      assert Lists(rg(c).labelKeys, c.labels) && Lists(rg(c).portKeys, c.ports);
      ReadsBack(c, name, h, s, rg(c).labelKeys, rg(c).portKeys);
      SucceedsIff(e2, faults, name, CreateArgs(c, name, h, s, rg(c).labelKeys, rg(c).portKeys));
    }
  }
}
