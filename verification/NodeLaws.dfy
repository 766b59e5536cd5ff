/** A recreated node is the same node: docker reads back what the arguments were made from. */
module NodeLaws {
  import opened Common
  import opened Text
  import opened NodeArgs

  /******* What must survive *******/

  ghost function OwnLabels(labels: map<string, string>, prefix: string): map<string, string> {
    map k | k in labels && HasPrefix(k, prefix) :: labels[k]
  }

  function OwnEnv(env: seq<string>, prefix: string): seq<string> {
    if env == [] then []
    else OwnEnv(env[..|env| - 1], prefix) + if HasPrefix(env[|env| - 1], prefix) then [env[|env| - 1]] else []
  }

  /** A volume is known by its name, a bind mount by its source; other mounts are not carried. */
  function Kept(m: Mount): seq<Mount> {
    if m.kind.VolumeMount? then [Mount(VolumeMount, m.name, "", m.dest)]
    else if m.kind.BindMount? then [Mount(BindMount, "", m.source, m.dest)]
    else []
  }

  function KeptMounts(ms: seq<Mount>): seq<Mount> {
    if ms == [] then [] else KeptMounts(ms[..|ms| - 1]) + Kept(ms[|ms| - 1])
  }

  function CdiIds(ds: seq<Device>): seq<string> {
    if ds == [] then []
    else CdiIds(ds[..|ds| - 1]) + if ds[|ds| - 1].driver.Cdi? then ds[|ds| - 1].ids else []
  }

  function OneDevice(ids: seq<string>): seq<Device> {
    if ids == [] then [] else [Device(Cdi, ids)]
  }

  ghost function OtherPorts(ports: map<string, seq<Binding>>, skip: set<string>): map<string, seq<Binding>> {
    map p | p in ports && p !in skip && ports[p] != [] :: ports[p]
  }

  function IngressPort(port: int, key: string): map<string, seq<Binding>> {
    if port > 0 then map[key := [Binding("0.0.0.0", Decimal(port))]] else map[]
  }

  function Policy(r: string): string {
    if r == "no" then "" else r
  }

  /** The node, privileged, with its ingress ports replaced and everything that is not its own dropped. */
  ghost function Canonical(c: Node, http: int, https: int): Node {
    Node(c.image, c.cmd, c.hostname, OwnEnv(c.env, "K3S_"), OwnLabels(c.labels, "orcinus."),
         OtherPorts(c.ports, {"80/tcp", "443/tcp"}) + IngressPort(http, "80/tcp") + IngressPort(https, "443/tcp"),
         OneDevice(CdiIds(c.devices)), Policy(c.restart), KeptMounts(c.mounts), true)
  }

  /** A volume's name is not a path; a bind mount's source is an absolute one. */
  ghost predicate Mountable(m: Mount) {
    && (m.kind.VolumeMount? ==> ':' !in m.name && !HasPrefix(m.name, "/"))
    && (m.kind.BindMount? ==> ':' !in m.source && HasPrefix(m.source, "/"))
  }

  /** A container port with its protocol, on plain host ports; the addresses may be IPv6 ones. */
  ghost predicate Publishable(p: string, bs: seq<Binding>) {
    '/' in p && ':' !in p && forall b | b in bs :: ':' !in b.hostPort
  }

  /** What docker itself guarantees of a container it shows. */
  ghost predicate Inspected(c: Node) {
    && c.image != "" && c.image[0] != '-'
    && (forall k | k in c.labels :: '=' !in k)
    && (forall m | m in c.mounts :: Mountable(m))
    && forall p | p in c.ports :: Publishable(p, c.ports[p])
  }

  ghost predicate Lists<V>(keys: seq<string>, m: map<string, V>) {
    Distinct(keys) && forall k :: k in keys <==> k in m
  }

  /******* Reading the arguments back *******/

  lemma ReadSpelled(f: Flag)
    ensures ReadFlag(Spell(f)) == Some(f) && Spell(f) != "--privileged"
  {
  }

  lemma {:induction false} ParseFlat(opts: seq<Opt>, rest: seq<string>, acc: seq<Opt>, privileged: bool)
    ensures ParseArgs(Flatten(opts) + rest, acc, privileged) == ParseArgs(rest, acc + opts, privileged)
  {
    if opts == [] {
      assert Flatten(opts) + rest == rest && acc + opts == acc;
    } else {
      var init, o := opts[..|opts| - 1], opts[|opts| - 1];
      var more := [Spell(o.flag), o.value] + rest;
      ReadSpelled(o.flag);
      assert Flatten(opts) + rest == Flatten(init) + more;
      ParseFlat(init, more, acc, privileged);
      assert more[2..] == rest && acc + opts == acc + init + [o];
    }
  }

  lemma {:induction false} ApplyAdd(c: Created, a: seq<Opt>, b: seq<Opt>)
    ensures ApplyOpts(c, a + b) == ApplyOpts(ApplyOpts(c, a), b)
  {
    if b == [] {
      assert a + b == a;
    } else {
      assert (a + b)[..|a + b| - 1] == a + b[..|b| - 1];
      ApplyAdd(c, a, b[..|b| - 1]);
    }
  }

  lemma ApplyOne(c: Created, o: Opt)
    ensures ApplyOpts(c, [o]) == ApplyOpt(c, o)
  {
  }

  lemma ApplyLast(c: Created, a: seq<Opt>, o: Opt)
    ensures ApplyOpts(c, a + [o]) == ApplyOpt(ApplyOpts(c, a), o)
  {
  }

  lemma OneLabel(c: Created, k: string, v: string)
    requires '=' !in k
    ensures ApplyOpt(c, Opt(Label, k + "=" + v)) == c.(node := c.node.(labels := c.node.labels[k := v]))
  {
    CutIs(k, '=', v);
  }

  lemma OneMount(c: Created, m: Mount)
    requires Mountable(m)
    ensures ApplyOpts(c, MountOpt(m)) == c.(node := c.node.(mounts := c.node.mounts + Kept(m)))
  {
    if m.kind.OtherMount? {
      assert c.node.mounts + [] == c.node.mounts;
    } else {
      var key := if m.kind.VolumeMount? then m.name else m.source;
      CutIs(key, ':', m.dest);
      ApplyOne(c, Opt(Volume, key + ":" + m.dest));
    }
  }

  lemma OnePort(c: Created, b: Binding, p: string)
    requires ':' !in b.hostPort && ':' !in p
    ensures ApplyOpt(c, Opt(Publish, b.hostIp + ":" + b.hostPort + ":" + p)) ==
            c.(node := c.node.(ports := AddBinding(c.node.ports, if '/' in p then p else p + "/tcp", b)))
  {
    var front := b.hostIp + [':'] + b.hostPort;
    assert b.hostIp + ":" + b.hostPort + ":" + p == front + [':'] + p;
    CutLastIs(front, ':', p);
    CutLastIs(b.hostIp, ':', b.hostPort);
  }

  ghost function Listed(keys: seq<string>, labels: map<string, string>, prefix: string): map<string, string>
    requires forall k | k in keys :: k in labels
  {
    map k | k in keys && HasPrefix(k, prefix) :: labels[k]
  }

  lemma ListedLast(base: map<string, string>, init: seq<string>, k: string, labels: map<string, string>, prefix: string)
    requires forall x | x in init + [k] :: x in labels
    ensures base + Listed(init + [k], labels, prefix) ==
            if HasPrefix(k, prefix) then (base + Listed(init, labels, prefix))[k := labels[k]]
                else base + Listed(init, labels, prefix)
  {
  }

  lemma {:induction false} ReadLabels(c: Created, keys: seq<string>, labels: map<string, string>, prefix: string)
    requires forall k | k in keys :: k in labels && '=' !in k
    ensures ApplyOpts(c, LabelOpts(keys, labels, prefix)) ==
            c.(node := c.node.(labels := c.node.labels + Listed(keys, labels, prefix)))
  {
    if keys == [] {
      assert c.node.labels + Listed(keys, labels, prefix) == c.node.labels;
    } else {
      var init, k := keys[..|keys| - 1], keys[|keys| - 1];
      assert keys == init + [k] && k in keys;
      ReadLabels(c, init, labels, prefix);
      ListedLast(c.node.labels, init, k, labels, prefix);
      if HasPrefix(k, prefix) {
        ApplyLast(c, LabelOpts(init, labels, prefix), Opt(Label, k + "=" + labels[k]));
        OneLabel(ApplyOpts(c, LabelOpts(init, labels, prefix)), k, labels[k]);
      } else {
        assert LabelOpts(keys, labels, prefix) == LabelOpts(init, labels, prefix);
      }
    }
  }

  lemma LastEnv(c: Created, opts: seq<Opt>, e: string)
    ensures
      var d := ApplyOpts(c, opts);
      ApplyOpts(c, opts + [Opt(Env, e)]) == d.(node := d.node.(env := d.node.env + [e]))
  {
  }

  lemma {:induction false} ReadEnv(c: Created, env: seq<string>, prefix: string)
    ensures ApplyOpts(c, EnvOpts(env, prefix)) == c.(node := c.node.(env := c.node.env + OwnEnv(env, prefix)))
  {
    if env == [] {
      assert c.node.env + [] == c.node.env;
    } else {
      var init, e := env[..|env| - 1], env[|env| - 1];
      ReadEnv(c, init, prefix);
      if HasPrefix(e, prefix) {
        LastEnv(c, EnvOpts(init, prefix), e);
        assert c.node.env + OwnEnv(init, prefix) + [e] == c.node.env + OwnEnv(env, prefix);
      } else {
        assert EnvOpts(env, prefix) == EnvOpts(init, prefix) && OwnEnv(env, prefix) == OwnEnv(init, prefix);
      }
    }
  }

  lemma {:induction false} ReadMounts(c: Created, ms: seq<Mount>)
    requires forall m | m in ms :: Mountable(m)
    ensures ApplyOpts(c, MountOpts(ms)) == c.(node := c.node.(mounts := c.node.mounts + KeptMounts(ms)))
  {
    if ms == [] {
      assert c.node.mounts + [] == c.node.mounts;
    } else {
      var init, m := ms[..|ms| - 1], ms[|ms| - 1];
      assert m in ms;
      ReadMounts(c, init);
      ApplyAdd(c, MountOpts(init), MountOpt(m));
      OneMount(ApplyOpts(c, MountOpts(init)), m);
      assert c.node.mounts + KeptMounts(init) + Kept(m) == c.node.mounts + KeptMounts(ms);
    }
  }

  lemma LastPort(c: Created, opts: seq<Opt>, b: Binding, p: string)
    requires ':' !in b.hostPort && ':' !in p && '/' in p
    ensures
      var d := ApplyOpts(c, opts);
      ApplyOpts(c, opts + [Opt(Publish, b.hostIp + ":" + b.hostPort + ":" + p)])
        == d.(node := d.node.(ports := AddBinding(d.node.ports, p, b)))
  {
    ApplyLast(c, opts, Opt(Publish, b.hostIp + ":" + b.hostPort + ":" + p));
    OnePort(ApplyOpts(c, opts), b, p);
  }

  ghost function Extend(ports: map<string, seq<Binding>>, p: string, bs: seq<Binding>): map<string, seq<Binding>> {
    if bs == [] then ports else ports[p := (if p in ports then ports[p] else []) + bs]
  }

  lemma {:induction false} ReadBindings(c: Created, p: string, bs: seq<Binding>)
    requires '/' in p && ':' !in p
    requires forall b | b in bs :: ':' !in b.hostPort
    ensures ApplyOpts(c, BindingOpts(p, bs)) == c.(node := c.node.(ports := Extend(c.node.ports, p, bs)))
  {
    if bs != [] {
      var init, b := bs[..|bs| - 1], bs[|bs| - 1];
      assert b in bs;
      ReadBindings(c, p, init);
      LastPort(c, BindingOpts(p, init), b, p);
      ExtendMore(c.node.ports, p, init, b);
      assert init + [b] == bs;
    }
  }

  lemma ExtendMore(ports: map<string, seq<Binding>>, p: string, bs: seq<Binding>, b: Binding)
    ensures AddBinding(Extend(ports, p, bs), p, b) == Extend(ports, p, bs + [b])
  {
    var first := if p in ports then ports[p] else [];
    assert first + bs + [b] == first + (bs + [b]);
    assert first + [] == first;
  }

  ghost function ListedPorts(keys: seq<string>, ports: map<string, seq<Binding>>, skip: set<string>): map<string,
      seq<Binding>>
    requires forall k | k in keys :: k in ports
  {
    map p | p in keys && p !in skip && ports[p] != [] :: ports[p]
  }

  lemma ListedPortsLast(base: map<string, seq<Binding>>, init: seq<string>, p: string,
      ports: map<string, seq<Binding>>, skip: set<string>)
    requires (forall x | x in init + [p] :: x in ports) && p !in init && p !in base
    ensures base + ListedPorts(init + [p], ports, skip) ==
            Extend(base + ListedPorts(init, ports, skip), p, if p in skip then [] else ports[p])
  {
    var now, was := ListedPorts(init + [p], ports, skip), ListedPorts(init, ports, skip);
    assert [] + ports[p] == ports[p];
    assert forall x :: x in now <==> (x in was || (x == p && p !in skip && ports[p] != []));
  }

  lemma {:induction false} ReadPorts(c: Created, keys: seq<string>, ports: map<string, seq<Binding>>, skip: set<string>)
    requires Distinct(keys) && (forall k | k in keys :: k in ports && k !in c.node.ports)
    requires forall p | p in ports :: Publishable(p, ports[p])
    ensures ApplyOpts(c, PortOpts(keys, ports, skip)) ==
            c.(node := c.node.(ports := c.node.ports + ListedPorts(keys, ports, skip)))
  {
    if keys == [] {
      assert c.node.ports + ListedPorts(keys, ports, skip) == c.node.ports;
    } else {
      var init, p := keys[..|keys| - 1], keys[|keys| - 1];
      assert keys == init + [p] && p in keys && p !in init;
      ReadPorts(c, init, ports, skip);
      var bs := if p in skip then [] else ports[p];
      assert PortOpts(keys, ports, skip) == PortOpts(init, ports, skip) + BindingOpts(p, bs);
      ApplyAdd(c, PortOpts(init, ports, skip), BindingOpts(p, bs));
      ReadBindings(ApplyOpts(c, PortOpts(init, ports, skip)), p, bs);
      ListedPortsLast(c.node.ports, init, p, ports, skip);
    }
  }

  lemma ReadIngress(c: Created, port: int, target: string)
    requires ':' !in target && '/' !in target && target + "/tcp" !in c.node.ports
    ensures ApplyOpts(c, IngressOpt(port, target)) ==
            c.(node := c.node.(ports := c.node.ports + IngressPort(port, target + "/tcp")))
  {
    if port > 0 {
      OnePort(c, Binding("0.0.0.0", Decimal(port)), target);
      ApplyOne(c, Opt(Publish, "0.0.0.0" + ":" + Decimal(port) + ":" + target));
      assert [] + [Binding("0.0.0.0", Decimal(port))] == [Binding("0.0.0.0", Decimal(port))];
      assert c.node.ports + IngressPort(port, target + "/tcp") ==
             c.node.ports[target + "/tcp" := [Binding("0.0.0.0", Decimal(port))]];
    } else {
      assert c.node.ports + map[] == c.node.ports;
    }
  }

  lemma {:induction false} ReadIds(c: Created, had: seq<string>, ids: seq<string>)
    requires c.node.devices == OneDevice(had)
    ensures ApplyOpts(c, IdOpts(ids)) == c.(node := c.node.(devices := OneDevice(had + ids)))
  {
    if ids == [] {
      assert had + [] == had;
    } else {
      var init, id := ids[..|ids| - 1], ids[|ids| - 1];
      ReadIds(c, had, init);
      ApplyLast(c, IdOpts(init), Opt(AddDevice, id));
      assert had + init + [id] == had + ids;
      if had + init == [] {
        assert had + ids == [id];
      } else {
        assert OneDevice(had + init)[0].ids == had + init;
      }
    }
  }

  lemma {:induction false} ReadDevices(c: Created, ds: seq<Device>)
    requires c.node.devices == []
    ensures ApplyOpts(c, DeviceOpts(ds)) == c.(node := c.node.(devices := OneDevice(CdiIds(ds))))
  {
    if ds != [] {
      var init, d := ds[..|ds| - 1], ds[|ds| - 1];
      ReadDevices(c, init);
      if d.driver.Cdi? {
        ApplyAdd(c, DeviceOpts(init), IdOpts(d.ids));
        ReadIds(ApplyOpts(c, DeviceOpts(init)), CdiIds(init), d.ids);
        assert OneDevice(CdiIds(ds)) == OneDevice(CdiIds(init) + d.ids);
      } else {
        assert DeviceOpts(ds) == DeviceOpts(init) && CdiIds(ds) == CdiIds(init);
      }
    }
  }

  /** Folding the options over a blank container, group by group. */
  lemma ReadOpts(c: Node, name: string, http: int, https: int, labelKeys: seq<string>, portKeys: seq<string>)
    requires Inspected(c) && Lists(labelKeys, c.labels) && Lists(portKeys, c.ports)
    ensures ApplyOpts(Blank(Cli(true, [], c.image, c.cmd)), Opts(c, name, http, https, labelKeys, portKeys))
         == Created(name, Canonical(c, http, https))
  {
    var head := [Opt(Name, name), Opt(Hostname, c.hostname)];
    var l, e, m := LabelOpts(labelKeys, c.labels, LABEL_PREFIX), EnvOpts(c.env, ENV_PREFIX), MountOpts(c.mounts);
    var p := PortOpts(portKeys, c.ports, INGRESS);
    var tail := Tail(c, http, https);
    var c0 := Blank(Cli(true, [], c.image, c.cmd));
    var c1 := ReadHead(c0, name, c.hostname);
    var c5 := ReadFront(c1, c, labelKeys, portKeys);
    ReadTail(c5, c, http, https);
    SplitOpts(c, name, http, https, labelKeys, portKeys);
    ApplySix(c0, head, l, e, m, p, tail);
  }

  ghost function Tail(c: Node, http: int, https: int): seq<Opt> {
    IngressOpt(http, "80") + IngressOpt(https, "443") + DeviceOpts(c.devices) + RestartOpt(c.restart)
  }

  lemma SplitOpts(c: Node, name: string, http: int, https: int, labelKeys: seq<string>, portKeys: seq<string>)
    requires Lists(labelKeys, c.labels) && Lists(portKeys, c.ports)
    ensures Opts(c, name, http, https, labelKeys, portKeys) ==
            [Opt(Name, name), Opt(Hostname, c.hostname)] + LabelOpts(labelKeys, c.labels, LABEL_PREFIX)
            + EnvOpts(c.env, ENV_PREFIX) + MountOpts(c.mounts) + PortOpts(portKeys, c.ports, INGRESS)
              + Tail(c, http, https)
  {
    Regroup([Opt(Name, name), Opt(Hostname, c.hostname)] + LabelOpts(labelKeys, c.labels, LABEL_PREFIX)
            + EnvOpts(c.env, ENV_PREFIX) + MountOpts(c.mounts) + PortOpts(portKeys, c.ports, INGRESS),
            IngressOpt(http, "80"), IngressOpt(https, "443"), DeviceOpts(c.devices), RestartOpt(c.restart));
  }

  lemma Regroup(a: seq<Opt>, b: seq<Opt>, c: seq<Opt>, d: seq<Opt>, e: seq<Opt>)
    ensures a + b + c + d + e == a + (b + c + d + e)
  {
  }

  lemma ReadFront(c1: Created, c: Node, labelKeys: seq<string>, portKeys: seq<string>) returns (c5: Created)
    requires Inspected(c) && Lists(labelKeys, c.labels) && Lists(portKeys, c.ports)
    requires c1.node == Node(c.image, c.cmd, c.hostname, [], map[], map[], [], "", [], true)
    ensures c5 == ApplyOpts(ApplyOpts(ApplyOpts(ApplyOpts(c1, LabelOpts(labelKeys, c.labels, LABEL_PREFIX)),
                    EnvOpts(c.env, ENV_PREFIX)), MountOpts(c.mounts)), PortOpts(portKeys, c.ports, INGRESS))
    ensures c5 == Created(c1.name, Node(c.image, c.cmd, c.hostname, OwnEnv(c.env, ENV_PREFIX),
                    OwnLabels(c.labels, LABEL_PREFIX), OtherPorts(c.ports, INGRESS), [], "", KeptMounts(c.mounts), true))
  {
    hide LabelOpts;
    hide EnvOpts;
    hide MountOpts;
    hide PortOpts;
    hide ApplyOpts;
    ReadLabels(c1, labelKeys, c.labels, LABEL_PREFIX);
    assert map[] + Listed(labelKeys, c.labels, LABEL_PREFIX) == OwnLabels(c.labels, LABEL_PREFIX);
    var c2 := ApplyOpts(c1, LabelOpts(labelKeys, c.labels, LABEL_PREFIX));
    ReadEnv(c2, c.env, ENV_PREFIX);
    assert [] + OwnEnv(c.env, ENV_PREFIX) == OwnEnv(c.env, ENV_PREFIX);
    var c3 := ApplyOpts(c2, EnvOpts(c.env, ENV_PREFIX));
    ReadMounts(c3, c.mounts);
    assert [] + KeptMounts(c.mounts) == KeptMounts(c.mounts);
    var c4 := ApplyOpts(c3, MountOpts(c.mounts));
    ReadPorts(c4, portKeys, c.ports, INGRESS);
    assert map[] + ListedPorts(portKeys, c.ports, INGRESS) == OtherPorts(c.ports, INGRESS);
    c5 := ApplyOpts(c4, PortOpts(portKeys, c.ports, INGRESS));
  }

  lemma ApplySix(c: Created, o1: seq<Opt>, o2: seq<Opt>, o3: seq<Opt>, o4: seq<Opt>, o5: seq<Opt>, o6: seq<Opt>)
    ensures ApplyOpts(c, o1 + o2 + o3 + o4 + o5 + o6)
         == ApplyOpts(ApplyOpts(ApplyOpts(ApplyOpts(ApplyOpts(ApplyOpts(c, o1), o2), o3), o4), o5), o6)
  {
    ApplyAdd(c, o1, o2);
    ApplyAdd(c, o1 + o2, o3);
    ApplyAdd(c, o1 + o2 + o3, o4);
    ApplyAdd(c, o1 + o2 + o3 + o4, o5);
    ApplyAdd(c, o1 + o2 + o3 + o4 + o5, o6);
  }

  lemma ReadHead(c: Created, name: string, host: string) returns (c': Created)
    ensures c' == ApplyOpts(c, [Opt(Name, name), Opt(Hostname, host)])
    ensures c' == Created(name, c.node.(hostname := host))
  {
    ApplyOne(c, Opt(Name, name));
    ApplyLast(c, [Opt(Name, name)], Opt(Hostname, host));
    assert [Opt(Name, name)] + [Opt(Hostname, host)] == [Opt(Name, name), Opt(Hostname, host)];
    c' := ApplyOpts(c, [Opt(Name, name), Opt(Hostname, host)]);
  }

  lemma ReadBothIngress(c: Created, http: int, https: int)
    requires "80/tcp" !in c.node.ports && "443/tcp" !in c.node.ports
    ensures ApplyOpts(c, IngressOpt(http, "80") + IngressOpt(https, "443")) ==
            c.(node := c.node.(ports := c.node.ports + IngressPort(http, "80/tcp") + IngressPort(https, "443/tcp")))
  {
    assert "80" + "/tcp" == "80/tcp" && "443" + "/tcp" == "443/tcp";
    assert "80/tcp"[0] == '8' && "443/tcp"[0] == '4';
    ReadIngress(c, http, "80");
    ReadIngress(ApplyOpts(c, IngressOpt(http, "80")), https, "443");
    ApplyAdd(c, IngressOpt(http, "80"), IngressOpt(https, "443"));
  }

  lemma ReadTail(c: Created, n: Node, http: int, https: int)
    requires c.node.ports == OtherPorts(n.ports, INGRESS) && c.node.devices == [] && c.node.restart == ""
    ensures ApplyOpts(c, Tail(n, http, https)) ==
            c.(node := c.node.(ports := OtherPorts(n.ports, INGRESS) + IngressPort(http, "80/tcp")
              + IngressPort(https, "443/tcp"),
                               devices := OneDevice(CdiIds(n.devices)), restart := Policy(n.restart)))
  {
    var i, d, r := IngressOpt(http, "80") + IngressOpt(https, "443"), DeviceOpts(n.devices), RestartOpt(n.restart);
    assert "80/tcp" in INGRESS && "443/tcp" in INGRESS;
    ReadBothIngress(c, http, https);
    var c2 := ApplyOpts(c, i);
    ReadDevices(c2, n.devices);
    if r != [] { ApplyOne(ApplyOpts(c2, d), r[0]); }
    ApplyAdd(c, i, d);
    ApplyAdd(c, i + d, r);
  }

  /**
   Creating a container from the arguments and inspecting it gives back the node:
   hostname, labels, variables, mounts, other ports, devices, restart policy and
   command as they were, privileged, and exactly the ingress ports asked for.
   */
  lemma ReadsBack(c: Node, name: string, http: int, https: int, labelKeys: seq<string>, portKeys: seq<string>)
    requires Inspected(c) && Lists(labelKeys, c.labels) && Lists(portKeys, c.ports)
    ensures Interpret(CreateArgs(c, name, http, https, labelKeys, portKeys))
        == Some(Created(name, Canonical(c, http, https)))
    ensures Canonical(c, http, https).privileged
  {
    hide Opts;
    hide Canonical;
    hide Flatten;
    var opts := Opts(c, name, http, https, labelKeys, portKeys);
    var args := CreateArgs(c, name, http, https, labelKeys, portKeys);
    var rest := [c.image] + c.cmd;
    assert args[1..] == ["--privileged"] + (Flatten(opts) + rest);
    assert args[1..][1..] == Flatten(opts) + rest;
    ParseFlat(opts, rest, [], true);
    assert [] + opts == opts;
    PlainImage(c.image);
    assert rest[1..] == c.cmd;
    ReadOpts(c, name, http, https, labelKeys, portKeys);
    CanonicalPrivileged(c, http, https);
  }

  lemma CanonicalPrivileged(c: Node, http: int, https: int)
    ensures Canonical(c, http, https).privileged
  {
  }

  lemma PlainImage(image: string)
    requires image != "" && image[0] != '-'
    ensures image != "--privileged" && ReadFlag(image).None? && !HasPrefix(image, "-")
  {
  }

  /******* Any run of recreations *******/

  function Asked(port: int): nat {
    if port > 0 then port else 0
  }

  lemma PortReadsBack(port: nat)
    ensures FirstPort([Binding("0.0.0.0", Decimal(port))]) == port
  {
    var d := Decimal(port);
    DigitRunIs(d, []);
    assert d + [] == d && d[..|d|] == d;
    NumberOfDecimal(port);
  }

  ghost predicate StartsNumeric(b: Binding) {
    b.hostPort != "" && IsDigit(b.hostPort[0])
  }

  ghost predicate FirstNumeric(bs: seq<Binding>, i: nat) {
    i < |bs| && StartsNumeric(bs[i]) && forall j | 0 <= j < i :: !StartsNumeric(bs[j])
  }

  /** Where a container port is published: the number its first numeric binding starts with, or else 0. */
  ghost predicate PublishedOn(bs: seq<Binding>, port: nat) {
    if forall b | b in bs :: !StartsNumeric(b) then port == 0
    else exists i: nat :: FirstNumeric(bs, i) && port == Number(bs[i].hostPort[..DigitRun(bs[i].hostPort)])
  }

  lemma {:induction false} FirstPortIs(bs: seq<Binding>)
    ensures PublishedOn(bs, FirstPort(bs))
  {
    hide Number;
    if bs != [] {
      var rest := bs[1..];
      assert bs == [bs[0]] + rest;
      FirstPortIs(rest);
      if StartsNumeric(bs[0]) {
        assert FirstNumeric(bs, 0);
      } else if i: nat :|
          FirstNumeric(rest, i) && FirstPort(rest) == Number(rest[i].hostPort[..DigitRun(rest[i].hostPort)])
      {
        assert FirstNumeric(bs, i + 1) && bs[i + 1] == rest[i];
      }
    }
  }

  lemma PublishedIs(c: Node, port: string)
    ensures PublishedOn(if port + "/tcp" in c.ports then c.ports[port + "/tcp"] else [], PublishedPort(c, port))
  {
    FirstPortIs(if port + "/tcp" in c.ports then c.ports[port + "/tcp"] else []);
  }

  /** Inspecting the recreated node shows exactly the ingress ports asked for, 0 meaning none. */
  lemma PortsAsAsked(c: Node, http: int, https: int)
    ensures PublishedPort(Canonical(c, http, https), "80") == Asked(http)
    ensures PublishedPort(Canonical(c, http, https), "443") == Asked(https)
  {
    hide OwnEnv;
    hide OwnLabels;
    hide CdiIds;
    hide KeptMounts;
    hide FirstPort;
    hide Decimal;
    assert "80" + "/tcp" == "80/tcp" && "443" + "/tcp" == "443/tcp";
    assert "80/tcp" in INGRESS && "443/tcp" in INGRESS && "80/tcp"[0] == '8' && "443/tcp"[0] == '4';
    PortReadsBack(Asked(http));
    PortReadsBack(Asked(https));
  }

  lemma {:induction false} EnvOnce(env: seq<string>, prefix: string)
    ensures forall e | e in OwnEnv(env, prefix) :: HasPrefix(e, prefix)
    ensures OwnEnv(OwnEnv(env, prefix), prefix) == OwnEnv(env, prefix)
  {
    if env != [] {
      var init, e := env[..|env| - 1], env[|env| - 1];
      EnvOnce(init, prefix);
      if HasPrefix(e, prefix) {
        assert (OwnEnv(init, prefix) + [e])[..|OwnEnv(init, prefix)|] == OwnEnv(init, prefix);
      } else {
        assert OwnEnv(env, prefix) == OwnEnv(init, prefix);
      }
    }
  }

  lemma {:induction false} MountsOnce(ms: seq<Mount>)
    ensures forall m | m in KeptMounts(ms) :: exists x :: x in ms && Kept(x) == [m]
    ensures KeptMounts(KeptMounts(ms)) == KeptMounts(ms)
  {
    if ms != [] {
      var init, m := ms[..|ms| - 1], ms[|ms| - 1];
      assert ms == init + [m];
      MountsOnce(init);
      if m.kind.OtherMount? {
        assert KeptMounts(ms) == KeptMounts(init);
      } else {
        assert (KeptMounts(init) + Kept(m))[..|KeptMounts(init)|] == KeptMounts(init);
        assert m in ms && Kept(Kept(m)[0]) == Kept(m);
      }
      assert forall x | x in init :: x in ms;
    }
  }

  lemma DevicesOnce(ids: seq<string>)
    ensures CdiIds(OneDevice(ids)) == ids
  {
  }

  /** What a recreation keeps, the next one keeps too: only the last ports count. */
  lemma CanonicalTwice(c: Node, http: int, https: int, http': int, https': int)
    ensures Canonical(Canonical(c, http, https), http', https') == Canonical(c, http', https')
  {
    EnvOnce(c.env, ENV_PREFIX);
    MountsOnce(c.mounts);
    DevicesOnce(CdiIds(c.devices));
    assert OwnLabels(OwnLabels(c.labels, LABEL_PREFIX), LABEL_PREFIX) == OwnLabels(c.labels, LABEL_PREFIX);
    PortsTwice(OtherPorts(c.ports, INGRESS), http, https);
  }

  lemma PortsTwice(ports: map<string, seq<Binding>>, http: int, https: int)
    requires OtherPorts(ports, INGRESS) == ports
    ensures OtherPorts(ports + IngressPort(http, "80/tcp") + IngressPort(https, "443/tcp"), INGRESS) == ports
  {
  }

  lemma IngressPublishable(port: nat)
    ensures Publishable("80/tcp", [Binding("0.0.0.0", Decimal(port))])
    ensures Publishable("443/tcp", [Binding("0.0.0.0", Decimal(port))])
  {
  }

  lemma CanonicalInspected(c: Node, http: int, https: int)
    requires Inspected(c)
    ensures Inspected(Canonical(c, http, https))
  {
    var k := Canonical(c, http, https);
    MountsOnce(c.mounts);
    IngressPublishable(Asked(http));
    IngressPublishable(Asked(https));
    forall p | p in k.ports ensures Publishable(p, k.ports[p]) {
      if p in c.ports && k.ports[p] == c.ports[p] {
        assert '/' in p;
      }
    }
  }

  /** One recreation of a running node: by a port change, or by an upgrade to another image. */
  datatype Change = Ports(http: int, https: int) | Image(image: string)

  ghost function Recreated(c: Node, ch: Change): Node {
    match ch
    case Ports(h, s) => Canonical(c, h, s)
    case Image(i) => Canonical(c.(image := i), PublishedPort(c, "80"), PublishedPort(c, "443"))
  }

  ghost function AfterAll(c: Node, changes: seq<Change>): Node {
    if changes == [] then c else Recreated(AfterAll(c, changes[..|changes| - 1]), changes[|changes| - 1])
  }

  /** The ports last asked for; upgrades keep what they find. */
  ghost function LastPorts(c: Node, changes: seq<Change>): (nat, nat) {
    if changes == [] then (PublishedPort(c, "80"), PublishedPort(c, "443"))
    else
      match changes[|changes| - 1]
      case Ports(h, s) => (Asked(h), Asked(s))
      case Image(_) => LastPorts(c, changes[..|changes| - 1])
  }

  ghost function LastImage(c: Node, changes: seq<Change>): string {
    if changes == [] then c.image
    else
      match changes[|changes| - 1]
      case Ports(_, _) => LastImage(c, changes[..|changes| - 1])
      case Image(i) => i
  }

  /**
   Over any run of port updates and upgrades the node stays itself: only its image
   and its ingress ports change, and those are the last ones asked for.
   */
  lemma {:induction false} IdentitySurvives(c: Node, changes: seq<Change>)
    requires changes != []
    ensures AfterAll(c, changes) ==
            Canonical(c.(image := LastImage(c, changes)), LastPorts(c, changes).0, LastPorts(c, changes).1)
    ensures PublishedPort(AfterAll(c, changes), "80") == LastPorts(c, changes).0
    ensures PublishedPort(AfterAll(c, changes), "443") == LastPorts(c, changes).1
  {
    var init, ch := changes[..|changes| - 1], changes[|changes| - 1];
    var (h, s) := LastPorts(c, changes);
    PortsAsAsked(c.(image := LastImage(c, changes)), h, s);
    if ch.Ports? {
      CanonicalAsked(AfterAll(c, init), ch.http, ch.https);
    }
    if init != [] {
      IdentitySurvives(c, init);
      var (h0, s0) := LastPorts(c, init);
      CanonicalTwice(c.(image := LastImage(c, init)), h0, s0, h, s);
      CanonicalImage(c.(image := LastImage(c, init)), h0, s0, LastImage(c, changes));
      CanonicalTwice(c.(image := LastImage(c, changes)), h0, s0, h, s);
    }
  }

  lemma CanonicalAsked(c: Node, http: int, https: int)
    ensures Canonical(c, http, https) == Canonical(c, Asked(http), Asked(https))
  {
  }

  lemma CanonicalImage(c: Node, http: int, https: int, image: string)
    ensures Canonical(c, http, https).(image := image) == Canonical(c.(image := image), http, https)
  {
  }

  /** The arguments orcinus recreates a node with, for one change and some order of the node's maps. */
  function ArgsOf(c: Node, name: string, ch: Change, labelKeys: seq<string>, portKeys: seq<string>): seq<string>
    requires forall k | k in labelKeys :: k in c.labels
    requires forall k | k in portKeys :: k in c.ports
  {
    match ch
    case Ports(h, s) => CreateArgs(c, name, h, s, labelKeys, portKeys)
    case Image(i) => CreateArgs(c.(image := i), name, PublishedPort(c, "80"), PublishedPort(c, "443"), labelKeys,
      portKeys)
  }

  /** Docker makes `d` of the arguments for `c`. */
  ghost predicate Makes(c: Node, name: string, ch: Change, d: Node) {
    exists labelKeys, portKeys :: Lists(labelKeys, c.labels) && Lists(portKeys, c.ports)
      && Interpret(ArgsOf(c, name, ch, labelKeys, portKeys)) == Some(Created(name, d))
  }

  /** Each node is made of the one before it. */
  ghost predicate Chain(nodes: seq<Node>, name: string, changes: seq<Change>) {
    |nodes| == |changes| + 1 && forall i | 0 <= i < |changes| :: Makes(nodes[i], name, changes[i], nodes[i + 1])
  }

  predicate PlainChange(ch: Change) {
    ch.Image? ==> ch.image != "" && ch.image[0] != '-'
  }

  lemma MakesIs(c: Node, name: string, ch: Change, d: Node)
    requires Inspected(c) && PlainChange(ch) && Makes(c, name, ch, d)
    ensures d == Recreated(c, ch) && Inspected(d)
  {
    hide CreateArgs;
    hide Interpret;
    hide Canonical;
    hide PublishedPort;
    var labelKeys, portKeys :| Lists(labelKeys, c.labels) && Lists(portKeys, c.ports)
      && Interpret(ArgsOf(c, name, ch, labelKeys, portKeys)) == Some(Created(name, d));
    match ch {
      case Ports(h, s) =>
        ReadsBack(c, name, h, s, labelKeys, portKeys);
        CanonicalInspected(c, h, s);
      case Image(i) =>
        var n := c.(image := i);
        assert Inspected(n);
        ReadsBack(n, name, PublishedPort(c, "80"), PublishedPort(c, "443"), labelKeys, portKeys);
        CanonicalInspected(n, PublishedPort(c, "80"), PublishedPort(c, "443"));
    }
  }

  lemma {:induction false} ChainIs(nodes: seq<Node>, name: string, changes: seq<Change>)
    requires Chain(nodes, name, changes) && Inspected(nodes[0]) && forall i | 0 <= i < |changes| ::
        PlainChange(changes[i])
    ensures nodes[|changes|] == AfterAll(nodes[0], changes) && Inspected(nodes[|changes|])
  {
    hide Makes;
    hide Inspected;
    hide Recreated;
    if changes != [] {
      var n := |changes| - 1;
      ChainIs(nodes[..n + 1], name, changes[..n]);
      MakesIs(nodes[n], name, changes[n], nodes[n + 1]);
    }
  }

  /**
   The same of what docker actually makes: over any run of port updates and upgrades, each node made by
   docker from the arguments rebuilt of the node before it, the last one is the first with the last
   image and exactly the last ports asked for.
   */
  lemma IdentityOfRuns(nodes: seq<Node>, name: string, changes: seq<Change>)
    requires Chain(nodes, name, changes) && Inspected(nodes[0]) && forall i | 0 <= i < |changes| ::
        PlainChange(changes[i])
    requires changes != []
    ensures
      var c, d := nodes[0], nodes[|changes|];
      && d == Canonical(c.(image := LastImage(c, changes)), LastPorts(c, changes).0, LastPorts(c, changes).1)
      && PublishedPort(d, "80") == LastPorts(c, changes).0 && PublishedPort(d, "443") == LastPorts(c, changes).1
      && d.privileged
  {
    hide Makes;
    hide Inspected;
    hide AfterAll;
    ChainIs(nodes, name, changes);
    IdentitySurvives(nodes[0], changes);
  }

  /** A single binding on every address, spelled as orcinus spells it; or none at all. */
  ghost predicate OwnBinding(ports: map<string, seq<Binding>>, key: string) {
    key in ports ==> exists n: nat :: n > 0 && ports[key] == [Binding("0.0.0.0", Decimal(n))]
  }

  lemma OwnBindingIff(c: Node, port: string, key: string)
    requires key == port + "/tcp"
    ensures Get(IngressPort(PublishedPort(c, port), key), key) == Get(c.ports, key) <==> OwnBinding(c.ports, key)
  {
    hide Decimal;
    if key in c.ports {
      if n: nat :| n > 0 && c.ports[key] == [Binding("0.0.0.0", Decimal(n))] {
        PortReadsBack(n);
      } else {
        var n := PublishedPort(c, port);
        assert n > 0 ==> c.ports[key] != [Binding("0.0.0.0", Decimal(n))];
      }
    }
  }

  /** The change leaves the ingress port as it is published: an upgrade, or an update that asks for the same port. */
  predicate KeepsPort(c: Node, ch: Change, port: string) {
    ch.Ports? ==> (if port == "80" then ch.http else ch.https) == PublishedPort(c, port)
  }

  /**
   A change that leaves an ingress port as it is published keeps its bindings if and only if
   there are none, or there is one, on every address. A host address, and any binding after the
   first readable one, is lost.
   */
  lemma IngressKeptIff(c: Node, ch: Change)
    ensures
      var d := Recreated(c, ch);
      && (KeepsPort(c, ch, "80") ==>
          (Get(d.ports, "80/tcp") == Get(c.ports, "80/tcp") <==> OwnBinding(c.ports, "80/tcp")))
      && (KeepsPort(c, ch, "443") ==>
          (Get(d.ports, "443/tcp") == Get(c.ports, "443/tcp") <==> OwnBinding(c.ports, "443/tcp")))
  {
    hide OwnBinding;
    hide PublishedPort;
    assert "80" + "/tcp" == "80/tcp" && "443" + "/tcp" == "443/tcp" && "80"[0] == '8' && "443"[0] == '4';
    assert "80/tcp" in INGRESS && "443/tcp" in INGRESS && "80/tcp"[0] == '8' && "443/tcp"[0] == '4';
    OwnBindingIff(c, "80", "80/tcp");
    OwnBindingIff(c, "443", "443/tcp");
  }

  /** A second host port for ingress is one that is lost. */
  lemma SecondBindingLost(c: Node, image: string, a: nat, b: nat)
    requires a > 0 && c.ports == map["80/tcp" := [Binding("0.0.0.0", Decimal(a)), Binding("0.0.0.0", Decimal(b))]]
    ensures Get(Recreated(c, Image(image)).ports, "80/tcp") == Some([Binding("0.0.0.0", Decimal(a))])
  {
    hide Decimal;
    var key := "80/tcp";
    assert "80" + "/tcp" == key && key in INGRESS && key[0] == '8' && "443/tcp"[0] == '4';
    DigitRunIs(Decimal(a), []);
    assert Decimal(a) + [] == Decimal(a) && Decimal(a)[..|Decimal(a)|] == Decimal(a);
    NumberOfDecimal(a);
    assert PublishedPort(c, "80") == a;
  }
}
