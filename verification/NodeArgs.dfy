/**
 Rebuilding a node container: the `docker create` arguments made from what
 `docker inspect` showed, and what docker makes of them.
 */
module NodeArgs {
  import opened Common
  import opened Text

  datatype Binding = Binding(hostIp: string, hostPort: string)
  datatype Driver = Cdi | OtherDriver
  datatype Device = Device(driver: Driver, ids: seq<string>)
  datatype MountKind = VolumeMount | BindMount | OtherMount
  datatype Mount = Mount(kind: MountKind, name: string, source: string, dest: string)

  /** The part of a container's configuration that makes it this node. */
  datatype Node = Node(
    image: string,
    cmd: seq<string>,
    hostname: string,
    env: seq<string>,
    labels: map<string, string>,
    ports: map<string, seq<Binding>>,
    devices: seq<Device>,
    restart: string,
    mounts: seq<Mount>,
    privileged: bool)

  /** The options of `docker create` that take a value. */
  datatype Flag = Name | Hostname | Label | Env | Volume | Publish | AddDevice | Restart

  function Spell(f: Flag): string {
    match f
    case Name => "--name"
    case Hostname => "--hostname"
    case Label => "--label"
    case Env => "-e"
    case Volume => "-v"
    case Publish => "-p"
    case AddDevice => "--device"
    case Restart => "--restart"
  }

  datatype Opt = Opt(flag: Flag, value: string)

  const LABEL_PREFIX := "orcinus."
  const ENV_PREFIX := "K3S_"
  const INGRESS := {"80/tcp", "443/tcp"}

  /** The host port a container port is published on, or 0. */
  function PublishedPort(c: Node, port: string): nat {
    var key := port + "/tcp";
    if key in c.ports then FirstPort(c.ports[key]) else 0
  }

  function FirstPort(bs: seq<Binding>): nat {
    if bs == [] then 0
    else
      var k := DigitRun(bs[0].hostPort);
      if k > 0 then Number(bs[0].hostPort[..k]) else FirstPort(bs[1..])
  }

  /******* The arguments *******/

  function LabelOpts(keys: seq<string>, labels: map<string, string>, prefix: string): seq<Opt>
    requires forall k | k in keys :: k in labels
  {
    if keys == [] then []
    else
      var k := keys[|keys| - 1];
      LabelOpts(keys[..|keys| - 1], labels, prefix) +
      if HasPrefix(k, prefix) then [Opt(Label, k + "=" + labels[k])] else []
  }

  function EnvOpts(env: seq<string>, prefix: string): seq<Opt> {
    if env == [] then []
    else
      var e := env[|env| - 1];
      EnvOpts(env[..|env| - 1], prefix) + if HasPrefix(e, prefix) then [Opt(Env, e)] else []
  }

  function MountOpt(m: Mount): seq<Opt> {
    if m.kind.VolumeMount? then [Opt(Volume, m.name + ":" + m.dest)]
    else if m.kind.BindMount? then [Opt(Volume, m.source + ":" + m.dest)]
    else []
  }

  function MountOpts(ms: seq<Mount>): seq<Opt> {
    if ms == [] then [] else MountOpts(ms[..|ms| - 1]) + MountOpt(ms[|ms| - 1])
  }

  function BindingOpts(p: string, bs: seq<Binding>): seq<Opt> {
    if bs == [] then []
    else
      var b := bs[|bs| - 1];
      BindingOpts(p, bs[..|bs| - 1]) + [Opt(Publish, b.hostIp + ":" + b.hostPort + ":" + p)]
  }

  function PortOpts(keys: seq<string>, ports: map<string, seq<Binding>>, skip: set<string>): seq<Opt>
    requires forall k | k in keys :: k in ports
  {
    if keys == [] then []
    else
      var p := keys[|keys| - 1];
      PortOpts(keys[..|keys| - 1], ports, skip) + if p in skip then [] else BindingOpts(p, ports[p])
  }

  function IngressOpt(port: int, target: string): seq<Opt> {
    if port > 0 then [Opt(Publish, "0.0.0.0" + ":" + Decimal(port) + ":" + target)] else []
  }

  function IdOpts(ids: seq<string>): seq<Opt> {
    if ids == [] then [] else IdOpts(ids[..|ids| - 1]) + [Opt(AddDevice, ids[|ids| - 1])]
  }

  function DeviceOpts(ds: seq<Device>): seq<Opt> {
    if ds == [] then []
    else
      var d := ds[|ds| - 1];
      DeviceOpts(ds[..|ds| - 1]) + if d.driver.Cdi? then IdOpts(d.ids) else []
  }

  function RestartOpt(r: string): seq<Opt> {
    if r != "" && r != "no" then [Opt(Restart, r)] else []
  }

  /** `labelKeys` and `portKeys` list the keys of the two maps, in whatever order they are ranged over. */
  function Opts(c: Node, name: string, http: int, https: int, labelKeys: seq<string>, portKeys: seq<string>): seq<Opt>
    requires forall k | k in labelKeys :: k in c.labels
    requires forall k | k in portKeys :: k in c.ports
  {
    [Opt(Name, name), Opt(Hostname, c.hostname)]
    + LabelOpts(labelKeys, c.labels, LABEL_PREFIX) + EnvOpts(c.env, ENV_PREFIX) + MountOpts(c.mounts)
      + PortOpts(portKeys, c.ports, INGRESS)
    + IngressOpt(http, "80") + IngressOpt(https, "443") + DeviceOpts(c.devices) + RestartOpt(c.restart)
  }

  function Flatten(opts: seq<Opt>): seq<string> {
    if opts == [] then [] else Flatten(opts[..|opts| - 1]) + [Spell(opts[|opts| - 1].flag), opts[|opts| - 1].value]
  }

  function CreateArgs(c: Node, name: string, http: int, https: int, labelKeys: seq<string>,
      portKeys: seq<string>): seq<string>
    requires forall k | k in labelKeys :: k in c.labels
    requires forall k | k in portKeys :: k in c.ports
  {
    ["create", "--privileged"] + Flatten(Opts(c, name, http, https, labelKeys, portKeys)) + [c.image] + c.cmd
  }

  /******* The loops that append them *******/

  method BuildLabelOpts(c: Node, labelKeys: seq<string>) returns (opts: seq<Opt>)
    requires forall k | k in labelKeys :: k in c.labels
    ensures opts == LabelOpts(labelKeys, c.labels, LABEL_PREFIX)
  {
    opts := [];
    for i := 0 to |labelKeys|
      invariant opts == LabelOpts(labelKeys[..i], c.labels, LABEL_PREFIX)
    {
      assert labelKeys[..i + 1][..i] == labelKeys[..i];
      var k := labelKeys[i];
      if HasPrefix(k, LABEL_PREFIX) {
        opts := opts + [Opt(Label, k + "=" + c.labels[k])];
      }
    }
    assert labelKeys[..|labelKeys|] == labelKeys;
  }

  method BuildEnvOpts(c: Node) returns (opts: seq<Opt>)
    ensures opts == EnvOpts(c.env, ENV_PREFIX)
  {
    opts := [];
    for i := 0 to |c.env|
      invariant opts == EnvOpts(c.env[..i], ENV_PREFIX)
    {
      assert c.env[..i + 1][..i] == c.env[..i];
      if HasPrefix(c.env[i], ENV_PREFIX) {
        opts := opts + [Opt(Env, c.env[i])];
      }
    }
    assert c.env[..|c.env|] == c.env;
  }

  method BuildMountOpts(c: Node) returns (opts: seq<Opt>)
    ensures opts == MountOpts(c.mounts)
  {
    opts := [];
    for i := 0 to |c.mounts|
      invariant opts == MountOpts(c.mounts[..i])
    {
      assert c.mounts[..i + 1][..i] == c.mounts[..i];
      opts := opts + MountOpt(c.mounts[i]);
    }
    assert c.mounts[..|c.mounts|] == c.mounts;
  }

  method BuildDeviceOpts(c: Node) returns (opts: seq<Opt>)
    ensures opts == DeviceOpts(c.devices)
  {
    opts := [];
    for i := 0 to |c.devices|
      invariant opts == DeviceOpts(c.devices[..i])
    {
      assert c.devices[..i + 1][..i] == c.devices[..i];
      if c.devices[i].driver.Cdi? {
        ghost var before := opts;
        var ids := c.devices[i].ids;
        for j := 0 to |ids|
          invariant opts == before + IdOpts(ids[..j])
        {
          assert ids[..j + 1][..j] == ids[..j];
          opts := opts + [Opt(AddDevice, ids[j])];
        }
        assert ids[..|ids|] == ids;
      }
    }
    assert c.devices[..|c.devices|] == c.devices;
  }

  method BuildCreateArgs(c: Node, name: string, http: int, https: int, labelKeys: seq<string>, portKeys: seq<string>)
    returns (args: seq<string>)
    requires forall k | k in labelKeys :: k in c.labels
    requires forall k | k in portKeys :: k in c.ports
    ensures args == CreateArgs(c, name, http, https, labelKeys, portKeys)
  {
    hide LabelOpts;
    hide EnvOpts;
    hide MountOpts;
    hide PortOpts;
    hide DeviceOpts;
    hide IngressOpt;
    hide RestartOpt;
    hide Spell;
    var labels := BuildLabelOpts(c, labelKeys);
    var env := BuildEnvOpts(c);
    var mounts := BuildMountOpts(c);
    var ports := BuildPortOpts(c, portKeys);
    var devices := BuildDeviceOpts(c);
    var opts := [Opt(Name, name), Opt(Hostname, c.hostname)]
      + labels + env + mounts + ports
      + IngressOpt(http, "80") + IngressOpt(https, "443") + devices + RestartOpt(c.restart);
    args := ["create", "--privileged"];
    for i := 0 to |opts|
      invariant args == ["create", "--privileged"] + Flatten(opts[..i])
    {
      assert opts[..i + 1][..i] == opts[..i];
      args := args + [Spell(opts[i].flag), opts[i].value];
    }
    assert opts[..|opts|] == opts;
    args := args + [c.image] + c.cmd;
  }

  method BuildPortOpts(c: Node, portKeys: seq<string>) returns (opts: seq<Opt>)
    requires forall k | k in portKeys :: k in c.ports
    ensures opts == PortOpts(portKeys, c.ports, INGRESS)
  {
    opts := [];
    for i := 0 to |portKeys|
      invariant opts == PortOpts(portKeys[..i], c.ports, INGRESS)
    {
      assert portKeys[..i + 1][..i] == portKeys[..i];
      var p := portKeys[i];
      if p !in INGRESS {
        ghost var before := opts;
        for j := 0 to |c.ports[p]|
          invariant opts == before + BindingOpts(p, c.ports[p][..j])
        {
          assert c.ports[p][..j + 1][..j] == c.ports[p][..j];
          opts := opts + [Opt(Publish, c.ports[p][j].hostIp + ":" + c.ports[p][j].hostPort + ":" + p)];
        }
        assert c.ports[p][..|c.ports[p]|] == c.ports[p];
      }
    }
    assert portKeys[..|portKeys|] == portKeys;
  }

  /******* What docker makes of the arguments *******/

  datatype Created = Created(name: string, node: Node)
  datatype Cli = Cli(privileged: bool, opts: seq<Opt>, image: string, cmd: seq<string>)

  function ReadFlag(arg: string): Option<Flag> {
    if arg == "--name" then Some(Name)
    else if arg == "--hostname" then Some(Hostname)
    else if arg == "--label" then Some(Label)
    else if arg == "-e" then Some(Env)
    else if arg == "-v" then Some(Volume)
    else if arg == "-p" then Some(Publish)
    else if arg == "--device" then Some(AddDevice)
    else if arg == "--restart" then Some(Restart)
    else None
  }

  /** Options first; the first argument that is not one names the image, and the rest is its command. */
  function ParseArgs(args: seq<string>, opts: seq<Opt>, privileged: bool): Option<Cli>
    decreases |args|
  {
    if args == [] then None
    else if args[0] == "--privileged" then ParseArgs(args[1..], opts, true)
    else
      match ReadFlag(args[0])
      case Some(f) => if |args| < 2 then None else ParseArgs(args[2..], opts + [Opt(f, args[1])], privileged)
      case None => if HasPrefix(args[0], "-") then None else Some(Cli(privileged, opts, args[0], args[1..]))
  }

  function ParseMount(v: string): Mount {
    match Cut(v, ':')
    case None => Mount(VolumeMount, "", "", v)
    case Some((a, b)) => if HasPrefix(a, "/") then Mount(BindMount, "", a, b) else Mount(VolumeMount, a, "", b)
  }

  function AddBinding(ports: map<string, seq<Binding>>, p: string, b: Binding): map<string, seq<Binding>> {
    ports[p := (if p in ports then ports[p] else []) + [b]]
  }

  /**
   `ip:host:container`, taken apart from the right, so that the address may itself
   hold colons; a container port without a protocol is TCP.
   */
  function PublishOpt(ports: map<string, seq<Binding>>, v: string): map<string, seq<Binding>> {
    match CutLast(v, ':')
    case None => ports
    case Some((front, p)) =>
      match CutLast(front, ':')
      case None => ports
      case Some((ip, host)) => AddBinding(ports, if '/' in p then p else p + "/tcp", Binding(ip, host))
  }

  function WithDevice(ds: seq<Device>, id: string): seq<Device> {
    if ds == [] then [Device(Cdi, [id])] else [Device(Cdi, ds[0].ids + [id])]
  }

  function ApplyOpt(c: Created, o: Opt): Created {
    match o.flag
    case Name => c.(name := o.value)
    case Hostname => c.(node := c.node.(hostname := o.value))
    case Label =>
      var (k, v) := match Cut(o.value, '=') { case Some(kv) => kv case None => (o.value, "") };
      c.(node := c.node.(labels := c.node.labels[k := v]))
    case Env => c.(node := c.node.(env := c.node.env + [o.value]))
    case Volume => c.(node := c.node.(mounts := c.node.mounts + [ParseMount(o.value)]))
    case Publish => c.(node := c.node.(ports := PublishOpt(c.node.ports, o.value)))
    case AddDevice => c.(node := c.node.(devices := WithDevice(c.node.devices, o.value)))
    case Restart => c.(node := c.node.(restart := o.value))
  }

  function ApplyOpts(c: Created, opts: seq<Opt>): Created {
    if opts == [] then c else ApplyOpt(ApplyOpts(c, opts[..|opts| - 1]), opts[|opts| - 1])
  }

  function Blank(cli: Cli): Created {
    Created("", Node(cli.image, cli.cmd, "", [], map[], map[], [], "", [], cli.privileged))
  }

  /** The container `docker create` would make, as `docker inspect` would show it. */
  function Interpret(args: seq<string>): Option<Created> {
    if args == [] || args[0] != "create" then None
    else
      match ParseArgs(args[1..], [], false)
      case None => None
      case Some(cli) => Some(ApplyOpts(Blank(cli), cli.opts))
  }
}
