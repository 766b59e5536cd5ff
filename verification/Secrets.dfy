/**
 The pass that moves variables marked `x-orcinus-secret` out of containers and
 shared ConfigMaps into one Secret per service.
 */
module Secrets {
  import opened Common

  /******* Objects *******/

  /** Where a variable's value comes from when it is not written inline. */
  datatype Source = SecretKey(secret: string, key: string) | OtherSource(id: string)
  datatype EnvVar = EnvVar(name: string, value: string, valueFrom: Option<Source>)
  datatype EnvFrom = FromConfigMap(cm: string) | FromSecret(secret: string)
  datatype Container = Container(env: seq<EnvVar>, envFrom: seq<EnvFrom>)
  datatype Workload = Workload(name: string, containers: seq<Container>)

  /** ConfigMap contents are held as one table indexed by ConfigMap name and key. */
  datatype Entry = Entry(cm: string, key: string)
  type Entries = map<Entry, string>
  type Data = map<string, string>
  type SecretStore = map<string, Data>

  datatype State = State(workloads: seq<Workload>, entries: Entries, created: SecretStore)

  function SecretName(svc: string): string {
    svc + "-secret"
  }

  function Ref(n: string, secret: string): EnvVar {
    EnvVar(n, "", Some(SecretKey(secret, n)))
  }

  /******* The environment a container sees *******/

  datatype Value = Text(text: string) | Missing(secret: string, key: string) | Elsewhere(id: string)

  function Resolve(e: EnvVar, secrets: SecretStore): Value {
    match e.valueFrom
    case None => Text(e.value)
    case Some(SecretKey(s, k)) =>
      if s in secrets && k in secrets[s] then Text(secrets[s][k]) else Missing(s, k)
    case Some(OtherSource(id)) => Elsewhere(id)
  }

  /** The last inline entry for a name: later entries replace earlier ones. */
  function LastEntry(env: seq<EnvVar>, n: string): Option<EnvVar> {
    if env == [] then None
    else if env[|env| - 1].name == n then Some(env[|env| - 1])
    else LastEntry(env[..|env| - 1], n)
  }

  function SourceValue(r: EnvFrom, n: string, entries: Entries, secrets: SecretStore): Option<string> {
    match r
    case FromConfigMap(cm) => Get(entries, Entry(cm, n))
    case FromSecret(s) => if s in secrets then Get(secrets[s], n) else None
  }

  /** The value `envFrom` gives a name: sources in order, the later one winning. */
  function FromValue(refs: seq<EnvFrom>, n: string, entries: Entries, secrets: SecretStore): Option<string> {
    if refs == [] then None
    else
      var v := SourceValue(refs[|refs| - 1], n, entries, secrets);
      if v.Some? then v else FromValue(refs[..|refs| - 1], n, entries, secrets)
  }

  /** The effective environment, name by name: `envFrom` first, `env` on top. */
  function Effective(c: Container, entries: Entries, secrets: SecretStore, n: string): Option<Value> {
    match LastEntry(c.env, n)
    case Some(e) => Some(Resolve(e, secrets))
    case None =>
      match FromValue(c.envFrom, n, entries, secrets)
      case Some(v) => Some(Text(v))
      case None => None
  }

  /******* The pass, as functions *******/

  predicate Moves(e: EnvVar, keys: seq<string>) {
    e.name in keys && e.valueFrom.None?
  }

  function RewriteEnv(env: seq<EnvVar>, keys: seq<string>, secret: string): seq<EnvVar> {
    if env == [] then []
    else
      var e := env[|env| - 1];
      RewriteEnv(env[..|env| - 1], keys, secret) + [if Moves(e, keys) then Ref(e.name, secret) else e]
  }

  function InlineData(data: Data, env: seq<EnvVar>, keys: seq<string>): Data {
    if env == [] then data
    else
      var e := env[|env| - 1];
      var rest := InlineData(data, env[..|env| - 1], keys);
      if Moves(e, keys) then rest[e.name := e.value] else rest
  }

  predicate HasEnvVar(env: seq<EnvVar>, n: string) {
    exists i :: 0 <= i < |env| && env[i].name == n
  }

  datatype Pull = Pull(env: seq<EnvVar>, entries: Entries, data: Data)

  function PullKey(p: Pull, cm: string, n: string, secret: string): Pull {
    var x := Entry(cm, n);
    if x !in p.entries then p
    else Pull(if HasEnvVar(p.env, n) then p.env else p.env + [Ref(n, secret)],
              p.entries - {x}, p.data[n := p.entries[x]])
  }

  function PullKeys(p: Pull, cm: string, keys: seq<string>, secret: string): Pull {
    if keys == [] then p
    else PullKey(PullKeys(p, cm, keys[..|keys| - 1], secret), cm, keys[|keys| - 1], secret)
  }

  function PullRefs(p: Pull, refs: seq<EnvFrom>, keys: seq<string>, secret: string): Pull {
    if refs == [] then p
    else
      var q := PullRefs(p, refs[..|refs| - 1], keys, secret);
      match refs[|refs| - 1]
      case FromSecret(_) => q
      case FromConfigMap(cm) => PullKeys(q, cm, keys, secret)
  }

  function PassContainer(c: Container, entries: Entries, data: Data, keys: seq<string>, secret: string): Pull {
    PullRefs(Pull(RewriteEnv(c.env, keys, secret), entries, InlineData(data, c.env, keys)), c.envFrom, keys, secret)
  }

  datatype Batch = Batch(containers: seq<Container>, entries: Entries, data: Data)

  function PassContainers(cs: seq<Container>, entries: Entries, data: Data, keys: seq<string>, secret: string): Batch {
    if cs == [] then Batch([], entries, data)
    else
      var b := PassContainers(cs[..|cs| - 1], entries, data, keys, secret);
      var c := cs[|cs| - 1];
      var p := PassContainer(c, b.entries, b.data, keys, secret);
      Batch(b.containers + [Container(p.env, c.envFrom)], p.entries, p.data)
  }

  datatype Sweep = Sweep(workloads: seq<Workload>, entries: Entries, data: Data)

  function PassWorkloads(ws: seq<Workload>, svc: string, entries: Entries, keys: seq<string>): Sweep {
    if ws == [] then Sweep([], entries, map[])
    else
      var s := PassWorkloads(ws[..|ws| - 1], svc, entries, keys);
      var w := ws[|ws| - 1];
      if w.name != svc then Sweep(s.workloads + [w], s.entries, s.data)
      else
        var b := PassContainers(w.containers, s.entries, s.data, keys, SecretName(svc));
        Sweep(s.workloads + [Workload(w.name, b.containers)], b.entries, b.data)
  }

  function PassService(st: State, svc: string, keys: seq<string>): State {
    var s := PassWorkloads(st.workloads, svc, st.entries, keys);
    State(s.workloads, s.entries, if s.data == map[] then st.created else st.created[SecretName(svc) := s.data])
  }

  /** The whole pass, for one iteration order of the services map. */
  function PassAll(st: State, order: seq<string>, services: map<string, seq<string>>): State
    requires forall s | s in order :: s in services
  {
    if order == [] then st
    else
      var s := order[|order| - 1];
      PassService(PassAll(st, order[..|order| - 1], services), s, services[s])
  }

  /******* The pass, as the loops that run it *******/

  /** Replaces the wanted inline entries, collecting their values. */
  method RewriteInline(env: seq<EnvVar>, keys: seq<string>, secret: string, data0: Data)
    returns (kept: seq<EnvVar>, data: Data)
    ensures kept == RewriteEnv(env, keys, secret)
    ensures data == InlineData(data0, env, keys)
  {
    kept, data := [], data0;
    for i := 0 to |env|
      invariant kept == RewriteEnv(env[..i], keys, secret)
      invariant data == InlineData(data0, env[..i], keys)
    {
      assert env[..i + 1][..i] == env[..i];
      var e := env[i];
      if Moves(e, keys) {
        data := data[e.name := e.value];
        kept := kept + [Ref(e.name, secret)];
      } else {
        kept := kept + [e];
      }
    }
    assert env[..|env|] == env;
  }

  /** Moves the wanted keys of every ConfigMap a container pulls. */
  method PullFromConfigMaps(p0: Pull, refs: seq<EnvFrom>, keys: seq<string>, secret: string) returns (p: Pull)
    ensures p == PullRefs(p0, refs, keys, secret)
  {
    p := p0;
    for i := 0 to |refs|
      invariant p == PullRefs(p0, refs[..i], keys, secret)
    {
      assert refs[..i + 1][..i] == refs[..i];
      match refs[i] {
        case FromSecret(_) =>
        case FromConfigMap(cm) =>
          var q := p;
          for k := 0 to |keys|
            invariant p == PullKeys(q, cm, keys[..k], secret)
          {
            assert keys[..k + 1][..k] == keys[..k];
            var x := Entry(cm, keys[k]);
            if x in p.entries {
              var v := p.entries[x];
              p := p.(entries := p.entries - {x}, data := p.data[keys[k] := v]);
              if !HasEnvVar(p.env, keys[k]) {
                p := p.(env := p.env + [Ref(keys[k], secret)]);
              }
            }
          }
          assert keys[..|keys|] == keys;
      }
    }
    assert refs[..|refs|] == refs;
  }

  /** The generated object list: its workloads, its ConfigMap entries and the Secrets added to it. */
  class Manifest {
    var workloads: seq<Workload>
    var entries: Entries
    var created: SecretStore

    function Value(): State
      reads this
    {
      State(workloads, entries, created)
    }

    constructor (workloads: seq<Workload>, entries: Entries)
      ensures Value() == State(workloads, entries, map[])
    {
      this.workloads, this.entries, this.created := workloads, entries, map[];
    }

    /** The containers of one workload in turn, sharing the ConfigMaps and the service's data. */
    method MoveContainers(cs: seq<Container>, keys: seq<string>, secret: string, data0: Data)
      returns (out: seq<Container>, data: Data)
      modifies this`entries
      ensures Batch(out, entries, data) == PassContainers(cs, old(entries), data0, keys, secret)
    {
      out, data := [], data0;
      for j := 0 to |cs|
        invariant Batch(out, entries, data) == PassContainers(cs[..j], old(entries), data0, keys, secret)
      {
        assert cs[..j + 1][..j] == cs[..j];
        var env, d := RewriteInline(cs[j].env, keys, secret, data);
        var p := PullFromConfigMaps(Pull(env, entries, d), cs[j].envFrom, keys, secret);
        entries, data := p.entries, p.data;
        out := out + [Container(p.env, cs[j].envFrom)];
      }
      assert cs[..|cs|] == cs;
    }

    method MoveService(svc: string, keys: seq<string>)
      modifies this
      ensures Value() == PassService(old(Value()), svc, keys)
    {
      hide PassContainers;
      hide SecretName;
      var ws, es := workloads, entries;
      var data: Data := map[];
      for i := 0 to |ws|
        invariant |workloads| == |ws| && workloads[i..] == ws[i..]
        invariant Sweep(workloads[..i], entries, data) == PassWorkloads(ws[..i], svc, es, keys)
        invariant created == old(created)
      {
        assert ws[..i + 1][..i] == ws[..i];
        assert workloads[i] == workloads[i..][0] == ws[i];
        ghost var before := workloads[..i];
        if workloads[i].name == svc {
          var out: seq<Container>;
          out, data := MoveContainers(workloads[i].containers, keys, SecretName(svc), data);
          workloads := workloads[i := Workload(svc, out)];
        }
        assert workloads[..i + 1] == before + [workloads[i]];
        assert workloads[i + 1..] == ws[i..][1..];
      }
      assert ws[..|ws|] == ws && workloads[..|ws|] == workloads;
      if data != map[] {
        created := created[SecretName(svc) := data];
      }
    }

    /** `order` is the order in which the services map happens to be ranged over. */
    method ApplySecrets(order: seq<string>, services: map<string, seq<string>>)
      requires forall s | s in order :: s in services
      modifies this
      ensures Value() == PassAll(old(Value()), order, services)
    {
      for i := 0 to |order|
        invariant Value() == PassAll(old(Value()), order[..i], services)
      {
        assert order[..i + 1][..i] == order[..i];
        MoveService(order[i], services[order[i]]);
      }
      assert order[..|order|] == order;
    }
  }
}
