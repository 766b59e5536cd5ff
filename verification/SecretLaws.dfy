/** What the secret pass keeps, when it keeps it, and that its result does not depend on map order. */
module SecretLaws {
  import opened Common
  import opened Secrets

  /******* Closed forms: what one container loses and gains *******/

  ghost predicate Reads(refs: seq<EnvFrom>, cm: string) {
    FromConfigMap(cm) in refs
  }

  /** The entries left once the keys have been pulled through the given sources. */
  ghost function Without(entries: Entries, refs: seq<EnvFrom>, keys: seq<string>): Entries {
    map x | x in entries && !(Reads(refs, x.cm) && x.key in keys) :: entries[x]
  }

  /**
   The value a wanted key ends up with: the last ConfigMap that still has it when
   its turn comes, so a repeated reference counts only where it stands first.
   */
  ghost function Pulled(refs: seq<EnvFrom>, keys: seq<string>, entries: Entries, n: string): Option<string> {
    if refs == [] then None
    else
      var r, before := refs[|refs| - 1], refs[..|refs| - 1];
      if r.FromConfigMap? && n in keys && Entry(r.cm, n) in entries && r !in before
      then Some(entries[Entry(r.cm, n)])
      else Pulled(before, keys, entries, n)
  }

  ghost function Or<T>(a: Option<T>, b: Option<T>): Option<T> {
    if a.Some? then a else b
  }

  lemma {:induction false} LastEntryHas(env: seq<EnvVar>, n: string)
    ensures LastEntry(env, n).Some? <==> HasEnvVar(env, n)
    ensures LastEntry(env, n).Some? ==> LastEntry(env, n).value in env && LastEntry(env, n).value.name == n
  {
    if env != [] {
      LastEntryHas(env[..|env| - 1], n);
      if env[|env| - 1].name != n && HasEnvVar(env, n) {
        var i :| 0 <= i < |env| && env[i].name == n;
        assert env[..|env| - 1][i].name == n;
      }
    }
  }

  lemma {:induction false} PullKeysEntries(p: Pull, cm: string, keys: seq<string>, secret: string, x: Entry)
    ensures Get(PullKeys(p, cm, keys, secret).entries, x) == if x.cm == cm && x.key in keys then None
        else Get(p.entries, x)
  {
    if keys != [] {
      assert keys == keys[..|keys| - 1] + [keys[|keys| - 1]];
      PullKeysEntries(p, cm, keys[..|keys| - 1], secret, x);
    }
  }

  lemma {:induction false} PullKeysAt(p: Pull, cm: string, keys: seq<string>, secret: string, n: string)
    ensures
      var q := PullKeys(p, cm, keys, secret);
      var v := if n in keys then Get(p.entries, Entry(cm, n)) else None;
      && Get(q.data, n) == Or(v, Get(p.data, n))
      && LastEntry(q.env, n) == Or(LastEntry(p.env, n), if v.Some? then Some(Ref(n, secret)) else None)
  {
    if keys != [] {
      var init, k := keys[..|keys| - 1], keys[|keys| - 1];
      assert keys == init + [k];
      PullKeysAt(p, cm, init, secret, n);
      PullKeysEntries(p, cm, init, secret, Entry(cm, k));
      var q := PullKeys(p, cm, init, secret);
      LastEntryHas(q.env, k);
      assert (q.env + [Ref(k, secret)])[..|q.env|] == q.env;
    }
  }

  lemma {:induction false} PullRefsAt(p: Pull, refs: seq<EnvFrom>, keys: seq<string>, secret: string, n: string)
    ensures
      var q := PullRefs(p, refs, keys, secret);
      var v := Pulled(refs, keys, p.entries, n);
      && Get(q.data, n) == Or(v, Get(p.data, n))
      && LastEntry(q.env, n) == Or(LastEntry(p.env, n), if v.Some? then Some(Ref(n, secret)) else None)
      && q.entries == Without(p.entries, refs, keys)
  {
    if refs == [] {
      assert Without(p.entries, refs, keys) == p.entries;
    } else {
      var before, r := refs[..|refs| - 1], refs[|refs| - 1];
      assert refs == before + [r];
      PullRefsAt(p, before, keys, secret, n);
      var q := PullRefs(p, before, keys, secret);
      if r.FromConfigMap? {
        PullKeysAt(q, r.cm, keys, secret, n);
        var q' := PullRefs(p, refs, keys, secret);
        forall x ensures Get(q'.entries, x) == Get(Without(p.entries, refs, keys), x) {
          PullKeysEntries(q, r.cm, keys, secret, x);
          assert Reads(refs, x.cm) <==> Reads(before, x.cm) || x.cm == r.cm;
        }
        SameMap(q'.entries, Without(p.entries, refs, keys));
      } else {
        assert forall cm :: Reads(refs, cm) <==> Reads(before, cm);
        assert Without(p.entries, refs, keys) == Without(p.entries, before, keys);
      }
    }
  }

  lemma {:induction false} RewriteEntries(env: seq<EnvVar>, keys: seq<string>, secret: string)
    ensures |RewriteEnv(env, keys, secret)| == |env|
    ensures forall i | 0 <= i < |env| ::
        RewriteEnv(env, keys, secret)[i] == if Moves(env[i], keys) then Ref(env[i].name, secret) else env[i]
  {
    hide Moves;
    if env != [] {
      RewriteEntries(env[..|env| - 1], keys, secret);
    }
  }

  lemma {:induction false} RewriteLast(env: seq<EnvVar>, keys: seq<string>, secret: string, n: string)
    ensures
      var e := LastEntry(env, n);
      LastEntry(RewriteEnv(env, keys, secret), n) ==
        if e.Some? && Moves(e.value, keys) then Some(Ref(n, secret)) else e
  {
    if env != [] {
      var init := env[..|env| - 1];
      RewriteLast(init, keys, secret, n);
      var r := RewriteEnv(env, keys, secret);
      assert r[..|r| - 1] == RewriteEnv(init, keys, secret);
    }
  }

  lemma {:induction false} InlineDataLast(data: Data, env: seq<EnvVar>, keys: seq<string>, n: string)
    ensures
      var e := LastEntry(env, n);
      e.Some? && Moves(e.value, keys) ==> Get(InlineData(data, env, keys), n) == Some(e.value.value)
  {
    if env != [] {
      InlineDataLast(data, env[..|env| - 1], keys, n);
      LastEntryHas(env[..|env| - 1], n);
    }
  }

  lemma {:induction false} InlineDataKeys(data: Data, env: seq<EnvVar>, keys: seq<string>, k: string)
    ensures k in InlineData(data, env, keys) <==> k in data || exists e :: e in env && Moves(e, keys) && e.name == k
  {
    hide Moves;
    if env != [] {
      var init, e := env[..|env| - 1], env[|env| - 1];
      assert env == init + [e];
      InlineDataKeys(data, init, keys, k);
      assert forall x :: x in env <==> x in init || x == e;
    }
  }

  lemma RewriteAt(env: seq<EnvVar>, keys: seq<string>, secret: string, data: Data, n: string)
    ensures |RewriteEnv(env, keys, secret)| == |env|
    ensures forall i | 0 <= i < |env| ::
        RewriteEnv(env, keys, secret)[i] == if Moves(env[i], keys) then Ref(env[i].name, secret) else env[i]
    ensures
      var e := LastEntry(env, n);
      LastEntry(RewriteEnv(env, keys, secret), n) ==
        if e.Some? && Moves(e.value, keys) then Some(Ref(n, secret)) else e
    ensures
      var e := LastEntry(env, n);
      e.Some? && Moves(e.value, keys) ==> Get(InlineData(data, env, keys), n) == Some(e.value.value)
    ensures forall k :: k in data || (exists e :: e in env && Moves(e, keys) && e.name == k) <==>
        k in InlineData(data, env, keys)
  {
    hide Moves;
    hide RewriteEnv;
    hide InlineData;
    hide LastEntry;
    RewriteEntries(env, keys, secret);
    RewriteLast(env, keys, secret, n);
    InlineDataLast(data, env, keys, n);
    forall k ensures k in data || (exists e :: e in env && Moves(e, keys) && e.name == k) <==>
        k in InlineData(data, env, keys) {
      InlineDataKeys(data, env, keys, k);
    }
  }

  /******* One container keeps its meaning, exactly when ... *******/

  ghost predicate Mentions(c: Container, secret: string) {
    || FromSecret(secret) in c.envFrom
    || exists e :: e in c.env && e.valueFrom.Some? && e.valueFrom.value.SecretKey? && e.valueFrom.value.secret == secret
  }

  /**
   A wanted name pulled out of a ConfigMap must have had that very value before:
   either an inline reference decides it, or the inline value or the winning
   `envFrom` source agrees with the entry being pulled.
   */
  ghost predicate PullsTheWinner(c: Container, keys: seq<string>, entries: Entries, secrets: SecretStore) {
    forall n | Pulled(c.envFrom, keys, entries, n).Some? ::
      PullsTheWinnerAt(c, keys, entries, secrets, n)
  }

  ghost predicate PullsTheWinnerAt(c: Container, keys: seq<string>, entries: Entries, secrets: SecretStore, n: string)
    requires Pulled(c.envFrom, keys, entries, n).Some?
  {
    match LastEntry(c.env, n)
    case Some(e) => e.valueFrom.Some? || e.value == Pulled(c.envFrom, keys, entries, n).value
    case None => FromValue(c.envFrom, n, entries, secrets) == Pulled(c.envFrom, keys, entries, n)
  }

  /** `FromValue` only looks at the entries and Secrets its sources name. */
  lemma {:induction false} FromValueLocal(refs: seq<EnvFrom>, n: string, e1: Entries, e2: Entries, s1: SecretStore,
      s2: SecretStore)
    requires forall cm | Reads(refs, cm) :: Get(e1, Entry(cm, n)) == Get(e2, Entry(cm, n))
    requires forall s | FromSecret(s) in refs :: Get(s1, s) == Get(s2, s)
    ensures FromValue(refs, n, e1, s1) == FromValue(refs, n, e2, s2)
  {
    if refs != [] {
      var before, r := refs[..|refs| - 1], refs[|refs| - 1];
      assert refs == before + [r];
      assert r in refs;
      if r.FromConfigMap? {
        assert Reads(refs, r.cm);
      } else {
        assert Get(s1, r.secret) == Get(s2, r.secret);
      }
      FromValueLocal(before, n, e1, e2, s1, s2);
    }
  }

  /** With nothing pulled under a wanted name, no source of the container has it in a ConfigMap. */
  lemma {:induction false} PulledNone(refs: seq<EnvFrom>, keys: seq<string>, entries: Entries, n: string)
    ensures Pulled(refs, keys, entries, n).None? <==>
        (n in keys ==> forall cm | Reads(refs, cm) :: Entry(cm, n) !in entries)
  {
    if refs != [] {
      var before, r := refs[..|refs| - 1], refs[|refs| - 1];
      assert refs == before + [r];
      PulledNone(before, keys, entries, n);
      if r.FromConfigMap? && r in before { assert Reads(before, r.cm); }
      if r.FromConfigMap? { assert Reads(refs, r.cm); }
      if n in keys {
        assert forall cm :: Reads(refs, cm) <==> Reads(before, cm) || r == FromConfigMap(cm);
      }
    }
  }

  ghost function AfterOwn(c: Container, entries: Entries, keys: seq<string>, secret: string): Container {
    Container(PassContainer(c, entries, map[], keys, secret).env, c.envFrom)
  }

  /**
   What the Secrets must hold for a container the pass has rewritten: its own data, and what it
   mentions as before.
   */
  ghost predicate Backed(c: Container, entries: Entries, keys: seq<string>, secret: string, secrets: SecretStore,
      laterSecrets: SecretStore) {
    && (var data := PassContainer(c, entries, map[], keys, secret).data;
        data != map[] ==> Get(laterSecrets, secret) == Some(data))
    && forall s | Mentions(c, s) :: Get(laterSecrets, s) == Get(secrets, s)
  }

  /**
   One name keeps its value: `first` is what the ConfigMaps held before the run, `turn` when the
   container had its turn, and `last` after the run. An inline reference or an inline value that is
   not wanted stays. A wanted inline value must agree with an entry pulled over it. Otherwise what
   the sources gave must be what is pulled, or what they give once every service had its turn.
   */
  ghost predicate KeptAt(c: Container, keys: seq<string>, first: Entries, turn: Entries, last: Entries,
      secrets: SecretStore, n: string) {
    var v := Pulled(c.envFrom, keys, turn, n);
    match LastEntry(c.env, n)
    case Some(e) => e.valueFrom.None? && v.Some? ==> e.value == v.value
    case None => FromValue(c.envFrom, n, first, secrets) == if v.Some? then v
      else FromValue(c.envFrom, n, last, secrets)
  }

  /** The entry and the Secret value a name ends up with, after the container has been rewritten. */
  lemma OwnEntry(c: Container, entries: Entries, keys: seq<string>, secret: string, n: string)
    ensures
      var e, v := LastEntry(c.env, n), Pulled(c.envFrom, keys, entries, n);
      var p := PassContainer(c, entries, map[], keys, secret);
      && (e.Some? && !Moves(e.value, keys) ==> LastEntry(p.env, n) == e)
      && (e.None? && v.None? ==> LastEntry(p.env, n) == None)
      && ((e.Some? && Moves(e.value, keys)) || (e.None? && v.Some?) ==>
            && LastEntry(p.env, n) == Some(Ref(n, secret))
            && Get(p.data, n) == Some(if v.Some? then v.value else e.value.value))
  {
    RewriteAt(c.env, keys, secret, map[], n);
    PullRefsAt(Pull(RewriteEnv(c.env, keys, secret), entries, InlineData(map[], c.env, keys)), c.envFrom, keys,
      secret, n);
    LastEntryHas(c.env, n);
  }

  /** The exact condition, name by name. */
  lemma OwnMeaningAt(c: Container, keys: seq<string>, secret: string, first: Entries, turn: Entries, last: Entries,
                     secrets: SecretStore, laterSecrets: SecretStore, n: string)
    requires Backed(c, turn, keys, secret, secrets, laterSecrets)
    ensures Effective(AfterOwn(c, turn, keys, secret), last, laterSecrets, n) == Effective(c, first, secrets, n)
        <==> KeptAt(c, keys, first, turn, last, secrets, n)
  {
    OwnEntry(c, turn, keys, secret, n);
    LastEntryHas(c.env, n);
    PulledNone(c.envFrom, keys, turn, n);
    var e, v := LastEntry(c.env, n), Pulled(c.envFrom, keys, turn, n);
    var p := PassContainer(c, turn, map[], keys, secret);
    if e.Some? && !Moves(e.value, keys) {
      if e.value.valueFrom.Some? && e.value.valueFrom.value.SecretKey? {
        var s := e.value.valueFrom.value.secret;
        assert Mentions(c, s);
        assert Get(laterSecrets, s) == Get(secrets, s);
      }
    } else if e.Some? || v.Some? {
      assert n in p.data;
      assert Get(laterSecrets, secret) == Some(p.data);
      assert Resolve(Ref(n, secret), laterSecrets) == Text(if v.Some? then v.value else e.value.value);
    } else {
      MentionedAlike(c, last, secrets, laterSecrets, n);
    }
  }

  /** What the sources give depends only on Secrets the container mentions. */
  lemma MentionedAlike(c: Container, entries: Entries, secrets: SecretStore, laterSecrets: SecretStore, n: string)
    requires forall s | Mentions(c, s) :: Get(laterSecrets, s) == Get(secrets, s)
    ensures FromValue(c.envFrom, n, entries, laterSecrets) == FromValue(c.envFrom, n, entries, secrets)
  {
    forall s | FromSecret(s) in c.envFrom ensures Get(laterSecrets, s) == Get(secrets, s) {
      assert Mentions(c, s);
    }
    FromValueLocal(c.envFrom, n, entries, entries, laterSecrets, secrets);
  }

  /******* The shape the pass keeps *******/

  ghost predicate ServiceReads(ws: seq<Workload>, svc: string, cm: string) {
    exists i, j :: 0 <= i < |ws| && 0 <= j < |ws[i].containers| && ws[i].name == svc
      && Reads(ws[i].containers[j].envFrom, cm)
  }

  ghost predicate SomeReads(cs: seq<Container>, cm: string) {
    exists j :: 0 <= j < |cs| && Reads(cs[j].envFrom, cm)
  }

  /** Same workloads, same containers, same sources: only inline entries may differ. */
  ghost predicate SameShape(ws: seq<Workload>, vs: seq<Workload>) {
    && |ws| == |vs|
    && forall i | 0 <= i < |ws| ::
      && ws[i].name == vs[i].name
      && |ws[i].containers| == |vs[i].containers|
      && forall j | 0 <= j < |ws[i].containers| :: ws[i].containers[j].envFrom == vs[i].containers[j].envFrom
  }

  lemma ShapeReads(ws: seq<Workload>, vs: seq<Workload>, svc: string, cm: string)
    requires SameShape(ws, vs)
    ensures ServiceReads(ws, svc, cm) <==> ServiceReads(vs, svc, cm)
  {
  }

  /**
   One rewritten container: positions and names kept, wanted values gone, every new reference backed by data,
   and each appended name one that was not there before.
   */
  ghost predicate Rewritten(c: Container, c': Container, keys: seq<string>, secret: string, data: Data) {
    && c'.envFrom == c.envFrom
    && |c.env| <= |c'.env|
    && (forall i | 0 <= i < |c.env| ::
        c'.env[i] == if c.env[i].name in keys && c.env[i].valueFrom.None? then Ref(c.env[i].name, secret) else c.env[i])
    && (forall i | |c.env| <= i < |c'.env| :: c'.env[i].name in keys && c'.env[i] == Ref(c'.env[i].name, secret))
    && (forall i | 0 <= i < |c'.env| && (i < |c.env| ==> c.env[i].name in keys && c.env[i].valueFrom.None?) ::
          c'.env[i].name in data)
    && AppendedOnce(c'.env, |c.env|)
  }

  /** From some place on, every name is different from all before it. */
  ghost predicate AppendedOnce(env: seq<EnvVar>, from: nat) {
    forall i, j | 0 <= j < i < |env| && from <= i :: env[j].name != env[i].name
  }

  lemma {:induction false} PullKeysGrow(p: Pull, cm: string, keys: seq<string>, secret: string)
    ensures
      var q := PullKeys(p, cm, keys, secret);
      && p.data.Keys <= q.data.Keys && p.env <= q.env && AppendedOnce(q.env, |p.env|)
      && forall i | |p.env| <= i < |q.env| ::
        q.env[i].name in keys && q.env[i] == Ref(q.env[i].name, secret) && q.env[i].name in q.data
  {
    if keys != [] {
      assert keys == keys[..|keys| - 1] + [keys[|keys| - 1]];
      PullKeysGrow(p, cm, keys[..|keys| - 1], secret);
    }
  }

  lemma {:induction false} PullRefsGrow(p: Pull, refs: seq<EnvFrom>, keys: seq<string>, secret: string)
    ensures
      var q := PullRefs(p, refs, keys, secret);
      && p.data.Keys <= q.data.Keys && p.env <= q.env && AppendedOnce(q.env, |p.env|)
      && forall i | |p.env| <= i < |q.env| ::
        q.env[i].name in keys && q.env[i] == Ref(q.env[i].name, secret) && q.env[i].name in q.data
  {
    if refs != [] {
      var q := PullRefs(p, refs[..|refs| - 1], keys, secret);
      PullRefsGrow(p, refs[..|refs| - 1], keys, secret);
      match refs[|refs| - 1] {
        case FromSecret(_) =>
        case FromConfigMap(cm) => PullKeysGrow(q, cm, keys, secret);
      }
    }
  }

  lemma ContainerRewritten(c: Container, entries: Entries, data: Data, keys: seq<string>, secret: string)
    ensures
      var p := PassContainer(c, entries, data, keys, secret);
      && Rewritten(c, Container(p.env, c.envFrom), keys, secret, p.data)
      && data.Keys <= p.data.Keys
      && p.entries == Without(entries, c.envFrom, keys)
  {
    var p0 := Pull(RewriteEnv(c.env, keys, secret), entries, InlineData(data, c.env, keys));
    RewriteAt(c.env, keys, secret, data, "");
    PullRefsGrow(p0, c.envFrom, keys, secret);
    PullRefsAt(p0, c.envFrom, keys, secret, "");
    forall i | 0 <= i < |c.env| && Moves(c.env[i], keys) ensures c.env[i].name in p0.data {
      assert c.env[i] in c.env;
    }
  }

  lemma SomeReadsSnoc(cs: seq<Container>, cm: string)
    requires cs != []
    ensures SomeReads(cs, cm) <==> SomeReads(cs[..|cs| - 1], cm) || Reads(cs[|cs| - 1].envFrom, cm)
  {
  }

  lemma {:induction false} ContainersEntries(cs: seq<Container>, entries: Entries, data: Data, keys: seq<string>,
      secret: string, x: Entry)
    ensures
      Get(PassContainers(cs, entries, data, keys, secret).entries, x) ==
        if SomeReads(cs, x.cm) && x.key in keys then None else Get(entries, x)
  {
    if cs != [] {
      var init, c := cs[..|cs| - 1], cs[|cs| - 1];
      ContainersEntries(init, entries, data, keys, secret, x);
      var b := PassContainers(init, entries, data, keys, secret);
      ContainerRewritten(c, b.entries, b.data, keys, secret);
      SomeReadsSnoc(cs, x.cm);
    }
  }

  lemma RewrittenGrows(c: Container, c': Container, keys: seq<string>, secret: string, data: Data, more: Data)
    requires Rewritten(c, c', keys, secret, data) && data.Keys <= more.Keys
    ensures Rewritten(c, c', keys, secret, more)
  {
  }

  lemma {:induction false} ContainersRewritten(cs: seq<Container>, entries: Entries, data: Data, keys: seq<string>,
      secret: string)
    ensures
      var b := PassContainers(cs, entries, data, keys, secret);
      && |b.containers| == |cs|
      && data.Keys <= b.data.Keys
      && (forall j | 0 <= j < |cs| :: Rewritten(cs[j], b.containers[j], keys, secret, b.data))
  {
    if cs != [] {
      var init, c := cs[..|cs| - 1], cs[|cs| - 1];
      ContainersRewritten(init, entries, data, keys, secret);
      var b := PassContainers(init, entries, data, keys, secret);
      ContainerRewritten(c, b.entries, b.data, keys, secret);
      var b' := PassContainers(cs, entries, data, keys, secret);
      forall j | 0 <= j < |cs| ensures Rewritten(cs[j], b'.containers[j], keys, secret, b'.data) {
        if j < |init| {
          RewrittenGrows(init[j], b.containers[j], keys, secret, b.data, b'.data);
        }
      }
    }
  }

  ghost predicate AllRewritten(w: Workload, w': Workload, keys: seq<string>, secret: string, data: Data) {
    && w'.name == w.name
    && |w'.containers| == |w.containers|
    && forall j | 0 <= j < |w.containers| :: Rewritten(w.containers[j], w'.containers[j], keys, secret, data)
  }

  /** The service reads the entry's ConfigMap and wants its key. */
  ghost predicate Claims(ws: seq<Workload>, svc: string, keys: seq<string>, x: Entry) {
    ServiceReads(ws, svc, x.cm) && x.key in keys
  }

  lemma ServiceReadsSnoc(ws: seq<Workload>, svc: string, cm: string)
    requires ws != []
    ensures ServiceReads(ws, svc, cm) <==>
            ServiceReads(ws[..|ws| - 1], svc, cm)
              || (ws[|ws| - 1].name == svc && SomeReads(ws[|ws| - 1].containers, cm))
  {
  }

  lemma {:induction false} SweepEntries(ws: seq<Workload>, svc: string, entries: Entries, keys: seq<string>, x: Entry)
    ensures Get(PassWorkloads(ws, svc, entries, keys).entries, x) ==
            if Claims(ws, svc, keys, x) then None else Get(entries, x)
  {
    if ws != [] {
      var init, w := ws[..|ws| - 1], ws[|ws| - 1];
      SweepEntries(init, svc, entries, keys, x);
      var s := PassWorkloads(init, svc, entries, keys);
      ContainersEntries(w.containers, s.entries, s.data, keys, SecretName(svc), x);
      ServiceReadsSnoc(ws, svc, x.cm);
    }
  }

  lemma {:induction false} SweepRewrites(ws: seq<Workload>, svc: string, entries: Entries, keys: seq<string>)
    ensures
      var s := PassWorkloads(ws, svc, entries, keys);
      && |s.workloads| == |ws|
      && (forall i | 0 <= i < |ws| && ws[i].name != svc :: s.workloads[i] == ws[i])
      && (forall i | 0 <= i < |ws| && ws[i].name == svc ::
            AllRewritten(ws[i], s.workloads[i], keys, SecretName(svc), s.data))
  {
    hide Rewritten;
    hide PassContainers;
    hide SecretName;
    if ws != [] {
      var init, w := ws[..|ws| - 1], ws[|ws| - 1];
      SweepRewrites(init, svc, entries, keys);
      var s, s' := PassWorkloads(init, svc, entries, keys), PassWorkloads(ws, svc, entries, keys);
      ContainersRewritten(w.containers, s.entries, s.data, keys, SecretName(svc));
      forall i | 0 <= i < |init| && ws[i].name == svc
        ensures AllRewritten(ws[i], s'.workloads[i], keys, SecretName(svc), s'.data)
      {
        assert AllRewritten(init[i], s.workloads[i], keys, SecretName(svc), s.data);
        forall j | 0 <= j < |ws[i].containers|
          ensures Rewritten(ws[i].containers[j], s'.workloads[i].containers[j], keys, SecretName(svc), s'.data)
        {
          RewrittenGrows(ws[i].containers[j], s.workloads[i].containers[j], keys, SecretName(svc), s.data, s'.data);
        }
      }
    }
  }

  /******* Whole runs *******/

  ghost predicate Runs(order: seq<string>, services: map<string, seq<string>>) {
    Distinct(order) && forall s | s in order :: s in services
  }

  lemma SecretNameInjective(a: string, b: string)
    requires SecretName(a) == SecretName(b)
    ensures a == b
  {
    SuffixInjective(a, b, "-secret");
  }

  /** The data of the Secret a service was given, empty when it was given none. */
  ghost function DataOf(st: State, svc: string): Data {
    if SecretName(svc) in st.created then st.created[SecretName(svc)] else map[]
  }

  ghost predicate Claimed(ws: seq<Workload>, order: seq<string>, services: map<string, seq<string>>, x: Entry)
    requires forall s | s in order :: s in services
  {
    exists s :: s in order && Claims(ws, s, services[s], x)
  }

  /** Every container keeps its sources, and a service that has had no turn keeps its workloads. */
  lemma {:induction false} RunShape(st0: State, order: seq<string>, services: map<string, seq<string>>)
    requires Runs(order, services)
    ensures
      var st := PassAll(st0, order, services);
      && SameShape(st0.workloads, st.workloads)
      && forall i | 0 <= i < |st.workloads| && st.workloads[i].name !in order :: st.workloads[i] == st0.workloads[i]
  {
    if order != [] {
      var init, z := order[..|order| - 1], order[|order| - 1];
      RunShape(st0, init, services);
      var st := PassAll(st0, init, services);
      SweepRewrites(st.workloads, z, st.entries, services[z]);
      assert z in order;
      assert forall s | s in init :: s in order;
    }
  }

  /** A run removes exactly the entries some service of the run claims. */
  lemma {:induction false} RunEntries(st0: State, order: seq<string>, services: map<string, seq<string>>, x: Entry)
    requires Runs(order, services)
    ensures Get(PassAll(st0, order, services).entries, x) ==
            if Claimed(st0.workloads, order, services, x) then None else Get(st0.entries, x)
  {
    if order != [] {
      var init, z := order[..|order| - 1], order[|order| - 1];
      assert order == init + [z];
      RunEntries(st0, init, services, x);
      RunShape(st0, init, services);
      var st := PassAll(st0, init, services);
      SweepEntries(st.workloads, z, st.entries, services[z], x);
      ShapeReads(st0.workloads, st.workloads, z, x.cm);
      if Claimed(st0.workloads, init, services, x) {
        var s :| s in init && Claims(st0.workloads, s, services[s], x);
        assert s in order && Claims(st0.workloads, s, services[s], x);
      }
      if Claims(st0.workloads, z, services[z], x) {
        assert z in order && Claims(st0.workloads, z, services[z], x);
      }
    }
  }

  /** A Secret name belongs to one service only, and only its own turn creates it. */
  lemma {:induction false} RunCreated(st0: State, order: seq<string>, services: map<string, seq<string>>, svc: string)
    requires Runs(order, services) && svc !in order
    ensures Get(PassAll(st0, order, services).created, SecretName(svc)) == Get(st0.created, SecretName(svc))
  {
    if order != [] {
      var init, z := order[..|order| - 1], order[|order| - 1];
      assert order == init + [z];
      RunCreated(st0, init, services, svc);
      if SecretName(z) == SecretName(svc) { SecretNameInjective(z, svc); }
    }
  }

  /** Only the Secret of a service in the run can appear. */
  lemma {:induction false} RunCreatedOnly(st0: State, order: seq<string>, services: map<string, seq<string>>,
      name: string)
    requires Runs(order, services) && forall s | s in order :: name != SecretName(s)
    ensures Get(PassAll(st0, order, services).created, name) == Get(st0.created, name)
  {
    if order != [] {
      var init, z := order[..|order| - 1], order[|order| - 1];
      assert order == init + [z];
      RunCreatedOnly(st0, init, services, name);
      assert z in order;
    }
  }

  /** What a service's own turn rewrites stays as it rewrote it. */
  lemma {:induction false} RunRewrites(st0: State, order: seq<string>, services: map<string, seq<string>>, svc: string)
    requires Runs(order, services) && svc in order && st0.created == map[]
    ensures
      var st := PassAll(st0, order, services);
      && |st.workloads| == |st0.workloads|
      && forall i | 0 <= i < |st.workloads| && st0.workloads[i].name == svc ::
        AllRewritten(st0.workloads[i], st.workloads[i], services[svc], SecretName(svc), DataOf(st, svc))
  {
    hide PassWorkloads;
    hide AllRewritten;
    hide SecretName;
    var init, z := order[..|order| - 1], order[|order| - 1];
    assert order == init + [z];
    var mid, st := PassAll(st0, init, services), PassAll(st0, order, services);
    RunShape(st0, init, services);
    SweepRewrites(mid.workloads, z, mid.entries, services[z]);
    if svc == z {
      RunCreated(st0, init, services, svc);
      assert DataOf(st, svc) == PassWorkloads(mid.workloads, z, mid.entries, services[z]).data;
    } else {
      RunRewrites(st0, init, services, svc);
      if SecretName(z) == SecretName(svc) { SecretNameInjective(z, svc); }
    }
  }

  /**
   For any services, containers and order: positions and names of the original
   entries are kept, no wanted name stays inline or in a ConfigMap the container
   pulls, and every reference the pass introduces names a key of the Secret it creates.
   */
  lemma NothingWantedIsLeft(st0: State, order: seq<string>, services: map<string, seq<string>>, svc: string)
    requires Runs(order, services) && svc in order && st0.created == map[]
    ensures
      var st := PassAll(st0, order, services);
      && |st.workloads| == |st0.workloads|
      && forall i | 0 <= i < |st.workloads| && st0.workloads[i].name == svc ::
        && AllRewritten(st0.workloads[i], st.workloads[i], services[svc], svc + "-secret", DataOf(st, svc))
        && forall j, cm, n | 0 <= j < |st0.workloads[i].containers|
            && Reads(st0.workloads[i].containers[j].envFrom, cm) && n in services[svc] ::
          Entry(cm, n) !in st.entries
  {
    hide PassAll;
    hide AllRewritten;
    var st := PassAll(st0, order, services);
    RunRewrites(st0, order, services, svc);
    forall i, j, cm, n | 0 <= i < |st.workloads| && st0.workloads[i].name == svc
        && 0 <= j < |st0.workloads[i].containers|
        && Reads(st0.workloads[i].containers[j].envFrom, cm) && n in services[svc]
      ensures Entry(cm, n) !in st.entries
    {
      RunEntries(st0, order, services, Entry(cm, n));
      assert ServiceReads(st0.workloads, svc, cm);
      assert Claims(st0.workloads, svc, services[svc], Entry(cm, n));
      assert Get(st.entries, Entry(cm, n)) == None;
    }
  }

  /******* A service's turn depends only on what it claims *******/

  ghost predicate Agree(a: Entries, b: Entries, cms: set<string>, keys: seq<string>) {
    forall x: Entry | x.cm in cms && x.key in keys :: Get(a, x) == Get(b, x)
  }

  lemma {:induction false} PullKeysLocal(p: Pull, q: Pull, cms: set<string>, cm: string, keys: seq<string>,
      all: seq<string>, secret: string)
    requires p.env == q.env && p.data == q.data && Agree(p.entries, q.entries, cms, all) && cm in cms
    requires forall k | k in keys :: k in all
    ensures
      var p', q' := PullKeys(p, cm, keys, secret), PullKeys(q, cm, keys, secret);
      p'.env == q'.env && p'.data == q'.data && Agree(p'.entries, q'.entries, cms, all)
  {
    if keys != [] {
      var init, k := keys[..|keys| - 1], keys[|keys| - 1];
      assert keys == init + [k] && k in keys;
      PullKeysLocal(p, q, cms, cm, init, all, secret);
      var p', q' := PullKeys(p, cm, init, secret), PullKeys(q, cm, init, secret);
      assert Get(p'.entries, Entry(cm, k)) == Get(q'.entries, Entry(cm, k));
    }
  }

  lemma {:induction false} PullRefsLocal(p: Pull, q: Pull, cms: set<string>, refs: seq<EnvFrom>, keys: seq<string>,
      secret: string)
    requires p.env == q.env && p.data == q.data && Agree(p.entries, q.entries, cms, keys)
    requires forall cm | Reads(refs, cm) :: cm in cms
    ensures
      var p', q' := PullRefs(p, refs, keys, secret), PullRefs(q, refs, keys, secret);
      p'.env == q'.env && p'.data == q'.data && Agree(p'.entries, q'.entries, cms, keys)
  {
    if refs != [] {
      var init, r := refs[..|refs| - 1], refs[|refs| - 1];
      assert refs == init + [r];
      assert forall cm | Reads(init, cm) :: Reads(refs, cm);
      PullRefsLocal(p, q, cms, init, keys, secret);
      if r.FromConfigMap? {
        assert Reads(refs, r.cm);
        PullKeysLocal(PullRefs(p, init, keys, secret), PullRefs(q, init, keys, secret), cms, r.cm, keys, keys, secret);
      }
    }
  }

  lemma {:induction false} ContainersLocal(cs: seq<Container>, a: Entries, b: Entries, data: Data, cms: set<string>,
      keys: seq<string>, secret: string)
    requires Agree(a, b, cms, keys)
    requires forall cm | SomeReads(cs, cm) :: cm in cms
    ensures
      var p, q := PassContainers(cs, a, data, keys, secret), PassContainers(cs, b, data, keys, secret);
      p.containers == q.containers && p.data == q.data && Agree(p.entries, q.entries, cms, keys)
  {
    if cs != [] {
      var init, c := cs[..|cs| - 1], cs[|cs| - 1];
      forall cm ensures SomeReads(init, cm) || Reads(c.envFrom, cm) ==> cm in cms {
        SomeReadsSnoc(cs, cm);
      }
      ContainersLocal(init, a, b, data, cms, keys, secret);
      var p, q := PassContainers(init, a, data, keys, secret), PassContainers(init, b, data, keys, secret);
      var env, d := RewriteEnv(c.env, keys, secret), InlineData(p.data, c.env, keys);
      PullRefsLocal(Pull(env, p.entries, d), Pull(env, q.entries, d), cms, c.envFrom, keys, secret);
    }
  }

  /** The two lists hold the same workloads under the service's name, at the same places. */
  ghost predicate SameFor(ws: seq<Workload>, vs: seq<Workload>, svc: string) {
    && |ws| == |vs|
    && forall i | 0 <= i < |ws| :: ws[i].name == vs[i].name && (ws[i].name == svc ==> ws[i] == vs[i])
  }

  lemma {:induction false} SweepLocal(ws: seq<Workload>, vs: seq<Workload>, svc: string, a: Entries, b: Entries,
      cms: set<string>, keys: seq<string>)
    requires SameFor(ws, vs, svc) && Agree(a, b, cms, keys)
    requires forall cm | ServiceReads(ws, svc, cm) :: cm in cms
    ensures
      var p, q := PassWorkloads(ws, svc, a, keys), PassWorkloads(vs, svc, b, keys);
      SameFor(p.workloads, q.workloads, svc) && p.data == q.data && Agree(p.entries, q.entries, cms, keys)
  {
    if ws != [] {
      var init, w := ws[..|ws| - 1], ws[|ws| - 1];
      var init', w' := vs[..|vs| - 1], vs[|vs| - 1];
      forall cm ensures ServiceReads(init, svc, cm) || (w.name == svc && SomeReads(w.containers, cm)) ==> cm in cms {
        ServiceReadsSnoc(ws, svc, cm);
      }
      SweepLocal(init, init', svc, a, b, cms, keys);
      var p, q := PassWorkloads(init, svc, a, keys), PassWorkloads(init', svc, b, keys);
      if w.name == svc {
        ContainersLocal(w.containers, p.entries, q.entries, p.data, cms, keys, SecretName(svc));
      }
    }
  }

  ghost predicate Contended(ws: seq<Workload>, s: string, t: string, services: map<string, seq<string>>, x: Entry)
    requires s in services && t in services
  {
    s != t && Claims(ws, s, services[s], x) && Claims(ws, t, services[t], x)
  }

  /** No other service of the run claims an entry that `svc` claims. */
  ghost predicate NoRival(st0: State, order: seq<string>, services: map<string, seq<string>>, svc: string)
    requires forall s | s in order :: s in services
    requires svc in services
  {
    forall x, s | x in st0.entries && s in order :: !Contended(st0.workloads, s, svc, services, x)
  }

  /** The services whose turn comes before a service's own; all of them if it has none. */
  ghost function Before(order: seq<string>, svc: string): seq<string> {
    if order == [] then []
    else if order[|order| - 1] == svc then order[..|order| - 1]
    else if svc in order then Before(order[..|order| - 1], svc)
    else order
  }

  lemma {:induction false} BeforeRuns(order: seq<string>, services: map<string, seq<string>>, svc: string)
    requires Runs(order, services)
    ensures Runs(Before(order, svc), services) && forall s | s in Before(order, svc) :: s in order
    ensures svc !in Before(order, svc)
  {
    if order != [] && order[|order| - 1] != svc && svc in order {
      BeforeRuns(order[..|order| - 1], services, svc);
    }
  }

  /** The ConfigMap entries that services leave, whatever the order of their turns. */
  ghost function Left(st0: State, order: seq<string>, services: map<string, seq<string>>): Entries
    requires forall s | s in order :: s in services
  {
    map x | x in st0.entries && !Claimed(st0.workloads, order, services, x) :: st0.entries[x]
  }

  /** The ConfigMap entries a service finds when its turn comes. */
  ghost function AtTurn(st0: State, order: seq<string>, services: map<string, seq<string>>, svc: string): Entries
    requires Runs(order, services)
  {
    BeforeRuns(order, services, svc);
    Left(st0, Before(order, svc), services)
  }

  lemma RunLeaves(st0: State, order: seq<string>, services: map<string, seq<string>>)
    requires Runs(order, services)
    ensures PassAll(st0, order, services).entries == Left(st0, order, services)
  {
    forall x ensures Get(PassAll(st0, order, services).entries, x) == Get(Left(st0, order, services), x) {
      RunEntries(st0, order, services, x);
    }
    SameMap(PassAll(st0, order, services).entries, Left(st0, order, services));
  }

  /** A service's turn, on the workloads of the start and the entries that earlier turns left. */
  ghost function TurnOf(st0: State, order: seq<string>, services: map<string, seq<string>>, svc: string): Sweep
    requires Runs(order, services) && svc in services
  {
    PassWorkloads(st0.workloads, svc, AtTurn(st0, order, services, svc), services[svc])
  }

  lemma AtTurnIs(st0: State, order: seq<string>, services: map<string, seq<string>>, svc: string)
    requires Runs(order, services) && svc in order
    ensures
      var init := order[..|order| - 1];
      && Runs(init, services)
      && AtTurn(st0, order, services, svc)
         == if order[|order| - 1] == svc then PassAll(st0, init, services).entries else AtTurn(st0, init, services, svc)
  {
    RunLeaves(st0, order[..|order| - 1], services);
  }

  /** What a run makes of a service is what its own turn makes of it. */
  lemma {:induction false} TurnComesOut(st0: State, order: seq<string>, services: map<string, seq<string>>, svc: string)
    requires Runs(order, services) && svc in order && st0.created == map[]
    ensures
      var turn, st := TurnOf(st0, order, services, svc), PassAll(st0, order, services);
      && SameFor(turn.workloads, st.workloads, svc)
      && Get(st.created, SecretName(svc)) == if turn.data == map[] then None else Some(turn.data)
  {
    hide PassWorkloads;
    hide SecretName;
    hide Left;
    hide Claims;
    hide AtTurn;
    var init, z := order[..|order| - 1], order[|order| - 1];
    assert order == init + [z];
    var mid := PassAll(st0, init, services);
    AtTurnIs(st0, order, services, svc);
    RunShape(st0, init, services);
    SweepRewrites(mid.workloads, z, mid.entries, services[z]);
    assert forall s | s in init :: s in order;
    if svc == z {
      RunCreated(st0, init, services, svc);
      SweepAgain(st0.workloads, mid.entries, mid.workloads, mid.entries, svc, services[svc]);
    } else {
      TurnComesOut(st0, init, services, svc);
      SweepRewrites(st0.workloads, svc, AtTurn(st0, init, services, svc), services[svc]);
      if SecretName(z) == SecretName(svc) { SecretNameInjective(z, svc); }
    }
  }

  /** Before its turn, everything a service without rivals claims is still there. */
  lemma TurnEntries(st0: State, order: seq<string>, services: map<string, seq<string>>, svc: string)
    requires Runs(order, services) && svc in services && NoRival(st0, order, services, svc)
    ensures forall x | Claims(st0.workloads, svc, services[svc], x) ::
        Get(AtTurn(st0, order, services, svc), x) == Get(st0.entries, x)
  {
    BeforeRuns(order, services, svc);
    var before := Before(order, svc);
    forall x | Claims(st0.workloads, svc, services[svc], x)
      ensures Get(AtTurn(st0, order, services, svc), x) == Get(st0.entries, x)
    {
      if x in st0.entries && Claimed(st0.workloads, before, services, x) {
        var s :| s in before && Claims(st0.workloads, s, services[s], x);
        assert Contended(st0.workloads, s, svc, services, x);
      }
    }
  }

  /** With no rival, a service's workloads and Secret come out as if it were alone. */
  lemma TurnAlone(st0: State, order: seq<string>, services: map<string, seq<string>>, svc: string)
    requires Runs(order, services) && svc in order && st0.created == map[]
    requires NoRival(st0, order, services, svc)
    ensures
      var alone, st := PassWorkloads(st0.workloads, svc, st0.entries, services[svc]), PassAll(st0, order, services);
      && SameFor(alone.workloads, st.workloads, svc)
      && Get(st.created, SecretName(svc)) == if alone.data == map[] then None else Some(alone.data)
  {
    hide PassAll;
    hide PassWorkloads;
    hide AtTurn;
    TurnComesOut(st0, order, services, svc);
    TurnEntries(st0, order, services, svc);
    SweepAgain(st0.workloads, st0.entries, st0.workloads, AtTurn(st0, order, services, svc), svc, services[svc]);
  }

  /** A turn depends only on the service's own workloads and the entries it claims. */
  lemma SweepAgain(ws: seq<Workload>, a: Entries, vs: seq<Workload>, b: Entries, svc: string, keys: seq<string>)
    requires SameFor(ws, vs, svc)
    requires forall x | Claims(ws, svc, keys, x) :: Get(a, x) == Get(b, x)
    ensures
      var p, q := PassWorkloads(ws, svc, a, keys), PassWorkloads(vs, svc, b, keys);
      SameFor(p.workloads, q.workloads, svc) && p.data == q.data
  {
    hide PassWorkloads;
    ReadSetMembers(ws, svc);
    var cms := ReadSet(ws, svc);
    forall x: Entry | x.cm in cms && x.key in keys ensures Get(a, x) == Get(b, x) {
      assert Claims(ws, svc, keys, x);
    }
    SweepLocal(ws, vs, svc, a, b, cms, keys);
  }

  ghost function ReadSet(ws: seq<Workload>, svc: string): set<string> {
    set i, j, k | 0 <= i < |ws| && 0 <= j < |ws[i].containers| && 0 <= k < |ws[i].containers[j].envFrom| &&
                  ws[i].name == svc && ws[i].containers[j].envFrom[k].FromConfigMap? ::
                    ws[i].containers[j].envFrom[k].cm
  }

  lemma ReadSetMembers(ws: seq<Workload>, svc: string)
    ensures forall cm :: cm in ReadSet(ws, svc) <==> ServiceReads(ws, svc, cm)
  {
  }

  /** Two orders give a service the same workloads and the same Secret. */
  ghost predicate SameTurn(st0: State, a: seq<string>, b: seq<string>, services: map<string, seq<string>>, svc: string)
    requires Runs(a, services) && Runs(b, services) && svc in services
  {
    var p, q := TurnOf(st0, a, services, svc), TurnOf(st0, b, services, svc);
    SameFor(p.workloads, q.workloads, svc) && p.data == q.data
  }

  lemma SameTurnIff(st0: State, a: seq<string>, b: seq<string>, services: map<string, seq<string>>, svc: string)
    requires Runs(a, services) && Runs(b, services) && svc in a && svc in b && st0.created == map[]
    ensures
      var p, q := PassAll(st0, a, services), PassAll(st0, b, services);
      SameTurn(st0, a, b, services, svc) <==>
        SameFor(p.workloads, q.workloads, svc) && Get(p.created, SecretName(svc)) == Get(q.created, SecretName(svc))
  {
    hide PassAll;
    hide TurnOf;
    TurnComesOut(st0, a, services, svc);
    TurnComesOut(st0, b, services, svc);
  }

  /**
   Two orders of the same services give the same objects and Secrets if and only if every service's own
   turn, on what the services before it left, comes out the same.
   */
  lemma OrderIff(st0: State, a: seq<string>, b: seq<string>, services: map<string, seq<string>>)
    requires Runs(a, services) && Runs(b, services) && st0.created == map[]
    requires forall s :: s in a <==> s in b
    ensures PassAll(st0, a, services) == PassAll(st0, b, services) <==>
            forall s | s in a :: SameTurn(st0, a, b, services, s)
  {
    hide PassAll;
    hide SameTurn;
    var p, q := PassAll(st0, a, services), PassAll(st0, b, services);
    RunShape(st0, a, services);
    RunShape(st0, b, services);
    RunLeaves(st0, a, services);
    RunLeaves(st0, b, services);
    forall s | s in a
      ensures SameTurn(st0, a, b, services, s) <==>
        SameFor(p.workloads, q.workloads, s) && Get(p.created, SecretName(s)) == Get(q.created, SecretName(s))
    {
      SameTurnIff(st0, a, b, services, s);
    }
    if forall s | s in a :: SameTurn(st0, a, b, services, s) {
      forall i | 0 <= i < |p.workloads| ensures p.workloads[i] == q.workloads[i] {
        var s := st0.workloads[i].name;
        assert s in a ==> SameTurn(st0, a, b, services, s);
      }
      forall x ensures Get(p.entries, x) == Get(q.entries, x) {
        assert Claimed(st0.workloads, a, services, x) <==> Claimed(st0.workloads, b, services, x);
      }
      SameMap(p.entries, q.entries);
      forall name ensures Get(p.created, name) == Get(q.created, name) {
        if s :| s in a && name == SecretName(s) {
          assert SameTurn(st0, a, b, services, s);
        } else {
          RunCreatedOnly(st0, a, services, name);
          RunCreatedOnly(st0, b, services, name);
        }
      }
      SameMap(p.created, q.created);
    }
  }

  /**
   The pass is confluent: when no two services claim the same entry, the rewritten
   objects and the created Secrets do not depend on the order of the services map.
   */
  lemma Confluence(st0: State, a: seq<string>, b: seq<string>, services: map<string, seq<string>>)
    requires Runs(a, services) && Runs(b, services) && st0.created == map[]
    requires forall s :: s in a <==> s in b
    requires forall s | s in a :: NoRival(st0, a, services, s)
    ensures PassAll(st0, a, services) == PassAll(st0, b, services)
  {
    hide PassAll;
    hide AtTurn;
    hide PassWorkloads;
    OrderIff(st0, a, b, services);
    forall s | s in a ensures SameTurn(st0, a, b, services, s) {
      assert NoRival(st0, b, services, s);
      TurnEntries(st0, a, services, s);
      TurnEntries(st0, b, services, s);
      SweepAgain(st0.workloads, AtTurn(st0, a, services, s), st0.workloads, AtTurn(st0, b, services, s), s,
        services[s]);
    }
  }

  /******* Who gets a key *******/

  /** The container has the name as a wanted inline entry, or reads a ConfigMap that has it. */
  ghost predicate Wants(c: Container, entries: Entries, keys: seq<string>, n: string) {
    || (exists e :: e in c.env && Moves(e, keys) && e.name == n)
    || (n in keys && exists cm :: Reads(c.envFrom, cm) && Entry(cm, n) in entries)
  }

  ghost predicate SomeWants(cs: seq<Container>, entries: Entries, keys: seq<string>, n: string) {
    exists j :: 0 <= j < |cs| && Wants(cs[j], entries, keys, n)
  }

  ghost predicate ServiceWants(ws: seq<Workload>, svc: string, entries: Entries, keys: seq<string>, n: string) {
    exists i :: 0 <= i < |ws| && ws[i].name == svc && SomeWants(ws[i].containers, entries, keys, n)
  }

  lemma ContainerGets(c: Container, entries: Entries, data: Data, keys: seq<string>, secret: string, n: string)
    ensures n in PassContainer(c, entries, data, keys, secret).data <==> n in data || Wants(c, entries, keys, n)
  {
    hide Moves;
    var p := Pull(RewriteEnv(c.env, keys, secret), entries, InlineData(data, c.env, keys));
    InlineDataKeys(data, c.env, keys, n);
    PullRefsAt(p, c.envFrom, keys, secret, n);
    PulledNone(c.envFrom, keys, entries, n);
  }

  lemma SomeWantsSnoc(cs: seq<Container>, entries: Entries, keys: seq<string>, n: string)
    requires cs != []
    ensures SomeWants(cs, entries, keys, n) <==>
            SomeWants(cs[..|cs| - 1], entries, keys, n) || Wants(cs[|cs| - 1], entries, keys, n)
  {
    hide Wants;
    var init := cs[..|cs| - 1];
    assert forall j | 0 <= j < |init| :: init[j] == cs[j];
  }

  /** A container that reads an entry wants its key, whoever else reads it. */
  lemma ReadersWant(cs: seq<Container>, entries: Entries, keys: seq<string>, x: Entry)
    requires SomeReads(cs, x.cm) && x in entries && x.key in keys
    ensures SomeWants(cs, entries, keys, x.key)
  {
    var j :| 0 <= j < |cs| && Reads(cs[j].envFrom, x.cm);
    assert Entry(x.cm, x.key) == x;
    assert Wants(cs[j], entries, keys, x.key);
  }

  lemma {:induction false} ContainersGet(cs: seq<Container>, entries: Entries, data: Data, keys: seq<string>,
      secret: string, n: string)
    ensures n in PassContainers(cs, entries, data, keys, secret).data <==> n in data || SomeWants(cs, entries, keys, n)
  {
    hide Wants;
    hide SomeWants;
    hide PassContainer;
    if cs == [] {
      assert !SomeWants([], entries, keys, n) by { NobodyWants(entries, keys, n); }
    } else {
      var init, c := cs[..|cs| - 1], cs[|cs| - 1];
      ContainersGet(init, entries, data, keys, secret, n);
      var b := PassContainers(init, entries, data, keys, secret);
      ContainerGets(c, b.entries, b.data, keys, secret, n);
      SomeWantsSnoc(cs, entries, keys, n);
      LeftWants(init, c, entries, b.entries, data, keys, secret, n);
    }
  }

  lemma NobodyWants(entries: Entries, keys: seq<string>, n: string)
    ensures !SomeWants([], entries, keys, n)
  {
  }

  /** What earlier containers took, they have: a later one wants no less with them than without. */
  lemma LeftWants(init: seq<Container>, c: Container, entries: Entries, left: Entries, data: Data, keys: seq<string>,
      secret: string, n: string)
    requires left == PassContainers(init, entries, data, keys, secret).entries
    ensures Wants(c, left, keys, n) ==> Wants(c, entries, keys, n)
    ensures Wants(c, entries, keys, n) ==> Wants(c, left, keys, n) || SomeWants(init, entries, keys, n)
  {
    hide Moves;
    hide SomeWants;
    hide SomeReads;
    hide PassContainers;
    forall cm ensures Get(left, Entry(cm, n)) == if SomeReads(init, cm) && n in keys then None
        else Get(entries, Entry(cm, n)) {
      ContainersEntries(init, entries, data, keys, secret, Entry(cm, n));
    }
    if n in keys {
      forall cm | SomeReads(init, cm) && Entry(cm, n) in entries ensures SomeWants(init, entries, keys, n) {
        ReadersWant(init, entries, keys, Entry(cm, n));
      }
    }
  }

  lemma ServiceWantsSnoc(ws: seq<Workload>, svc: string, entries: Entries, keys: seq<string>, n: string)
    requires ws != []
    ensures ServiceWants(ws, svc, entries, keys, n) <==>
            ServiceWants(ws[..|ws| - 1], svc, entries, keys, n)
            || (ws[|ws| - 1].name == svc && SomeWants(ws[|ws| - 1].containers, entries, keys, n))
  {
    hide SomeWants;
    var init := ws[..|ws| - 1];
    assert forall i | 0 <= i < |init| :: init[i] == ws[i];
  }

  /** As for the containers of one workload, so for the workloads of one service. */
  lemma LeftServiceWants(init: seq<Workload>, cs: seq<Container>, svc: string, entries: Entries, left: Entries,
      keys: seq<string>, n: string)
    requires left == PassWorkloads(init, svc, entries, keys).entries
    ensures SomeWants(cs, left, keys, n) ==> SomeWants(cs, entries, keys, n)
    ensures SomeWants(cs, entries, keys, n) ==>
        SomeWants(cs, left, keys, n) || ServiceWants(init, svc, entries, keys, n)
  {
    hide Moves;
    hide ServiceReads;
    hide ServiceWants;
    hide PassWorkloads;
    forall cm ensures Get(left, Entry(cm, n)) ==
        if ServiceReads(init, svc, cm) && n in keys then None else Get(entries, Entry(cm, n)) {
      SweepEntries(init, svc, entries, keys, Entry(cm, n));
    }
    if n in keys {
      forall cm | ServiceReads(init, svc, cm) && Entry(cm, n) in entries
          ensures ServiceWants(init, svc, entries, keys, n) {
        ServiceReadersWant(init, svc, entries, keys, Entry(cm, n));
      }
    }
    forall j | 0 <= j < |cs|
      ensures Wants(cs[j], left, keys, n) ==> Wants(cs[j], entries, keys, n)
      ensures Wants(cs[j], entries, keys, n) ==>
          Wants(cs[j], left, keys, n) || ServiceWants(init, svc, entries, keys, n)
    {
    }
  }

  lemma ServiceReadersWant(ws: seq<Workload>, svc: string, entries: Entries, keys: seq<string>, x: Entry)
    requires ServiceReads(ws, svc, x.cm) && x in entries && x.key in keys
    ensures ServiceWants(ws, svc, entries, keys, x.key)
  {
    var i, j :| 0 <= i < |ws| && 0 <= j < |ws[i].containers| && ws[i].name == svc
      && Reads(ws[i].containers[j].envFrom, x.cm);
    ReadersWant(ws[i].containers, entries, keys, x);
  }

  lemma {:induction false} SweepGets(ws: seq<Workload>, svc: string, entries: Entries, keys: seq<string>, n: string)
    ensures n in PassWorkloads(ws, svc, entries, keys).data <==> ServiceWants(ws, svc, entries, keys, n)
  {
    hide SomeWants;
    hide ServiceWants;
    hide PassContainers;
    if ws == [] {
      assert !ServiceWants([], svc, entries, keys, n) by { NoServiceWants(svc, entries, keys, n); }
    } else {
      var init, w := ws[..|ws| - 1], ws[|ws| - 1];
      SweepGets(init, svc, entries, keys, n);
      var s := PassWorkloads(init, svc, entries, keys);
      ContainersGet(w.containers, s.entries, s.data, keys, SecretName(svc), n);
      ServiceWantsSnoc(ws, svc, entries, keys, n);
      LeftServiceWants(init, w.containers, svc, entries, s.entries, keys, n);
    }
  }

  lemma NoServiceWants(svc: string, entries: Entries, keys: seq<string>, n: string)
    ensures !ServiceWants([], svc, entries, keys, n)
  {
  }

  /**
   A service's Secret gets a key if and only if the service has it as a wanted inline entry, or wants it
   and some ConfigMap it reads still has it when the service's turn comes.
   */
  lemma GetsKeyIff(st0: State, order: seq<string>, services: map<string, seq<string>>, svc: string, n: string)
    requires Runs(order, services) && svc in order && st0.created == map[]
    ensures n in DataOf(PassAll(st0, order, services), svc) <==>
            ServiceWants(st0.workloads, svc, AtTurn(st0, order, services, svc), services[svc], n)
  {
    hide PassAll;
    hide AtTurn;
    TurnComesOut(st0, order, services, svc);
    SweepGets(st0.workloads, svc, AtTurn(st0, order, services, svc), services[svc], n);
  }

  /** Nothing but this entry gives the service the key: no wanted inline entry, no other ConfigMap. */
  ghost predicate OnlySource(st0: State, svc: string, keys: seq<string>, x: Entry) {
    forall i, j | 0 <= i < |st0.workloads| && st0.workloads[i].name == svc && 0 <= j < |st0.workloads[i].containers| ::
      !Wants(st0.workloads[i].containers[j], st0.entries - {x}, keys, x.key)
  }

  /**
   Whoever has its turn first gets a contended entry: with no other source of the key for one of two
   services that claim it, an order that starts with that service and one that has the other before it differ.
   */
  lemma OrderShows(st0: State, a: seq<string>, b: seq<string>, services: map<string, seq<string>>,
      s: string, t: string, x: Entry)
    requires Runs(a, services) && Runs(b, services) && st0.created == map[] && s in a && s in b && t in services
    requires Before(a, s) == [] && t in Before(b, s)
    requires x in st0.entries && Contended(st0.workloads, s, t, services, x) && OnlySource(st0, s, services[s], x)
    ensures x.key in DataOf(PassAll(st0, a, services), s) && x.key !in DataOf(PassAll(st0, b, services), s)
    ensures PassAll(st0, a, services) != PassAll(st0, b, services)
  {
    hide PassAll;
    hide Before;
    hide Wants;
    BeforeRuns(b, services, s);
    GetsKeyIff(st0, a, services, s, x.key);
    GetsKeyIff(st0, b, services, s, x.key);
    assert AtTurn(st0, a, services, s) == st0.entries;
    ServiceReadersWant(st0.workloads, s, st0.entries, services[s], x);
    var left := AtTurn(st0, b, services, s);
    assert Claimed(st0.workloads, Before(b, s), services, x);
    forall i, j | 0 <= i < |st0.workloads| && st0.workloads[i].name == s && 0 <= j < |st0.workloads[i].containers|
      ensures !Wants(st0.workloads[i].containers[j], left, services[s], x.key)
    {
      FewerWant(st0.workloads[i].containers[j], st0.entries - {x}, left, services[s], x.key);
    }
  }

  lemma FewerWant(c: Container, entries: Entries, fewer: Entries, keys: seq<string>, n: string)
    requires forall y | y in fewer :: y in entries
    ensures Wants(c, fewer, keys, n) ==> Wants(c, entries, keys, n)
  {
  }

  /******* The environment over whole runs *******/

  /** A workload that is alone under its name and has one container is rewritten on its own. */
  lemma {:induction false} SingleSweep(ws: seq<Workload>, i: nat, c: Container, entries: Entries, keys: seq<string>)
    requires i < |ws| && ws[i].containers == [c]
    requires forall k | 0 <= k < |ws| && k != i :: ws[k].name != ws[i].name
    ensures
      var s, p := PassWorkloads(ws, ws[i].name, entries, keys),
          PassContainer(c, entries, map[], keys, SecretName(ws[i].name));
      && |s.workloads| == |ws|
      && s.workloads[i] == Workload(ws[i].name, [Container(p.env, c.envFrom)])
      && s.data == p.data
  {
    var init := ws[..|ws| - 1];
    var svc, secret := ws[i].name, SecretName(ws[i].name);
    if i == |ws| - 1 {
      NoneNamed(init, svc, entries, keys);
      assert [c][..0] == [];
      assert PassContainers([], entries, map[], keys, secret) == Batch([], entries, map[]);
      assert PassContainers([c], entries, map[], keys, secret).containers ==
             [Container(PassContainer(c, entries, map[], keys, secret).env, c.envFrom)];
    } else {
      SingleSweep(init, i, c, entries, keys);
      SweepRewrites(init, svc, entries, keys);
    }
  }

  lemma {:induction false} NoneNamed(ws: seq<Workload>, svc: string, entries: Entries, keys: seq<string>)
    requires forall k | 0 <= k < |ws| :: ws[k].name != svc
    ensures PassWorkloads(ws, svc, entries, keys) == Sweep(ws, entries, map[])
  {
    if ws != [] {
      NoneNamed(ws[..|ws| - 1], svc, entries, keys);
      assert ws == ws[..|ws| - 1] + [ws[|ws| - 1]];
    }
  }

  /** A one-container workload alone under its name, that mentions none of the Secrets about to be made. */
  ghost predicate Single(st0: State, order: seq<string>, i: nat)
    requires i < |st0.workloads|
  {
    var w := st0.workloads[i];
    && |w.containers| == 1
    && (forall k | 0 <= k < |st0.workloads| && k != i :: st0.workloads[k].name != w.name)
    && forall s | s in order :: !Mentions(w.containers[0], SecretName(s))
  }

  /** A single container comes out of a run as its own turn made it, from the entries it found then. */
  lemma SingleTurn(st0: State, order: seq<string>, services: map<string, seq<string>>, i: nat)
    requires Runs(order, services) && st0.created == map[] && i < |st0.workloads|
    requires |st0.workloads[i].containers| == 1 && st0.workloads[i].name in order
    requires forall k | 0 <= k < |st0.workloads| && k != i :: st0.workloads[k].name != st0.workloads[i].name
    ensures
      var svc, c, st := st0.workloads[i].name, st0.workloads[i].containers[0], PassAll(st0, order, services);
      var turn := AtTurn(st0, order, services, svc);
      var data := PassContainer(c, turn, map[], services[svc], SecretName(svc)).data;
      && |st.workloads| == |st0.workloads|
      && st.workloads[i].containers == [AfterOwn(c, turn, services[svc], SecretName(svc))]
      && Get(st.created, SecretName(svc)) == if data == map[] then None else Some(data)
  {
    hide PassContainer;
    hide PassAll;
    hide PassWorkloads;
    hide AtTurn;
    var svc, c := st0.workloads[i].name, st0.workloads[i].containers[0];
    assert st0.workloads[i].containers == [c];
    TurnComesOut(st0, order, services, svc);
    SingleSweep(st0.workloads, i, c, AtTurn(st0, order, services, svc), services[svc]);
  }

  /** The names a service marks, none if it has no turn. */
  ghost function KeysOf(order: seq<string>, services: map<string, seq<string>>, svc: string): seq<string>
    requires forall s | s in order :: s in services
  {
    if svc in order then services[svc] else []
  }

  /**
   Exactly when a container keeps the value of every name, whatever other services take from the
   ConfigMaps it shares.
   */
  ghost predicate Kept(st0: State, order: seq<string>, services: map<string, seq<string>>, i: nat, ext: SecretStore)
    requires Runs(order, services) && i < |st0.workloads| && |st0.workloads[i].containers| == 1
  {
    var svc, c := st0.workloads[i].name, st0.workloads[i].containers[0];
    forall n :: KeptAt(c, KeysOf(order, services, svc), st0.entries, AtTurn(st0, order, services, svc),
                       Left(st0, order, services), ext, n)
  }

  /** Two containers see the same value under every name. */
  ghost predicate SameEnvironment(c': Container, entries': Entries, secrets': SecretStore,
                                  c: Container, entries: Entries, secrets: SecretStore) {
    forall n :: Effective(c', entries', secrets', n) == Effective(c, entries, secrets, n)
  }

  /**
   Moving variables to Secrets keeps a container's effective environment if and only if every name is
   kept: what the container pulls when its turn comes is what it saw, and what other services take
   away is not what it saw.
   */
  lemma MeaningKeptIff(st0: State, order: seq<string>, services: map<string, seq<string>>, i: nat, ext: SecretStore)
    requires Runs(order, services) && st0.created == map[] && i < |st0.workloads| && Single(st0, order, i)
    ensures
      var c, st := st0.workloads[i].containers[0], PassAll(st0, order, services);
      && |st.workloads| == |st0.workloads| && |st.workloads[i].containers| == 1
      && (SameEnvironment(st.workloads[i].containers[0], st.entries, ext + st.created, c, st0.entries, ext) <==>
            Kept(st0, order, services, i, ext))
  {
    hide Effective;
    hide KeptAt;
    hide Mentions;
    var svc, c := st0.workloads[i].name, st0.workloads[i].containers[0];
    var st := PassAll(st0, order, services);
    RunShape(st0, order, services);
    RunLeaves(st0, order, services);
    forall s | Mentions(c, s) ensures Get(ext + st.created, s) == Get(ext, s) {
      RunCreatedOnly(st0, order, services, s);
    }
    var turn, keys := AtTurn(st0, order, services, svc), KeysOf(order, services, svc);
    var c' := st.workloads[i].containers[0];
    if svc in order {
      SingleTurn(st0, order, services, i);
      forall n ensures Effective(c', st.entries, ext + st.created, n) == Effective(c, st0.entries, ext, n) <==>
                       KeptAt(c, keys, st0.entries, turn, st.entries, ext, n) {
        OwnMeaningAt(c, keys, SecretName(svc), st0.entries, turn, st.entries, ext, ext + st.created, n);
      }
    } else {
      assert st.workloads[i] == st0.workloads[i] && keys == [];
      forall n ensures Effective(c', st.entries, ext + st.created, n) == Effective(c, st0.entries, ext, n) <==>
                       KeptAt(c, keys, st0.entries, turn, st.entries, ext, n) {
        BystanderAt(c, st0.entries, turn, st.entries, ext, ext + st.created, n);
      }
    }
  }

  /** A container whose service marks nothing is left alone, and sees what is left of its sources. */
  lemma BystanderAt(c: Container, first: Entries, turn: Entries, last: Entries, secrets: SecretStore,
      laterSecrets: SecretStore, n: string)
    requires forall s | Mentions(c, s) :: Get(laterSecrets, s) == Get(secrets, s)
    ensures Effective(c, last, laterSecrets, n) == Effective(c, first, secrets, n) <==>
        KeptAt(c, [], first, turn, last, secrets, n)
  {
    LastEntryHas(c.env, n);
    PulledNone(c.envFrom, [], turn, n);
    MentionedAlike(c, last, secrets, laterSecrets, n);
    var e := LastEntry(c.env, n);
    if e.Some? && e.value.valueFrom.Some? && e.value.valueFrom.value.SecretKey? {
      var s := e.value.valueFrom.value.secret;
      assert Mentions(c, s);
      assert Get(laterSecrets, s) == Get(secrets, s);
    }
  }

  /** Every name that is not inline has the same value once the sources are what the run leaves. */
  ghost predicate SourcesAgree(c: Container, first: Entries, last: Entries, secrets: SecretStore) {
    forall n | LastEntry(c.env, n).None? ::
        FromValue(c.envFrom, n, last, secrets) == FromValue(c.envFrom, n, first, secrets)
  }

  /**
   A service that marks nothing keeps its environment if and only if its sources agree without the
   claimed entries.
   */
  lemma BystanderKeptIff(st0: State, order: seq<string>, services: map<string, seq<string>>, i: nat, ext: SecretStore)
    requires Runs(order, services) && i < |st0.workloads| && |st0.workloads[i].containers| == 1
    requires st0.workloads[i].name !in order
    ensures Kept(st0, order, services, i, ext) <==>
            SourcesAgree(st0.workloads[i].containers[0], st0.entries, Left(st0, order, services), ext)
  {
    hide FromValue;
    hide LastEntry;
    hide Left;
    hide KeptAt;
    var svc, c := st0.workloads[i].name, st0.workloads[i].containers[0];
    var turn, last, keys := AtTurn(st0, order, services, svc), Left(st0, order, services), KeysOf(order, services, svc);
    if Kept(st0, order, services, i, ext) {
      forall n | LastEntry(c.env, n).None?
          ensures FromValue(c.envFrom, n, last, ext) == FromValue(c.envFrom, n, st0.entries, ext) {
        assert KeptAt(c, keys, st0.entries, turn, last, ext, n);
        NothingPulledAt(c, keys, st0.entries, turn, last, ext, n);
      }
    }
    if SourcesAgree(c, st0.entries, last, ext) {
      forall n ensures KeptAt(c, keys, st0.entries, turn, last, ext, n) {
        NothingPulledAt(c, keys, st0.entries, turn, last, ext, n);
      }
    }
  }

  lemma NothingPulledAt(c: Container, keys: seq<string>, first: Entries, turn: Entries, last: Entries,
      secrets: SecretStore, n: string)
    requires n !in keys
    ensures KeptAt(c, keys, first, turn, last, secrets, n) <==>
            (LastEntry(c.env, n).None? ==>
              FromValue(c.envFrom, n, last, secrets) == FromValue(c.envFrom, n, first, secrets))
  {
    PulledNone(c.envFrom, keys, turn, n);
  }

  /** No other service empties the ConfigMaps the container reads. */
  ghost predicate Undisturbed(st0: State, order: seq<string>, services: map<string, seq<string>>, i: nat)
    requires forall s | s in order :: s in services
    requires i < |st0.workloads| && |st0.workloads[i].containers| == 1
  {
    var w := st0.workloads[i];
    forall x, s | x in st0.entries && s in order && s != w.name && Reads(w.containers[0].envFrom, x.cm) ::
      !Claims(st0.workloads, s, services[s], x)
  }

  /** `Pulled` only looks at the entries its sources name. */
  lemma {:induction false} PulledLocal(refs: seq<EnvFrom>, keys: seq<string>, a: Entries, b: Entries, n: string)
    requires forall cm | Reads(refs, cm) :: Get(a, Entry(cm, n)) == Get(b, Entry(cm, n))
    ensures Pulled(refs, keys, a, n) == Pulled(refs, keys, b, n)
  {
    if refs != [] {
      var before, r := refs[..|refs| - 1], refs[|refs| - 1];
      assert refs == before + [r] && r in refs;
      if r.FromConfigMap? {
        assert Reads(refs, r.cm);
      }
      PulledLocal(before, keys, a, b, n);
    }
  }

  /** Then a service that marks nothing keeps everything, and another one if and only if it pulls what it saw. */
  lemma UndisturbedKeptIff(st0: State, order: seq<string>, services: map<string, seq<string>>, i: nat, ext: SecretStore)
    requires Runs(order, services) && i < |st0.workloads| && |st0.workloads[i].containers| == 1
    requires forall k | 0 <= k < |st0.workloads| && k != i :: st0.workloads[k].name != st0.workloads[i].name
    requires Undisturbed(st0, order, services, i)
    ensures
      var svc, c := st0.workloads[i].name, st0.workloads[i].containers[0];
      Kept(st0, order, services, i, ext) <==> (svc in order ==> PullsTheWinner(c, services[svc], st0.entries, ext))
  {
    hide FromValue;
    hide LastEntry;
    hide Claims;
    hide Pulled;
    var svc, c := st0.workloads[i].name, st0.workloads[i].containers[0];
    var keys := KeysOf(order, services, svc);
    BeforeRuns(order, services, svc);
    var turn, last := AtTurn(st0, order, services, svc), Left(st0, order, services);
    forall n ensures KeptAt(c, keys, st0.entries, turn, last, ext, n) <==>
                     (Pulled(c.envFrom, keys, st0.entries, n).Some? ==>
                       PullsTheWinnerAt(c, keys, st0.entries, ext, n)) {
      forall cm | Reads(c.envFrom, cm) ensures Get(turn, Entry(cm, n)) == Get(st0.entries, Entry(cm, n)) {
        assert Entry(cm, n) in st0.entries ==> !Claimed(st0.workloads, Before(order, svc), services, Entry(cm, n));
      }
      PulledLocal(c.envFrom, keys, turn, st0.entries, n);
      if Pulled(c.envFrom, keys, turn, n).None? {
        OwnLeft(st0, order, services, i, n);
        FromValueLocal(c.envFrom, n, last, st0.entries, ext, ext);
      }
    }
    if svc !in order {
      forall n ensures Pulled(c.envFrom, [], st0.entries, n).None? {
        PulledNone(c.envFrom, [], st0.entries, n);
      }
    }
  }

  /** A name that an undisturbed container does not pull is left where it was. */
  lemma OwnLeft(st0: State, order: seq<string>, services: map<string, seq<string>>, i: nat, n: string)
    requires Runs(order, services) && i < |st0.workloads| && |st0.workloads[i].containers| == 1
    requires forall k | 0 <= k < |st0.workloads| && k != i :: st0.workloads[k].name != st0.workloads[i].name
    requires Undisturbed(st0, order, services, i)
    requires
      var w := st0.workloads[i];
      Pulled(w.containers[0].envFrom, KeysOf(order, services, w.name), st0.entries, n).None?
    ensures forall cm | Reads(st0.workloads[i].containers[0].envFrom, cm) ::
              Get(Left(st0, order, services), Entry(cm, n)) == Get(st0.entries, Entry(cm, n))
  {
    hide Pulled;
    hide ServiceReads;
    var w := st0.workloads[i];
    PulledNone(w.containers[0].envFrom, KeysOf(order, services, w.name), st0.entries, n);
    forall cm | Reads(w.containers[0].envFrom, cm)
      ensures Get(Left(st0, order, services), Entry(cm, n)) == Get(st0.entries, Entry(cm, n))
    {
      var x := Entry(cm, n);
      assert x in st0.entries ==> !Claimed(st0.workloads, order, services, x);
    }
  }

  /** A check a user can make on the file: distinct sources, and no wanted name that two places could define. */
  ghost predicate Unambiguous(c: Container, keys: seq<string>, entries: Entries, secrets: SecretStore) {
    && Distinct(c.envFrom)
    && forall cm, n | Reads(c.envFrom, cm) && n in keys && Entry(cm, n) in entries ::
      && (LastEntry(c.env, n).Some? ==> LastEntry(c.env, n).value.valueFrom.Some?)
      && forall s | FromSecret(s) in c.envFrom && s in secrets :: n !in secrets[s]
  }

  lemma UnambiguousSuffices(c: Container, keys: seq<string>, entries: Entries, secrets: SecretStore)
    requires Unambiguous(c, keys, entries, secrets)
    ensures PullsTheWinner(c, keys, entries, secrets)
  {
    forall n | Pulled(c.envFrom, keys, entries, n).Some? ensures PullsTheWinnerAt(c, keys, entries, secrets, n) {
      PulledNone(c.envFrom, keys, entries, n);
      DistinctPull(c.envFrom, keys, entries, secrets, n);
    }
  }

  lemma {:induction false} DistinctPull(refs: seq<EnvFrom>, keys: seq<string>, entries: Entries, secrets: SecretStore,
      n: string)
    requires Distinct(refs) && n in keys
    requires forall s | FromSecret(s) in refs && s in secrets :: n !in secrets[s]
    ensures Pulled(refs, keys, entries, n) == FromValue(refs, n, entries, secrets)
  {
    if refs != [] {
      var before, r := refs[..|refs| - 1], refs[|refs| - 1];
      assert refs == before + [r] && r in refs;
      DistinctPull(before, keys, entries, secrets, n);
    }
  }

  /******* The hypotheses are needed *******/

  /** A container loses a variable for good when its only source is a ConfigMap another service empties. */
  lemma SharedEntryIsLost(st0: State, order: seq<string>, services: map<string, seq<string>>, i: nat, s: string,
      x: Entry, ext: SecretStore)
    requires Runs(order, services) && st0.created == map[] && i < |st0.workloads| && s in order
    requires st0.workloads[i].name !in order && |st0.workloads[i].containers| == 1
    requires x in st0.entries && Claims(st0.workloads, s, services[s], x)
    requires
      var c := st0.workloads[i].containers[0];
      && c.envFrom == [FromConfigMap(x.cm)] && LastEntry(c.env, x.key).None?
    ensures
      var st, c := PassAll(st0, order, services), st0.workloads[i].containers[0];
      && |st.workloads| == |st0.workloads| && st.workloads[i].containers == [c]
      && Effective(c, st0.entries, ext, x.key) == Some(Text(st0.entries[x]))
      && Effective(c, st.entries, ext + st.created, x.key) == None
  {
    RunShape(st0, order, services);
    RunEntries(st0, order, services, x);
    assert Claimed(st0.workloads, order, services, x);
    var c := st0.workloads[i].containers[0];
    assert st0.workloads[i].containers == [c];
    var st := PassAll(st0, order, services);
    assert SourceValue(c.envFrom[0], x.key, st.entries, ext + st.created) == Get(st.entries, x) == None;
    assert FromValue(c.envFrom[..0], x.key, st.entries, ext + st.created) == None;
  }

  /** One service whose only container reads the given ConfigMaps. */
  function Reader(svc: string, cms: seq<string>): Workload {
    Workload(svc, [Container([], seq(|cms|, i requires 0 <= i < |cms| => FromConfigMap(cms[i])))])
  }

  /** The smallest input on which the order shows: two services, one ConfigMap, one key. */
  lemma TwoReaders(s: string, t: string, cm: string, n: string, v: string)
    requires s != t
    ensures
      var st0, services := State([Reader(s, [cm]), Reader(t, [cm])], map[Entry(cm, n) := v], map[]),
          map[s := [n], t := [n]];
      PassAll(st0, [s, t], services) != PassAll(st0, [t, s], services)
  {
    hide PassAll;
    var st0, services := State([Reader(s, [cm]), Reader(t, [cm])], map[Entry(cm, n) := v], map[]),
        map[s := [n], t := [n]];
    var x := Entry(cm, n);
    assert st0.workloads[0].containers[0].envFrom[0] == FromConfigMap(cm);
    assert st0.workloads[1].containers[0].envFrom[0] == FromConfigMap(cm);
    assert Reads(st0.workloads[0].containers[0].envFrom, cm) && Reads(st0.workloads[1].containers[0].envFrom, cm);
    assert Contended(st0.workloads, s, t, services, x);
    assert Before([s, t], s) == [] && Before([t, s], s) == [t] by {
      assert [s, t][..1] == [s] && [s][..0] == [] && [t, s][..1] == [t];
    }
    assert OnlySource(st0, s, [n], x) by {
      assert st0.entries - {x} == map[];
    }
    OrderShows(st0, [s, t], [t, s], services, s, t, x);
  }

  /** An inline value is overwritten when the same wanted name also sits in a pulled ConfigMap. */
  lemma InlineLosesToFile(svc: string, n: string, v: string, file: string, ext: SecretStore)
    requires v != file && SecretName(svc) !in ext
    ensures
      var c := Container([EnvVar(n, v, None)], [FromConfigMap("env")]);
      var st0 := State([Workload(svc, [c])], map[Entry("env", n) := file], map[]);
      var st := PassAll(st0, [svc], map[svc := [n]]);
      && Effective(c, st0.entries, ext, n) == Some(Text(v))
      && |st.workloads| == 1 && |st.workloads[0].containers| == 1
      && !SameEnvironment(st.workloads[0].containers[0], st.entries, ext + st.created, c, st0.entries, ext)
  {
    var c := Container([EnvVar(n, v, None)], [FromConfigMap("env")]);
    var st0 := State([Workload(svc, [c])], map[Entry("env", n) := file], map[]);
    var services := map[svc := [n]];
    MeaningKeptIff(st0, [svc], services, 0, ext);
    UndisturbedKeptIff(st0, [svc], services, 0, ext);
    assert c.envFrom[..0] == [];
    assert Pulled(c.envFrom, [n], st0.entries, n) == Some(file);
    assert !PullsTheWinnerAt(c, [n], st0.entries, ext, n);
  }

  /******* Secrets loaded whole, after the pass *******/

  /** The sources `x-orcinus-env-from-secret` appends to a container. */
  function AddSecretSources(refs: seq<EnvFrom>, names: seq<string>): seq<EnvFrom> {
    if names == [] then refs
    else
      var out := AddSecretSources(refs, names[..|names| - 1]);
      var r := FromSecret(names[|names| - 1]);
      if r in refs then out else out + [r]
  }

  /** The value the appended Secrets give a name: the last one that was not a source already and has it. */
  function Appended(refs: seq<EnvFrom>, names: seq<string>, n: string, secrets: SecretStore): Option<string> {
    if names == [] then None
    else
      var s := names[|names| - 1];
      var v := if FromSecret(s) !in refs && s in secrets then Get(secrets[s], n) else None;
      if v.Some? then v else Appended(refs, names[..|names| - 1], n, secrets)
  }

  lemma {:induction false} AppendedWins(refs: seq<EnvFrom>, names: seq<string>, n: string, entries: Entries,
      secrets: SecretStore)
    ensures FromValue(AddSecretSources(refs, names), n, entries, secrets) ==
            Or(Appended(refs, names, n, secrets), FromValue(refs, n, entries, secrets))
  {
    if names != [] {
      var init, s := names[..|names| - 1], names[|names| - 1];
      AppendedWins(refs, init, n, entries, secrets);
      var out := AddSecretSources(refs, init);
      assert (out + [FromSecret(s)])[..|out|] == out;
    }
  }

  /** Secrets named this way win over every earlier source, the last one first, unless the name is set inline. */
  lemma LaterSecretWins(c: Container, names: seq<string>, n: string, entries: Entries, secrets: SecretStore)
    ensures
      var now := Effective(Container(c.env, AddSecretSources(c.envFrom, names)), entries, secrets, n);
      var own := Appended(c.envFrom, names, n, secrets);
      now == if LastEntry(c.env, n).Some? || own.None? then Effective(c, entries, secrets, n) else Some(Text(own.value))
  {
    AppendedWins(c.envFrom, names, n, entries, secrets);
  }

  /**
   After both passes, a name that is not set inline has the value of the Secret loaded for it if and only
   if the secret pass did not pull it from a ConfigMap with another value.
   */
  lemma LaterSecretWinsIff(c: Container, entries: Entries, keys: seq<string>, secret: string, names: seq<string>,
                           later: Entries, secrets: SecretStore, n: string)
    requires LastEntry(c.env, n).None? && Appended(c.envFrom, names, n, secrets).Some?
    requires var data := PassContainer(c, entries, map[], keys, secret).data; data != map[] ==>
        Get(secrets, secret) == Some(data)
    ensures
      var c' := AfterOwn(c, entries, keys, secret);
      var pulled, own := Pulled(c.envFrom, keys, entries, n), Appended(c.envFrom, names, n, secrets).value;
      var now := Effective(Container(c'.env, AddSecretSources(c'.envFrom, names)), later, secrets, n);
      && now == Some(Text(if pulled.Some? then pulled.value else own))
      && (now == Some(Text(own)) <==> (pulled.Some? ==> pulled.value == own))
  {
    hide PassContainer;
    OwnEntry(c, entries, keys, secret, n);
    LaterSecretWins(AfterOwn(c, entries, keys, secret), names, n, later, secrets);
  }

  /** An input on which the loaded Secret does not win: the key is marked, and its env file has another value. */
  lemma PulledKeyWins(n: string, file: string, own: string, loaded: string, secret: string)
    requires file != own && loaded != secret
    ensures
      var c := Container([], [FromConfigMap("env")]);
      var entries: Entries := map[Entry("env", n) := file];
      var c' := AfterOwn(c, entries, [n], secret);
      var secrets: SecretStore :=
          map[loaded := map[n := own], secret := PassContainer(c, entries, map[], [n], secret).data];
      Effective(Container(c'.env, AddSecretSources(c'.envFrom, [loaded])), entries, secrets, n) == Some(Text(file))
  {
    hide PassContainer;
    var c := Container([], [FromConfigMap("env")]);
    var entries: Entries := map[Entry("env", n) := file];
    var secrets: SecretStore :=
        map[loaded := map[n := own], secret := PassContainer(c, entries, map[], [n], secret).data];
    assert c.envFrom[..0] == [];
    assert Pulled(c.envFrom, [n], entries, n) == Some(file);
    assert Appended(c.envFrom, [loaded], n, secrets) == Some(own);
    LaterSecretWinsIff(c, entries, [n], secret, [loaded], entries, secrets, n);
  }
}
