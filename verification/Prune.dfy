/** Applying a project's objects to a cluster and sweeping what the project no longer lists. */
module Prune {
  import opened Common
  import opened Text

  /******* The cluster *******/

  datatype Gvr = Gvr(group: string, version: string, resource: string)
  datatype Id = Id(gvr: Gvr, ns: string, name: string)

  /** An object: its labels and, for a StatefulSet, its claim templates and the labels its claims get. */
  datatype Obj = Obj(labels: map<string, string>, templates: seq<string>, claimLabels: map<string, string>)
  type Store = map<Id, Obj>

  const DEPLOYMENTS := Gvr("apps", "v1", "deployments")
  const STATEFUL_SETS := Gvr("apps", "v1", "statefulsets")
  const DAEMON_SETS := Gvr("apps", "v1", "daemonsets")
  const SERVICES := Gvr("", "v1", "services")
  const CONFIG_MAPS := Gvr("", "v1", "configmaps")
  const SECRETS := Gvr("", "v1", "secrets")
  const CLAIMS := Gvr("", "v1", "persistentvolumeclaims")
  const INGRESSES := Gvr("networking.k8s.io", "v1", "ingresses")

  const PRUNABLE: seq<Gvr> :=
    [DEPLOYMENTS, STATEFUL_SETS, DAEMON_SETS, SERVICES, CONFIG_MAPS, SECRETS, CLAIMS, INGRESSES]

  const MANAGED_BY := "app.kubernetes.io/managed-by"
  const PROJECT := "orcinus.io/project"

  /** The label selector of a project's own objects. */
  predicate Owned(labels: map<string, string>, project: string) {
    Get(labels, MANAGED_BY) == Some("orcinus") && Get(labels, PROJECT) == Some(project)
  }

  /** How an applied object is remembered. */
  function Key(id: Id): string {
    id.gvr.group + "/" + id.gvr.version + ", Resource=" + id.gvr.resource + "|" + id.ns + "|" + id.name
  }

  /******* Claims of StatefulSets *******/

  function ClaimPrefix(template: string, name: string): string {
    template + "-" + name + "-"
  }

  /** "<prefix><ordinal>", the name the StatefulSet controller gives a generated claim. */
  predicate Numbered(name: string, prefix: string) {
    HasPrefix(name, prefix) && |name| > |prefix| && AllDigits(name[|prefix|..])
  }

  method IsStatefulSetClaim(name: string, prefixes: seq<string>) returns (r: bool)
    ensures r <==> Covered(name, AsSet(prefixes))
  {
    for i := 0 to |prefixes|
      invariant forall j | 0 <= j < i :: !Numbered(name, prefixes[j])
    {
      var p := prefixes[i];
      if HasPrefix(name, p) && |name| > |p| {
        var ordinal := name[|p|..];
        var digits := true;
        for k := 0 to |ordinal|
          invariant digits <==> AllDigits(ordinal[..k])
        {
          if !IsDigit(ordinal[k]) { digits := false; }
        }
        assert ordinal[..|ordinal|] == ordinal;
        if digits {
          assert p in prefixes && Numbered(name, p);
          return true;
        }
      }
    }
    return false;
  }

  /** The prefixes the StatefulSets of a namespace vouch for. */
  ghost function Vouched(store: Store, ns: string): set<string> {
    set id, t | id in store && id.gvr == STATEFUL_SETS && id.ns == ns && t in store[id].templates && t != "" ::
      ClaimPrefix(t, id.name)
  }

  ghost predicate Covered(name: string, prefixes: set<string>) {
    exists p :: p in prefixes && Numbered(name, p)
  }

  /******* What prune removes *******/

  /** What one prune works with; `prefixes` are those of the StatefulSets listed when it began. */
  datatype Scope = Scope(project: string, ns: string, pvcs: bool, keep: set<string>, prefixes: set<string>)

  /** An owned object that was not applied, and whose deletion loses no StatefulSet's data. */
  ghost predicate Orphan(id: Id, obj: Obj, c: Scope) {
    && c.project != "" && id.ns == c.ns && Owned(obj.labels, c.project)
    && Key(id) !in c.keep
    && (id.gvr == CLAIMS ==> c.pvcs && !Covered(id.name, c.prefixes))
  }

  ghost predicate Doomed(id: Id, obj: Obj, c: Scope) {
    id.gvr in PRUNABLE && Orphan(id, obj, c)
  }

  ghost function Without(store: Store, c: Scope): Store {
    map id | id in store && !Doomed(id, store[id], c) :: store[id]
  }

  /** What prune leaves when every call it makes succeeds. */
  ghost function Pruned(store: Store, project: string, ns: string, pvcs: bool, keep: set<string>): Store {
    Without(store, Scope(project, ns, pvcs, keep, Vouched(store, ns)))
  }

  datatype Manifest = Manifest(gvr: Gvr, ns: string, name: string, namespaced: bool, obj: Obj)
  datatype Options = Options(project: string, ns: string, prune: bool, pvcs: bool)

  function DefaultNs(ns: string): string {
    if ns == "" then "default" else ns
  }

  function Target(m: Manifest, ns: string): Id {
    Id(m.gvr, if m.namespaced && m.ns == "" then ns else m.ns, m.name)
  }

  /** Server-side apply: the applied labels on top of what is there. */
  function Merged(store: Store, id: Id, obj: Obj): Store {
    store[id := if id in store then obj.(labels := store[id].labels + obj.labels) else obj]
  }

  /** The API server refuses to change a StatefulSet's claim templates. */
  predicate Accepts(store: Store, id: Id, obj: Obj) {
    id in store && id.gvr == STATEFUL_SETS ==> store[id].templates == obj.templates
  }

  ghost function Applied(store: Store, objects: seq<Manifest>, ns: string): Store {
    if objects == [] then store
    else
      var m := objects[|objects| - 1];
      Merged(Applied(store, objects[..|objects| - 1], ns), Target(m, ns), m.obj)
  }

  /** Every object is accepted when its turn comes. */
  ghost predicate Acceptable(store: Store, objects: seq<Manifest>, ns: string) {
    objects == [] ||
    var init, m := objects[..|objects| - 1], objects[|objects| - 1];
    Acceptable(store, init, ns) && Accepts(Applied(store, init, ns), Target(m, ns), m.obj)
  }

  ghost function Keys(objects: seq<Manifest>, ns: string): set<string> {
    set i | 0 <= i < |objects| :: Key(Target(objects[i], ns))
  }

  /** Only orphans of the kinds already visited are gone, and the rest is as it was. */
  ghost predicate Sweeping(s0: Store, s: Store, visited: set<Gvr>, c: Scope) {
    && (forall id | id in s :: id in s0 && s[id] == s0[id])
    && forall id | id in s0 && id !in s :: id.gvr in visited && Orphan(id, s0[id], c)
  }

  /** What is left is as it was, and what is gone was doomed. */
  ghost predicate OnlyOrphansGone(s0: Store, s: Store, c: Scope) {
    && (forall id | id in s :: id in s0 && s[id] == s0[id])
    && forall id | id in s0 && id !in s :: Doomed(id, s0[id], c)
  }

  /** No orphan of the kinds already visited is left. */
  ghost predicate Swept(s: Store, visited: set<Gvr>, c: Scope) {
    forall id | id in s && id.gvr in visited :: !Orphan(id, s[id], c)
  }

  lemma SweptIsPruned(s0: Store, s: Store, visited: set<Gvr>, c: Scope)
    requires visited == (set gvr | gvr in PRUNABLE)
    requires Sweeping(s0, s, visited, c) && Swept(s, visited, c)
    ensures s == Without(s0, c)
  {
  }

  /******* The reconciler *******/

  /**
   The live cluster. Every API call may fail, with no effect; `healthy` records
   that none has failed so far.
   */
  class Cluster {
    var store: Store
    ghost var healthy: bool

    constructor (store: Store)
      ensures this.store == store && healthy
    {
      this.store, this.healthy := store, true;
    }

    method ApplyOne(id: Id, obj: Obj) returns (ok: bool)
      modifies this
      ensures ok ==> Accepts(old(store), id, obj) && store == Merged(old(store), id, obj) && healthy == old(healthy)
      ensures !ok ==> store == old(store) && (Accepts(store, id, obj) ==> !healthy)
      ensures healthy ==> old(healthy)
    {
      var up: bool := *;
      ok := up && Accepts(store, id, obj);
      if ok {
        store := Merged(store, id, obj);
      }
      healthy := healthy && up;
    }

    method Delete(id: Id)
      modifies this
      ensures store == old(store) || store == old(store) - {id}
      ensures healthy ==> old(healthy) && store == old(store) - {id}
    {
      var up: bool := *;
      if up {
        store := store - {id};
      }
      healthy := healthy && up;
    }

    /** The project's objects of one kind in a namespace, in some order. */
    method List(gvr: Gvr, ns: string, project: string) returns (ok: bool, items: seq<Id>)
      modifies this`healthy
      ensures ok ==> (forall id :: id in items <==>
          id in store && id.gvr == gvr && id.ns == ns && Owned(store[id].labels, project))
      ensures ok ==> healthy == old(healthy)
      ensures !ok ==> !healthy
    {
      ok := *;
      healthy := healthy && ok;
      items := [];
      if ok {
        var todo := set id | id in store && id.gvr == gvr && id.ns == ns && Owned(store[id].labels, project);
        ghost var all := todo;
        while todo != {}
          invariant forall id :: id in all <==> id in items || id in todo
          decreases |todo|
        {
          var id :| id in todo;
          items := items + [id];
          todo := todo - {id};
        }
      }
    }

    /** One kind of the sweep: skipped for claims unless asked for, or when its listing fails. */
    method SweepKind(gvr: Gvr, prefixes: seq<string>, keep: set<string>, project: string, ns: string, pvcs: bool,
                     ghost s0: Store, ghost visited: set<Gvr>, ghost c: Scope)
      requires project != "" && c == Scope(project, ns, pvcs, keep, AsSet(prefixes))
      requires Sweeping(s0, store, visited, c)
      modifies this
      ensures Sweeping(s0, store, visited + {gvr}, c)
      ensures healthy ==> old(healthy) && (Swept(old(store), visited, c) ==> Swept(store, visited + {gvr}, c))
    {
      hide Key;
      hide Owned;
      hide Covered;
      if gvr == CLAIMS && !pvcs { return; }
      var ok, items := List(gvr, ns, project);
      if !ok { return; }
      for i := 0 to |items|
        invariant Sweeping(s0, store, visited + {gvr}, c)
        invariant forall id | id in store :: id in old(store) && store[id] == old(store)[id]
        invariant healthy ==> old(healthy)
        invariant healthy ==> forall id | id in store && id in items[..i] :: !Orphan(id, store[id], c)
      {
        var id := items[i];
        assert items[..i + 1] == items[..i] + [id];
        if Key(id) in keep { continue; }
        if gvr == CLAIMS {
          var claim := IsStatefulSetClaim(id.name, prefixes);
          if claim { continue; }
        }
        assert id in store ==> Orphan(id, store[id], c);
        Delete(id);
      }
      assert items[..|items|] == items;
    }

    /**
     Deletes the owned objects of the project that were not applied. Whatever fails, only
     objects that look orphaned go, and no claim unless asked for; no claim of a StatefulSet goes
     if the StatefulSets were `listed`, even when other calls fail; when nothing fails, exactly
     the doomed objects go.
     */
    method PruneProject(keep: set<string>, project: string, ns: string, pvcs: bool) returns (ghost listed: bool)
      modifies this
      ensures listed ==> OnlyOrphansGone(old(store), store, Scope(project, ns, pvcs, keep, Vouched(old(store), ns)))
      ensures healthy ==> listed
      ensures healthy ==> old(healthy) && store == Pruned(old(store), project, ns, pvcs, keep)
      ensures OnlyOrphansGone(old(store), store, Scope(project, ns, pvcs, keep, {}))
    {
      hide Key;
      hide Owned;
      hide Numbered;
      if project == "" {
        assert Pruned(store, project, ns, pvcs, keep) == store;
        return true;
      }
      var prefixes;
      prefixes, listed := ClaimPrefixes(ns);
      ghost var c := Scope(project, ns, pvcs, keep, AsSet(prefixes));
      ghost var visited: set<Gvr> := {};
      for g := 0 to |PRUNABLE|
        invariant visited == set gvr | gvr in PRUNABLE[..g]
        invariant Sweeping(old(store), store, visited, c)
        invariant healthy ==> old(healthy) && Swept(store, visited, c)
        invariant healthy ==> listed
      {
        SweepKind(PRUNABLE[g], prefixes, keep, project, ns, pvcs, old(store), visited, c);
        assert PRUNABLE[..g + 1] == PRUNABLE[..g] + [PRUNABLE[g]];
        visited := visited + {PRUNABLE[g]};
      }
      assert PRUNABLE[..|PRUNABLE|] == PRUNABLE;
      if healthy {
        SweptIsPruned(old(store), store, visited, c);
      }
    }

    /** One prefix per claim template of every StatefulSet in the namespace; none when the listing fails. */
    method ClaimPrefixes(ns: string) returns (prefixes: seq<string>, ghost listed: bool)
      modifies this`healthy
      ensures AsSet(prefixes) == if listed then Vouched(store, ns) else {}
      ensures healthy <==> old(healthy) && listed
    {
      hide ClaimPrefix;
      hide AsSet;
      hide Vouched;
      hide OwnPrefixes;
      var ok: bool := *;
      prefixes, listed := [], ok;
      assert AsSet([]) == {} by { AsSetEmpty(); }
      healthy := healthy && ok;
      if !ok { return; }
      var todo := set id | id in store && id.gvr == STATEFUL_SETS && id.ns == ns;
      ghost var rest := store;
      while todo != {}
        invariant healthy == old(healthy)
        invariant forall id | id in todo :: id in rest && id.gvr == STATEFUL_SETS && id.ns == ns
        invariant forall id | id in rest :: id in store && rest[id] == store[id]
        invariant forall id | id in rest && id.gvr == STATEFUL_SETS && id.ns == ns :: id in todo
        invariant AsSet(prefixes) + Vouched(rest, ns) == Vouched(store, ns)
        decreases |todo|
      {
        var id :| id in todo;
        var own := SetPrefixes(store[id].templates, id.name);
        AsSetAppend(prefixes, own);
        OneMore(rest, id, ns);
        prefixes := prefixes + own;
        rest := rest - {id};
        todo := todo - {id};
      }
      NoSets(rest, ns);
      assert AsSet(prefixes) + {} == AsSet(prefixes);
    }

    /**
     Applies every object, then prunes if asked to. A deploy that fails to apply one has
     applied those before it and deletes nothing. When no call fails it succeeds if and only if
     every object is accepted, and leaves exactly the applied store, pruned. Once the StatefulSets
     were `listed` no failing call costs one of their claims.
     */
    method Apply(objects: seq<Manifest>, opts: Options) returns (ok: bool, ghost listed: bool)
      modifies this
      ensures !ok ==> exists k | 0 <= k < |objects| :: store == Applied(old(store), objects[..k], DefaultNs(opts.ns))
      ensures ok && !opts.prune ==> store == Applied(old(store), objects, DefaultNs(opts.ns))
      ensures ok && opts.prune && healthy ==>
                store == Pruned(Applied(old(store), objects, DefaultNs(opts.ns)),
                                opts.project, DefaultNs(opts.ns), opts.pvcs, Keys(objects, DefaultNs(opts.ns)))
      ensures ok ==> OnlyOrphansGone(Applied(old(store), objects, DefaultNs(opts.ns)), store,
                                     Scope(opts.project, DefaultNs(opts.ns), opts.pvcs,
                                       Keys(objects, DefaultNs(opts.ns)), {}))
      ensures ok && listed ==>
                OnlyOrphansGone(Applied(old(store), objects, DefaultNs(opts.ns)), store,
                                Scope(opts.project, DefaultNs(opts.ns), opts.pvcs, Keys(objects, DefaultNs(opts.ns)),
                                  Vouched(Applied(old(store), objects, DefaultNs(opts.ns)), DefaultNs(opts.ns))))
      ensures ok ==> AllThere(objects, if opts.ns == "" then "default" else opts.ns, store)
      ensures healthy ==> listed
      ensures healthy ==> old(healthy) && (ok <==> Acceptable(old(store), objects, DefaultNs(opts.ns)))
    {
      hide Key;
      hide Merged;
      hide Accepts;
      hide Pruned;
      hide Doomed;
      hide Target;
      hide Vouched;
      var ns := DefaultNs(opts.ns);
      var keep := {};
      listed := true;
      for i := 0 to |objects|
        invariant store == Applied(old(store), objects[..i], ns)
        invariant keep == Keys(objects[..i], ns)
        invariant healthy ==> old(healthy) && Acceptable(old(store), objects[..i], ns)
      {
        var m := objects[i];
        assert objects[..i + 1][..i] == objects[..i];
        var up := ApplyOne(Target(m, ns), m.obj);
        if !up {
          if healthy {
            NotAcceptable(old(store), objects, i, ns);
          }
          return false, listed;
        }
        KeysSnoc(objects[..i + 1], ns);
        keep := keep + {Key(Target(m, ns))};
      }
      assert objects[..|objects|] == objects;
      if opts.prune {
        listed := PruneProject(keep, opts.project, ns, opts.pvcs);
      }
      forall i, id | 0 <= i < |objects| && Goes(objects[i], ns, id) ensures id in store {
        GoesToTarget(objects[i], ns);
        AppliedThere(old(store), objects, ns, i);
        KeptIsSafe(id, opts.project, ns, opts.pvcs, keep);
      }
      return true, listed;
    }
  }

  /** Every applied object is where it goes. */
  ghost predicate AllThere(objects: seq<Manifest>, ns: string, store: Store) {
    forall i, id | 0 <= i < |objects| && Goes(objects[i], ns, id) :: id in store
  }

  lemma KeptIsSafe(id: Id, project: string, ns: string, pvcs: bool, keep: set<string>)
    requires Key(id) in keep
    ensures forall obj :: !Doomed(id, obj, Scope(project, ns, pvcs, keep, {}))
  {
  }

  /** A sweep never takes what was just applied. */
  lemma {:induction false} AppliedThere(store: Store, objects: seq<Manifest>, ns: string, i: nat)
    requires i < |objects|
    ensures Target(objects[i], ns) in Applied(store, objects, ns)
    ensures Key(Target(objects[i], ns)) in Keys(objects, ns)
  {
    hide Target;
    hide Key;
    if i < |objects| - 1 {
      AppliedThere(store, objects[..|objects| - 1], ns, i);
    }
  }

  lemma KeysSnoc(objects: seq<Manifest>, ns: string)
    requires objects != []
    ensures Keys(objects, ns) == Keys(objects[..|objects| - 1], ns) + {Key(Target(objects[|objects| - 1], ns))}
  {
  }

  lemma {:induction false} NotAcceptable(store: Store, objects: seq<Manifest>, i: nat, ns: string)
    requires i < |objects|
    requires !Accepts(Applied(store, objects[..i], ns), Target(objects[i], ns), objects[i].obj)
    ensures !Acceptable(store, objects, ns)
  {
    hide Accepts;
    hide Merged;
    if i < |objects| - 1 {
      assert objects[..|objects| - 1][..i] == objects[..i];
      NotAcceptable(store, objects[..|objects| - 1], i, ns);
    }
  }

  method SetPrefixes(ts: seq<string>, name: string) returns (prefixes: seq<string>)
    ensures AsSet(prefixes) == OwnPrefixes(ts, name)
  {
    hide ClaimPrefix;
    prefixes := [];
    for i := 0 to |ts|
      invariant AsSet(prefixes) == OwnPrefixes(ts[..i], name)
    {
      assert ts[..i + 1] == ts[..i] + [ts[i]];
      assert OwnPrefixes(ts[..i + 1], name) == OwnPrefixes(ts[..i], name) + OwnPrefixes([ts[i]], name) by {
        OwnAppend(ts[..i], [ts[i]], name);
      }
      AsSetAppend(prefixes, [ClaimPrefix(ts[i], name)]);
      assert OwnPrefixes([ts[i]], name) == if ts[i] != "" then {ClaimPrefix(ts[i], name)} else {};
      if ts[i] != "" {
        prefixes := prefixes + [ClaimPrefix(ts[i], name)];
      }
    }
    assert ts[..|ts|] == ts;
  }

  lemma OwnAppend(a: seq<string>, b: seq<string>, name: string)
    ensures OwnPrefixes(a + b, name) == OwnPrefixes(a, name) + OwnPrefixes(b, name)
  {
  }

  lemma NoSets(store: Store, ns: string)
    requires forall id | id in store && id.gvr == STATEFUL_SETS :: id.ns != ns
    ensures Vouched(store, ns) == {}
  {
  }

  lemma AsSetEmpty()
    ensures AsSet([]) == {}
  {
  }

  lemma AsSetAppend(a: seq<string>, b: seq<string>)
    ensures AsSet(a + b) == AsSet(a) + AsSet(b)
  {
  }

  ghost function AsSet(s: seq<string>): set<string> {
    set x | x in s
  }

  ghost function OwnPrefixes(ts: seq<string>, name: string): set<string> {
    set t | t in ts && t != "" :: ClaimPrefix(t, name)
  }

  /** A StatefulSet vouches for exactly its own prefixes. */
  lemma OneMore(store: Store, id: Id, ns: string)
    requires id in store && id.gvr == STATEFUL_SETS && id.ns == ns
    ensures Vouched(store, ns) == Vouched(store - {id}, ns) + OwnPrefixes(store[id].templates, id.name)
  {
  }

  /******* Laws *******/

  /** Identifiers as the API server spells them. */
  predicate Plain(id: Id) {
    '/' !in id.gvr.group && ',' !in id.gvr.version && '|' !in id.gvr.resource && '|' !in id.ns
  }

  lemma Parted(a: string, b: string, c: char, x: string, y: string)
    requires c !in a && c !in x
    requires a + [c] + b == x + [c] + y
    ensures a == x && b == y
  {
    CutIs(a, c, b);
    CutIs(x, c, y);
  }

  function Place(id: Id): string {
    id.gvr.resource + ['|'] + (id.ns + ['|'] + id.name)
  }

  const RESOURCE := " Resource="

  lemma KeyShape(id: Id)
    ensures Key(id) == id.gvr.group + ['/'] + (id.gvr.version + [','] + (RESOURCE + Place(id)))
  {
  }

  lemma PlaceInjective(a: Id, b: Id)
    requires '|' !in a.gvr.resource && '|' !in a.ns && '|' !in b.gvr.resource && '|' !in b.ns && Place(a) == Place(b)
    ensures a.gvr.resource == b.gvr.resource && a.ns == b.ns && a.name == b.name
  {
    Parted(a.gvr.resource, a.ns + ['|'] + a.name, '|', b.gvr.resource, b.ns + ['|'] + b.name);
    Parted(a.ns, a.name, '|', b.ns, b.name);
  }

  /** The keys of different objects differ, so nothing is kept on behalf of another object. */
  lemma KeyInjective(a: Id, b: Id)
    requires Plain(a) && Plain(b) && Key(a) == Key(b)
    ensures a == b
  {
    hide Key;
    hide Place;
    var word := RESOURCE;
    KeyShape(a);
    KeyShape(b);
    var va, vb := word + Place(a), word + Place(b);
    Parted(a.gvr.group, a.gvr.version + [','] + va, '/', b.gvr.group, b.gvr.version + [','] + vb);
    Parted(a.gvr.version, va, ',', b.gvr.version, vb);
    assert Place(a) == va[|word|..] == vb[|word|..] == Place(b);
    PlaceInjective(a, b);
  }

  /** Where an object goes: to the namespace it names, else to the deploy's, and to none if its kind has none. */
  ghost predicate Goes(m: Manifest, ns: string, id: Id) {
    && id.gvr == m.gvr && id.name == m.name
    && (m.ns != "" ==> id.ns == m.ns)
    && (m.ns == "" && m.namespaced ==> id.ns == ns)
    && (m.ns == "" && !m.namespaced ==> id.ns == "")
  }

  lemma GoesToTarget(m: Manifest, ns: string)
    ensures forall id :: Goes(m, ns, id) <==> Target(m, ns) == id
  {
  }

  ghost predicate Listed(id: Id, objects: seq<Manifest>, ns: string) {
    exists i | 0 <= i < |objects| :: Goes(objects[i], ns, id)
  }

  /** How the StatefulSet controller names a claim: the template, the set, and an ordinal. */
  ghost predicate ClaimName(name: string, template: string, set_: string) {
    exists digits :: digits != [] && AllDigits(digits) && name == template + "-" + set_ + "-" + digits
  }

  lemma NumberedIff(name: string, template: string, set_: string)
    ensures Numbered(name, ClaimPrefix(template, set_)) <==> ClaimName(name, template, set_)
  {
    var prefix := template + "-" + set_ + "-";
    if Numbered(name, ClaimPrefix(template, set_)) {
      var digits := name[|prefix|..];
      assert name == prefix + digits;
    }
    if ClaimName(name, template, set_) {
      var digits :| digits != [] && AllDigits(digits) && name == template + "-" + set_ + "-" + digits;
      assert name[..|prefix|] == prefix && name[|prefix|..] == digits;
    }
  }

  lemma OrdinalNames(template: string, set_: string, ordinal: nat)
    ensures ClaimName(template + "-" + set_ + "-" + Decimal(ordinal), template, set_)
  {
    var digits := Decimal(ordinal);
    assert digits != [] && AllDigits(digits);
  }

  /** The prefixes of a namespace cover exactly the names the controller gives to claims of its StatefulSets. */
  lemma CoveredIff(name: string, store: Store, ns: string)
    ensures Covered(name, Vouched(store, ns)) <==> ClaimOf(name, store, ns)
  {
    hide Numbered;
    hide ClaimPrefix;
    hide ClaimName;
    forall t, s ensures Numbered(name, ClaimPrefix(t, s)) <==> ClaimName(name, t, s) {
      NumberedIff(name, t, s);
    }
    if ClaimOf(name, store, ns) {
      var set_, t :| set_ in store && set_.gvr == STATEFUL_SETS && set_.ns == ns && t in store[set_].templates
        && t != "" && ClaimName(name, t, set_.name);
      assert ClaimPrefix(t, set_.name) in Vouched(store, ns);
    }
  }

  /** In particular, every claim of every StatefulSet of the namespace is covered. */
  lemma ClaimsAreCovered(store: Store, ns: string, set_: Id, template: string, ordinal: nat)
    requires set_ in store && set_.gvr == STATEFUL_SETS && set_.ns == ns
    requires template in store[set_].templates && template != ""
    ensures Covered(template + "-" + set_.name + "-" + Decimal(ordinal), Vouched(store, ns))
  {
    var name := template + "-" + set_.name + "-" + Decimal(ordinal);
    hide Covered;
    hide Vouched;
    hide ClaimName;
    hide Decimal;
    CoveredIff(name, store, ns);
    OrdinalNames(template, set_.name, ordinal);
    assert ClaimOf(name, store, ns);
  }

  /** So a sweep that saw the StatefulSets loses no claim of theirs, whether they are the project's or not. */
  lemma ClaimsSurvive(s0: Store, s: Store, project: string, ns: string, pvcs: bool, keep: set<string>, set_: Id,
      template: string, ordinal: nat)
    requires OnlyOrphansGone(s0, s, Scope(project, ns, pvcs, keep, Vouched(s0, ns)))
    requires set_ in s0 && set_.gvr == STATEFUL_SETS && set_.ns == ns && template in s0[set_].templates && template != ""
    ensures
      var claim := Id(CLAIMS, ns, template + "-" + set_.name + "-" + Decimal(ordinal));
      claim in s0 ==> claim in s && s[claim] == s0[claim]
  {
    hide Covered;
    hide Vouched;
    hide Decimal;
    ClaimsAreCovered(s0, ns, set_, template, ordinal);
  }

  /** A StatefulSet of the namespace has a claim template for this name. */
  ghost predicate ClaimOf(name: string, store: Store, ns: string) {
    exists set_, t :: set_ in store && set_.gvr == STATEFUL_SETS && set_.ns == ns && t in store[set_].templates
      && t != "" && ClaimName(name, t, set_.name)
  }

  /** An object the sweep looks at: labelled as orcinus' own and the project's, of a prunable kind, in the namespace. */
  ghost predicate Candidate(id: Id, store: Store, project: string, ns: string) {
    && id in store && project != "" && id.ns == ns
    && id.gvr in {DEPLOYMENTS, STATEFUL_SETS, DAEMON_SETS, SERVICES, CONFIG_MAPS, SECRETS, CLAIMS, INGRESSES}
    && Get(store[id].labels, "app.kubernetes.io/managed-by") == Some("orcinus")
    && Get(store[id].labels, "orcinus.io/project") == Some(project)
  }

  ghost predicate PlainObjects(objects: seq<Manifest>, ns: string) {
    forall i | 0 <= i < |objects| :: Plain(Target(objects[i], ns))
  }

  lemma KeptIff(objects: seq<Manifest>, ns: string, id: Id)
    requires Plain(id) && PlainObjects(objects, ns)
    ensures Key(id) in Keys(objects, ns) <==> Listed(id, objects, ns)
  {
    hide Key;
    hide Plain;
    hide Target;
    hide Goes;
    forall i | 0 <= i < |objects| ensures Goes(objects[i], ns, id) <==> Target(objects[i], ns) == id {
      GoesToTarget(objects[i], ns);
    }
    if Key(id) in Keys(objects, ns) {
      var i :| 0 <= i < |objects| && Key(Target(objects[i], ns)) == Key(id);
      KeyInjective(Target(objects[i], ns), id);
    }
  }

  /******* What applying leaves *******/

  ghost function LabelOf(store: Store, id: Id, k: string): Option<string> {
    if id in store then Get(store[id].labels, k) else None
  }

  /** What this object says the label is to be, if it goes there and says so. */
  ghost function Given(m: Manifest, ns: string, id: Id, k: string): Option<string> {
    if Goes(m, ns, id) then Get(m.obj.labels, k) else None
  }

  /** This object gives the label, and no later one does. */
  ghost predicate LastGives(objects: seq<Manifest>, ns: string, id: Id, k: string, i: nat, v: string) {
    && i < |objects| && Given(objects[i], ns, id, k) == Some(v)
    && forall j | i < j < |objects| :: Given(objects[j], ns, id, k) == None
  }

  ghost predicate NoneGives(objects: seq<Manifest>, ns: string, id: Id, k: string) {
    forall i | 0 <= i < |objects| :: Given(objects[i], ns, id, k) == None
  }

  /**
   Label by label: the last object that gives one decides, and one that no object gives stays as it was,
   whoever set it. What is there afterwards is what was there and what was applied.
   */
  lemma {:induction false} AppliedLabels(store: Store, objects: seq<Manifest>, ns: string, id: Id, k: string)
    ensures var applied := Applied(store, objects, ns);
            && (id in applied <==> id in store || Listed(id, objects, ns))
            && (forall i: nat, v | LastGives(objects, ns, id, k, i, v) :: LabelOf(applied, id, k) == Some(v))
            && (NoneGives(objects, ns, id, k) ==> LabelOf(applied, id, k) == LabelOf(store, id, k))
            && (!Listed(id, objects, ns) ==> Get(applied, id) == Get(store, id))
  {
    hide Goes;
    hide Target;
    hide Merged;
    hide LabelOf;
    hide Listed;
    hide Given;
    if objects == [] {
      assert !Listed(id, objects, ns) by { NoneListed(id, ns); }
    } else {
      var n := |objects| - 1;
      var init, m := objects[..n], objects[n];
      AppliedLabels(store, init, ns, id, k);
      GivesThere(m, ns, id, k);
      ListedSnoc(id, objects, ns);
      MergedAt(Applied(store, init, ns), Target(m, ns), m.obj, id, k);
      forall i: nat, v | LastGives(objects, ns, id, k, i, v) && i < n ensures LastGives(init, ns, id, k, i, v) {
      }
    }
  }

  lemma GivesThere(m: Manifest, ns: string, id: Id, k: string)
    ensures Goes(m, ns, id) <==> Target(m, ns) == id
    ensures Given(m, ns, id, k) == if Target(m, ns) == id then Get(m.obj.labels, k) else None
  {
  }

  lemma NoneListed(id: Id, ns: string)
    ensures !Listed(id, [], ns)
  {
  }

  lemma MergedAt(store: Store, to: Id, obj: Obj, id: Id, k: string)
    ensures var merged := Merged(store, to, obj);
            && (id in merged <==> id in store || id == to)
            && (id != to ==> Get(merged, id) == Get(store, id))
            && LabelOf(merged, id, k) ==
                  if id == to && Get(obj.labels, k).Some? then Get(obj.labels, k) else LabelOf(store, id, k)
  {
  }

  lemma ListedSnoc(id: Id, objects: seq<Manifest>, ns: string)
    requires objects != []
    ensures Listed(id, objects, ns) <==>
            Listed(id, objects[..|objects| - 1], ns) || Goes(objects[|objects| - 1], ns, id)
  {
    hide Goes;
    var init := objects[..|objects| - 1];
    if Listed(id, init, ns) {
      var i :| 0 <= i < |init| && Goes(init[i], ns, id);
      assert Goes(objects[i], ns, id);
    }
    if Listed(id, objects, ns) {
      var i :| 0 <= i < |objects| && Goes(objects[i], ns, id);
      assert i < |init| ==> Goes(init[i], ns, id);
    }
  }

  /** A StatefulSet that is there already, or was applied before in this run, keeps its claim templates. */
  ghost predicate TemplateAgrees(store: Store, objects: seq<Manifest>, ns: string, i: nat)
    requires i < |objects|
  {
    forall id | Goes(objects[i], ns, id) && id.gvr == STATEFUL_SETS ::
      && (id in store ==> store[id].templates == objects[i].obj.templates)
      && forall j | 0 <= j < i && Goes(objects[j], ns, id) :: objects[j].obj.templates == objects[i].obj.templates
  }

  ghost predicate TemplatesAgree(store: Store, objects: seq<Manifest>, ns: string) {
    forall i | 0 <= i < |objects| :: TemplateAgrees(store, objects, ns, i)
  }

  lemma AgreeSnoc(store: Store, objects: seq<Manifest>, ns: string)
    requires objects != []
    ensures TemplatesAgree(store, objects, ns) <==>
            TemplatesAgree(store, objects[..|objects| - 1], ns) && TemplateAgrees(store, objects, ns, |objects| - 1)
  {
    hide Goes;
    var n := |objects| - 1;
    var init := objects[..n];
    forall i | 0 <= i < n ensures TemplateAgrees(store, objects, ns, i) <==> TemplateAgrees(store, init, ns, i) {
      assert forall j | 0 <= j <= i :: objects[j] == init[j];
    }
  }

  ghost predicate OneTemplate(applied: Store, store: Store, objects: seq<Manifest>, ns: string, id: Id) {
    && (id in applied <==> id in store || Listed(id, objects, ns))
    && (id in store ==> applied[id].templates == store[id].templates)
    && forall i | 0 <= i < |objects| && Goes(objects[i], ns, id) :: applied[id].templates == objects[i].obj.templates
  }

  /** One object more is accepted if and only if its templates agree with those of the StatefulSet so far. */
  lemma AcceptsIff(store: Store, objects: seq<Manifest>, ns: string)
    requires objects != []
    requires
      var init := objects[..|objects| - 1];
      forall id: Id | id.gvr == STATEFUL_SETS :: OneTemplate(Applied(store, init, ns), store, init, ns, id)
    ensures
      var init, m := objects[..|objects| - 1], objects[|objects| - 1];
      var accepts := Accepts(Applied(store, init, ns), Target(m, ns), m.obj);
      && (accepts <==> TemplateAgrees(store, objects, ns, |objects| - 1))
      && (accepts ==> forall id: Id | id.gvr == STATEFUL_SETS ::
            OneTemplate(Applied(store, objects, ns), store, objects, ns, id))
  {
    hide Goes;
    hide Target;
    hide Listed;
    var n := |objects| - 1;
    var init, m := objects[..n], objects[n];
    var before, to := Applied(store, init, ns), Target(m, ns);
    GoesToTarget(m, ns);
    assert forall j | 0 <= j < n :: objects[j] == init[j];
    if to.gvr == STATEFUL_SETS {
      assert OneTemplate(before, store, init, ns, to);
      if to in before {
        NamedBefore(to, init, ns);
      }
    }
    if Accepts(before, to, m.obj) {
      forall id: Id | id.gvr == STATEFUL_SETS ensures OneTemplate(Applied(store, objects, ns), store, objects, ns, id) {
        ListedSnoc(id, objects, ns);
        assert OneTemplate(before, store, init, ns, id);
        if id == to && id !in before {
          NotNamedBefore(id, init, ns);
        }
      }
    }
  }

  lemma NamedBefore(id: Id, objects: seq<Manifest>, ns: string)
    ensures Listed(id, objects, ns) ==> exists j :: 0 <= j < |objects| && Goes(objects[j], ns, id)
  {
  }

  lemma NotNamedBefore(id: Id, objects: seq<Manifest>, ns: string)
    requires !Listed(id, objects, ns)
    ensures forall j | 0 <= j < |objects| :: !Goes(objects[j], ns, id)
  {
  }

  /** Every object is accepted in its turn if and only if no claim templates would have to change. */
  lemma {:induction false} AcceptableIff(store: Store, objects: seq<Manifest>, ns: string)
    ensures Acceptable(store, objects, ns) <==> TemplatesAgree(store, objects, ns)
    ensures Acceptable(store, objects, ns) ==>
              forall id: Id | id.gvr == STATEFUL_SETS :: OneTemplate(Applied(store, objects, ns), store, objects, ns, id)
  {
    hide Goes;
    hide Accepts;
    hide TemplateAgrees;
    if objects == [] {
      assert forall id :: !Listed(id, [], ns);
    } else {
      var init := objects[..|objects| - 1];
      AgreeSnoc(store, objects, ns);
      AcceptableIff(store, init, ns);
      if Acceptable(store, init, ns) {
        AcceptsIff(store, objects, ns);
      }
    }
  }

  /**
   The sweep, exactly, whatever prefixes it was given: a candidate survives if and only if it was
   applied, or is a claim and claims are not pruned or a prefix covers it. All else is untouched.
   */
  lemma SweepExact(store: Store, objects: seq<Manifest>, project: string, ns: string, pvcs: bool,
      prefixes: set<string>, id: Id)
    requires id in store && Plain(id) && PlainObjects(objects, ns)
    ensures var left := Without(store, Scope(project, ns, pvcs, Keys(objects, ns), prefixes));
            && (id in left ==> left[id] == store[id])
            && (Candidate(id, store, project, ns) ==>
                  (id in left <==>
                     Listed(id, objects, ns) || (id.gvr == CLAIMS && (!pvcs || Covered(id.name, prefixes)))))
            && (!Candidate(id, store, project, ns) ==> id in left)
  {
    hide Key;
    hide Keys;
    hide Covered;
    hide Target;
    KeptIff(objects, ns, id);
    PrunableKinds(id.gvr);
  }

  lemma PrunableKinds(gvr: Gvr)
    ensures gvr in PRUNABLE <==>
        gvr in {DEPLOYMENTS, STATEFUL_SETS, DAEMON_SETS, SERVICES, CONFIG_MAPS, SECRETS, CLAIMS, INGRESSES}
  {
    assert PRUNABLE[0] == DEPLOYMENTS && PRUNABLE[1] == STATEFUL_SETS && PRUNABLE[2] == DAEMON_SETS
      && PRUNABLE[3] == SERVICES && PRUNABLE[4] == CONFIG_MAPS && PRUNABLE[5] == SECRETS && PRUNABLE[6] == CLAIMS
      && PRUNABLE[7] == INGRESSES;
  }

  /**
   A healthy sweep: a candidate survives if and only if it was applied, or is a claim and claims are
   not pruned, or is a claim of a StatefulSet present when the sweep began, even of one that the
   same sweep deletes. All else is untouched.
   */
  lemma PruneExact(store: Store, objects: seq<Manifest>, project: string, ns: string, pvcs: bool, id: Id)
    requires id in store && Plain(id) && PlainObjects(objects, ns)
    ensures var left := Pruned(store, project, ns, pvcs, Keys(objects, ns));
            && (id in left ==> left[id] == store[id])
            && (Candidate(id, store, project, ns) ==>
                  (id in left <==>
                     Listed(id, objects, ns) || (id.gvr == CLAIMS && (!pvcs || ClaimOf(id.name, store, ns)))))
            && (!Candidate(id, store, project, ns) ==> id in left)
  {
    hide Candidate;
    hide Without;
    hide Covered;
    hide ClaimOf;
    SweepExact(store, objects, project, ns, pvcs, Vouched(store, ns), id);
    CoveredIff(id.name, store, ns);
  }

  /**
   A sweep whose StatefulSet listing failed loses more than a healthy one in exactly one case: claims
   are pruned and the object is a claim, not applied, of a StatefulSet that is there.
   */
  lemma FailedListingIff(store: Store, objects: seq<Manifest>, project: string, ns: string, pvcs: bool, id: Id)
    requires Candidate(id, store, project, ns) && Plain(id) && PlainObjects(objects, ns)
    ensures
      var blind := Without(store, Scope(project, ns, pvcs, Keys(objects, ns), {}));
      var healthy := Pruned(store, project, ns, pvcs, Keys(objects, ns));
      && (id in blind <==> Listed(id, objects, ns) || (id.gvr == CLAIMS && !pvcs))
      && (id in blind ==> id in healthy)
      && (id in healthy && id !in blind <==>
            pvcs && id.gvr == CLAIMS && !Listed(id, objects, ns) && ClaimOf(id.name, store, ns))
  {
    hide Without;
    hide Pruned;
    hide Owned;
    SweepExact(store, objects, project, ns, pvcs, {}, id);
    PruneExact(store, objects, project, ns, pvcs, id);
  }

  /** A claim that is owned but never applied: what a StatefulSet controller leaves behind. */
  ghost predicate LooseClaim(id: Id, store: Store, objects: seq<Manifest>, project: string, ns: string) {
    && id in store && id.gvr == CLAIMS && id.ns == ns && Owned(store[id].labels, project) && project != ""
    && Plain(id) && !Listed(id, objects, ns) && PlainObjects(objects, ns)
  }

  /** A StatefulSet of the namespace that no sweep of the project deletes has a claim template for this name. */
  ghost predicate LastingClaimOf(name: string, store: Store, objects: seq<Manifest>, project: string, ns: string) {
    exists set_, t :: set_ in store && set_.gvr == STATEFUL_SETS && set_.ns == ns && t in store[set_].templates
      && t != "" && ClaimName(name, t, set_.name)
      && (Listed(set_, objects, ns) || !Owned(store[set_].labels, project))
  }

  /** What is left of the claim's StatefulSets after one sweep are those no sweep deletes. */
  lemma ClaimOfOnce(store: Store, objects: seq<Manifest>, project: string, ns: string, name: string)
    requires project != "" && PlainObjects(objects, ns) && forall x | x in store && x.gvr == STATEFUL_SETS
        && x.ns == ns :: Plain(x)
    ensures ClaimOf(name, Pruned(store, project, ns, true, Keys(objects, ns)), ns) <==>
            LastingClaimOf(name, store, objects, project, ns)
  {
    hide Pruned;
    hide ClaimName;
    hide Key;
    hide Keys;
    hide Plain;
    hide Target;
    hide Listed;
    var once := Pruned(store, project, ns, true, Keys(objects, ns));
    assert STATEFUL_SETS in PRUNABLE && STATEFUL_SETS != CLAIMS by { SetsArePrunable(); }
    if ClaimOf(name, once, ns) {
      var set_, t :| set_ in once && set_.gvr == STATEFUL_SETS && set_.ns == ns && t in once[set_].templates && t != ""
        && ClaimName(name, t, set_.name);
      PrunedKeeps(store, project, ns, true, Keys(objects, ns), set_);
      PruneExact(store, objects, project, ns, true, set_);
    }
    if LastingClaimOf(name, store, objects, project, ns) {
      var set_, t :| set_ in store && set_.gvr == STATEFUL_SETS && set_.ns == ns && t in store[set_].templates
        && t != "" && ClaimName(name, t, set_.name)
        && (Listed(set_, objects, ns) || !Owned(store[set_].labels, project));
      PruneExact(store, objects, project, ns, true, set_);
      assert set_ in once && once[set_] == store[set_];
    }
  }

  lemma SetsArePrunable()
    ensures STATEFUL_SETS in PRUNABLE && STATEFUL_SETS != CLAIMS
  {
    assert PRUNABLE[1] == STATEFUL_SETS;
    assert STATEFUL_SETS.group[0] == 'a';
  }

  /**
   With claims pruned too, a loose claim outlives two sweeps if and only if a StatefulSet with a
   template for it is listed or is not the project's: a set the first sweep deletes no longer counts.
   */
  lemma TwiceIff(store: Store, objects: seq<Manifest>, project: string, ns: string, id: Id)
    requires LooseClaim(id, store, objects, project, ns)
    requires forall x | x in store && x.gvr == STATEFUL_SETS && x.ns == ns :: Plain(x)
    ensures var once := Pruned(store, project, ns, true, Keys(objects, ns));
            id in Pruned(once, project, ns, true, Keys(objects, ns)) <==>
              LastingClaimOf(id.name, store, objects, project, ns)
  {
    hide Pruned;
    hide ClaimName;
    hide Key;
    hide Plain;
    hide Target;
    hide LastingClaimOf;
    var once := Pruned(store, project, ns, true, Keys(objects, ns));
    assert id.gvr in PRUNABLE;
    ClaimOfOnce(store, objects, project, ns, id.name);
    PruneExact(store, objects, project, ns, true, id);
    if ClaimOf(id.name, once, ns) {
      var set_, t :| set_ in once && set_.gvr == STATEFUL_SETS && set_.ns == ns && t in once[set_].templates && t != ""
        && ClaimName(id.name, t, set_.name);
      PrunedKeeps(store, project, ns, true, Keys(objects, ns), set_);
      assert ClaimOf(id.name, store, ns);
    }
    if id in once {
      PruneExact(once, objects, project, ns, true, id);
    } else {
      PrunedShrinks(once, project, ns, true, Keys(objects, ns));
    }
  }

  lemma PrunedKeeps(store: Store, project: string, ns: string, pvcs: bool, keep: set<string>, id: Id)
    requires id in Pruned(store, project, ns, pvcs, keep)
    ensures id in store && store[id] == Pruned(store, project, ns, pvcs, keep)[id]
  {
  }

  lemma PrunedShrinks(store: Store, project: string, ns: string, pvcs: bool, keep: set<string>)
    ensures Pruned(store, project, ns, pvcs, keep).Keys <= store.Keys
  {
  }

  /** A set and one claim of its template, both owned. */
  ghost function SetAndClaim(labels: map<string, string>, ns: string, name: string, template: string,
      ordinal: nat): Store {
    map[Id(STATEFUL_SETS, ns, name) := Obj(labels, [template], labels),
        Id(CLAIMS, ns, template + "-" + name + "-" + Decimal(ordinal)) := Obj(labels, [], map[])]
  }

  /** Whatever the names: a set no longer listed takes its claims along, one sweep later. */
  lemma SecondPruneLosesClaims(labels: map<string, string>, project: string, ns: string, name: string,
      template: string, ordinal: nat)
    requires Owned(labels, project) && project != "" && template != ""
    ensures var store := SetAndClaim(labels, ns, name, template, ordinal);
            var once := Pruned(store, project, ns, true, {});
            && once.Keys == {Id(CLAIMS, ns, template + "-" + name + "-" + Decimal(ordinal))}
            && Pruned(once, project, ns, true, {}) == map[]
  {
    hide Owned;
    hide Key;
    hide Decimal;
    hide Numbered;
    hide ClaimPrefix;
    var store := SetAndClaim(labels, ns, name, template, ordinal);
    var set_ := Id(STATEFUL_SETS, ns, name);
    var claim := Id(CLAIMS, ns, template + "-" + name + "-" + Decimal(ordinal));
    assert STATEFUL_SETS in PRUNABLE && CLAIMS in PRUNABLE;
    assert store[set_].templates == [template];
    ClaimsAreCovered(store, ns, set_, template, ordinal);
    var once := Pruned(store, project, ns, true, {});
    assert once.Keys == {claim};
    NoSets(once, ns);
  }

  /** When the StatefulSets cannot be listed, nothing vouches: the claim goes although its set is kept. */
  lemma FailedListingLosesClaims(labels: map<string, string>, project: string, ns: string, name: string,
      template: string, ordinal: nat)
    requires Owned(labels, project) && project != ""
    ensures var store := SetAndClaim(labels, ns, name, template, ordinal);
            var set_ := Id(STATEFUL_SETS, ns, name);
            Without(store, Scope(project, ns, true, {Key(set_)}, {})) == map[set_ := store[set_]]
  {
  }
}
