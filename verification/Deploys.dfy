/**
 Any number of deploys over one cluster, interleaved call by call with each other and with the
 StatefulSet controller. Every API call of a deploy may fail.
 */
module Deploys {
  import opened Common
  import opened Text
  import opened Prune

  /** Where a deploy is: at its i-th object, about to list the StatefulSets, or at the g-th kind of its sweep. */
  datatype Phase =
    | Applying(i: nat)
    | Collecting
    | Visiting(prefixes: set<string>, g: nat)
    | Deleting(prefixes: set<string>, g: nat, todo: seq<Id>)
    | Finished

  datatype Deploy = Deploy(objects: seq<Manifest>, opts: Options, phase: Phase)
  datatype System = System(store: Store, deploys: map<nat, Deploy>)

  /** One API call of a deploy with its outcome, the start of a deploy, or one claim made by the controller. */
  datatype Step =
    | Start(d: nat, objects: seq<Manifest>, opts: Options)
    | ApplyNext(d: nat, ok: bool)
    | Collect(d: nat, ok: bool)
    | ListKind(d: nat, ok: bool, items: seq<Id>)
    | DeleteNext(d: nat, ok: bool)
    | MakeClaim(owner: Id, template: string, ordinal: nat)

  function Ns(d: Deploy): string {
    DefaultNs(d.opts.ns)
  }

  function At(s: System, d: nat, phase: Phase): System
    requires d in s.deploys
  {
    s.(deploys := s.deploys[d := s.deploys[d].(phase := phase)])
  }

  /** The next apply; a failed one ends the deploy, and after the last one the sweep begins if there is one. */
  function DoApply(s: System, d: nat, ok: bool): System
    requires d in s.deploys && s.deploys[d].phase.Applying?
  {
    var it := s.deploys[d];
    var i := it.phase.i;
    if i < |it.objects| then
      var id, obj := Target(it.objects[i], Ns(it)), it.objects[i].obj;
      if ok && Accepts(s.store, id, obj) then At(s, d, Applying(i + 1)).(store := Merged(s.store, id, obj))
      else At(s, d, Finished)
    else if it.opts.prune && it.opts.project != "" then At(s, d, Collecting)
    else At(s, d, Finished)
  }

  ghost predicate IsListing(s: System, it: Deploy, gvr: Gvr, items: seq<Id>) {
    forall id :: id in items <==>
        id in s.store && id.gvr == gvr && id.ns == Ns(it) && Owned(s.store[id].labels, it.opts.project)
  }

  ghost function DoList(s: System, d: nat, ok: bool, items: seq<Id>): System
    requires d in s.deploys && s.deploys[d].phase.Visiting?
  {
    var it := s.deploys[d];
    var g := it.phase.g;
    if g >= |PRUNABLE| then At(s, d, Finished)
    else if !ok || (PRUNABLE[g] == CLAIMS && !it.opts.pvcs) then At(s, d, Visiting(it.phase.prefixes, g + 1))
    else if IsListing(s, it, PRUNABLE[g], items) then At(s, d, Deleting(it.phase.prefixes, g, items))
    else s
  }

  /** Neither kept nor a claim some listed StatefulSet vouches for. */
  ghost predicate Expendable(it: Deploy, id: Id)
    requires it.phase.Deleting?
  {
    && Key(id) !in Keys(it.objects, Ns(it))
    && !(id.gvr == CLAIMS && Covered(id.name, it.phase.prefixes))
  }

  ghost function DoDelete(s: System, d: nat, ok: bool): System
    requires d in s.deploys && s.deploys[d].phase.Deleting?
  {
    var it := s.deploys[d];
    var Deleting(prefixes, g, todo) := it.phase;
    if todo == [] then At(s, d, Visiting(prefixes, g + 1))
    else
      var left := At(s, d, Deleting(prefixes, g, todo[1..]));
      if Expendable(it, todo[0]) && ok then left.(store := s.store - {todo[0]}) else left
  }

  function ClaimId(owner: Id, template: string, ordinal: nat): Id {
    Id(CLAIMS, owner.ns, template + "-" + owner.name + "-" + Decimal(ordinal))
  }

  /** The controller makes a claim of a StatefulSet's template unless there is one of that name. */
  function DoClaim(s: System, owner: Id, template: string, ordinal: nat): System {
    if owner in s.store && owner.gvr == STATEFUL_SETS && template in s.store[owner].templates
       && ClaimId(owner, template, ordinal) !in s.store
    then s.(store := s.store[ClaimId(owner, template, ordinal) := Obj(s.store[owner].claimLabels, [], map[])])
    else s
  }

  /** A step that is not enabled changes nothing. */
  ghost function Do(s: System, e: Step): System {
    match e
    case Start(d, objects, opts) =>
      if d in s.deploys then s else s.(deploys := s.deploys[d := Deploy(objects, opts, Applying(0))])
    case ApplyNext(d, ok) =>
      if d in s.deploys && s.deploys[d].phase.Applying? then DoApply(s, d, ok) else s
    case Collect(d, ok) =>
      if d in s.deploys && s.deploys[d].phase.Collecting?
      then At(s, d, Visiting(if ok then Vouched(s.store, Ns(s.deploys[d])) else {}, 0)) else s
    case ListKind(d, ok, items) =>
      if d in s.deploys && s.deploys[d].phase.Visiting? then DoList(s, d, ok, items) else s
    case DeleteNext(d, ok) =>
      if d in s.deploys && s.deploys[d].phase.Deleting? then DoDelete(s, d, ok) else s
    case MakeClaim(owner, template, ordinal) => DoClaim(s, owner, template, ordinal)
  }

  ghost function Run(s: System, steps: seq<Step>): System {
    if steps == [] then s else Do(Run(s, steps[..|steps| - 1]), steps[|steps| - 1])
  }

  /******* Deploys that do not prune claims *******/

  /** A sweep holds objects of the kind it is at, in its namespace, and claims only if it may delete claims. */
  ghost predicate InScope(it: Deploy) {
    it.phase.Deleting? ==>
      && it.phase.g < |PRUNABLE|
      && (forall id | id in it.phase.todo :: id.gvr == PRUNABLE[it.phase.g] && id.ns == Ns(it))
      && (PRUNABLE[it.phase.g] == CLAIMS ==> it.opts.pvcs)
  }

  ghost predicate Scoped(s: System) {
    forall d | d in s.deploys :: InScope(s.deploys[d])
  }

  lemma ScopedStep(s: System, e: Step)
    requires Scoped(s)
    ensures Scoped(Do(s, e))
  {
    hide Key;
    hide Owned;
    hide Covered;
    hide Vouched;
    hide Merged;
    hide Accepts;
    hide ClaimId;
  }

  /** Only a deploy that prunes claims can make a claim disappear, and then in its own namespace. */
  lemma OnlyPrunersDelete(s: System, e: Step, id: Id)
    requires Scoped(s) && id in s.store && id !in Do(s, e).store
    ensures e.DeleteNext? && e.d in s.deploys && id.ns == Ns(s.deploys[e.d])
        && (id.gvr == CLAIMS ==> s.deploys[e.d].opts.pvcs)
  {
    hide Key;
    hide Owned;
    hide Covered;
    hide Vouched;
    hide Accepts;
    hide ClaimId;
  }

  lemma {:induction false} ScopedRun(s: System, steps: seq<Step>)
    requires Scoped(s)
    ensures Scoped(Run(s, steps))
  {
    hide Do;
    if steps != [] {
      ScopedRun(s, steps[..|steps| - 1]);
      ScopedStep(Run(s, steps[..|steps| - 1]), steps[|steps| - 1]);
    }
  }

  ghost predicate KeepsClaims(s: System) {
    forall d | d in s.deploys :: !s.deploys[d].opts.pvcs
  }

  lemma KeepsClaimsStep(s: System, e: Step)
    requires KeepsClaims(s) && (e.Start? ==> !e.opts.pvcs)
    ensures KeepsClaims(Do(s, e))
  {
    hide Key;
    hide Owned;
    hide Covered;
    hide Vouched;
    hide Merged;
    hide Accepts;
    hide ClaimId;
  }

  /** In no run of deploys with claim pruning off does a claim disappear. */
  lemma {:induction false} NoClaimIsDeleted(s: System, steps: seq<Step>, id: Id)
    requires Scoped(s) && KeepsClaims(s) && id in s.store && id.gvr == CLAIMS
    requires forall i | 0 <= i < |steps| && steps[i].Start? :: !steps[i].opts.pvcs
    ensures KeepsClaims(Run(s, steps)) && id in Run(s, steps).store
  {
    hide Do;
    if steps != [] {
      var init, e := steps[..|steps| - 1], steps[|steps| - 1];
      NoClaimIsDeleted(s, init, id);
      ScopedRun(s, init);
      KeepsClaimsStep(Run(s, init), e);
      if id !in Do(Run(s, init), e).store {
        OnlyPrunersDelete(Run(s, init), e, id);
      }
    }
  }

  /******* Deploys that do *******/

  /** The StatefulSet and claim template under guard, with the project they belong to. */
  datatype Guard = Guard(project: string, ns: string, name: string, template: string)

  function SetId(k: Guard): Id {
    Id(STATEFUL_SETS, k.ns, k.name)
  }

  /** "<template>-<set>-<ordinal>". */
  ghost predicate Guarded(id: Id, k: Guard) {
    id.gvr == CLAIMS && id.ns == k.ns && ClaimName(id.name, k.template, k.name)
  }

  /** Not labelled as another project's. */
  predicate Mine(labels: map<string, string>, k: Guard) {
    PROJECT in labels ==> labels[PROJECT] == k.project
  }

  /** The claims a StatefulSet gets under guarded names are not labelled as another project's. */
  ghost predicate BreedsMine(id: Id, obj: Obj, k: Guard) {
    forall t, n: nat | t in obj.templates && Guarded(ClaimId(id, t, n), k) :: Mine(obj.claimLabels, k)
  }

  /** What the guard asks of one object, wherever it comes from. */
  ghost predicate Fair(id: Id, obj: Obj, k: Guard) {
    && (id == SetId(k) ==> k.template in obj.templates && Mine(obj.labels, k))
    && (Guarded(id, k) ==> Mine(obj.labels, k))
    && (id.gvr == STATEFUL_SETS ==> BreedsMine(id, obj, k))
  }

  ghost predicate SweepsFor(opts: Options, k: Guard) {
    opts.prune && opts.project == k.project && DefaultNs(opts.ns) == k.ns
  }

  /** Every pruning deploy of the project lists the set, and every deploy's objects are fair. */
  ghost predicate Honest(objects: seq<Manifest>, opts: Options, k: Guard) {
    && (SweepsFor(opts, k) ==> Listed(SetId(k), objects, k.ns))
    && forall i | 0 <= i < |objects| :: Fair(Target(objects[i], DefaultNs(opts.ns)), objects[i].obj, k)
  }

  /** A deploy of the project that has applied the set, and never forgets that it vouches for its claims. */
  ghost predicate DeployOk(it: Deploy, store: Store, k: Guard) {
    && InScope(it)
    && Honest(it.objects, it.opts, k)
    && (it.phase.Applying? ==>
          it.phase.i <= |it.objects| && (Listed(SetId(k), it.objects[..it.phase.i], Ns(it)) ==> SetId(k) in store))
    && (!it.phase.Applying? && !it.phase.Finished? ==> it.opts.prune)
    && (SweepsFor(it.opts, k) && !it.phase.Applying? && !it.phase.Finished? ==> SetId(k) in store)
    && (SweepsFor(it.opts, k) && (it.phase.Visiting? || it.phase.Deleting?) ==>
          forall name | ClaimName(name, k.template, k.name) :: Covered(name, it.phase.prefixes))
    && (it.phase.Deleting? && it.opts.project != k.project ==>
          forall id | id in it.phase.todo :: id != SetId(k) && !Guarded(id, k))
  }

  ghost predicate StoreOk(store: Store, k: Guard) {
    forall id | id in store :: Fair(id, store[id], k)
  }

  ghost predicate Inv(s: System, k: Guard) {
    StoreOk(s.store, k) && forall d | d in s.deploys :: DeployOk(s.deploys[d], s.store, k)
  }

  /** The conditions on one step: starts are honest, and StatefulSet listings succeed. */
  ghost predicate Allowed(e: Step, k: Guard) {
    (e.Start? ==> Honest(e.objects, e.opts, k)) && (e.Collect? ==> e.ok)
  }

  /** Nothing under guard is gone. */
  ghost predicate StillThere(s: Store, t: Store, k: Guard) {
    forall id | id in s && (id == SetId(k) || Guarded(id, k)) :: id in t
  }

  /** Changing one deploy's phase and only adding to the store keeps the invariant if that deploy's part holds. */
  lemma OneMoves(s: System, t: System, d: nat, phase: Phase, k: Guard)
    requires Inv(s, k) && d in s.deploys && t == At(s, d, phase).(store := t.store)
    requires StoreOk(t.store, k) && StillThere(s.store, t.store, k)
    requires DeployOk(t.deploys[d], t.store, k)
    ensures Inv(t, k)
  {
  }

  /** Applying a fair object leaves a fair store. */
  lemma MergedFair(store: Store, id: Id, obj: Obj, k: Guard)
    requires StoreOk(store, k) && Fair(id, obj, k)
    ensures StoreOk(Merged(store, id, obj), k)
  {
  }

  lemma ListedSnoc(id: Id, objects: seq<Manifest>, i: nat, ns: string)
    requires i < |objects| && Listed(id, objects[..i + 1], ns)
    ensures Listed(id, objects[..i], ns) || Target(objects[i], ns) == id
  {
  }

  lemma ApplyKeeps(s: System, d: nat, ok: bool, k: Guard)
    requires Inv(s, k) && d in s.deploys && s.deploys[d].phase.Applying?
    ensures Inv(DoApply(s, d, ok), k) && StillThere(s.store, DoApply(s, d, ok).store, k)
  {
    hide Fair;
    hide Guarded;
    hide Listed;
    hide Accepts;
    hide StoreOk;
    hide Target;
    hide SweepsFor;
    var it, t := s.deploys[d], DoApply(s, d, ok);
    var i := it.phase.i;
    assert DeployOk(it, s.store, k);
    if i < |it.objects| {
      var id, obj := Target(it.objects[i], Ns(it)), it.objects[i].obj;
      if ok && Accepts(s.store, id, obj) {
        MergedFair(s.store, id, obj, k);
        if Listed(SetId(k), it.objects[..i + 1], Ns(it)) {
          ListedSnoc(SetId(k), it.objects, i, Ns(it));
        }
        OneMoves(s, t, d, Applying(i + 1), k);
      } else {
        OneMoves(s, t, d, Finished, k);
      }
    } else {
      assert it.objects[..i] == it.objects;
      assert SweepsFor(it.opts, k) ==> Ns(it) == k.ns by { SweepsNs(it, k); }
      OneMoves(s, t, d, t.deploys[d].phase, k);
    }
  }

  lemma SweepsNs(it: Deploy, k: Guard)
    ensures SweepsFor(it.opts, k) ==> Ns(it) == k.ns && it.opts.project == k.project && it.opts.prune
    ensures Ns(it) == k.ns && it.opts.project == k.project && it.opts.prune ==> SweepsFor(it.opts, k)
  {
  }

  /** Collecting sees the set, because the deploy has applied it and nobody deletes it. */
  lemma CollectKeeps(s: System, d: nat, k: Guard)
    requires Inv(s, k) && k.template != "" && d in s.deploys && s.deploys[d].phase.Collecting?
    ensures Inv(At(s, d, Visiting(Vouched(s.store, Ns(s.deploys[d])), 0)), k)
  {
    hide Vouched;
    hide Covered;
    hide ClaimName;
    hide Honest;
    var it, t := s.deploys[d], At(s, d, Visiting(Vouched(s.store, Ns(s.deploys[d])), 0));
    assert DeployOk(it, s.store, k);
    if SweepsFor(it.opts, k) {
      forall name | ClaimName(name, k.template, k.name) ensures Covered(name, Vouched(s.store, Ns(it))) {
        CoveredIff(name, s.store, Ns(it));
      }
    }
    OneMoves(s, t, d, t.deploys[d].phase, k);
  }

  /** A listing of another project's objects holds nothing under guard. */
  lemma ListKeeps(s: System, d: nat, ok: bool, items: seq<Id>, k: Guard)
    requires Inv(s, k) && d in s.deploys && s.deploys[d].phase.Visiting?
    ensures Inv(DoList(s, d, ok, items), k)
  {
    hide Guarded;
    hide Honest;
    hide BreedsMine;
    hide ClaimPrefix;
    hide Listed;
    hide Vouched;
    hide SweepsFor;
    var it, t := s.deploys[d], DoList(s, d, ok, items);
    assert DeployOk(it, s.store, k);
    if t != s {
      if t.deploys[d].phase.Deleting? && it.opts.project != k.project {
        forall id | id in items ensures id != SetId(k) && !Guarded(id, k) {
          assert Fair(id, s.store[id], k);
        }
      }
      OneMoves(s, t, d, t.deploys[d].phase, k);
    }
  }

  /** What is under guard is never expendable to a deploy of its own project. */
  lemma NotExpendable(s: System, d: nat, k: Guard)
    requires Inv(s, k) && d in s.deploys && s.deploys[d].phase.Deleting? && s.deploys[d].phase.todo != []
    requires var id := s.deploys[d].phase.todo[0]; id == SetId(k) || Guarded(id, k)
    ensures !Expendable(s.deploys[d], s.deploys[d].phase.todo[0])
  {
    hide Key;
    hide Covered;
    hide ClaimName;
    hide Fair;
    hide Target;
    var it := s.deploys[d];
    var id := it.phase.todo[0];
    assert DeployOk(it, s.store, k);
    assert SweepsFor(it.opts, k);
    if id == SetId(k) {
      var i :| 0 <= i < |it.objects| && Goes(it.objects[i], k.ns, id);
      GoesToTarget(it.objects[i], k.ns);
      assert Key(Target(it.objects[i], Ns(it))) in Keys(it.objects, Ns(it));
    }
  }

  lemma DeleteKeeps(s: System, d: nat, ok: bool, k: Guard)
    requires Inv(s, k) && d in s.deploys && s.deploys[d].phase.Deleting?
    ensures Inv(DoDelete(s, d, ok), k) && StillThere(s.store, DoDelete(s, d, ok).store, k)
  {
    hide Guarded;
    hide Honest;
    hide Fair;
    hide ClaimPrefix;
    hide Expendable;
    hide SweepsFor;
    var it, t := s.deploys[d], DoDelete(s, d, ok);
    assert DeployOk(it, s.store, k);
    var todo := it.phase.todo;
    if todo != [] {
      if todo[0] == SetId(k) || Guarded(todo[0], k) {
        NotExpendable(s, d, k);
      }
      forall id | id in todo[1..] ensures id in todo {
      }
    }
    OneMoves(s, t, d, t.deploys[d].phase, k);
  }

  lemma ClaimKeeps(s: System, owner: Id, template: string, ordinal: nat, k: Guard)
    requires Inv(s, k)
    ensures Inv(DoClaim(s, owner, template, ordinal), k)
        && StillThere(s.store, DoClaim(s, owner, template, ordinal).store, k)
  {
  }

  lemma StartKeeps(s: System, d: nat, objects: seq<Manifest>, opts: Options, k: Guard)
    requires Inv(s, k) && Honest(objects, opts, k) && d !in s.deploys
    ensures Inv(s.(deploys := s.deploys[d := Deploy(objects, opts, Applying(0))]), k)
  {
  }

  lemma StepKeeps(s: System, e: Step, k: Guard)
    requires Inv(s, k) && Allowed(e, k) && k.template != ""
    ensures Inv(Do(s, e), k) && StillThere(s.store, Do(s, e).store, k)
  {
    hide Inv;
    hide Guarded;
    hide DoApply;
    hide DoList;
    hide DoDelete;
    hide DoClaim;
    hide Honest;
    if Do(s, e) != s {
      match e {
        case Start(d, objects, opts) => StartKeeps(s, d, objects, opts, k);
        case ApplyNext(d, ok) => ApplyKeeps(s, d, ok, k);
        case Collect(d, ok) => CollectKeeps(s, d, k);
        case ListKind(d, ok, items) =>
          ListKeeps(s, d, ok, items, k);
          assert DoList(s, d, ok, items).store == s.store by { ListStore(s, d, ok, items); }
        case DeleteNext(d, ok) => DeleteKeeps(s, d, ok, k);
        case MakeClaim(owner, template, ordinal) => ClaimKeeps(s, owner, template, ordinal, k);
      }
    }
  }

  lemma ListStore(s: System, d: nat, ok: bool, items: seq<Id>)
    requires d in s.deploys && s.deploys[d].phase.Visiting?
    ensures DoList(s, d, ok, items).store == s.store
  {
  }

  /**
   In every interleaving, while each pruning deploy of the project lists the StatefulSet with its
   claim template, nobody labels the set or its claims as another project's, and StatefulSet
   listings succeed, neither the set nor any claim "<template>-<set>-<ordinal>" disappears,
   from whatever point of the run it exists.
   */
  lemma {:induction false} ClaimsAreSafe(s: System, steps: seq<Step>, k: Guard)
    requires Inv(s, k) && k.template != ""
    requires forall i | 0 <= i < |steps| :: Allowed(steps[i], k)
    ensures Inv(Run(s, steps), k)
    ensures forall j | 0 <= j <= |steps| :: StillThere(Run(s, steps[..j]).store, Run(s, steps).store, k)
  {
    hide Do;
    hide Inv;
    hide Allowed;
    hide Guarded;
    if steps == [] {
      assert steps[..0] == steps;
    } else {
      var init, e := steps[..|steps| - 1], steps[|steps| - 1];
      ClaimsAreSafe(s, init, k);
      StepKeeps(Run(s, init), e, k);
      forall j | 0 <= j <= |steps| ensures StillThere(Run(s, steps[..j]).store, Run(s, steps).store, k) {
        if j < |steps| {
          assert steps[..j] == init[..j];
        } else {
          assert steps[..j] == steps;
        }
      }
    }
  }

  /** A cluster with nothing running is a starting point as soon as its store is fair. */
  lemma IdleStart(store: Store, k: Guard)
    ensures Inv(System(store, map[]), k) <==> StoreOk(store, k)
    ensures Scoped(System(store, map[])) && KeepsClaims(System(store, map[]))
  {
  }
}
