/** One deploy with nothing beside it and no failing call does what the reconciler of module Prune promises. */
module DeployAlone {
  import opened Common
  import opened Prune
  import opened Deploys

  ghost function Kinds(g: nat): set<Gvr>
    requires g <= |PRUNABLE|
  {
    set gvr | gvr in PRUNABLE[..g]
  }

  ghost function ScopeOf(it: Deploy, prefixes: set<string>): Scope {
    Scope(it.opts.project, Ns(it), it.opts.pvcs, Keys(it.objects, Ns(it)), prefixes)
  }

  ghost function Ready(it: Deploy, s0: Store): Store {
    Applied(s0, it.objects, Ns(it))
  }

  /** What a finished deploy leaves. */
  ghost function Outcome(it: Deploy, s0: Store): Store {
    var a := Ready(it, s0);
    if it.opts.prune then Pruned(a, it.opts.project, Ns(it), it.opts.pvcs, Keys(it.objects, Ns(it))) else a
  }

  /** Orphans of the kind being visited are still to be deleted, and nothing else is. */
  ghost predicate Pending(store: Store, gvr: Gvr, todo: seq<Id>, c: Scope) {
    && (forall id | id in todo ::
        id.gvr == gvr && id.ns == c.ns && (id in store ==> Owned(store[id].labels, c.project)))
    && (forall id | id in store && id.gvr == gvr && Orphan(id, store[id], c) :: id in todo)
  }

  /** The sweep is past g kinds. */
  ghost predicate SweepAt(it: Deploy, s0: Store, store: Store, prefixes: set<string>, g: nat) {
    var a := Ready(it, s0);
    && it.opts.prune && it.opts.project != "" && g <= |PRUNABLE| && prefixes == Vouched(a, Ns(it))
    && Sweeping(a, store, Kinds(g), ScopeOf(it, prefixes)) && Swept(store, Kinds(g), ScopeOf(it, prefixes))
  }

  ghost predicate DeletingAt(it: Deploy, s0: Store, store: Store, prefixes: set<string>, g: nat, todo: seq<Id>) {
    var a := Ready(it, s0);
    && it.opts.prune && it.opts.project != "" && g < |PRUNABLE| && prefixes == Vouched(a, Ns(it))
    && Sweeping(a, store, Kinds(g + 1), ScopeOf(it, prefixes)) && Swept(store, Kinds(g), ScopeOf(it, prefixes))
    && Pending(store, PRUNABLE[g], todo, ScopeOf(it, prefixes))
  }

  ghost predicate Rejected(it: Deploy, s0: Store, store: Store) {
    exists i | 0 <= i < |it.objects| ::
      && store == Applied(s0, it.objects[..i], Ns(it))
      && !Accepts(store, Target(it.objects[i], Ns(it)), it.objects[i].obj)
  }

  /** Where the deploy is, and what it has done so far. */
  ghost predicate OnCourse(it: Deploy, s0: Store, store: Store) {
    match it.phase
    case Applying(i) => i <= |it.objects| && store == Applied(s0, it.objects[..i], Ns(it))
    case Collecting => it.opts.prune && it.opts.project != "" && store == Ready(it, s0)
    case Visiting(prefixes, g) => SweepAt(it, s0, store, prefixes, g)
    case Deleting(prefixes, g, todo) => DeletingAt(it, s0, store, prefixes, g, todo)
    case Finished => Rejected(it, s0, store) || store == Outcome(it, s0)
  }

  ghost predicate Alone(s: System, d: nat, objects: seq<Manifest>, opts: Options, s0: Store) {
    s.deploys.Keys == {d} && s.deploys[d].objects == objects && s.deploys[d].opts == opts
      && OnCourse(s.deploys[d], s0, s.store)
  }

  /** A step of the deploy whose call, if any, succeeds. */
  predicate Succeeds(e: Step, d: nat) {
    match e
    case Start(_, _, _) => false
    case ApplyNext(x, ok) => x == d && ok
    case Collect(x, ok) => x == d && ok
    case ListKind(x, ok, _) => x == d && ok
    case DeleteNext(x, ok) => x == d && ok
    case MakeClaim(_, _, _) => false
  }

  lemma KindsNext(g: nat)
    requires g < |PRUNABLE|
    ensures Kinds(g + 1) == Kinds(g) + {PRUNABLE[g]} && PRUNABLE[g] !in Kinds(g)
  {
    assert PRUNABLE[..g + 1] == PRUNABLE[..g] + [PRUNABLE[g]];
    PrunableDistinct();
  }

  lemma PrunableDistinct()
    ensures Distinct(PRUNABLE)
  {
  }

  lemma ApplyOnCourse(s: System, d: nat, objects: seq<Manifest>, opts: Options, s0: Store)
    requires Alone(s, d, objects, opts, s0) && s.deploys[d].phase.Applying?
    ensures Alone(DoApply(s, d, true), d, objects, opts, s0)
  {
    hide Accepts;
    hide Merged;
    hide Target;
    hide Pruned;
    hide Keys;
    var it := s.deploys[d];
    var i := it.phase.i;
    if i < |objects| {
      assert objects[..i + 1][..i] == objects[..i];
    } else {
      assert objects[..i] == objects;
      if opts.project == "" {
        PrunesNothing(s.store, Ns(it), opts.pvcs, Keys(objects, Ns(it)));
      }
    }
  }

  lemma PrunesNothing(store: Store, ns: string, pvcs: bool, keep: set<string>)
    ensures Pruned(store, "", ns, pvcs, keep) == store
  {
  }

  lemma CollectOnCourse(s: System, d: nat, objects: seq<Manifest>, opts: Options, s0: Store)
    requires Alone(s, d, objects, opts, s0) && s.deploys[d].phase.Collecting?
    ensures Alone(At(s, d, Visiting(Vouched(s.store, Ns(s.deploys[d])), 0)), d, objects, opts, s0)
  {
  }

  lemma ListOnCourse(s: System, d: nat, items: seq<Id>, objects: seq<Manifest>, opts: Options, s0: Store)
    requires Alone(s, d, objects, opts, s0) && s.deploys[d].phase.Visiting?
    ensures Alone(DoList(s, d, true, items), d, objects, opts, s0)
  {
    hide Vouched;
    hide Applied;
    hide Keys;
    hide Kinds;
    hide Key;
    hide Owned;
    hide Covered;
    var it := s.deploys[d];
    var g := it.phase.g;
    if g >= |PRUNABLE| {
      var c := ScopeOf(it, it.phase.prefixes);
      AllKinds();
      SweptIsPruned(Ready(it, s0), s.store, Kinds(g), c);
    } else {
      KindsNext(g);
    }
  }

  lemma AllKinds()
    ensures Kinds(|PRUNABLE|) == (set gvr | gvr in PRUNABLE)
  {
  }

  /** What is expendable to a sweep is what is an orphan in its scope. */
  lemma ExpendableIff(it: Deploy, store: Store)
    requires it.phase.Deleting? && it.phase.todo != [] && InScope(it) && it.opts.project != ""
    requires Pending(store, PRUNABLE[it.phase.g], it.phase.todo, ScopeOf(it, it.phase.prefixes))
    requires it.phase.todo[0] in store
    ensures var id := it.phase.todo[0]; Expendable(it, id) <==> Orphan(id, store[id], ScopeOf(it, it.phase.prefixes))
  {
  }

  lemma PendingRest(store: Store, gvr: Gvr, todo: seq<Id>, c: Scope)
    requires Pending(store, gvr, todo, c) && todo != []
    requires todo[0] in store ==> !Orphan(todo[0], store[todo[0]], c)
    ensures Pending(store, gvr, todo[1..], c)
  {
  }

  lemma PendingWithout(store: Store, gvr: Gvr, todo: seq<Id>, c: Scope)
    requires Pending(store, gvr, todo, c) && todo != []
    ensures Pending(store - {todo[0]}, gvr, todo[1..], c)
  {
  }

  lemma SweepingOneMore(a: Store, store: Store, id: Id, visited: set<Gvr>, before: set<Gvr>, c: Scope)
    requires Sweeping(a, store, visited, c) && Swept(store, before, c)
    requires id.gvr in visited && (id in store ==> Orphan(id, store[id], c))
    ensures Sweeping(a, store - {id}, visited, c) && Swept(store - {id}, before, c)
  {
  }

  lemma KindDone(store: Store, gvr: Gvr, before: set<Gvr>, c: Scope)
    requires Swept(store, before, c) && Pending(store, gvr, [], c)
    ensures Swept(store, before + {gvr}, c)
  {
  }

  lemma DeleteOnCourse(s: System, d: nat, objects: seq<Manifest>, opts: Options, s0: Store)
    requires Alone(s, d, objects, opts, s0) && s.deploys[d].phase.Deleting?
    requires InScope(s.deploys[d])
    ensures Alone(DoDelete(s, d, true), d, objects, opts, s0)
  {
    hide Vouched;
    hide Applied;
    hide Kinds;
    hide Expendable;
    hide Orphan;
    hide Pending;
    hide Sweeping;
    hide Swept;
    hide InScope;
    var it := s.deploys[d];
    var Deleting(prefixes, g, todo) := it.phase;
    var c := ScopeOf(it, prefixes);
    KindsNext(g);
    if todo == [] {
      KindDone(s.store, PRUNABLE[g], Kinds(g), c);
    } else {
      var id := todo[0];
      if id in s.store {
        ExpendableIff(it, s.store);
      }
      if Expendable(it, id) {
        PendingKind(s.store, PRUNABLE[g], todo, c);
        PendingWithout(s.store, PRUNABLE[g], todo, c);
        SweepingOneMore(Ready(it, s0), s.store, id, Kinds(g + 1), Kinds(g), c);
      } else {
        PendingRest(s.store, PRUNABLE[g], todo, c);
      }
    }
  }

  lemma PendingKind(store: Store, gvr: Gvr, todo: seq<Id>, c: Scope)
    requires Pending(store, gvr, todo, c) && todo != []
    ensures todo[0].gvr == gvr
  {
  }

  lemma StepOnCourse(s: System, d: nat, e: Step, objects: seq<Manifest>, opts: Options, s0: Store)
    requires Alone(s, d, objects, opts, s0) && Scoped(s) && Succeeds(e, d)
    ensures Alone(Do(s, e), d, objects, opts, s0)
  {
    hide OnCourse;
    hide DoApply;
    hide DoList;
    hide DoDelete;
    hide Vouched;
    match e {
      case ApplyNext(_, _) => if s.deploys[d].phase.Applying? { ApplyOnCourse(s, d, objects, opts, s0); }
      case Collect(_, _) => if s.deploys[d].phase.Collecting? { CollectOnCourse(s, d, objects, opts, s0); }
      case ListKind(_, _, items) => if s.deploys[d].phase.Visiting? { ListOnCourse(s, d, items, objects, opts, s0); }
      case DeleteNext(_, _) => if s.deploys[d].phase.Deleting? { DeleteOnCourse(s, d, objects, opts, s0); }
    }
  }

  ghost function Started(store: Store, d: nat, objects: seq<Manifest>, opts: Options): System {
    System(store, map[d := Deploy(objects, opts, Applying(0))])
  }

  lemma {:induction false} RunOnCourse(store: Store, d: nat, objects: seq<Manifest>, opts: Options, steps: seq<Step>)
    requires forall i | 0 <= i < |steps| :: Succeeds(steps[i], d)
    ensures Alone(Run(Started(store, d, objects, opts), steps), d, objects, opts, store)
    ensures Scoped(Run(Started(store, d, objects, opts), steps))
  {
    hide Do;
    hide Succeeds;
    var s := Started(store, d, objects, opts);
    if steps == [] {
      assert objects[..0] == [];
    } else {
      var n := |steps| - 1;
      RunOnCourse(store, d, objects, opts, steps[..n]);
      StepOnCourse(Run(s, steps[..n]), d, steps[n], objects, opts, store);
      ScopedStep(Run(s, steps[..n]), steps[n]);
    }
  }

  /**
   However its calls are cut, a deploy that runs alone with every call succeeding and every object
   accepted ends with exactly the applied store, pruned if it was asked to.
   */
  lemma AloneIsExact(store: Store, d: nat, objects: seq<Manifest>, opts: Options, steps: seq<Step>)
    requires forall i | 0 <= i < |steps| :: Succeeds(steps[i], d)
    requires Acceptable(store, objects, DefaultNs(opts.ns))
    requires var t := Run(Started(store, d, objects, opts), steps); d in t.deploys && t.deploys[d].phase.Finished?
    ensures var t, ns := Run(Started(store, d, objects, opts), steps), DefaultNs(opts.ns);
            var a := Applied(store, objects, ns);
            t.store == if opts.prune then Pruned(a, opts.project, ns, opts.pvcs, Keys(objects, ns)) else a
  {
    hide Run;
    hide Pruned;
    hide Keys;
    hide Accepts;
    RunOnCourse(store, d, objects, opts, steps);
    var t := Run(Started(store, d, objects, opts), steps);
    var it := t.deploys[d];
    if Rejected(it, store, t.store) {
      var i :| 0 <= i < |objects| && t.store == Applied(store, objects[..i], Ns(it))
        && !Accepts(t.store, Target(objects[i], Ns(it)), objects[i].obj);
      NotAcceptable(store, objects, i, Ns(it));
    }
  }
}
