/** Replacing a node container in place, with docker as a store whose commands may fail at any point. */
module Recreate {
  import opened Common
  import opened NodeArgs

  /** A container: what it was created from, whether it runs, and the node password it holds. */
  datatype Ctr = Ctr(id: nat, node: Node, running: bool, password: Option<string>)
  type Store = map<string, Ctr>

  datatype Cmd =
    | CopyOut(name: string)
    | StopNode(name: string)
    | Rename(name: string, to: string)
    | Create(args: seq<string>)
    | CopyIn(name: string, password: string)
    | StartNode(name: string)
    | AwaitReady(name: string)
    | RemoveNode(name: string, force: bool)
    | Fetch(image: string)
    | Query(name: string)

  /** What a command does when docker carries it out; `None` when docker must refuse it. */
  function Effect(s: Store, cmd: Cmd, id: nat): Option<Store> {
    match cmd
    case CopyOut(n) => if n in s && s[n].password.Some? then Some(s) else None
    case StopNode(n) => if n in s then Some(s[n := s[n].(running := false)]) else None
    case Rename(n, m) => if n in s && m !in s then Some((s - {n})[m := s[n]]) else None
    case Create(args) =>
      (match Interpret(args)
       case None => None
       case Some(c) => if c.name in s then None else Some(s[c.name := Ctr(id, c.node, false, None)]))
    case CopyIn(n, pw) => if n in s then Some(s[n := s[n].(password := Some(pw))]) else None
    case StartNode(n) => if n in s then Some(s[n := s[n].(running := true)]) else None
    case AwaitReady(n) => if n in s && s[n].running then Some(s) else None
    case RemoveNode(n, force) => if n in s && (force || !s[n].running) then Some(s - {n}) else None
    case Fetch(_) => Some(s)
    case Query(n) => if n in s then Some(s) else None
  }

  /** One command as it went: whether docker carried it out, and the store after it. */
  datatype Entry = Entry(cmd: Cmd, ok: bool, store: Store)

  /** Docker so far: its containers, the number of commands issued, and what became of each of them. */
  datatype Engine = Engine(store: Store, clock: nat, log: seq<Entry>)

  /** `faults(t)` says that command number `t` fails, whatever it is; a failed command changes nothing. */
  type Faults = nat -> bool

  function Works(e: Engine, faults: Faults, cmd: Cmd): bool {
    !faults(e.clock) && Effect(e.store, cmd, e.clock).Some?
  }

  function Do(e: Engine, faults: Faults, cmd: Cmd): Engine {
    var s := if Works(e, faults, cmd) then Effect(e.store, cmd, e.clock).value else e.store;
    Engine(s, e.clock + 1, e.log + [Entry(cmd, Works(e, faults, cmd), s)])
  }

  function Old(name: string): string {
    name + "-old"
  }

  datatype Stage = Saving | Stopping | Renaming | Creating | CopyingBack | Starting | Waiting
  datatype Outcome = Outcome(engine: Engine, failed: Option<Stage>)

  function Restore(e: Engine, faults: Faults, name: string): Engine {
    Do(Do(Do(e, faults, RemoveNode(name, true)), faults, Rename(Old(name), name)), faults, StartNode(name))
  }

  /** Commands in turn; the first that fails puts the old container back, and the last success drops it. */
  function Replace(e: Engine, faults: Faults, name: string, steps: seq<(Cmd, Stage)>): Outcome
    decreases |steps|
  {
    if steps == [] then Outcome(Do(e, faults, RemoveNode(Old(name), false)), None)
    else
      var (cmd, stage) := steps[0];
      var e' := Do(e, faults, cmd);
      if Works(e, faults, cmd) then Replace(e', faults, name, steps[1..])
      else Outcome(Restore(e', faults, name), Some(stage))
  }

  function NewNode(name: string, args: seq<string>, password: string): seq<(Cmd, Stage)> {
    [(Create(args), Creating), (CopyIn(name, password), CopyingBack), (StartNode(name), Starting),
      (AwaitReady(name), Waiting)]
  }

  function Run(e: Engine, faults: Faults, name: string, args: seq<string>): Outcome {
    var e1 := Do(e, faults, CopyOut(name));
    if !Works(e, faults, CopyOut(name)) then Outcome(e1, Some(Saving)) else
    var e2 := Do(e1, faults, StopNode(name));
    if !Works(e1, faults, StopNode(name)) then Outcome(e2, Some(Stopping)) else
    var e3 := Do(e2, faults, Rename(name, Old(name)));
    if !Works(e2, faults, Rename(name, Old(name))) then Outcome(Do(e3, faults, StartNode(name)), Some(Renaming)) else
    Replace(e3, faults, name, NewNode(name, args, e.store[name].password.value))
  }

  /** Docker, changed one command at a time. */
  class Host {
    var engine: Engine
    const faults: Faults

    constructor (engine: Engine, faults: Faults)
      ensures this.engine == engine && this.faults == faults
    {
      this.engine, this.faults := engine, faults;
    }

    method Docker(cmd: Cmd) returns (ok: bool)
      modifies this
      ensures engine == Do(old(engine), faults, cmd)
      ensures ok == Works(old(engine), faults, cmd)
    {
      ok := Works(engine, faults, cmd);
      engine := Do(engine, faults, cmd);
    }

    method RestoreNode(name: string)
      modifies this
      ensures engine == Restore(old(engine), faults, name)
    {
      var _ := Docker(RemoveNode(name, true));
      var _ := Docker(Rename(Old(name), name));
      var _ := Docker(StartNode(name));
    }

    method Recreate(name: string, args: seq<string>) returns (failed: Option<Stage>)
      modifies this
      ensures Outcome(engine, failed) == Run(old(engine), faults, name, args)
    {
      var ok := Docker(CopyOut(name));
      if !ok { return Some(Saving); }
      var password := engine.store[name].password.value;
      ok := Docker(StopNode(name));
      if !ok { return Some(Stopping); }
      ok := Docker(Rename(name, Old(name)));
      if !ok {
        var _ := Docker(StartNode(name));
        return Some(Renaming);
      }
      ghost var steps := NewNode(name, args, password);
      ghost var e3 := engine;
      ok := Docker(Create(args));
      if !ok {
        RestoreNode(name);
        return Some(Creating);
      }
      assert Replace(e3, faults, name, steps) == Replace(engine, faults, name, steps[1..]);
      ok := Docker(CopyIn(name, password));
      if !ok {
        RestoreNode(name);
        return Some(CopyingBack);
      }
      assert Replace(e3, faults, name, steps) == Replace(engine, faults, name, steps[2..])
          by { assert steps[1..][1..] == steps[2..]; }
      ok := Docker(StartNode(name));
      if !ok {
        RestoreNode(name);
        return Some(Starting);
      }
      assert Replace(e3, faults, name, steps) == Replace(engine, faults, name, steps[3..])
          by { assert steps[2..][1..] == steps[3..]; }
      ok := Docker(AwaitReady(name));
      if !ok {
        RestoreNode(name);
        return Some(Waiting);
      }
      var _ := Docker(RemoveNode(Old(name), false));
      return None;
    }
  }

  /******* A transaction, whatever fails *******/

  /** The same container, running or not. */
  ghost predicate Same(a: Ctr, c: Ctr) {
    a.(running := c.running) == c
  }

  /** The original is there, under its own name or the one it was renamed to. */
  ghost predicate Holds(s: Store, name: string, c: Ctr) {
    (name in s && Same(s[name], c)) || (Old(name) in s && Same(s[Old(name)], c))
  }

  /** Nothing but the node's two names has changed. */
  ghost predicate Apart(s: Store, s0: Store, name: string) {
    forall n | n != name && n != Old(name) :: Get(s, n) == Get(s0, n)
  }

  /** What every store written to the log from `from` on, up to `to`, still has. */
  ghost predicate Kept(log: seq<Entry>, from: nat, to: nat, s0: Store, name: string, c: Ctr)
    requires from <= to <= |log|
  {
    forall k | from <= k < to :: Holds(log[k].store, name, c) && Apart(log[k].store, s0, name)
  }

  lemma OldIsOther(name: string)
    ensures Old(name) != name
  {
  }

  /** The node has been renamed away and nothing else of it changed. */
  ghost predicate Away(s: Store, s0: Store, name: string, c: Ctr) {
    Old(name) in s && s[Old(name)] == c && !c.running && Apart(s, s0, name)
  }

  lemma RestoreKeeps(e: Engine, faults: Faults, name: string, s0: Store, c: Ctr)
    requires Away(e.store, s0, name, c)
    ensures
      var r := Restore(e, faults, name);
      && |r.log| == |e.log| + 3 && e.log <= r.log
      && Kept(r.log, |e.log|, |r.log|, s0, name, c)
      && Holds(r.store, name, c) && Apart(r.store, s0, name)
  {
    OldIsOther(name);
    var e1 := Do(e, faults, RemoveNode(name, true));
    assert Away(e1.store, s0, name, c);
    var e2 := Do(e1, faults, Rename(Old(name), name));
    assert Holds(e2.store, name, c) && Apart(e2.store, s0, name);
    var e3 := Do(e2, faults, StartNode(name));
    assert Holds(e3.store, name, c) && Apart(e3.store, s0, name);
  }

  /** A command that only concerns the container under the node's own name. */
  ghost predicate OnNew(cmd: Cmd, name: string) {
    match cmd
    case Create(args) => Interpret(args).Some? ==> Interpret(args).value.name == name
    case CopyIn(n, _) => n == name
    case StartNode(n) => n == name
    case AwaitReady(n) => n == name
    case _ => false
  }

  /** Up to the report that the new node is ready, and through every failure, the original is kept. */
  lemma {:induction false} ReplaceKeeps(e: Engine, faults: Faults, name: string, steps: seq<(Cmd, Stage)>, s0: Store,
      c: Ctr)
    requires Away(e.store, s0, name, c) && forall st | st in steps :: OnNew(st.0, name)
    ensures
      var r := Replace(e, faults, name, steps);
      && e.log <= r.engine.log && |e.log| < |r.engine.log|
      && (r.failed.Some? ==> Kept(r.engine.log, |e.log|, |r.engine.log|, s0, name, c) && Holds(r.engine.store, name, c))
      && (r.failed.None? ==> Kept(r.engine.log, |e.log|, |r.engine.log| - 1, s0, name, c))
      && Apart(r.engine.store, s0, name)
    decreases |steps|
  {
    OldIsOther(name);
    if steps != [] {
      var cmd := steps[0].0;
      assert steps[0] in steps;
      var e' := Do(e, faults, cmd);
      assert Away(e'.store, s0, name, c);
      if Works(e, faults, cmd) {
        ReplaceKeeps(e', faults, name, steps[1..], s0, c);
      } else {
        RestoreKeeps(e', faults, name, s0, c);
      }
    }
  }

  /**
   Under any pattern of docker failures: until the new node has reported ready the
   original container exists under its own name or as "-old", no other container is
   touched, and a run that reports an error never lost it.
   */
  lemma NeverLost(e: Engine, faults: Faults, name: string, args: seq<string>)
    requires name in e.store
    requires Interpret(args).Some? ==> Interpret(args).value.name == name
    ensures
      var r, c := Run(e, faults, name, args), e.store[name];
      && e.log <= r.engine.log && |e.log| < |r.engine.log|
      && Kept(r.engine.log, |e.log|, |r.engine.log| - (if r.failed.None? then 1 else 0), e.store, name, c)
      && (r.failed.Some? ==> Holds(r.engine.store, name, c))
      && Apart(r.engine.store, e.store, name)
  {
    hide Interpret;
    hide Replace;
    hide Effect;
    OldIsOther(name);
    FrontHolds(e, faults, name);
    var c := e.store[name];
    var e1 := Do(e, faults, CopyOut(name));
    var e2 := Do(e1, faults, StopNode(name));
    var e3 := Do(e2, faults, Rename(name, Old(name)));
    if Works(e, faults, CopyOut(name)) && Works(e1, faults, StopNode(name))
        && Works(e2, faults, Rename(name, Old(name))) {
      var stopped := c.(running := false);
      ReplaceKeeps(e3, faults, name, NewNode(name, args, SavedPassword(e, faults, name)), e.store, stopped);
      assert forall s :: Holds(s, name, stopped) ==> Holds(s, name, c);
    }
  }

  /** The password is there once it has been copied out. */
  function SavedPassword(e: Engine, faults: Faults, name: string): string
    requires name in e.store && Works(e, faults, CopyOut(name))
  {
    e.store[name].password.value
  }

  /** The commands before the new container leave the old one under its name, or put aside. */
  lemma FrontHolds(e: Engine, faults: Faults, name: string)
    requires name in e.store
    ensures
      var c := e.store[name];
      var e1 := Do(e, faults, CopyOut(name));
      var e2 := Do(e1, faults, StopNode(name));
      var e3 := Do(e2, faults, Rename(name, Old(name)));
      && Holds(e1.store, name, c) && Apart(e1.store, e.store, name)
      && Holds(e2.store, name, c) && Apart(e2.store, e.store, name)
      && Holds(e3.store, name, c) && Apart(e3.store, e.store, name)
      && (Works(e1, faults, StopNode(name)) && Works(e2, faults, Rename(name, Old(name))) ==>
            Away(e3.store, e.store, name, c.(running := false)))
      && (!Works(e2, faults, Rename(name, Old(name))) ==>
            var e4 := Do(e3, faults, StartNode(name));
            Holds(e4.store, name, c) && Apart(e4.store, e.store, name))
  {
    OldIsOther(name);
  }

  /******* What an error leaves behind, exactly *******/

  /** Every restoring command the failed run needed went through. */
  ghost predicate RestoreWorked(r: Outcome, faults: Faults)
    requires r.failed.Some?
  {
    var t := r.engine.clock;
    match r.failed.value
    case Saving => true
    case Stopping => true
    case Renaming => Worked(faults, t - 1)
    case Creating => Worked(faults, t - 2) && Worked(faults, t - 1)
    case _ => Worked(faults, t - 3) && Worked(faults, t - 2) && Worked(faults, t - 1)
  }

  ghost predicate Worked(faults: Faults, t: int) {
    t >= 0 && !faults(t)
  }

  /** The node renamed away, stopped, with at most a newer container under its name. */
  ghost predicate Swapped(s: Store, s0: Store, name: string) {
    && name in s0 && s0[name].running && Old(name) !in s0
    && Away(s, s0, name, s0[name].(running := false))
    && (name in s ==> s[name].id != s0[name].id)
  }

  lemma RestoreIff(e: Engine, faults: Faults, name: string, s0: Store)
    requires Swapped(e.store, s0, name)
    ensures Restore(e, faults, name).store == s0 <==>
            (name in e.store ==> !faults(e.clock)) && !faults(e.clock + 1) && !faults(e.clock + 2)
  {
    OldIsOther(name);
    var c := s0[name].(running := false);
    var e1 := Do(e, faults, RemoveNode(name, true));
    var e2 := Do(e1, faults, Rename(Old(name), name));
    var e3 := Do(e2, faults, StartNode(name));
    if name in e1.store {
      assert e1.store == e.store && e3.store[name].id != s0[name].id;
    } else if faults(e.clock + 1) {
      assert name !in e3.store;
    } else {
      assert e2.store[name] == c;
      if !faults(e.clock + 2) {
        forall n ensures Get(e3.store, n) == Get(s0, n) {
          assert n != name && n != Old(name) ==> Get(e.store, n) == Get(s0, n);
        }
        SameMap(e3.store, s0);
      }
    }
  }

  /** One command on the new node leaves the old one put aside. */
  lemma StepSwapped(e: Engine, faults: Faults, cmd: Cmd, name: string, s0: Store)
    requires Swapped(e.store, s0, name) && s0[name].id < e.clock && OnNew(cmd, name)
        && (cmd.Create? <==> name !in e.store)
    ensures
      var e' := Do(e, faults, cmd);
      && Swapped(e'.store, s0, name) && e'.clock == e.clock + 1
      && (if Works(e, faults, cmd) then name in e'.store else e'.store == e.store)
  {
    OldIsOther(name);
  }

  lemma {:induction false} ReplaceIff(e: Engine, faults: Faults, name: string, steps: seq<(Cmd, Stage)>, s0: Store)
    requires Swapped(e.store, s0, name) && s0[name].id < e.clock
    requires forall i | 0 <= i < |steps| :: OnNew(steps[i].0, name) && (steps[i].0.Create? <==> steps[i].1 == Creating)
    requires forall i | 0 <= i < |steps| :: steps[i].1 != Saving && steps[i].1 != Stopping && steps[i].1 != Renaming
    requires forall i | 0 < i < |steps| :: !steps[i].0.Create?
    requires steps != [] ==> (steps[0].0.Create? <==> name !in e.store)
    ensures
      var r := Replace(e, faults, name, steps);
      && r.engine.clock >= e.clock
      && (r.failed.Some? ==> (r.engine.store == s0 <==> RestoreWorked(r, faults)))
    decreases |steps|
  {
    hide Do;
    hide Works;
    hide Swapped;
    if steps == [] {
      assert Do(e, faults, RemoveNode(Old(name), false)).clock == e.clock + 1
          by { Ticks(e, faults, RemoveNode(Old(name), false)); }
    } else {
      var cmd := steps[0].0;
      StepSwapped(e, faults, cmd, name, s0);
      var e' := Do(e, faults, cmd);
      if Works(e, faults, cmd) {
        ReplaceIff(e', faults, name, steps[1..], s0);
      } else {
        RestoreIff(e', faults, name, s0);
        RestoreTicks(e', faults, name);
      }
    }
  }

  lemma Ticks(e: Engine, faults: Faults, cmd: Cmd)
    ensures Do(e, faults, cmd).clock == e.clock + 1
  {
  }

  lemma RestoreTicks(e: Engine, faults: Faults, name: string)
    ensures Restore(e, faults, name).clock == e.clock + 3
  {
  }

  /**
   Every error return leaves docker exactly as it was found, the original running
   under its own name, if and only if the restoring commands it needed worked.
   */
  lemma ErrorRestoresIff(e: Engine, faults: Faults, name: string, args: seq<string>)
    requires name in e.store && e.store[name].running && e.store[name].id < e.clock
    requires Interpret(args).Some? ==> Interpret(args).value.name == name
    requires Run(e, faults, name, args).failed.Some?
    ensures
      var r := Run(e, faults, name, args);
      r.engine.store == e.store <==> RestoreWorked(r, faults)
  {
    OldIsOther(name);
    var c := e.store[name];
    var e1 := Do(e, faults, CopyOut(name));
    if Works(e, faults, CopyOut(name)) {
      var e2 := Do(e1, faults, StopNode(name));
      if Works(e1, faults, StopNode(name)) {
        var e3 := Do(e2, faults, Rename(name, Old(name)));
        if Works(e2, faults, Rename(name, Old(name))) {
          ReplaceIff(e3, faults, name, NewNode(name, args, c.password.value), e.store);
        } else {
          assert e3.store == e.store[name := c.(running := false)];
          assert e3.store[name := c] == e.store;
        }
      }
    }
  }

  /******* Success *******/

  /** Up to the renaming a successful run has only put the old container aside. */
  lemma SuccessFront(e: Engine, faults: Faults, name: string, args: seq<string>)
    requires name in e.store && Run(e, faults, name, args).failed.None?
    ensures
      var c := e.store[name];
      var e3 := Do(Do(Do(e, faults, CopyOut(name)), faults, StopNode(name)), faults, Rename(name, Old(name)));
      && c.password.Some? && Old(name) !in e.store
      && Run(e, faults, name, args) == Replace(e3, faults, name, NewNode(name, args, c.password.value))
      && e3.store == (e.store - {name})[Old(name) := c.(running := false)] && e3.clock == e.clock + 3
  {
    hide Interpret;
    hide Replace;
    hide Restore;
    OldIsOther(name);
  }

  /** The last command of a successful run. */
  lemma SuccessEnd(e: Engine, faults: Faults, name: string)
    requires Old(name) in e.store && !e.store[Old(name)].running
    ensures
      var r := Replace(e, faults, name, []);
      && r.failed.None?
      && r.engine.store == if faults(e.clock) then e.store else e.store - {Old(name)}
  {
  }

  /** After the renaming a success has carried out all four commands on the new container. */
  lemma SuccessBack(e: Engine, faults: Faults, name: string, args: seq<string>, password: string)
    requires name !in e.store && Old(name) in e.store && !e.store[Old(name)].running
    requires Interpret(args).Some? ==> Interpret(args).value.name == name
    requires Replace(e, faults, name, NewNode(name, args, password)).failed.None?
    ensures
      var r := Replace(e, faults, name, NewNode(name, args, password)).engine;
      && Interpret(args).Some?
      && r.store == (if faults(e.clock + 4) then e.store else e.store - {Old(name)})
                    [name := Ctr(e.clock, Interpret(args).value.node, true, Some(password))]
  {
    hide Interpret;
    hide Restore;
    OldIsOther(name);
    var steps := NewNode(name, args, password);
    var e4 := Do(e, faults, Create(args));
    var e5 := Do(e4, faults, CopyIn(name, password));
    var e6 := Do(e5, faults, StartNode(name));
    var e7 := Do(e6, faults, AwaitReady(name));
    assert steps[1..][1..] == steps[2..] && steps[2..][1..] == steps[3..] && steps[3..][1..] == [];
    assert Replace(e, faults, name, steps) == Replace(e4, faults, name, steps[1..]);
    assert e4.store[name] == Ctr(e.clock, Interpret(args).value.node, false, None);
    assert Replace(e4, faults, name, steps[1..]) == Replace(e5, faults, name, steps[2..]);
    assert Replace(e5, faults, name, steps[2..]) == Replace(e6, faults, name, steps[3..]);
    assert Replace(e6, faults, name, steps[3..]) == Replace(e7, faults, name, []);
    SuccessEnd(e7, faults, name);
  }

  /** A successful run leaves a new running container with the old password, and the old one gone or stopped aside. */
  lemma Success(e: Engine, faults: Faults, name: string, args: seq<string>)
    requires name in e.store
    requires Interpret(args).Some? ==> Interpret(args).value.name == name
    requires Run(e, faults, name, args).failed.None?
    ensures
      var r := Run(e, faults, name, args).engine;
      && Interpret(args).Some? && name + "-old" !in e.store
      && Get(r.store, name) == Some(Ctr(e.clock + 3, Interpret(args).value.node, true, e.store[name].password))
      && Get(r.store, name + "-old") == (if faults(e.clock + 7) then Some(e.store[name].(running := false)) else None)
      && Apart(r.store, e.store, name)
  {
    hide Interpret;
    hide Replace;
    hide Run;
    hide Do;
    OldIsOther(name);
    SuccessFront(e, faults, name, args);
    var e3 := Do(Do(Do(e, faults, CopyOut(name)), faults, StopNode(name)), faults, Rename(name, Old(name)));
    SuccessBack(e3, faults, name, args, e.store[name].password.value);
  }

  /** Nothing fails among the next commands. */
  ghost predicate Quiet(faults: Faults, from: nat, count: nat) {
    forall t | from <= t < from + count :: !faults(t)
  }

  lemma FrontIff(e: Engine, faults: Faults, name: string)
    requires name in e.store
    ensures
      var e1 := Do(e, faults, CopyOut(name));
      var e2 := Do(e1, faults, StopNode(name));
      Works(e, faults, CopyOut(name)) && Works(e1, faults, StopNode(name))
        && Works(e2, faults, Rename(name, Old(name))) <==>
        e.store[name].password.Some? && Old(name) !in e.store && Quiet(faults, e.clock, 3)
  {
    OldIsOther(name);
  }

  lemma {:induction false} BackIff(e: Engine, faults: Faults, name: string, args: seq<string>, password: string)
    requires name !in e.store
    requires Interpret(args).Some? ==> Interpret(args).value.name == name
    ensures Replace(e, faults, name, NewNode(name, args, password)).failed.None? <==>
            Interpret(args).Some? && Quiet(faults, e.clock, 4)
  {
    hide Interpret;
    hide Restore;
    var steps := NewNode(name, args, password);
    var e4 := Do(e, faults, Create(args));
    var e5 := Do(e4, faults, CopyIn(name, password));
    var e6 := Do(e5, faults, StartNode(name));
    var e7 := Do(e6, faults, AwaitReady(name));
    assert steps[1..][1..] == steps[2..] && steps[2..][1..] == steps[3..] && steps[3..][1..] == [];
    if Works(e, faults, Create(args)) {
      assert Replace(e, faults, name, steps) == Replace(e4, faults, name, steps[1..]);
      if Works(e4, faults, CopyIn(name, password)) {
        assert Replace(e4, faults, name, steps[1..]) == Replace(e5, faults, name, steps[2..]);
        if Works(e5, faults, StartNode(name)) {
          assert Replace(e5, faults, name, steps[2..]) == Replace(e6, faults, name, steps[3..]);
          if Works(e6, faults, AwaitReady(name)) {
            assert Replace(e6, faults, name, steps[3..]) == Replace(e7, faults, name, []);
          }
        }
      }
    }
  }

  /**
   A recreation succeeds if and only if docker understands the arguments, the node password is there, no
   "-old" container is left over, and none of the first seven commands fails; removing the old one may.
   */
  lemma SucceedsIff(e: Engine, faults: Faults, name: string, args: seq<string>)
    requires name in e.store
    requires Interpret(args).Some? ==> Interpret(args).value.name == name
    ensures Run(e, faults, name, args).failed.None? <==>
            && Interpret(args).Some? && e.store[name].password.Some? && name + "-old" !in e.store
            && Quiet(faults, e.clock, 7)
  {
    hide Interpret;
    hide Replace;
    hide Effect;
    hide Restore;
    FrontIff(e, faults, name);
    var e3 := Do(Do(Do(e, faults, CopyOut(name)), faults, StopNode(name)), faults, Rename(name, Old(name)));
    if e.store[name].password.Some? && Old(name) !in e.store && Quiet(faults, e.clock, 3) {
      RenamedAway(e, faults, name);
      BackIff(e3, faults, name, args, e.store[name].password.value);
      assert e3.clock == e.clock + 3;
    }
  }

  lemma RenamedAway(e: Engine, faults: Faults, name: string)
    requires name in e.store && e.store[name].password.Some? && Old(name) !in e.store && Quiet(faults, e.clock, 3)
    ensures
      var e3 := Do(Do(Do(e, faults, CopyOut(name)), faults, StopNode(name)), faults, Rename(name, Old(name)));
      name !in e3.store && e3.clock == e.clock + 3
  {
    OldIsOther(name);
  }

  /** A "-old" container left over from an earlier run makes every later run fail, no later than the renaming. */
  lemma LeftoverBlocks(e: Engine, faults: Faults, name: string, args: seq<string>)
    requires name in e.store && name + "-old" in e.store
    ensures
      var r := Run(e, faults, name, args);
      && r.failed.Some? && r.failed.value in {Saving, Stopping, Renaming}
      && Get(r.engine.store, name + "-old") == Some(e.store[name + "-old"])
  {
  }

  /******* Which configurations can be seen along the way *******/

  /** Under its own name the node is the original or the new one; while its name is free, "-old" is the original. */
  ghost predicate Seen(s: Store, s0: Store, name: string, new': Node)
    requires name in s0
  {
    && (name in s ==> s[name].node == s0[name].node || s[name].node == new')
    && (Old(name) in s ==> s[Old(name)].node == s0[name].node || Get(s0, Old(name)) == Some(s[Old(name)]))
    && (name !in s ==> Old(name) in s && s[Old(name)].node == s0[name].node)
  }

  ghost predicate AllSeen(log: seq<Entry>, from: nat, s0: Store, name: string, new': Node)
    requires name in s0
  {
    forall k | from <= k < |log| :: Seen(log[k].store, s0, name, new')
  }

  /** The commands of a recreation keep to these configurations, one by one. */
  lemma StepSeen(e: Engine, faults: Faults, cmd: Cmd, s0: Store, name: string, new': Node)
    requires name in s0 && Seen(e.store, s0, name, new')
    requires
      || (OnNew(cmd, name) && (cmd.Create? && Interpret(cmd.args).Some? ==> Interpret(cmd.args).value.node == new'))
      || cmd == StopNode(name) || cmd == CopyOut(name)
      || (cmd == Rename(name, Old(name)) && (name in e.store ==> e.store[name].node == s0[name].node))
      || (cmd == Rename(Old(name), name) && (Old(name) in e.store ==> e.store[Old(name)].node == s0[name].node))
      || (cmd == RemoveNode(name, true) && Old(name) in e.store && e.store[Old(name)].node == s0[name].node)
      || (cmd == RemoveNode(Old(name), false) && name in e.store)
    ensures Seen(Do(e, faults, cmd).store, s0, name, new')
  {
    OldIsOther(name);
  }

  lemma RestoreSeen(e: Engine, faults: Faults, name: string, s0: Store, new': Node)
    requires name in s0 && Seen(e.store, s0, name, new')
    requires Old(name) in e.store && e.store[Old(name)].node == s0[name].node
    ensures
      var r := Restore(e, faults, name);
      e.log <= r.log && Seen(r.store, s0, name, new') && AllSeen(r.log, |e.log|, s0, name, new')
  {
    OldIsOther(name);
    StepSeen(e, faults, RemoveNode(name, true), s0, name, new');
    var e1 := Do(e, faults, RemoveNode(name, true));
    StepSeen(e1, faults, Rename(Old(name), name), s0, name, new');
    var e2 := Do(e1, faults, Rename(Old(name), name));
    StepSeen(e2, faults, StartNode(name), s0, name, new');
  }

  lemma {:induction false} ReplaceSeen(e: Engine, faults: Faults, name: string, steps: seq<(Cmd, Stage)>, s0: Store,
      new': Node)
    requires name in s0 && Seen(e.store, s0, name, new')
    requires Old(name) in e.store && e.store[Old(name)].node == s0[name].node
    requires forall st | st in steps ::
        OnNew(st.0, name) && (st.0.Create? && Interpret(st.0.args).Some? ==> Interpret(st.0.args).value.node == new')
    requires name in e.store || (steps != [] && steps[0].0.Create?)
    ensures
      var r := Replace(e, faults, name, steps).engine;
      e.log <= r.log && Seen(r.store, s0, name, new') && AllSeen(r.log, |e.log|, s0, name, new')
    decreases |steps|
  {
    OldIsOther(name);
    if steps == [] {
      StepSeen(e, faults, RemoveNode(Old(name), false), s0, name, new');
    } else {
      var cmd := steps[0].0;
      assert steps[0] in steps;
      StepSeen(e, faults, cmd, s0, name, new');
      var e' := Do(e, faults, cmd);
      if Works(e, faults, cmd) {
        ReplaceSeen(e', faults, name, steps[1..], s0, new');
      } else {
        RestoreSeen(e', faults, name, s0, new');
      }
    }
  }

  /** In every state of a run, the node's names hold the original configuration or the new one. */
  lemma RunSeen(e: Engine, faults: Faults, name: string, args: seq<string>, new': Node)
    requires name in e.store && Interpret(args) == Some(Created(name, new'))
    ensures
      var r := Run(e, faults, name, args).engine;
      e.log <= r.log && AllSeen(r.log, |e.log|, e.store, name, new') && Seen(r.store, e.store, name, new')
  {
    hide Interpret;
    hide Replace;
    OldIsOther(name);
    var e1 := Do(e, faults, CopyOut(name));
    StepSeen(e, faults, CopyOut(name), e.store, name, new');
    if Works(e, faults, CopyOut(name)) {
      var e2 := Do(e1, faults, StopNode(name));
      StepSeen(e1, faults, StopNode(name), e.store, name, new');
      if Works(e1, faults, StopNode(name)) {
        var e3 := Do(e2, faults, Rename(name, Old(name)));
        StepSeen(e2, faults, Rename(name, Old(name)), e.store, name, new');
        if Works(e2, faults, Rename(name, Old(name))) {
          ReplaceSeen(e3, faults, name, NewNode(name, args, e.store[name].password.value), e.store, new');
        } else {
          StepSeen(e3, faults, StartNode(name), e.store, name, new');
        }
      }
    }
  }

  /** In every state of a run, all other containers are as they were. */
  lemma RunApart(e: Engine, faults: Faults, name: string, args: seq<string>)
    requires name in e.store
    requires Interpret(args).Some? ==> Interpret(args).value.name == name
    ensures
      var r := Run(e, faults, name, args).engine;
      && e.log <= r.log && Apart(r.store, e.store, name)
      && forall k | |e.log| <= k < |r.log| :: Apart(r.log[k].store, e.store, name)
  {
    NeverLost(e, faults, name, args);
    LastLogged(e, faults, name, args);
  }

  lemma {:induction false} ReplaceLogged(e: Engine, faults: Faults, name: string, steps: seq<(Cmd, Stage)>)
    ensures
      var r := Replace(e, faults, name, steps).engine;
      |r.log| > 0 && r.log[|r.log| - 1].store == r.store && r.clock > e.clock
    decreases |steps|
  {
    if steps != [] {
      ReplaceLogged(Do(e, faults, steps[0].0), faults, name, steps[1..]);
    }
  }

  /** The log ends with the store as it is. */
  lemma LastLogged(e: Engine, faults: Faults, name: string, args: seq<string>)
    requires name in e.store
    ensures
      var r := Run(e, faults, name, args).engine;
      |r.log| > 0 && r.log[|r.log| - 1].store == r.store && r.clock > e.clock
  {
    var e3 := Do(Do(Do(e, faults, CopyOut(name)), faults, StopNode(name)), faults, Rename(name, Old(name)));
    if e.store[name].password.Some? {
      ReplaceLogged(e3, faults, name, NewNode(name, args, e.store[name].password.value));
    }
  }

  /******* The order of the commands *******/

  /** A container under the node's name that is not the original runs only with the original's password. */
  ghost predicate Fitted(s: Store, s0: Store, name: string)
    requires name in s0
  {
    name in s && s[name].running && s[name].id != s0[name].id ==> s[name].password == s0[name].password
  }

  /** The wait for a new container ended well, and what was waited for runs with the original's password. */
  ghost predicate ReportedReady(x: Entry, s0: Store, name: string)
    requires name in s0
  {
    && x.cmd == AwaitReady(name) && x.ok
    && name in x.store && x.store[name].running && x.store[name].id != s0[name].id
    && x.store[name].password == s0[name].password
  }

  /** The command drops the container that was put aside. */
  predicate Drops(cmd: Cmd, name: string) {
    cmd.RemoveNode? && cmd.name == Old(name)
  }

  ghost predicate NoneDropped(log: seq<Entry>, from: nat, to: nat, name: string)
    requires to <= |log|
  {
    forall k | from <= k < to :: !Drops(log[k].cmd, name)
  }

  lemma RestoreDropsNone(e: Engine, faults: Faults, name: string)
    ensures var r := Restore(e, faults, name); e.log <= r.log && NoneDropped(r.log, |e.log|, |r.log|, name)
  {
    OldIsOther(name);
  }

  /** The old container is dropped only as the last command of a success. */
  lemma {:induction false} ReplaceDropsLast(e: Engine, faults: Faults, name: string, steps: seq<(Cmd, Stage)>)
    requires forall st | st in steps :: OnNew(st.0, name)
    ensures
      var r := Replace(e, faults, name, steps);
      var n := |r.engine.log|;
      && e.log <= r.engine.log && |e.log| < n
      && NoneDropped(r.engine.log, |e.log|, if r.failed.None? then n - 1 else n, name)
      && (r.failed.None? ==> r.engine.log[n - 1].cmd == RemoveNode(Old(name), false))
    decreases |steps|
  {
    hide Works;
    if steps != [] {
      assert steps[0] in steps;
      var e' := Do(e, faults, steps[0].0);
      if Works(e, faults, steps[0].0) {
        ReplaceDropsLast(e', faults, name, steps[1..]);
      } else {
        RestoreDropsNone(e', faults, name);
      }
    }
  }

  /** What the four commands on the new container leave when they all work, and the entries they make. */
  lemma NewNodeLog(e: Engine, faults: Faults, name: string, args: seq<string>, password: string, s0: Store)
    requires name !in e.store && Old(name) in e.store && name in s0 && s0[name].id < e.clock
        && s0[name].password == Some(password)
    requires Interpret(args).Some? ==> Interpret(args).value.name == name
    requires Replace(e, faults, name, NewNode(name, args, password)).failed.None?
    ensures
      var r := Replace(e, faults, name, NewNode(name, args, password)).engine;
      && |r.log| == |e.log| + 5 && e.log <= r.log
      && (forall k | |e.log| <= k < |r.log| :: Fitted(r.log[k].store, s0, name))
      && ReportedReady(r.log[|e.log| + 3], s0, name)
      && Interpret(args) == Some(Created(name, r.log[|e.log| + 3].store[name].node))
      && r.log[|e.log| + 4].cmd == RemoveNode(Old(name), false)
  {
    hide Interpret;
    hide Restore;
    OldIsOther(name);
    var steps := NewNode(name, args, password);
    var e4 := Do(e, faults, Create(args));
    var e5 := Do(e4, faults, CopyIn(name, password));
    var e6 := Do(e5, faults, StartNode(name));
    var e7 := Do(e6, faults, AwaitReady(name));
    assert steps[1..][1..] == steps[2..] && steps[2..][1..] == steps[3..] && steps[3..][1..] == [];
    assert Replace(e, faults, name, steps) == Replace(e4, faults, name, steps[1..]);
    assert e4.store[name] == Ctr(e.clock, Interpret(args).value.node, false, None);
    assert Replace(e4, faults, name, steps[1..]) == Replace(e5, faults, name, steps[2..]);
    assert Replace(e5, faults, name, steps[2..]) == Replace(e6, faults, name, steps[3..]);
    assert Replace(e6, faults, name, steps[3..]) == Replace(e7, faults, name, []);
  }

  /**
   Whatever fails, the old container is dropped only by the last command of a success, right after the
   new one has been waited for and reported ready. In a successful run a new container runs under the
   node's name only with the old one's password.
   */
  lemma DroppedWhenReady(e: Engine, faults: Faults, name: string, args: seq<string>)
    requires name in e.store && e.store[name].id < e.clock
    requires Interpret(args).Some? ==> Interpret(args).value.name == name
    ensures
      var r := Run(e, faults, name, args);
      var log, n := r.engine.log, |r.engine.log|;
      && e.log <= log
      && (r.failed.Some? ==> NoneDropped(log, |e.log|, n, name))
      && (r.failed.None? ==>
            && n >= |e.log| + 2 && NoneDropped(log, |e.log|, n - 1, name)
            && log[n - 1].cmd == RemoveNode(Old(name), false) && ReportedReady(log[n - 2], e.store, name)
            && Interpret(args) == Some(Created(name, log[n - 2].store[name].node))
            && forall k | |e.log| <= k < n :: Fitted(log[k].store, e.store, name))
  {
    hide Interpret;
    hide Replace;
    hide Effect;
    OldIsOther(name);
    var e1 := Do(e, faults, CopyOut(name));
    var e2 := Do(e1, faults, StopNode(name));
    var e3 := Do(e2, faults, Rename(name, Old(name)));
    if Works(e, faults, CopyOut(name)) && Works(e1, faults, StopNode(name))
        && Works(e2, faults, Rename(name, Old(name))) {
      var password := SavedPassword(e, faults, name);
      ReplaceDropsLast(e3, faults, name, NewNode(name, args, password));
      FrontFitted(e, faults, name);
      if Run(e, faults, name, args).failed.None? {
        NewNodeLog(e3, faults, name, args, password, e.store);
      }
    }
  }

  lemma FrontFitted(e: Engine, faults: Faults, name: string)
    requires name in e.store
    ensures
      var e1 := Do(e, faults, CopyOut(name));
      var e2 := Do(e1, faults, StopNode(name));
      var e3 := Do(e2, faults, Rename(name, Old(name)));
      && (Works(e, faults, CopyOut(name)) && Works(e1, faults, StopNode(name))
            && Works(e2, faults, Rename(name, Old(name))) ==>
            e.store[name].password.Some? && name !in e3.store && Old(name) in e3.store && e3.clock == e.clock + 3)
      && Fitted(e1.store, e.store, name) && Fitted(e2.store, e.store, name) && Fitted(e3.store, e.store, name)
  {
    OldIsOther(name);
  }
}
