/** Writing one Secret: replacing its data, and overlaying keys onto it, by any number of writers at once. */
module MergeSecret {
  import opened Common

  datatype Secret = Secret(typ: string, data: map<string, string>, version: nat)

  /** What a reader sees of a Secret. */
  datatype Content = Content(typ: string, data: map<string, string>)

  /** A call of `MergeSecret`, or with `merge` off of `ApplySecret`. */
  datatype Job = Job(merge: bool, typ: string, keys: map<string, string>)

  function ContentOf(s: Option<Secret>): Option<Content> {
    match s
    case None => None
    case Some(x) => Some(Content(x.typ, x.data))
  }

  /** The Secret's own type, unless it has none. */
  function KeptType(existing: string, typ: string): string {
    if existing == "" then typ else existing
  }

  /** The call as if nothing happened beside it: keys on top of what is there, of the type that is there. */
  function Atomically(before: Option<Content>, job: Job): Content {
    if job.merge && before.Some?
    then Content(KeptType(before.value.typ, job.typ), before.value.data + job.keys)
    else Content(job.typ, job.keys)
  }

  /******* One writer *******/

  /** The API server's side of one Secret. Every call may fail, with no effect. */
  class Api {
    var secret: Option<Secret>
    var next: nat

    constructor ()
      ensures secret == None && next == 0
    {
      secret, next := None, 0;
    }

    method Get_() returns (ok: bool, r: Option<Secret>)
      ensures ok ==> r == secret
    {
      ok := *;
      r := if ok then secret else None;
    }

    method Put(version: Option<nat>, typ: string, data: map<string, string>) returns (ok: bool)
      modifies this
      ensures ok ==> (version.None? <==> old(secret).None?)
      ensures ok ==> (version.Some? ==> version.value == old(secret).value.version)
      ensures ok ==> secret == Some(Secret(typ, data, old(next)))
      ensures !ok ==> secret == old(secret)
    {
      ok := *;
      ok := ok && version == (match secret case None => None case Some(x) => Some(x.version));
      if ok {
        secret, next := Some(Secret(typ, data, next)), next + 1;
      }
    }

    /** Any failed read leads to a create, which the server refuses when the Secret exists. */
    method ApplySecret(typ: string, data: map<string, string>) returns (ok: bool)
      modifies this
      ensures ContentOf(secret) == if ok then Some(Content(typ, data)) else ContentOf(old(secret))
    {
      var found, r := Get_();
      if found && r.Some? {
        ok := Put(Some(r.value.version), typ, data);
      } else {
        ok := Put(None, typ, data);
      }
    }

    /** Undisturbed, the merge is atomic. */
    method MergeSecret(typ: string, data: map<string, string>) returns (ok: bool)
      modifies this
      ensures ContentOf(secret) ==
              if ok then Some(Atomically(ContentOf(old(secret)), Job(true, typ, data))) else ContentOf(old(secret))
    {
      var found, r := Get_();
      if !found { return false; }
      if r.None? {
        ok := ApplySecret(typ, data);
      } else {
        var merged := Overlay(r.value.data, data);
        ok := ApplySecret(KeptType(r.value.typ, typ), merged);
      }
    }
  }

  method Overlay(existing: map<string, string>, data: map<string, string>) returns (merged: map<string, string>)
    ensures merged == existing + data
  {
    merged := CopyInto(map[], existing);
    merged := CopyInto(merged, data);
  }

  method CopyInto(target: map<string, string>, data: map<string, string>) returns (merged: map<string, string>)
    ensures merged == target + data
  {
    merged := target;
    var todo := data.Keys;
    while todo != {}
      invariant todo <= data.Keys
      invariant merged.Keys == target.Keys + (data.Keys - todo)
      invariant forall k | k in merged :: merged[k] == if k in data && k !in todo then data[k] else target[k]
      decreases |todo|
    {
      var k :| k in todo;
      merged := merged[k := data[k]];
      todo := todo - {k};
    }
  }

  /******* Any number of writers *******/

  /**
   Where a writer is. `base` is what its first read found, kept here to state the laws: the code
   holds on to the data and type it has computed, not to the version they came from.
   */
  datatype Phase =
    | Begun
    | Computed(base: Option<Secret>, typ: string, data: map<string, string>)
    | Versioned(base: Option<Secret>, seen: Option<nat>, typ: string, data: map<string, string>)
    | Committed
    | Failed

  datatype Writer = Writer(job: Job, phase: Phase)
  datatype System = System(secret: Option<Secret>, next: nat, writers: map<nat, Writer>)

  /** One call of a writer with its outcome, or a write or deletion by anything else. */
  datatype Step =
    | Start(w: nat, job: Job)
    | Read(w: nat, ok: bool)
    | ReadVersion(w: nat, ok: bool)
    | Write(w: nat, ok: bool)
    | ForeignWrite(content: Content)
    | ForeignDelete

  function At(s: System, w: nat, phase: Phase): System
    requires w in s.writers
  {
    s.(writers := s.writers[w := s.writers[w].(phase := phase)])
  }

  function DoRead(s: System, w: nat, ok: bool): System
    requires w in s.writers
  {
    var job := s.writers[w].job;
    if !job.merge then At(s, w, Computed(None, job.typ, job.keys))
    else if !ok then At(s, w, Failed)
    else
      match s.secret
      case None => At(s, w, Computed(None, job.typ, job.keys))
      case Some(x) => At(s, w, Computed(Some(x), KeptType(x.typ, job.typ), x.data + job.keys))
  }

  function DoReadVersion(s: System, w: nat, ok: bool): System
    requires w in s.writers && s.writers[w].phase.Computed?
  {
    var Computed(base, typ, data) := s.writers[w].phase;
    At(s, w, Versioned(base, if ok && s.secret.Some? then Some(s.secret.value.version) else None, typ, data))
  }

  /** The server takes an update of the version it holds and a creation of what it does not have. */
  predicate Takes(s: System, w: nat)
    requires w in s.writers && s.writers[w].phase.Versioned?
  {
    var seen := s.writers[w].phase.seen;
    (seen.Some? <==> s.secret.Some?) && (seen.Some? ==> seen.value == s.secret.value.version)
  }

  function DoWrite(s: System, w: nat, ok: bool): System
    requires w in s.writers && s.writers[w].phase.Versioned?
  {
    var p := s.writers[w].phase;
    if ok && Takes(s, w) then At(s, w, Committed).(secret := Some(Secret(p.typ, p.data, s.next)), next := s.next + 1)
    else At(s, w, Failed)
  }

  /** A step that is not enabled changes nothing. */
  function Do(s: System, e: Step): System {
    match e
    case Start(w, job) => if w in s.writers then s else s.(writers := s.writers[w := Writer(job, Begun)])
    case Read(w, ok) => if w in s.writers && s.writers[w].phase.Begun? then DoRead(s, w, ok) else s
    case ReadVersion(w, ok) => if w in s.writers && s.writers[w].phase.Computed? then DoReadVersion(s, w, ok) else s
    case Write(w, ok) => if w in s.writers && s.writers[w].phase.Versioned? then DoWrite(s, w, ok) else s
    case ForeignWrite(c) => s.(secret := Some(Secret(c.typ, c.data, s.next)), next := s.next + 1)
    case ForeignDelete => s.(secret := None)
  }

  function Run(s: System, steps: seq<Step>): System {
    if steps == [] then s else Do(Run(s, steps[..|steps| - 1]), steps[|steps| - 1])
  }

  /******* The invariant *******/

  /** A snapshot is of the past, and still accurate if its version is the current one. */
  ghost predicate Snapshot(s: System, b: Secret) {
    b.version < s.next && (s.secret.Some? && s.secret.value.version == b.version ==> s.secret.value == b)
  }

  ghost predicate Follows(job: Job, base: Option<Secret>, typ: string, data: map<string, string>) {
    && Content(typ, data) == Atomically(ContentOf(base), job)
    && (!job.merge ==> base == None)
  }

  ghost predicate WriterOk(s: System, w: Writer) {
    match w.phase
    case Computed(base, typ, data) => (base.Some? ==> Snapshot(s, base.value)) && Follows(w.job, base, typ, data)
    case Versioned(base, seen, typ, data) => (base.Some? ==> Snapshot(s, base.value)) && Follows(w.job, base, typ, data)
    case _ => true
  }

  ghost predicate Inv(s: System) {
    && (s.secret.Some? ==> s.secret.value.version < s.next)
    && forall w | w in s.writers :: WriterOk(s, s.writers[w])
  }

  /** What a read computes follows from what it found. */
  lemma ReadKeeps(s: System, w: nat, ok: bool)
    requires Inv(s) && w in s.writers && s.writers[w].phase.Begun?
    ensures WriterOk(DoRead(s, w, ok), DoRead(s, w, ok).writers[w])
  {
  }

  lemma StepKeeps(s: System, e: Step)
    requires Inv(s)
    ensures Inv(Do(s, e))
  {
    hide Follows;
    var t := Do(s, e);
    forall w | w in t.writers ensures WriterOk(t, t.writers[w]) {
      if w in s.writers {
        assert WriterOk(s, s.writers[w]);
        if e.Read? && e.w == w && s.writers[w].phase.Begun? {
          ReadKeeps(s, w, e.ok);
        }
      }
    }
  }

  lemma {:induction false} RunKeeps(s: System, steps: seq<Step>)
    requires Inv(s)
    ensures Inv(Run(s, steps))
  {
    hide Do;
    if steps != [] {
      RunKeeps(s, steps[..|steps| - 1]);
      StepKeeps(Run(s, steps[..|steps| - 1]), steps[|steps| - 1]);
    }
  }

  /******* Commits *******/

  /** The step is a write that the server takes. */
  predicate Commits(s: System, e: Step) {
    e.Write? && e.ok && e.w in s.writers && s.writers[e.w].phase.Versioned? && Takes(s, e.w)
  }

  /** The version was re-read as it was first read. */
  predicate Clean(p: Phase)
    requires p.Versioned?
  {
    match p.base
    case None => p.seen.None?
    case Some(b) => p.seen == Some(b.version)
  }

  function DataOf(s: Option<Secret>): map<string, string> {
    match s
    case None => map[]
    case Some(x) => x.data
  }

  /**
   A commit whose version did not move between its two reads is atomic: exactly the pre-commit data
   overlaid, of the pre-commit type.
   */
  lemma CleanCommit(s: System, e: Step)
    requires Inv(s) && Commits(s, e) && Clean(s.writers[e.w].phase)
    ensures ContentOf(Do(s, e).secret) == Some(Atomically(ContentOf(s.secret), s.writers[e.w].job))
  {
  }

  /**
   Any merge that commits, clean or not: its data is the pre-commit data overlaid if and only if
   what it first read agrees with the pre-commit data on every key not given. A key that another
   writer changed between the two reads is put back as it was.
   */
  lemma CommitIff(s: System, e: Step)
    requires Inv(s) && Commits(s, e) && s.writers[e.w].job.merge
    ensures var w := s.writers[e.w];
            var was, base, now := DataOf(s.secret), DataOf(w.phase.base), DataOf(Do(s, e).secret);
            && (now == was + w.job.keys <==> forall k | k !in w.job.keys :: Get(was, k) == Get(base, k))
            && (forall k | k !in w.job.keys :: Get(now, k) == Get(base, k))
  {
    var w := s.writers[e.w];
    assert WriterOk(s, w);
    var was, base, now := DataOf(s.secret), DataOf(w.phase.base), DataOf(Do(s, e).secret);
    assert now == base + w.job.keys;
    if now == was + w.job.keys {
      forall k | k !in w.job.keys ensures Get(was, k) == Get(base, k) {
        assert Get(was, k) == Get(now, k);
      }
    }
    if forall k | k !in w.job.keys :: Get(was, k) == Get(base, k) {
      forall k ensures Get(now, k) == Get(was + w.job.keys, k) {
      }
      SameMap(now, was + w.job.keys);
    }
  }

  /******* Nobody in between *******/

  /** A step by which neither the Secret changes nor this writer moves. */
  ghost predicate Aside(s: System, e: Step, w: nat) {
    Do(s, e).secret == s.secret && (w in s.writers ==> w in Do(s, e).writers && Do(s, e).writers[w] == s.writers[w])
  }

  lemma {:induction false} AllAside(s: System, steps: seq<Step>, w: nat)
    requires w in s.writers
    requires forall i | 0 <= i < |steps| :: Aside(Run(s, steps[..i]), steps[i], w)
    ensures var t := Run(s, steps); t.secret == s.secret && w in t.writers && t.writers[w] == s.writers[w]
  {
    hide Do;
    if steps != [] {
      var init := steps[..|steps| - 1];
      forall i | 0 <= i < |init| ensures Aside(Run(s, init[..i]), init[i], w) {
        assert init[..i] == steps[..i];
      }
      AllAside(s, init, w);
      assert Aside(Run(s, steps[..|steps| - 1]), steps[|steps| - 1], w);
    }
  }

  /** A step of anybody but this writer. */
  predicate OfOthers(e: Step, w: nat) {
    e.ForeignWrite? || e.ForeignDelete? || e.w != w
  }

  /** While others move, a writer stays where it is. */
  lemma {:induction false} OthersLeave(s: System, steps: seq<Step>, w: nat)
    requires w in s.writers && forall i | 0 <= i < |steps| :: OfOthers(steps[i], w)
    ensures var t := Run(s, steps); w in t.writers && t.writers[w] == s.writers[w]
  {
    if steps != [] {
      OthersLeave(s, steps[..|steps| - 1], w);
      assert OfOthers(steps[|steps| - 1], w);
    }
  }

  /** With no write between a merge's first read and its re-read, and both answered, the commit is clean. */
  lemma UndisturbedIsClean(s: System, w: nat, between: seq<Step>)
    requires w in s.writers && s.writers[w].phase.Begun? && s.writers[w].job.merge
    requires var s1 := Do(s, Read(w, true)); forall i | 0 <= i < |between| ::
        Aside(Run(s1, between[..i]), between[i], w)
    ensures var s1 := Do(s, Read(w, true)); var s2 := Do(Run(s1, between), ReadVersion(w, true));
            && w in s2.writers && s2.writers[w].phase.Versioned? && Clean(s2.writers[w].phase)
            && s2.writers[w].job == s.writers[w].job
  {
    hide Run;
    AllAside(Do(s, Read(w, true)), between, w);
  }

  /** Whatever is in the cluster when nobody is writing is a starting point. */
  lemma IdleStart(secret: Option<Secret>, next: nat)
    ensures Inv(System(secret, next, map[])) <==> (secret.Some? ==> secret.value.version < next)
  {
  }

  /**
   A merge in the midst of others, from end to end: it reads, nobody writes the Secret, it reads the version,
   others do what they like, and its write is taken. Then the result is exactly the data of the moment
   of the write, overlaid with the keys given, of the type it had.
   */
  lemma MergeIsAtomic(s: System, w: nat, between: seq<Step>, after: seq<Step>)
    requires Inv(s) && w in s.writers && s.writers[w].phase.Begun? && s.writers[w].job.merge
    requires var s1 := Do(s, Read(w, true));
             forall i | 0 <= i < |between| ::
               OfOthers(between[i], w) && Do(Run(s1, between[..i]), between[i]).secret == Run(s1, between[..i]).secret
    requires forall i | 0 <= i < |after| :: OfOthers(after[i], w)
    ensures var s3 := Run(Do(Run(Do(s, Read(w, true)), between), ReadVersion(w, true)), after);
            Commits(s3, Write(w, true)) ==>
            ContentOf(Do(s3, Write(w, true)).secret) == Some(Atomically(ContentOf(s3.secret), s.writers[w].job))
  {
    hide Run;
    hide Inv;
    var s1 := Do(s, Read(w, true));
    forall i | 0 <= i < |between| ensures Aside(Run(s1, between[..i]), between[i], w) {
      assert OfOthers(between[i], w);
    }
    UndisturbedIsClean(s, w, between);
    var s2 := Do(Run(s1, between), ReadVersion(w, true));
    var s3 := Run(s2, after);
    OthersLeave(s2, after, w);
    StepKeeps(s, Read(w, true));
    RunKeeps(s1, between);
    StepKeeps(Run(s1, between), ReadVersion(w, true));
    RunKeeps(s2, after);
    if Commits(s3, Write(w, true)) {
      CleanCommit(s3, Write(w, true));
    }
  }

  /******* Whole runs *******/

  datatype Op = Call(job: Job) | Set(content: Content) | Remove

  function Apply(c: Option<Content>, op: Op): Option<Content> {
    match op
    case Call(job) => Some(Atomically(c, job))
    case Set(x) => Some(x)
    case Remove => None
  }

  function Replay(c: Option<Content>, ops: seq<Op>): Option<Content> {
    if ops == [] then c else Apply(Replay(c, ops[..|ops| - 1]), ops[|ops| - 1])
  }

  /** The writes of a step, at the moment the server takes them. */
  function OpsOf(s: System, e: Step): seq<Op> {
    match e
    case ForeignWrite(c) => [Set(c)]
    case ForeignDelete => [Remove]
    case _ => if Commits(s, e) then [Call(s.writers[e.w].job)] else []
  }

  function Log(s: System, steps: seq<Step>): seq<Op> {
    if steps == [] then []
    else Log(s, steps[..|steps| - 1]) + OpsOf(Run(s, steps[..|steps| - 1]), steps[|steps| - 1])
  }

  /** Every merge that commits does so on the version it first read. A replacing write need not. */
  predicate CleanStep(s: System, e: Step) {
    Commits(s, e) ==> !s.writers[e.w].job.merge || Clean(s.writers[e.w].phase)
  }

  lemma StepRefines(s: System, e: Step)
    requires Inv(s) && CleanStep(s, e)
    ensures ContentOf(Do(s, e).secret) == Replay(ContentOf(s.secret), OpsOf(s, e))
  {
  }

  lemma {:induction false} ReplayAppend(c: Option<Content>, a: seq<Op>, b: seq<Op>)
    ensures Replay(c, a + b) == Replay(Replay(c, a), b)
  {
    if b == [] {
      assert a + b == a;
    } else {
      assert (a + b)[..|a + b| - 1] == a + b[..|b| - 1];
      ReplayAppend(c, a, b[..|b| - 1]);
    }
  }

  /** Serialisable: a run of clean commits leaves the Secret as the calls made one after another in commit order. */
  lemma {:induction false} Serialisable(s: System, steps: seq<Step>)
    requires Inv(s)
    requires forall i | 0 <= i < |steps| :: CleanStep(Run(s, steps[..i]), steps[i])
    ensures ContentOf(Run(s, steps).secret) == Replay(ContentOf(s.secret), Log(s, steps))
  {
    hide Do;
    hide CleanStep;
    hide OpsOf;
    if steps != [] {
      var init, e := steps[..|steps| - 1], steps[|steps| - 1];
      forall i | 0 <= i < |init| ensures CleanStep(Run(s, init[..i]), init[i]) {
        assert init[..i] == steps[..i];
      }
      Serialisable(s, init);
      RunKeeps(s, init);
      assert CleanStep(Run(s, steps[..|steps| - 1]), steps[|steps| - 1]);
      StepRefines(Run(s, init), e);
      ReplayAppend(ContentOf(s.secret), Log(s, init), OpsOf(Run(s, init), e));
    }
  }

  /** When only merges commit, no key goes and the type stays. */
  lemma {:induction false} MergesKeepKeys(c: Content, ops: seq<Op>)
    requires c.typ != "" && forall i | 0 <= i < |ops| :: ops[i].Call? && ops[i].job.merge
    ensures var r := Replay(Some(c), ops); r.Some? && r.value.typ == c.typ && c.data.Keys <= r.value.data.Keys
  {
    if ops != [] {
      MergesKeepKeys(c, ops[..|ops| - 1]);
    }
  }

  /** Then every key ends with the value of the last merge that gave it. */
  lemma {:induction false} LastMergeWins(c: Content, ops: seq<Op>, i: nat, k: string)
    requires c.typ != "" && forall j | 0 <= j < |ops| :: ops[j].Call? && ops[j].job.merge
    requires i < |ops| && k in ops[i].job.keys && forall j | i < j < |ops| :: k !in ops[j].job.keys
    ensures var r := Replay(Some(c), ops); r.Some? && Get(r.value.data, k) == Some(ops[i].job.keys[k])
  {
    hide Replay;
    var init, last := ops[..|ops| - 1], ops[|ops| - 1];
    assert Replay(Some(c), ops) == Apply(Replay(Some(c), init), last) by { ReplaySnoc(Some(c), ops); }
    MergesKeepKeys(c, init);
    if i < |init| {
      LastMergeWins(c, init, i, k);
      assert k !in last.job.keys;
    }
  }

  lemma ReplaySnoc(c: Option<Content>, ops: seq<Op>)
    requires ops != []
    ensures Replay(c, ops) == Apply(Replay(c, ops[..|ops| - 1]), ops[|ops| - 1])
  {
  }

  /** A schedule that loses another writer's key: it lands between the first read and the re-read. */
  lemma LostUpdate(old_: Content, keys: map<string, string>, foreign: Content, k: string)
    requires k !in keys && k in foreign.data && k !in old_.data
    ensures var s := System(Some(Secret(old_.typ, old_.data, 0)), 1,
        map[0 := Writer(Job(true, old_.typ, keys), Begun)]);
            var t := Do(Do(Do(Do(s, Read(0, true)), ForeignWrite(foreign)), ReadVersion(0, true)), Write(0, true));
            0 in t.writers && t.writers[0].phase == Committed && k !in DataOf(t.secret)
  {
    var s := System(Some(Secret(old_.typ, old_.data, 0)), 1, map[0 := Writer(Job(true, old_.typ, keys), Begun)]);
    var s1 := Do(s, Read(0, true));
    assert s1.writers[0].phase.data == old_.data + keys;
    var s3 := Do(Do(s1, ForeignWrite(foreign)), ReadVersion(0, true));
    assert s3.writers[0].phase.seen == Some(1);
  }
}
