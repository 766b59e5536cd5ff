/** Stripping cluster bookkeeping from an object tree for export. */
module Export {
  import opened Common
  import opened Text

  datatype Json = Str(text: string) | Plain(text: string) | Arr(items: seq<Json>) | Obj(fields: map<string, Json>)
  type Tree = map<string, Json>
  type Path = seq<string>

  /******* Nested fields *******/

  /** Deletes a field, unless something on the way to it is not an object. */
  function Remove(m: Tree, p: Path): Tree
    requires p != []
    decreases |p|
  {
    if |p| == 1 then m - {p[0]}
    else if p[0] in m && m[p[0]].Obj? then m[p[0] := Obj(Remove(m[p[0]].fields, p[1..]))]
    else m
  }

  /** Sets a field, making objects on the way to it; nothing happens if something there is not an object. */
  function Put(m: Tree, p: Path, v: Json): Tree
    requires p != []
    decreases |p|
  {
    if |p| == 1 then m[p[0] := v]
    else if p[0] !in m then m[p[0] := Obj(Put(map[], p[1..], v))]
    else if m[p[0]].Obj? then m[p[0] := Obj(Put(m[p[0]].fields, p[1..], v))]
    else m
  }

  function Lookup(m: Tree, p: Path): Option<Json>
    requires p != []
    decreases |p|
  {
    if p[0] !in m then None
    else if |p| == 1 then Some(m[p[0]])
    else if m[p[0]].Obj? then Lookup(m[p[0]].fields, p[1..])
    else None
  }

  /******* What there is to see at a path *******/

  datatype Sight = Nothing | Object | Leaf(value: Json)

  function Seen(v: Json, q: Path): Sight
    decreases |q|, 1
  {
    if v.Obj? then View(v.fields, q) else if q == [] then Leaf(v) else Nothing
  }

  function View(m: Tree, q: Path): Sight
    decreases |q|, 0
  {
    if q == [] then Object
    else if q[0] !in m then Nothing
    else Seen(m[q[0]], q[1..])
  }

  lemma SeenHere(v: Json)
    ensures Seen(v, []) == if v.Obj? then Object else Leaf(v)
  {
  }

  lemma ViewUnder(m: Tree, k: string, q: Path)
    ensures View(m, [k] + q) == if k in m then Seen(m[k], q) else Nothing
  {
  }

  lemma SameField(f: Tree, g: Tree, k: string)
    requires forall q :: View(f, q) == View(g, q)
    ensures k in f <==> k in g
    ensures k in f ==> forall q :: Seen(f[k], q) == Seen(g[k], q)
  {
    hide View;
    hide Seen;
    ViewUnder(f, k, []);
    ViewUnder(g, k, []);
    if k in f {
      SeenHere(f[k]);
    }
    if k in g {
      SeenHere(g[k]);
    }
    forall q | k in f ensures Seen(f[k], q) == Seen(g[k], q) {
      ViewUnder(f, k, q);
      ViewUnder(g, k, q);
    }
  }

  /** A tree is what there is to see in it. */
  lemma {:induction false} SameView(a: Json, b: Json)
    requires a.Obj? && b.Obj? && forall q :: View(a.fields, q) == View(b.fields, q)
    ensures a == b
    decreases a
  {
    var f, g := a.fields, b.fields;
    forall k ensures k in f <==> k in g {
      SameField(f, g, k);
    }
    forall k | k in f ensures f[k] == g[k] {
      SameField(f, g, k);
      SeenHere(f[k]);
      SeenHere(g[k]);
      assert Seen(f[k], []) == Seen(g[k], []);
      if f[k].Obj? {
        forall q ensures View(f[k].fields, q) == View(g[k].fields, q) {
          assert Seen(f[k], q) == Seen(g[k], q);
        }
        SameView(f[k], g[k]);
      }
    }
  }

  /** Removing a path takes away what is at or under it, and nothing else. */
  lemma {:induction false} RemoveView(m: Tree, p: Path, q: Path)
    requires p != []
    ensures View(Remove(m, p), q) == if p <= q then Nothing else View(m, q)
    decreases |p|
  {
    if q != [] && q[0] == p[0] {
      if |p| == 1 {
        assert p <= q;
      } else if p[0] in m && m[p[0]].Obj? {
        RemoveView(m[p[0]].fields, p[1..], q[1..]);
        assert p <= q <==> p[1..] <= q[1..];
      } else if p <= q {
        assert q[1..] != [];
      }
    }
  }

  /** Setting a field of an existing object shows the new value at its path, and all else as before. */
  lemma {:induction false} PutView(m: Tree, p: Path, v: Json, q: Path)
    requires p != [] && View(m, p[..|p| - 1]) == Object
    ensures View(Put(m, p, v), q) == if p <= q then Seen(v, q[|p|..]) else View(m, q)
    decreases |p|
  {
    if |p| == 1 {
      assert p <= q <==> q != [] && q[0] == p[0];
    } else {
      var init := p[..|p| - 1];
      assert init[0] == p[0] && init[1..] == p[1..][..|p| - 2];
      if q != [] && q[0] == p[0] {
        PutView(m[p[0]].fields, p[1..], v, q[1..]);
        assert p <= q <==> p[1..] <= q[1..];
        assert p <= q ==> q[|p|..] == q[1..][|p| - 1..];
      }
    }
  }

  lemma {:induction false} LookupView(m: Tree, p: Path, r: Path)
    requires p != []
    ensures Lookup(m, p).Some? ==> View(m, p + r) == Seen(Lookup(m, p).value, r) && View(m, p[..|p| - 1]) == Object
    ensures Lookup(m, p).None? ==> View(m, p + r) == Nothing
    decreases |p|
  {
    assert (p + r)[1..] == p[1..] + r;
    if |p| == 1 {
      assert p[1..] == [];
      assert p[1..] + r == r;
      assert p[..0] == [];
    } else if p[0] in m && m[p[0]].Obj? {
      LookupView(m[p[0]].fields, p[1..], r);
      assert p[..|p| - 1][1..] == p[1..][..|p| - 2];
    }
  }

  /******* The passes *******/

  const ANNOTATIONS: Path := ["metadata", "annotations"]
  const TEMPLATES: Path := ["spec", "volumeClaimTemplates"]

  const APPLY_FIELDS: seq<Path> :=
    [["status"], ["metadata", "creationTimestamp"], ["metadata", "managedFields"], ["metadata", "resourceVersion"],
      ["metadata", "uid"]]

  const EXPORT_FIELDS: seq<Path> :=
    [["metadata", "generation"], ["metadata", "ownerReferences"], ["metadata", "finalizers"],
     ["metadata", "annotations", "kubectl.kubernetes.io/last-applied-configuration"],
     ["metadata", "annotations", "deployment.kubernetes.io/revision"],
     ["spec", "template", "metadata", "creationTimestamp"], ["spec", "clusterIP"], ["spec", "clusterIPs"],
       ["spec", "volumeName"]]

  const LISTED: seq<Path> := APPLY_FIELDS + EXPORT_FIELDS

  predicate Fields(ps: seq<Path>) {
    forall i | 0 <= i < |ps| :: ps[i] != []
  }

  function RemoveAll(m: Tree, ps: seq<Path>): Tree
    requires Fields(ps)
  {
    if ps == [] then m else Remove(RemoveAll(m, ps[..|ps| - 1]), ps[|ps| - 1])
  }

  /** An annotation that records volume binding on this cluster. */
  predicate ClusterKey(k: string) {
    HasPrefix(k, "pv.kubernetes.io/") || HasPrefix(k, "volume.kubernetes.io/")
      || HasPrefix(k, "volume.beta.kubernetes.io/")
  }

  /** The annotations, which are readable only if every one of them is a text. */
  function Annotations(m: Tree, at: Path): Option<Tree>
    requires at != []
  {
    match Lookup(m, at)
    case Some(Obj(f)) => if forall k | k in f :: f[k].Str? then Some(f) else None
    case _ => None
  }

  function Own(f: Tree): Tree {
    map k | k in f && !ClusterKey(k) :: f[k]
  }

  function CleanAnnotations(m: Tree, at: Path): Tree
    requires at != []
  {
    var a := Annotations(m, at);
    if a.Some? && Own(a.value) != map[] then Put(m, at, Obj(Own(a.value))) else Remove(m, at)
  }

  /** An embedded claim without its own timestamp and status. */
  function CleanTemplate(t: Json): Json {
    if t.Obj? then Obj(Remove(Remove(t.fields, ["status"]), ["metadata", "creationTimestamp"])) else t
  }

  function CleanItems(ts: seq<Json>): seq<Json> {
    seq(|ts|, i requires 0 <= i < |ts| => CleanTemplate(ts[i]))
  }

  function CleanTemplates(m: Tree, at: Path): Tree
    requires at != []
  {
    match Lookup(m, at)
    case Some(Arr(ts)) => Put(m, at, Arr(CleanItems(ts)))
    case _ => m
  }

  function Cleaned(m: Tree): Tree {
    CleanTemplates(CleanAnnotations(RemoveAll(m, LISTED), ANNOTATIONS), TEMPLATES)
  }

  /** An object of the cluster, changed in place. */
  class Unstructured {
    var tree: Tree

    constructor (tree: Tree)
      ensures this.tree == tree
    {
      this.tree := tree;
    }

    method RemoveFields(ps: seq<Path>)
      requires Fields(ps)
      modifies this
      ensures tree == RemoveAll(old(tree), ps)
    {
      for i := 0 to |ps|
        invariant tree == RemoveAll(old(tree), ps[..i])
      {
        assert ps[..i + 1][..i] == ps[..i];
        tree := Remove(tree, ps[i]);
      }
      assert ps[..|ps|] == ps;
    }

    /** Drops the volume binding annotations, and the whole map when none are left or they cannot be read. */
    method DropBinding(at: Path)
      requires at != []
      modifies this
      ensures tree == CleanAnnotations(old(tree), at)
    {
      hide ClusterKey;
      hide Put;
      hide Remove;
      hide Lookup;
      var anns := Annotations(tree, at);
      if anns.Some? && anns.value != map[] {
        var kept := Unbound(anns.value);
        assert Lookup(tree, at) == Some(Obj(anns.value));
        ReadBack(tree, at, kept);
        PutRemove(tree, at, Obj(kept));
        tree := Put(tree, at, Obj(kept));
      }
      var left := Annotations(tree, at);
      if left.None? || left.value == map[] {
        tree := Remove(tree, at);
      }
    }

    method CleanClaims(at: Path)
      requires at != []
      modifies this
      ensures tree == CleanTemplates(old(tree), at)
    {
      hide CleanTemplate;
      hide Put;
      hide Lookup;
      var found := Lookup(tree, at);
      if found.Some? && found.value.Arr? {
        var ts := found.value.items;
        var cleaned := [];
        for i := 0 to |ts|
          invariant tree == old(tree) && cleaned == CleanItems(ts[..i])
        {
          cleaned := cleaned + [CleanTemplate(ts[i])];
        }
        assert ts[..|ts|] == ts;
        tree := Put(tree, at, Arr(cleaned));
      }
    }

    method CleanForExport()
      modifies this
      ensures tree == Cleaned(old(tree))
    {
      hide RemoveAll;
      hide CleanAnnotations;
      hide CleanTemplates;
      RemoveFields(LISTED);
      DropBinding(ANNOTATIONS);
      CleanClaims(TEMPLATES);
    }
  }

  method Unbound(f: Tree) returns (kept: Tree)
    ensures kept == Own(f)
  {
    hide ClusterKey;
    kept := f;
    var todo := f.Keys;
    while todo != {}
      invariant todo <= f.Keys
      invariant kept == map k | k in f && (k in todo || !ClusterKey(k)) :: f[k]
      decreases |todo|
    {
      var k :| k in todo;
      if ClusterKey(k) {
        kept := kept - {k};
      }
      todo := todo - {k};
    }
  }

  /** What was put over an existing field is read back. */
  lemma {:induction false} ReadBack(m: Tree, at: Path, f: Tree)
    requires at != [] && Lookup(m, at).Some?
    ensures Lookup(Put(m, at, Obj(f)), at) == Some(Obj(f))
    decreases |at|
  {
    if |at| > 1 {
      ReadBack(m[at[0]].fields, at[1..], f);
    }
  }

  lemma {:induction false} PutRemove(m: Tree, at: Path, v: Json)
    requires at != [] && Lookup(m, at).Some?
    ensures Remove(Put(m, at, v), at) == Remove(m, at)
    decreases |at|
  {
    if |at| > 1 {
      PutRemove(m[at[0]].fields, at[1..], v);
    }
  }

  /******* What cleaning does, path by path *******/

  ghost predicate Covers(ps: seq<Path>, q: Path) {
    exists i | 0 <= i < |ps| :: ps[i] <= q
  }

  lemma {:induction false} RemoveAllView(m: Tree, ps: seq<Path>, q: Path)
    requires Fields(ps)
    ensures View(RemoveAll(m, ps), q) == if Covers(ps, q) then Nothing else View(m, q)
  {
    hide View;
    hide Remove;
    if ps != [] {
      var n := |ps| - 1;
      RemoveAllView(m, ps[..n], q);
      RemoveView(RemoveAll(m, ps[..n]), ps[n], q);
      assert Covers(ps, q) <==> Covers(ps[..n], q) || ps[n] <= q by {
        assert forall i | 0 <= i < n :: ps[..n][i] == ps[i];
      }
    }
  }

  /** Some annotation other than a binding one is left, and all are readable. */
  predicate Keeps(m: Tree, at: Path)
    requires at != []
  {
    Annotations(m, at).Some? && exists k :: k in Annotations(m, at).value && !ClusterKey(k)
  }

  predicate Binding(at: Path, q: Path) {
    && at <= q && |q| > |at|
    && (|| HasPrefix(q[|at|], "pv.kubernetes.io/") || HasPrefix(q[|at|], "volume.kubernetes.io/")
        || HasPrefix(q[|at|], "volume.beta.kubernetes.io/"))
  }

  lemma BindingIff(at: Path, q: Path)
    ensures Binding(at, q) <==> at <= q && |q| > |at| && ClusterKey(q[|at|])
  {
  }

  lemma OwnView(f: Tree, q: Path)
    ensures View(Own(f), q) == if q != [] && ClusterKey(q[0]) then Nothing else View(f, q)
  {
  }

  lemma KeepsIff(m: Tree, at: Path)
    requires at != []
    ensures Keeps(m, at) <==> Annotations(m, at).Some? && Own(Annotations(m, at).value) != map[]
  {
    hide ClusterKey;
    hide Annotations;
    var a := Annotations(m, at);
    if a.Some? {
      if k :| k in a.value && !ClusterKey(k) {
        assert k in Own(a.value);
      } else {
        assert Own(a.value) == map[];
      }
    }
  }

  lemma AnnotationsView(m: Tree, at: Path, q: Path)
    requires at != []
    ensures View(CleanAnnotations(m, at), q) ==
            if Binding(at, q) || (at <= q && !Keeps(m, at)) then Nothing else View(m, q)
  {
    hide ClusterKey;
    hide Binding;
    hide View;
    hide Seen;
    hide Own;
    hide Put;
    hide Remove;
    hide Lookup;
    BindingIff(at, q);
    KeepsIff(m, at);
    RemoveView(m, at, q);
    if Keeps(m, at) {
      var f := Annotations(m, at).value;
      LookupView(m, at, []);
      PutView(m, at, Obj(Own(f)), q);
      if at <= q {
        var r := q[|at|..];
        assert q == at + r;
        LookupView(m, at, r);
        SeenObj(f, r);
        SeenObj(Own(f), r);
        OwnView(f, r);
      }
    }
  }

  lemma SeenObj(f: Tree, q: Path)
    ensures Seen(Obj(f), q) == View(f, q)
  {
  }

  function CleanSight(s: Sight): Sight {
    if s.Leaf? && s.value.Arr? then Leaf(Arr(CleanItems(s.value.items))) else s
  }

  ghost function ClaimSight(f: Tree, q: Path): Sight {
    if ["status"] <= q || ["metadata", "creationTimestamp"] <= q then Nothing else View(f, q)
  }

  /** An embedded claim shows everything but its status and the time it was created. */
  ghost predicate ClaimShown(t: Json, u: Json) {
    if t.Obj? then u.Obj? && forall q :: View(u.fields, q) == ClaimSight(t.fields, q) else u == t
  }

  /** Each embedded claim of a list in its place; anything else as it was. */
  ghost predicate ClaimsShown(s: Sight, s': Sight) {
    if s.Leaf? && s.value.Arr? then
      && s'.Leaf? && s'.value.Arr? && |s'.value.items| == |s.value.items|
      && forall i | 0 <= i < |s.value.items| :: ClaimShown(s.value.items[i], s'.value.items[i])
    else s' == s
  }

  lemma CleanSightShows(s: Sight)
    ensures ClaimsShown(s, CleanSight(s))
  {
    if s.Leaf? && s.value.Arr? {
      forall i | 0 <= i < |s.value.items| ensures ClaimShown(s.value.items[i], CleanTemplate(s.value.items[i])) {
        TemplateShows(s.value.items[i]);
      }
    }
  }

  lemma TemplateShows(t: Json)
    ensures ClaimShown(t, CleanTemplate(t))
  {
    hide View;
    hide Remove;
    if t.Obj? {
      var m := Remove(t.fields, ["status"]);
      forall q ensures View(Remove(m, ["metadata", "creationTimestamp"]), q) == ClaimSight(t.fields, q) {
        RemoveView(t.fields, ["status"], q);
        RemoveView(m, ["metadata", "creationTimestamp"], q);
      }
    }
  }

  lemma TemplatesView(m: Tree, at: Path, q: Path)
    requires at != []
    ensures View(CleanTemplates(m, at), q) == if q == at then CleanSight(View(m, q)) else View(m, q)
  {
    hide View;
    hide Seen;
    hide Put;
    hide Lookup;
    hide CleanItems;
    var found := Lookup(m, at);
    LookupView(m, at, []);
    assert at + [] == at;
    if found.Some? {
      SeenHere(found.value);
    }
    if found.Some? && found.value.Arr? {
      var v := Arr(CleanItems(found.value.items));
      PutView(m, at, v, q);
      SeenHere(v);
      if at <= q {
        var r := q[|at|..];
        assert q == at + r;
        LookupView(m, at, r);
        if r == [] {
          assert q == at;
        } else {
          SeenLeaf(found.value, r);
          SeenLeaf(v, r);
        }
      }
    }
  }

  lemma SeenLeaf(v: Json, q: Path)
    requires !v.Obj? && q != []
    ensures Seen(v, q) == Nothing
  {
  }

  /** The fields an export never has, whatever the object: listed ones and binding annotations. */
  ghost predicate Stripped(q: Path) {
    Covers(LISTED, q) || Binding(ANNOTATIONS, q)
  }

  /** Whether any annotation survives. */
  predicate Annotated(m: Tree) {
    Keeps(RemoveAll(m, LISTED), ANNOTATIONS)
  }

  /**
   The export, exactly: at every path there is nothing if the path is stripped, or if it is an
   annotation and none survive; cleaned claim templates; and else what the object has there.
   */
  lemma CleanedView(m: Tree, q: Path)
    ensures View(Cleaned(m), q) ==
            if Stripped(q) || (ANNOTATIONS <= q && !Annotated(m)) then Nothing
            else if q == TEMPLATES then CleanSight(View(m, q))
            else View(m, q)
  {
    hide View;
    hide RemoveAll;
    hide CleanAnnotations;
    hide CleanTemplates;
    hide Keeps;
    hide Covers;
    hide Binding;
    var m1 := RemoveAll(m, LISTED);
    RemoveAllView(m, LISTED, q);
    AnnotationsView(m1, ANNOTATIONS, q);
    TemplatesView(CleanAnnotations(m1, ANNOTATIONS), TEMPLATES, q);
  }

  /******* Laws *******/

  predicate IsText(s: Sight) {
    s.Leaf? && s.value.Str?
  }

  lemma {:induction false} ViewLookup(m: Tree, at: Path)
    requires at != [] && View(m, at) != Nothing
    ensures Lookup(m, at).Some? && Seen(Lookup(m, at).value, []) == View(m, at)
  {
    hide View;
    hide Lookup;
    LookupView(m, at, []);
    assert at + [] == at;
  }

  lemma FieldView(m: Tree, at: Path, k: string)
    requires at != [] && Lookup(m, at).Some? && Lookup(m, at).value.Obj?
    ensures var f := Lookup(m, at).value.fields;
            View(m, at + [k]) == if k in f then (if f[k].Obj? then Object else Leaf(f[k])) else Nothing
  {
    hide Lookup;
    LookupView(m, at, [k]);
    var f := Lookup(m, at).value.fields;
    assert [k] + [] == [k];
    ViewUnder(f, k, []);
    if k in f {
      SeenHere(f[k]);
    }
  }

  /** Whether annotations survive, in terms of what is to be seen. */
  lemma KeepsView(m: Tree, at: Path)
    requires at != []
    ensures Keeps(m, at) <==>
            && View(m, at) == Object
            && (forall k :: View(m, at + [k]) == Nothing || IsText(View(m, at + [k])))
            && (exists k :: !ClusterKey(k) && View(m, at + [k]) != Nothing)
  {
    hide View;
    hide Seen;
    hide Lookup;
    hide ClusterKey;
    LookupView(m, at, []);
    assert at + [] == at;
    var found := Lookup(m, at);
    if found.Some? {
      SeenHere(found.value);
      if found.value.Obj? {
        var f := found.value.fields;
        forall k ensures View(m, at + [k]) == if k in f then (if f[k].Obj? then Object else Leaf(f[k])) else Nothing {
          FieldView(m, at, k);
        }
        assert (forall k :: View(m, at + [k]) == Nothing || IsText(View(m, at + [k]))) <==>
            (forall k | k in f :: f[k].Str?) by {
          if forall k :: View(m, at + [k]) == Nothing || IsText(View(m, at + [k])) {
            forall k | k in f ensures f[k].Str? {
              assert View(m, at + [k]) == Nothing || IsText(View(m, at + [k]));
            }
          }
        }
        assert (exists k :: !ClusterKey(k) && View(m, at + [k]) != Nothing) <==>
            (exists k :: k in f && !ClusterKey(k)) by {
          if k :| k in f && !ClusterKey(k) {
            assert View(m, at + [k]) != Nothing;
          }
        }
      }
    }
  }

  /** Cleaning keeps annotations readable and does not empty them a second time. */
  lemma StillAnnotated(m: Tree)
    requires Annotated(m)
    ensures Annotated(Cleaned(m))
  {
    hide View;
    hide RemoveAll;
    hide Keeps;
    hide Cleaned;
    hide ClusterKey;
    hide CleanItems;
    hide Covers;
    var c, at := Cleaned(m), ANNOTATIONS;
    var m1, c1 := RemoveAll(m, LISTED), RemoveAll(c, LISTED);
    KeepsView(m1, at);
    KeepsView(c1, at);
    forall q | at <= q && !Binding(at, q)
        ensures View(c1, q) == View(m1, q) || (q == TEMPLATES && View(c1, q) == CleanSight(View(m1, q))) {
      RemoveAllView(m, LISTED, q);
      RemoveAllView(c, LISTED, q);
      CleanedView(m, q);
    }
    forall k ensures View(c1, at + [k]) == if ClusterKey(k) then Nothing else View(m1, at + [k]) {
      RemoveAllView(c, LISTED, at + [k]);
      CleanedView(m, at + [k]);
      BindingIff(at, at + [k]);
      assert |at + [k]| == 3;
    }
    var k :| !ClusterKey(k) && View(m1, at + [k]) != Nothing;
    assert View(c1, at + [k]) != Nothing;
  }

  lemma CleanTemplateTwice(t: Json)
    ensures CleanTemplate(CleanTemplate(t)) == CleanTemplate(t)
  {
    if t.Obj? {
      RemoveTwice(t.fields, ["status"], ["metadata", "creationTimestamp"]);
    }
  }

  lemma RemoveTwice(m: Tree, p: Path, r: Path)
    requires p != [] && r != []
    ensures Remove(Remove(Remove(Remove(m, p), r), p), r) == Remove(Remove(m, p), r)
  {
    hide View;
    hide Remove;
    var m2 := Remove(Remove(m, p), r);
    var m4 := Remove(Remove(m2, p), r);
    forall q ensures View(m4, q) == View(m2, q) {
      RemoveView(m, p, q);
      RemoveView(Remove(m, p), r, q);
      RemoveView(m2, p, q);
      RemoveView(Remove(m2, p), r, q);
    }
    SameView(Obj(m4), Obj(m2));
  }

  lemma CleanSightTwice(s: Sight)
    ensures CleanSight(CleanSight(s)) == CleanSight(s)
  {
    hide CleanTemplate;
    if s.Leaf? && s.value.Arr? {
      var ts := s.value.items;
      forall i | 0 <= i < |ts| ensures CleanItems(CleanItems(ts))[i] == CleanItems(ts)[i] {
        CleanTemplateTwice(ts[i]);
      }
      assert CleanItems(CleanItems(ts)) == CleanItems(ts);
    }
  }

  /** Cleaning is idempotent. */
  lemma CleanedTwice(m: Tree)
    ensures Cleaned(Cleaned(m)) == Cleaned(m)
  {
    hide View;
    hide Cleaned;
    hide Stripped;
    hide Annotated;
    hide CleanItems;
    var c := Cleaned(m);
    if Annotated(m) {
      StillAnnotated(m);
    }
    forall q ensures View(Cleaned(c), q) == View(c, q) {
      CleanedView(c, q);
      CleanedView(m, q);
      CleanSightTwice(View(m, q));
    }
    SameView(Obj(Cleaned(c)), Obj(c));
  }

  /** Every annotation that is not listed for removal is a text. */
  ghost predicate Texts(m: Tree) {
    forall k :: var s := View(RemoveAll(m, LISTED), ANNOTATIONS + [k]); s == Nothing || IsText(s)
  }

  /** Trees that differ only in stripped fields and in the timestamps and status of claim templates. */
  ghost predicate SameButStripped(a: Tree, b: Tree) {
    && (forall q | !Stripped(q) && q != TEMPLATES :: View(a, q) == View(b, q))
    && CleanSight(View(a, TEMPLATES)) == CleanSight(View(b, TEMPLATES))
  }

  lemma AnnotatedAlike(a: Tree, b: Tree)
    requires SameButStripped(a, b) && Texts(a) && Texts(b) && Annotated(a)
    ensures Annotated(b)
  {
    hide View;
    hide RemoveAll;
    hide Keeps;
    hide ClusterKey;
    hide Covers;
    hide CleanSight;
    var at := ANNOTATIONS;
    var a1, b1 := RemoveAll(a, LISTED), RemoveAll(b, LISTED);
    KeepsView(a1, at);
    KeepsView(b1, at);
    assert at != TEMPLATES by { assert at[0][0] == 'm' && TEMPLATES[0][0] == 's'; }
    RemoveAllView(a, LISTED, at);
    RemoveAllView(b, LISTED, at);
    var k :| !ClusterKey(k) && View(a1, at + [k]) != Nothing;
    var q := at + [k];
    assert |q| == 3 && q[2] == k;
    RemoveAllView(a, LISTED, q);
    RemoveAllView(b, LISTED, q);
    BindingIff(at, q);
    assert !Stripped(q);
  }

  /** Such trees, with readable annotations, export alike. */
  lemma SameExport(a: Tree, b: Tree)
    requires SameButStripped(a, b) && Texts(a) && Texts(b)
    ensures Cleaned(a) == Cleaned(b)
  {
    hide View;
    hide Cleaned;
    hide Stripped;
    hide Annotated;
    hide CleanSight;
    hide Texts;
    if Annotated(a) {
      AnnotatedAlike(a, b);
    }
    if Annotated(b) {
      AnnotatedAlike(b, a);
    }
    forall q ensures View(Cleaned(a), q) == View(Cleaned(b), q) {
      CleanedView(a, q);
      CleanedView(b, q);
    }
    SameView(Obj(Cleaned(a)), Obj(Cleaned(b)));
  }

  /** Readable annotations are needed: with one that is not a text, the export has none at all. */
  lemma UnreadableLosesAll(m: Tree, q: Path)
    requires !Texts(m) && ANNOTATIONS <= q
    ensures View(Cleaned(m), q) == Nothing
  {
    hide View;
    hide Cleaned;
    hide Stripped;
    hide Keeps;
    hide RemoveAll;
    hide ClusterKey;
    KeepsView(RemoveAll(m, LISTED), ANNOTATIONS);
    CleanedView(m, q);
  }

  /******* Rendering *******/

  const DATA: Path := ["data"]
  const REDACTED := Str("<redacted>")
  const NOTE := "orcinus.io/redacted"
  const NOTICE := Str("values omitted; re-export with --show-secrets")

  function Marks(f: Tree): Tree {
    map k | k in f :: REDACTED
  }

  /** Every value of a Secret's data replaced, and a note that they were. */
  function Redacted(m: Tree): Tree {
    match Lookup(m, DATA)
    case Some(Obj(f)) =>
      var m1 := Put(m, DATA, Obj(Marks(f)));
      var a := Annotations(m1, ANNOTATIONS);
      Put(m1, ANNOTATIONS, Obj((if a.Some? then a.value else map[])[NOTE := NOTICE]))
    case _ => m
  }

  function Rendered(m: Tree, showSecrets: bool): Tree {
    var c := Cleaned(m);
    if !showSecrets && Lookup(c, ["kind"]) == Some(Str("Secret")) then Redacted(c) else c
  }

  lemma ViewRoot(m: Tree)
    ensures View(m, []) == Object
  {
  }

  /** Setting a field leaves what is under another first key alone. */
  lemma PutElsewhere(m: Tree, p: Path, v: Json, q: Path)
    requires p != [] && q != [] && q[0] != p[0]
    ensures View(Put(m, p, v), q) == View(m, q)
  {
  }

  predicate Under(q: Path, p: Path) {
    p <= q && |p| < |q|
  }

  /** Redaction under "data", at any depth and whatever is there. */
  lemma RedactedUnder(m: Tree, q: Path)
    requires Under(q, DATA)
    ensures View(Redacted(m), q) == if |q| == 2 && View(m, q) != Nothing then Leaf(REDACTED) else Nothing
  {
    hide View;
    hide Lookup;
    hide Annotations;
    hide Put;
    assert q == DATA + q[1..];
    LookupView(m, DATA, q[1..]);
    LookupView(m, DATA, []);
    assert DATA + [] == DATA;
    if View(m, DATA) == Object {
      ViewLookup(m, DATA);
      var v := Lookup(m, DATA).value;
      SeenHere(v);
      RedactedObject(m, v.fields, q);
    } else if Lookup(m, DATA).Some? {
      SeenHere(Lookup(m, DATA).value);
      SeenLeaf(Lookup(m, DATA).value, q[1..]);
    }
  }

  lemma RedactedIs(m: Tree, f: Tree) returns (notes: Json)
    requires Lookup(m, DATA) == Some(Obj(f))
    ensures Redacted(m) == Put(Put(m, DATA, Obj(Marks(f))), ANNOTATIONS, notes)
  {
    var a := Annotations(Put(m, DATA, Obj(Marks(f))), ANNOTATIONS);
    notes := Obj((if a.Some? then a.value else map[])[NOTE := NOTICE]);
  }

  lemma RedactedObject(m: Tree, f: Tree, q: Path)
    requires Under(q, DATA) && Lookup(m, DATA) == Some(Obj(f))
    ensures View(Redacted(m), q) == if |q| == 2 && View(m, q) != Nothing then Leaf(REDACTED) else Nothing
  {
    hide View;
    hide Seen;
    hide Lookup;
    hide Put;
    hide Redacted;
    hide Marks;
    var notes := RedactedIs(m, f);
    var m1 := Put(m, DATA, Obj(Marks(f)));
    assert q[0] == DATA[0] && q[0] != ANNOTATIONS[0] by { assert DATA[0][0] == 'd' && ANNOTATIONS[0][0] == 'm'; }
    PutElsewhere(m1, ANNOTATIONS, notes, q);
    ViewRoot(m);
    assert DATA[..|DATA| - 1] == [];
    PutView(m, DATA, Obj(Marks(f)), q);
    SeenObj(Marks(f), q[1..]);
    MarksView(f, q[1..]);
    LookupView(m, DATA, q[1..]);
    assert q == DATA + q[1..];
    SeenObj(f, q[1..]);
  }

  /** A map of marks shows one mark for each key, and nothing below. */
  lemma MarksView(f: Tree, q: Path)
    requires q != []
    ensures View(Marks(f), q) == if |q| == 1 && View(f, q) != Nothing then Leaf(REDACTED) else Nothing
  {
    assert [q[0]] + q[1..] == q;
    ViewUnder(f, q[0], q[1..]);
    ViewUnder(Marks(f), q[0], q[1..]);
    if |q| == 1 {
      SeenHere(REDACTED);
      if q[0] in f {
        SeenHere(f[q[0]]);
      }
    } else {
      SeenLeaf(REDACTED, q[1..]);
    }
  }

  /** No value under "data" is left, and no key is lost. */
  lemma RedactedData(m: Tree, k: string)
    ensures View(Redacted(m), DATA + [k]) == if View(m, DATA + [k]) == Nothing then Nothing else Leaf(REDACTED)
  {
    hide View;
    hide Redacted;
    RedactedUnder(m, DATA + [k]);
  }

  /**
   What a document shows under "data", in terms of the object it was made from: of a Secret, unless its
   values were asked for, every key with nothing but the mark; of anything else exactly what is there.
   */
  ghost predicate ShowsData(doc: Tree, item: Tree, showSecrets: bool) {
    forall q | Under(q, DATA) :: View(doc, q) ==
      if !showSecrets && View(item, ["kind"]) == Leaf(Str("Secret"))
      then (if |q| == 2 && View(item, q) != Nothing then Leaf(Str("<redacted>")) else Nothing)
      else View(item, q)
  }

  /** Everything apart from the data and the annotations is shown as it is exported. */
  ghost predicate ShowsRest(doc: Tree, item: Tree) {
    forall q | q != [] && q[0] != "data" && q[0] != "metadata" ::
      if Stripped(q) then View(doc, q) == Nothing
      else if q == TEMPLATES then ClaimsShown(View(item, q), View(doc, q))
      else View(doc, q) == View(item, q)
  }

  lemma KindView(m: Tree)
    ensures Lookup(Cleaned(m), ["kind"]) == Some(Str("Secret")) <==> View(m, ["kind"]) == Leaf(Str("Secret"))
  {
    hide View;
    hide Lookup;
    hide Cleaned;
    hide Annotated;
    var c, kind := Cleaned(m), ["kind"];
    CleanedView(m, kind);
    assert kind[0][0] == 'k' && forall i | 0 <= i < |LISTED| :: LISTED[i][0][0] == 's' || LISTED[i][0][0] == 'm';
    assert !Stripped(kind) && !(ANNOTATIONS <= kind) && kind != TEMPLATES;
    assert kind + [] == kind;
    LookupView(c, kind, []);
    if Lookup(c, kind).Some? {
      SeenHere(Lookup(c, kind).value);
    }
  }

  lemma DataView(m: Tree, q: Path)
    requires DATA <= q
    ensures View(Cleaned(m), q) == View(m, q)
  {
    hide View;
    hide Cleaned;
    hide Annotated;
    CleanedView(m, q);
    assert q[0] == DATA[0] && DATA[0][0] == 'd' && TEMPLATES[0][0] == 's' && ANNOTATIONS[0][0] == 'm'
      && forall i | 0 <= i < |LISTED| :: LISTED[i][0][0] == 's' || LISTED[i][0][0] == 'm';
  }

  lemma RenderedShows(m: Tree, showSecrets: bool)
    ensures ShowsData(Rendered(m, showSecrets), m, showSecrets) && ShowsRest(Rendered(m, showSecrets), m)
  {
    hide View;
    hide Lookup;
    hide Cleaned;
    hide Redacted;
    hide Stripped;
    hide CleanSight;
    hide ClaimsShown;
    hide Annotated;
    KindView(m);
    forall q | Under(q, DATA)
      ensures View(Cleaned(m), q) == View(m, q)
      ensures View(Redacted(Cleaned(m)), q) ==
          if |q| == 2 && View(m, q) != Nothing then Leaf(Str("<redacted>")) else Nothing
    {
      DataView(m, q);
      RedactedUnder(Cleaned(m), q);
    }
    forall q | q != [] && q[0] != "data" && q[0] != "metadata"
      ensures View(Redacted(Cleaned(m)), q) == View(Cleaned(m), q)
      ensures View(Cleaned(m), q) ==
          if Stripped(q) then Nothing else if q == TEMPLATES then CleanSight(View(m, q)) else View(m, q)
    {
      CleanedView(m, q);
      RedactedElsewhere(Cleaned(m), q);
      assert !(ANNOTATIONS <= q);
    }
    CleanSightShows(View(m, TEMPLATES));
  }

  lemma RedactedElsewhere(m: Tree, q: Path)
    requires q != [] && q[0] != DATA[0] && q[0] != ANNOTATIONS[0]
    ensures View(Redacted(m), q) == View(m, q)
  {
    hide View;
    hide Put;
    hide Annotations;
    hide Lookup;
    match Lookup(m, DATA) {
      case Some(Obj(f)) =>
        var m1 := Put(m, DATA, Obj(Marks(f)));
        var a := Annotations(m1, ANNOTATIONS);
        PutElsewhere(m, DATA, Obj(Marks(f)), q);
        PutElsewhere(m1, ANNOTATIONS, Obj((if a.Some? then a.value else map[])[NOTE := NOTICE]), q);
      case _ =>
    }
  }

  /** A cleaned object has no listed field left to remove. */
  lemma NothingListed(m: Tree)
    ensures RemoveAll(Cleaned(m), LISTED) == Cleaned(m)
  {
    hide View;
    hide Cleaned;
    hide RemoveAll;
    hide Annotated;
    hide Covers;
    var c := Cleaned(m);
    forall q ensures View(RemoveAll(c, LISTED), q) == View(c, q) {
      RemoveAllView(c, LISTED, q);
      CleanedView(m, q);
    }
    SameView(Obj(RemoveAll(c, LISTED)), Obj(c));
  }

  /** After cleaning the annotations are readable, or there are none. */
  lemma Readable(m: Tree)
    ensures Annotations(Cleaned(m), ANNOTATIONS).Some? || Lookup(Cleaned(m), ANNOTATIONS).None?
  {
    hide View;
    hide Cleaned;
    hide RemoveAll;
    hide Lookup;
    hide ClusterKey;
    hide Stripped;
    if Annotated(m) {
      StillAnnotated(m);
      NothingListed(m);
    } else {
      CleanedView(m, ANNOTATIONS);
      LookupView(Cleaned(m), ANNOTATIONS, []);
      assert ANNOTATIONS + [] == ANNOTATIONS;
      if Lookup(Cleaned(m), ANNOTATIONS).Some? {
        SeenHere(Lookup(Cleaned(m), ANNOTATIONS).value);
      }
    }
  }

  /** Setting a field leaves what can be looked up under another first key alone. */
  lemma LookupElsewhere(m: Tree, p: Path, v: Json, q: Path)
    requires p != [] && q != [] && q[0] != p[0]
    ensures Lookup(Put(m, p, v), q) == Lookup(m, q)
  {
  }

  /** Redaction adds the note and keeps the other annotations, if they can be read. */
  lemma RedactedNotes(m: Tree, f: Tree, k: string)
    requires Lookup(m, DATA) == Some(Obj(f)) && View(m, ["metadata"]) == Object
    requires Annotations(m, ANNOTATIONS).Some? || Lookup(m, ANNOTATIONS).None?
    ensures View(Redacted(m), ANNOTATIONS + [k]) ==
        if k == NOTE then Leaf(NOTICE) else View(m, ANNOTATIONS + [k])
  {
    hide View;
    hide Seen;
    hide Lookup;
    hide Put;
    var m1, at, q := Put(m, DATA, Obj(Marks(f))), ANNOTATIONS, ANNOTATIONS + [k];
    assert at[0] != DATA[0] by { assert DATA[0][0] == 'd' && at[0][0] == 'm'; }
    LookupElsewhere(m, DATA, Obj(Marks(f)), at);
    PutElsewhere(m, DATA, Obj(Marks(f)), ["metadata"]);
    assert at[..|at| - 1] == ["metadata"];
    var a := Annotations(m1, at);
    var old_ := if a.Some? then a.value else map[];
    assert Redacted(m) == Put(m1, at, Obj(old_[NOTE := NOTICE]));
    PutView(m1, at, Obj(old_[NOTE := NOTICE]), q);
    assert q[|at|..] == [k] + [];
    SeenObj(old_[NOTE := NOTICE], [k]);
    ViewUnder(old_[NOTE := NOTICE], k, []);
    SeenHere(NOTICE);
    if Lookup(m, at).Some? {
      FieldView(m, at, k);
      if k in old_ {
        SeenHere(old_[k]);
      }
    } else {
      LookupView(m, at, [k]);
    }
  }

  /** A redacted Secret says that it is redacted, and keeps the annotations an export keeps. */
  lemma RenderedNotes(m: Tree, k: string)
    requires View(m, ["kind"]) == Leaf(Str("Secret")) && View(m, DATA) == Object && View(m, ["metadata"]) == Object
    ensures View(Rendered(m, false), ANNOTATIONS + [k]) ==
        if k == "orcinus.io/redacted" then Leaf(Str("values omitted; re-export with --show-secrets"))
        else View(Cleaned(m), ANNOTATIONS + [k])
  {
    hide View;
    hide Lookup;
    hide Cleaned;
    hide Redacted;
    hide Annotated;
    hide Annotations;
    KindView(m);
    Readable(m);
    var c := Cleaned(m);
    DataView(m, DATA);
    ViewLookup(c, DATA);
    SeenHere(Lookup(c, DATA).value);
    MetadataView(m);
    RedactedNotes(c, Lookup(c, DATA).value.fields, k);
  }

  lemma MetadataView(m: Tree)
    ensures View(Cleaned(m), ["metadata"]) == View(m, ["metadata"])
  {
    hide View;
    hide Cleaned;
    hide Annotated;
    CleanedView(m, ["metadata"]);
    assert TEMPLATES[0][0] == 's' && forall i | 0 <= i < |LISTED| :: LISTED[i][0][0] == 's' || |LISTED[i]| > 1;
    forall i | 0 <= i < |LISTED| ensures !(LISTED[i] <= ["metadata"]) {
      if LISTED[i][0][0] == 's' {
        assert "metadata"[0] == 'm';
      }
    }
  }

  /** The collected objects of a project. */
  class ProjectConfig {
    var items: seq<Unstructured>

    constructor (items: seq<Unstructured>)
      ensures this.items == items
    {
      this.items := items;
    }

    /** One cleaned document per item, made on a copy: the cleaning works in place, yet no collected object changes. */
    method RenderK8s(showSecrets: bool) returns (docs: seq<Tree>)
      ensures |docs| == |items| && forall i | 0 <= i < |items| :: docs[i] == Rendered(items[i].tree, showSecrets)
      ensures forall i | 0 <= i < |items| ::
          ShowsData(docs[i], items[i].tree, showSecrets) && ShowsRest(docs[i], items[i].tree)
      ensures items == old(items) && forall i | 0 <= i < |items| :: items[i].tree == old(items[i].tree)
    {
      hide ShowsData;
      hide ShowsRest;
      hide Cleaned;
      hide Redacted;
      docs := [];
      for i := 0 to |items|
        invariant |docs| == i && forall j | 0 <= j < i :: docs[j] == Rendered(items[j].tree, showSecrets)
        invariant forall j | 0 <= j < i ::
            ShowsData(docs[j], items[j].tree, showSecrets) && ShowsRest(docs[j], items[j].tree)
      {
        var u := new Unstructured(items[i].tree);
        u.CleanForExport();
        if !showSecrets && Lookup(u.tree, ["kind"]) == Some(Str("Secret")) {
          u.tree := Redacted(u.tree);
        }
        RenderedShows(items[i].tree, showSecrets);
        docs := docs + [u.tree];
      }
    }
  }
}
