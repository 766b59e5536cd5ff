/** Swarm placement compiled to Kubernetes scheduling, and carried over to Rollouts and virtual machines. */
module Placement {
  import opened Common
  import opened Text

  /******* What the scheduler admits *******/

  datatype Operator = In | NotIn | Exists | DoesNotExist
  datatype Requirement = Requirement(key: string, op: Operator, values: seq<string>)
  type Term = seq<Requirement>
  type Labels = map<string, string>

  predicate Meets(node: Labels, r: Requirement) {
    match r.op
    case In => r.key in node && node[r.key] in r.values
    case NotIn => r.key in node ==> node[r.key] !in r.values
    case Exists => r.key in node
    case DoesNotExist => r.key !in node
  }

  /** An empty term matches no node. */
  predicate TermMatches(node: Labels, t: Term) {
    t != [] && forall i | 0 <= i < |t| :: Meets(node, t[i])
  }

  /** The scheduling part of a workload: every selector entry, and one of the required terms if any are given. */
  datatype Scheduling = Scheduling(name: string, selector: Labels, required: Option<seq<Term>>)

  predicate SelectorMatches(node: Labels, selector: Labels) {
    forall k | k in selector :: Get(node, k) == Some(selector[k])
  }

  predicate RequiredMatches(node: Labels, required: Option<seq<Term>>) {
    required.Some? ==> exists i | 0 <= i < |required.value| :: TermMatches(node, required.value[i])
  }

  predicate Admits(s: Scheduling, node: Labels) {
    SelectorMatches(node, s.selector) && RequiredMatches(node, s.required)
  }

  /******* Reading a constraint *******/

  const EQUAL := "=="
  const DIFFER := "!="

  const ROLE := "node.role"
  const HOSTNAME := "node.hostname"
  const ARCH := "node.platform.arch"
  const OS := "node.platform.os"
  const ENGINE_OS := "engine.labels.operatingsystem"
  const LABEL_PREFIX := "node.labels."

  const HOSTNAME_LABEL := "kubernetes.io/hostname"
  const ARCH_LABEL := "kubernetes.io/arch"
  const OS_LABEL := "kubernetes.io/os"
  const CONTROL_PLANE := "node-role.kubernetes.io/control-plane"

  function TrimLeft(s: string, cut: set<char>): string {
    if s != [] && s[0] in cut then TrimLeft(s[1..], cut) else s
  }

  function TrimRight(s: string, cut: set<char>): string {
    if s != [] && s[|s| - 1] in cut then TrimRight(s[..|s| - 1], cut) else s
  }

  function Trim(s: string, cut: set<char>): string {
    TrimRight(TrimLeft(s, cut), cut)
  }

  const BLANKS: set<char> := {' ', '\t', '\n', '\r', '\U{0B}', '\U{0C}', '\U{85}', '\U{A0}'}
  const QUOTES: set<char> := {'"', '\''}

  function LabelKey(key: string): Option<string> {
    if key == HOSTNAME then Some(HOSTNAME_LABEL)
    else if key == ARCH then Some(ARCH_LABEL)
    else if key == OS || key == ENGINE_OS then Some(OS_LABEL)
    else if HasPrefix(key, LABEL_PREFIX) then Some(key[|LABEL_PREFIX|..])
    else None
  }

  /** The requirement of a key, a value and whether they are to differ. */
  function Compile(key: string, neg: bool, val: string): Option<Requirement> {
    if key == ROLE then
      Some(Requirement(CONTROL_PLANE, if (val == "manager") != neg then Exists else DoesNotExist, []))
    else
      match LabelKey(key)
      case None => None
      case Some(k) => Some(Requirement(k, if neg then NotIn else In, [val]))
  }

  /** The two sides of a constraint around its operator; "!=" anywhere wins over "==". */
  function Sides(s: string): Option<(string, bool, string)> {
    var ne, eq := IndexOf(s, DIFFER), IndexOf(s, EQUAL);
    if ne >= 0 then Some((s[..ne], true, s[ne + 2..]))
    else if eq >= 0 then Some((s[..eq], false, s[eq + 2..]))
    else None
  }

  function ParseConstraint(s: string): Option<Requirement> {
    match Sides(s)
    case None => None
    case Some((a, neg, b)) => Compile(Trim(a, BLANKS), neg, Trim(Trim(b, BLANKS), QUOTES))
  }

  /******* What a constraint means *******/

  /** A Swarm node's attributes. */
  datatype Node = Node(hostname: string, arch: string, os: string, manager: bool, labels: Labels)

  datatype Attribute = Role | Hostname | Arch | Os | Label(name: string)
  datatype Constraint = Constraint(attr: Attribute, neg: bool, val: string)

  function Value(n: Node, a: Attribute): Option<string> {
    match a
    case Role => Some(if n.manager then "manager" else "worker")
    case Hostname => Some(n.hostname)
    case Arch => Some(n.arch)
    case Os => Some(n.os)
    case Label(name) => Get(n.labels, name)
  }

  predicate Satisfies(n: Node, c: Constraint) {
    (Value(n, c.attr) == Some(c.val)) != c.neg
  }

  const RESERVED: set<string> := {HOSTNAME_LABEL, ARCH_LABEL, OS_LABEL, CONTROL_PLANE}

  /** The labels the node carries in the cluster. */
  function ClusterLabels(n: Node): Labels {
    var base := n.labels["kubernetes.io/hostname" := n.hostname]["kubernetes.io/arch" := n.arch]
                        ["kubernetes.io/os" := n.os];
    if n.manager then base["node-role.kubernetes.io/control-plane" := "true"]
    else base - {"node-role.kubernetes.io/control-plane"}
  }

  /** A node's own labels do not imitate the cluster's. */
  predicate Proper(n: Node) {
    n.labels.Keys !! RESERVED
  }

  function KeyText(a: Attribute): string {
    match a
    case Role => "node.role"
    case Hostname => "node.hostname"
    case Arch => "node.platform.arch"
    case Os => "node.platform.os"
    case Label(name) => "node.labels." + name
  }

  /** A role that exists, and a label that is not one the cluster manages itself. */
  predicate Expressible(c: Constraint) {
    match c.attr
    case Role => c.val == "manager" || c.val == "worker"
    case Label(name) => name !in RESERVED || (name == CONTROL_PLANE && c.val != "true")
    case _ => true
  }

  function Compiled(c: Constraint): (r: Requirement) {
    match c.attr
    case Role => Requirement(CONTROL_PLANE, if (c.val == "manager") != c.neg then Exists else DoesNotExist, [])
    case Hostname => Requirement(HOSTNAME_LABEL, if c.neg then NotIn else In, [c.val])
    case Arch => Requirement(ARCH_LABEL, if c.neg then NotIn else In, [c.val])
    case Os => Requirement(OS_LABEL, if c.neg then NotIn else In, [c.val])
    case Label(name) => Requirement(name, if c.neg then NotIn else In, [c.val])
  }

  lemma LabelKeyOf(a: Attribute)
    ensures a.Label? ==> KeyText(a) != ROLE && LabelKey(KeyText(a)) == Some(a.name)
  {
    if a.Label? {
      var key := KeyText(a);
      assert key[..|LABEL_PREFIX|] == LABEL_PREFIX && key[|LABEL_PREFIX|..] == a.name;
      assert key[5] == 'l' && HOSTNAME[5] == 'h' && ARCH[5] == 'p' && OS[5] == 'p' && ROLE[5] == 'r'
          && ENGINE_OS[5] == 'e' && ENGINE_OS[0] == 'e';
    }
  }

  /** The spellings of an attribute. */
  predicate Names(key: string, a: Attribute) {
    key == KeyText(a) || (a == Os && key == "engine.labels.operatingsystem")
  }

  lemma CompileIs(key: string, c: Constraint)
    requires Names(key, c.attr)
    ensures Compile(key, c.neg, c.val) == Some(Compiled(c))
  {
    LabelKeyOf(c.attr);
    assert ROLE[5] == 'r' && HOSTNAME[5] == 'h' && ARCH[5] == 'p' && OS[5] == 'p';
    assert ENGINE_OS[0] == 'e' && ROLE[0] == 'n' && HOSTNAME[0] == 'n' && ARCH[0] == 'n';
    assert |ARCH| != |OS|;
  }

  /** A key is refused if and only if it names no attribute. */
  lemma RefusedIff(key: string, neg: bool, val: string)
    ensures Compile(key, neg, val).None? <==> forall a :: !Names(key, a)
  {
    if Compile(key, neg, val).None? {
      forall a ensures !Names(key, a) {
        if Names(key, a) {
          CompileIs(key, Constraint(a, neg, val));
        }
      }
    } else if key == ROLE {
      assert Names(key, Role);
    } else if key == HOSTNAME {
      assert Names(key, Hostname);
    } else if key == ARCH {
      assert Names(key, Arch);
    } else if key == OS || key == ENGINE_OS {
      assert Names(key, Os);
    } else {
      var name := key[|LABEL_PREFIX|..];
      assert key == LABEL_PREFIX + name;
      assert Names(key, Label(name));
    }
  }

  /** The node on which a constraint that is not expressible is read wrongly. */
  function Counterexample(c: Constraint): Node {
    Node(c.val, c.val, c.val, c.attr.Label?, map[])
  }

  /** A constraint is compiled to a requirement with its meaning on every node if and only if it is expressible. */
  lemma CompiledMeansIff(c: Constraint)
    ensures (forall n | Proper(n) :: Meets(ClusterLabels(n), Compiled(c)) <==> Satisfies(n, c)) <==> Expressible(c)
  {
    assert "manager" != "worker";
    Distinguished();
    if Expressible(c) {
      forall n | Proper(n) ensures Meets(ClusterLabels(n), Compiled(c)) <==> Satisfies(n, c) {
        MeansOn(c, n);
      }
    } else {
      var n := Counterexample(c);
      assert Proper(n);
      assert !(Meets(ClusterLabels(n), Compiled(c)) <==> Satisfies(n, c));
    }
  }

  lemma Distinguished()
    ensures HOSTNAME_LABEL != ARCH_LABEL && ARCH_LABEL != OS_LABEL && OS_LABEL != HOSTNAME_LABEL
    ensures CONTROL_PLANE !in {HOSTNAME_LABEL, ARCH_LABEL, OS_LABEL}
  {
  }

  lemma MeansOn(c: Constraint, n: Node)
    requires Proper(n) && Expressible(c)
    ensures Meets(ClusterLabels(n), Compiled(c)) <==> Satisfies(n, c)
  {
  }

  /******* Reading what was written *******/

  predicate All(s: string, cut: set<char>) {
    forall i | 0 <= i < |s| :: s[i] in cut
  }

  /** Nothing to trim at either end. */
  predicate Bare(s: string, cut: set<char>) {
    s == [] || (s[0] !in cut && s[|s| - 1] !in cut)
  }

  lemma {:induction false} TrimLeftIs(pre: string, s: string, cut: set<char>)
    requires All(pre, cut) && (s == [] || s[0] !in cut)
    ensures TrimLeft(pre + s, cut) == s
  {
    if pre == [] {
      assert pre + s == s;
    } else {
      assert (pre + s)[1..] == pre[1..] + s;
      TrimLeftIs(pre[1..], s, cut);
    }
  }

  lemma {:induction false} TrimRightIs(s: string, post: string, cut: set<char>)
    requires All(post, cut) && (s == [] || s[|s| - 1] !in cut)
    ensures TrimRight(s + post, cut) == s
  {
    if post == [] {
      assert s + post == s;
    } else {
      assert (s + post)[..|s + post| - 1] == s + post[..|post| - 1];
      TrimRightIs(s, post[..|post| - 1], cut);
    }
  }

  lemma TrimIs(pre: string, s: string, post: string, cut: set<char>)
    requires All(pre, cut) && All(post, cut) && Bare(s, cut)
    ensures Trim(pre + s + post, cut) == s
  {
    if s == [] {
      assert pre + s + post == pre + post + [];
      TrimLeftIs(pre + post, [], cut);
    } else {
      assert pre + s + post == pre + (s + post);
      TrimLeftIs(pre, s + post, cut);
      TrimRightIs(s, post, cut);
    }
  }

  /** "a==b" is read as written if and only if "!=" is nowhere in it and "==" is not reached before. */
  lemma EqualReadIff(a: string, b: string)
    ensures Sides(a + EQUAL + b) == Some((a, false, b)) <==>
        !Contains(a + EQUAL + b, DIFFER) && !Contains(a + ['='], EQUAL)
  {
    hide IndexFrom;
    var eq := EQUAL;
    var s, t := a + eq + b, a + ['='];
    assert s[..|a|] == a && s[|a| + 2..] == b && s[|a|..|a| + 2] == eq;
    assert IsAt(s, eq, |a|);
    forall j | 0 <= j < |a| ensures IsAt(s, eq, j) <==> IsAt(t, eq, j) {
      assert s[j..j + 2] == t[j..j + 2];
    }
  }

  lemma DifferReadIff(a: string, b: string)
    ensures Sides(a + DIFFER + b) == Some((a, true, b)) <==> !Contains(a, DIFFER)
  {
    hide IndexFrom;
    var ne := DIFFER;
    var s := a + ne + b;
    assert s[..|a|] == a && s[|a| + 2..] == b && s[|a|..|a| + 2] == ne;
    assert IsAt(s, ne, |a|);
    forall j | 0 <= j < |a| ensures IsAt(s, ne, j) <==> IsAt(a, ne, j) {
      if j + 2 <= |a| {
        assert s[j..j + 2] == a[j..j + 2];
      } else {
        assert s[j..j + 2][1] == '!';
      }
    }
  }

  predicate Free(s: string) {
    '=' !in s && '!' !in s
  }

  lemma FreeSides(a: string, neg: bool, b: string)
    requires Free(a) && Free(b)
    ensures Sides(a + (if neg then DIFFER else EQUAL) + b) == Some((a, neg, b))
  {
    var eq, ne := EQUAL, DIFFER;
    hide IndexFrom;
    hide Sides;
    if neg {
      forall j ensures !IsAt(a, ne, j) {
        assert 0 <= j && j + 2 <= |a| ==> a[j..j + 2][0] == a[j];
      }
      DifferReadIff(a, b);
    } else {
      var s, t := a + eq + b, a + ['='];
      forall j ensures !IsAt(s, ne, j) {
        assert 0 <= j && j + 2 <= |s| ==> s[j..j + 2][0] == s[j];
      }
      forall j ensures !IsAt(t, eq, j) {
        assert 0 <= j && j + 2 <= |t| ==> t[j..j + 2][0] == t[j];
      }
      EqualReadIff(a, b);
    }
  }

  /** A constraint as a compose file may spell it: blanks around both operands, quotes around the value. */
  datatype Spelling = Spelling(key: string, blanks: seq<string>, open: string, close: string)

  predicate Spells(w: Spelling, c: Constraint) {
    var blanks: set<char> := {' ', '\t', '\n', '\r', '\U{0B}', '\U{0C}', '\U{85}', '\U{A0}'};
    var quotes: set<char> := {'"', '\''};
    && Names(w.key, c.attr) && Free(w.key) && Free(c.val)
    && Bare(w.key, blanks) && Bare(c.val, quotes) && Bare(w.open + c.val + w.close, blanks)
    && |w.blanks| == 4 && (forall i | 0 <= i < 4 :: All(w.blanks[i], blanks))
    && All(w.open, quotes) && All(w.close, quotes)
  }

  function Written(w: Spelling, c: Constraint): string
    requires |w.blanks| == 4
  {
    (w.blanks[0] + w.key + w.blanks[1]) + (if c.neg then DIFFER else EQUAL)
      + (w.blanks[2] + (w.open + c.val + w.close) + w.blanks[3])
  }

  /** Every spelling of a constraint is read as that constraint. */
  lemma ReadsAsWritten(w: Spelling, c: Constraint)
    requires Spells(w, c)
    ensures ParseConstraint(Written(w, c)) == Some(Compiled(c))
  {
    hide Sides;
    hide Compile;
    hide Trim;
    hide Compiled;
    var a, b := w.blanks[0] + w.key + w.blanks[1], w.blanks[2] + (w.open + c.val + w.close) + w.blanks[3];
    assert Free(a) && Free(b) by {
      forall i | 0 <= i < 4 ensures Free(w.blanks[i]) {
        forall x | x in w.blanks[i] ensures x in BLANKS {
        }
      }
      assert forall x | x in w.open || x in w.close :: x in QUOTES;
    }
    FreeSides(a, c.neg, b);
    TrimIs(w.blanks[0], w.key, w.blanks[1], BLANKS);
    TrimIs(w.blanks[2], w.open + c.val + w.close, w.blanks[3], BLANKS);
    TrimIs(w.open, c.val, w.close, QUOTES);
    CompileIs(w.key, c);
  }

  /******* The passes *******/

  datatype Kind = Deployment | StatefulSet | DaemonSet

  /** Pods with these labels are to be spread over the values of a node label. */
  datatype Spread = Spread(key: string, among: Labels)

  /** A workload's pod spec, as far as scheduling goes. */
  datatype Pod = Pod(selector: Labels, required: Option<seq<Term>>, spread: seq<Spread>)

  /** The labels its pods carry, and those by which it finds them again. */
  datatype Work = Work(replicas: nat, images: seq<string>, podLabels: Labels, matchLabels: Labels, pod: Pod)

  /** What a machine boots from: an image, or a disk of its own. */
  datatype Root = FromImage(image: string) | FromDisk(disk: string)

  datatype Strategy = Canary | BlueGreen(active: string)

  /** The scheduling fields of a virtual machine, each present only when the pod had something to say. */
  datatype MachineSpec = MachineSpec(selector: Option<Labels>, affinity: Option<seq<Term>>)

  datatype Object =
    | Workload(kind: Kind, name: string, work: Work)
    | Rollout(name: string, template: Work, strategy: Strategy)
    | Machine(name: string, labels: Labels, root: Root, vmi: MachineSpec)
    | Disk(name: string, image: string, size: string)
    | Service(name: string, selector: Labels)
    | Other(name: string)

  datatype Config = Config(constraints: seq<Requirement>, spread: seq<string>)

  /** A placement entry of a service: a text, or something that is not a text and is passed over. */
  datatype Item = Text(text: string) | NotText

  function Constraints(items: seq<Item>): Option<seq<Requirement>> {
    if items == [] then Some([])
    else
      match Constraints(items[..|items| - 1])
      case None => None
      case Some(done) =>
        match items[|items| - 1]
        case NotText => Some(done)
        case Text(text) =>
          match ParseConstraint(text)
          case None => None
          case Some(r) => Some(done + [r])
  }

  lemma {:induction false} RefusedEarly(items: seq<Item>, i: nat)
    requires i <= |items| && Constraints(items[..i]) == None
    ensures Constraints(items) == None
  {
    if i == |items| {
      assert items[..i] == items;
    } else {
      assert items[..|items| - 1][..i] == items[..i];
      RefusedEarly(items[..|items| - 1], i);
    }
  }

  method ParseConstraints(items: seq<Item>) returns (r: Option<seq<Requirement>>)
    ensures r == Constraints(items)
  {
    var done := [];
    for i := 0 to |items|
      invariant Constraints(items[..i]) == Some(done)
    {
      assert items[..i + 1][..i] == items[..i];
      match items[i] {
        case NotText =>
        case Text(text) =>
          var c := ParseConstraint(text);
          if c.None? {
            RefusedEarly(items, i + 1);
            return None;
          }
          done := done + [c.value];
      }
    }
    assert items[..|items|] == items;
    return Some(done);
  }

  /** A preference that names something to spread over, or one that does not and is passed over. */
  datatype Preference = SpreadOver(attribute: string) | NoSpread

  function SpreadKeys(prefs: seq<Preference>): Option<seq<string>> {
    if prefs == [] then Some([])
    else
      match SpreadKeys(prefs[..|prefs| - 1])
      case None => None
      case Some(done) =>
        match prefs[|prefs| - 1]
        case NoSpread => Some(done)
        case SpreadOver(a) =>
          if a == "" then Some(done)
          else
            match LabelKey(a)
            case None => None
            case Some(k) => Some(done + [k])
  }

  lemma {:induction false} SpreadRefusedEarly(prefs: seq<Preference>, i: nat)
    requires i <= |prefs| && SpreadKeys(prefs[..i]) == None
    ensures SpreadKeys(prefs) == None
  {
    if i == |prefs| {
      assert prefs[..i] == prefs;
    } else {
      assert prefs[..|prefs| - 1][..i] == prefs[..i];
      SpreadRefusedEarly(prefs[..|prefs| - 1], i);
    }
  }

  method ParsePreferences(prefs: seq<Preference>) returns (r: Option<seq<string>>)
    ensures r == SpreadKeys(prefs)
  {
    hide LabelKey;
    var done := [];
    for i := 0 to |prefs|
      invariant SpreadKeys(prefs[..i]) == Some(done)
    {
      assert prefs[..i + 1][..i] == prefs[..i];
      match prefs[i] {
        case NoSpread =>
        case SpreadOver(a) =>
          if a != "" {
            var k := LabelKey(a);
            if k.None? {
              SpreadRefusedEarly(prefs, i + 1);
              return None;
            }
            done := done + [k.value];
          }
      }
    }
    assert prefs[..|prefs|] == prefs;
    return Some(done);
  }

  /** The attributes a list of preferences asks to spread over. */
  function Asked(prefs: seq<Preference>): (r: seq<string>)
    ensures forall a | a in r :: SpreadOver(a) in prefs && a != ""
    ensures forall a | SpreadOver(a) in prefs && a != "" :: a in r
  {
    if prefs == [] then []
    else
      var p := prefs[|prefs| - 1];
      Asked(prefs[..|prefs| - 1]) + if p.SpreadOver? && p.attribute != "" then [p.attribute] else []
  }

  /** The value of an attribute is what its node label holds, on nodes whose own labels do not imitate the cluster's. */
  ghost predicate Labelled(key: string, attribute: string) {
    exists a: Attribute :: a != Role && Names(attribute, a)
      && forall n | Proper(n) && (a.Label? ==> a.name !in RESERVED) :: Get(ClusterLabels(n), key) == Value(n, a)
  }

  lemma LabelMeans(attribute: string)
    requires LabelKey(attribute).Some?
    ensures Labelled(LabelKey(attribute).value, attribute)
  {
    Distinguished();
    var k := LabelKey(attribute).value;
    if attribute == HOSTNAME {
      assert Names(attribute, Hostname) && forall n | Proper(n) :: Get(ClusterLabels(n), k) == Value(n, Hostname);
    } else if attribute == ARCH {
      assert Names(attribute, Arch) && forall n | Proper(n) :: Get(ClusterLabels(n), k) == Value(n, Arch);
    } else if attribute == OS || attribute == ENGINE_OS {
      assert Names(attribute, Os) && forall n | Proper(n) :: Get(ClusterLabels(n), k) == Value(n, Os);
    } else {
      assert attribute == LABEL_PREFIX + k;
      assert Names(attribute, Label(k));
      assert forall n | Proper(n) && k !in RESERVED :: Get(ClusterLabels(n), k) == Value(n, Label(k));
    }
  }

  /** An attribute that is no attribute of a node but perhaps its role: there is no label to spread over. */
  ghost predicate Nameless(attribute: string) {
    forall a | a != Role :: !Names(attribute, a)
  }

  lemma NamelessIff(attribute: string)
    ensures LabelKey(attribute).None? <==> Nameless(attribute)
  {
    if LabelKey(attribute).None? {
      forall a | a != Role ensures !Names(attribute, a) {
        LabelKeyOf(a);
      }
    } else {
      LabelMeans(attribute);
    }
  }

  /**
   Preferences are refused if and only if one of them names no label of a node; else there is one key for
   each attribute asked for, in order, and the nodes differ in the attribute as they differ in the label.
   */
  lemma {:induction false} SpreadsAsAsked(prefs: seq<Preference>)
    ensures SpreadKeys(prefs).None? <==> exists a :: SpreadOver(a) in prefs && a != "" && Nameless(a)
    ensures SpreadKeys(prefs).Some? ==> |SpreadKeys(prefs).value| == |Asked(prefs)|
    ensures SpreadKeys(prefs).Some? ==>
              forall i | 0 <= i < |Asked(prefs)| :: Labelled(SpreadKeys(prefs).value[i], Asked(prefs)[i])
  {
    hide Labelled;
    hide LabelKey;
    hide Nameless;
    if prefs != [] {
      var init, p := prefs[..|prefs| - 1], prefs[|prefs| - 1];
      assert prefs == init + [p];
      assert forall q :: q in prefs <==> q in init || q == p;
      SpreadsAsAsked(init);
      if p.SpreadOver? && p.attribute != "" {
        NamelessIff(p.attribute);
        if LabelKey(p.attribute).Some? {
          LabelMeans(p.attribute);
        }
      }
    }
  }

  /** Constraints join the first required term, which is made if there is none. */
  function Require(required: Option<seq<Term>>, reqs: seq<Requirement>): Option<seq<Term>> {
    if reqs == [] then required
    else
      var terms := if required.None? || required.value == [] then [[]] else required.value;
      Some(terms[0 := terms[0] + reqs])
  }

  /** One spread for each key, among the pods with the given labels. */
  function Spreads(keys: seq<string>, among: Labels): (r: seq<Spread>)
    ensures |r| == |keys| && forall i | 0 <= i < |keys| :: r[i] == Spread(keys[i], among)
  {
    if keys == [] then [] else Spreads(keys[..|keys| - 1], among) + [Spread(keys[|keys| - 1], among)]
  }

  method AppendSpreads(had: seq<Spread>, keys: seq<string>, among: Labels) returns (r: seq<Spread>)
    ensures r == had + Spreads(keys, among)
  {
    r := had;
    for i := 0 to |keys|
      invariant r == had + Spreads(keys[..i], among)
    {
      assert keys[..i + 1][..i] == keys[..i];
      r := r + [Spread(keys[i], among)];
    }
    assert keys[..|keys|] == keys;
  }

  function Placed(w: Work, c: Config): Pod {
    w.pod.(required := Require(w.pod.required, c.constraints), spread := w.pod.spread + Spreads(c.spread, w.matchLabels))
  }

  function PlaceOne(o: Object, cfgs: map<string, Config>): Object {
    if o.Workload? && o.name in cfgs then o.(work := o.work.(pod := Placed(o.work, cfgs[o.name]))) else o
  }

  function Selected(w: Work, entries: Labels): Work {
    w.(pod := w.pod.(selector := w.pod.selector + entries))
  }

  function SelectOne(o: Object, cfgs: map<string, Labels>): Object {
    if o.Workload? && o.name in cfgs then o.(work := Selected(o.work, cfgs[o.name])) else o
  }

  function Carried(pod: Pod): MachineSpec {
    MachineSpec(if pod.selector == map[] then None else Some(pod.selector), pod.required)
  }

  /** The labels a machine carries: those of the Deployment's pods, or else those it finds them by. */
  function MachineLabels(w: Work): Labels {
    if w.podLabels == map[] then w.matchLabels else w.podLabels
  }

  /** The machine of a Deployment, followed by its disk if it asks for one of some size. */
  function MachineOf(o: Object, diskSize: string): Option<seq<Object>>
    requires o.Workload?
  {
    if o.work.replicas > 1 || o.work.images == [] || o.work.images[0] == "" then None
    else
      var image, disk := o.work.images[0], o.name + "-root";
      var labels, vmi := MachineLabels(o.work), Carried(o.work.pod);
      Some(if diskSize == "" then [Machine(o.name, labels, FromImage(image), vmi)]
           else [Machine(o.name, labels, FromDisk(disk), vmi), Disk(disk, image, diskSize)])
  }

  function ServiceNames(objects: seq<Object>): set<string> {
    if objects == [] then {}
    else
      var o := objects[|objects| - 1];
      ServiceNames(objects[..|objects| - 1]) + if o.Service? then {o.name} else {}
  }

  predicate Convertible(o: Object, names: set<string>) {
    o.Workload? && o.kind == Deployment && o.name in names
  }

  ghost predicate NoneLeft(objects: seq<Object>, names: set<string>) {
    forall i | 0 <= i < |objects| :: !Convertible(objects[i], names)
  }

  ghost predicate HasMachine(objects: seq<Object>, name: string) {
    exists i | 0 <= i < |objects| :: objects[i].Machine? && objects[i].name == name
  }

  lemma NothingYet(names: set<string>)
    ensures NoneLeft([], names)
  {
  }

  lemma LeftAppend(a: seq<Object>, b: seq<Object>, names: set<string>)
    ensures NoneLeft(a, names) && NoneLeft(b, names) ==> NoneLeft(a + b, names)
  {
  }

  lemma MachineAppend(a: seq<Object>, b: seq<Object>)
    ensures forall name | HasMachine(a, name) || HasMachine(b, name) :: HasMachine(a + b, name)
  {
    forall name | HasMachine(a, name) || HasMachine(b, name) ensures HasMachine(a + b, name) {
      if HasMachine(a, name) {
        var i :| 0 <= i < |a| && a[i].Machine? && a[i].name == name;
        assert (a + b)[i] == a[i];
      } else {
        var i :| 0 <= i < |b| && b[i].Machine? && b[i].name == name;
        assert (a + b)[|a| + i] == b[i];
      }
    }
  }

  function ToMachine(o: Object, cfgs: map<string, string>): Option<seq<Object>> {
    if Convertible(o, cfgs.Keys) then MachineOf(o, cfgs[o.name]) else Some([o])
  }

  function RolloutOf(o: Object, kind: string, hasService: bool): Option<Object>
    requires o.Workload?
  {
    if kind == "canary" then Some(Rollout(o.name, o.work, Canary))
    else if kind == "bluegreen" && hasService then Some(Rollout(o.name, o.work, BlueGreen(o.name)))
    else None
  }

  function ToRollout(o: Object, cfgs: map<string, string>, services: set<string>): Option<seq<Object>> {
    if Convertible(o, cfgs.Keys) then
      match RolloutOf(o, cfgs[o.name], o.name in services)
      case None => None
      case Some(r) => Some([r])
    else Some([o])
  }

  /******* What each object is replaced by *******/

  ghost predicate HasService(objects: seq<Object>, name: string) {
    exists i | 0 <= i < |objects| :: objects[i].Service? && objects[i].name == name
  }

  lemma {:induction false} ServiceNamesIff(objects: seq<Object>)
    ensures forall name :: name in ServiceNames(objects) <==> HasService(objects, name)
  {
    if objects != [] {
      var init, o := objects[..|objects| - 1], objects[|objects| - 1];
      ServiceNamesIff(init);
      forall name | HasService(init, name) || (o.Service? && o.name == name) ensures HasService(objects, name) {
        if HasService(init, name) {
          var i :| 0 <= i < |init| && init[i].Service? && init[i].name == name;
          assert objects[i] == init[i];
        } else {
          assert objects[|init|] == o;
        }
      }
    }
  }

  /** A Service's selector finds the machine by the labels that found the Deployment's pods. */
  ghost predicate FoundAlike(machine: Labels, w: Work) {
    && (forall selector: Labels | SelectorMatches(w.podLabels, selector) :: SelectorMatches(machine, selector))
    && (w.podLabels == map[] ==> SelectorMatches(machine, w.matchLabels))
  }

  /** The machine boots the image: directly, or through the disk made beside it if one of some size was asked for. */
  ghost predicate Boots(machine: Object, rest: seq<Object>, image: string, diskSize: string)
    requires machine.Machine?
  {
    if diskSize == "" then machine.root == FromImage(image) && rest == []
    else machine.root == FromDisk(machine.name + "-root") && rest == [Disk(machine.name + "-root", image, diskSize)]
  }

  /**
   What a configured Deployment becomes: one machine of its name, scheduled as it was, found by what
   found its pods, booting its image.
   */
  ghost predicate MachineFor(o: Object, diskSize: string, made: seq<Object>)
    requires o.Workload?
  {
    && Bootable(o)
    && made != [] && made[0].Machine? && made[0].name == o.name
    && SchedulingOf(made[0]) == SchedulingOf(o) && FoundAlike(made[0].labels, o.work)
    && Boots(made[0], made[1..], o.work.images[0], diskSize)
  }

  /** A single instance, with an image to boot from. */
  predicate Bootable(o: Object) {
    o.Workload? && o.work.replicas <= 1 && o.work.images != [] && o.work.images[0] != ""
  }

  /** What a configured Deployment becomes: one Rollout of its name, with its replicas and its whole template. */
  ghost predicate RolloutFor(o: Object, kind: string, objects: seq<Object>, made: seq<Object>)
    requires o.Workload?
  {
    && |made| == 1 && made[0].Rollout? && made[0].name == o.name && made[0].template == o.work
    && Rollable(o, kind, objects)
    && (if kind == "canary" then made[0].strategy == Canary else made[0].strategy == BlueGreen(o.name))
  }

  /** A canary, or blue-green with a Service of that name to switch. */
  ghost predicate Rollable(o: Object, kind: string, objects: seq<Object>) {
    kind == "canary" || (kind == "bluegreen" && HasService(objects, o.name))
  }

  /** Everything else stays what it is. */
  ghost predicate MachinePiece(o: Object, cfgs: map<string, string>, made: seq<Object>) {
    if o.Workload? && o.kind == Deployment && o.name in cfgs then MachineFor(o, cfgs[o.name], made) else made == [o]
  }

  ghost predicate RolloutPiece(o: Object, cfgs: map<string, string>, objects: seq<Object>, made: seq<Object>) {
    if o.Workload? && o.kind == Deployment && o.name in cfgs then RolloutFor(o, cfgs[o.name], objects, made)
    else made == [o]
  }

  /** After both conversions, machines first. */
  ghost predicate ShippedPiece(o: Object, machines: map<string, string>, rollouts: map<string, string>,
      objects: seq<Object>, made: seq<Object>) {
    if o.Workload? && o.kind == Deployment && o.name in machines then MachineFor(o, machines[o.name], made)
    else RolloutPiece(o, rollouts, objects, made)
  }

  ghost function Joined(pieces: seq<seq<Object>>): seq<Object> {
    if pieces == [] then [] else Joined(pieces[..|pieces| - 1]) + pieces[|pieces| - 1]
  }

  lemma JoinedSnoc(pieces: seq<seq<Object>>, piece: seq<Object>)
    ensures Joined(pieces + [piece]) == Joined(pieces) + piece
  {
    assert (pieces + [piece])[..|pieces|] == pieces;
  }

  /** Every object has been replaced in its place, and nothing else was added. */
  ghost predicate MachinesMade(objects: seq<Object>, cfgs: map<string, string>, made: seq<Object>) {
    exists pieces :: |pieces| == |objects| && made == Joined(pieces)
      && forall i | 0 <= i < |objects| :: MachinePiece(objects[i], cfgs, pieces[i])
  }

  ghost predicate RolloutsMade(objects: seq<Object>, cfgs: map<string, string>, services: seq<Object>,
      made: seq<Object>) {
    exists pieces :: |pieces| == |objects| && made == Joined(pieces)
      && forall i | 0 <= i < |objects| :: RolloutPiece(objects[i], cfgs, services, pieces[i])
  }

  ghost predicate AllShipped(objects: seq<Object>, machines: map<string, string>, rollouts: map<string, string>,
      services: seq<Object>, made: seq<Object>) {
    exists pieces :: |pieces| == |objects| && made == Joined(pieces)
      && forall i | 0 <= i < |objects| :: ShippedPiece(objects[i], machines, rollouts, services, pieces[i])
  }

  lemma MachinesMadeSnoc(objects: seq<Object>, i: nat, cfgs: map<string, string>, made: seq<Object>,
      piece: seq<Object>)
    requires i < |objects| && MachinesMade(objects[..i], cfgs, made) && MachinePiece(objects[i], cfgs, piece)
    ensures MachinesMade(objects[..i + 1], cfgs, made + piece)
  {
    hide MachinePiece;
    hide Joined;
    var pieces :| |pieces| == i && made == Joined(pieces)
      && forall j | 0 <= j < i :: MachinePiece(objects[..i][j], cfgs, pieces[j]);
    JoinedSnoc(pieces, piece);
    var more := pieces + [piece];
    forall j | 0 <= j < i + 1 ensures MachinePiece(objects[..i + 1][j], cfgs, more[j]) {
      if j < i {
        assert objects[..i][j] == objects[..i + 1][j];
      }
    }
  }

  lemma RolloutsMadeSnoc(objects: seq<Object>, i: nat, cfgs: map<string, string>, services: seq<Object>,
      made: seq<Object>, piece: seq<Object>)
    requires i < |objects| && RolloutsMade(objects[..i], cfgs, services, made)
    requires RolloutPiece(objects[i], cfgs, services, piece)
    ensures RolloutsMade(objects[..i + 1], cfgs, services, made + piece)
  {
    hide RolloutPiece;
    hide Joined;
    var pieces :| |pieces| == i && made == Joined(pieces)
      && forall j | 0 <= j < i :: RolloutPiece(objects[..i][j], cfgs, services, pieces[j]);
    JoinedSnoc(pieces, piece);
    var more := pieces + [piece];
    forall j | 0 <= j < i + 1 ensures RolloutPiece(objects[..i + 1][j], cfgs, services, more[j]) {
      if j < i {
        assert objects[..i][j] == objects[..i + 1][j];
      }
    }
  }

  lemma NothingMade(cfgs: map<string, string>, services: seq<Object>)
    ensures MachinesMade([], cfgs, []) && RolloutsMade([], cfgs, services, [])
  {
    var none: seq<seq<Object>> := [];
    assert Joined(none) == [];
  }

  lemma ToMachineMakes(o: Object, cfgs: map<string, string>)
    ensures ToMachine(o, cfgs).Some? ==> MachinePiece(o, cfgs, ToMachine(o, cfgs).value)
    ensures ToMachine(o, cfgs).None? <==> Convertible(o, cfgs.Keys) && !Bootable(o)
  {
  }

  lemma ToRolloutMakes(o: Object, cfgs: map<string, string>, services: set<string>, objects: seq<Object>)
    requires forall name :: name in services <==> HasService(objects, name)
    ensures ToRollout(o, cfgs, services).Some? ==> RolloutPiece(o, cfgs, objects, ToRollout(o, cfgs, services).value)
    ensures ToRollout(o, cfgs, services).None? <==> Convertible(o, cfgs.Keys) && !Rollable(o, cfgs[o.name], objects)
  {
    hide HasService;
  }

  /** A Service is there after the machines are made if and only if it was there before. */
  lemma {:induction false} ServicesStay(objects: seq<Object>, cfgs: map<string, string>, pieces: seq<seq<Object>>,
      name: string)
    requires |pieces| == |objects| && forall i | 0 <= i < |objects| :: MachinePiece(objects[i], cfgs, pieces[i])
    ensures HasService(Joined(pieces), name) <==> HasService(objects, name)
  {
    hide MachinePiece;
    hide HasService;
    if objects == [] {
      assert Joined(pieces) == objects;
    } else {
      var n := |objects| - 1;
      ServicesStay(objects[..n], cfgs, pieces[..n], name);
      ServiceAppend(Joined(pieces[..n]), pieces[n], name);
      ServiceAppend(objects[..n], [objects[n]], name);
      assert objects == objects[..n] + [objects[n]];
      ServicePiece(objects[n], cfgs, pieces[n], name);
    }
  }

  lemma ServiceAppend(a: seq<Object>, b: seq<Object>, name: string)
    ensures HasService(a + b, name) <==> HasService(a, name) || HasService(b, name)
  {
    if HasService(a, name) {
      var i :| 0 <= i < |a| && a[i].Service? && a[i].name == name;
      assert (a + b)[i] == a[i];
    }
    if HasService(b, name) {
      var i :| 0 <= i < |b| && b[i].Service? && b[i].name == name;
      assert (a + b)[|a| + i] == b[i];
    }
  }

  /** No Service is made of a Deployment. */
  lemma ServicePiece(o: Object, cfgs: map<string, string>, piece: seq<Object>, name: string)
    requires MachinePiece(o, cfgs, piece)
    ensures HasService(piece, name) <==> HasService([o], name)
  {
    if Convertible(o, cfgs.Keys) {
      assert forall i | 0 <= i < |piece| :: i == 0 || piece[i] == piece[1..][i - 1];
    }
  }

  /** The objects of a machine's piece are none that a Rollout is made of. */
  lemma MachinePieceKept(o: Object, cfgs: map<string, string>, piece: seq<Object>, rollouts: map<string, string>)
    requires Convertible(o, cfgs.Keys) && MachinePiece(o, cfgs, piece)
    ensures forall i | 0 <= i < |piece| :: !Convertible(piece[i], rollouts.Keys)
  {
    assert forall i | 0 <= i < |piece| :: i == 0 || piece[i] == piece[1..][i - 1];
  }

  lemma {:induction false} JoinedSingles(objects: seq<Object>, pieces: seq<seq<Object>>)
    requires |pieces| == |objects| && forall i | 0 <= i < |objects| :: pieces[i] == [objects[i]]
    ensures Joined(pieces) == objects
  {
    if objects != [] {
      JoinedSingles(objects[..|objects| - 1], pieces[..|objects| - 1]);
    }
  }

  lemma {:induction false} JoinedAppend(a: seq<seq<Object>>, b: seq<seq<Object>>)
    ensures Joined(a + b) == Joined(a) + Joined(b)
  {
    if b == [] {
      assert a + b == a;
    } else {
      assert (a + b)[..|a + b| - 1] == a + b[..|b| - 1];
      JoinedAppend(a, b[..|b| - 1]);
    }
  }

  /** What the second conversion makes of one piece of the first. */
  lemma PieceShipped(o: Object, machines: map<string, string>, rollouts: map<string, string>, services: seq<Object>,
      piece: seq<Object>, later: seq<seq<Object>>)
    requires MachinePiece(o, machines, piece) && |later| == |piece|
    requires forall i | 0 <= i < |piece| :: RolloutPiece(piece[i], rollouts, services, later[i])
    ensures ShippedPiece(o, machines, rollouts, services, Joined(later))
  {
    if Convertible(o, machines.Keys) {
      hide MachinePiece;
      MachinePieceKept(o, machines, piece, rollouts);
      JoinedSingles(piece, later);
      assert MachinePiece(o, machines, Joined(later));
      assert MachineFor(o, machines[o.name], piece) by { MachinePieceIs(o, machines, piece); }
    } else {
      assert later == [later[0]] && piece[0] == o;
      assert Joined([later[0]]) == later[0] by { JoinedSnoc([], later[0]); }
    }
  }

  lemma MachinePieceIs(o: Object, cfgs: map<string, string>, piece: seq<Object>)
    requires Convertible(o, cfgs.Keys) && MachinePiece(o, cfgs, piece)
    ensures MachineFor(o, cfgs[o.name], piece)
  {
  }

  /** The two conversions one after the other, piece by piece. */
  lemma {:induction false} BothConversions(objects: seq<Object>, machines: map<string, string>,
      rollouts: map<string, string>, services: seq<Object>, pieces: seq<seq<Object>>, later: seq<seq<Object>>)
      returns (both: seq<seq<Object>>)
    requires |pieces| == |objects| && forall i | 0 <= i < |objects| :: MachinePiece(objects[i], machines, pieces[i])
    requires |later| == |Joined(pieces)|
    requires forall i | 0 <= i < |later| :: RolloutPiece(Joined(pieces)[i], rollouts, services, later[i])
    ensures |both| == |objects| && Joined(both) == Joined(later)
    ensures forall i | 0 <= i < |objects| :: ShippedPiece(objects[i], machines, rollouts, services, both[i])
  {
    hide MachinePiece;
    hide RolloutPiece;
    hide ShippedPiece;
    if objects == [] {
      assert later == [];
      both := [];
    } else {
      var n := |objects| - 1;
      var k := |Joined(pieces[..n])|;
      assert Joined(pieces) == Joined(pieces[..n]) + pieces[n];
      var init, last := later[..k], later[k..];
      both := BothConversions(objects[..n], machines, rollouts, services, pieces[..n], init);
      forall i | 0 <= i < |pieces[n]| ensures RolloutPiece(pieces[n][i], rollouts, services, last[i]) {
        assert Joined(pieces)[k + i] == pieces[n][i] && later[k + i] == last[i];
      }
      PieceShipped(objects[n], machines, rollouts, services, pieces[n], last);
      JoinedAppend(init, last);
      assert later == init + last;
      JoinedSnoc(both, Joined(last));
      both := both + [Joined(last)];
    }
  }

  /** Deployments for Rollouts that are not made machines are still there for the second conversion, and no others. */
  lemma {:induction false} StillToRoll(objects: seq<Object>, machines: map<string, string>,
      rollouts: map<string, string>, services: seq<Object>, pieces: seq<seq<Object>>)
    requires |pieces| == |objects| && forall i | 0 <= i < |objects| :: MachinePiece(objects[i], machines, pieces[i])
    ensures AllRollable(Joined(pieces), map[], rollouts, services) <==>
            AllRollable(objects, machines, rollouts, services)
  {
    hide MachinePiece;
    hide Rollable;
    if objects == [] {
      assert Joined(pieces) == [];
    } else {
      var n := |objects| - 1;
      var o := objects[n];
      StillToRoll(objects[..n], machines, rollouts, services, pieces[..n]);
      RollableAppend(Joined(pieces[..n]), pieces[n], map[], rollouts, services);
      RollableAppend(objects[..n], [o], machines, rollouts, services);
      assert objects == objects[..n] + [o];
      if Convertible(o, machines.Keys) {
        MachinePieceKept(o, machines, pieces[n], rollouts);
        assert AllRollable([o], machines, rollouts, services);
      } else {
        assert pieces[n] == [o] by { MachinePieceOther(o, machines, pieces[n]); }
        assert AllRollable([o], machines, rollouts, services) <==> AllRollable([o], map[], rollouts, services);
      }
    }
  }

  lemma MachinePieceOther(o: Object, cfgs: map<string, string>, piece: seq<Object>)
    requires !Convertible(o, cfgs.Keys) && MachinePiece(o, cfgs, piece)
    ensures piece == [o]
  {
  }

  /** Every Deployment to roll out, apart from those that become machines, can be. */
  ghost predicate AllRollable(objects: seq<Object>, machines: map<string, string>, rollouts: map<string, string>,
      services: seq<Object>) {
    forall i | 0 <= i < |objects| && Convertible(objects[i], rollouts.Keys) && !Convertible(objects[i], machines.Keys) ::
      Rollable(objects[i], rollouts[objects[i].name], services)
  }

  lemma RollableAppend(a: seq<Object>, b: seq<Object>, machines: map<string, string>, rollouts: map<string, string>,
      services: seq<Object>)
    ensures AllRollable(a + b, machines, rollouts, services) <==>
            AllRollable(a, machines, rollouts, services) && AllRollable(b, machines, rollouts, services)
  {
    hide Rollable;
    hide Convertible;
    if AllRollable(a + b, machines, rollouts, services) {
      assert forall i | 0 <= i < |a| :: (a + b)[i] == a[i];
      assert forall i | 0 <= i < |b| :: (a + b)[|a| + i] == b[i];
    }
  }

  /** Every configured Deployment can boot, and each configured name has one. */
  ghost predicate AllBootable(objects: seq<Object>, cfgs: map<string, string>) {
    && (forall i | 0 <= i < |objects| && Convertible(objects[i], cfgs.Keys) :: Bootable(objects[i]))
    && forall name | name in cfgs :: Configured(objects, cfgs.Keys, name)
  }

  /** There is a Deployment of this name to convert. */
  ghost predicate Configured(objects: seq<Object>, names: set<string>, name: string) {
    exists i | 0 <= i < |objects| :: Convertible(objects[i], names) && objects[i].name == name
  }

  lemma NoneConfigured(names: set<string>)
    ensures forall name :: !Configured([], names, name)
  {
  }

  lemma ConfiguredSnoc(objects: seq<Object>, i: nat, names: set<string>)
    requires i < |objects|
    ensures forall name :: Configured(objects[..i + 1], names, name) <==>
        Configured(objects[..i], names, name) || (Convertible(objects[i], names) && objects[i].name == name)
  {
    hide Convertible;
    var init, more := objects[..i], objects[..i + 1];
    assert more[i] == objects[i];
    forall name | Configured(init, names, name) ensures Configured(more, names, name) {
      var j :| 0 <= j < i && Convertible(init[j], names) && init[j].name == name;
      assert more[j] == init[j];
    }
    forall name | Configured(more, names, name) && !(Convertible(objects[i], names) && objects[i].name == name)
      ensures Configured(init, names, name)
    {
      var j :| 0 <= j < i + 1 && Convertible(more[j], names) && more[j].name == name;
      assert init[j] == more[j];
    }
  }

  /** The object list of one compilation; every pass rewrites it in place or replaces it. */
  class Compilation {
    var objects: seq<Object>

    constructor (objects: seq<Object>)
      ensures this.objects == objects
    {
      this.objects := objects;
    }

    method ApplyPlacement(cfgs: map<string, Config>)
      modifies this
      ensures |objects| == |old(objects)| && forall i | 0 <= i < |objects| ::
          objects[i] == PlaceOne(old(objects)[i], cfgs)
    {
      for i := 0 to |objects|
        invariant |objects| == |old(objects)|
        invariant forall j | 0 <= j < i :: objects[j] == PlaceOne(old(objects)[j], cfgs)
        invariant forall j | i <= j < |objects| :: objects[j] == old(objects)[j]
      {
        var o := objects[i];
        if !o.Workload? || o.name !in cfgs { continue; }
        var c := cfgs[o.name];
        var pod := o.work.pod;
        if |c.constraints| > 0 {
          if pod.required.None? || pod.required.value == [] {
            pod := pod.(required := Some([[]]));
          }
          var first := pod.required.value[0];
          for k := 0 to |c.constraints|
            invariant first == pod.required.value[0] + c.constraints[..k]
          {
            first := first + [c.constraints[k]];
          }
          assert c.constraints[..|c.constraints|] == c.constraints;
          pod := pod.(required := Some(pod.required.value[0 := first]));
        }
        var spread := AppendSpreads(pod.spread, c.spread, o.work.matchLabels);
        pod := pod.(spread := spread);
        objects := objects[i := o.(work := o.work.(pod := pod))];
      }
    }

    method ApplyNodeSelector(cfgs: map<string, Labels>)
      modifies this
      ensures |objects| == |old(objects)| && forall i | 0 <= i < |objects| ::
          objects[i] == SelectOne(old(objects)[i], cfgs)
    {
      for i := 0 to |objects|
        invariant |objects| == |old(objects)|
        invariant forall j | 0 <= j < i :: objects[j] == SelectOne(old(objects)[j], cfgs)
        invariant forall j | i <= j < |objects| :: objects[j] == old(objects)[j]
      {
        var o := objects[i];
        if !o.Workload? || o.name !in cfgs { continue; }
        objects := objects[i := o.(work := Selected(o.work, cfgs[o.name]))];
      }
    }

    /**
     The passes in the order they are made: placement, selectors, machines, Rollouts. Whether they go
     through can be told from the objects they start with; then each object, with its placement and
     selector, has been replaced in its place or stays, and the scheduler is told what was compiled.
     */
    method Compile(placements: map<string, Config>, selectors: map<string, Labels>, machines: map<string, string>,
        rollouts: map<string, string>)
      returns (ok: bool)
      modifies this
      ensures ok <==>
        && AllBootable(old(objects), machines)
        && AllRollable(old(objects), machines, rollouts, old(objects))
      ensures ok ==> AllShipped(CompilingAll(old(objects), placements, selectors), machines, rollouts, old(objects),
                                objects)
      ensures ok ==> Schedulings(objects) == Schedulings(CompilingAll(old(objects), placements, selectors))
    {
      hide PlaceOne;
      hide SelectOne;
      hide Schedulings;
      hide AllBootable;
      hide AllRollable;
      hide MachinesMade;
      hide RolloutsMade;
      hide AllShipped;
      ApplyPlacement(placements);
      ApplyNodeSelector(selectors);
      ghost var compiled := CompilingAll(old(objects), placements, selectors);
      assert objects == compiled;
      CompilingFits(old(objects), placements, selectors, machines, rollouts);
      ok := ConvertMachines(machines);
      if ok {
        ghost var made := objects;
        RollAfterMachines(compiled, machines, rollouts, made);
        ok := ConvertRollouts(rollouts);
        if ok {
          ShipBoth(compiled, machines, rollouts, made, objects);
          SameServices(old(objects), compiled, machines, rollouts, made, objects);
        }
      }
    }

    /**
     Every configured Deployment becomes a machine in its place, and everything else stays. It is an error,
     which leaves the list alone, if one of them cannot be converted, or if there is none of some name.
     */
    method ConvertMachines(cfgs: map<string, string>) returns (ok: bool)
      modifies this
      ensures ok <==> AllBootable(old(objects), cfgs)
      ensures ok ==> MachinesMade(old(objects), cfgs, objects)
      ensures !ok ==> objects == old(objects)
      ensures ok ==> Schedulings(objects) == Schedulings(old(objects))
      ensures ok ==> NoneLeft(objects, cfgs.Keys) && forall name | name in cfgs :: HasMachine(objects, name)
    {
      hide ToMachine;
      hide HasMachine;
      hide NoneLeft;
      hide MachinesMade;
      hide MachinePiece;
      hide Bootable;
      hide Convertible;
      hide Configured;
      hide Schedulings;
      assert !(exists name :: Configured([], cfgs.Keys, name)) by { NoneConfigured(cfgs.Keys); }
      SchedulingsNone();
      NothingYet(cfgs.Keys);
      NothingMade(cfgs, []);
      var converted: set<string> := {};
      var out := [];
      for i := 0 to |objects|
        invariant objects == old(objects)
        invariant MachinesMade(objects[..i], cfgs, out)
        invariant forall j | 0 <= j < i && Convertible(objects[j], cfgs.Keys) :: Bootable(objects[j])
        invariant forall name :: name in converted <==> Configured(objects[..i], cfgs.Keys, name)
        invariant Schedulings(out) == Schedulings(objects[..i])
        invariant NoneLeft(out, cfgs.Keys) && forall name | name in converted :: HasMachine(out, name)
      {
        var r := ToMachine(objects[i], cfgs);
        ToMachineMakes(objects[i], cfgs);
        if r.None? { return false; }
        SchedulingsSnoc(objects, i);
        MachinesMadeSnoc(objects, i, cfgs, out, r.value);
        ConfiguredSnoc(objects, i, cfgs.Keys);
        MachineSchedules(objects[i], cfgs);
        MachineMade(objects[i], cfgs);
        SchedulingsAppend(out, r.value);
        LeftAppend(out, r.value, cfgs.Keys);
        MachineAppend(out, r.value);
        out := out + r.value;
        if Convertible(objects[i], cfgs.Keys) {
          converted := converted + {objects[i].name};
        }
      }
      assert objects[..|objects|] == objects;
      ok := forall name | name in cfgs :: name in converted;
      if ok {
        objects := out;
      }
    }

    method ConvertRollouts(cfgs: map<string, string>) returns (ok: bool)
      modifies this
      ensures ok <==> AllRollable(old(objects), map[], cfgs, old(objects))
      ensures ok ==> RolloutsMade(old(objects), cfgs, old(objects), objects)
      ensures !ok ==> objects == old(objects)
      ensures ok ==> Schedulings(objects) == Schedulings(old(objects))
      ensures ok ==> NoneLeft(objects, cfgs.Keys)
    {
      hide ToRollout;
      hide NoneLeft;
      hide Schedulings;
      hide RolloutsMade;
      hide RolloutPiece;
      hide Rollable;
      hide HasService;
      NothingYet(cfgs.Keys);
      NothingMade(cfgs, objects);
      SchedulingsNone();
      var services: set<string> := {};
      for i := 0 to |objects|
        invariant objects == old(objects) && services == ServiceNames(objects[..i])
      {
        assert objects[..i + 1][..i] == objects[..i];
        if objects[i].Service? {
          services := services + {objects[i].name};
        }
      }
      assert objects[..|objects|] == objects;
      ServiceNamesIff(objects);
      var out := [];
      for i := 0 to |objects|
        invariant objects == old(objects)
        invariant forall j | 0 <= j < i && Convertible(objects[j], cfgs.Keys) ::
            Rollable(objects[j], cfgs[objects[j].name], objects)
        invariant RolloutsMade(objects[..i], cfgs, objects, out)
        invariant Schedulings(out) == Schedulings(objects[..i])
        invariant NoneLeft(out, cfgs.Keys)
      {
        var r := ToRollout(objects[i], cfgs, services);
        ToRolloutMakes(objects[i], cfgs, services, objects);
        if r.None? { return false; }
        RolloutsMadeSnoc(objects, i, cfgs, objects, out, r.value);
        SchedulingsSnoc(objects, i);
        RolloutSchedules(objects[i], cfgs, services);
        SchedulingsAppend(out, r.value);
        LeftAppend(out, r.value, cfgs.Keys);
        out := out + r.value;
      }
      assert objects[..|objects|] == objects;
      objects := out;
      ok := true;
    }
  }

  /** The two passes on one workload. */
  function Compiling(o: Object, placements: map<string, Config>, selectors: map<string, Labels>): Object {
    SelectOne(PlaceOne(o, placements), selectors)
  }

  function CompilingAll(objects: seq<Object>, placements: map<string, Config>,
      selectors: map<string, Labels>): seq<Object> {
    seq(|objects|, i requires 0 <= i < |objects| => Compiling(objects[i], placements, selectors))
  }

  /** Placement and selectors change nothing that the conversions look at. */
  lemma CompilingFits(objects: seq<Object>, placements: map<string, Config>, selectors: map<string, Labels>,
      machines: map<string, string>, rollouts: map<string, string>)
    ensures
      var compiled := CompilingAll(objects, placements, selectors);
      && (AllBootable(compiled, machines) <==> AllBootable(objects, machines))
      && (AllRollable(compiled, machines, rollouts, compiled) <==> AllRollable(objects, machines, rollouts, objects))
      && forall name :: HasService(compiled, name) <==> HasService(objects, name)
  {
    hide Bootable;
    hide Convertible;
    hide Compiling;
    var compiled := CompilingAll(objects, placements, selectors);
    forall i | 0 <= i < |objects|
      ensures Alike(compiled[i], objects[i])
    {
      CompilingAlike(objects[i], placements, selectors);
    }
    AlikeFits(objects, compiled, machines, rollouts);
  }

  /** The same as far as the conversions care. */
  ghost predicate Alike(a: Object, b: Object) {
    && a.name == b.name && a.Service? == b.Service? && a.Workload? == b.Workload?
    && (a.Workload? ==> a.kind == b.kind && a.work.replicas == b.work.replicas && a.work.images == b.work.images)
  }

  lemma CompilingAlike(o: Object, placements: map<string, Config>, selectors: map<string, Labels>)
    ensures Alike(Compiling(o, placements, selectors), o)
  {
  }

  lemma AlikeFits(a: seq<Object>, b: seq<Object>, machines: map<string, string>, rollouts: map<string, string>)
    requires |a| == |b| && forall i | 0 <= i < |a| :: Alike(b[i], a[i])
    ensures AllBootable(b, machines) <==> AllBootable(a, machines)
    ensures AllRollable(b, machines, rollouts, b) <==> AllRollable(a, machines, rollouts, a)
    ensures forall name :: HasService(b, name) <==> HasService(a, name)
  {
    assert forall i | 0 <= i < |a| :: Alike(b[i], a[i]);
    forall name ensures HasService(b, name) <==> HasService(a, name) {
      AlikeServices(a, b, name);
    }
    forall name ensures Configured(b, machines.Keys, name) <==> Configured(a, machines.Keys, name) {
      AlikeConfigured(a, b, machines.Keys, name);
    }
    AlikeRest(a, b, machines, rollouts);
  }

  lemma AlikeServices(a: seq<Object>, b: seq<Object>, name: string)
    requires |a| == |b| && forall i | 0 <= i < |a| :: Alike(b[i], a[i])
    ensures HasService(b, name) <==> HasService(a, name)
  {
  }

  lemma AlikeConfigured(a: seq<Object>, b: seq<Object>, names: set<string>, name: string)
    requires |a| == |b| && forall i | 0 <= i < |a| :: Alike(b[i], a[i])
    ensures Configured(b, names, name) <==> Configured(a, names, name)
  {
  }

  lemma AlikeRest(a: seq<Object>, b: seq<Object>, machines: map<string, string>, rollouts: map<string, string>)
    requires |a| == |b| && forall i | 0 <= i < |a| :: Alike(b[i], a[i])
    requires forall name :: HasService(b, name) <==> HasService(a, name)
    ensures (forall i | 0 <= i < |b| && Convertible(b[i], machines.Keys) :: Bootable(b[i])) <==>
            (forall i | 0 <= i < |a| && Convertible(a[i], machines.Keys) :: Bootable(a[i]))
    ensures AllRollable(b, machines, rollouts, b) <==> AllRollable(a, machines, rollouts, a)
  {
    hide HasService;
    forall i | 0 <= i < |a|
      ensures Convertible(b[i], machines.Keys) <==> Convertible(a[i], machines.Keys)
      ensures Convertible(b[i], rollouts.Keys) <==> Convertible(a[i], rollouts.Keys)
      ensures Bootable(b[i]) <==> Bootable(a[i])
      ensures Convertible(a[i], rollouts.Keys) ==>
          (Rollable(b[i], rollouts[b[i].name], b) <==> Rollable(a[i], rollouts[a[i].name], a))
    {
    }
  }

  lemma RollAfterMachines(objects: seq<Object>, machines: map<string, string>, rollouts: map<string, string>,
      made: seq<Object>)
    requires MachinesMade(objects, machines, made)
    ensures AllRollable(made, map[], rollouts, made) <==> AllRollable(objects, machines, rollouts, objects)
    ensures forall name :: HasService(made, name) <==> HasService(objects, name)
  {
    hide MachinePiece;
    hide HasService;
    hide AllRollable;
    var pieces :| |pieces| == |objects| && made == Joined(pieces)
      && forall i | 0 <= i < |objects| :: MachinePiece(objects[i], machines, pieces[i]);
    forall name ensures HasService(made, name) <==> HasService(objects, name) {
      ServicesStay(objects, machines, pieces, name);
    }
    StillToRoll(objects, machines, rollouts, objects, pieces);
    OtherServices(made, map[], rollouts, made, objects);
  }

  lemma OtherServices(objects: seq<Object>, machines: map<string, string>, rollouts: map<string, string>,
      a: seq<Object>, b: seq<Object>)
    requires forall name :: HasService(a, name) <==> HasService(b, name)
    ensures AllRollable(objects, machines, rollouts, a) <==> AllRollable(objects, machines, rollouts, b)
  {
    hide HasService;
  }

  lemma ShipBoth(objects: seq<Object>, machines: map<string, string>, rollouts: map<string, string>, made: seq<Object>,
      shipped: seq<Object>)
    requires MachinesMade(objects, machines, made) && RolloutsMade(made, rollouts, made, shipped)
    ensures AllShipped(objects, machines, rollouts, made, shipped)
  {
    hide MachinePiece;
    hide RolloutPiece;
    hide ShippedPiece;
    hide Joined;
    var pieces :| |pieces| == |objects| && made == Joined(pieces)
      && forall i | 0 <= i < |objects| :: MachinePiece(objects[i], machines, pieces[i]);
    var later :| |later| == |made| && shipped == Joined(later)
      && forall i | 0 <= i < |made| :: RolloutPiece(made[i], rollouts, made, later[i]);
    var both := BothConversions(objects, machines, rollouts, made, pieces, later);
  }

  /** Only which Services there are matters. */
  lemma SameServices(a: seq<Object>, objects: seq<Object>, machines: map<string, string>,
      rollouts: map<string, string>, b: seq<Object>, shipped: seq<Object>)
    requires AllShipped(objects, machines, rollouts, b, shipped)
    requires forall name :: HasService(a, name) <==> HasService(b, name)
    ensures AllShipped(objects, machines, rollouts, a, shipped)
  {
    hide HasService;
    hide Joined;
    hide MachineFor;
    var pieces :| |pieces| == |objects| && shipped == Joined(pieces)
      && forall i | 0 <= i < |objects| :: ShippedPiece(objects[i], machines, rollouts, b, pieces[i]);
    forall i | 0 <= i < |objects| ensures ShippedPiece(objects[i], machines, rollouts, a, pieces[i]) {
    }
  }

  /**
   Beside its selector and its required terms a workload gets one more spread for each key of its
   placement, in order and among its own pods; nothing else of it changes, and nothing of anything else.
   */
  lemma CompilingKeeps(o: Object, placements: map<string, Config>, selectors: map<string, Labels>)
    ensures
      var c, keys := Compiling(o, placements, selectors), ConfigOf(placements, o.name).spread;
      if !o.Workload? then c == o
      else
        && c.Workload? && c.name == o.name && c.kind == o.kind && c.work.(pod := o.work.pod) == o.work
        && |c.work.pod.spread| == |o.work.pod.spread| + |keys| && o.work.pod.spread <= c.work.pod.spread
        && forall k | 0 <= k < |keys| ::
            c.work.pod.spread[|o.work.pod.spread| + k] == Spread(keys[k], o.work.matchLabels)
  {
  }

  /******* What reaches the scheduler *******/

  function SchedulingOf(o: Object): seq<Scheduling> {
    match o
    case Workload(_, name, work) => [Scheduling(name, work.pod.selector, work.pod.required)]
    case Rollout(name, work, _) => [Scheduling(name, work.pod.selector, work.pod.required)]
    case Machine(name, _, _, vmi) => [Scheduling(name, if vmi.selector.Some? then vmi.selector.value
      else map[], vmi.affinity)]
    case _ => []
  }

  /** What the scheduler is told, workload by workload. */
  function Schedulings(objects: seq<Object>): seq<Scheduling> {
    if objects == [] then [] else Schedulings(objects[..|objects| - 1]) + SchedulingOf(objects[|objects| - 1])
  }

  lemma {:induction false} SchedulingsAppend(a: seq<Object>, b: seq<Object>)
    ensures Schedulings(a + b) == Schedulings(a) + Schedulings(b)
  {
    if b == [] {
      assert a + b == a;
    } else {
      assert (a + b)[..|a + b| - 1] == a + b[..|b| - 1];
      SchedulingsAppend(a, b[..|b| - 1]);
    }
  }

  lemma SchedulingsNone()
    ensures Schedulings([]) == []
  {
  }

  lemma SchedulingsSnoc(objects: seq<Object>, i: nat)
    requires i < |objects|
    ensures Schedulings(objects[..i + 1]) == Schedulings(objects[..i]) + SchedulingOf(objects[i])
  {
    assert objects[..i + 1][..i] == objects[..i];
  }

  lemma SchedulingsOne(o: Object)
    ensures Schedulings([o]) == SchedulingOf(o)
  {
  }

  /** A machine tells the scheduler what its Deployment did. */
  lemma MachineSchedules(o: Object, cfgs: map<string, string>)
    requires ToMachine(o, cfgs).Some?
    ensures Schedulings(ToMachine(o, cfgs).value) == SchedulingOf(o)
  {
    hide Schedulings;
    var r := ToMachine(o, cfgs).value;
    SchedulingsOne(r[0]);
    if |r| == 1 {
      assert r == [r[0]];
    } else {
      assert r == [r[0]] + [r[1]];
      SchedulingsOne(r[1]);
      SchedulingsAppend([r[0]], [r[1]]);
    }
  }

  lemma MachineMade(o: Object, cfgs: map<string, string>)
    requires ToMachine(o, cfgs).Some?
    ensures NoneLeft(ToMachine(o, cfgs).value, cfgs.Keys)
    ensures Convertible(o, cfgs.Keys) ==> HasMachine(ToMachine(o, cfgs).value, o.name)
  {
    if Convertible(o, cfgs.Keys) {
      assert ToMachine(o, cfgs).value[0].Machine?;
    }
  }

  lemma RolloutSchedules(o: Object, cfgs: map<string, string>, services: set<string>)
    requires ToRollout(o, cfgs, services).Some?
    ensures Schedulings(ToRollout(o, cfgs, services).value) == SchedulingOf(o)
    ensures NoneLeft(ToRollout(o, cfgs, services).value, cfgs.Keys)
  {
  }

  /******* The meaning of the whole *******/

  /** No required terms, or a single one that says something. */
  predicate Joinable(required: Option<seq<Term>>) {
    required.None? || (|required.value| == 1 && required.value[0] != [])
  }

  predicate AllMeet(node: Labels, reqs: seq<Requirement>) {
    forall i | 0 <= i < |reqs| :: Meets(node, reqs[i])
  }

  lemma OneTerm(node: Labels, t: Term)
    ensures RequiredMatches(node, Some([t])) <==> TermMatches(node, t)
  {
    hide TermMatches;
    assert [t][0] == t;
  }

  lemma AllMeetAppend(node: Labels, a: seq<Requirement>, b: seq<Requirement>)
    ensures AllMeet(node, a + b) <==> AllMeet(node, a) && AllMeet(node, b)
  {
    hide Meets;
    var t := a + b;
    if AllMeet(node, t) {
      forall i | 0 <= i < |a| ensures Meets(node, a[i]) {
        assert t[i] == a[i];
      }
      forall i | 0 <= i < |b| ensures Meets(node, b[i]) {
        assert t[|a| + i] == b[i];
      }
    }
  }

  /** Joining constraints to such terms is conjunction. */
  lemma RequireMeans(required: Option<seq<Term>>, reqs: seq<Requirement>, node: Labels)
    requires Joinable(required)
    ensures RequiredMatches(node, Require(required, reqs)) <==> RequiredMatches(node, required) && AllMeet(node, reqs)
  {
    hide Meets;
    if reqs != [] {
      var first := if required.None? then [] else required.value[0];
      var t := first + reqs;
      assert Require(required, reqs).value == [t];
      AllMeetAppend(node, first, reqs);
      assert TermMatches(node, t) <==> AllMeet(node, t);
      OneTerm(node, t);
      if required.Some? {
        assert required.value == [first];
        OneTerm(node, first);
        assert TermMatches(node, first) <==> AllMeet(node, first);
      }
    }
  }

  /** With a second term, a node it matches is admitted whatever the constraints say. */
  lemma SecondTermEscapes(terms: seq<Term>, reqs: seq<Requirement>, node: Labels)
    requires |terms| >= 2 && reqs != [] && TermMatches(node, terms[1]) && !AllMeet(node, reqs)
    ensures RequiredMatches(node, Require(Some(terms), reqs))
  {
    assert Require(Some(terms), reqs).value[1] == terms[1];
  }

  /** An empty list of terms, or an empty first term, admits nobody until constraints are joined to it. */
  lemma EmptyTermOpens(required: seq<Term>, reqs: seq<Requirement>, node: Labels)
    requires required == [] || required == [[]]
    requires reqs != [] && AllMeet(node, reqs)
    ensures !RequiredMatches(node, Some(required)) && RequiredMatches(node, Require(Some(required), reqs))
  {
    assert Require(Some(required), reqs).value[0] == reqs;
  }

  lemma SelectorMeans(prior: Labels, added: Labels, node: Labels)
    ensures SelectorMatches(node, prior + added) <==>
            SelectorMatches(node, added) && SelectorMatches(node, prior - added.Keys)
  {
  }

  /** The entries that are texts, the others being passed over. */
  function TextsOf(items: seq<Item>): seq<Item> {
    if items == [] then []
    else TextsOf(items[..|items| - 1]) + if items[|items| - 1].Text? then [items[|items| - 1]] else []
  }

  lemma {:induction false} OnlyTextsCount(items: seq<Item>)
    ensures Constraints(items) == Constraints(TextsOf(items))
  {
    hide ParseConstraint;
    if items != [] {
      var init, last := items[..|items| - 1], items[|items| - 1];
      OnlyTextsCount(init);
      if last.Text? {
        assert (TextsOf(init) + [last])[..|TextsOf(init)|] == TextsOf(init);
      } else {
        assert TextsOf(items) == TextsOf(init);
      }
    }
  }

  ghost predicate Spelled(items: seq<Item>, spellings: seq<Spelling>, cs: seq<Constraint>) {
    |items| == |spellings| == |cs| &&
    forall i | 0 <= i < |cs| :: Spells(spellings[i], cs[i]) && items[i] == Text(Written(spellings[i], cs[i]))
  }

  function CompiledAll(cs: seq<Constraint>): (r: seq<Requirement>)
    ensures |r| == |cs| && forall i | 0 <= i < |cs| :: r[i] == Compiled(cs[i])
  {
    if cs == [] then [] else CompiledAll(cs[..|cs| - 1]) + [Compiled(cs[|cs| - 1])]
  }

  lemma {:induction false} ConstraintsRead(items: seq<Item>, spellings: seq<Spelling>, cs: seq<Constraint>)
    requires Spelled(items, spellings, cs)
    ensures Constraints(items) == Some(CompiledAll(cs))
  {
    hide ParseConstraint;
    hide Compiled;
    hide Written;
    hide Spells;
    if items != [] {
      var n := |items| - 1;
      ConstraintsRead(items[..n], spellings[..n], cs[..n]);
      ReadsAsWritten(spellings[n], cs[n]);
    }
  }

  /** A service's placement, empty when it has none. */
  function ConfigOf(placements: map<string, Config>, name: string): Config {
    if name in placements then placements[name] else Config([], [])
  }

  /** A service's selector entries, none when it has none. */
  function SelectorOf(selectors: map<string, Labels>, name: string): Labels {
    if name in selectors then selectors[name] else map[]
  }

  /** A workload after the two conversions, machines first. */
  function Shipped(o: Object, machines: map<string, string>, rollouts: map<string, string>,
      services: set<string>): Option<seq<Object>> {
    if Convertible(o, machines.Keys) then ToMachine(o, machines) else ToRollout(o, rollouts, services)
  }

  /** Whatever it is shipped as, the scheduler is told the same. */
  lemma ShippedSchedules(o: Object, machines: map<string, string>, rollouts: map<string, string>, services: set<string>)
    requires Shipped(o, machines, rollouts, services).Some?
    ensures Schedulings(Shipped(o, machines, rollouts, services).value) == SchedulingOf(o)
  {
    hide Schedulings;
    hide ToMachine;
    hide ToRollout;
    if Convertible(o, machines.Keys) {
      MachineSchedules(o, machines);
    } else {
      RolloutSchedules(o, rollouts, services);
    }
  }

  /**
   Placement keeps its meaning for Deployments, Rollouts and machines alike: however the workload is
   shipped, exactly one scheduling comes of it, and it admits a node as `CompilingMeans` says.
   */
  lemma PlacementMeans(o: Object, items: seq<Item>, spellings: seq<Spelling>, cs: seq<Constraint>, cfg: Config,
                       selector: Labels, placements: map<string, Config>, selectors: map<string, Labels>,
                       machines: map<string, string>, rollouts: map<string, string>, services: set<string>, n: Node)
    requires o.Workload? && Joinable(o.work.pod.required) && Proper(n)
    requires Spelled(TextsOf(items), spellings, cs) && forall i | 0 <= i < |cs| :: Expressible(cs[i])
    requires Constraints(items) == Some(cfg.constraints)
    requires cfg == ConfigOf(placements, o.name) && selector == SelectorOf(selectors, o.name)
    requires Shipped(Compiling(o, placements, selectors), machines, rollouts, services).Some?
    ensures var s := Schedulings(Shipped(Compiling(o, placements, selectors), machines, rollouts, services).value);
            && |s| == 1 && s[0].name == o.name
            && (Admits(s[0], ClusterLabels(n)) <==>
                  && (forall i | 0 <= i < |cs| :: Satisfies(n, cs[i]))
                  && SelectorMatches(ClusterLabels(n), selector)
                  && SelectorMatches(ClusterLabels(n), o.work.pod.selector - selector.Keys)
                  && RequiredMatches(ClusterLabels(n), o.work.pod.required))
  {
    hide Shipped;
    hide Schedulings;
    hide Admits;
    hide Satisfies;
    hide SelectorMatches;
    hide ClusterLabels;
    hide Spelled;
    hide Constraints;
    hide Expressible;
    hide RequiredMatches;
    hide Joinable;
    CompilingMeans(o, items, spellings, cs, cfg, selector, placements, selectors, n);
    ShippedSchedules(Compiling(o, placements, selectors), machines, rollouts, services);
  }

  /**
   A workload compiled from any spelling of expressible constraints and from selector entries, with either
   or both of them missing, admits a node if and only if the node satisfies every constraint, every
   selector entry, and what the workload asked before: its selector about other keys, and its required term.
   */
  lemma CompilingMeans(o: Object, items: seq<Item>, spellings: seq<Spelling>, cs: seq<Constraint>, cfg: Config,
                       selector: Labels, placements: map<string, Config>, selectors: map<string, Labels>, n: Node)
    requires o.Workload? && Joinable(o.work.pod.required) && Proper(n)
    requires Spelled(TextsOf(items), spellings, cs) && forall i | 0 <= i < |cs| :: Expressible(cs[i])
    requires Constraints(items) == Some(cfg.constraints)
    requires cfg == ConfigOf(placements, o.name) && selector == SelectorOf(selectors, o.name)
    ensures var s := SchedulingOf(Compiling(o, placements, selectors));
            && |s| == 1
            && (Admits(s[0], ClusterLabels(n)) <==>
                  && (forall i | 0 <= i < |cs| :: Satisfies(n, cs[i]))
                  && SelectorMatches(ClusterLabels(n), selector)
                  && SelectorMatches(ClusterLabels(n), o.work.pod.selector - selector.Keys)
                  && RequiredMatches(ClusterLabels(n), o.work.pod.required))
  {
    hide Constraints;
    hide Compiled;
    hide Satisfies;
    hide Meets;
    hide SelectorMatches;
    hide RequiredMatches;
    hide ClusterLabels;
    hide Spelled;
    hide Expressible;
    hide Require;
    hide Compiling;
    hide ConfigOf;
    hide SelectorOf;
    var node := ClusterLabels(n);
    OnlyTextsCount(items);
    ConstraintsRead(TextsOf(items), spellings, cs);
    RequireMeans(o.work.pod.required, cfg.constraints, node);
    CompiledPod(o, placements, selectors);
    SelectorMeans(o.work.pod.selector, selector, node);
    forall i | 0 <= i < |cs| ensures Meets(node, cfg.constraints[i]) <==> Satisfies(n, cs[i]) {
      MeansOn(cs[i], n);
    }
    assert AllMeet(node, cfg.constraints) <==> forall i | 0 <= i < |cs| :: Satisfies(n, cs[i]);
  }

  /** What the two passes make of a workload, configured or not. */
  lemma CompiledPod(o: Object, placements: map<string, Config>, selectors: map<string, Labels>)
    requires o.Workload?
    ensures SchedulingOf(Compiling(o, placements, selectors)) ==
            [Scheduling(o.name, o.work.pod.selector + SelectorOf(selectors, o.name),
                        Require(o.work.pod.required, ConfigOf(placements, o.name).constraints))]
  {
    assert o.work.pod.selector + map[] == o.work.pod.selector;
  }
}
