/** Bind mounts: out of the compose file, onto the pods, and back into a compose file. */
module BindMounts {
  import opened Common
  import opened Text
  import opened Paths

  /******* Out of the volume list *******/

  datatype Item = Short(text: string) | Long(typ: string, source: string, target: string, readOnly: bool) | Strange
  datatype Mount = Mount(name: string, source: string, target: string, readOnly: bool)

  predicate IsBindSource(s: string) {
    s != [] && (s[0] == '/' || s[0] == '.' || s[0] == '~')
  }

  /** `SOURCE:TARGET[:MODE]`, if the source is a host path. */
  function ParseShortBind(s: string): Option<(string, string, bool)> {
    var parts := Split(s, ':');
    if |parts| < 2 || !IsBindSource(parts[0]) then None
    else Some((parts[0], parts[1], |parts| >= 3 && Contains(parts[2], "ro")))
  }

  /** Where relative paths and "~" lead. */
  datatype Host = Host(home: Option<string>, resolve: string -> string)

  function HostPath(src: string, host: Host): string {
    var full := if src != [] && src[0] == '~' && host.home.Some? then host.home.value + src[1..] else src;
    if IsAbs(full) then Clean(full) else host.resolve(full)
  }

  /** What an entry binds: source as written, target, and whether it is read-only. */
  function Bind(item: Item): Option<(string, string, bool)> {
    match item
    case Short(text) => ParseShortBind(text)
    case Long(typ, source, target, ro) => if typ == "bind" && source != ""
      && target != "" then Some((source, target, ro)) else None
    case Strange => None
  }

  function MountName(i: nat): string {
    "bind-" + Decimal(i)
  }

  function ToMount(i: nat, b: (string, string, bool), host: Host): Mount {
    Mount(MountName(i), HostPath(b.0, host), b.1, b.2)
  }

  function Mounts(items: seq<Item>, host: Host): seq<Mount> {
    if items == [] then []
    else
      var done := Mounts(items[..|items| - 1], host);
      match Bind(items[|items| - 1])
      case None => done
      case Some(b) => done + [ToMount(|done|, b, host)]
  }

  function Kept(items: seq<Item>): seq<Item> {
    if items == [] then []
    else Kept(items[..|items| - 1]) + if Bind(items[|items| - 1]).None? then [items[|items| - 1]] else []
  }

  method ExtractBindMounts(items: seq<Item>, host: Host) returns (mounts: seq<Mount>, kept: seq<Item>)
    ensures mounts == Mounts(items, host) && kept == Kept(items)
  {
    mounts, kept := [], [];
    var idx := 0;
    for i := 0 to |items|
      invariant mounts == Mounts(items[..i], host) && kept == Kept(items[..i]) && idx == |mounts|
    {
      assert items[..i + 1][..i] == items[..i];
      var b := Bind(items[i]);
      if b.Some? {
        mounts, idx := mounts + [ToMount(idx, b.value, host)], idx + 1;
        continue;
      }
      kept := kept + [items[i]];
    }
    assert items[..|items|] == items;
  }

  /** Which of the two lists each entry goes to, in order. */
  function Woven(items: seq<Item>, mounts: seq<Mount>, kept: seq<Item>, host: Host): bool {
    if items == [] then mounts == [] && kept == []
    else
      match Bind(items[0])
      case None => kept != [] && kept[0] == items[0] && Woven(items[1..], mounts, kept[1..], host)
      case Some((source, target, ro)) =>
        && mounts != [] && mounts[0].source == HostPath(source, host) && mounts[0].target == target
            && mounts[0].readOnly == ro
        && Woven(items[1..], mounts[1..], kept, host)
  }

  lemma {:induction false} WovenAppend(a: seq<Item>, ma: seq<Mount>, ka: seq<Item>, b: seq<Item>, mb: seq<Mount>,
      kb: seq<Item>, host: Host)
    requires Woven(a, ma, ka, host) && Woven(b, mb, kb, host)
    ensures Woven(a + b, ma + mb, ka + kb, host)
  {
    hide Bind;
    hide HostPath;
    if a == [] {
      assert a + b == b && ma + mb == mb && ka + kb == kb;
    } else {
      assert (a + b)[1..] == a[1..] + b;
      if Bind(a[0]).None? {
        assert (ka + kb)[1..] == ka[1..] + kb;
        WovenAppend(a[1..], ma, ka[1..], b, mb, kb, host);
      } else {
        assert (ma + mb)[1..] == ma[1..] + mb;
        WovenAppend(a[1..], ma[1..], ka, b, mb, kb, host);
      }
    }
  }

  /** Every entry goes to exactly one of the lists, in order and in full, and mount names are numbered from 0. */
  lemma {:induction false} ExtractPartitions(items: seq<Item>, host: Host)
    ensures Woven(items, Mounts(items, host), Kept(items), host)
    ensures |Mounts(items, host)| + |Kept(items)| == |items|
    ensures forall i | 0 <= i < |Mounts(items, host)| :: Mounts(items, host)[i].name == MountName(i)
  {
    hide Bind;
    hide MountName;
    hide HostPath;
    if items != [] {
      var init, last := items[..|items| - 1], items[|items| - 1];
      ExtractPartitions(init, host);
      var done := Mounts(init, host);
      var m := if Bind(last).Some? then [ToMount(|done|, Bind(last).value, host)] else [];
      var k := if Bind(last).None? then [last] else [];
      assert [last][1..] == [];
      assert Woven([last], m, k, host) by {
        assert Woven([], [], [], host);
        assert m != [] ==> m[1..] == [];
        assert k != [] ==> k[1..] == [];
      }
      WovenAppend(init, done, Kept(init), [last], m, k, host);
      assert init + [last] == items && done + m == Mounts(items, host) && Kept(init) + k == Kept(items);
    }
  }

  /** A host path, as compose tells it from a volume's name. */
  ghost predicate OnHost(s: string) {
    s != "" && (s[0] == '/' || s[0] == '.' || s[0] == '~')
  }

  ghost predicate Holds(s: string, word: string) {
    exists before, after :: s == before + word + after
  }

  /** "source:target" or "source:target:mode", with anything after another ":" ignored. */
  ghost predicate BindText(text: string, source: string, target: string, ro: bool) {
    && OnHost(source) && ':' !in source && ':' !in target
    && (|| (text == source + ":" + target && !ro)
        || exists mode, more :: Moded(text, source, target, mode, more) && (ro <==> Holds(mode, "ro")))
  }

  ghost predicate Moded(text: string, source: string, target: string, mode: string, more: string) {
    && ':' !in mode && (more == "" || more[0] == ':') && text == source + ":" + target + ":" + mode + more
  }

  /** What an entry asks to be bound. */
  ghost predicate Binds(item: Item, source: string, target: string, ro: bool) {
    match item
    case Short(text) => BindText(text, source, target, ro)
    case Long(typ, src, tgt, readOnly) =>
      typ == "bind" && src == source && tgt == target && readOnly == ro && source != "" && target != ""
    case Strange => false
  }

  lemma HoldsIff(mode: string)
    ensures Contains(mode, "ro") <==> Holds(mode, "ro")
  {
    var word := "ro";
    if Holds(mode, word) {
      var before, after :| mode == before + word + after;
      assert mode[|before|..|before| + |word|] == word;
      assert IsAt(mode, word, |before|);
    }
    if Contains(mode, word) {
      var i := IndexOf(mode, word);
      assert mode == mode[..i] + word + mode[i + |word|..];
    }
  }

  /** The first, the second and, if there is one, the third piece of a text cut at every ":". */
  lemma Pieces(text: string)
    ensures
      var parts := Split(text, ':');
      && (forall i | 0 <= i < |parts| :: ':' !in parts[i])
      && (|parts| == 1 ==> text == parts[0])
      && (|parts| == 2 ==> text == parts[0] + ":" + parts[1])
      && (|parts| >= 3 ==> exists more :: Moded(text, parts[0], parts[1], parts[2], more))
  {
    SplitFree(text, ':');
    var parts := Split(text, ':');
    if |parts| >= 3 {
      var (a, b) := Cut(text, ':').value;
      var (c, d) := Cut(b, ':').value;
      var more := FirstPiece(d);
      assert parts == [a] + ([c] + Split(d, ':'));
      assert parts[0] == a && parts[1] == c && parts[2] == Split(d, ':')[0];
      ThreePieces(text, a, b, c, d, parts[2], more);
    }
  }

  lemma FirstPiece(text: string) returns (more: string)
    ensures text == Split(text, ':')[0] + more && (more == "" || more[0] == ':')
  {
    match Cut(text, ':')
    case None => more := "";
    case Some((a, b)) => more := ":" + b;
  }

  lemma ThreePieces(text: string, a: string, b: string, c: string, d: string, mode: string, more: string)
    requires text == a + [':'] + b && b == c + [':'] + d && d == mode + more
    requires ':' !in mode && (more == "" || more[0] == ':')
    ensures Moded(text, a, c, mode, more)
  {
  }

  lemma PiecesOf(source: string, target: string)
    requires ':' !in source && ':' !in target
    ensures Split(source + ":" + target, ':') == [source, target]
  {
    SplitCons(source, ':', target);
    SplitNone(target, ':');
  }

  lemma ModedPieces(text: string, source: string, target: string, mode: string, more: string)
    requires ':' !in source && ':' !in target && Moded(text, source, target, mode, more)
    ensures
      var parts := Split(text, ':');
      |parts| >= 3 && parts[0] == source && parts[1] == target && parts[2] == mode
  {
    var rest := mode + more;
    assert text == source + [':'] + (target + [':'] + rest);
    SplitCons(source, ':', target + [':'] + rest);
    SplitCons(target, ':', rest);
    if more == "" {
      assert rest == mode;
      SplitNone(mode, ':');
    } else {
      assert rest == mode + [':'] + more[1..];
      SplitCons(mode, ':', more[1..]);
    }
  }

  /** An entry is extracted if and only if it asks for a bind, and then as it asks. */
  lemma BindIff(item: Item, source: string, target: string, ro: bool)
    ensures Bind(item) == Some((source, target, ro)) <==> Binds(item, source, target, ro)
  {
    if item.Short? {
      ShortIff(item.text, source, target, ro);
    }
  }

  lemma ShortIff(text: string, source: string, target: string, ro: bool)
    ensures ParseShortBind(text) == Some((source, target, ro)) <==> BindText(text, source, target, ro)
  {
    hide Split;
    hide Contains;
    hide Holds;
    var parts := Split(text, ':');
    if ParseShortBind(text) == Some((source, target, ro)) {
      Pieces(text);
      if |parts| >= 3 {
        HoldsIff(parts[2]);
        var more :| Moded(text, parts[0], parts[1], parts[2], more);
        assert Moded(text, source, target, parts[2], more) && (ro <==> Holds(parts[2], "ro"));
      }
    }
    if BindText(text, source, target, ro) {
      if text == source + ":" + target && !ro {
        PiecesOf(source, target);
      } else {
        var mode, more :| Moded(text, source, target, mode, more) && (ro <==> Holds(mode, "ro"));
        ModedPieces(text, source, target, mode, more);
        HoldsIff(mode);
      }
    }
  }

  /** Some host directory is a volume of the pod, and every container mounts that very volume as asked. */
  ghost predicate Attached(volumes: seq<Volume>, mounts: seq<VolumeMount>, path: string, target: string, ro: bool) {
    exists i | 0 <= i < |volumes| :: volumes[i].source == HostDir(path)
      && VolumeMount(volumes[i].name, target, ro) in mounts
      && forall j | 0 <= j < |volumes| && volumes[j].name == volumes[i].name :: j == i
  }

  /** The host path a source stands for: under the home directory, or where the file is, or as it is, but clean. */
  ghost predicate LeadsTo(source: string, host: Host, path: string) {
    var full := if source != "" && source[0] == '~' && host.home.Some? then host.home.value + source[1..] else source;
    if IsAbs(full) then IsAbs(path) && Neat(path) && forall dir :: Place(dir, path) == Place(dir, full)
    else path == host.resolve(full)
  }

  lemma HostPathLeads(source: string, host: Host)
    ensures LeadsTo(source, host, HostPath(source, host))
  {
    hide Clean;
    hide Neat;
    hide Place;
    var full := if source != "" && source[0] == '~' && host.home.Some? then host.home.value + source[1..] else source;
    forall dir ensures Place(dir, Clean(full)) == Place(dir, full) {
      CleanLeadsAlike(dir, full);
    }
    CleanLeadsAlike([], full);
  }

  /** Every bind an entry asks for is attached, under a name of its own and with its read-only flag. */
  lemma BoundAsAsked(items: seq<Item>, host: Host, item: Item, source: string, target: string, ro: bool)
    requires item in items && Binds(item, source, target, ro)
    ensures
      var mounts := Mounts(items, host);
      exists path :: LeadsTo(source, host, path) && Attached(HostVolumes(mounts), HostMounts(mounts), path, target, ro)
  {
    hide LeadsTo;
    HostPathLeads(source, host);
    hide Binds;
    hide MountName;
    hide HostPath;
    BindIff(item, source, target, ro);
    var mounts := Mounts(items, host);
    ExtractPartitions(items, host);
    var i := MountOf(items, host, item);
    var vs, ms := HostVolumes(mounts), HostMounts(mounts);
    assert vs[i].source == HostDir(HostPath(source, host));
    assert ms[i] == VolumeMount(vs[i].name, target, ro);
    forall j | 0 <= j < |vs| && vs[j].name == vs[i].name ensures j == i {
      MountNamesDiffer(i, j);
    }
  }

  lemma {:induction false} MountOf(items: seq<Item>, host: Host, item: Item) returns (i: nat)
    requires item in items && Bind(item).Some?
    ensures i < |Mounts(items, host)|
    ensures var (source, target, ro) := Bind(item).value;
            Mounts(items, host)[i] == Mount(MountName(i), HostPath(source, host), target, ro)
  {
    hide Bind;
    hide HostPath;
    hide MountName;
    var init, last := items[..|items| - 1], items[|items| - 1];
    if item in init {
      i := MountOf(init, host, item);
    } else {
      i := |Mounts(init, host)|;
    }
  }

  lemma MountNamesDiffer(i: nat, j: nat)
    requires MountName(i) == MountName(j)
    ensures i == j
  {
    assert MountName(i)[5..] == Decimal(i) && MountName(j)[5..] == Decimal(j);
    DecimalInjective(i, j);
  }

  /******* Onto the pod *******/

  datatype Source = Claim(claimName: string) | HostDir(path: string) | OtherSource
  datatype Volume = Volume(name: string, source: Source)
  datatype VolumeMount = VolumeMount(name: string, path: string, readOnly: bool)

  /** A workload's pod: its volumes, and the mounts of each container. */
  class Pod {
    var volumes: seq<Volume>
    var containers: seq<seq<VolumeMount>>

    constructor (volumes: seq<Volume>, containers: seq<seq<VolumeMount>>)
      ensures this.volumes == volumes && this.containers == containers
    {
      this.volumes, this.containers := volumes, containers;
    }

    method ApplyBindMounts(mounts: seq<Mount>)
      modifies this
      ensures volumes == old(volumes) + HostVolumes(mounts)
      ensures |containers| == |old(containers)|
      ensures forall c | 0 <= c < |containers| :: containers[c] == old(containers)[c] + HostMounts(mounts)
    {
      for i := 0 to |mounts|
        invariant volumes == old(volumes) + HostVolumes(mounts[..i])
        invariant |containers| == |old(containers)|
        invariant forall c | 0 <= c < |containers| :: containers[c] == old(containers)[c] + HostMounts(mounts[..i])
      {
        var m := mounts[i];
        volumes := volumes + [Volume(m.name, HostDir(m.source))];
        for ci := 0 to |containers|
          invariant volumes == old(volumes) + HostVolumes(mounts[..i]) + [Volume(m.name, HostDir(m.source))]
          invariant |containers| == |old(containers)|
          invariant forall c | 0 <= c < ci ::
              containers[c] == old(containers)[c]
              + (HostMounts(mounts[..i]) + [VolumeMount(m.name, m.target, m.readOnly)])
          invariant forall c | ci <= c < |containers| :: containers[c] == old(containers)[c] + HostMounts(mounts[..i])
        {
          containers := containers[ci := containers[ci] + [VolumeMount(m.name, m.target, m.readOnly)]];
        }
        assert mounts[..i + 1] == mounts[..i] + [m];
        assert HostMounts(mounts[..i + 1]) == HostMounts(mounts[..i]) + [VolumeMount(m.name, m.target, m.readOnly)];
        assert HostVolumes(mounts[..i + 1]) == HostVolumes(mounts[..i]) + [Volume(m.name, HostDir(m.source))];
      }
      assert mounts[..|mounts|] == mounts;
    }
  }

  function HostVolumes(mounts: seq<Mount>): seq<Volume> {
    seq(|mounts|, i requires 0 <= i < |mounts| => Volume(mounts[i].name, HostDir(mounts[i].source)))
  }

  function HostMounts(mounts: seq<Mount>): seq<VolumeMount> {
    seq(|mounts|, i requires 0 <= i < |mounts| => VolumeMount(mounts[i].name, mounts[i].target, mounts[i].readOnly))
  }

  /******* Back into a volume list *******/

  /** Volume name to mount path, the last mount winning. */
  function MountPaths(ms: seq<VolumeMount>): map<string, string> {
    if ms == [] then map[]
    else
      var m := ms[|ms| - 1];
      if m.name != "" && m.path != "" then MountPaths(ms[..|ms| - 1])[m.name := m.path] else MountPaths(ms[..|ms| - 1])
  }

  /** The strings of a compose volume list, and the named volumes met so far. */
  datatype Listing = Listing(out: seq<string>, named: set<string>)

  function ListTemplate(l: Listing, t: string, paths: map<string, string>): Listing {
    if t == "" || t !in paths then l else Listing(l.out + [t + ([':'] + paths[t])], l.named + {t})
  }

  function ListVolume(l: Listing, v: Volume, paths: map<string, string>): Listing {
    if v.name == "" || v.name !in paths then l
    else
      match v.source
      case Claim(c) =>
        var claim := if c == "" then v.name else c;
        if claim in l.named then l else Listing(l.out + [claim + ([':'] + paths[v.name])], l.named + {claim})
      case HostDir(path) => if path == "" then l else l.(out := l.out + [path + ([':'] + paths[v.name])])
      case OtherSource => l
  }

  function ListTemplates(ts: seq<string>, paths: map<string, string>, named: set<string>): Listing {
    if ts == [] then Listing([], named)
        else ListTemplate(ListTemplates(ts[..|ts| - 1], paths, named), ts[|ts| - 1], paths)
  }

  function ListVolumes(l: Listing, vs: seq<Volume>, paths: map<string, string>): Listing {
    if vs == [] then l else ListVolume(ListVolumes(l, vs[..|vs| - 1], paths), vs[|vs| - 1], paths)
  }

  function Listed(ts: seq<string>, vs: seq<Volume>, ms: seq<VolumeMount>, named: set<string>): Listing {
    ListVolumes(ListTemplates(ts, MountPaths(ms), named), vs, MountPaths(ms))
  }

  /** The compose volumes of one workload, before they are sorted. */
  method VolumesFor(ts: seq<string>, vs: seq<Volume>, ms: seq<VolumeMount>, named: set<string>) returns (l: Listing)
    ensures l == Listed(ts, vs, ms, named)
  {
    var paths: map<string, string> := map[];
    for i := 0 to |ms|
      invariant paths == MountPaths(ms[..i])
    {
      assert ms[..i + 1][..i] == ms[..i];
      if ms[i].name != "" && ms[i].path != "" {
        paths := paths[ms[i].name := ms[i].path];
      }
    }
    assert ms[..|ms|] == ms;
    l := Listing([], named);
    for i := 0 to |ts|
      invariant l == ListTemplates(ts[..i], paths, named)
    {
      assert ts[..i + 1][..i] == ts[..i];
      l := ListTemplate(l, ts[i], paths);
    }
    assert ts[..|ts|] == ts;
    ghost var l0 := l;
    for i := 0 to |vs|
      invariant l == ListVolumes(l0, vs[..i], paths)
    {
      assert vs[..i + 1][..i] == vs[..i];
      l := ListVolume(l, vs[i], paths);
    }
    assert vs[..|vs|] == vs;
  }

  /** The named volume a pod's volume mounts somewhere. */
  ghost predicate Claims(v: Volume, paths: map<string, string>, claim: string) {
    && v.name != "" && v.name in paths && v.source.Claim?
    && claim == if v.source.claimName == "" then v.name else v.source.claimName
  }

  /** How many of a StatefulSet's claim templates are mounted. */
  ghost function TemplateCount(ts: seq<string>, paths: map<string, string>): nat {
    if ts == [] then 0
    else
      var t := ts[|ts| - 1];
      TemplateCount(ts[..|ts| - 1], paths) + if t != "" && t in paths then 1 else 0
  }

  /** Mounted claim templates are listed and named, so that their claims are not listed again. */
  lemma {:induction false} TemplatesNamed(ts: seq<string>, paths: map<string, string>, named: set<string>)
    ensures
      var l := ListTemplates(ts, paths, named);
      && |l.out| == TemplateCount(ts, paths)
      && forall claim :: claim in l.named <==> claim in named || (claim in ts && claim != "" && claim in paths)
  {
    if ts != [] {
      assert ts == ts[..|ts| - 1] + [ts[|ts| - 1]];
      TemplatesNamed(ts[..|ts| - 1], paths, named);
    }
  }

  /** How many of the volumes are host directories mounted somewhere. */
  ghost function HostCount(vs: seq<Volume>, paths: map<string, string>): nat {
    if vs == [] then 0
    else
      var v := vs[|vs| - 1];
      HostCount(vs[..|vs| - 1], paths)
      + if v.source.HostDir? && v.source.path != "" && v.name != "" && v.name in paths then 1 else 0
  }

  /** Volumes add one entry for each mounted host directory and one for each claim not met before, and no others. */
  lemma {:induction false} ListsOnce(l: Listing, vs: seq<Volume>, paths: map<string, string>)
    ensures
      var r := ListVolumes(l, vs, paths);
      && l.named <= r.named && l.out <= r.out
      && |r.out| == |l.out| + HostCount(vs, paths) + (|r.named| - |l.named|)
      && forall claim :: claim in r.named <==> claim in l.named || exists v :: v in vs && Claims(v, paths, claim)
  {
    if vs != [] {
      var init, v := vs[..|vs| - 1], vs[|vs| - 1];
      assert vs == init + [v];
      ListsOnce(l, init, paths);
      var d, r := ListVolumes(l, init, paths), ListVolumes(l, vs, paths);
      forall claim
        ensures claim in r.named <==> claim in l.named || exists u :: u in vs && Claims(u, paths, claim)
      {
        assert claim in r.named <==> claim in d.named || Claims(v, paths, claim);
        assert forall u :: u in vs <==> u in init || u == v;
      }
    }
  }

  /******* The round trip *******/

  /** The source and target of every bind mount of a volume list. */
  function Pairs(out: seq<string>, host: Host): multiset<(string, string)> {
    if out == [] then multiset{}
    else Pairs(out[..|out| - 1], host) + PairOf(out[|out| - 1], host)
  }

  function PairOf(s: string, host: Host): multiset<(string, string)> {
    match ParseShortBind(s)
    case None => multiset{}
    case Some((source, target, _)) => multiset{(HostPath(source, host), target)}
  }

  function MountPairs(ms: seq<Mount>): multiset<(string, string)> {
    if ms == [] then multiset{} else MountPairs(ms[..|ms| - 1]) + multiset{(ms[|ms| - 1].source, ms[|ms| - 1].target)}
  }

  function AsItems(out: seq<string>): seq<Item> {
    seq(|out|, i requires 0 <= i < |out| => Short(out[i]))
  }

  lemma PairsSnoc(out: seq<string>, s: string, host: Host)
    ensures Pairs(out + [s], host) == Pairs(out, host) + PairOf(s, host)
  {
  }

  lemma MountPairsSnoc(ms: seq<Mount>, m: Mount)
    ensures MountPairs(ms + [m]) == MountPairs(ms) + multiset{(m.source, m.target)}
  {
  }

  lemma NoPairs(host: Host)
    ensures Pairs([], host) == multiset{} && MountPairs([]) == multiset{}
  {
  }

  /** `Pairs` is what extracting the list gives. */
  lemma {:induction false} PairsExtract(out: seq<string>, host: Host)
    ensures MountPairs(Mounts(AsItems(out), host)) == Pairs(out, host)
  {
    hide ParseShortBind;
    hide HostPath;
    hide MountName;
    hide Pairs;
    hide MountPairs;
    if out == [] {
      assert Pairs([], host) == MountPairs([]) == multiset{} by { NoPairs(host); }
    } else {
      var n := |out| - 1;
      PairsExtract(out[..n], host);
      assert AsItems(out)[..n] == AsItems(out[..n]);
      var done := Mounts(AsItems(out[..n]), host);
      var b := ParseShortBind(out[n]);
      assert Bind(AsItems(out)[n]) == b;
      PairsSnoc(out[..n], out[n], host);
      assert out[..n] + [out[n]] == out;
      if b.Some? {
        MountPairsSnoc(done, ToMount(|done|, b.value, host));
      }
    }
  }

  /** Sorting does not matter: the pairs depend only on which strings there are. */
  lemma {:induction false} PairsPermute(a: seq<string>, b: seq<string>, host: Host)
    requires multiset(a) == multiset(b)
    ensures Pairs(a, host) == Pairs(b, host)
  {
    hide PairOf;
    if a == [] {
      assert |b| == |multiset(b)| == 0;
    } else {
      var x := a[|a| - 1];
      var init := a[..|a| - 1];
      assert a == init + [x];
      assert x in multiset(b);
      var i :| 0 <= i < |b| && b[i] == x;
      var rest := b[..i] + b[i + 1..];
      assert b == b[..i] + [x] + b[i + 1..];
      assert multiset(b) == multiset(rest) + multiset{x};
      assert multiset(a) == multiset(init) + multiset{x};
      assert multiset(init) == multiset(a) - multiset{x} == multiset(b) - multiset{x} == multiset(rest);
      PairsPermute(init, rest, host);
      PairsMiddle(b[..i], x, b[i + 1..], host);
    }
  }

  lemma {:induction false} PairsAppend(a: seq<string>, b: seq<string>, host: Host)
    ensures Pairs(a + b, host) == Pairs(a, host) + Pairs(b, host)
  {
    hide PairOf;
    if b == [] {
      assert a + b == a;
    } else {
      assert (a + b)[..|a + b| - 1] == a + b[..|b| - 1];
      PairsAppend(a, b[..|b| - 1], host);
    }
  }

  lemma PairsMiddle(a: seq<string>, x: string, b: seq<string>, host: Host)
    ensures Pairs(a + [x] + b, host) == Pairs(a + b, host) + PairOf(x, host)
  {
    hide PairOf;
    assert [x][..0] == [];
    assert Pairs([x], host) == PairOf(x, host);
    PairsAppend(a + [x], b, host);
    PairsAppend(a, [x], host);
    PairsAppend(a, b, host);
  }

  /** An absolute clean source and a target, both without colons. */
  predicate Tidy(m: Mount) {
    IsAbs(m.source) && Clean(m.source) == m.source && ':' !in m.source && m.target != "" && ':' !in m.target
  }

  /** A source written as an absolute path, or under a home directory, is tidied on extraction. */
  lemma AbsoluteIsClean(src: string, host: Host)
    requires IsAbs(if src != [] && src[0] == '~' && host.home.Some? then host.home.value + src[1..] else src)
    ensures IsAbs(HostPath(src, host)) && Clean(HostPath(src, host)) == HostPath(src, host)
  {
    hide Clean;
    CleanTwice(if src != [] && src[0] == '~' && host.home.Some? then host.home.value + src[1..] else src);
  }

  lemma TidyReadsBack(m: Mount, host: Host)
    requires Tidy(m)
    ensures PairOf(m.source + ([':'] + m.target), host) == multiset{(m.source, m.target)}
  {
    hide Clean;
    var s := m.source + ([':'] + m.target);
    assert s == m.source + [':'] + m.target;
    SplitCons(m.source, ':', m.target);
    SplitNone(m.target, ':');
    assert Split(s, ':') == [m.source, m.target];
  }

  /** A string that does not start like a host path binds nothing. */
  lemma NotABind(s: string, host: Host)
    requires s != [] && !IsBindSource(s)
    ensures PairOf(s, host) == multiset{}
  {
  }

  /** A pod before bind mounts are attached: no host directories, and claims that are not named like host paths. */
  predicate Fresh(ts: seq<string>, vs: seq<Volume>) {
    && (forall i | 0 <= i < |ts| :: !IsBindSource(ts[i]))
    && (forall i | 0 <= i < |vs| :: !vs[i].source.HostDir? && !IsBindSource(vs[i].name))
    && (forall i | 0 <= i < |vs| && vs[i].source.Claim? :: !IsBindSource(vs[i].source.claimName))
  }

  lemma {:induction false} TemplatesBindNothing(ts: seq<string>, paths: map<string, string>, named: set<string>,
      host: Host)
    requires forall i | 0 <= i < |ts| :: !IsBindSource(ts[i])
    ensures Pairs(ListTemplates(ts, paths, named).out, host) == multiset{}
  {
    hide PairOf;
    if ts != [] {
      var n := |ts| - 1;
      TemplatesBindNothing(ts[..n], paths, named, host);
      var l := ListTemplates(ts[..n], paths, named);
      if ts[n] != "" && ts[n] in paths {
        var s := ts[n] + ([':'] + paths[ts[n]]);
        assert s[0] == ts[n][0];
        NotABind(s, host);
        assert (l.out + [s])[..|l.out|] == l.out;
      }
    }
  }

  lemma {:induction false} FreshBindsNothing(l: Listing, vs: seq<Volume>, paths: map<string, string>, host: Host)
    requires Fresh([], vs) && Pairs(l.out, host) == multiset{}
    ensures Pairs(ListVolumes(l, vs, paths).out, host) == multiset{}
  {
    hide PairOf;
    if vs != [] {
      var n := |vs| - 1;
      FreshBindsNothing(l, vs[..n], paths, host);
      var d := ListVolumes(l, vs[..n], paths);
      var v := vs[n];
      if ListVolume(d, v, paths) != d {
        var claim := if v.source.claimName == "" then v.name else v.source.claimName;
        var s := claim + ([':'] + paths[v.name]);
        assert s[0] == claim[0];
        NotABind(s, host);
        assert (d.out + [s])[..|d.out|] == d.out;
      }
    }
  }

  lemma {:induction false} ListVolumesAppend(l: Listing, a: seq<Volume>, b: seq<Volume>, paths: map<string, string>)
    ensures ListVolumes(l, a + b, paths) == ListVolumes(ListVolumes(l, a, paths), b, paths)
  {
    hide ListVolume;
    if b == [] {
      assert a + b == a;
    } else {
      assert (a + b)[..|a + b| - 1] == a + b[..|b| - 1];
      ListVolumesAppend(l, a, b[..|b| - 1], paths);
    }
  }

  lemma HostListed(d: Listing, m: Mount, paths: map<string, string>)
    requires m.name != "" && m.source != "" && Get(paths, m.name) == Some(m.target)
    ensures ListVolume(d, Volume(m.name, HostDir(m.source)), paths)
        == d.(out := d.out + [m.source + ([':'] + m.target)])
  {
  }

  /** Attached host directories list their own pairs. */
  lemma {:induction false} HostsListed(l: Listing, mounts: seq<Mount>, paths: map<string, string>, host: Host)
    requires forall i | 0 <= i < |mounts| ::
        Tidy(mounts[i]) && mounts[i].name != "" && Get(paths, mounts[i].name) == Some(mounts[i].target)
    ensures Pairs(ListVolumes(l, HostVolumes(mounts), paths).out, host) == Pairs(l.out, host) + MountPairs(mounts)
  {
    hide PairOf;
    hide Tidy;
    hide Pairs;
    hide MountPairs;
    hide ListVolume;
    if mounts == [] {
      NoPairs(host);
    } else {
      var n := |mounts| - 1;
      HostsListed(l, mounts[..n], paths, host);
      assert HostVolumes(mounts)[..n] == HostVolumes(mounts[..n]);
      var d := ListVolumes(l, HostVolumes(mounts[..n]), paths);
      var m := mounts[n];
      TidyReadsBack(m, host);
      TidySource(m);
      HostListed(d, m, paths);
      PairsSnoc(d.out, m.source + ([':'] + m.target), host);
      assert mounts[..n] + [m] == mounts;
      MountPairsSnoc(mounts[..n], m);
    }
  }

  lemma TidySource(m: Mount)
    requires Tidy(m)
    ensures m.source != [] && m.target != []
  {
  }

  /** The last mounts decide, and their names are all different. */
  lemma {:induction false} PathsOf(ms: seq<VolumeMount>, mounts: seq<Mount>, i: nat)
    requires i < |mounts| && forall j | 0 <= j < |mounts| :: mounts[j].target != ""
    requires forall j | 0 <= j < |mounts| :: mounts[j].name == MountName(j)
    ensures Get(MountPaths(ms + HostMounts(mounts)), mounts[i].name) == Some(mounts[i].target)
  {
    var n := |mounts| - 1;
    var all := ms + HostMounts(mounts);
    assert all[..|all| - 1] == ms + HostMounts(mounts[..n]);
    if i < n {
      PathsOf(ms, mounts[..n], i);
      assert mounts[i].name != mounts[n].name by {
        if mounts[i].name == mounts[n].name {
          MountNamesDiffer(i, n);
        }
      }
    }
  }

  /**
   Extracting bind mounts, attaching them to a pod, exporting the pod and extracting again, with
   the exported strings in any order, gives the same pairs of source and target.
   */
  lemma BindsReadBack(items: seq<Item>, host: Host, ts: seq<string>, vs: seq<Volume>, ms: seq<VolumeMount>,
      named: set<string>,
                      sorted: seq<string>)
    requires var mounts := Mounts(items, host); Fresh(ts, vs) && forall i | 0 <= i < |mounts| :: Tidy(mounts[i])
    requires var mounts := Mounts(items, host);
             multiset(sorted) == multiset(Listed(ts, vs + HostVolumes(mounts), ms + HostMounts(mounts), named).out)
    ensures MountPairs(Mounts(AsItems(sorted), host)) == MountPairs(Mounts(items, host))
  {
    hide Tidy;
    hide MountName;
    hide Mounts;
    hide MountPairs;
    hide Pairs;
    var mounts := Mounts(items, host);
    var paths := MountPaths(ms + HostMounts(mounts));
    ExtractPartitions(items, host);
    forall i | 0 <= i < |mounts|
        ensures Tidy(mounts[i]) && mounts[i].name != "" && Get(paths, mounts[i].name) == Some(mounts[i].target) {
      forall j | 0 <= j < |mounts| ensures mounts[j].target != "" {
        TidySource(mounts[j]);
      }
      PathsOf(ms, mounts, i);
      MountNamed(i);
    }
    var l := ListTemplates(ts, paths, named);
    TemplatesBindNothing(ts, paths, named, host);
    FreshBindsNothing(l, vs, paths, host);
    ListVolumesAppend(l, vs, HostVolumes(mounts), paths);
    HostsListed(ListVolumes(l, vs, paths), mounts, paths, host);
    var out := Listed(ts, vs + HostVolumes(mounts), ms + HostMounts(mounts), named).out;
    PairsPermute(sorted, out, host);
    PairsExtract(sorted, host);
  }

  lemma MountNamed(i: nat)
    ensures MountName(i) != ""
  {
  }

  /** The read-only flag is not carried: whatever it was, it reads back as off. */
  lemma ReadOnlyIsLost(m: Mount)
    requires Tidy(m)
    ensures ParseShortBind(m.source + ([':'] + m.target)) == Some((m.source, m.target, false))
  {
    hide Clean;
    assert m.source + ([':'] + m.target) == m.source + [':'] + m.target;
    SplitCons(m.source, ':', m.target);
    SplitNone(m.target, ':');
  }
}
