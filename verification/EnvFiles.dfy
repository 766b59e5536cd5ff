/** Staging env files in the directory a compose document is loaded from. */
module EnvFiles {
  import opened Common
  import opened Text
  import opened Paths

  /******* Choosing a name *******/

  /** The path as written if it stays inside the directory, else the base name of the source. */
  function First(path: string, src: string): string {
    if !IsAbs(path) && !Climbs(Clean(path)) then Clean(path) else Base(src)
  }

  function Candidate(path: string, src: string, i: nat): string {
    if i == 0 then First(path, src) else Decimal(i) + ("-" + Base(src))
  }

  /** Not taken, or taken by the same source. */
  predicate Open(dest: string, src: string, dests: map<string, string>) {
    dest in dests ==> dests[dest] == src
  }

  /** The first open candidate; among the first |dests| + 2 there is one. */
  function Chosen(path: string, src: string, dests: map<string, string>, i: nat): string
    requires i <= |dests| + 1
    decreases |dests| + 1 - i
  {
    if i == |dests| + 1 || Open(Candidate(path, src, i), src, dests) then Candidate(path, src, i)
    else Chosen(path, src, dests, i + 1)
  }

  lemma CandidatesDiffer(path: string, src: string, i: nat, j: nat)
    requires 0 < i < j
    ensures Candidate(path, src, i) != Candidate(path, src, j)
  {
    hide Decimal;
    if Candidate(path, src, i) == Candidate(path, src, j) {
      SuffixInjective(Decimal(i), Decimal(j), "-" + Base(src));
      DecimalInjective(i, j);
    }
  }

  /** Numbered names differ, so no more of them can be taken than there are names taken. */
  lemma {:induction false} Pigeonhole(path: string, src: string, names: set<string>, n: nat)
    requires forall i | 1 <= i <= n :: Candidate(path, src, i) in names
    ensures n <= |names|
  {
    hide Candidate;
    if n > 0 {
      var last := Candidate(path, src, n);
      forall i | 1 <= i <= n - 1 ensures Candidate(path, src, i) in names - {last} {
        CandidatesDiffer(path, src, i, n);
      }
      Pigeonhole(path, src, names - {last}, n - 1);
    }
  }

  /** Where the search stops: the name is open, and no candidate before it is. */
  lemma {:induction false} ChosenAt(path: string, src: string, dests: map<string, string>, i: nat) returns (k: nat)
    requires i <= |dests| + 1 && forall j | 0 <= j < i :: !Open(Candidate(path, src, j), src, dests)
    ensures i <= k <= |dests| + 1 && Chosen(path, src, dests, i) == Candidate(path, src, k)
    ensures Open(Candidate(path, src, k), src, dests) && forall j | 0 <= j < k ::
        !Open(Candidate(path, src, j), src, dests)
    decreases |dests| + 1 - i
  {
    hide Candidate;
    if Open(Candidate(path, src, i), src, dests) {
      k := i;
    } else if i == |dests| + 1 {
      Pigeonhole(path, src, dests.Keys, i);
      assert false;
    } else {
      k := ChosenAt(path, src, dests, i + 1);
    }
  }

  /** The only candidate that is open with none open before it is the chosen one. */
  lemma {:induction false} ChosenIs(path: string, src: string, dests: map<string, string>, i: nat, k: nat)
    requires i <= k <= |dests| + 1 && Open(Candidate(path, src, k), src, dests)
    requires forall j | 0 <= j < k :: !Open(Candidate(path, src, j), src, dests)
    ensures Chosen(path, src, dests, i) == Candidate(path, src, k)
    decreases k - i
  {
    hide Candidate;
    if i < k {
      ChosenIs(path, src, dests, i + 1, k);
    }
  }

  /** What was recorded stays as it was recorded. */
  ghost predicate Extends(later: map<string, string>, dests: map<string, string>) {
    forall d | d in dests :: d in later && later[d] == dests[d]
  }

  lemma ExtendsSize(later: map<string, string>, dests: map<string, string>)
    requires Extends(later, dests)
    ensures |dests| <= |later|
  {
    assert dests.Keys <= later.Keys;
    Smaller(dests.Keys, later.Keys);
  }

  lemma {:induction false} Smaller(a: set<string>, b: set<string>)
    requires a <= b
    ensures |a| <= |b|
  {
    if a != {} {
      var x :| x in a;
      Smaller(a - {x}, b - {x});
    }
  }

  /** Recording a choice never changes the source of a name already recorded. */
  lemma NeverClobbers(path: string, src: string, dests: map<string, string>)
    ensures Extends(dests[Chosen(path, src, dests, 0) := src], dests)
  {
    hide Candidate;
    hide Chosen;
    var k := ChosenAt(path, src, dests, 0);
  }

  /** The same request, at any later time, gets the same name. */
  lemma SameRequestSameName(path: string, src: string, dests: map<string, string>, later: map<string, string>)
    requires Extends(later, dests[Chosen(path, src, dests, 0) := src])
    ensures Chosen(path, src, later, 0) == Chosen(path, src, dests, 0)
  {
    hide Candidate;
    hide Chosen;
    NeverClobbers(path, src, dests);
    var k := ChosenAt(path, src, dests, 0);
    var dest := Candidate(path, src, k);
    assert forall d | d in dests :: d in dests[dest := src];
    assert Extends(later, dests);
    ExtendsSize(later, dests);
    assert dest in dests[dest := src];
    ChosenIs(path, src, later, 0, k);
  }

  /** A chosen name stays inside the directory, unless it is the base name of a source that has none. */
  lemma StaysInside(path: string, src: string, dests: map<string, string>)
    requires Inside(Base(src)) && '/' !in Base(src)
    ensures Inside(Chosen(path, src, dests, 0))
  {
    hide Chosen;
    hide Decimal;
    hide Base;
    hide Clean;
    hide Split;
    var k := ChosenAt(path, src, dests, 0);
    var dest := Candidate(path, src, k);
    if k == 0 {
      if !IsAbs(path) {
        CleanInside(path);
      }
    } else {
      assert '/' !in Decimal(k);
      assert '-' in dest;
      SplitNone(dest, '/');
    }
  }

  /**
   A relative path is kept, cleaned, if it stays inside, and otherwise gives way to the base name of the source.
   That name is given if and only if no other source has it; if one has, the base name is numbered.
   */
  lemma KeptIff(path: string, src: string, dests: map<string, string>)
    ensures var dest := Chosen(path, src, dests, 0);
            var name := if !IsAbs(path) && Inside(Clean(path)) then Clean(path) else Base(src);
            && (dest in dests ==> dests[dest] == src)
            && (dest == name <==> (name in dests ==> dests[name] == src))
            && (dest != name ==> exists i: nat :: i >= 1 && dest == Decimal(i) + "-" + Base(src))
  {
    hide Chosen;
    hide Decimal;
    hide Base;
    hide Clean;
    hide Inside;
    if !IsAbs(path) {
      CleanInside(path);
    }
    var k := ChosenAt(path, src, dests, 0);
    assert Candidate(path, src, 0) == First(path, src);
    if k > 0 {
      assert Decimal(k) + "-" + Base(src) == Decimal(k) + ("-" + Base(src));
    }
  }

  /** So a path of plain segments is kept as it is written, unless another source has that very name. */
  lemma KeptAsWritten(path: string, src: string, dests: map<string, string>)
    requires Settled(Split(path, '/'))
    ensures Chosen(path, src, dests, 0) == path <==> (path in dests ==> dests[path] == src)
  {
    PlainIsClean(path);
    KeptIff(path, src, dests);
  }

  /******* One service's entries *******/

  datatype Entry = Short(path: string) | Long(path: string, required: Option<bool>) | Strange

  /** The path and whether it is required, unless the entry names no path. */
  function Wanted(e: Entry): Option<(string, bool)> {
    match e
    case Short(path) => if path == "" then None else Some((path, true))
    case Long(path, required) => if path == "" then None
      else Some((path, if required.Some? then required.value else true))
    case Strange => None
  }

  function Pointed(e: Entry, dest: string): Entry {
    match e
    case Long(_, required) => Long(dest, required)
    case _ => Short(dest)
  }

  datatype Ref = Ref(src: string, dest: string)
  datatype Staged = Staged(dests: map<string, string>, refs: seq<Ref>, entries: seq<Entry>)

  /** One entry: kept if it names no path, dropped if optional and missing, else pointed at its staged name. */
  function StageOne(s: Staged, e: Entry, resolve: string -> string, files: map<string, string>): Option<Staged> {
    match Wanted(e)
    case None => Some(s.(entries := s.entries + [e]))
    case Some((path, required)) =>
      var src := if IsAbs(path) then path else resolve(path);
      if src !in files then (if required then None else Some(s))
      else
        var dest := Chosen(path, src, s.dests, 0);
        Some(Staged(s.dests[dest := src], s.refs + [Ref(src, dest)], s.entries + [Pointed(e, dest)]))
  }

  function StageAll(dests: map<string, string>, entries: seq<Entry>, resolve: string -> string,
      files: map<string, string>): Option<Staged> {
    if entries == [] then Some(Staged(dests, [], []))
    else
      match StageAll(dests, entries[..|entries| - 1], resolve, files)
      case None => None
      case Some(s) => StageOne(s, entries[|entries| - 1], resolve, files)
  }

  lemma {:induction false} StagedEarly(dests: map<string, string>, entries: seq<Entry>, resolve: string -> string,
      files: map<string, string>, i: nat)
    requires i <= |entries| && StageAll(dests, entries[..i], resolve, files) == None
    ensures StageAll(dests, entries, resolve, files) == None
  {
    if i == |entries| {
      assert entries[..i] == entries;
    } else {
      assert entries[..|entries| - 1][..i] == entries[..i];
      StagedEarly(dests, entries[..|entries| - 1], resolve, files, i);
    }
  }

  /** Every reference is recorded, with a source that exists. */
  ghost predicate Recorded(refs: seq<Ref>, dests: map<string, string>, files: map<string, string>) {
    forall i | 0 <= i < |refs| :: refs[i].dest in dests && dests[refs[i].dest] == refs[i].src && refs[i].src in files
  }

  /** Staging keeps what was recorded and records what it refers to, and only that. */
  lemma {:induction false} StagingRecords(dests: map<string, string>, entries: seq<Entry>, resolve: string -> string,
      files: map<string, string>)
    requires StageAll(dests, entries, resolve, files).Some?
    ensures var s := StageAll(dests, entries, resolve, files).value;
            && Extends(s.dests, dests) && Recorded(s.refs, s.dests, files)
            && forall d | d in s.dests && d !in dests :: exists i | 0 <= i < |s.refs| :: s.refs[i].dest == d
  {
    hide Chosen;
    if entries != [] {
      var init, e := entries[..|entries| - 1], entries[|entries| - 1];
      StagingRecords(dests, init, resolve, files);
      var s := StageAll(dests, init, resolve, files).value;
      var t := StageOne(s, e, resolve, files).value;
      if t.dests != s.dests || t.refs != s.refs {
        var path := Wanted(e).value.0;
        var src := if IsAbs(path) then path else resolve(path);
        NeverClobbers(path, src, s.dests);
        RecordMore(s, t, files, dests, Ref(src, Chosen(path, src, s.dests, 0)));
      }
    }
  }

  /** The file a path stands for. */
  function SourceOf(path: string, resolve: string -> string): string {
    if IsAbs(path) then path else resolve(path)
  }

  /** An entry that names a file which is not there. */
  predicate Missing(e: Entry, resolve: string -> string, files: map<string, string>) {
    !e.Strange? && e.path != "" && SourceOf(e.path, resolve) !in files
  }

  /** An entry in the long form that says its file may be missing. */
  predicate Optional(e: Entry) {
    e.Long? && e.required == Some(false)
  }

  /** Staging is refused if and only if a file is missing that some entry does not declare optional. */
  lemma {:induction false} RefusedIff(dests: map<string, string>, entries: seq<Entry>, resolve: string -> string,
      files: map<string, string>)
    ensures StageAll(dests, entries, resolve, files).None?
        <==> exists e :: e in entries && Missing(e, resolve, files) && !Optional(e)
  {
    hide Chosen;
    if entries != [] {
      var init, last := entries[..|entries| - 1], entries[|entries| - 1];
      assert entries == init + [last];
      RefusedIff(dests, init, resolve, files);
      assert last in entries && forall e | e in init :: e in entries;
    }
  }

  /** The entries whose file is there, and those that name none. */
  function Present(entries: seq<Entry>, resolve: string -> string, files: map<string, string>): seq<Entry> {
    if entries == [] then []
    else
      var e := entries[|entries| - 1];
      Present(entries[..|entries| - 1], resolve, files) + if Missing(e, resolve, files) then [] else [e]
  }

  /** The entry reads the same file under its staged name; only the path may differ. */
  ghost predicate Repointed(e: Entry, e': Entry, dests: map<string, string>, resolve: string -> string) {
    match e
    case Strange => e' == e
    case Short(path) => if path == "" then e' == e else e'.Short? && Get(dests, e'.path) == Some(SourceOf(path, resolve))
    case Long(path, required) =>
      if path == "" then e' == e
      else e'.Long? && e'.required == required && Get(dests, e'.path) == Some(SourceOf(path, resolve))
  }

  /** Each entry that is present comes out in its place, reading its own file, and nothing else comes out. */
  lemma {:induction false} EntriesRepointed(dests: map<string, string>, entries: seq<Entry>,
      resolve: string -> string, files: map<string, string>)
    requires StageAll(dests, entries, resolve, files).Some?
    ensures var s, present := StageAll(dests, entries, resolve, files).value, Present(entries, resolve, files);
            |s.entries| == |present|
            && forall i | 0 <= i < |present| :: Repointed(present[i], s.entries[i], s.dests, resolve)
  {
    hide Chosen;
    if entries != [] {
      var init, e := entries[..|entries| - 1], entries[|entries| - 1];
      EntriesRepointed(dests, init, resolve, files);
      var s := StageAll(dests, init, resolve, files).value;
      if !e.Strange? && e.path != "" {
        NeverClobbers(e.path, SourceOf(e.path, resolve), s.dests);
      }
    }
  }

  lemma RecordMore(s: Staged, t: Staged, files: map<string, string>, dests: map<string, string>, r: Ref)
    requires Extends(s.dests, dests) && Recorded(s.refs, s.dests, files)
    requires forall d | d in s.dests && d !in dests :: exists i | 0 <= i < |s.refs| :: s.refs[i].dest == d
    requires t.dests == s.dests[r.dest := r.src] && t.refs == s.refs + [r] && r.src in files
        && Extends(t.dests, s.dests)
    ensures Extends(t.dests, dests) && Recorded(t.refs, t.dests, files)
    ensures forall d | d in t.dests && d !in dests :: exists i | 0 <= i < |t.refs| :: t.refs[i].dest == d
  {
    forall d | d in t.dests && d !in dests ensures exists i | 0 <= i < |t.refs| :: t.refs[i].dest == d {
      if d in s.dests {
        var i :| 0 <= i < |s.refs| && s.refs[i].dest == d;
        assert t.refs[i].dest == d;
      } else {
        assert t.refs[|s.refs|].dest == d;
      }
    }
  }

  /******* A whole conversion *******/

  /** A compose document: the entries of its services, and its text once they are rewritten. */
  datatype Compose = Compose(services: seq<seq<Entry>>, resolve: string -> string, dotEnv: Option<string>, name: string,
                             render: seq<seq<Entry>> -> string)

  /** The names given so far, and what the directory holds. */
  datatype Tmp = Tmp(dests: map<string, string>, dir: map<string, string>)

  datatype Document = Document(dests: map<string, string>, refs: seq<Ref>, services: seq<seq<Entry>>)

  function StageServices(dests: map<string, string>, c: Compose, services: seq<seq<Entry>>,
      files: map<string, string>): Option<Document> {
    if services == [] then Some(Document(dests, [], []))
    else
      match StageServices(dests, c, services[..|services| - 1], files)
      case None => None
      case Some(d) =>
        match StageAll(d.dests, services[|services| - 1], c.resolve, files)
        case None => None
        case Some(s) => Some(Document(s.dests, d.refs + s.refs, d.services + [s.entries]))
  }

  function CopyAll(dir: map<string, string>, refs: seq<Ref>, files: map<string, string>): map<string, string>
    requires forall i | 0 <= i < |refs| :: refs[i].src in files
  {
    if refs == [] then dir
    else CopyAll(dir, refs[..|refs| - 1], files)[refs[|refs| - 1].dest := files[refs[|refs| - 1].src]]
  }

  const DOT_ENV := ".env"

  /** The project's own ".env", unless another file has that name. */
  function StagedDotEnv(t: Tmp, dotEnv: Option<string>, files: map<string, string>): Tmp {
    if dotEnv.None? || dotEnv.value !in files || !Open(DOT_ENV, dotEnv.value, t.dests) then t
    else Tmp(t.dests[DOT_ENV := dotEnv.value], t.dir[DOT_ENV := files[dotEnv.value]])
  }

  /** "%02d-<name>". */
  function LoaderName(i: nat, name: string): string {
    (if i < 10 then ['0'] + Decimal(i) else Decimal(i)) + (['-'] + name)
  }

  /** Stage, copy, stage ".env", and write the rewritten document beside them. */
  function ConvertOne(t: Tmp, c: Compose, i: nat, files: map<string, string>): Option<Tmp> {
    match StageServices(t.dests, c, c.services, files)
    case None => None
    case Some(d) =>
      ServicesRecord(t.dests, c, c.services, files);
      var t2 := StagedDotEnv(Tmp(d.dests, CopyAll(t.dir, d.refs, files)), c.dotEnv, files);
      Some(t2.(dir := t2.dir[LoaderName(i, c.name) := c.render(d.services)]))
  }

  function ConvertAll(cs: seq<Compose>, files: map<string, string>): Option<Tmp> {
    if cs == [] then Some(Tmp(map[], map[]))
    else
      match ConvertAll(cs[..|cs| - 1], files)
      case None => None
      case Some(t) => ConvertOne(t, cs[|cs| - 1], |cs| - 1, files)
  }

  lemma {:induction false} ServicesRecord(dests: map<string, string>, c: Compose, services: seq<seq<Entry>>,
      files: map<string, string>)
    requires StageServices(dests, c, services, files).Some?
    ensures var d := StageServices(dests, c, services, files).value;
            && Extends(d.dests, dests) && Recorded(d.refs, d.dests, files)
            && forall x | x in d.dests && x !in dests :: exists i | 0 <= i < |d.refs| :: d.refs[i].dest == x
  {
    hide StageAll;
    hide Recorded;
    if services != [] {
      var init, last := services[..|services| - 1], services[|services| - 1];
      ServicesRecord(dests, c, init, files);
      var d := StageServices(dests, c, init, files).value;
      StagingRecords(d.dests, last, c.resolve, files);
      var s := StageAll(d.dests, last, c.resolve, files).value;
      RecordBoth(dests, d.dests, s.dests, d.refs, s.refs, files);
    } else {
      assert Recorded([], dests, files) by { NothingRecorded(dests, files); }
    }
  }

  lemma NothingRecorded(dests: map<string, string>, files: map<string, string>)
    ensures Recorded([], dests, files)
  {
  }

  /** References recorded one after the other are recorded together. */
  lemma RecordBoth(a: map<string, string>, b: map<string, string>, c: map<string, string>, first: seq<Ref>,
      second: seq<Ref>,
                   files: map<string, string>)
    requires Extends(b, a) && Recorded(first, b, files) && forall x | x in b && x !in a ::
        exists i | 0 <= i < |first| :: first[i].dest == x
    requires Extends(c, b) && Recorded(second, c, files) && forall x | x in c && x !in b ::
        exists i | 0 <= i < |second| :: second[i].dest == x
    ensures var refs := first + second;
            Extends(c, a) && Recorded(refs, c, files) && forall x | x in c && x !in a :: exists i | 0 <= i < |refs| ::
              refs[i].dest == x
  {
    var refs := first + second;
    forall x | x in c && x !in a ensures exists i | 0 <= i < |refs| :: refs[i].dest == x {
      if x in b {
        var i :| 0 <= i < |first| && first[i].dest == x;
        assert refs[i].dest == x;
      } else {
        var i :| 0 <= i < |second| && second[i].dest == x;
        assert refs[|first| + i].dest == x;
      }
    }
  }

  /** Copying puts each source's bytes under its own name and leaves other names alone. */
  lemma {:induction false} CopyPuts(dir: map<string, string>, refs: seq<Ref>, dests: map<string, string>,
      files: map<string, string>)
    requires Recorded(refs, dests, files)
    ensures var r := CopyAll(dir, refs, files);
            && (forall i | 0 <= i < |refs| :: Get(r, refs[i].dest) == Some(files[refs[i].src]))
            && (forall x | forall i | 0 <= i < |refs| :: refs[i].dest != x :: Get(r, x) == Get(dir, x))
  {
    if refs != [] {
      var n := |refs| - 1;
      CopyPuts(dir, refs[..n], dests, files);
      var r, r1 := CopyAll(dir, refs, files), CopyAll(dir, refs[..n], files);
      forall i | 0 <= i < |refs| ensures Get(r, refs[i].dest) == Some(files[refs[i].src]) {
        if i < n {
          assert refs[..n][i] == refs[i];
          assert Get(r1, refs[i].dest) == Some(files[refs[i].src]);
          assert refs[i].dest == refs[n].dest ==> refs[i].src == refs[n].src;
        }
      }
      forall x | forall i | 0 <= i < |refs| :: refs[i].dest != x ensures Get(r, x) == Get(dir, x) {
        assert forall i | 0 <= i < n :: refs[..n][i].dest == refs[i].dest;
        assert refs[n].dest != x;
      }
    }
  }

  /** Every name that no document is loaded under holds the bytes of its source. */
  ghost predicate Held(t: Tmp, names: set<string>, files: map<string, string>) {
    forall d | d in t.dests && d !in names :: t.dests[d] in files && Get(t.dir, d) == Some(files[t.dests[d]])
  }

  /** The name the i-th document is loaded under. */
  function NameAt(cs: seq<Compose>, i: nat): string
    requires i < |cs|
  {
    LoaderName(i, cs[i].name)
  }

  ghost function LoaderNames(cs: seq<Compose>): set<string> {
    set i | 0 <= i < |cs| :: NameAt(cs, i)
  }

  lemma LoaderNamesSnoc(cs: seq<Compose>)
    requires cs != []
    ensures LoaderNames(cs) == LoaderNames(cs[..|cs| - 1]) + {LoaderName(|cs| - 1, cs[|cs| - 1].name)}
  {
    hide LoaderName;
    var init := cs[..|cs| - 1];
    assert forall i | 0 <= i < |init| :: NameAt(init, i) == NameAt(cs, i);
    assert NameAt(cs, |cs| - 1) == LoaderName(|cs| - 1, cs[|cs| - 1].name);
  }

  lemma OneHolds(t: Tmp, c: Compose, i: nat, files: map<string, string>, names: set<string>)
    requires Held(t, names, files) && ConvertOne(t, c, i, files).Some?
    ensures Held(ConvertOne(t, c, i, files).value, names + {LoaderName(i, c.name)}, files)
    ensures Extends(ConvertOne(t, c, i, files).value.dests, t.dests)
  {
    hide StageServices;
    hide LoaderName;
    hide CopyAll;
    var d := StageServices(t.dests, c, c.services, files).value;
    ServicesRecord(t.dests, c, c.services, files);
    CopyPuts(t.dir, d.refs, d.dests, files);
    var t1 := Tmp(d.dests, CopyAll(t.dir, d.refs, files));
    forall x | x in t1.dests && x !in names ensures t1.dests[x] in files && Get(t1.dir, x) == Some(files[t1.dests[x]]) {
      if i :| 0 <= i < |d.refs| && d.refs[i].dest == x {
        assert Get(t1.dir, d.refs[i].dest) == Some(files[d.refs[i].src]);
      } else {
        assert x in t.dests;
      }
    }
    assert Held(StagedDotEnv(t1, c.dotEnv, files), names, files);
  }

  /** After any conversion each staged name holds its own source's bytes, unless a document has that very name. */
  lemma {:induction false} OwnBytes(cs: seq<Compose>, files: map<string, string>)
    requires ConvertAll(cs, files).Some?
    ensures Held(ConvertAll(cs, files).value, LoaderNames(cs), files)
    ensures forall i | 0 <= i <= |cs| ::
      ConvertAll(cs[..i], files).Some?
        && Extends(ConvertAll(cs, files).value.dests, ConvertAll(cs[..i], files).value.dests)
  {
    hide ConvertOne;
    hide LoaderNames;
    if cs == [] {
      assert cs[..0] == cs;
    } else {
      var n := |cs| - 1;
      OwnBytes(cs[..n], files);
      LoaderNamesSnoc(cs);
      OneHolds(ConvertAll(cs[..n], files).value, cs[n], n, files, LoaderNames(cs[..n]));
      forall i | 0 <= i <= |cs|
        ensures ConvertAll(cs[..i], files).Some?
            && Extends(ConvertAll(cs, files).value.dests, ConvertAll(cs[..i], files).value.dests)
      {
        assert i < |cs| ==> cs[..i] == cs[..n][..i];
        assert i == |cs| ==> cs[..i] == cs;
      }
    }
  }

  /******* Documents and env files side by side *******/

  /** The names that staging gives the env files of some documents; nothing has to be copied to know them. */
  function StagedNames(cs: seq<Compose>, files: map<string, string>): Option<map<string, string>> {
    if cs == [] then Some(map[])
    else
      var c := cs[|cs| - 1];
      match StagedNames(cs[..|cs| - 1], files)
      case None => None
      case Some(dests) =>
        match StageServices(dests, c, c.services, files)
        case None => None
        case Some(d) => Some(StagedDotEnv(Tmp(d.dests, map[]), c.dotEnv, files).dests)
  }

  /** A conversion that gets through has staged exactly these names. */
  lemma {:induction false} NamesAreStaged(cs: seq<Compose>, files: map<string, string>)
    ensures StagedNames(cs, files) ==
            match ConvertAll(cs, files) case None => None case Some(t) => Some(t.dests)
  {
    hide StageServices;
    hide LoaderName;
    hide CopyAll;
    if cs != [] {
      NamesAreStaged(cs[..|cs| - 1], files);
    }
  }

  /** The names given by the time the i-th document's own ".env" is staged. */
  ghost function NamesBefore(cs: seq<Compose>, files: map<string, string>, i: nat): Option<map<string, string>>
    requires i < |cs|
  {
    match StagedNames(cs[..i], files)
    case None => None
    case Some(dests) =>
      match StageServices(dests, cs[i], cs[i].services, files)
      case None => None
      case Some(d) => Some(d.dests)
  }

  /** A project's ".env" ends up under that name if and only if no other file was given the name before. */
  lemma DotEnvIff(cs: seq<Compose>, files: map<string, string>, i: nat, src: string)
    requires i < |cs| && ConvertAll(cs, files).Some? && cs[i].dotEnv == Some(src) && src in files
    ensures NamesBefore(cs, files, i).Some?
    ensures var t, before := ConvertAll(cs, files).value, NamesBefore(cs, files, i).value;
            && ".env" in t.dests
            && (t.dests[".env"] == src <==> (".env" in before ==> before[".env"] == src))
  {
    hide StageServices;
    hide LoaderName;
    hide CopyAll;
    OwnBytes(cs, files);
    NamesAreStaged(cs[..i], files);
    assert cs[..i + 1][..i] == cs[..i] && cs[..i + 1][i] == cs[i];
    assert ConvertAll(cs[..i + 1], files).Some?;
  }

  /** The text the i-th document is written with, once its entries point at their staged names. */
  function DocumentText(cs: seq<Compose>, files: map<string, string>, i: nat): Option<string>
    requires i < |cs|
  {
    match StagedNames(cs[..i], files)
    case None => None
    case Some(dests) =>
      match StageServices(dests, cs[i], cs[i].services, files)
      case None => None
      case Some(d) => Some(cs[i].render(d.services))
  }

  /** What a conversion is for: every staged name holds its source's bytes, and every document its own text. */
  ghost predicate AllIntact(cs: seq<Compose>, files: map<string, string>)
    requires ConvertAll(cs, files).Some?
  {
    var t := ConvertAll(cs, files).value;
    && (forall d | d in t.dests :: t.dests[d] in files && Get(t.dir, d) == Some(files[t.dests[d]]))
    && (forall i | 0 <= i < |cs| :: Get(t.dir, NameAt(cs, i)) == DocumentText(cs, files, i))
  }

  /** A document's name holds either the document or, if it is staged too, the env file staged under it. */
  ghost predicate OneOfTwo(t: Tmp, x: string, text: Option<string>, files: map<string, string>) {
    && text.Some?
    && (|| Get(t.dir, x) == text
        || (x in t.dests && t.dests[x] in files && Get(t.dir, x) == Some(files[t.dests[x]])))
  }

  /** One turn under another name copies over a document's name only what is staged there. */
  lemma TurnKeepsOneOfTwo(t: Tmp, c: Compose, i: nat, files: map<string, string>, x: string, text: Option<string>)
    requires ConvertOne(t, c, i, files).Some? && OneOfTwo(t, x, text, files) && x != LoaderName(i, c.name)
    ensures OneOfTwo(ConvertOne(t, c, i, files).value, x, text, files)
  {
    hide StageServices;
    hide LoaderName;
    hide CopyAll;
    var d := StageServices(t.dests, c, c.services, files).value;
    ServicesRecord(t.dests, c, c.services, files);
    CopyPuts(t.dir, d.refs, d.dests, files);
    var t1 := Tmp(d.dests, CopyAll(t.dir, d.refs, files));
    assert OneOfTwo(t1, x, text, files) by {
      if i :| 0 <= i < |d.refs| && d.refs[i].dest == x {
        assert Get(t1.dir, d.refs[i].dest) == Some(files[d.refs[i].src]);
      }
    }
    assert OneOfTwo(StagedDotEnv(t1, c.dotEnv, files), x, text, files);
  }

  lemma {:induction false} DocumentOrEnvFile(cs: seq<Compose>, files: map<string, string>, i: nat)
    requires i < |cs| && ConvertAll(cs, files).Some?
    ensures OneOfTwo(ConvertAll(cs, files).value, NameAt(cs, i), DocumentText(cs, files, i), files)
  {
    hide StageServices;
    hide LoaderName;
    hide CopyAll;
    hide StagedDotEnv;
    var n := |cs| - 1;
    NamesAreStaged(cs[..n], files);
    if i < n {
      DocumentOrEnvFile(cs[..n], files, i);
      assert cs[..n][..i] == cs[..i];
      LoaderNamesDiffer(i, n, cs[i].name, cs[n].name);
      TurnKeepsOneOfTwo(ConvertAll(cs[..n], files).value, cs[n], n, files, NameAt(cs, i), DocumentText(cs, files, i));
    }
  }

  /**
   A conversion loses nothing, neither a staged env file nor a document, if and only if every document
   name that staging also gives to an env file has the same contents under both.
   */
  lemma AllIntactIff(cs: seq<Compose>, files: map<string, string>)
    requires ConvertAll(cs, files).Some?
    ensures StagedNames(cs, files).Some?
    ensures var dests := StagedNames(cs, files).value;
            AllIntact(cs, files) <==>
            forall i | 0 <= i < |cs| && NameAt(cs, i) in dests ::
              dests[NameAt(cs, i)] in files && Some(files[dests[NameAt(cs, i)]]) == DocumentText(cs, files, i)
  {
    hide ConvertAll;
    hide StagedNames;
    hide DocumentText;
    hide LoaderName;
    var t := ConvertAll(cs, files).value;
    NamesAreStaged(cs, files);
    OwnBytes(cs, files);
    forall i | 0 <= i < |cs| ensures OneOfTwo(t, NameAt(cs, i), DocumentText(cs, files, i), files) {
      DocumentOrEnvFile(cs, files, i);
    }
    if forall i | 0 <= i < |cs| && NameAt(cs, i) in t.dests ::
         t.dests[NameAt(cs, i)] in files && Some(files[t.dests[NameAt(cs, i)]]) == DocumentText(cs, files, i)
    {
      forall d | d in t.dests ensures t.dests[d] in files && Get(t.dir, d) == Some(files[t.dests[d]]) {
        if i :| 0 <= i < |cs| && NameAt(cs, i) == d {
          assert OneOfTwo(t, NameAt(cs, i), DocumentText(cs, files, i), files);
        } else {
          assert d !in LoaderNames(cs);
        }
      }
    }
  }

  /** In particular when no document has the name of a staged file. */
  lemma DisjointNamesSuffice(cs: seq<Compose>, files: map<string, string>)
    requires ConvertAll(cs, files).Some?
    requires StagedNames(cs, files).Some? && StagedNames(cs, files).value.Keys !! LoaderNames(cs)
    ensures AllIntact(cs, files)
  {
    hide ConvertAll;
    hide StagedNames;
    hide DocumentText;
    AllIntactIff(cs, files);
    forall i | 0 <= i < |cs| ensures NameAt(cs, i) in LoaderNames(cs) {
    }
  }

  /** A document whose only env file is absolute, named `base`. */
  predicate OneEnvFile(c: Compose, src: string, base: string) {
    c.services == [[Short(src)]] && IsAbs(src) && Base(src) == base && c.dotEnv == None
  }

  lemma StagesOne(t: Tmp, c: Compose, src: string, base: string, files: map<string, string>)
    requires OneEnvFile(c, src, base) && src in files && Open(base, src, t.dests)
    ensures StageServices(t.dests, c, c.services, files) ==
            Some(Document(t.dests[base := src], [Ref(src, base)], [[Short(base)]]))
  {
    hide Base;
    assert c.services[..0] == [] && c.services[0][..0] == [];
    assert StageAll(t.dests, [], c.resolve, files) == Some(Staged(t.dests, [], []));
    var entries := c.services[0];
    assert entries == [Short(src)] && entries[..|entries| - 1] == [];
    assert Candidate(src, src, 0) == base;
    var s := Staged(t.dests, [], []);
    assert s.refs + [Ref(src, base)] == [Ref(src, base)] && s.entries + [Short(base)] == [Short(base)];
    assert Chosen(src, src, t.dests, 0) == base;
    assert StageAll(t.dests, entries, c.resolve, files)
        == Some(Staged(t.dests[base := src], [Ref(src, base)], [Short(base)]));
    var d := Document(t.dests, [], []);
    assert StageServices(t.dests, c, [], files) == Some(d);
    assert d.refs + [Ref(src, base)] == [Ref(src, base)] && d.services + [[Short(base)]] == [[Short(base)]];
  }

  lemma ConvertsOne(t: Tmp, c: Compose, i: nat, src: string, base: string, files: map<string, string>)
    requires OneEnvFile(c, src, base) && src in files && Open(base, src, t.dests)
    ensures ConvertOne(t, c, i, files) ==
            Some(Tmp(t.dests[base := src],
              t.dir[base := files[src]][LoaderName(i, c.name) := c.render([[Short(base)]])]))
  {
    hide StageServices;
    hide LoaderName;
    StagesOne(t, c, src, base, files);
    var refs := [Ref(src, base)];
    assert refs[..0] == [];
    assert CopyAll(t.dir, [], files) == t.dir;
  }

  /** An env file is lost to its own document, when it is named as that document is loaded. */
  lemma EnvFileLost(c: Compose, src: string, files: map<string, string>)
    requires OneEnvFile(c, src, LoaderName(0, c.name)) && src in files
    requires c.render([[Short(LoaderName(0, c.name))]]) != files[src]
    ensures ConvertAll([c], files).Some?
    ensures var t := ConvertAll([c], files).value;
            && Get(t.dests, LoaderName(0, c.name)) == Some(src)
            && Get(t.dir, LoaderName(0, c.name)) == Some(c.render([[Short(LoaderName(0, c.name))]]))
            && !AllIntact([c], files)
  {
    hide LoaderName;
    hide ConvertOne;
    assert [c][..0] == [];
    ConvertsOne(Tmp(map[], map[]), c, 0, src, LoaderName(0, c.name), files);
    assert ConvertAll([], files) == Some(Tmp(map[], map[]));
  }

  /** A document is lost to an env file of a later document, before either is loaded. */
  lemma DocumentLost(c0: Compose, c1: Compose, src: string, files: map<string, string>)
    requires c0.services == [] && c0.dotEnv == None && src in files
    requires OneEnvFile(c1, src, LoaderName(0, c0.name)) && c0.render([]) != files[src]
    ensures ConvertAll([c0, c1], files).Some?
    ensures var t := ConvertAll([c0, c1], files).value;
            && Get(t.dir, LoaderName(0, c0.name)) == Some(files[src])
            && DocumentText([c0, c1], files, 0) == Some(c0.render([]))
            && !AllIntact([c0, c1], files)
  {
    hide LoaderName;
    var cs, name := [c0, c1], LoaderName(0, c0.name);
    assert cs[..1] == [c0] && [c0][..0] == [] && cs[..0] == [];
    var t0 := Tmp(map[], map[]);
    assert ConvertAll([], files) == Some(t0);
    var t1 := Tmp(map[], map[name := c0.render([])]);
    assert ConvertOne(t0, c0, 0, files) == Some(t1);
    assert ConvertAll([c0], files) == Some(t1);
    ConvertsOne(t1, c1, 1, src, name, files);
    LoaderNamesDiffer(0, 1, c0.name, c1.name);
    assert NameAt(cs, 0) == name;
  }

  /** Documents never overwrite each other. */
  lemma LoaderNamesDiffer(i: nat, j: nat, a: string, b: string)
    requires i != j
    ensures LoaderName(i, a) != LoaderName(j, b)
  {
    hide Decimal;
    var x := if i < 10 then ['0'] + Decimal(i) else Decimal(i);
    var y := if j < 10 then ['0'] + Decimal(j) else Decimal(j);
    DigitRunIs(x, ['-'] + a);
    DigitRunIs(y, ['-'] + b);
    if LoaderName(i, a) == LoaderName(j, b) {
      assert LoaderName(i, a)[..|x|] == x && LoaderName(j, b)[..|y|] == y;
      assert x == y;
      PaddedNumber(i);
      PaddedNumber(j);
    }
  }

  lemma PaddedNumber(i: nat)
    ensures AllDigits(if i < 10 then ['0'] + Decimal(i) else Decimal(i))
    ensures Number(if i < 10 then ['0'] + Decimal(i) else Decimal(i)) == i
  {
    NumberOfDecimal(i);
    if i < 10 {
      var s := ['0'] + Decimal(i);
      assert s[..|s| - 1] == ['0'] && ['0'][..0] == [];
      assert Decimal(i)[..0] == [];
    }
  }

  /******* The program *******/

  /** The staging directory of one conversion; `files` is what is there to be read. */
  class Staging {
    const files: map<string, string>
    var dests: map<string, string>
    var dir: map<string, string>

    constructor (files: map<string, string>)
      ensures this.files == files && dests == map[] && dir == map[]
    {
      this.files := files;
      dests, dir := map[], map[];
    }

    /** The retry loop ends: it has passed at most as many numbered names as are taken. */
    method EnvFileDest(path: string, src: string) returns (dest: string)
      modifies this`dests
      ensures dest == Chosen(path, src, old(dests), 0)
      ensures dests == old(dests)[dest := src]
    {
      hide Candidate;
      hide Chosen;
      dest := if !IsAbs(path) && !Climbs(Clean(path)) then Clean(path) else Base(src);
      FirstCandidate(path, src);
      var i := 1;
      while !Open(dest, src, dests)
        invariant i >= 1 && dest == Candidate(path, src, i - 1) && dests == old(dests)
        invariant forall j | 0 <= j < i - 1 :: !Open(Candidate(path, src, j), src, dests)
        decreases |dests| + 2 - i
      {
        Pigeonhole(path, src, dests.Keys, i - 1);
        dest := Decimal(i) + ("-" + Base(src));
        NumberedCandidate(path, src, i);
        i := i + 1;
      }
      if i >= 2 {
        Pigeonhole(path, src, dests.Keys, i - 2);
      }
      ChosenIs(path, src, dests, 0, i - 1);
      dests := dests[dest := src];
    }

    method StageEnvFiles(entries: seq<Entry>, resolve: string -> string) returns (r: Option<Staged>)
      modifies this`dests
      ensures r == StageAll(old(dests), entries, resolve, files)
      ensures r.Some? ==> dests == r.value.dests
    {
      hide Chosen;
      var refs: seq<Ref>, rewritten: seq<Entry> := [], [];
      for i := 0 to |entries|
        invariant StageAll(old(dests), entries[..i], resolve, files) == Some(Staged(dests, refs, rewritten))
      {
        assert entries[..i + 1][..i] == entries[..i];
        match Wanted(entries[i]) {
          case None => rewritten := rewritten + [entries[i]];
          case Some((path, required)) =>
            var src := if IsAbs(path) then path else resolve(path);
            if src !in files {
              if !required { continue; }
              StagedEarly(old(dests), entries, resolve, files, i + 1);
              return None;
            }
            var dest := EnvFileDest(path, src);
            refs, rewritten := refs + [Ref(src, dest)], rewritten + [Pointed(entries[i], dest)];
        }
      }
      assert entries[..|entries|] == entries;
      return Some(Staged(dests, refs, rewritten));
    }

    /** A source that cannot be read ends the copying. */
    method CopyEnvFiles(refs: seq<Ref>) returns (ok: bool)
      requires forall i | 0 <= i < |refs| :: refs[i].src in files
      modifies this`dir
      ensures ok ==> dir == CopyAll(old(dir), refs, files)
    {
      for i := 0 to |refs|
        invariant dir == CopyAll(old(dir), refs[..i], files)
      {
        assert refs[..i + 1][..i] == refs[..i];
        ok := *;
        if !ok { return; }
        dir := dir[refs[i].dest := files[refs[i].src]];
      }
      assert refs[..|refs|] == refs;
      ok := true;
    }

    method StageDotEnv(dotEnv: Option<string>) returns (ok: bool)
      modifies this
      ensures ok ==> Tmp(dests, dir) == StagedDotEnv(Tmp(old(dests), old(dir)), dotEnv, files)
    {
      if dotEnv.None? || dotEnv.value !in files { return true; }
      if DOT_ENV in dests && dests[DOT_ENV] != dotEnv.value { return true; }
      ok := *;
      if !ok { return; }
      dests := dests[DOT_ENV := dotEnv.value];
      dir := dir[DOT_ENV := files[dotEnv.value]];
    }

    method StageDocument(c: Compose) returns (r: Option<Document>)
      modifies this`dests
      ensures r == StageServices(old(dests), c, c.services, files)
      ensures r.Some? ==> dests == r.value.dests
    {
      hide StageAll;
      var refs: seq<Ref>, services: seq<seq<Entry>> := [], [];
      for i := 0 to |c.services|
        invariant StageServices(old(dests), c, c.services[..i], files) == Some(Document(dests, refs, services))
      {
        assert c.services[..i + 1][..i] == c.services[..i];
        var s := StageEnvFiles(c.services[i], c.resolve);
        if s.None? {
          ServicesEarly(old(dests), c, c.services, files, i + 1);
          return None;
        }
        refs, services := refs + s.value.refs, services + [s.value.entries];
      }
      assert c.services[..|c.services|] == c.services;
      return Some(Document(dests, refs, services));
    }

    /** Documents one after another; a success has done exactly what `ConvertAll` describes. */
    method Convert(cs: seq<Compose>) returns (ok: bool)
      requires dests == map[] && dir == map[]
      modifies this
      ensures ok ==> ConvertAll(cs, files) == Some(Tmp(dests, dir))
    {
      hide StageServices;
      hide StagedDotEnv;
      hide LoaderName;
      hide CopyAll;
      for i := 0 to |cs|
        invariant ConvertAll(cs[..i], files) == Some(Tmp(dests, dir))
      {
        assert cs[..i + 1][..i] == cs[..i];
        ghost var before := dests;
        var d := StageDocument(cs[i]);
        if d.None? { return false; }
        ServicesRecord(before, cs[i], cs[i].services, files);
        ok := CopyEnvFiles(d.value.refs);
        if !ok { return; }
        ok := StageDotEnv(cs[i].dotEnv);
        if !ok { return; }
        dir := dir[LoaderName(i, cs[i].name) := cs[i].render(d.value.services)];
      }
      assert cs[..|cs|] == cs;
      ok := true;
    }
  }

  lemma {:induction false} ServicesEarly(dests: map<string, string>, c: Compose, services: seq<seq<Entry>>,
      files: map<string, string>, i: nat)
    requires i <= |services| && StageServices(dests, c, services[..i], files) == None
    ensures StageServices(dests, c, services, files) == None
  {
    if i == |services| {
      assert services[..i] == services;
    } else {
      assert services[..|services| - 1][..i] == services[..i];
      ServicesEarly(dests, c, services[..|services| - 1], files, i);
    }
  }

  lemma FirstCandidate(path: string, src: string)
    ensures Candidate(path, src, 0) == First(path, src)
  {
  }

  lemma NumberedCandidate(path: string, src: string, i: nat)
    requires i >= 1
    ensures Candidate(path, src, i) == Decimal(i) + ("-" + Base(src))
  {
  }
}
