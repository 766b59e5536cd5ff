/** Lexical file paths: cleaning and base names, as `path/filepath` defines them on Unix. */
module Paths {
  import opened Common
  import opened Text

  function Join(segs: seq<string>): string {
    if segs == [] then []
    else if |segs| == 1 then segs[0]
    else segs[0] + ['/'] + Join(segs[1..])
  }

  /** One more segment of a path: "." and empty ones vanish, ".." undoes the one before it if it can. */
  function Push(stack: seq<string>, seg: string, rooted: bool): seq<string> {
    if seg == [] || seg == ['.'] then stack
    else if seg != ['.', '.'] then stack + [seg]
    else if stack != [] && stack[|stack| - 1] != ['.', '.'] then stack[..|stack| - 1]
    else if rooted then stack
    else stack + [seg]
  }

  function Reduce(segs: seq<string>, rooted: bool): seq<string> {
    if segs == [] then [] else Push(Reduce(segs[..|segs| - 1], rooted), segs[|segs| - 1], rooted)
  }

  predicate IsAbs(path: string) {
    path != [] && path[0] == '/'
  }

  function Clean(path: string): string {
    var kept := Reduce(Split(path, '/'), IsAbs(path));
    if IsAbs(path) then ['/'] + Join(kept) else if kept == [] then ['.'] else Join(kept)
  }

  /** The last segment, after dropping trailing slashes. */
  function Base(path: string): (r: string)
    ensures r != []
  {
    if path == [] then ['.']
    else if path[|path| - 1] == '/' then
      if path[..|path| - 1] == [] then ['/'] else Base(path[..|path| - 1])
    else
      match CutLast(path, '/')
      case None => path
      case Some((_, last)) => last
  }

  /******* Staying inside a directory *******/

  /** A path that never leaves the directory it is relative to. */
  predicate Inside(path: string) {
    !IsAbs(path) && ['.', '.'] !in Split(path, '/')
  }

  predicate Climbs(clean: string) {
    clean == ['.', '.'] || HasPrefix(clean, ['.', '.', '/'])
  }

  /** All ".." come first, and no segment is empty or holds a slash. */
  ghost predicate Reduced(stack: seq<string>) {
    && (forall i | 0 <= i < |stack| :: stack[i] != [] && '/' !in stack[i])
    && forall i, j | 0 <= i < j < |stack| && stack[j] == ['.', '.'] :: stack[i] == ['.', '.']
  }

  lemma {:induction false} ReducedStack(segs: seq<string>)
    requires forall i | 0 <= i < |segs| :: '/' !in segs[i]
    ensures Reduced(Reduce(segs, false))
  {
    if segs != [] {
      ReducedStack(segs[..|segs| - 1]);
    }
  }

  lemma {:induction false} SplitFree(s: string, c: char)
    ensures forall i | 0 <= i < |Split(s, c)| :: c !in Split(s, c)[i]
    decreases |s|
  {
    match Cut(s, c)
    case None =>
    case Some((a, b)) => SplitFree(b, c);
  }

  lemma {:induction false} SplitJoin(segs: seq<string>)
    requires segs != [] && forall i | 0 <= i < |segs| :: '/' !in segs[i]
    ensures Split(Join(segs), '/') == segs
  {
    if |segs| == 1 {
      SplitNone(segs[0], '/');
    } else {
      SplitJoin(segs[1..]);
      SplitCons(segs[0], '/', Join(segs[1..]));
    }
  }

  /** Cleaning a relative path leaves one that either visibly climbs out or stays inside. */
  lemma CleanInside(path: string)
    requires !IsAbs(path)
    ensures Inside(Clean(path)) <==> !Climbs(Clean(path))
  {
    var up := ['.', '.'];
    var segs := Split(path, '/');
    SplitFree(path, '/');
    ReducedStack(segs);
    var kept := Reduce(segs, false);
    if kept == [] {
      SplitNone(['.'], '/');
    } else {
      SplitJoin(kept);
      JoinStarts(kept);
      if up in kept {
        assert kept[0] == up;
      }
    }
  }

  lemma JoinStarts(segs: seq<string>)
    requires segs != [] && forall i | 0 <= i < |segs| :: segs[i] != [] && '/' !in segs[i]
    ensures !IsAbs(Join(segs))
    ensures Climbs(Join(segs)) <==> segs[0] == ['.', '.']
  {
    var s, up := Join(segs), ['.', '.', '/'];
    if |segs| > 1 {
      var rest := segs[0] + ['/'];
      assert s == rest + Join(segs[1..]);
      if segs[0] == ['.', '.'] {
        assert s[..3] == up;
      }
      if HasPrefix(s, up) {
        assert s[0] == '.' && s[1] == '.' && s[2] == '/'
            by { assert s[..3][0] == s[0] && s[..3][1] == s[1] && s[..3][2] == s[2]; }
        assert '/' == s[|segs[0]|];
        assert forall i | 0 <= i < |segs[0]| :: s[i] == segs[0][i] && segs[0][i] != '/';
        assert |segs[0]| == 2;
        assert segs[0] == ['.', '.'];
      }
      if s == ['.', '.'] {
        assert s[|segs[0]|] == '/';
      }
    } else {
      assert |s| >= 3 ==> s[..3][2] == s[2];
    }
  }

  /******* Cleaning twice *******/

  /** Segments that cleaning leaves alone. */
  ghost predicate Settled(segs: seq<string>) {
    forall i | 0 <= i < |segs| :: segs[i] != [] && segs[i] != ['.'] && segs[i] != ['.', '.'] && '/' !in segs[i]
  }

  lemma {:induction false} RootedSettles(segs: seq<string>)
    requires forall i | 0 <= i < |segs| :: '/' !in segs[i]
    ensures Settled(Reduce(segs, true))
  {
    if segs != [] {
      RootedSettles(segs[..|segs| - 1]);
    }
  }

  lemma {:induction false} SettledStays(segs: seq<string>)
    requires Settled(segs)
    ensures Reduce([[]] + segs, true) == segs
  {
    var all := [[]] + segs;
    if segs == [] {
      assert all[..0] == [];
    } else {
      var n := |segs| - 1;
      assert all[..|all| - 1] == [[]] + segs[..n];
      SettledStays(segs[..n]);
      assert segs[..n] + [segs[n]] == segs;
    }
  }

  /** An absolute path is clean once it has been cleaned. */
  lemma CleanTwice(path: string)
    requires IsAbs(path)
    ensures IsAbs(Clean(path)) && Clean(Clean(path)) == Clean(path)
  {
    hide Reduce;
    var segs := Split(path, '/');
    SplitFree(path, '/');
    RootedSettles(segs);
    var kept := Reduce(segs, true);
    var c := Clean(path);
    assert c == [] + ['/'] + Join(kept);
    SplitCons([], '/', Join(kept));
    if kept == [] {
      SplitNone([], '/');
      assert Split(c, '/') == [[]] + [[]];
      TwoEmpty();
    } else {
      SplitJoin(kept);
      SettledStays(kept);
    }
  }

  lemma TwoEmpty()
    ensures Reduce([[]] + [[]], true) == []
  {
    var e: string := [];
    assert [e][..0] == [];
    assert Reduce([e], true) == [];
    assert ([e] + [e])[..1] == [e];
  }

  /******* What cleaning keeps *******/

  /** Following segments one by one from a directory; the root is its own parent. */
  ghost function Walk(dir: seq<string>, segs: seq<string>): seq<string> {
    if segs == [] then dir else Follow(Walk(dir, segs[..|segs| - 1]), segs[|segs| - 1])
  }

  ghost function Follow(at: seq<string>, seg: string): seq<string> {
    if seg == [] || seg == ['.'] then at
    else if seg != ['.', '.'] then at + [seg]
    else if at == [] then [] else at[..|at| - 1]
  }

  lemma WalkOn(dir: seq<string>, segs: seq<string>, seg: string)
    ensures Walk(dir, segs + [seg]) == Follow(Walk(dir, segs), seg)
  {
    assert (segs + [seg])[..|segs|] == segs;
  }

  /** The place a path leads to from a directory. */
  ghost function Place(dir: seq<string>, path: string): seq<string> {
    Walk(if IsAbs(path) then [] else dir, Split(path, '/'))
  }

  lemma {:induction false} ReduceFills(segs: seq<string>, rooted: bool)
    ensures forall seg | seg in Reduce(segs, rooted) :: seg !in [[], ['.']]
  {
    if segs != [] {
      ReduceFills(segs[..|segs| - 1], rooted);
    }
  }

  lemma {:induction false} ReduceWalks(dir: seq<string>, segs: seq<string>, rooted: bool)
    requires rooted ==> dir == [] && forall i | 0 <= i < |segs| :: '/' !in segs[i]
    ensures Walk(dir, Reduce(segs, rooted)) == Walk(dir, segs)
  {
    hide Walk;
    if segs == [] {
      assert Reduce(segs, rooted) == segs;
    } else {
      var init, seg := segs[..|segs| - 1], segs[|segs| - 1];
      assert segs == init + [seg];
      ReduceWalks(dir, init, rooted);
      var stack := Reduce(init, rooted);
      WalkOn(dir, init, seg);
      WalkOn(dir, stack, seg);
      if rooted {
        RootedSettles(init);
        assert stack == [] ==> Walk(dir, stack) == [] by { WalkNowhere(dir); }
      }
      if stack != [] {
        ReduceFills(init, rooted);
        var last := stack[|stack| - 1];
        assert last in stack && stack == stack[..|stack| - 1] + [last];
        WalkOn(dir, stack[..|stack| - 1], last);
      }
    }
  }

  lemma WalkNowhere(dir: seq<string>)
    ensures Walk(dir, []) == dir
  {
  }

  lemma {:induction false} WalkFromEmpty(dir: seq<string>, segs: seq<string>)
    ensures Walk(dir, [[]] + segs) == Walk(dir, segs)
  {
    var all := [[]] + segs;
    if segs == [] {
      assert all[..0] == [];
    } else {
      assert all[..|all| - 1] == [[]] + segs[..|segs| - 1];
      WalkFromEmpty(dir, segs[..|segs| - 1]);
    }
  }

  /** The shortest spelling: a bare "." or "/", or no empty or "." segment, and ".." only where it climbs. */
  ghost predicate Neat(path: string) {
    || path == ['.'] || path == ['/']
    || (var segs := Split(if IsAbs(path) then path[1..] else path, '/');
        && Reduced(segs) && ['.'] !in segs && (IsAbs(path) ==> ['.', '.'] !in segs))
  }

  /** A cleaned path leads to the same place from everywhere, is absolute if the path is, and spells it shortest. */
  lemma CleanLeadsAlike(dir: seq<string>, path: string)
    ensures Place(dir, Clean(path)) == Place(dir, path)
    ensures IsAbs(Clean(path)) == IsAbs(path) && Neat(Clean(path))
  {
    hide Reduce;
    hide Walk;
    hide Neat;
    hide Place;
    if IsAbs(path) {
      AbsoluteLeadsAlike(dir, path);
    } else {
      RelativeLeadsAlike(dir, path);
    }
  }

  lemma AbsoluteLeadsAlike(dir: seq<string>, path: string)
    requires IsAbs(path)
    ensures Place(dir, Clean(path)) == Place(dir, path) && Neat(Clean(path))
  {
    hide Reduce;
    hide Walk;
    var segs := Split(path, '/');
    SplitFree(path, '/');
    ReduceWalks([], segs, true);
    RootedSettles(segs);
    var kept := Reduce(segs, true);
    assert Clean(path) == [] + ['/'] + Join(kept) && Clean(path)[1..] == Join(kept);
    SplitCons([], '/', Join(kept));
    WalkFromEmpty([], Split(Join(kept), '/'));
    if kept == [] {
      SplitNone([], '/');
      WalkDot([]);
    } else {
      SplitJoin(kept);
    }
  }

  lemma RelativeLeadsAlike(dir: seq<string>, path: string)
    requires !IsAbs(path)
    ensures !IsAbs(Clean(path)) && Place(dir, Clean(path)) == Place(dir, path) && Neat(Clean(path))
  {
    hide Reduce;
    hide Walk;
    var segs := Split(path, '/');
    SplitFree(path, '/');
    ReduceWalks(dir, segs, false);
    ReduceFills(segs, false);
    ReducedStack(segs);
    var kept := Reduce(segs, false);
    if kept == [] {
      SplitNone(['.'], '/');
      WalkDot(dir);
    } else {
      SplitJoin(kept);
      JoinStarts(kept);
    }
  }

  lemma WalkDot(dir: seq<string>)
    ensures Walk(dir, [['.']]) == Walk(dir, [[]]) == Walk(dir, []) == dir
  {
    var dot, none: string := ['.'], [];
    assert [dot][..0] == [] && [none][..0] == [];
  }

  /** A relative path of plain segments is clean already. */
  lemma PlainIsClean(path: string)
    requires Settled(Split(path, '/'))
    ensures Clean(path) == path && Inside(path)
  {
    hide Reduce;
    var segs := Split(path, '/');
    JoinSplit(path);
    PlainStays(segs);
  }

  lemma {:induction false} PlainStays(segs: seq<string>)
    requires Settled(segs)
    ensures Reduce(segs, false) == segs
  {
    if segs != [] {
      PlainStays(segs[..|segs| - 1]);
    }
  }

  lemma {:induction false} JoinSplit(path: string)
    ensures Join(Split(path, '/')) == path
    decreases |path|
  {
    match Cut(path, '/')
    case None =>
    case Some((a, b)) => JoinSplit(b);
  }

  /** The base name is the last segment, however many slashes follow it. */
  lemma {:induction false} BaseIs(front: string, last: string, slashes: string)
    requires front == [] || front[|front| - 1] == '/'
    requires last != [] && '/' !in last && forall i | 0 <= i < |slashes| :: slashes[i] == '/'
    ensures Base(front + last + slashes) == last
  {
    var path := front + last + slashes;
    if slashes == [] {
      assert path == front + last && path[|path| - 1] == last[|last| - 1];
      if front != [] {
        var dir := front[..|front| - 1];
        CutLastIs(dir, '/', last);
        assert path == dir + ['/'] + last;
      } else {
        assert path == last;
      }
    } else {
      BaseIs(front, last, slashes[..|slashes| - 1]);
      assert path[|path| - 1] == slashes[|slashes| - 1];
      assert path[..|path| - 1] == front + last + slashes[..|slashes| - 1];
    }
  }

  /** Without a last segment it is the root, or "." for the empty path. */
  lemma {:induction false} BaseOfRoot(slashes: string)
    requires forall i | 0 <= i < |slashes| :: slashes[i] == '/'
    ensures Base(slashes) == if slashes == [] then ['.'] else ['/']
  {
    if |slashes| > 1 {
      BaseOfRoot(slashes[..|slashes| - 1]);
    }
  }
}
