/** The orcinus section kept up to date inside a file the user also edits. */
module InjectBlock {
  import opened Common
  import opened Text

  /** What delimits the section, and the heading that follows the begin marker. */
  datatype Marks = Marks(begin: string, heading: string, end: string)

  const ORCINUS := Marks("<!-- orcinus:begin -->", "\n## Using orcinus\n\n", "<!-- orcinus:end -->")

  function Block(m: Marks, body: string): string {
    m.begin + m.heading + body + "\n" + m.end
  }

  /** The text with a newline at its end. */
  function Terminated(s: string): string {
    if HasSuffix(s, "\n") then s else s + "\n"
  }

  /** The file after one injection; `None` is a file that does not exist yet. */
  function Inject(m: Marks, file: Option<string>, body: string): string {
    match file
    case None => Block(m, body) + "\n"
    case Some(s) =>
      var i, j := IndexOf(s, m.begin), IndexOf(s, m.end);
      if 0 <= i < j then s[..i] + Block(m, body) + s[j + |m.end|..]
      else Terminated(s) + "\n" + Block(m, body) + "\n"
  }

  class SharedFile {
    var text: Option<string>

    method InjectBlock(body: string)
      modifies this
      ensures text == Some(Inject(ORCINUS, old(text), body))
    {
      var m := ORCINUS;
      var block := m.begin + m.heading + body + "\n" + m.end;
      if text.None? {
        text := Some(block + "\n");
        return;
      }
      var s := text.value;
      var i := IndexOf(s, m.begin);
      if i >= 0 {
        var j := IndexOf(s, m.end);
        if j > i {
          text := Some(s[..i] + block + s[j + |m.end|..]);
          return;
        }
      }
      if !HasSuffix(s, "\n") {
        s := s + "\n";
      }
      text := Some(s + "\n" + block + "\n");
    }
  }

  /** Markers on one line that cannot be mistaken for each other or for the heading. */
  ghost predicate Proper(m: Marks) {
    && '\n' !in m.begin && '\n' !in m.end
    && m.begin != [] && m.end != []
    && m.heading != [] && m.heading[0] == '\n' && m.end[0] !in m.heading
    && forall o {:trigger IsAt(m.begin, m.end, o)} :: !IsAt(m.begin, m.end, o)
  }

  lemma NeverAt(s: string, pat: string)
    requires |s| == |pat| + 2 && |pat| > 13
    requires s[13] != pat[13] && s[1] != pat[0] && s[2] != pat[0]
    ensures forall o :: !IsAt(s, pat, o)
  {
  }

  lemma OrcinusIsProper()
    ensures Proper(ORCINUS)
  {
    NeverAt(ORCINUS.begin, ORCINUS.end);
  }

  predicate MarkerFree(m: Marks, s: string) {
    !Contains(s, m.begin) && !Contains(s, m.end)
  }

  /** No markers at all, or a first begin marker before the first end marker. */
  predicate WellMarked(m: Marks, file: Option<string>) {
    file.None? ||
    var i, j := IndexOf(file.value, m.begin), IndexOf(file.value, m.end);
    (i < 0 && j < 0) || 0 <= i < j
  }

  /** The user's text before and after the section. */
  function Outside(m: Marks, file: Option<string>): (string, string) {
    match file
    case None => ("", "\n")
    case Some(s) =>
      var i, j := IndexOf(s, m.begin), IndexOf(s, m.end);
      if 0 <= i < j then (s[..i], s[j + |m.end|..]) else (Terminated(s) + "\n", "\n")
  }

  /******* Where the markers of a rewritten file are *******/

  /** A pattern without newlines never spans one. */
  lemma NoCross(t: string, pat: string, i: int, k: int)
    requires IsAt(t, pat, i) && '\n' !in pat && 0 <= k < |t| && t[k] == '\n'
    ensures k < i || k >= i + |pat|
  {
  }

  /** A pattern inside one text is in any text that agrees on that stretch. */
  lemma Carry(t: string, u: string, pat: string, i: int, off: int)
    requires IsAt(t, pat, i) && 0 <= i + off && i + off + |pat| <= |u|
    requires forall k | i <= k < i + |pat| :: t[k] == u[k + off]
    ensures IsAt(u, pat, i + off)
  {
  }

  ghost predicate NoBeginBefore(m: Marks, pre: string) {
    forall i | 0 <= i < |pre| :: !IsAt(pre + m.begin, m.begin, i)
  }

  ghost predicate NoEndIn(m: Marks, pre: string) {
    forall i | 0 <= i < |pre| :: !IsAt(pre + m.begin, m.end, i)
  }

  lemma BeginIndex(m: Marks, pre: string, body: string, post: string)
    requires NoBeginBefore(m, pre)
    ensures IndexOf(pre + Block(m, body) + post, m.begin) == |pre|
  {
    var t := pre + Block(m, body) + post;
    assert t[|pre|..|pre| + |m.begin|] == m.begin;
    forall i | 0 <= i < |pre| ensures !IsAt(t, m.begin, i) {
      if IsAt(t, m.begin, i) { Carry(t, pre + m.begin, m.begin, i, 0); }
    }
    IndexIs(t, m.begin, |pre|);
  }

  lemma NotInBlock(m: Marks, pre: string, body: string, post: string, i: nat)
    requires Proper(m) && NoEndIn(m, pre) && !Contains(body, m.end)
    requires i < |pre| + |Block(m, body)| - |m.end|
    ensures !IsAt(pre + Block(m, body) + post, m.end, i)
  {
    var t := pre + Block(m, body) + post;
    var h := |pre| + |m.begin|;
    var b := h + |m.heading|;
    assert t[h] == '\n' && t[b + |body|] == '\n';
    assert h <= i < b ==> t[i] == m.heading[i - h];
    if IsAt(t, m.end, i) {
      assert t[i] == t[i..i + |m.end|][0] == m.end[0];
      NoCross(t, m.end, i, h);
      NoCross(t, m.end, i, b + |body|);
      if i < |pre| {
        Carry(t, pre + m.begin, m.end, i, 0);
      } else if i < h {
        Carry(t, m.begin, m.end, i, -|pre|);
      } else if b <= i < b + |body| {
        Carry(t, body, m.end, i, -b);
      }
    }
  }

  lemma EndIndex(m: Marks, pre: string, body: string, post: string)
    requires Proper(m) && NoEndIn(m, pre) && !Contains(body, m.end)
    ensures IndexOf(pre + Block(m, body) + post, m.end) == |pre| + |Block(m, body)| - |m.end|
  {
    var t := pre + Block(m, body) + post;
    var e := |pre| + |Block(m, body)| - |m.end|;
    assert t[e..e + |m.end|] == m.end;
    forall i | 0 <= i < e ensures !IsAt(t, m.end, i) {
      NotInBlock(m, pre, body, post, i);
    }
    IndexIs(t, m.end, e);
  }

  /** Appending a section creates no marker in, or across the end of, the old text. */
  lemma Appended(s: string, more: string, pat: string, k: nat)
    requires '\n' !in pat && pat != [] && k < |Terminated(s) + "\n"|
    ensures IsAt(Terminated(s) + "\n" + more, pat, k) ==> IsAt(s, pat, k)
  {
    var pre := Terminated(s) + "\n";
    var u := pre + more;
    if IsAt(u, pat, k) {
      NoCross(u, pat, k, |pre| - 1);
      if |Terminated(s)| > |s| { NoCross(u, pat, k, |s|); }
      Carry(u, s, pat, k, 0);
    }
  }

  /** The text before the section never hides a marker, when the file is well marked. */
  lemma OutsideIsSafe(m: Marks, file: Option<string>)
    requires Proper(m) && WellMarked(m, file)
    ensures NoBeginBefore(m, Outside(m, file).0) && NoEndIn(m, Outside(m, file).0)
    ensures forall body :: Inject(m, file, body) == Outside(m, file).0 + Block(m, body) + Outside(m, file).1
  {
    hide IndexFrom;
    if file.Some? {
      var s, pre := file.value, Outside(m, file).0;
      var u := pre + m.begin;
      var i, j := IndexOf(s, m.begin), IndexOf(s, m.end);
      forall k | 0 <= k < |pre| ensures !IsAt(u, m.begin, k) && !IsAt(u, m.end, k) {
        if 0 <= i < j {
          assert u == s[..i + |m.begin|];
          if IsAt(u, m.begin, k) { Carry(u, s, m.begin, k, 0); }
          if IsAt(u, m.end, k) { Carry(u, s, m.end, k, 0); }
        } else {
          Appended(s, m.begin, m.begin, k);
          Appended(s, m.begin, m.end, k);
        }
      }
    }
  }

  /******* Last body wins *******/

  /** Injecting into a file that already has the section replaces only the section. */
  lemma Replaces(m: Marks, file: Option<string>, b1: string, b2: string)
    requires Proper(m) && WellMarked(m, file) && MarkerFree(m, b1)
    ensures Inject(m, Some(Inject(m, file, b1)), b2) == Outside(m, file).0 + Block(m, b2) + Outside(m, file).1
  {
    hide IndexOf;
    hide Proper;
    hide WellMarked;
    var (pre, post) := Outside(m, file);
    OutsideIsSafe(m, file);
    BeginIndex(m, pre, b1, post);
    EndIndex(m, pre, b1, post);
    var t := pre + Block(m, b1) + post;
    assert t[..|pre|] == pre && t[|pre| + |Block(m, b1)|..] == post;
  }

  function InjectAll(m: Marks, file: Option<string>, bodies: seq<string>): Option<string> {
    if bodies == [] then file
    else Some(Inject(m, InjectAll(m, file, bodies[..|bodies| - 1]), bodies[|bodies| - 1]))
  }

  /**
   Over any number of runs on a well-marked file the text outside the section is
   kept, and the section holds the last body alone.
   */
  lemma {:induction false} AnyNumberOfRuns(m: Marks, file: Option<string>, bodies: seq<string>)
    requires Proper(m) && WellMarked(m, file) && bodies != [] && forall b | b in bodies :: MarkerFree(m, b)
    ensures
      var (pre, post) := Outside(m, file);
      InjectAll(m, file, bodies) == Some(pre + Block(m, bodies[|bodies| - 1]) + post)
        == Some(Inject(m, file, bodies[|bodies| - 1]))
  {
    var init, last := bodies[..|bodies| - 1], bodies[|bodies| - 1];
    OutsideIsSafe(m, file);
    if init != [] {
      assert forall b | b in init :: b in bodies;
      AnyNumberOfRuns(m, file, init);
      assert init[|init| - 1] in bodies;
      Replaces(m, file, init[|init| - 1], last);
    }
  }

  lemma PrefixIndex(s: string, more: string, pat: string)
    requires Contains(s, pat)
    ensures IndexOf(s + more, pat) == IndexOf(s, pat)
  {
    var t, i := s + more, IndexOf(s, pat);
    Carry(s, t, pat, i, 0);
    forall k | 0 <= k < i ensures !IsAt(t, pat, k) {
      if IsAt(t, pat, k) { Carry(t, s, pat, k, 0); }
    }
    IndexIs(t, pat, i);
  }

  /** Whatever is appended, a begin marker that was there stays the first one. */
  lemma UnclosedBegin(m: Marks, s: string, more: string)
    requires Contains(s, m.begin)
    ensures IndexOf(Terminated(s) + "\n" + more, m.begin) == IndexOf(s, m.begin)
  {
    var rest := (if HasSuffix(s, "\n") then "" else "\n") + "\n" + more;
    assert Terminated(s) + "\n" + more == s + rest;
    PrefixIndex(s, rest, m.begin);
  }

  /** In a file with no end marker, the appended section brings the first one. */
  lemma UnclosedEnd(m: Marks, s: string, body: string)
    requires Proper(m) && !Contains(s, m.end) && !Contains(body, m.end)
    ensures
      var pre := Terminated(s) + "\n";
      IndexOf(pre + Block(m, body) + "\n", m.end) == |pre| + |Block(m, body)| - |m.end|
  {
    var pre := Terminated(s) + "\n";
    forall k | 0 <= k < |pre| ensures !IsAt(pre + m.begin, m.end, k) {
      Appended(s, m.begin, m.end, k);
    }
    EndIndex(m, pre, body, "\n");
  }

  /** A begin marker without an end: the second run swallows everything from that marker on. */
  lemma UnclosedLosesText(m: Marks, s: string, b1: string, b2: string)
    requires Proper(m) && Contains(s, m.begin) && !Contains(s, m.end) && MarkerFree(m, b1)
    ensures Inject(m, Some(Inject(m, Some(s), b1)), b2) == s[..IndexOf(s, m.begin)] + Block(m, b2) + "\n"
  {
    hide IndexFrom;
    hide Proper;
    var i, pre := IndexOf(s, m.begin), Terminated(s) + "\n";
    var t := pre + Block(m, b1) + "\n";
    UnclosedBegin(m, s, Block(m, b1) + "\n");
    UnclosedEnd(m, s, b1);
    assert t == pre + (Block(m, b1) + "\n");
    assert t[|pre| + |Block(m, b1)|..] == "\n" && t[..i] == s[..i];
  }

  /** An end marker comes first. */
  predicate Stray(m: Marks, s: string) {
    Contains(s, m.end) && (!Contains(s, m.begin) || IndexOf(s, m.end) < IndexOf(s, m.begin))
  }

  /** A run that finds no section to replace adds one. */
  function Added(m: Marks, s: string, body: string): string {
    Terminated(s) + "\n" + Block(m, body) + "\n"
  }

  lemma StrayStays(m: Marks, s: string, body: string)
    requires Proper(m) && Stray(m, s)
    ensures Inject(m, Some(s), body) == Added(m, s, body) && Stray(m, Added(m, s, body))
  {
    hide IndexFrom;
    var j, pre := IndexOf(s, m.end), Terminated(s) + "\n";
    var t := Added(m, s, body);
    assert t == pre + (Block(m, body) + "\n");
    Carry(s, t, m.end, j, 0);
    forall k | 0 <= k <= j ensures !IsAt(t, m.begin, k) {
      Appended(s, Block(m, body) + "\n", m.begin, k);
    }
  }

  function AddedAll(m: Marks, s: string, bodies: seq<string>): string {
    if bodies == [] then s else Added(m, AddedAll(m, s, bodies[..|bodies| - 1]), bodies[|bodies| - 1])
  }

  /** With an end marker first, every one of any number of runs adds one more section. */
  lemma {:induction false} StrayEndGrows(m: Marks, s: string, bodies: seq<string>)
    requires Proper(m) && Stray(m, s)
    ensures InjectAll(m, Some(s), bodies) == Some(AddedAll(m, s, bodies)) && Stray(m, AddedAll(m, s, bodies))
    ensures |AddedAll(m, s, bodies)| >= |s| + |bodies|
  {
    hide Stray;
    hide Proper;
    if bodies != [] {
      var init := bodies[..|bodies| - 1];
      StrayEndGrows(m, s, init);
      StrayStays(m, AddedAll(m, s, init), bodies[|bodies| - 1]);
    }
  }

  /** Injecting twice equals injecting the second body alone exactly on well-marked files. */
  lemma LastBodyWinsIff(file: Option<string>, b1: string, b2: string)
    requires MarkerFree(ORCINUS, b1) && MarkerFree(ORCINUS, b2)
    ensures Inject(ORCINUS, Some(Inject(ORCINUS, file, b1)), b2) == Inject(ORCINUS, file, b2) <==>
        WellMarked(ORCINUS, file)
  {
    OrcinusIsProper();
    LastBodyWinsFor(ORCINUS, file, b1, b2);
  }

  lemma LastBodyWinsFor(m: Marks, file: Option<string>, b1: string, b2: string)
    requires Proper(m) && MarkerFree(m, b1)
    requires |m.end| <= |m.begin|
    ensures Inject(m, Some(Inject(m, file, b1)), b2) == Inject(m, file, b2) <==> WellMarked(m, file)
  {
    if WellMarked(m, file) {
      Replaces(m, file, b1, b2);
      OutsideIsSafe(m, file);
    } else {
      var s := file.value;
      var i, j := IndexOf(s, m.begin), IndexOf(s, m.end);
      if j < 0 {
        UnclosedLosesText(m, s, b1, b2);
        assert |Inject(m, file, b2)| == |Terminated(s)| + 2 + |Block(m, b2)|;
      } else {
        if i == j { Carry(s, m.begin, m.end, i, -i); }
        StrayStays(m, s, b1);
        StrayStays(m, s, b2);
        StrayStays(m, Added(m, s, b1), b2);
      }
    }
  }
}
