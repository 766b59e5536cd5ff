/** Choosing the revision to go back to, and what going back twice does. */
module Rollback {
  import opened Common

  datatype Template = Template(labels: map<string, string>, body: string)
  datatype Revision = Revision(number: int, template: Template)

  /** The newest revision below the current one, none being numbered under 0. */
  ghost predicate IsPrevious(r: Option<Revision>, revs: seq<Revision>, current: int) {
    match r
    case None => forall i | 0 <= i < |revs| :: revs[i].number < 0 || revs[i].number >= current
    case Some(b) =>
      && b in revs && 0 <= b.number < current
      && forall i | 0 <= i < |revs| && revs[i].number < current :: revs[i].number <= b.number
  }

  /** The one-pass scan over ReplicaSets. */
  method Scan(revs: seq<Revision>, current: int) returns (best: Option<Revision>)
    ensures IsPrevious(best, revs, current)
  {
    best := None;
    var bestNumber := -1;
    for i := 0 to |revs|
      invariant best.None? ==> bestNumber == -1
      invariant best.Some? ==> best.value.number == bestNumber && best.value in revs && 0 <= bestNumber < current
      invariant forall j | 0 <= j < i && revs[j].number < current :: revs[j].number <= bestNumber
    {
      if revs[i].number < current && revs[i].number > bestNumber {
        bestNumber, best := revs[i].number, Some(revs[i]);
      }
    }
  }

  /******* Sort and take the second *******/

  ghost predicate Descending(s: seq<Revision>) {
    forall i, j | 0 <= i < j < |s| :: s[i].number >= s[j].number
  }

  function Insert(x: Revision, s: seq<Revision>): seq<Revision> {
    if s == [] || s[0].number <= x.number then [x] + s else [s[0]] + Insert(x, s[1..])
  }

  /** `sort.Slice` by descending revision. */
  function Sorted(s: seq<Revision>): seq<Revision> {
    if s == [] then [] else Insert(s[|s| - 1], Sorted(s[..|s| - 1]))
  }

  lemma {:induction false} InsertPermutes(x: Revision, s: seq<Revision>)
    ensures multiset(Insert(x, s)) == multiset(s) + multiset{x}
  {
    if s != [] && s[0].number > x.number {
      InsertPermutes(x, s[1..]);
      assert s == [s[0]] + s[1..];
    }
  }

  lemma {:induction false} InsertMembers(x: Revision, s: seq<Revision>, i: nat)
    requires i < |Insert(x, s)|
    ensures Insert(x, s)[i] == x || Insert(x, s)[i] in s
  {
    if s != [] && s[0].number > x.number && i > 0 {
      InsertMembers(x, s[1..], i - 1);
    }
  }

  lemma {:induction false} InsertDescends(x: Revision, s: seq<Revision>)
    requires Descending(s)
    ensures Descending(Insert(x, s))
  {
    if s != [] && s[0].number > x.number {
      InsertDescends(x, s[1..]);
      var t := Insert(x, s[1..]);
      forall i | 0 <= i < |t| ensures t[i].number <= s[0].number {
        InsertMembers(x, s[1..], i);
      }
      assert Insert(x, s) == [s[0]] + t;
    }
  }

  lemma {:induction false} SortedSorts(s: seq<Revision>)
    ensures Descending(Sorted(s)) && multiset(Sorted(s)) == multiset(s)
  {
    hide Insert;
    if s != [] {
      var init, last := s[..|s| - 1], s[|s| - 1];
      SortedSorts(init);
      InsertDescends(last, Sorted(init));
      InsertPermutes(last, Sorted(init));
      assert s == init + [last];
    }
  }

  ghost predicate Numbered(revs: seq<Revision>) {
    && (forall i | 0 <= i < |revs| :: revs[i].number >= 0)
    && forall i, j | 0 <= i < j < |revs| :: revs[i].number != revs[j].number
  }

  ghost predicate Highest(revs: seq<Revision>, current: int) {
    && (exists i | 0 <= i < |revs| :: revs[i].number == current)
    && forall i | 0 <= i < |revs| :: revs[i].number <= current
  }

  lemma SortedMember(revs: seq<Revision>, r: Revision)
    ensures |Sorted(revs)| == |revs| && (r in Sorted(revs) <==> r in revs)
  {
    SortedSorts(revs);
    assert r in multiset(Sorted(revs)) <==> r in multiset(revs);
    assert |multiset(Sorted(revs))| == |multiset(revs)|;
  }

  function SecondNewest(revs: seq<Revision>): (r: Revision)
    requires |revs| >= 2
    ensures r in revs
  {
    SortedMember(revs, revs[0]);
    SortedMember(revs, Sorted(revs)[1]);
    Sorted(revs)[1]
  }

  /** Distinct numbers stay distinct when sorted. */
  lemma {:induction false} TwiceInMultiset(s: seq<Revision>, i: nat, j: nat)
    requires i < j < |s| && s[i] == s[j]
    ensures multiset(s)[s[i]] >= 2
  {
    assert s == s[..j] + [s[j]] + s[j + 1..];
    assert s[i] in multiset(s[..j]);
  }

  lemma {:induction false} NumberedOnce(revs: seq<Revision>, r: Revision)
    requires Numbered(revs)
    ensures multiset(revs)[r] <= 1
  {
    if revs != [] {
      var n := |revs| - 1;
      NumberedOnce(revs[..n], r);
      assert revs == revs[..n] + [revs[n]];
      assert forall i | 0 <= i < n :: revs[..n][i] == revs[i];
    }
  }

  /**
   With distinct revisions and the current one highest, the scan and the sort choose alike; both
   fail when there is only one.
   */
  lemma SameChoice(revs: seq<Revision>, current: int, r: Option<Revision>)
    requires Numbered(revs) && Highest(revs, current)
    ensures IsPrevious(r, revs, current) <==> r == if |revs| < 2 then None else Some(SecondNewest(revs))
  {
    hide SecondNewest;
    if |revs| >= 2 {
      Second(revs, current);
      var b := SecondNewest(revs);
      if IsPrevious(r, revs, current) {
        var i :| 0 <= i < |revs| && revs[i] == b;
        assert r.Some?;
        OnlyOne(revs, current, r.value, b);
      }
    } else {
      assert |revs| == 1 && revs[0].number == current;
    }
  }

  lemma Second(revs: seq<Revision>, current: int)
    requires Numbered(revs) && Highest(revs, current) && |revs| >= 2
    ensures IsPrevious(Some(SecondNewest(revs)), revs, current)
  {
    hide Sorted;
    var s := Sorted(revs);
    SortedSorts(revs);
    SortedMember(revs, revs[0]);
    var a, b := s[0], s[1];
    SortedMember(revs, a);
    SortedMember(revs, b);
    var ia :| 0 <= ia < |revs| && revs[ia] == a;
    var ib :| 0 <= ib < |revs| && revs[ib] == b;
    assert ia != ib by {
      if a == b {
        TwiceInMultiset(s, 0, 1);
        NumberedOnce(revs, a);
      }
    }
    forall i | 0 <= i < |revs| ensures revs[i] == a || revs[i].number <= b.number {
      SortedMember(revs, revs[i]);
      var j :| 0 <= j < |s| && s[j] == revs[i];
    }
    var top :| 0 <= top < |revs| && revs[top].number == current;
    SortedMember(revs, revs[top]);
  }

  lemma OnlyOne(revs: seq<Revision>, current: int, r: Revision, b: Revision)
    requires Numbered(revs) && IsPrevious(Some(r), revs, current) && IsPrevious(Some(b), revs, current)
    ensures r == b
  {
  }

  /******* Going back, and back again *******/

  /** A workload, with the revisions its controller keeps of it. */
  datatype Workload = Workload(template: Template, current: int, revs: seq<Revision>)

  /** The controller's copy carries a hash label that the workload's own template does not have. */
  function Stripped(t: Template, hash: string): Template {
    t.(labels := t.labels - {hash})
  }

  /** The revision's own template: its hash label gone, every other label and the rest as the revision has it. */
  ghost predicate Unhashed(t: Template, kept: Template, hash: string) {
    && hash !in t.labels && t.body == kept.body
    && forall k | k != hash :: Get(t.labels, k) == Get(kept.labels, k)
  }

  lemma StrippedIs(t: Template, hash: string)
    ensures Unhashed(Stripped(t, hash), t, hash)
  {
  }

  ghost predicate Consistent(w: Workload, hash: string) {
    && Numbered(w.revs) && Highest(w.revs, w.current)
    && forall i | 0 <= i < |w.revs| && w.revs[i].number == w.current :: Stripped(w.revs[i].template, hash) == w.template
  }

  function IndexOf(revs: seq<Revision>, r: Revision): (k: nat)
    requires r in revs
    ensures k < |revs| && revs[k] == r
  {
    if revs[0] == r then 0 else 1 + IndexOf(revs[1..], r)
  }

  /** The chosen template is written back, and the controller stamps its revision as the newest. */
  function RolledBack(w: Workload, hash: string): Option<Workload> {
    if |w.revs| < 2 then None
    else
      var r := SecondNewest(w.revs);
      Some(Workload(Stripped(r.template, hash), w.current + 1,
                    w.revs[IndexOf(w.revs, r) := Revision(w.current + 1, r.template)]))
  }

  /** After going back, the revision one was at is the previous one. */
  lemma BackStep(w: Workload, hash: string)
    requires Consistent(w, hash) && |w.revs| >= 2
    ensures var t := RolledBack(w, hash).value;
            && Consistent(t, hash) && |t.revs| == |w.revs|
            && Stripped(SecondNewest(t.revs).template, hash) == w.template
            && t.template == Stripped(SecondNewest(w.revs).template, hash)
            && Unhashed(t.template, SecondNewest(w.revs).template, hash)
  {
    hide SecondNewest;
    hide Stripped;
    StrippedIs(SecondNewest(w.revs).template, hash);
    var t := RolledBack(w, hash).value;
    Second(w.revs, w.current);
    var r := SecondNewest(w.revs);
    var k := IndexOf(w.revs, r);
    var top :| 0 <= top < |w.revs| && w.revs[top].number == w.current;
    assert t.revs[k].number == t.current && t.revs[top] == w.revs[top];
    assert Numbered(t.revs) && Highest(t.revs, t.current);
    assert IsPrevious(Some(t.revs[top]), t.revs, t.current);
    Second(t.revs, t.current);
    OnlyOne(t.revs, t.current, SecondNewest(t.revs), t.revs[top]);
  }

  function Times(w: Workload, hash: string, n: nat): Option<Workload> {
    if n == 0 then Some(w)
    else
      match Times(w, hash, n - 1)
      case None => None
      case Some(t) => RolledBack(t, hash)
  }

  /** Any number of rollbacks alternates between the two newest templates; an even number restores the first. */
  lemma {:induction false} Alternates(w: Workload, hash: string, n: nat)
    requires Consistent(w, hash) && |w.revs| >= 2
    ensures var t := Times(w, hash, n);
            && t.Some? && Consistent(t.value, hash) && |t.value.revs| == |w.revs|
            && (n % 2 == 0 ==> t.value.template == w.template
                               && Stripped(SecondNewest(t.value.revs).template, hash)
                                   == Stripped(SecondNewest(w.revs).template, hash))
            && (n % 2 == 1 ==> t.value.template == Stripped(SecondNewest(w.revs).template, hash)
                               && Stripped(SecondNewest(t.value.revs).template, hash) == w.template)
  {
    hide SecondNewest;
    hide Stripped;
    hide Consistent;
    hide RolledBack;
    if n > 0 {
      Alternates(w, hash, n - 1);
      var t := Times(w, hash, n - 1).value;
      BackAlways(t, hash);
      BackStep(t, hash);
    }
  }

  lemma BackAlways(w: Workload, hash: string)
    requires |w.revs| >= 2
    ensures RolledBack(w, hash).Some?
  {
  }
}
