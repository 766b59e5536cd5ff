/** Runtime versions, the tags that spell them, and the steps of an upgrade. */
module Versions {
  import opened Common
  import opened Text

  /******* Reading a version *******/

  datatype Version = Version(minor: int, patch: int)

  predicate Newer(a: Version, b: Version) {
    a.minor > b.minor || (a.minor == b.minor && a.patch > b.patch)
  }

  /** An optionally signed decimal number at the front of a text, and what follows it. */
  function ScanInt(s: string): Option<(int, string)> {
    var signed := s != [] && (s[0] == '-' || s[0] == '+');
    var body := if signed then s[1..] else s;
    var k := DigitRun(body);
    if k == 0 then None
    else
      var n: int := Number(body[..k]);
      Some((if signed && s[0] == '-' then -n else n, body[k..]))
  }

  /** The pattern "v1.%d.%d", anything after it ignored. */
  function MinorPatch(v: string): Option<Version> {
    if !HasPrefix(v, "v1.") then None
    else
      match ScanInt(v[3..])
      case None => None
      case Some((minor, rest)) =>
        if rest == [] || rest[0] != '.' then None
        else
          match ScanInt(rest[1..])
          case None => None
          case Some((patch, _)) => Some(Version(minor, patch))
  }

  /******* Steps *******/

  /** One entry of the upgrade path: its text, and the version that text reads as. */
  datatype Release = Release(text: string, version: Version)

  predicate Readable(path: seq<Release>) {
    forall i | 0 <= i < |path| :: MinorPatch(path[i].text) == Some(path[i].version)
  }

  datatype Steps = Steps(releases: seq<Release>) | Unreadable | TooOld

  function Remaining(path: seq<Release>, cur: Version): seq<Release> {
    if path == [] then []
    else
      var v := path[|path| - 1];
      Remaining(path[..|path| - 1], cur) + if Newer(v.version, cur) then [v] else []
  }

  function StepsFrom(path: seq<Release>, cur: Version): Steps
    requires path != []
  {
    if cur.minor < path[0].version.minor - 1 then TooOld else Steps(Remaining(path, cur))
  }

  function UpgradeSteps(path: seq<Release>, cur: string): Steps
    requires path != []
  {
    match MinorPatch(cur)
    case None => Unreadable
    case Some(c) => StepsFrom(path, c)
  }

  method ComputeSteps(path: seq<Release>, cur: string) returns (r: Steps)
    requires path != [] && Readable(path)
    ensures r == UpgradeSteps(path, cur)
  {
    var c := MinorPatch(cur);
    if c.None? { return Unreadable; }
    if c.value.minor < MinorPatch(path[0].text).value.minor - 1 { return TooOld; }
    var steps := [];
    for i := 0 to |path|
      invariant steps == Remaining(path[..i], c.value)
    {
      assert path[..i + 1][..i] == path[..i];
      if Newer(MinorPatch(path[i].text).value, c.value) {
        steps := steps + [path[i]];
      }
    }
    assert path[..|path|] == path;
    return Steps(steps);
  }

  /** One release per minor, each one minor after the last. */
  ghost predicate Climbs(path: seq<Release>) {
    path != [] && forall i | 0 <= i < |path| :: path[i].version.minor == path[0].version.minor + i
  }

  function Target(path: seq<Release>): Release
    requires path != []
  {
    path[|path| - 1]
  }

  /** A release of a later minor than one that is newer is newer too. */
  lemma LaterMinor(a: Version, b: Version, cur: Version)
    requires a.minor < b.minor && Newer(a, cur)
    ensures Newer(b, cur)
  {
  }

  /** The filter keeps a suffix: once one entry is ahead, all later ones are. */
  lemma {:induction false} RemainingIsSuffix(path: seq<Release>, cur: Version) returns (k: nat)
    requires path == [] || Climbs(path)
    ensures k <= |path| && Remaining(path, cur) == path[k..]
    ensures forall i | 0 <= i < k :: !Newer(path[i].version, cur)
    ensures forall i | k <= i < |path| :: Newer(path[i].version, cur)
  {
    hide Newer;
    if path == [] {
      k := 0;
    } else {
      var init, v := path[..|path| - 1], path[|path| - 1];
      assert forall i | 0 <= i < |init| :: init[i] == path[i];
      k := RemainingIsSuffix(init, cur);
      var rest := init[k..];
      if k < |init| {
        assert init[k] == path[k] && path[k].version.minor < v.version.minor;
        LaterMinor(path[k].version, v.version, cur);
      }
      if Newer(v.version, cur) {
        assert path[k..] == rest + [v];
      } else {
        assert rest == [] && path[|path|..] == [];
        k := |path|;
      }
    }
  }

  /** The version reached before the i-th step. */
  ghost function Reached(steps: seq<Release>, cur: Version, i: nat): Version
    requires i <= |steps|
  {
    if i == 0 then cur else steps[i - 1].version
  }

  /** Each step is newer than the one before it, and at most one minor above it. */
  ghost predicate Gradual(steps: seq<Release>, cur: Version) {
    forall i | 0 <= i < |steps| ::
      var before := Reached(steps, cur, i);
      Newer(steps[i].version, before) && steps[i].version.minor <= before.minor + 1
  }

  /** Of a later minor, or of the same minor and no older patch. */
  ghost predicate AtOrPast(a: Version, b: Version) {
    a.minor > b.minor || (a.minor == b.minor && a.patch >= b.patch)
  }

  /**
   From a supported version the steps are a suffix of the path, each newer than the
   one before and at most one minor above it, ending at the path's last release;
   there are none exactly when the current version is at or past that.
   */
  lemma StepsClimb(path: seq<Release>, cur: Version)
    requires Climbs(path) && StepsFrom(path, cur).Steps?
    ensures
      var steps := StepsFrom(path, cur).releases;
      && (exists k :: 0 <= k <= |path| && steps == path[k..])
      && Gradual(steps, cur)
      && (steps == [] <==> AtOrPast(cur, Target(path).version))
      && (steps != [] ==> steps[|steps| - 1] == Target(path))
  {
    var steps := StepsFrom(path, cur).releases;
    var k := RemainingIsSuffix(path, cur);
    forall i | 0 <= i < |steps|
      ensures
        var before := Reached(steps, cur, i);
        Newer(steps[i].version, before) && steps[i].version.minor <= before.minor + 1
    {
      assert steps[i] == path[k + i] && Newer(path[k + i].version, cur);
      if i > 0 {
        assert steps[i - 1] == path[k + i - 1];
        assert path[k + i].version.minor == path[k + i - 1].version.minor + 1;
      } else if k > 0 {
        assert !Newer(path[k - 1].version, cur);
        assert path[k].version.minor == path[k - 1].version.minor + 1;
      }
    }
  }

  lemma GradualFirst(steps: seq<Release>, cur: Version)
    requires steps != [] && Gradual(steps, cur)
    ensures Newer(steps[0].version, cur) && steps[0].version.minor <= cur.minor + 1
  {
  }

  /**
   A version is supported if and only if some stretch at the end of the path leads from it to the target
   in gradual steps; the empty stretch will do only for a version at or past the target.
   */
  lemma SupportedIff(path: seq<Release>, cur: Version)
    requires Climbs(path)
    ensures StepsFrom(path, cur).Steps? <==>
            exists k | 0 <= k <= |path| ::
              Gradual(path[k..], cur) && (path[k..] == [] ==> AtOrPast(cur, Target(path).version))
  {
    if StepsFrom(path, cur).Steps? {
      StepsClimb(path, cur);
    } else {
      forall k | 0 <= k <= |path| && Gradual(path[k..], cur) ensures path[k..] == [] && Newer(Target(path).version, cur) {
        assert Target(path).version.minor >= path[0].version.minor;
        if k < |path| {
          GradualFirst(path[k..], cur);
        }
      }
    }
  }

  lemma ScanDecimal(n: nat, rest: string)
    requires rest == [] || !IsDigit(rest[0])
    ensures ScanInt(Decimal(n) + rest) == Some((n, rest))
  {
    var d := Decimal(n);
    var s := d + rest;
    DigitRunIs(d, rest);
    NumberOfDecimal(n);
    assert s[0] == d[0] && IsDigit(d[0]);
    assert s[..|d|] == d && s[|d|..] == rest;
  }

  /** A release as orcinus writes it: "v1.<minor>.<patch>" and a suffix that does not continue the number. */
  function ReleaseText(minor: nat, patch: nat, suffix: string): string {
    "v1." + (Decimal(minor) + ("." + (Decimal(patch) + suffix)))
  }

  /** Such a text reads as exactly its minor and patch. */
  lemma ReadsRelease(minor: nat, patch: nat, suffix: string)
    requires suffix == [] || !IsDigit(suffix[0])
    ensures MinorPatch(ReleaseText(minor, patch, suffix)) == Some(Version(minor, patch))
  {
    var tail := Decimal(patch) + suffix;
    var v := ReleaseText(minor, patch, suffix);
    assert v[..3] == "v1." && v[3..] == Decimal(minor) + ("." + tail);
    ScanDecimal(minor, "." + tail);
    assert ("." + tail)[1..] == tail;
    ScanDecimal(patch, suffix);
  }

  /** An optionally signed decimal number. */
  ghost predicate Spells(s: string, n: int) {
    exists digits :: Signed(s, digits, n)
  }

  ghost predicate Signed(s: string, digits: string, n: int) {
    && digits != [] && AllDigits(digits)
    && (|| (s == digits && n == Number(digits))
        || (s == ['+'] + digits && n == Number(digits))
        || (s == ['-'] + digits && n == -(Number(digits) as int)))
  }

  lemma ScanParts(s: string, n: int, rest: string) returns (digits: string)
    requires ScanInt(s) == Some((n, rest))
    ensures s != [] && digits != [] && AllDigits(digits) && (rest == [] || !IsDigit(rest[0]))
    ensures
      var signed := s[0] == '-' || s[0] == '+';
      && (if signed then s[1..] else s) == digits + rest
      && n == if s[0] == '-' then -(Number(digits) as int) else Number(digits)
  {
    hide Number;
    var body := if s[0] == '-' || s[0] == '+' then s[1..] else s;
    digits := body[..DigitRun(body)];
  }

  /** A scan ends after the digits of a number. */
  lemma ScanFinds(s: string, n: int, rest: string) returns (number: string)
    requires ScanInt(s) == Some((n, rest))
    ensures Spells(number, n) && s == number + rest && (rest == [] || !IsDigit(rest[0]))
  {
    hide Number;
    hide ScanInt;
    var digits := ScanParts(s, n, rest);
    if s[0] == '-' || s[0] == '+' {
      number := [s[0]] + digits;
      assert s == [s[0]] + s[1..];
    } else {
      number := digits;
    }
    assert Signed(number, digits, n);
  }

  lemma BodyEnds(digits: string, rest: string)
    requires AllDigits(digits) && (rest == [] || !IsDigit(rest[0]))
    ensures var body := digits + rest;
            DigitRun(body) == |digits| && body[..|digits|] == digits && body[|digits|..] == rest
  {
    DigitRunIs(digits, rest);
  }

  lemma ScanReads(number: string, n: int, rest: string)
    requires Spells(number, n) && (rest == [] || !IsDigit(rest[0]))
    ensures ScanInt(number + rest) == Some((n, rest))
  {
    hide Number;
    hide DigitRun;
    var digits :| Signed(number, digits, n);
    BodyEnds(digits, rest);
    var s := number + rest;
    if number == digits {
      assert s[0] == digits[0] && IsDigit(digits[0]);
    } else {
      assert s[0] == number[0] && number[1..] == digits && s[1..] == digits + rest;
    }
  }

  /** What reads as a version: "v1.", a number, a ".", another number, and anything that is not a digit after it. */
  ghost predicate Reads(v: string, version: Version) {
    exists minor, patch, rest :: ReadsAs(v, version, minor, patch, rest)
  }

  ghost predicate ReadsAs(v: string, version: Version, minor: string, patch: string, rest: string) {
    && Spells(minor, version.minor) && Spells(patch, version.patch)
    && v == "v1." + minor + "." + patch + rest && (rest == "" || !IsDigit(rest[0]))
  }

  lemma ReadsIff(v: string, version: Version)
    ensures MinorPatch(v) == Some(version) <==> Reads(v, version)
  {
    hide ReadsAs;
    if MinorPatch(v) == Some(version) {
      ReadsOne(v, version);
    }
    forall minor, patch, rest | ReadsAs(v, version, minor, patch, rest) ensures MinorPatch(v) == Some(version) {
      ReadsBoth(v, version, minor, patch, rest);
    }
  }

  lemma ReadsOne(v: string, version: Version)
    requires MinorPatch(v) == Some(version)
    ensures Reads(v, version)
  {
    hide ScanInt;
    hide Spells;
    var (_, rest) := ScanInt(v[3..]).value;
    var (_, tail) := ScanInt(rest[1..]).value;
    var minor := ScanFinds(v[3..], version.minor, rest);
    var patch := ScanFinds(rest[1..], version.patch, tail);
    assert v == v[..3] + v[3..] && rest == rest[..1] + rest[1..];
    assert v == "v1." + minor + "." + patch + tail;
    assert ReadsAs(v, version, minor, patch, tail);
  }

  lemma ReadsBoth(v: string, version: Version, minor: string, patch: string, tail: string)
    requires ReadsAs(v, version, minor, patch, tail)
    ensures MinorPatch(v) == Some(version)
  {
    hide ScanInt;
    hide Spells;
    var rest := "." + (patch + tail);
    Regroup("v1.", minor, ".", patch, tail);
    assert v == "v1." + (minor + rest);
    assert v[..3] == "v1." && v[3..] == minor + rest && rest[1..] == patch + tail;
    ScanReads(minor, version.minor, rest);
    ScanReads(patch, version.patch, tail);
  }

  /** A release text with a "+k3s" suffix survives the trip through its image tag. */
  lemma SpellsRelease(minor: nat, patch: nat, rest: string)
    ensures ReleaseSpelling(ReleaseText(minor, patch, "+k3s" + rest))
  {
    var front := "v1." + Decimal(minor) + "." + Decimal(patch);
    var v := front + ("+k3s" + rest);
    Regroup("v1.", Decimal(minor), ".", Decimal(patch), "+k3s" + rest);
    assert '+' !in front && '-' !in front by {
      assert forall i | 0 <= i < |Decimal(minor)| :: IsDigit(Decimal(minor)[i]);
      assert forall i | 0 <= i < |Decimal(patch)| :: IsDigit(Decimal(patch)[i]);
    }
    var i := |front|;
    assert v[i..i + 1] == "+" && v[i..i + 4] == "+k3s";
    forall j | 0 <= j < i ensures !IsAt(v, "+", j) && !IsAt(v, "-k3s", j) {
      assert v[j] == front[j];
      assert j + 1 <= |v| && v[j..j + 1][0] == v[j];
      Stretch(v, "-k3s", j);
    }
    IndexIs(v, "+", i);
  }

  /******* The path orcinus ships *******/

  const UPGRADE_PATH: seq<Release> := [
    Release("v1.32.13+k3s1", Version(32, 13)),
    Release("v1.33.13+k3s2", Version(33, 13)),
    Release("v1.34.12+k3s1", Version(34, 12)),
    Release("v1.35.9+k3s1", Version(35, 9)),
    Release("v1.36.5+k3s1", Version(36, 5))
  ]

  lemma TwoDigits(n: nat)
    requires 10 <= n < 100
    ensures Decimal(n) == [Digit(n / 10), Digit(n % 10)]
  {
  }

  /** Digits as the path writes them: two for the minor, one or two for the patch. */
  function ShortDecimal(n: nat): string
    requires n < 100
  {
    if n < 10 then [Digit(n)] else [Digit(n / 10), Digit(n % 10)]
  }

  lemma ShippedText(minor: nat, patch: nat, rest: string, text: string)
    requires minor < 100 && patch < 100
    requires text == "v1." + ShortDecimal(minor) + "." + ShortDecimal(patch) + ("+k3s" + rest)
    ensures MinorPatch(text) == Some(Version(minor, patch)) && ReleaseSpelling(text)
  {
    if minor >= 10 { TwoDigits(minor); }
    if patch >= 10 { TwoDigits(patch); }
    Regroup("v1.", ShortDecimal(minor), ".", ShortDecimal(patch), "+k3s" + rest);
    ReadsRelease(minor, patch, "+k3s" + rest);
    SpellsRelease(minor, patch, rest);
  }

  lemma Regroup(a: string, b: string, c: string, d: string, e: string)
    ensures a + b + c + d + e == a + (b + (c + (d + e)))
  {
  }

  lemma Shipped32() ensures MinorPatch("v1.32.13+k3s1") == Some(Version(32, 13)) && ReleaseSpelling("v1.32.13+k3s1") {
    ShippedText(32, 13, "1", "v1.32.13+k3s1");
  }

  lemma Shipped33() ensures MinorPatch("v1.33.13+k3s2") == Some(Version(33, 13)) && ReleaseSpelling("v1.33.13+k3s2") {
    ShippedText(33, 13, "2", "v1.33.13+k3s2");
  }

  lemma Shipped34() ensures MinorPatch("v1.34.12+k3s1") == Some(Version(34, 12)) && ReleaseSpelling("v1.34.12+k3s1") {
    ShippedText(34, 12, "1", "v1.34.12+k3s1");
  }

  lemma Shipped35() ensures MinorPatch("v1.35.9+k3s1") == Some(Version(35, 9)) && ReleaseSpelling("v1.35.9+k3s1") {
    ShippedText(35, 9, "1", "v1.35.9+k3s1");
  }

  lemma Shipped36() ensures MinorPatch("v1.36.5+k3s1") == Some(Version(36, 5)) && ReleaseSpelling("v1.36.5+k3s1") {
    ShippedText(36, 5, "1", "v1.36.5+k3s1");
  }

  /** A release after those shipped. */
  const LATER := Release("v1.37.0+k3s1", Version(37, 0))

  lemma LaterReads()
    ensures MinorPatch(LATER.text) == Some(LATER.version) && ReleaseSpelling(LATER.text)
  {
    ShippedText(37, 0, "1", LATER.text);
  }

  lemma ShippedEntry(i: nat)
    requires i < |UPGRADE_PATH|
    ensures MinorPatch(UPGRADE_PATH[i].text) == Some(UPGRADE_PATH[i].version) && ReleaseSpelling(UPGRADE_PATH[i].text)
  {
    if i == 0 { Shipped32(); }
    else if i == 1 { Shipped33(); }
    else if i == 2 { Shipped34(); }
    else if i == 3 { Shipped35(); }
    else { Shipped36(); }
  }

  lemma ShippedPathClimbs()
    ensures Climbs(UPGRADE_PATH)
  {
  }

  /** Every entry of the shipped path reads as the version written beside it, one minor after the other. */
  lemma ShippedPathReads()
    ensures Readable(UPGRADE_PATH) && Climbs(UPGRADE_PATH)
  {
    ShippedPathClimbs();
    forall i | 0 <= i < |UPGRADE_PATH| ensures MinorPatch(UPGRADE_PATH[i].text) == Some(UPGRADE_PATH[i].version) {
      ShippedEntry(i);
    }
  }

  /******* Tags *******/

  function DockerTag(v: string): string {
    ReplaceFirst(v, "+", "-")
  }

  function FromDockerTag(t: string): string {
    ReplaceFirst(t, "-k3s", "+k3s")
  }

  /** A "+" that starts the suffix "+k3s", with no "-k3s" before it; or neither mark at all. */
  predicate ReleaseSpelling(v: string) {
    var i := IndexOf(v, "+");
    if i < 0 then !Contains(v, "-k3s")
    else IsAt(v, "+k3s", i) && forall j | 0 <= j < i :: !IsAt(v, "-k3s", j)
  }

  /** Spelling a version as a tag and reading it back is the identity on exactly these. */
  lemma TagRoundTripIff(v: string)
    ensures FromDockerTag(DockerTag(v)) == v <==> ReleaseSpelling(v)
  {
    var i := IndexOf(v, "+");
    var t := DockerTag(v);
    var j := IndexOf(t, "-k3s");
    if i < 0 {
      if j >= 0 {
        assert FromDockerTag(t)[j] == '+';
        assert v[j] == v[j..j + 4][0] == '-';
      }
    } else {
      PlusAt(v, i);
      assert |t| == |v| && t[i] == '-' && forall k | 0 <= k < |v| && k != i :: t[k] == v[k];
      TagIndex(v, t, i);
      if j == i {
        DashBack(v, t, i);
      } else if j < 0 {
        assert FromDockerTag(t)[i] == '-';
      } else {
        KeepsDash(t, i, j);
      }
    }
  }

  lemma DashBack(v: string, t: string, i: nat)
    requires i < |v| == |t| && IsAt(v, "+k3s", i) && IndexOf(t, "-k3s") == i
    requires forall k | 0 <= k < |v| && k != i :: t[k] == v[k]
    ensures FromDockerTag(t) == v
  {
    assert t[..i] == v[..i] && t[i + 4..] == v[i + 4..];
    assert v == v[..i] + v[i..i + 4] + v[i + 4..];
  }

  lemma PlusAt(v: string, i: nat)
    requires IsAt(v, "+", i)
    ensures v[i] == '+'
  {
    assert v[i..i + 1][0] == v[i];
  }

  /** The first "-k3s" of the tag is where the "+" was, exactly for a release spelling. */
  lemma TagIndex(v: string, t: string, i: nat)
    requires i < |v| == |t| && v[i] == '+' && t[i] == '-'
    requires forall k | 0 <= k < |v| && k != i :: t[k] == v[k]
    ensures IndexOf(t, "-k3s") == i <==> IsAt(v, "+k3s", i) && forall j | 0 <= j < i :: !IsAt(v, "-k3s", j)
  {
    forall j | 0 <= j < i ensures IsAt(t, "-k3s", j) <==> IsAt(v, "-k3s", j) {
      Stretch(t, "-k3s", j);
      Stretch(v, "-k3s", j);
    }
    Stretch(t, "-k3s", i);
    Stretch(v, "+k3s", i);
    if IsAt(t, "-k3s", i) && forall j | 0 <= j < i :: !IsAt(t, "-k3s", j) { IndexIs(t, "-k3s", i); }
  }

  lemma Stretch(s: string, pat: string, i: nat)
    requires |pat| == 4
    ensures IsAt(s, pat, i) <==>
        i + 4 <= |s| && s[i] == pat[0] && s[i + 1] == pat[1] && s[i + 2] == pat[2] && s[i + 3] == pat[3]
  {
    if i + 4 <= |s| {
      assert s[i..i + 4] == [s[i], s[i + 1], s[i + 2], s[i + 3]];
      assert pat == [pat[0], pat[1], pat[2], pat[3]];
    }
  }

  /** Replacing another occurrence leaves the dash at `i` alone. */
  lemma KeepsDash(t: string, i: nat, j: nat)
    requires i < |t| && t[i] == '-' && j != i && IndexOf(t, "-k3s") == j
    ensures |FromDockerTag(t)| == |t| && FromDockerTag(t)[i] == '-'
  {
    Stretch(t, "-k3s", j);
    var u := t[..j] + "+k3s" + t[j + |"-k3s"|..];
    assert FromDockerTag(t) == u;
    assert i < j ==> u[i] == t[i];
    assert i >= j + 4 ==> u[i] == t[i];
  }
}
