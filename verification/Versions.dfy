/**
 Comparing dotted versions of any length, and the oldest version an in-place
 update may start from.

 `ToInt` stands for the host language's conversion of a text to a number.
 */
module Versions {
  import opened Options
  import opened Text

  type Version = v: seq<nat> | v != [] witness [0]
  type ToInt = string -> Option<int>

  const BASELINE: Version := [1, 3, 11]
  const BASELINE_SEQUENCE: int := 1212

  // ---------------------------------------------------------------- comparison

  function PadTo(v: seq<nat>, width: nat): (r: seq<nat>)
    ensures |r| == if |v| < width then width else |v|
    decreases width - |v|
  {
    if |v| >= width then v else PadTo(v + [0], width)
  }

  /** Lexicographic order of two lists of the same length. */
  predicate ListLess(a: seq<nat>, b: seq<nat>)
    requires |a| == |b|
  {
    a != [] && (a[0] < b[0] || (a[0] == b[0] && ListLess(a[1..], b[1..])))
  }

  function Compare(a: Version, b: Version): int {
    var width := if |a| < |b| then |b| else |a|;
    var x, y := PadTo(a, width), PadTo(b, width);
    (if ListLess(y, x) then 1 else 0) - (if ListLess(x, y) then 1 else 0)
  }

  /** The numbers of a version, followed by zeros without end. */
  function Component(v: seq<nat>, i: nat): nat { if i < |v| then v[i] else 0 }

  /** The order meant: the first component that differs decides. */
  ghost predicate Older(a: seq<nat>, b: seq<nat>) {
    exists i: nat :: Component(a, i) < Component(b, i) && forall j: nat :: j < i ==> Component(a, j) == Component(b, j)
  }

  ghost predicate Same(a: seq<nat>, b: seq<nat>) {
    forall i: nat :: Component(a, i) == Component(b, i)
  }

  lemma {:induction false} PaddingIsZeros(v: seq<nat>, width: nat, i: nat)
    ensures Component(PadTo(v, width), i) == Component(v, i)
    decreases width - |v|
  {
    if |v| < width { PaddingIsZeros(v + [0], width, i); }
  }

  lemma PaddingKeepsOrder(a: seq<nat>, b: seq<nat>, m: nat, n: nat)
    ensures Older(PadTo(a, m), PadTo(b, n)) <==> Older(a, b)
    ensures Same(PadTo(a, m), PadTo(b, n)) <==> Same(a, b)
  {
    var x, y := PadTo(a, m), PadTo(b, n);
    forall i: nat ensures Component(x, i) == Component(a, i) && Component(y, i) == Component(b, i) {
      PaddingIsZeros(a, m, i);
      PaddingIsZeros(b, n, i);
    }
    hide PadTo, Component;
    if Older(x, y) {
      var i: nat :| Component(x, i) < Component(y, i) && forall j: nat :: j < i ==> Component(x, j) == Component(y, j);
      assert Component(a, i) < Component(b, i);
    }
    if Older(a, b) {
      var i: nat :| Component(a, i) < Component(b, i) && forall j: nat :: j < i ==> Component(a, j) == Component(b, j);
      assert Component(x, i) < Component(y, i);
    }
  }

  /** List order on lists of one length is the order by the first component that differs. */
  lemma {:induction false} ListLessIsOlder(a: seq<nat>, b: seq<nat>)
    requires |a| == |b|
    ensures ListLess(a, b) <==> Older(a, b)
    decreases |a|
  {
    if a != [] {
      ListLessIsOlder(a[1..], b[1..]);
      assert forall i: nat ::
        Component(a[1..], i) == Component(a, i + 1) && Component(b[1..], i) == Component(b, i + 1);
      if Older(a[1..], b[1..]) && a[0] == b[0] {
        var i: nat :| Component(a[1..], i) < Component(b[1..], i)
                      && forall j: nat :: j < i ==> Component(a[1..], j) == Component(b[1..], j);
        assert forall j: nat :: j < i + 1 ==> Component(a, j) == Component(b, j) by {
          forall j: nat | j < i + 1 ensures Component(a, j) == Component(b, j) {
            if j > 0 { assert Component(a[1..], j - 1) == Component(b[1..], j - 1); }
          }
        }
        assert Component(a, i + 1) < Component(b, i + 1);
      }
      if a[0] < b[0] {
        assert Component(a, 0) < Component(b, 0);
      }
      if Older(a, b) && a[0] >= b[0] {
        var i: nat :|
          Component(a, i) < Component(b, i) && forall j: nat :: j < i ==> Component(a, j) == Component(b, j);
        assert i > 0;
        assert Component(a, 0) == Component(b, 0);
        assert Component(a[1..], i - 1) < Component(b[1..], i - 1);
        assert forall j: nat :: j < i - 1 ==> Component(a[1..], j) == Component(b[1..], j);
      }
    }
  }

  lemma {:induction false} FirstDifference(a: seq<nat>, b: seq<nat>, n: nat)
    requires exists i: nat :: i < n && Component(a, i) != Component(b, i)
    ensures Older(a, b) || Older(b, a)
  {
    var i: nat :| i < n && Component(a, i) != Component(b, i);
    if forall j: nat :: j < i ==> Component(a, j) == Component(b, j) {
      assert Component(a, i) < Component(b, i) || Component(b, i) < Component(a, i);
    } else {
      FirstDifference(a, b, i);
    }
  }

  /** `Compare` decides the order meant: older, newer, or the same up to trailing zeros. */
  lemma CompareDecides(a: Version, b: Version)
    ensures Compare(a, b) == -1 <==> Older(a, b)
    ensures Compare(a, b) == 1 <==> Older(b, a)
    ensures Compare(a, b) == 0 <==> Same(a, b)
  {
    var width := if |a| < |b| then |b| else |a|;
    var x, y := PadTo(a, width), PadTo(b, width);
    ListLessIsOlder(x, y);
    ListLessIsOlder(y, x);
    PaddingKeepsOrder(a, b, width, width);
    PaddingKeepsOrder(b, a, width, width);
    NotBoth(a, b);
    if !Same(a, b) {
      var i: nat :| Component(a, i) != Component(b, i);
      FirstDifference(a, b, i + 1);
    }
    hide PadTo, ListLess, Older, Same;
  }

  lemma NotBoth(a: seq<nat>, b: seq<nat>)
    ensures !(Older(a, b) && Older(b, a)) && !(Older(a, b) && Same(a, b)) && !(Older(b, a) && Same(a, b))
  {
  }

  lemma OlderOrSameIsTransitive(a: seq<nat>, b: seq<nat>, c: seq<nat>)
    requires (Older(a, b) || Same(a, b)) && (Older(b, c) || Same(b, c))
    ensures Older(a, c) || Same(a, c)
  {
    if Older(a, b) {
      var i: nat :| Component(a, i) < Component(b, i) && forall j: nat :: j < i ==> Component(a, j) == Component(b, j);
      if Older(b, c) {
        var k: nat :|
          Component(b, k) < Component(c, k) && forall j: nat :: j < k ==> Component(b, j) == Component(c, j);
        var m := if i < k then i else k;
        assert Component(a, m) < Component(c, m);
      } else {
        assert Component(a, i) < Component(c, i);
      }
    } else if Older(b, c) {
      var k: nat :| Component(b, k) < Component(c, k) && forall j: nat :: j < k ==> Component(b, j) == Component(c, j);
      assert Component(a, k) < Component(c, k);
    }
  }

  lemma SameComparesSame(a: seq<nat>, b: seq<nat>, c: seq<nat>)
    ensures Same(a, b) ==> (Older(a, c) <==> Older(b, c)) && (Older(c, a) <==> Older(c, b))
  {
    if Same(a, b) {
      if Older(a, c) { OlderOrSameIsTransitive(b, a, c); NotBoth(a, c); }
    }
  }

  /** `Compare` is a total preorder: reflexive, antisymmetric in sign, transitive. */
  lemma TotalPreorder(a: Version, b: Version, c: Version)
    ensures Compare(a, a) == 0 && Compare(a, b) == -Compare(b, a)
    ensures Compare(a, b) >= 0 && Compare(b, c) >= 0 ==> Compare(a, c) >= 0
    ensures Compare(a, b) == 0 ==> Compare(a, c) == Compare(b, c)
  {
    CompareDecides(a, b);
    CompareDecides(b, a);
    CompareDecides(a, c);
    CompareDecides(b, c);
    CompareDecides(a, a);
    if Compare(a, b) >= 0 && Compare(b, c) >= 0 { OlderOrSameIsTransitive(c, b, a); }
    SameComparesSame(a, b, c);
    NotBoth(a, c);
    NotBoth(b, c);
    hide Compare;
  }

  /** `compare_versions` pads two local lists to one width and compares them. */
  method CompareLists(left: Version, right: Version) returns (r: int)
    ensures r == Compare(left, right)
    ensures r < 0 <==> Older(left, right)
    ensures r == 0 <==> Same(left, right)
  {
    CompareDecides(left, right);
    var a: seq<nat>, b: seq<nat> := left, right;
    var width := if |a| < |b| then |b| else |a|;
    while |a| < width
      invariant |a| <= width && PadTo(a, width) == PadTo(left, width)
      decreases width - |a|
    {
      a := a + [0];
    }
    while |b| < width
      invariant |b| <= width && PadTo(b, width) == PadTo(right, width)
      decreases width - |b|
    {
      b := b + [0];
    }
    var greater := ListLess(b, a);
    var less := ListLess(a, b);
    r := (if greater then 1 else 0) - (if less then 1 else 0);
  }

  // ---------------------------------------------------------------- reading versions

  function WithoutV(s: string): string {
    if s != "" && (s[0] == 'v' || s[0] == 'V') then WithoutV(s[1..]) else s
  }

  /** Blanks stripped, then leading `v`s. */
  function Clean(s: string): string { WithoutV(Strip(s)) }

  function Numbers(toInt: ToInt, parts: seq<string>): (r: Option<seq<nat>>)
    ensures r.Some? ==> |r.value| == |parts|
  {
    if parts == [] then Some([])
    else
      var rest := Numbers(toInt, parts[1..]);
      if rest.None? || toInt(parts[0]).None? || toInt(parts[0]).value < 0 then None
      else Some([toInt(parts[0]).value] + rest.value)
  }

  /** `_version_tuple`; `None` is its error. */
  function VersionOf(toInt: ToInt, text: string): Option<Version> {
    match Numbers(toInt, Split(Clean(text), '.'))
    case None => None
    case Some(v) => Some(v)
  }

  /** `compare_versions` on texts; `None` when either is not a version. */
  function CompareTexts(toInt: ToInt, left: string, right: string): Option<int> {
    var a, b := VersionOf(toInt, left), VersionOf(toInt, right);
    if a.None? || b.None? then None else Some(Compare(a.value, b.value))
  }

  // ---------------------------------------------------------------- the in-place update baseline

  datatype Policy = Policy(name: string, minimumLts: Option<(nat, nat)>, platformPreflight: bool)

  datatype Release = Release(
    version: string, status: string, releaseId: string, sequence: Option<int>, artifactType: string,
    installModes: seq<string>, updateAllowed: bool, minCurrent: string, maxCurrent: string, ubuntu: Option<Policy>)
  {
    predicate InPlace() { IN_PLACE in installModes }
  }

  const IN_PLACE := "in_place_update"
  const INSTALL_MODES := {"fresh_install", IN_PLACE}
  const KNOWN_STATUSES := {"stable", "supported", "deprecated", "blocked"}

  /** A release that is installed in place at or past the baseline names a minimum no older than it. */
  predicate BaselineOk(toInt: ToInt, r: Release) {
    r.InPlace() && r.sequence.Some? && r.sequence.value >= BASELINE_SEQUENCE ==>
      && Clean(r.minCurrent) != ""
      && VersionOf(toInt, Clean(r.minCurrent)).Some?
      && Compare(VersionOf(toInt, Clean(r.minCurrent)).value, BASELINE) >= 0
  }

  predicate PolicyOk(p: Policy) {
    p.name == "ubuntu-desktop-lts-minimum" && p.minimumLts.Some? && p.minimumLts.value.1 == 4 && p.platformPreflight
  }

  /** The catalog's checks of one release. */
  predicate ReleaseOk(toInt: ToInt, r: Release) {
    && VersionOf(toInt, Strip(r.version)).Some?
    && Lower(Strip(r.status)) in KNOWN_STATUSES
    && r.sequence.Some? && r.sequence.value >= 1 && IsVersion(Strip(r.version))
    && Strip(r.releaseId) == ReleaseId(Strip(r.version), r.sequence.value)
    && r.artifactType == "runtime_release"
    && r.installModes != [] && (forall i :: 0 <= i < |r.installModes| ==> r.installModes[i] in INSTALL_MODES)
    && (r.updateAllowed ==> r.InPlace())
    && BaselineOk(toInt, r)
    && (r.ubuntu.Some? ==> PolicyOk(r.ubuntu.value))
  }

  predicate CatalogOk(toInt: ToInt, releases: seq<Release>) {
    && releases != []
    && (forall i :: 0 <= i < |releases| ==> ReleaseOk(toInt, releases[i]))
    && (forall i, j :: 0 <= i < j < |releases| ==> Strip(releases[i].version) != Strip(releases[j].version))
  }

  /** The version part of `validate_release_compatibility`; `ubuntuOk` is the outcome of its platform check. */
  predicate Compatible(toInt: ToInt, r: Release, current: string, ubuntuOk: bool) {
    var known, min, max := Clean(current), Clean(r.minCurrent), Clean(r.maxCurrent);
    && (known != "" && min != "" ==>
          CompareTexts(toInt, known, min).Some? && CompareTexts(toInt, known, min).value >= 0)
    && (known != "" && max != "" ==>
          CompareTexts(toInt, known, max).Some? && CompareTexts(toInt, known, max).value <= 0)
    && ubuntuOk
  }

  lemma {:induction false} NumbersAre(toInt: ToInt, parts: seq<string>, v: seq<nat>)
    ensures Numbers(toInt, parts) == Some(v) <==>
      |v| == |parts| && forall i :: 0 <= i < |v| ==> toInt(parts[i]) == Some(v[i])
    decreases |parts|
  {
    if parts != [] {
      if v != [] {
        NumbersAre(toInt, parts[1..], v[1..]);
        assert forall i :: 0 < i < |v| && |v| == |parts| ==> v[i] == v[1..][i - 1] && parts[i] == parts[1..][i - 1];
        assert v == [v[0]] + v[1..];
      }
    }
  }

  /** A text is read as a version exactly if all its parts between dots are numbers. */
  lemma VersionOfLaw(toInt: ToInt, text: string, v: Version)
    ensures VersionOf(toInt, text) == Some(v) <==>
      var parts := Split(Clean(text), '.');
      |v| == |parts| && forall i :: 0 <= i < |v| ==> toInt(parts[i]) == Some(v[i])
  {
    NumbersAre(toInt, Split(Clean(text), '.'), v);
  }

  /** Both texts are versions and the first is not older. */
  ghost predicate NotOlder(toInt: ToInt, a: string, b: string) {
    && VersionOf(toInt, a).Some? && VersionOf(toInt, b).Some?
    && !Older(VersionOf(toInt, a).value, VersionOf(toInt, b).value)
  }

  lemma NotOlderIff(toInt: ToInt, a: string, b: string)
    ensures NotOlder(toInt, a, b) <==> CompareTexts(toInt, a, b).Some? && CompareTexts(toInt, a, b).value >= 0
    ensures NotOlder(toInt, b, a) <==> CompareTexts(toInt, a, b).Some? && CompareTexts(toInt, a, b).value <= 0
  {
    if VersionOf(toInt, a).Some? && VersionOf(toInt, b).Some? {
      CompareDecides(VersionOf(toInt, a).value, VersionOf(toInt, b).value);
    }
  }

  /** A target is compatible exactly if a known current version is not older than its minimum nor past its maximum. */
  lemma CompatibleIff(toInt: ToInt, r: Release, current: string, ubuntuOk: bool)
    ensures var known, min, max := Clean(current), Clean(r.minCurrent), Clean(r.maxCurrent);
      Compatible(toInt, r, current, ubuntuOk) <==>
        && ubuntuOk
        && (known != "" && min != "" ==> NotOlder(toInt, known, min))
        && (known != "" && max != "" ==> NotOlder(toInt, max, known))
  {
    NotOlderIff(toInt, Clean(current), Clean(r.minCurrent));
    NotOlderIff(toInt, Clean(current), Clean(r.maxCurrent));
    hide NotOlder, CompareTexts, Clean;
  }

  /**
   An update to a release of the catalog that may be installed in place, with a sequence at or past the baseline and a
   known current version, never starts from a version older than 1.3.11.
   */
  lemma NeverFromBelowBaseline(toInt: ToInt, releases: seq<Release>, i: nat, current: string, ubuntuOk: bool)
    requires CatalogOk(toInt, releases) && i < |releases|
    requires releases[i].updateAllowed && releases[i].sequence.Some? && releases[i].sequence.value >= BASELINE_SEQUENCE
    requires Clean(current) != "" && Compatible(toInt, releases[i], current, ubuntuOk)
    ensures VersionOf(toInt, Clean(current)).Some?
    ensures !Older(VersionOf(toInt, Clean(current)).value, BASELINE)
  {
    assert ReleaseOk(toInt, releases[i]) && BaselineOk(toInt, releases[i]);
    var known := VersionOf(toInt, Clean(current)).value;
    var min := VersionOf(toInt, Clean(releases[i].minCurrent)).value;
    TotalPreorder(known, min, BASELINE);
    CompareDecides(known, BASELINE);
  }

  /** The loop of `load_catalog`: it stops at the first offending release and accepts exactly a good catalog. */
  method CheckCatalog(toInt: ToInt, releases: seq<Release>) returns (ok: bool)
    ensures ok <==> CatalogOk(toInt, releases)
  {
    hide Strip, Lower, VersionOf, IsVersion, ReleaseId, Clean, Compare;
    if releases == [] { return false; }
    var versions: set<string> := {};
    for n := 0 to |releases|
      invariant forall v :: v in versions <==> exists i :: 0 <= i < n && Strip(releases[i].version) == v
      invariant forall i :: 0 <= i < n ==> ReleaseOk(toInt, releases[i])
      invariant forall i, j :: 0 <= i < j < n ==> Strip(releases[i].version) != Strip(releases[j].version)
    {
      var release := releases[n];
      var version := Strip(release.version);
      var fine := CheckRelease(toInt, release, versions);
      if !fine { return false; }
      versions := versions + {version};
    }
    return true;
  }

  /** One turn of that loop: the release by itself, and its version against those before it. */
  method CheckRelease(toInt: ToInt, release: Release, versions: set<string>) returns (ok: bool)
    ensures ok <==> ReleaseOk(toInt, release) && Strip(release.version) !in versions
  {
    hide Strip, Lower, VersionOf, IsVersion, ReleaseId, Clean, Compare;
    var version := Strip(release.version);
    if VersionOf(toInt, version).None? { return false; }
    if version in versions { return false; }
    if Lower(Strip(release.status)) !in KNOWN_STATUSES { return false; }
    if release.sequence.None? || release.sequence.value < 1 || !IsVersion(version) { return false; }
    var sequence := release.sequence.value;
    if Strip(release.releaseId) != ReleaseId(version, sequence) { return false; }
    if release.artifactType != "runtime_release" { return false; }
    var modes := release.installModes;
    if modes == [] || exists i :: 0 <= i < |modes| && modes[i] !in INSTALL_MODES { return false; }
    if release.updateAllowed && !(IN_PLACE in modes) { return false; }
    if IN_PLACE in modes && sequence >= BASELINE_SEQUENCE {
      var minimum := Clean(release.minCurrent);
      if minimum == "" { return false; }
      var parsed := VersionOf(toInt, minimum);
      if parsed.None? || Compare(parsed.value, BASELINE) < 0 { return false; }
    }
    if release.ubuntu.Some? {
      var policy := release.ubuntu.value;
      if policy.name != "ubuntu-desktop-lts-minimum" { return false; }
      if policy.minimumLts.None? || policy.minimumLts.value.1 != 4 { return false; }
      if !policy.platformPreflight { return false; }
    }
    return true;
  }
}
