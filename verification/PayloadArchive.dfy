/**
 The inspection of a payload archive: a loop that stops at the first offending
 member accepts exactly the archives that meet all the limits as a whole.
 */
module PayloadArchive {
  const MAX_PATH_LENGTH: nat := 240

  datatype Kind = RegularFile | Directory | Link | Special | OtherKind

  datatype Member = Member(name: string, kind: Kind, uid: int, gid: int, size: int)

  /** The limits of an inspection.  The path length is carried along but read by nothing. */
  datatype Limits = Limits(maxFiles: nat, maxTotalBytes: nat, maxMemberBytes: nat, maxPathLength: nat)

  // ---------------------------------------------------------------- names

  predicate IsControl(c: char) { c as int < 32 || c as int == 127 }

  /** The text up to the first slash. */
  function FirstPart(name: string): string {
    if name == "" || name[0] == '/' then "" else [name[0]] + FirstPart(name[1..])
  }

  function AfterFirst(name: string): (rest: string)
    ensures |rest| < |name| || name == rest == ""
  {
    if name == "" then "" else if name[0] == '/' then name[1..] else AfterFirst(name[1..])
  }

  /** The components of a pure POSIX path; empty ones and single dots do not count. */
  function Parts(name: string): seq<string>
    decreases |name|
  {
    if name == "" then []
    else
      var first := FirstPart(name);
      (if first == "" || first == "." then [] else [first]) + Parts(AfterFirst(name))
  }

  /** `validate_member_name` with an expected root directory. */
  predicate ValidName(name: string, root: string) {
    && name != "" && '\0' !in name && '\\' !in name && |name| <= MAX_PATH_LENGTH
    && (forall i :: 0 <= i < |name| ==> !IsControl(name[i]))
    && name[0] != '/' && ".." !in Parts(name)
    && Parts(name) != [] && Parts(name)[0] == root
  }

  lemma {:induction false} SplitAtSlash(x: string, y: string)
    requires '/' !in x
    ensures FirstPart(x) == x && FirstPart(x + "/" + y) == x && AfterFirst(x + "/" + y) == y
    ensures x != "" ==> AfterFirst(x) == ""
  {
    if x == "" {
      assert (x + "/" + y)[1..] == y;
    } else {
      assert x[0] in x && forall c :: c in x[1..] ==> c in x;
      SplitAtSlash(x[1..], y);
      assert (x + "/" + y)[1..] == x[1..] + "/" + y;
      assert [x[0]] + x[1..] == x;
    }
  }

  /** A text without a slash is one component, and none if it is empty or a dot. */
  lemma PartsOfOne(x: string)
    requires '/' !in x
    ensures Parts(x) == if x == "" || x == "." then [] else [x]
  {
    SplitAtSlash(x, "");
    assert Parts("") == [];
  }

  lemma {:induction false} CutAtSlash(s: string)
    ensures '/' !in FirstPart(s)
    ensures if '/' in s then s == FirstPart(s) + "/" + AfterFirst(s) && |AfterFirst(s)| < |s| else FirstPart(s) == s
  {
    if s != "" && s[0] != '/' {
      CutAtSlash(s[1..]);
      assert s == [s[0]] + s[1..];
    }
  }

  lemma PartsOfFirst(x: string, y: string)
    requires '/' !in x
    ensures Parts(x + "/" + y) == Parts(x) + Parts(y)
  {
    SplitAtSlash(x, y);
    PartsOfOne(x);
    hide FirstPart, AfterFirst;
  }

  lemma PartsCombine(x: string, first: string, rest: string, y: string)
    requires '/' !in first && x == first + "/" + rest && Parts(rest + "/" + y) == Parts(rest) + Parts(y)
    ensures Parts(x + "/" + y) == Parts(x) + Parts(y)
  {
    hide Parts;
    var tail := rest + "/" + y;
    assert x + "/" + y == first + "/" + tail;
    PartsOfFirst(first, tail);
    PartsOfFirst(first, rest);
  }

  /** Components on both sides of a slash are those of the two sides. */
  lemma {:induction false} PartsOfJoin(x: string, y: string)
    ensures Parts(x + "/" + y) == Parts(x) + Parts(y)
    decreases |x|
  {
    if '/' in x {
      CutAtSlash(x);
      hide Parts, FirstPart, AfterFirst;
      var first, rest := FirstPart(x), AfterFirst(x);
      PartsOfJoin(rest, y);
      PartsCombine(x, first, rest, y);
    } else {
      PartsOfFirst(x, y);
    }
  }

  /** `p` stands in the name between slashes or ends. */
  ghost predicate HasComponent(name: string, p: string) {
    exists a, b :: StandsBetween(name, a, p, b)
  }

  predicate StandsBetween(name: string, a: string, p: string, b: string) {
    name == a + p + b && (a == "" || a[|a| - 1] == '/') && (b == "" || b[0] == '/')
  }

  predicate Plain(p: string) { p != "" && p != "." && '/' !in p }

  lemma PartsAfter(p: string, b: string)
    requires Plain(p) && (b == "" || b[0] == '/')
    ensures Parts(p + b) == [p] + Parts(b)
  {
    hide Parts;
    PartsOfOne(p);
    PartsOfOne("");
    if b != "" {
      PartsAfterSlash(p, b[1..]);
      assert b == "/" + b[1..];
      assert p + b == p + "/" + b[1..];
    } else {
      assert p + b == p;
    }
  }

  lemma PartsAfterSlash(p: string, y: string)
    requires Plain(p)
    ensures Parts(p + "/" + y) == [p] + Parts("/" + y)
  {
    hide Parts;
    PartsOfOne(p);
    PartsOfOne("");
    PartsOfJoin(p, y);
    PartsOfJoin("", y);
    assert "" + "/" + y == "/" + y;
  }

  lemma PartsBefore(a: string, rest: string)
    requires a == "" || a[|a| - 1] == '/'
    ensures Parts(a + rest) == Parts(a) + Parts(rest)
  {
    PartsOfOne("");
    hide Parts;
    if a != "" {
      var front := a[..|a| - 1];
      assert a == front + "/" + "" && a + rest == front + "/" + rest;
      PartsOfJoin(front, rest);
      PartsOfJoin(front, "");
    } else {
      assert a + rest == rest;
    }
  }

  lemma PartsAround(name: string, a: string, p: string, b: string)
    requires Plain(p) && StandsBetween(name, a, p, b)
    ensures Parts(name) == Parts(a) + [p] + Parts(b)
  {
    hide Parts;
    PartsAfter(p, b);
    assert a + p + b == a + (p + b);
    PartsBefore(a, p + b);
  }

  /** The components of a name with a slash are its first, if it counts, and those after it. */
  lemma PartsUnfold(name: string)
    requires name != ""
    ensures var first, rest := FirstPart(name), AfterFirst(name);
      Parts(name) == (if first == "" || first == "." then [] else [first]) + Parts(rest)
    ensures '/' !in name ==> AfterFirst(name) == ""
  {
    CutAtSlash(name);
    if '/' !in name { SplitAtSlash(name, ""); }
  }

  lemma StandsFurther(name: string, first: string, rest: string, a: string, p: string, b: string)
    requires StandsBetween(rest, a, p, b) && name == first + "/" + rest
    ensures StandsBetween(name, first + "/" + a, p, b)
  {
    assert name == first + "/" + a + p + b;
  }

  /** A component is found exactly where it stands between slashes or ends. */
  lemma ComponentIff(name: string, p: string)
    requires Plain(p)
    ensures p in Parts(name) <==> HasComponent(name, p)
  {
    hide Parts;
    if a, b :| StandsBetween(name, a, p, b) { PartsAround(name, a, p, b); }
    if p in Parts(name) { var a, b := ComponentStands(name, p); }
  }

  lemma {:induction false} ComponentStands(name: string, p: string) returns (a: string, b: string)
    requires p in Parts(name)
    ensures StandsBetween(name, a, p, b)
    decreases |name|
  {
    PartsOfOne("");
    hide Parts, FirstPart, AfterFirst;
    PartsUnfold(name);
    CutAtSlash(name);
    var first, rest := FirstPart(name), AfterFirst(name);
    if first == p {
      a, b := "", if '/' in name then "/" + rest else "";
      assert name == a + p + b;
    } else {
      var c;
      c, b := ComponentStands(rest, p);
      a := first + "/" + c;
      StandsFurther(name, first, rest, c, p, b);
    }
  }

  /** The first component is `p`: before it there are only slashes and single dots. */
  ghost predicate StartsWith(name: string, p: string) {
    exists a, b :: StandsBetween(name, a, p, b) && forall q :: Plain(q) ==> !HasComponent(a, q)
  }

  lemma {:induction false} PartsArePlain(name: string)
    ensures forall q :: q in Parts(name) ==> Plain(q)
    decreases |name|
  {
    if name != "" {
      CutAtSlash(name);
      PartsArePlain(AfterFirst(name));
    }
  }

  lemma NoParts(a: string)
    ensures Parts(a) == [] <==> forall q :: Plain(q) ==> !HasComponent(a, q)
  {
    forall q | Plain(q) ensures q in Parts(a) <==> HasComponent(a, q) { ComponentIff(a, q); }
    PartsArePlain(a);
    if Parts(a) != [] {
      var q := Parts(a)[0];
      assert q in Parts(a);
    }
    hide HasComponent, Parts;
  }

  lemma {:induction false} FirstStands(name: string) returns (a: string, b: string)
    requires Parts(name) != []
    ensures StandsBetween(name, a, Parts(name)[0], b) && Parts(a) == []
    decreases |name|
  {
    PartsOfOne("");
    hide Parts, FirstPart, AfterFirst;
    PartsUnfold(name);
    CutAtSlash(name);
    var first, rest := FirstPart(name), AfterFirst(name);
    if first != "" && first != "." {
      a, b := "", if '/' in name then "/" + rest else "";
      assert name == a + first + b;
    } else {
      var c;
      c, b := FirstStands(rest);
      a := first + "/" + c;
      PartsOfJoin(first, c);
      PartsOfOne(first);
      StandsFurther(name, first, rest, c, Parts(rest)[0], b);
    }
  }

  lemma StartsWithIff(name: string, p: string)
    requires Plain(p)
    ensures StartsWith(name, p) <==> Parts(name) != [] && Parts(name)[0] == p
  {
    if StartsWith(name, p) {
      var a, b :| StandsBetween(name, a, p, b) && forall q :: Plain(q) ==> !HasComponent(a, q);
      NoParts(a);
      PartsAround(name, a, p, b);
    }
    if Parts(name) != [] && Parts(name)[0] == p {
      var a, b := FirstStands(name);
      NoParts(a);
    }
  }

  /** Which names pass, character by character and component by component. */
  lemma NameLaw(name: string, root: string)
    ensures ValidName(name, root) <==>
      && 1 <= |name| <= 240 && name[0] != '/'
      && (forall i :: 0 <= i < |name| ==> name[i] as int >= 32 && name[i] as int != 127 && name[i] != '\\')
      && !HasComponent(name, "..") && Plain(root) && StartsWith(name, root)
  {
    ComponentIff(name, "..");
    if Plain(root) { StartsWithIff(name, root); }
    if Parts(name) != [] {
      PartsArePlain(name);
      assert Parts(name)[0] in Parts(name);
    }
    hide HasComponent, StartsWith, Parts;
    assert '\0' as int == 0;
    assert (forall i :: 0 <= i < |name| ==> name[i] as int >= 32 && name[i] as int != 127 && name[i] != '\\') <==>
      '\0' !in name && '\\' !in name && forall i :: 0 <= i < |name| ==> !IsControl(name[i]);
  }

  // ---------------------------------------------------------------- the whole archive

  predicate MemberOk(m: Member, root: string, limits: Limits) {
    && ValidName(m.name, root) && (m.kind.RegularFile? || m.kind.Directory?) && m.uid == 0 && m.gid == 0
    && (m.kind.RegularFile? ==> 0 <= m.size <= limits.maxMemberBytes)
  }

  function Total(members: seq<Member>): int {
    if members == [] then 0
    else
      var last := members[|members| - 1];
      Total(members[..|members| - 1]) + (if last.kind.RegularFile? then last.size else 0)
  }

  predicate Acceptable(members: seq<Member>, root: string, limits: Limits) {
    && 0 < |members| <= limits.maxFiles
    && (forall i :: 0 <= i < |members| ==> MemberOk(members[i], root, limits))
    && (forall i, j :: 0 <= i < j < |members| ==> members[i].name != members[j].name)
    && Total(members) <= limits.maxTotalBytes
  }

  lemma {:induction false} TotalGrows(members: seq<Member>, n: nat, root: string, limits: Limits)
    requires n <= |members| && forall i :: 0 <= i < |members| ==> MemberOk(members[i], root, limits)
    ensures Total(members[..n]) <= Total(members)
  {
    if n == |members| {
      assert members[..n] == members;
    } else {
      assert members[..|members| - 1][..n] == members[..n];
      TotalGrows(members[..|members| - 1], n, root, limits);
    }
  }

  /** An archive one of whose beginnings is over a limit is over it as a whole. */
  lemma PrefixDecides(members: seq<Member>, n: nat, root: string, limits: Limits)
    requires n <= |members| && (Total(members[..n]) > limits.maxTotalBytes || n > limits.maxFiles)
    ensures !Acceptable(members, root, limits)
  {
    if Acceptable(members, root, limits) { TotalGrows(members, n, root, limits); }
  }

  /** `_inspect_payload_archive`. */
  method Inspect(members: seq<Member>, root: string, limits: Limits) returns (ok: bool)
    ensures ok <==> Acceptable(members, root, limits)
  {
    hide ValidName;
    var seen: set<string>, total, count := {}, 0, 0;
    for n := 0 to |members|
      invariant count == n <= limits.maxFiles && total == Total(members[..n]) <= limits.maxTotalBytes
      invariant forall name :: name in seen <==> exists i :: 0 <= i < n && members[i].name == name
      invariant forall i :: 0 <= i < n ==> MemberOk(members[i], root, limits)
      invariant forall i, j :: 0 <= i < j < n ==> members[i].name != members[j].name
    {
      var member := members[n];
      assert members[..n + 1][..n] == members[..n];
      if !ValidName(member.name, root) { return false; }
      if member.name in seen { return false; }
      seen := seen + {member.name};
      if member.kind.Link? || member.kind.Special? { return false; }
      if !(member.kind.RegularFile? || member.kind.Directory?) { return false; }
      if member.uid != 0 || member.gid != 0 { return false; }
      if member.kind.RegularFile? {
        if member.size < 0 || member.size > limits.maxMemberBytes { return false; }
        total := total + member.size;
        if total > limits.maxTotalBytes {
          PrefixDecides(members, n + 1, root, limits);
          return false;
        }
      }
      count := count + 1;
      if count > limits.maxFiles { return false; }
    }
    assert members[..|members|] == members;
    return count > 0;
  }

  // ---------------------------------------------------------------- the path length of the limits

  predicate WithinPathLimit(members: seq<Member>, limits: Limits) {
    forall i :: 0 <= i < |members| ==> |members[i].name| <= limits.maxPathLength
  }

  /** The verdict does not depend on the path length of the limits. */
  lemma PathLimitIsNotRead(members: seq<Member>, root: string, limits: Limits, n: nat)
    ensures Acceptable(members, root, limits) == Acceptable(members, root, limits.(maxPathLength := n))
  {
    hide ValidName;
    assert forall i :: 0 <= i < |members| ==>
      MemberOk(members[i], root, limits) == MemberOk(members[i], root, limits.(maxPathLength := n));
  }

  function Named(length: nat): string { seq(length, i => 'a') }

  lemma {:induction false} PlainNameIsOnePart(length: nat)
    ensures FirstPart(Named(length)) == Named(length) && AfterFirst(Named(length)) == ""
    ensures length > 0 ==> Parts(Named(length)) == [Named(length)]
  {
    if length > 0 {
      assert Named(length)[1..] == Named(length - 1);
      PlainNameIsOnePart(length - 1);
      assert Named(length) == [Named(length)[0]] + Named(length - 1);
      assert Named(length)[0] != '.' && Parts("") == [];
    }
  }

  /** An archive of one empty file whose name is too long for the limits is accepted all the same. */
  lemma LongNameAccepted(limits: Limits, length: nat)
    requires 0 < length <= MAX_PATH_LENGTH && limits.maxFiles > 0
    ensures var member := Member(Named(length), RegularFile, 0, 0, 0);
      Acceptable([member], Named(length), limits)
  {
    var name := Named(length);
    var member := Member(name, RegularFile, 0, 0, 0);
    PlainNameIsOnePart(length);
    assert name[0] == 'a';
    assert ValidName(name, name) by {
      assert forall c :: c in name ==> c == 'a';
      assert Parts(name) == [name];
      assert ".."[0] == '.';
    }
    assert [member][..0] == [];
    assert Total([member]) == 0;
  }

  /** With a path length of 1 a two-letter name passes. */
  lemma PathLimitCanBeExceeded()
    ensures exists members, root, limits :: Acceptable(members, root, limits) && !WithinPathLimit(members, limits)
  {
    var limits := Limits(1, 0, 0, 1);
    LongNameAccepted(limits, 2);
    assert !WithinPathLimit([Member(Named(2), RegularFile, 0, 0, 0)], limits);
  }

  /** All accepted archives meet the path length of the limits exactly if it is 240 or more, or no file is allowed. */
  lemma PathLimitHoldsIff(limits: Limits)
    ensures (forall members, root :: Acceptable(members, root, limits) ==> WithinPathLimit(members, limits))
      <==> limits.maxPathLength >= MAX_PATH_LENGTH || limits.maxFiles == 0
  {
    if limits.maxPathLength < MAX_PATH_LENGTH && limits.maxFiles > 0 {
      var length := limits.maxPathLength + 1;
      LongNameAccepted(limits, length);
      assert !WithinPathLimit([Member(Named(length), RegularFile, 0, 0, 0)], limits);
    } else {
      forall members, root | Acceptable(members, root, limits) ensures WithinPathLimit(members, limits) {
        hide Total;
        assert forall i :: 0 <= i < |members| ==> MemberOk(members[i], root, limits);
      }
    }
  }
}
