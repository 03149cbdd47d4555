/** Blanks, splitting, stripping and numbers in texts. */
module Text {
  predicate IsSpace(c: char) {
    var n := c as int;
    || 0x09 <= n <= 0x0D || 0x1C <= n <= 0x20 || n == 0x85 || n == 0xA0 || n == 0x1680 || 0x2000 <= n <= 0x200A
    || n == 0x2028 || n == 0x2029 || n == 0x202F || n == 0x205F || n == 0x3000
  }

  function StripLeft(s: string): string {
    if s != "" && IsSpace(s[0]) then StripLeft(s[1..]) else s
  }

  function StripRight(s: string): string {
    if s != "" && IsSpace(s[|s| - 1]) then StripRight(s[..|s| - 1]) else s
  }

  function Strip(s: string): string { StripRight(StripLeft(s)) }

  predicate Stripped(s: string) { s == "" || (!IsSpace(s[0]) && !IsSpace(s[|s| - 1])) }

  lemma {:induction false} StripRightStrips(s: string)
    requires s == "" || !IsSpace(s[0])
    ensures Stripped(StripRight(s))
  {
    if s != "" && IsSpace(s[|s| - 1]) { StripRightStrips(s[..|s| - 1]); }
  }

  lemma {:induction false} StripLeftStrips(s: string)
    ensures StripLeft(s) == "" || !IsSpace(StripLeft(s)[0])
  {
    if s != "" && IsSpace(s[0]) { StripLeftStrips(s[1..]); }
  }

  lemma StripStrips(s: string)
    ensures Stripped(Strip(s))
    ensures Stripped(s) ==> Strip(s) == s
  {
    StripLeftStrips(s);
    StripRightStrips(StripLeft(s));
  }

  function Split(s: string, at: char): (parts: seq<string>)
    ensures parts != []
  {
    if s == "" then [""]
    else
      var rest := Split(s[1..], at);
      if s[0] == at then [""] + rest else [[s[0]] + rest[0]] + rest[1..]
  }

  lemma {:induction false} SplitWithout(s: string, at: char)
    requires at !in s
    ensures Split(s, at) == [s]
  {
    if s != "" {
      assert s[0] in s && forall c :: c in s[1..] ==> c in s;
      SplitWithout(s[1..], at);
      assert [s[0]] + s[1..] == s;
    }
  }

  lemma {:induction false} SplitFirst(s: string, at: char, rest: string)
    requires at !in s
    ensures Split(s + [at] + rest, at) == [s] + Split(rest, at)
  {
    var whole := s + [at] + rest;
    if s == "" {
      assert whole[1..] == rest;
    } else {
      assert s[0] in s && forall c :: c in s[1..] ==> c in s;
      SplitFirst(s[1..], at, rest);
      assert whole[1..] == s[1..] + [at] + rest;
      assert [s[0]] + s[1..] == s;
    }
  }

  function LowerChar(c: char): char { if 'A' <= c <= 'Z' then c - 'A' + 'a' else c }

  function Lower(s: string): string { seq(|s|, i requires 0 <= i < |s| => LowerChar(s[i])) }

  predicate Digits(s: string) { s != "" && forall i :: 0 <= i < |s| ==> '0' <= s[i] <= '9' }

  /** Three numbers separated by dots. */
  predicate IsVersion(s: string) {
    var parts := Split(s, '.');
    |parts| == 3 && Digits(parts[0]) && Digits(parts[1]) && Digits(parts[2])
  }

  function Decimal(n: nat): string {
    if n < 10 then ['0' + n as char] else Decimal(n / 10) + ['0' + (n % 10) as char]
  }

  /** The name of a release; its pattern asks for a three-part version and a positive sequence. */
  function ReleaseId(version: string, sequence: nat): string {
    "clientflow-" + version + "-seq-" + Decimal(sequence)
  }
}
