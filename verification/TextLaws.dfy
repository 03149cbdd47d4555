/** What stripping, splitting and printing of texts mean, told by the texts they are made of. */
module TextLaws {
  import opened Text

  predicate Blank(s: string) { forall i :: 0 <= i < |s| ==> IsSpace(s[i]) }

  lemma {:induction false} LeftBlanksGo(a: string, m: string)
    requires Blank(a)
    ensures StripLeft(a + m) == StripLeft(m)
  {
    if a == "" {
      assert a + m == m;
    } else {
      assert (a + m)[1..] == a[1..] + m;
      LeftBlanksGo(a[1..], m);
    }
  }

  lemma {:induction false} RightBlanksGo(m: string, b: string)
    requires Blank(b)
    ensures StripRight(m + b) == StripRight(m)
  {
    if b == "" {
      assert m + b == m;
    } else {
      assert (m + b)[..|m + b| - 1] == m + b[..|b| - 1];
      RightBlanksGo(m, b[..|b| - 1]);
    }
  }

  /** Stripping takes the blanks off both ends and nothing else. */
  lemma StripLaw(a: string, m: string, b: string)
    requires Blank(a) && Blank(b) && (m == "" || (!IsSpace(m[0]) && !IsSpace(m[|m| - 1])))
    ensures Strip(a + m + b) == m
  {
    assert a + m + b == a + (m + b);
    LeftBlanksGo(a, m + b);
    if m == "" {
      assert m + b == b + "";
      LeftBlanksGo(b, "");
    } else {
      assert (m + b)[0] == m[0];
      RightBlanksGo(m, b);
    }
  }

  lemma {:induction false} LeftBlanks(s: string) returns (a: string)
    ensures Blank(a) && s == a + StripLeft(s)
  {
    a := "";
    if s != "" && IsSpace(s[0]) {
      var rest := LeftBlanks(s[1..]);
      a := [s[0]] + rest;
    }
  }

  lemma {:induction false} RightBlanks(s: string) returns (b: string)
    ensures Blank(b) && s == StripRight(s) + b
  {
    b := "";
    if s != "" && IsSpace(s[|s| - 1]) {
      var rest := RightBlanks(s[..|s| - 1]);
      b := rest + [s[|s| - 1]];
      assert s == s[..|s| - 1] + [s[|s| - 1]];
    }
  }

  /** Every text is what stripping leaves of it between blanks. */
  lemma StrippedBetweenBlanks(s: string) returns (a: string, b: string)
    ensures Blank(a) && Blank(b) && s == a + Strip(s) + b
  {
    a := LeftBlanks(s);
    b := RightBlanks(StripLeft(s));
  }

  function Joined(parts: seq<string>, at: char): string
    requires parts != []
  {
    if |parts| == 1 then parts[0] else parts[0] + [at] + Joined(parts[1..], at)
  }

  /** The parts joined again are the text, and no part holds the separator. */
  lemma {:induction false} SplitLaw(s: string, at: char)
    ensures Joined(Split(s, at), at) == s
    ensures forall i :: 0 <= i < |Split(s, at)| ==> at !in Split(s, at)[i]
  {
    if s != "" {
      SplitLaw(s[1..], at);
      var rest := Split(s[1..], at);
      if s[0] == at {
        assert ([""] + rest)[1..] == rest;
      } else {
        var parts := [[s[0]] + rest[0]] + rest[1..];
        assert parts[1..] == rest[1..];
        assert Joined(parts, at) == [s[0]] + Joined(rest, at);
      }
    }
  }

  predicate IsNumber(s: string) { s != "" && forall i :: 0 <= i < |s| ==> s[i] in "0123456789" }

  ghost predicate ThreeNumbers(s: string, a: string, b: string, c: string) {
    IsNumber(a) && IsNumber(b) && IsNumber(c) && s == a + "." + b + "." + c
  }

  lemma NumberIsDigits(s: string)
    ensures IsNumber(s) <==> Digits(s)
  {
    forall c: char ensures c in "0123456789" <==> '0' <= c <= '9' {
      var digits := "0123456789";
      if '0' <= c <= '9' { assert digits[c as int - '0' as int] == c; }
    }
  }

  /** A version is three numbers with dots between them. */
  lemma VersionLaw(s: string)
    ensures IsVersion(s) <==> exists a, b, c :: ThreeNumbers(s, a, b, c)
  {
    if IsVersion(s) {
      var parts := Split(s, '.');
      SplitLaw(s, '.');
      assert Joined(parts[1..], '.') == parts[1] + "." + Joined(parts[1..][1..], '.');
      NumberIsDigits(parts[0]);
      NumberIsDigits(parts[1]);
      NumberIsDigits(parts[2]);
      assert s == parts[0] + "." + parts[1] + "." + parts[2];
      assert ThreeNumbers(s, parts[0], parts[1], parts[2]);
    }
    if a, b, c :| ThreeNumbers(s, a, b, c) {
      NumberIsDigits(a);
      NumberIsDigits(b);
      NumberIsDigits(c);
      assert s == a + ['.'] + (b + ['.'] + c);
      SplitFirst(a, '.', b + ['.'] + c);
      SplitFirst(b, '.', c);
      SplitWithout(c, '.');
    }
  }

  /** The number a text of digits stands for. */
  function NumberOf(s: string): nat
    requires Digits(s)
  {
    var last := s[|s| - 1] as int - '0' as int;
    if |s| == 1 then last else 10 * NumberOf(s[..|s| - 1]) + last
  }

  /** A number is printed by its digits, without a zero in front. */
  lemma {:induction false} DecimalLaw(n: nat)
    ensures Digits(Decimal(n)) && NumberOf(Decimal(n)) == n
    ensures |Decimal(n)| > 1 ==> Decimal(n)[0] != '0'
  {
    if n >= 10 {
      DecimalLaw(n / 10);
      assert Decimal(n)[..|Decimal(n)| - 1] == Decimal(n / 10);
    }
  }
}
