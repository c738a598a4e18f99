/** Strings as the C++ standard library gives them to this program: decimal
    printing, substring search and `getline`. */
module Text {
  datatype Option<+T> = None | Some(value: T)

  lemma Regroup<T>(a: seq<T>, b: seq<T>, c: seq<T>)
    ensures (a + b) + c == a + (b + c)
  {
  }

  /** What a loop has collected and what it has still to collect make up `all`. */
  ghost predicate Completes<T>(done: seq<T>, rest: seq<T>, all: seq<T>)
  {
    done + rest == all
  }

  lemma CollectMore<T>(done: seq<T>, next: seq<T>, rest: seq<T>, all: seq<T>)
    requires Completes(done, next + rest, all)
    ensures Completes(done + next, rest, all)
  {
    Regroup(done, next, rest);
  }

  // ---- std::to_string ----

  function Digit(d: nat): (c: char)
    requires d < 10
    ensures '0' <= c <= '9' && c as int == '0' as int + d
  {
    ('0' as int + d) as char
  }

  function NatStr(n: nat): (s: string)
    ensures s != []
    ensures forall c | c in s :: '0' <= c <= '9'
  {
    if n < 10 then [Digit(n)] else NatStr(n / 10) + [Digit(n % 10)]
  }

  function IntStr(n: int): (s: string)
    ensures s != []
    ensures forall c | c in s :: c == '-' || '0' <= c <= '9'
  {
    if n < 0 then "-" + NatStr(-n) else NatStr(n)
  }

  /** The number that a string of digits denotes. */
  function Decimal(s: string): nat
    requires forall i | 0 <= i < |s| :: '0' <= s[i] <= '9'
  {
    if s == "" then 0
    else 10 * Decimal(s[..|s| - 1]) + (s[|s| - 1] as int - '0' as int)
  }

  /** Numbers print in decimal, without leading zeros. */
  lemma {:induction false} NatStrIsDecimal(n: nat)
    ensures forall i | 0 <= i < |NatStr(n)| :: '0' <= NatStr(n)[i] <= '9'
    ensures Decimal(NatStr(n)) == n && (|NatStr(n)| > 1 ==> NatStr(n)[0] != '0')
  {
    var s := NatStr(n);
    forall i | 0 <= i < |s| ensures '0' <= s[i] <= '9' {
      assert s[i] in s;
    }
    if n >= 10 {
      NatStrIsDecimal(n / 10);
      assert s[..|s| - 1] == NatStr(n / 10) && s[|s| - 1] == Digit(n % 10);
      if n / 10 < 10 {
        assert NatStr(n / 10) == [Digit(n / 10)];
      }
    } else {
      assert s[..0] == "" && Decimal("") == 0;
    }
  }

  lemma IntStrIsDecimal(n: int)
    ensures n < 0 ==> IntStr(n)[0] == '-'
    ensures var digits := if n < 0 then IntStr(n)[1..] else IntStr(n);
            && (forall i | 0 <= i < |digits| :: '0' <= digits[i] <= '9')
            && Decimal(digits) == (if n < 0 then -n else n) && (|digits| > 1 ==> digits[0] != '0')
  {
    NatStrIsDecimal(if n < 0 then -n else n);
    assert n < 0 ==> IntStr(n)[1..] == NatStr(-n);
  }

  lemma {:induction false} NatStrInjective(a: nat, b: nat)
    requires NatStr(a) == NatStr(b)
    ensures a == b
  {
    var s := NatStr(a);
    assert s[|s| - 1] == Digit(a % 10) == Digit(b % 10);
    if a < 10 || b < 10 {
      assert |s| == 1;
    } else {
      assert s[..|s| - 1] == NatStr(a / 10) == NatStr(b / 10);
      NatStrInjective(a / 10, b / 10);
    }
  }

  lemma IntStrSign(n: int)
    ensures IntStr(n)[0] == '-' <==> n < 0
  {
    if n >= 0 {
      assert NatStr(n)[0] in NatStr(n);
    }
  }

  /** Distinct integers print differently, so ids can be told apart in a path. */
  lemma IntStrInjective(a: int, b: int)
    requires IntStr(a) == IntStr(b)
    ensures a == b
  {
    IntStrSign(a);
    IntStrSign(b);
    if a < 0 {
      assert NatStr(-a) == IntStr(a)[1..] == IntStr(b)[1..] == NatStr(-b);
      NatStrInjective(-a, -b);
    } else {
      NatStrInjective(a, b);
    }
  }

  // ---- std::string::find ----

  predicate MatchAt(s: string, d: string, i: nat)
  {
    i + |d| <= |s| && s[i..i + |d|] == d
  }

  /** The first occurrence of `d` in `s` at or after `from`; `None` is `npos`. */
  function FindFrom(s: string, d: string, from: nat): (r: Option<nat>)
    ensures r.Some? ==> from <= r.value && r.value + |d| <= |s|
    decreases |s| - from
  {
    if from + |d| > |s| then None
    else if MatchAt(s, d, from) then Some(from)
    else FindFrom(s, d, from + 1)
  }

  /** `FindFrom` returns a match, and the first one. */
  lemma {:induction false} FindIsFirst(s: string, d: string, from: nat)
    ensures var r := FindFrom(s, d, from);
            if r.Some? then
              MatchAt(s, d, r.value) && forall k: nat | from <= k < r.value :: !MatchAt(s, d, k)
            else forall k: nat | from <= k :: !MatchAt(s, d, k)
    decreases |s| - from
  {
    if from + |d| <= |s| && !MatchAt(s, d, from) {
      FindIsFirst(s, d, from + 1);
    }
  }

  /** Any position that matches first is the one `find` returns. */
  lemma FindIs(s: string, d: string, e: nat)
    requires MatchAt(s, d, e)
    requires forall k: nat | k < e :: !MatchAt(s, d, k)
    ensures FindFrom(s, d, 0) == Some(e)
  {
    FindIsFirst(s, d, 0);
  }

  /** Searching from a position is searching the remaining suffix. */
  lemma FindShift(s: string, d: string, from: nat)
    requires from <= |s|
    ensures FindFrom(s[from..], d, 0).Some? <==> FindFrom(s, d, from).Some?
    ensures FindFrom(s, d, from).Some? ==>
              FindFrom(s, d, from).value == from + FindFrom(s[from..], d, 0).value
  {
    forall k: nat
      ensures MatchAt(s[from..], d, k) <==> MatchAt(s, d, from + k)
    {
      if from + k + |d| <= |s| {
        assert s[from..][k..k + |d|] == s[from + k..from + k + |d|];
      }
    }
    FindIsFirst(s[from..], d, 0);
    FindIsFirst(s, d, from);
    var a, b := FindFrom(s[from..], d, 0), FindFrom(s, d, from);
    if b.Some? {
      assert MatchAt(s[from..], d, b.value - from);
    }
    if a.Some? {
      assert MatchAt(s, d, from + a.value);
    }
  }

  lemma FindChar(s: string, c: char)
    ensures FindFrom(s, [c], 0).None? <==> c !in s
    ensures FindFrom(s, [c], 0).Some? ==>
              var e := FindFrom(s, [c], 0).value;
              e < |s| && s[e] == c && c !in s[..e]
  {
    FindIsFirst(s, [c], 0);
    forall k: nat | k < |s|
      ensures MatchAt(s, [c], k) <==> s[k] == c
    {
      assert s[k..k + 1] == [s[k]];
    }
    if c in s {
      var k :| 0 <= k < |s| && s[k] == c;
      assert MatchAt(s, [c], k);
    }
  }

  lemma FirstChar(s: string, c: char, e: nat)
    requires e < |s| && s[e] == c && c !in s[..e]
    ensures FindFrom(s, [c], 0) == Some(e)
  {
    assert s[e..e + 1] == [c];
    forall k: nat | k < e
      ensures !MatchAt(s, [c], k)
    {
      assert s[k..k + 1] == [s[k]] && s[k] == s[..e][k];
    }
    FindIs(s, [c], e);
  }

  // ---- std::getline over a whole stream ----

  /** The successive results of `getline(ss, line, c)`: pieces between
      delimiters, empty ones included, without a last empty piece. */
  function GetLines(s: string, c: char): (lines: seq<string>)
    decreases |s|
  {
    if s == [] then []
    else
      match FindFrom(s, [c], 0)
      case None => [s]
      case Some(e) => [s[..e]] + GetLines(s[e + 1..], c)
  }

  /** The loop `while (getline(ss, s, delim)) res.push_back(s)`. */
  method Split(str: string, delim: char) returns (res: seq<string>)
    ensures res == GetLines(str, delim)
  {
    res := [];
    var pos := 0;
    while pos < |str|
      invariant pos <= |str|
      invariant res + GetLines(str[pos..], delim) == GetLines(str, delim)
    {
      FindShift(str, [delim], pos);
      var e := FindFrom(str, [delim], pos);
      match e {
        case None =>
          res := res + [str[pos..]];
          pos := |str|;
        case Some(i) =>
          assert str[pos..][..i - pos] == str[pos..i];
          assert str[pos..][i - pos + 1..] == str[i + 1..];
          res := res + [str[pos..i]];
          pos := i + 1;
      }
    }
  }

  /** A delimiter-free piece followed by the delimiter is read back first. */
  lemma GetLinesStep(line: string, rest: string, c: char)
    requires c !in line
    ensures GetLines(line + [c] + rest, c) == [line] + GetLines(rest, c)
  {
    var s := line + [c] + rest;
    assert s[..|line|] == line && s[|line| + 1..] == rest;
    FirstChar(s, c, |line|);
  }

  lemma GetLinesLast(line: string, c: char)
    requires c !in line && line != []
    ensures GetLines(line, c) == [line]
  {
    FindChar(line, c);
  }

  /** No piece contains the delimiter. */
  lemma {:induction false} GetLinesClean(s: string, c: char)
    ensures forall l | l in GetLines(s, c) :: c !in l
    decreases |s|
  {
    if s != [] {
      FindChar(s, c);
      var r := FindFrom(s, [c], 0);
      if r.Some? {
        GetLinesClean(s[r.value + 1..], c);
      }
    }
  }

  /** The pieces of a text whose first part ends at a delimiter. */
  lemma {:induction false} GetLinesAppend(a: string, b: string, c: char)
    requires a == [] || a[|a| - 1] == c
    ensures GetLines(a + b, c) == GetLines(a, c) + GetLines(b, c)
    decreases |a|
  {
    if a == [] {
      assert a + b == b;
    } else {
      FindChar(a, c);
      var e := FindFrom(a, [c], 0).value;
      assert (a + b)[..e] == a[..e] && (a + b)[e + 1..] == a[e + 1..] + b;
      FirstChar(a + b, c, e);
      GetLinesAppend(a[e + 1..], b, c);
      Regroup([a[..e]], GetLines(a[e + 1..], c), GetLines(b, c));
    }
  }
}
