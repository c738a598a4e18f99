/** FSWrapper/FSWrapper/filesystem_utils.cpp: splitting strings and paths. */
module FilesystemUtils {
  import opened Text

  function NonEmpty(token: string): seq<string>
  {
    if token == [] then [] else [token]
  }

  /** What `splitString` collects from `start` on: after a match the scan resumes
      one character past the START of the delimiter, and empty tokens are dropped. */
  function TokensFrom(s: string, delim: string, start: nat): seq<string>
    requires delim != [] && start <= |s|
    decreases |s| - start
  {
    match FindFrom(s, delim, start)
    case None => NonEmpty(s[start..])
    case Some(e) => NonEmpty(s[start..e]) + TokensFrom(s, delim, e + 1)
  }

  function Tokens(s: string, delim: string): seq<string>
    requires delim != []
  {
    TokensFrom(s, delim, 0)
  }

  /** `if(token != "") tokens.push_back(token)`. */
  method PushToken(tokens: seq<string>, token: string) returns (r: seq<string>)
    ensures r == tokens + NonEmpty(token)
  {
    r := tokens;
    if token != "" {
      r := r + [token];
    }
  }

  method SplitString(str: string, delim: string) returns (tokens: seq<string>)
    requires delim != []
    ensures tokens == Tokens(str, delim)
  {
    tokens := [];
    var startIdx := 0;
    var endIdx := FindFrom(str, delim, 0);
    while endIdx.Some?
      invariant startIdx <= |str| && endIdx == FindFrom(str, delim, startIdx)
      invariant Completes(tokens, TokensFrom(str, delim, startIdx), Tokens(str, delim))
      decreases |str| - startIdx
    {
      var token := str[startIdx..endIdx.value];
      CollectMore(tokens, NonEmpty(token), TokensFrom(str, delim, endIdx.value + 1), Tokens(str, delim));
      tokens := PushToken(tokens, token);
      startIdx := endIdx.value + 1;
      endIdx := FindFrom(str, delim, startIdx);
    }
    tokens := PushToken(tokens, str[startIdx..]);
  }

  lemma SuffixSlices(s: string, start: nat, k: nat, e: nat)
    requires start + k <= e <= |s|
    ensures s[start..][k..e - start] == s[start + k..e]
    ensures s[start..][k..] == s[start + k..]
  {
  }

  /** Splitting from a position is splitting the remaining suffix. */
  lemma {:induction false} TokensShift(s: string, delim: string, start: nat, k: nat)
    requires delim != [] && start + k <= |s|
    ensures TokensFrom(s, delim, start + k) == TokensFrom(s[start..], delim, k)
    decreases |s| - start - k
  {
    hide TokensFrom, FindFrom;
    var t := s[start..];
    FindShiftBy(s, delim, start, k);
    TokensStep(s, delim, start + k);
    TokensStep(t, delim, k);
    match FindFrom(s, delim, start + k) {
      case None =>
        SuffixSlices(s, start, k, |s|);
      case Some(e) =>
        SuffixSlices(s, start, k, e);
        TokensShift(s, delim, start, e - start + 1);
    }
  }

  lemma TokensStep(s: string, delim: string, k: nat)
    requires delim != [] && k <= |s|
    ensures TokensFrom(s, delim, k) ==
            match FindFrom(s, delim, k)
            case None => NonEmpty(s[k..])
            case Some(e) => NonEmpty(s[k..e]) + TokensFrom(s, delim, e + 1)
  {
  }

  lemma FindShiftBy(s: string, delim: string, start: nat, k: nat)
    requires start + k <= |s|
    ensures match FindFrom(s, delim, start + k)
            case None => FindFrom(s[start..], delim, k).None?
            case Some(e) => FindFrom(s[start..], delim, k) == Some(e - start)
  {
    assert s[start..][k..] == s[start + k..];
    FindShift(s, delim, start + k);
    FindShift(s[start..], delim, k);
  }

  /** The tokens before and after the first delimiter. */
  lemma TokensUnfold(s: string, delim: string)
    requires delim != []
    ensures match FindFrom(s, delim, 0)
            case None => Tokens(s, delim) == NonEmpty(s)
            case Some(e) => Tokens(s, delim) == NonEmpty(s[..e]) + Tokens(s[e + 1..], delim)
  {
    assert s[0..] == s;
    match FindFrom(s, delim, 0) {
      case None =>
      case Some(e) => TokensShift(s, delim, e + 1, 0);
    }
  }

  lemma TokenBefore(s: string, delim: string, token: string, rest: string)
    requires delim != [] && token != [] && FindFrom(s, delim, 0) == Some(|token|)
    requires s[..|token|] == token && s[|token| + 1..] == rest
    ensures Tokens(s, delim) == [token] + Tokens(rest, delim)
  {
    TokensUnfold(s, delim);
  }

  function SplitFilepath(filepath: string): seq<string>
  {
    Tokens(filepath, "/")
  }

  // ---- one-character delimiters ----

  /** There are no tokens exactly if there is nothing but delimiters. */
  lemma {:induction false} NoTokensIff(s: string, c: char)
    ensures Tokens(s, [c]) == [] <==> forall x | x in s :: x == c
    decreases |s|
  {
    hide TokensFrom, FindFrom;
    FindChar(s, c);
    TokensUnfold(s, [c]);
    if c in s {
      var e := FindFrom(s, [c], 0).value;
      var line, rest := s[..e], s[e + 1..];
      NoTokensIff(rest, c);
      assert s == line + [c] + rest;
      assert forall x :: x in s <==> x in line || x == c || x in rest;
      if line != "" {
        assert line[0] in line && Tokens(s, [c]) == [line] + Tokens(rest, [c]);
      } else {
        assert Tokens(s, [c]) == [] + Tokens(rest, [c]) == Tokens(rest, [c]);
      }
    } else if s != "" {
      assert s[0] in s;
    }
  }

  lemma TokensWithout(s: string, c: char)
    requires c !in s
    ensures Tokens(s, [c]) == NonEmpty(s)
  {
    FindChar(s, c);
    TokensUnfold(s, [c]);
  }

  /** Splitting is a homomorphism at every delimiter.  With `TokensWithout`
      this fixes `Tokens` on every string. */
  lemma {:induction false} TokensAppend(a: string, b: string, c: char)
    ensures Tokens(a + [c] + b, [c]) == Tokens(a, [c]) + Tokens(b, [c])
    decreases |a|
  {
    var s := a + [c] + b;
    FindChar(a, c);
    TokensUnfold(a, [c]);
    TokensUnfold(s, [c]);
    match FindFrom(a, [c], 0) {
      case None =>
        FirstChar(s, c, |a|);
        assert s[..|a|] == a && s[|a| + 1..] == b;
      case Some(e) =>
        FirstChar(s, c, e);
        assert s[..e] == a[..e] && s[e + 1..] == a[e + 1..] + [c] + b;
        TokensAppend(a[e + 1..], b, c);
        Regroup(NonEmpty(a[..e]), Tokens(a[e + 1..], [c]), Tokens(b, [c]));
    }
  }

  /** No token is empty or contains the delimiter. */
  lemma {:induction false} TokensClean(s: string, c: char)
    ensures forall t | t in Tokens(s, [c]) :: t != [] && c !in t
    decreases |s|
  {
    FindChar(s, c);
    TokensUnfold(s, [c]);
    match FindFrom(s, [c], 0) {
      case None =>
      case Some(e) =>
        var rest := s[e + 1..];
        TokensClean(rest, c);
        forall t | t in NonEmpty(s[..e]) + Tokens(rest, [c]) ensures t != [] && c !in t {
          assert t in NonEmpty(s[..e]) || t in Tokens(rest, [c]);
        }
    }
  }

  // ---- parent folder ----

  function Joined(tokens: seq<string>): string
  {
    if tokens == [] then "" else Joined(tokens[..|tokens| - 1]) + tokens[|tokens| - 1] + "/"
  }

  /** Every component is followed by its slash. */
  lemma {:induction false} JoinedCons(token: string, rest: seq<string>)
    ensures Joined([token] + rest) == token + "/" + Joined(rest) && Joined([]) == ""
    decreases |rest|
  {
    var all := [token] + rest;
    if rest == [] {
      assert all[..0] == [] && all[0] == token;
    } else {
      var n := |rest| - 1;
      assert all[..|all| - 1] == [token] + rest[..n];
      JoinedCons(token, rest[..n]);
    }
  }

  method GetParentFolderPath(filepath: string) returns (parentPath: string)
    ensures SplitFilepath(filepath) == [] ==> parentPath == ""
    ensures SplitFilepath(filepath) != [] ==>
              parentPath == Joined(SplitFilepath(filepath)[..|SplitFilepath(filepath)| - 1])
  {
    var tokens := SplitString(filepath, "/");
    parentPath := "";
    if |tokens| > 1 {
      for i := 0 to |tokens| - 1
        invariant parentPath == Joined(tokens[..i])
      {
        assert tokens[..i + 1][..i] == tokens[..i];
        parentPath := parentPath + tokens[i] + "/";
      }
    }
  }

  lemma JoinedAppend(tokens: seq<string>, rest: string)
    requires tokens != []
    ensures SplitFilepath(Joined(tokens) + rest) == SplitFilepath(Joined(tokens)) + SplitFilepath(rest)
  {
    var n := |tokens| - 1;
    var body := Joined(tokens[..n]) + tokens[n];
    assert Joined(tokens) == body + ['/'] + "";
    assert Joined(tokens) + rest == body + ['/'] + rest;
    TokensAppend(body, "", '/');
    TokensAppend(body, rest, '/');
    TokensWithout("", '/');
  }

  /** Joining clean components and splitting again is the identity, so a parent
      path names exactly the components before the last one. */
  lemma {:induction false} SplitJoined(tokens: seq<string>)
    requires forall i | 0 <= i < |tokens| :: tokens[i] != [] && '/' !in tokens[i]
    ensures SplitFilepath(Joined(tokens)) == tokens
    decreases |tokens|
  {
    TokensWithout("", '/');
    if tokens != [] {
      var n := |tokens| - 1;
      var last := tokens[n];
      SplitJoined(tokens[..n]);
      TokensWithout(last, '/');
      TokensAppend(Joined(tokens[..n]) + last, "", '/');
      assert Joined(tokens) == (Joined(tokens[..n]) + last) + ['/'] + "";
      if n > 0 {
        JoinedAppend(tokens[..n], last);
      } else {
        assert Joined(tokens[..0]) + last == last;
      }
      assert SplitFilepath(Joined(tokens[..n]) + last) == tokens[..n] + [last] == tokens;
    }
  }
}
