/** server/src/SNSServer.cpp: the userinfo log.  Live requests append to it;
    a starting server replays it through helpers that validate nothing. */
module UserInfoLog {
  import opened Text
  import opened Social
  import opened LocalTime

  // ---- writing ----

  function UserLine(u: string): string
  {
    "user " + u
  }

  function FollowLine(a: string, b: string, time: string): string
  {
    "follow " + a + " " + b + " " + time
  }

  function UnFollowLine(a: string, b: string): string
  {
    "unfollow " + a + " " + b
  }

  /** What serving `r` in state `g` appends: nothing unless something changed. */
  function LogOf(z: Zone, g: Graph, r: Request): string
  {
    match r
    case LoginReq(u) =>
      if u in g.accounts && g.accounts[u].connected then "" else UserLine(u) + "\n"
    case FollowReq(a, b, t) =>
      if FollowOutcome(g, a, b) == Replied(SUCCESS) then FollowLine(a, b, z.Str(t)) + "\n" else ""
    case UnFollowReq(a, b) =>
      if UnFollowOutcome(g, a, b) == Replied(SUCCESS) then UnFollowLine(a, b) + "\n" else ""
  }

  // ---- replaying ----

  /** `followHelper`; `None` where it dereferences null or throws. */
  function ReplayFollow(z: Zone, g: Graph, a: string, b: string, time: string): Option<Graph>
  {
    var t := z.Read(time);
    if a in g.accounts && b in g.accounts && t.Some? then Some(AddEdge(g, a, b, t.value)) else None
  }

  /** One line of `processUserInfoFromFile`; `None` where the server dies. */
  function ReplayLine(z: Zone, g: Graph, line: string): Option<Graph>
  {
    var args := GetLines(line, ' ');
    if args == [] then None
    else if args[0] == "user" then
      if |args| < 2 then None else Some(Enter(g, args[1]))
    else if args[0] == "follow" then
      if |args| < 4 then None else ReplayFollow(z, g, args[1], args[2], args[3])
    else if args[0] == "unfollow" then
      if |args| < 3 then None else RemoveEdge(g, args[1], args[2])
    else Some(g)
  }

  function ReplayLines(z: Zone, g: Graph, lines: seq<string>): Option<Graph>
  {
    if lines == [] then Some(g)
    else
      match ReplayLines(z, g, lines[..|lines| - 1])
      case Some(g') => ReplayLine(z, g', lines[|lines| - 1])
      case None => None
  }

  function ReplayText(z: Zone, text: string): Option<Graph>
  {
    ReplayLines(z, EMPTY_GRAPH, GetLines(text, '\n'))
  }

  // ---- files of whole lines ----

  predicate WholeLines(text: string)
  {
    text == [] || text[|text| - 1] == '\n'
  }

  /** The replay's own copy, and what `FSLocal::read` returns. */
  function Unlines(lines: seq<string>): string
  {
    if lines == [] then "" else Unlines(lines[..|lines| - 1]) + lines[|lines| - 1] + "\n"
  }

  lemma {:induction false} UnlinesCons(line: string, lines: seq<string>)
    ensures Unlines([line] + lines) == line + "\n" + Unlines(lines)
    decreases |lines|
  {
    var all := [line] + lines;
    if lines == [] {
      assert all[..0] == [] && all[0] == line;
    } else {
      var n := |lines| - 1;
      assert all[..|all| - 1] == [line] + lines[..n];
      UnlinesCons(line, lines[..n]);
    }
  }

  lemma RewriteFirstLine(line: string, rest: string)
    requires '\n' !in line
    ensures Unlines(GetLines(line + ['\n'] + rest, '\n')) == line + ['\n'] + Unlines(GetLines(rest, '\n'))
  {
    hide GetLines, Unlines;
    GetLinesStep(line, rest, '\n');
    UnlinesCons(line, GetLines(rest, '\n'));
  }

  lemma RewriteLastLine(line: string)
    requires '\n' !in line && line != ""
    ensures Unlines(GetLines(line, '\n')) == line + "\n"
  {
    GetLinesLast(line, '\n');
    UnlinesCons(line, []);
    assert [line] + [] == [line];
  }

  /** Reading line by line and writing every line back reproduces a file, up to the
      newline that its last line may lack. */
  lemma {:induction false} RewriteIsExact(text: string)
    ensures Unlines(GetLines(text, '\n')) == if WholeLines(text) then text else text + "\n"
    ensures Unlines(GetLines(text, '\n')) == text <==> WholeLines(text)
    decreases |text|
  {
    assert |text + "\n"| == |text| + 1;
    if text == "" {
    } else if '\n' in text {
      hide GetLines, Unlines, FindFrom;
      FindChar(text, '\n');
      var e := FindFrom(text, ['\n'], 0).value;
      var line, rest := text[..e], text[e + 1..];
      assert text == line + ['\n'] + rest;
      RewriteFirstLine(line, rest);
      RewriteIsExact(rest);
      assert line + ['\n'] + (rest + "\n") == text + "\n";
    } else {
      hide GetLines, Unlines;
      RewriteLastLine(text);
      assert text[|text| - 1] in text;
    }
  }

  lemma LogOfIsWholeLines(z: Zone, g: Graph, r: Request)
    ensures WholeLines(LogOf(z, g, r))
  {
  }

  // ---- one line read back ----

  lemma WordsOf3(op: string, a: string, b: string)
    requires Word(op) && Word(a) && Word(b)
    ensures GetLines(op + " " + a + " " + b, ' ') == [op, a, b]
  {
    var rest := a + " " + b;
    assert op + " " + a + " " + b == op + [' '] + rest;
    assert rest == a + [' '] + b;
    GetLinesStep(op, rest, ' ');
    GetLinesStep(a, b, ' ');
    GetLinesLast(b, ' ');
  }

  lemma {:induction false} WordsOf4(op: string, a: string, b: string, c: string)
    requires Word(op) && Word(a) && Word(b) && Word(c)
    ensures GetLines(op + " " + a + " " + b + " " + c, ' ') == [op, a, b, c]
  {
    var rest := a + " " + b + " " + c;
    assert op + " " + a + " " + b + " " + c == op + [' '] + rest;
    GetLinesStep(op, rest, ' ');
    WordsOf3(a, b, c);
  }

  // The helper behind each kind of line redoes what the request did.

  lemma ReplayUser(z: Zone, g: Graph, u: string)
    requires Word(u)
    ensures '\n' !in UserLine(u) && ReplayLine(z, g, UserLine(u)) == Some(Enter(g, u))
  {
    assert UserLine(u) == "user" + [' '] + u;
    GetLinesStep("user", u, ' ');
    GetLinesLast(u, ' ');
  }

  lemma ReplayFollows(z: Zone, g: Graph, a: string, b: string, t: Timestamp)
    requires Word(a) && Word(b) && Word(z.Str(t)) && a in g.accounts && b in g.accounts
    ensures var line, t' := FollowLine(a, b, z.Str(t)), z.Read(z.Str(t));
            '\n' !in line && ReplayLine(z, g, line) == if t'.Some? then Some(AddEdge(g, a, b, t'.value)) else None
  {
    hide GetLines;
    WordsOf4("follow", a, b, z.Str(t));
    assert FollowLine(a, b, z.Str(t)) == "follow" + " " + a + " " + b + " " + z.Str(t);
  }

  lemma ReplayUnFollows(z: Zone, g: Graph, a: string, b: string)
    requires Word(a) && Word(b)
    ensures var line := UnFollowLine(a, b);
            '\n' !in line && ReplayLine(z, g, line) == RemoveEdge(g, a, b)
  {
    hide RemoveEdge, GetLines;
    WordsOf3("unfollow", a, b);
    assert UnFollowLine(a, b) == "unfollow" + " " + a + " " + b;
  }

  /** More text is replayed from where the earlier text left off. */
  lemma {:induction false} ReplayLinesAppend(z: Zone, g: Graph, a: seq<string>, b: seq<string>)
    ensures ReplayLines(z, g, a + b) ==
            match ReplayLines(z, g, a)
            case Some(g') => ReplayLines(z, g', b)
            case None => None
    decreases |b|
  {
    if b == [] {
      assert a + b == a;
    } else {
      var n := |b| - 1;
      assert (a + b)[..|a + b| - 1] == a + b[..n];
      ReplayLinesAppend(z, g, a, b[..n]);
    }
  }

  lemma ReplayTextAppend(z: Zone, text: string, more: string)
    requires WholeLines(text)
    ensures ReplayText(z, text + more) ==
            match ReplayText(z, text)
            case Some(g) => ReplayLines(z, g, GetLines(more, '\n'))
            case None => None
  {
    GetLinesAppend(text, more, '\n');
    ReplayLinesAppend(z, EMPTY_GRAPH, GetLines(text, '\n'), GetLines(more, '\n'));
  }

  lemma OneMoreLine(z: Zone, g: Graph, line: string)
    requires '\n' !in line
    ensures ReplayLines(z, g, GetLines(line + "\n", '\n')) == ReplayLine(z, g, line)
  {
    assert line + "\n" == line + ['\n'] + "";
    GetLinesStep(line, "", '\n');
    assert [line][..0] == [];
    assert ReplayLines(z, g, []) == Some(g);
  }

  // ---- replay never forgets a user ----

  lemma ReplayLineExtends(z: Zone, g: Graph, line: string)
    ensures ReplayLine(z, g, line).Some? ==> g.db <= ReplayLine(z, g, line).value.db
  {
  }

  lemma {:induction false} ReplayLinesExtend(z: Zone, g: Graph, lines: seq<string>)
    ensures ReplayLines(z, g, lines).Some? ==> g.db <= ReplayLines(z, g, lines).value.db
    decreases |lines|
  {
    if lines != [] {
      var n := |lines| - 1;
      ReplayLinesExtend(z, g, lines[..n]);
      match ReplayLines(z, g, lines[..n]) {
        case Some(g') => ReplayLineExtends(z, g', lines[n]);
        case None =>
      }
    }
  }

  // ---- lines that nobody writes ----

  lemma OneWord(op: string)
    requires Word(op)
    ensures GetLines(op, ' ') == [op]
  {
    GetLinesLast(op, ' ');
  }

  lemma TwoWords(op: string, a: string)
    requires Word(op) && Word(a)
    ensures GetLines(op + " " + a, ' ') == [op, a]
  {
    assert op + " " + a == op + [' '] + a;
    GetLinesStep(op, a, ' ');
    GetLinesLast(a, ' ');
  }

  /** A line of another kind is skipped; an empty line, and one with too few words,
      kills the server. */
  lemma {:induction false} StrangeLines(z: Zone, g: Graph, op: string, a: string, b: string)
    requires Word(op) && Word(a) && Word(b) && op != "user" && op != "follow" && op != "unfollow"
    ensures ReplayLine(z, g, op) == Some(g) && ReplayLine(z, g, op + " " + a) == Some(g)
    ensures ReplayLine(z, g, "").None? && ReplayLine(z, g, "user").None?
    ensures ReplayLine(z, g, "follow").None? && ReplayLine(z, g, "unfollow").None?
    ensures ReplayLine(z, g, "follow" + " " + a).None? && ReplayLine(z, g, "unfollow" + " " + a).None?
    ensures ReplayLine(z, g, "follow" + " " + a + " " + b).None?
  {
    EmptyLine();
    hide GetLines, ReplayFollow, RemoveEdge, Enter;
    OneWord(op);
    TwoWords(op, a);
    OneWord("user");
    OneWord("follow");
    OneWord("unfollow");
    TwoWords("follow", a);
    TwoWords("unfollow", a);
    WordsOf3("follow", a, b);
  }

  lemma EmptyLine()
    ensures GetLines("", ' ') == []
  {
  }

  // ---- names that do not survive ----

  /** The line of a user ends at the first newline, which may be in the name. */
  lemma {:induction false} FirstLine(u: string) returns (name: string, rest: seq<string>)
    ensures GetLines(UserLine(u) + "\n", '\n') == ["user" + [' '] + name] + rest
    ensures '\n' !in name && |name| <= |u| && (u == "" ==> name == "")
  {
    var text := UserLine(u) + "\n";
    assert text[|UserLine(u)|] == '\n';
    FindChar(text, '\n');
    var e := FindFrom(text, ['\n'], 0).value;
    assert e >= 5 by {
      assert forall k | 0 <= k < 5 :: text[k] == "user "[k];
    }
    name, rest := text[5..e], GetLines(text[e + 1..], '\n');
    assert text[..e] == "user" + [' '] + name;
    assert forall k | 0 <= k < |name| :: name[k] == text[..e][5 + k];
  }

  lemma OtherName(u: string, name: string)
    requires !Word(u) && '\n' !in name && (u == "" ==> name == "")
    ensures var args := GetLines(name, ' '); args == [] || args[0] != u
  {
    GetLinesClean(name, ' ');
    var args := GetLines(name, ' ');
    assert args != [] ==> args[0] in args;
    assert name != [] ==> args != [];
  }

  /** The replay of a bad name's line dies, or enters some other name. */
  lemma BadNameLine(z: Zone, g: Graph, u: string)
    requires !Word(u)
    ensures var r := ReplayLines(z, g, GetLines(UserLine(u) + "\n", '\n'));
            r.None? || (|r.value.db| > |g.db| && g.db <= r.value.db && r.value.db[|g.db|] != u)
  {
    hide GetLines;
    var name, rest := FirstLine(u);
    var first := "user" + [' '] + name;
    GetLinesStep("user", name, ' ');
    OtherName(u, name);
    var args := GetLines(name, ' ');
    ReplayLinesAppend(z, g, [first], rest);
    assert [first][..0] == [];
    assert ReplayLines(z, g, [first]) == ReplayLine(z, g, first);
    if args != [] {
      assert ReplayLine(z, g, first) == Some(Enter(g, args[0]));
      ReplayLinesExtend(z, Enter(g, args[0]), rest);
    }
  }
}
