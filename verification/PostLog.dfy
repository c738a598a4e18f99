/** server/src/SNSServer.cpp: the post log.  Posts are written by
    `formatMessageOutput` and read back with a splitter that resumes inside the
    delimiter it has just found. */
module PostLog {
  import opened Text
  import opened FilesystemUtils
  import opened Social
  import opened LocalTime

  // ---- writing ----

  function PostBody(z: Zone, p: Post): string
  {
    "T " + z.Str(p.timestamp) + "\nU " + p.username + "\nW " + p.data
  }

  /** `formatMessageOutput`. */
  function PostText(z: Zone, p: Post): string
  {
    PostBody(z, p) + "\n\n"
  }

  function PostsText(z: Zone, ps: seq<Post>): string
  {
    if ps == [] then "" else PostsText(z, ps[..|ps| - 1]) + PostText(z, ps[|ps| - 1])
  }

  // ---- reading ----

  /** One token of the file: nothing but newlines, a post, or unreadable. */
  datatype Parsed = Blank | Readable(post: Post) | Broken

  function ParseToken(z: Zone, token: string): Parsed
  {
    var parts := Tokens(token, "\n");
    if parts == [] then Blank
    else if |parts| < 3 || |parts[0]| < 2 || |parts[1]| < 2 || |parts[2]| < 2 then Broken
    else
      match z.Read(parts[0][2..])
      case Some(t) => Readable(Post(parts[1][2..], parts[2][2..], t))
      case None => Broken
  }

  function ParseTokens(z: Zone, tokens: seq<string>): Option<seq<Post>>
  {
    if tokens == [] then Some([])
    else
      match (ParseTokens(z, tokens[..|tokens| - 1]), ParseToken(z, tokens[|tokens| - 1]))
      case (Some(ps), Readable(p)) => Some(ps + [p])
      case (Some(ps), Blank) => Some(ps)
      case _ => None
  }

  /** The posts in a file; `None` when reading it kills the server. */
  function ParsePosts(z: Zone, text: string): Option<seq<Post>>
  {
    ParseTokens(z, Tokens(text, "\n\n"))
  }

  /** A token is skipped exactly if it holds nothing but newlines; otherwise it kills
      the server exactly if it has fewer than three lines (empty ones do not count),
      or one of the first three is a single character, or the time after the first
      two characters cannot be read. */
  lemma TokenKinds(z: Zone, token: string)
    ensures var lines, r := Tokens(token, "\n"), ParseToken(z, token);
            && (r == Blank <==> forall c | c in token :: c == '\n')
            && (r == Broken <==>
                  && lines != []
                  && (|lines| < 3 || |lines[0]| == 1 || |lines[1]| == 1 || |lines[2]| == 1
                      || (|lines[0]| > 1 && z.parse(lines[0][2..]).None?)))
            && (r.Readable? ==>
                  && |lines| >= 3 && |lines[0]| >= 2 && |lines[1]| >= 2 && |lines[2]| >= 2
                  && z.parse(lines[0][2..]) == Some(r.post.timestamp.seconds) && r.post.timestamp.nanos == 0
                  && lines[1][2..] == r.post.username && lines[2][2..] == r.post.data)
  {
    hide Tokens;
    var lines := Tokens(token, "\n");
    NoTokensIff(token, '\n');
    TokensClean(token, '\n');
    assert forall k | 0 <= k < |lines| :: lines[k] in lines;
    assert |lines| >= 3 ==> |lines[0]| > 0 && |lines[1]| > 0 && |lines[2]| > 0;
  }

  // ---- round trip ----

  predicate OneLine(s: string)
  {
    '\n' !in s
  }

  /** A post that survives being written down. */
  predicate Survives(z: Zone, p: Post)
  {
    OneLine(p.username) && OneLine(p.data) && z.Faithful(p.timestamp)
  }

  lemma {:induction false} ParseTokensAppend(z: Zone, a: seq<string>, b: seq<string>)
    ensures ParseTokens(z, a + b) ==
            match (ParseTokens(z, a), ParseTokens(z, b))
            case (Some(ps), Some(qs)) => Some(ps + qs)
            case _ => None
    decreases |b|
  {
    if b == [] {
      assert a + b == a;
      match ParseTokens(z, a) {
        case Some(ps) => assert ps + [] == ps;
        case None =>
      }
    } else {
      var n := |b| - 1;
      assert (a + b)[..|a + b| - 1] == a + b[..n];
      ParseTokensAppend(z, a, b[..n]);
      match (ParseTokens(z, a), ParseTokens(z, b[..n]), ParseToken(z, b[n])) {
        case (Some(ps), Some(qs), Readable(p)) =>
          assert ps + (qs + [p]) == ps + qs + [p];
        case _ =>
      }
    }
  }

  lemma {:induction false} LogAppend(z: Zone, ps: seq<Post>, qs: seq<Post>)
    ensures PostsText(z, ps + qs) == PostsText(z, ps) + PostsText(z, qs)
    decreases |qs|
  {
    if qs == [] {
      assert ps + qs == ps;
    } else {
      var n := |qs| - 1;
      assert (ps + qs)[..|ps + qs| - 1] == ps + qs[..n];
      LogAppend(z, ps, qs[..n]);
    }
  }

  lemma ThreeLines(t: string, u: string, w: string)
    requires OneLine(t) && OneLine(u) && OneLine(w) && t != [] && u != [] && w != []
    ensures Tokens(t + ['\n'] + (u + ['\n'] + w), ['\n']) == [t, u, w]
  {
    TokensWithout(t, '\n');
    TokensWithout(u, '\n');
    TokensWithout(w, '\n');
    TokensAppend(u, w, '\n');
    TokensAppend(t, u + ['\n'] + w, '\n');
  }

  lemma LeadingNewline(body: string)
    ensures Tokens("\n" + body, ['\n']) == Tokens(body, ['\n'])
  {
    TokensWithout("", '\n');
    TokensAppend("", body, '\n');
    assert "" + ['\n'] + body == "\n" + body;
  }

  /** The body of a post splits into its three lines, with or without the
      newline that the splitter leaves in front of it. */
  lemma BodyParts(z: Zone, p: Post, lead: string)
    requires OneLine(z.Str(p.timestamp)) && OneLine(p.username) && OneLine(p.data)
    requires lead == "" || lead == "\n"
    ensures Tokens(lead + PostBody(z, p), "\n") ==
            ["T " + z.Str(p.timestamp), "U " + p.username, "W " + p.data]
  {
    var t, u, w := "T " + z.Str(p.timestamp), "U " + p.username, "W " + p.data;
    assert PostBody(z, p) == t + ['\n'] + (u + ['\n'] + w);
    ThreeLines(t, u, w);
    if lead == "" {
      assert lead + PostBody(z, p) == PostBody(z, p);
    } else {
      LeadingNewline(PostBody(z, p));
    }
  }

  /** No two newlines in a row, and none at the end. */
  ghost predicate NoBlankLine(s: string)
  {
    s != [] && s[|s| - 1] != '\n' && forall k: nat | k + 1 < |s| :: s[k] != '\n' || s[k + 1] != '\n'
  }

  lemma NoBlankLineJoin(a: string, b: string)
    requires NoBlankLine(a) && NoBlankLine(b)
    ensures NoBlankLine(a + b)
  {
  }

  lemma LineHasNoBlank(head: string, rest: string)
    requires NoBlankLine(head) && OneLine(rest)
    ensures NoBlankLine(head + rest)
  {
    assert rest != [] ==> rest[|rest| - 1] in rest;
    assert forall k | 0 <= k < |rest| :: rest[k] in rest;
  }

  lemma BodyHasNoBlank(z: Zone, p: Post, lead: string)
    requires OneLine(z.Str(p.timestamp)) && OneLine(p.username) && OneLine(p.data)
    requires lead == "" || lead == "\n"
    ensures NoBlankLine(lead + PostBody(z, p))
  {
    var t, u, w := (lead + "T ") + z.Str(p.timestamp), "\nU " + p.username, "\nW " + p.data;
    LineHasNoBlank(lead + "T ", z.Str(p.timestamp));
    LineHasNoBlank("\nU ", p.username);
    LineHasNoBlank("\nW ", p.data);
    NoBlankLineJoin(t, u);
    NoBlankLineJoin(t + u, w);
    assert t + u + w == lead + PostBody(z, p);
  }

  /** So the first blank line of a body and a blank line is that blank line. */
  lemma BlankLineAtEnd(body: string, tail: string)
    requires NoBlankLine(body)
    ensures FindFrom(body + "\n\n" + tail, "\n\n", 0) == Some(|body|)
  {
    var s := body + "\n\n" + tail;
    assert s[|body|..|body| + 2] == "\n\n";
    forall k: nat | k < |body| ensures !MatchAt(s, "\n\n", k) {
      assert s[k] == body[k];
      assert s[k] != '\n' || s[k + 1] != '\n';
      assert s[k..k + 2] == [s[k], s[k + 1]];
    }
    FindIs(s, "\n\n", |body|);
  }

  lemma LogHead(z: Zone, p: Post, rest: seq<Post>)
    ensures PostsText(z, [p] + rest) == PostText(z, p) + PostsText(z, rest)
  {
    LogAppend(z, [p], rest);
    assert [p][..0] == [];
    assert PostsText(z, []) == "";
  }

  /** The tokens of a log, given the newline left over by the token before. */
  lemma LogTokens(z: Zone, p: Post, rest: seq<Post>, lead: string)
    requires OneLine(z.Str(p.timestamp)) && OneLine(p.username) && OneLine(p.data)
    requires lead == "" || lead == "\n"
    ensures Tokens(lead + PostsText(z, [p] + rest), "\n\n") ==
            [lead + PostBody(z, p)] + Tokens("\n" + PostsText(z, rest), "\n\n")
  {
    LogText(z, p, rest, lead);
    BodyHasNoBlank(z, p, lead);
    FirstToken(lead + PostBody(z, p), PostsText(z, rest));
  }

  lemma LogText(z: Zone, p: Post, rest: seq<Post>, lead: string)
    ensures lead + PostsText(z, [p] + rest) == lead + PostBody(z, p) + "\n\n" + PostsText(z, rest)
  {
    LogHead(z, p, rest);
    var body, tail := PostBody(z, p), PostsText(z, rest);
    assert lead + (body + "\n\n" + tail) == lead + body + "\n\n" + tail;
  }

  lemma CutInBlankLine(body: string, tail: string)
    ensures (body + "\n\n" + tail)[..|body|] == body
    ensures (body + "\n\n" + tail)[|body| + 1..] == "\n" + tail
  {
  }

  lemma FirstToken(body: string, tail: string)
    requires NoBlankLine(body)
    ensures Tokens(body + "\n\n" + tail, "\n\n") == [body] + Tokens("\n" + tail, "\n\n")
  {
    BlankLineAtEnd(body, tail);
    CutInBlankLine(body, tail);
    TokenBefore(body + "\n\n" + tail, "\n\n", body, "\n" + tail);
  }

  lemma ParseBody(z: Zone, p: Post, lead: string)
    requires OneLine(z.Str(p.timestamp)) && OneLine(p.username) && OneLine(p.data)
    requires lead == "" || lead == "\n"
    ensures ParseToken(z, lead + PostBody(z, p)) ==
            match z.Read(z.Str(p.timestamp))
            case Some(t) => Readable(p.(timestamp := t))
            case None => Broken
  {
    BodyParts(z, p, lead);
    assert ("T " + z.Str(p.timestamp))[2..] == z.Str(p.timestamp);
    assert ("U " + p.username)[2..] == p.username;
    assert ("W " + p.data)[2..] == p.data;
  }

  lemma DanglingToken(z: Zone, lead: string)
    requires lead == "" || lead == "\n"
    ensures ParseTokens(z, Tokens(lead + PostsText(z, []), "\n\n")) == Some([])
  {
    assert lead + PostsText(z, []) == lead;
    assert Tokens(lead, "\n\n") == NonEmpty(lead);
    if lead != "" {
      TokensWithout("", '\n');
      LeadingNewline("");
      assert ParseToken(z, lead) == Blank;
      assert [lead][..0] == [];
      assert ParseTokens(z, []) == Some([]);
    }
  }

  lemma SameCons<T>(a: T, b: T, s: seq<T>, t: seq<T>)
    ensures [a] + s == [b] + t <==> a == b && s == t
  {
    assert ([a] + s)[0] == a && ([b] + t)[0] == b;
    assert ([a] + s)[1..] == s && ([b] + t)[1..] == t;
  }

  /** The first post of a log is read first, then the posts of the rest. */
  lemma ParseHead(z: Zone, p: Post, rest: seq<Post>, lead: string)
    requires OneLine(z.Str(p.timestamp)) && OneLine(p.username) && OneLine(p.data)
    requires lead == "" || lead == "\n"
    ensures var t, qs := z.Read(z.Str(p.timestamp)), ParseTokens(z, Tokens("\n" + PostsText(z, rest), "\n\n"));
            ParseTokens(z, Tokens(lead + PostsText(z, [p] + rest), "\n\n")) ==
            if t.Some? && qs.Some? then Some([p.(timestamp := t.value)] + qs.value) else None
  {
    var first, others := [lead + PostBody(z, p)], Tokens("\n" + PostsText(z, rest), "\n\n");
    LogTokens(z, p, rest, lead);
    ParseBody(z, p, lead);
    ParseTokensAppend(z, first, others);
    ParseOne(z, lead + PostBody(z, p));
  }

  lemma ParseOne(z: Zone, token: string)
    ensures ParseTokens(z, [token]) ==
            match ParseToken(z, token)
            case Readable(p) => Some([p])
            case Blank => Some([])
            case Broken => None
  {
    assert [token][..0] == [];
    assert ParseTokens(z, []) == Some([]);
    match ParseToken(z, token) {
      case Readable(p) => assert [] + [p] == [p];
      case _ =>
    }
  }

  /** Posts of one-line names and contents are read back, in order, exactly when
      their timestamps are. */
  lemma {:induction false} OneLinePosts(z: Zone, ps: seq<Post>, lead: string)
    requires z.PrintsWords()
    requires lead == "" || lead == "\n"
    requires forall p | p in ps :: OneLine(p.username) && OneLine(p.data)
    ensures ParseTokens(z, Tokens(lead + PostsText(z, ps), "\n\n")) == Some(ps)
            <==> forall p | p in ps :: z.Faithful(p.timestamp)
    decreases |ps|
  {
    if ps == [] {
      DanglingToken(z, lead);
    } else {
      var p, rest := ps[0], ps[1..];
      assert ps == [p] + rest;
      assert Word(z.format(p.timestamp.seconds));
      OneLinePosts(z, rest, "\n");
      ParseHead(z, p, rest, lead);
      var t, qs := z.Read(z.Str(p.timestamp)), ParseTokens(z, Tokens("\n" + PostsText(z, rest), "\n\n"));
      if t.Some? && qs.Some? {
        SameCons(p.(timestamp := t.value), p, qs.value, rest);
      }
      assert (forall q | q in ps :: z.Faithful(q.timestamp))
             <==> z.Faithful(p.timestamp) && forall q | q in rest :: z.Faithful(q.timestamp);
    }
  }

  /** Whatever is read has one-line names and contents. */
  lemma {:induction false} ReadIsOneLine(z: Zone, tokens: seq<string>)
    ensures ParseTokens(z, tokens).Some? ==>
              forall p | p in ParseTokens(z, tokens).value :: OneLine(p.username) && OneLine(p.data)
    decreases |tokens|
  {
    if tokens != [] {
      var token := tokens[|tokens| - 1];
      ReadIsOneLine(z, tokens[..|tokens| - 1]);
      TokensClean(token, '\n');
      var parts := Tokens(token, "\n");
      assert |parts| >= 3 ==> parts[1] in parts && parts[2] in parts;
    }
  }

  /** The post log round trip, on every list of posts. */
  lemma PostsAreReadBackIff(z: Zone, ps: seq<Post>)
    requires z.PrintsWords()
    ensures ParsePosts(z, PostsText(z, ps)) == Some(ps) <==> forall p | p in ps :: Survives(z, p)
  {
    assert "" + PostsText(z, ps) == PostsText(z, ps);
    ReadIsOneLine(z, Tokens(PostsText(z, ps), "\n\n"));
    if forall p | p in ps :: OneLine(p.username) && OneLine(p.data) {
      OneLinePosts(z, ps, "");
    }
  }
}
