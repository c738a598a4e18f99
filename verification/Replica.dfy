/** server/src/SNSServer.cpp: one server's memory and its two log files, over
    whole runs; starting from files and from another server's logs. */
module Replica {
  import opened Text
  import opened Social
  import opened LocalTime
  import opened UserInfoLog
  import opened PostLog

  datatype Server = Server(graph: Graph, posts: seq<Post>, userinfo: string, postlog: string, alive: bool)

  const NEW_SERVER := Server(EMPTY_GRAPH, [], "", "", true)

  /** `Ask` is Login, Follow or UnFollow; `AddPost` is the replication RPC;
      `Chat` is a message on a timeline stream that is already open. */
  datatype Command = Ask(request: Request) | AddPost(post: Post) | Chat(post: Post)

  /** `addPostHelper`: memory and file first, then the author's followers. */
  function Posted(z: Zone, s: Server, p: Post): Server
  {
    s.(posts := s.posts + [p], postlog := s.postlog + PostText(z, p), alive := p.username in s.graph.accounts)
  }

  function Step(z: Zone, s: Server, c: Command): Server
  {
    if !s.alive then s
    else
      match c
      case Ask(r) =>
        if OutcomeOf(s.graph, r) == Fault then s.(alive := false)
        else s.(graph := Serve(s.graph, r), userinfo := s.userinfo + LogOf(z, s.graph, r))
      case AddPost(p) => Posted(z, s, p)
      case Chat(p) =>
        if p.username !in s.graph.accounts then s.(alive := false)
        else if p.data == "" then s
        else Posted(z, s, p)
  }

  function Run(z: Zone, cs: seq<Command>): Server
  {
    if cs == [] then NEW_SERVER else Step(z, Run(z, cs[..|cs| - 1]), cs[|cs| - 1])
  }

  // ---- starting ----

  predicate AuthorsIn(g: Graph, ps: seq<Post>)
  {
    forall i | 0 <= i < |ps| :: ps[i].username in g.accounts
  }

  /** Memory after both replays; `None` when one of them kills the server. */
  function Recover(z: Zone, userinfo: string, postlog: string): Option<(Graph, seq<Post>)>
  {
    match (ReplayText(z, userinfo), ParsePosts(z, postlog))
    case (Some(g), Some(ps)) => if AuthorsIn(g, ps) then Some((g, ps)) else None
    case _ => None
  }

  /** `FSLocal::read`. */
  function ReadLocal(text: string): string
  {
    Unlines(GetLines(text, '\n'))
  }

  /** `GetLog`. */
  function GetLog(s: Server): (string, string)
  {
    (ReadLocal(s.userinfo), ReadLocal(s.postlog))
  }

  /** `initializeData` with no sync address: the files are read, not rewritten. */
  function StartFromFiles(z: Zone, userinfo: string, postlog: string): Option<Server>
  {
    match Recover(z, ReadLocal(userinfo), ReadLocal(postlog))
    case Some((g, ps)) => Some(Server(g, ps, userinfo, postlog, true))
    case None => None
  }

  /** `initializeData` with a sync address: the files are cleared and every line
      and every post is written back while it is replayed. */
  function StartFromLog(z: Zone, log: (string, string)): Option<Server>
  {
    match Recover(z, log.0, log.1)
    case Some((g, ps)) => Some(Server(g, ps, Unlines(GetLines(log.0, '\n')), PostsText(z, ps), true))
    case None => None
  }

  // ---- the invariant of every run ----

  predicate WordNames(g: Graph)
  {
    forall i | 0 <= i < |g.db| :: Word(g.db[i])
  }

  // ---- follow times after the replay ----

  function Reread(z: Zone, t: Timestamp): Timestamp
  {
    match z.Read(z.Str(t))
    case Some(t') => t'
    case None => t
  }

  function RereadAll(z: Zone, ts: seq<Timestamp>): (r: seq<Timestamp>)
    ensures |r| == |ts| && forall k | 0 <= k < |ts| :: r[k] == Reread(z, ts[k])
  {
    seq(|ts|, k requires 0 <= k < |ts| => Reread(z, ts[k]))
  }

  /** The graph with every follow time printed and read back. */
  function RereadGraph(z: Zone, g: Graph): Graph
  {
    g.(accounts := map u | u in g.accounts :: g.accounts[u].(times := RereadAll(z, g.accounts[u].times)))
  }

  ghost predicate TimesReadable(z: Zone, g: Graph)
  {
    forall u, k | u in g.accounts && 0 <= k < |g.accounts[u].times| :: z.Read(z.Str(g.accounts[u].times[k])).Some?
  }

  predicate TimesSurvive(z: Zone, g: Graph)
  {
    forall u | u in g.accounts :: forall k | 0 <= k < |g.accounts[u].times| :: z.Faithful(g.accounts[u].times[k])
  }

  /** The times of readable follows come back the same exactly if all survive. */
  lemma SameTimesIff(z: Zone, g: Graph)
    requires TimesReadable(z, g)
    ensures RereadGraph(z, g) == g <==> TimesSurvive(z, g)
  {
    var g' := RereadGraph(z, g);
    if g' == g {
      forall u, k | u in g.accounts && 0 <= k < |g.accounts[u].times|
        ensures z.Faithful(g.accounts[u].times[k])
      {
        assert g'.accounts[u].times[k] == Reread(z, g.accounts[u].times[k]);
      }
    }
    if TimesSurvive(z, g) {
      forall u | u in g.accounts ensures g'.accounts[u] == g.accounts[u] {
        assert RereadAll(z, g.accounts[u].times) == g.accounts[u].times;
      }
      assert g'.accounts == g.accounts;
    }
  }

  lemma RereadEnter(z: Zone, g: Graph, u: string)
    ensures RereadGraph(z, Enter(g, u)) == Enter(RereadGraph(z, g), u)
  {
    assert RereadAll(z, []) == [];
    assert RereadGraph(z, Enter(g, u)).accounts == Enter(RereadGraph(z, g), u).accounts;
  }

  lemma RereadAddEdge(z: Zone, g: Graph, a: string, b: string, t: Timestamp)
    requires a in g.accounts && b in g.accounts
    ensures RereadGraph(z, AddEdge(g, a, b, t)) == AddEdge(RereadGraph(z, g), a, b, Reread(z, t))
  {
    var ts := g.accounts[a].times;
    assert RereadAll(z, ts + [t]) == RereadAll(z, ts) + [Reread(z, t)];
    assert RereadGraph(z, AddEdge(g, a, b, t)).accounts == AddEdge(RereadGraph(z, g), a, b, Reread(z, t)).accounts;
  }

  lemma RereadRemoveEdge(z: Zone, g: Graph, a: string, b: string)
    requires RemoveEdge(g, a, b).Some?
    ensures RemoveEdge(RereadGraph(z, g), a, b) == Some(RereadGraph(z, RemoveEdge(g, a, b).value))
  {
    var i := IndexOf(g.accounts[a].following, b);
    var ts := g.accounts[a].times;
    assert RereadAll(z, Erase(ts, i)) == Erase(RereadAll(z, ts), i);
    var r := RemoveEdge(RereadGraph(z, g), a, b);
    assert r.Some?;
    assert r.value.accounts == RereadGraph(z, RemoveEdge(g, a, b).value).accounts;
  }

  /** The replay died, or entered another user in some place of the list. */
  ghost predicate Diverged(r: Option<Graph>, g: Graph)
  {
    r.Some? ==> exists i :: 0 <= i < |g.db| && i < |r.value.db| && g.db[i] != r.value.db[i]
  }

  /** `readable` says that every follow in the log has a time that can be read. */
  ghost predicate LogsAgree(z: Zone, s: Server, readable: bool)
  {
    && GraphOk(s.graph)
    && WholeLines(s.userinfo)
    && s.postlog == PostsText(z, s.posts)
    && (readable ==> TimesReadable(z, s.graph))
    && (if readable && WordNames(s.graph) then ReplayText(z, s.userinfo) == Some(RereadGraph(z, s.graph))
        else Diverged(ReplayText(z, s.userinfo), s.graph))
    && (s.alive ==> AuthorsIn(s.graph, s.posts))
  }

  /** If serving `r` logs a follow, its printed time can be read. */
  predicate LogsReadably(z: Zone, g: Graph, r: Request)
  {
    r.FollowReq? && FollowOutcome(g, r.user, r.target) == Replied(SUCCESS) ==> z.Read(z.Str(r.time)).Some?
  }

  /** Every follow that the run has logged has a time that can be read. */
  predicate ReadableFollows(z: Zone, cs: seq<Command>)
  {
    cs == []
    || (var front, c := cs[..|cs| - 1], cs[|cs| - 1];
        && ReadableFollows(z, front)
        && (Run(z, front).alive && c.Ask? ==> LogsReadably(z, Run(z, front).graph, c.request)))
  }

  /** Text appended while all names are words replays to the new live state. */
  lemma GoodRequest(z: Zone, g: Graph, text: string, r: Request)
    requires GraphOk(g) && WholeLines(text) && ReplayText(z, text) == Some(RereadGraph(z, g))
    requires WordNames(Serve(g, r)) && OutcomeOf(g, r) != Fault
    requires z.PrintsWords() && LogsReadably(z, g, r)
    ensures ReplayText(z, text + LogOf(z, g, r)) == Some(RereadGraph(z, Serve(g, r)))
  {
    if LogOf(z, g, r) == "" {
      assert text + "" == text;
      WhenRequestsFault(g, r);
    } else {
      ReplayTextAppend(z, text, LogOf(z, g, r));
      var g' := RereadGraph(z, g);
      match r {
        case LoginReq(u) =>
          assert Serve(g, r).db[|g.db|] == u;
          ReplayUser(z, g', u);
          OneMoreLine(z, g', UserLine(u));
          RereadEnter(z, g, u);
        case FollowReq(a, b, t) =>
          NamesAreWords(g, a);
          NamesAreWords(g, b);
          assert Word(z.format(t.seconds));
          ReplayFollows(z, g', a, b, t);
          OneMoreLine(z, g', FollowLine(a, b, z.Str(t)));
          RereadAddEdge(z, g, a, b, t);
        case UnFollowReq(a, b) =>
          NamesAreWords(g, a);
          NamesAreWords(g, b);
          ReplayUnFollows(z, g', a, b);
          OneMoreLine(z, g', UnFollowLine(a, b));
          RereadRemoveEdge(z, g, a, b);
      }
    }
  }

  /** A follow whose printed time cannot be read kills the replay. */
  lemma UnreadableRequest(z: Zone, g: Graph, text: string, r: Request)
    requires GraphOk(g) && WholeLines(text) && ReplayText(z, text) == Some(RereadGraph(z, g))
    requires WordNames(g) && z.PrintsWords() && !LogsReadably(z, g, r)
    ensures ReplayText(z, text + LogOf(z, g, r)).None?
  {
    var g' := RereadGraph(z, g);
    ReplayTextAppend(z, text, LogOf(z, g, r));
    NamesAreWords(g, r.user);
    NamesAreWords(g, r.target);
    assert Word(z.format(r.time.seconds));
    ReplayFollows(z, g', r.user, r.target, r.time);
    OneMoreLine(z, g', FollowLine(r.user, r.target, z.Str(r.time)));
  }

  lemma NamesAreWords(g: Graph, a: string)
    requires GraphOk(g) && WordNames(g) && a in g.accounts
    ensures Word(a)
  {
    assert a in g.db;
  }

  /** The first bad name makes the replay diverge. */
  lemma BadRequest(z: Zone, g: Graph, text: string, r: Request)
    requires GraphOk(g) && WholeLines(text) && ReplayText(z, text) == Some(RereadGraph(z, g))
    requires WordNames(g) && !WordNames(Serve(g, r)) && OutcomeOf(g, r) != Fault
    ensures Diverged(ReplayText(z, text + LogOf(z, g, r)), Serve(g, r))
  {
    assert !r.LoginReq? ==> Serve(g, r).db == g.db;
    var u := r.user;
    assert Serve(g, r).db == g.db + [u];
    if Word(u) {
      forall i | 0 <= i < |g.db + [u]| ensures Word((g.db + [u])[i]) {
        assert i < |g.db| ==> Word(g.db[i]);
      }
    }
    ReplayTextAppend(z, text, LogOf(z, g, r));
    BadNameLine(z, RereadGraph(z, g), u);
    assert Serve(g, r).db[|g.db|] == u;
  }

  /** Once the replay has diverged it stays so, whatever is logged later. */
  lemma StaysDiverged(z: Zone, g: Graph, text: string, r: Request)
    requires WholeLines(text) && Diverged(ReplayText(z, text), g)
    ensures Diverged(ReplayText(z, text + LogOf(z, g, r)), Serve(g, r))
  {
    ReplayTextAppend(z, text, LogOf(z, g, r));
    match ReplayText(z, text) {
      case None =>
      case Some(before) =>
        ReplayLinesExtend(z, before, GetLines(LogOf(z, g, r), '\n'));
        var i :| 0 <= i < |g.db| && i < |before.db| && g.db[i] != before.db[i];
        var after := ReplayText(z, text + LogOf(z, g, r));
        assert g.db <= Serve(g, r).db;
        assert Serve(g, r).db[i] == g.db[i];
        assert after.Some? ==> after.value.db[i] == before.db[i];
    }
  }

  lemma UsersStay(g: Graph, r: Request)
    ensures g.db <= Serve(g, r).db
    ensures forall u | u in g.accounts :: u in Serve(g, r).accounts
  {
  }

  lemma TimesStayReadable(z: Zone, g: Graph, r: Request)
    requires GraphOk(g) && TimesReadable(z, g) && LogsReadably(z, g, r) && OutcomeOf(g, r) != Fault
    ensures TimesReadable(z, Serve(g, r))
  {
    if r.UnFollowReq? && UnFollowOutcome(g, r.user, r.target) == Replied(SUCCESS) {
      RemoveEdgeIsSafe(g, r.user, r.target);
    }
  }

  lemma {:induction false} ReplayAfterAsk(z: Zone, s: Server, r: Request, readable: bool)
    requires LogsAgree(z, s, readable) && OutcomeOf(s.graph, r) != Fault
    requires z.PrintsWords()
    ensures var g', replayed := Serve(s.graph, r), ReplayText(z, s.userinfo + LogOf(z, s.graph, r));
            if readable && LogsReadably(z, s.graph, r) && WordNames(g') then replayed == Some(RereadGraph(z, g'))
            else Diverged(replayed, g')
  {
    hide LogOf, Serve, OutcomeOf, LogsReadably, ReplayText, GraphOk, TimesReadable;
    var g' := Serve(s.graph, r);
    UsersStay(s.graph, r);
    assert forall i | 0 <= i < |s.graph.db| :: s.graph.db[i] == g'.db[i];
    if !readable || !WordNames(s.graph) {
      StaysDiverged(z, s.graph, s.userinfo, r);
    } else if !LogsReadably(z, s.graph, r) {
      UnreadableRequest(z, s.graph, s.userinfo, r);
    } else if WordNames(g') {
      GoodRequest(z, s.graph, s.userinfo, r);
    } else {
      BadRequest(z, s.graph, s.userinfo, r);
    }
  }

  lemma {:induction false} AskKeepsLogs(z: Zone, s: Server, r: Request, readable: bool)
    requires LogsAgree(z, s, readable) && s.alive && OutcomeOf(s.graph, r) != Fault
    requires z.PrintsWords()
    ensures LogsAgree(z, Step(z, s, Ask(r)), readable && LogsReadably(z, s.graph, r))
  {
    hide LogOf, Serve, OutcomeOf, LogsReadably, ReplayText, GraphOk, TimesReadable, WordNames, Diverged;
    ServeKeepsGraph(s.graph, r);
    UsersStay(s.graph, r);
    LogOfIsWholeLines(z, s.graph, r);
    ReplayAfterAsk(z, s, r, readable);
    if readable && LogsReadably(z, s.graph, r) {
      TimesStayReadable(z, s.graph, r);
    }
  }

  lemma PostedKeepsLogs(z: Zone, s: Server, p: Post, readable: bool)
    requires LogsAgree(z, s, readable) && s.alive
    ensures LogsAgree(z, Posted(z, s, p), readable)
  {
    assert (s.posts + [p])[..|s.posts|] == s.posts;
  }

  lemma {:induction false} RunKeepsLogs(z: Zone, cs: seq<Command>)
    requires z.PrintsWords()
    ensures LogsAgree(z, Run(z, cs), ReadableFollows(z, cs))
    decreases |cs|
  {
    hide LogsAgree, Posted, LogOf, Serve, OutcomeOf, LogsReadably;
    if cs == [] {
      NothingLogged(z);
    } else {
      var s, c, readable := Run(z, cs[..|cs| - 1]), cs[|cs| - 1], ReadableFollows(z, cs[..|cs| - 1]);
      RunKeepsLogs(z, cs[..|cs| - 1]);
      if s.alive {
        match c {
          case Ask(r) =>
            if OutcomeOf(s.graph, r) == Fault {
              DeathKeepsLogs(z, s, r, readable);
            } else {
              AskKeepsLogs(z, s, r, readable);
            }
          case AddPost(p) => PostedKeepsLogs(z, s, p, readable);
          case Chat(p) =>
            NoAuthorKeepsLogs(z, s, readable);
            PostedKeepsLogs(z, s, p, readable);
        }
      }
    }
  }

  lemma NothingLogged(z: Zone)
    ensures LogsAgree(z, NEW_SERVER, true)
  {
    assert ReplayText(z, "") == Some(EMPTY_GRAPH);
    assert RereadGraph(z, EMPTY_GRAPH) == EMPTY_GRAPH;
  }

  lemma NoAuthorKeepsLogs(z: Zone, s: Server, readable: bool)
    requires LogsAgree(z, s, readable)
    ensures LogsAgree(z, s.(alive := false), readable)
  {
  }

  lemma DeathKeepsLogs(z: Zone, s: Server, r: Request, readable: bool)
    requires LogsAgree(z, s, readable) && OutcomeOf(s.graph, r) == Fault
    ensures LogsReadably(z, s.graph, r) && LogsAgree(z, s.(alive := false), readable)
  {
  }

  /** On every run the graph is good, and while the server lives every post has
      an author. */
  lemma {:induction false} RunKeepsGraphAndAuthors(z: Zone, cs: seq<Command>)
    ensures var s := Run(z, cs);
            GraphOk(s.graph) && (s.alive ==> AuthorsIn(s.graph, s.posts))
    decreases |cs|
  {
    if cs != [] {
      var s, c := Run(z, cs[..|cs| - 1]), cs[|cs| - 1];
      RunKeepsGraphAndAuthors(z, cs[..|cs| - 1]);
      if c.Ask? {
        ServeKeepsGraph(s.graph, c.request);
        UsersStay(s.graph, c.request);
      }
    }
  }

  // ---- main results ----

  /** What a restart needs: user names that are words, follow times that survive
      being printed, and posts on one line by users who exist. */
  predicate Recoverable(z: Zone, s: Server)
  {
    && WordNames(s.graph)
    && TimesSurvive(z, s.graph)
    && AuthorsIn(s.graph, s.posts)
    && forall i | 0 <= i < |s.posts| :: Survives(z, s.posts[i])
  }

  lemma ReplayOfState(z: Zone, s: Server, readable: bool)
    requires z.PrintsWords() && LogsAgree(z, s, readable)
    ensures Recover(z, s.userinfo, s.postlog) == Some((s.graph, s.posts)) <==> readable && Recoverable(z, s)
  {
    PostsAreReadBackIff(z, s.posts);
    if readable {
      SameTimesIff(z, s.graph);
    }
    assert (forall p | p in s.posts :: Survives(z, p)) <==> forall i | 0 <= i < |s.posts| :: Survives(z, s.posts[i]);
  }

  /** Replaying the two logs gives the live state (users, both lists, follow
      times and posts, in order) on exactly the recoverable runs. */
  lemma ReplayIsLiveIff(z: Zone, cs: seq<Command>)
    requires z.PrintsWords()
    ensures var s := Run(z, cs);
            Recover(z, s.userinfo, s.postlog) == Some((s.graph, s.posts)) <==>
            ReadableFollows(z, cs) && Recoverable(z, s)
  {
    RunKeepsLogs(z, cs);
    ReplayOfState(z, Run(z, cs), ReadableFollows(z, cs));
  }

  /** A live server's authors all exist, so only words, times and lines matter. */
  lemma LiveServersRecoverIff(z: Zone, cs: seq<Command>)
    requires z.PrintsWords() && Run(z, cs).alive
    ensures var s := Run(z, cs);
            Recover(z, s.userinfo, s.postlog) == Some((s.graph, s.posts)) <==>
            && ReadableFollows(z, cs) && WordNames(s.graph) && TimesSurvive(z, s.graph)
            && forall i | 0 <= i < |s.posts| :: Survives(z, s.posts[i])
  {
    RunKeepsLogs(z, cs);
    ReplayIsLiveIff(z, cs);
  }

  lemma {:induction false} PostsTextWholeLines(z: Zone, ps: seq<Post>)
    ensures WholeLines(PostsText(z, ps))
  {
  }

  lemma FilesReadBack(z: Zone, s: Server, readable: bool)
    requires LogsAgree(z, s, readable)
    ensures GetLog(s) == (s.userinfo, s.postlog)
  {
    PostsTextWholeLines(z, s.posts);
    RewriteIsExact(s.userinfo);
    RewriteIsExact(s.postlog);
  }

  lemma SyncOfState(z: Zone, s: Server, readable: bool)
    requires z.PrintsWords() && LogsAgree(z, s, readable)
    ensures StartFromLog(z, GetLog(s)) == Some(s.(alive := true)) <==> readable && Recoverable(z, s)
  {
    FilesReadBack(z, s, readable);
    ReplayOfState(z, s, readable);
    RewriteIsExact(s.userinfo);
  }

  /** Starting from another server's logs copies its memory and reproduces both
      of its files byte for byte, on exactly the recoverable runs. */
  lemma {:induction false} SyncCopiesIff(z: Zone, cs: seq<Command>)
    requires z.PrintsWords()
    ensures StartFromLog(z, GetLog(Run(z, cs))) == Some(Run(z, cs).(alive := true)) <==>
            ReadableFollows(z, cs) && Recoverable(z, Run(z, cs))
  {
    RunKeepsLogs(z, cs);
    SyncOfState(z, Run(z, cs), ReadableFollows(z, cs));
  }

  /** So does starting again from one's own files, which stay as they are. */
  lemma {:induction false} RestartRestoresIff(z: Zone, cs: seq<Command>)
    requires z.PrintsWords()
    ensures var s := Run(z, cs);
            StartFromFiles(z, s.userinfo, s.postlog) == Some(s.(alive := true)) <==>
            ReadableFollows(z, cs) && Recoverable(z, s)
  {
    RunKeepsLogs(z, cs);
    FilesReadBack(z, Run(z, cs), ReadableFollows(z, cs));
    ReplayIsLiveIff(z, cs);
  }

  // ---- zones that read back what they print ----

  lemma {:induction false} TellingZonesRead(z: Zone, cs: seq<Command>)
    requires TellsTime(z)
    ensures ReadableFollows(z, cs)
    decreases |cs|
  {
    if cs != [] {
      TellingZonesRead(z, cs[..|cs| - 1]);
      var c := cs[|cs| - 1];
      assert c.Ask? && c.request.FollowReq? ==>
        z.parse(z.format(c.request.time.seconds)) == Some(c.request.time.seconds);
    }
  }

  /** In such a zone a live server is restored, from its own files and by a sync,
      exactly if every name is one word, every follow was at a whole second, and
      every post is on one line and at a whole second. */
  lemma {:induction false} TellingZonesRestoreIff(z: Zone, cs: seq<Command>)
    requires z.PrintsWords() && TellsTime(z) && Run(z, cs).alive
    ensures var s := Run(z, cs);
            var plain := && (forall u | u in s.graph.db :: u != "" && ' ' !in u && '\n' !in u)
                         && (forall u | u in s.graph.accounts ::
                               forall t | t in s.graph.accounts[u].times :: t.nanos == 0)
                         && (forall p | p in s.posts ::
                               '\n' !in p.username && '\n' !in p.data && p.timestamp.nanos == 0);
            && (StartFromFiles(z, s.userinfo, s.postlog) == Some(s) <==> plain)
            && (StartFromLog(z, GetLog(s)) == Some(s) <==> plain)
  {
    hide StartFromFiles, StartFromLog, GetLog, Step;
    var s := Run(z, cs);
    assert s.(alive := true) == s;
    TellingZonesRead(z, cs);
    RunKeepsGraphAndAuthors(z, cs);
    RestartRestoresIff(z, cs);
    SyncCopiesIff(z, cs);
    PlainIsRecoverable(z, s);
  }

  lemma PlainIsRecoverable(z: Zone, s: Server)
    requires TellsTime(z) && AuthorsIn(s.graph, s.posts)
    ensures Recoverable(z, s) <==>
            && (forall u | u in s.graph.db :: u != "" && ' ' !in u && '\n' !in u)
            && (forall u | u in s.graph.accounts :: forall t | t in s.graph.accounts[u].times :: t.nanos == 0)
            && (forall p | p in s.posts :: '\n' !in p.username && '\n' !in p.data && p.timestamp.nanos == 0)
  {
    forall t: Timestamp ensures z.Faithful(t) <==> t.nanos == 0 {
      assert z.parse(z.format(t.seconds)) == Some(t.seconds);
    }
    assert WordNames(s.graph) <==> forall u | u in s.graph.db :: Word(u);
    TimesAreFaithful(z, s.graph);
    assert (forall i | 0 <= i < |s.posts| :: Survives(z, s.posts[i])) <==> forall p | p in s.posts :: Survives(z, p);
  }

  lemma TimesAreFaithful(z: Zone, g: Graph)
    ensures TimesSurvive(z, g) <==>
            forall u | u in g.accounts :: forall t | t in g.accounts[u].times :: z.Faithful(t)
  {
  }

  /** Commands with one-word names, one-line posts and whole seconds. */
  predicate Plain(c: Command)
  {
    match c
    case Ask(LoginReq(u)) => Word(u)
    case Ask(FollowReq(_, _, t)) => t.nanos == 0
    case Ask(UnFollowReq(_, _)) => true
    case AddPost(p) => '\n' !in p.username && '\n' !in p.data && p.timestamp.nanos == 0
    case Chat(p) => '\n' !in p.username && '\n' !in p.data && p.timestamp.nanos == 0
  }

  lemma {:induction false} PlainRuns(z: Zone, cs: seq<Command>)
    requires forall c | c in cs :: Plain(c)
    ensures var s := Run(z, cs);
            && GraphOk(s.graph)
            && (forall u | u in s.graph.db :: Word(u))
            && (forall u, k | u in s.graph.accounts && 0 <= k < |s.graph.accounts[u].times| ::
                  s.graph.accounts[u].times[k].nanos == 0)
            && (forall p | p in s.posts :: '\n' !in p.username && '\n' !in p.data && p.timestamp.nanos == 0)
    decreases |cs|
  {
    if cs != [] {
      var front, c := cs[..|cs| - 1], cs[|cs| - 1];
      assert forall d | d in front :: d in cs;
      PlainRuns(z, front);
      var s := Run(z, front);
      assert c in cs && Plain(c);
      if s.alive && c.Ask? && OutcomeOf(s.graph, c.request) != Fault {
        ServeKeepsGraph(s.graph, c.request);
        PlainServe(s.graph, c.request);
      }
    }
  }

  lemma PlainServe(g: Graph, r: Request)
    requires GraphOk(g) && Plain(Ask(r)) && forall u | u in g.db :: Word(u)
    requires forall u, k | u in g.accounts && 0 <= k < |g.accounts[u].times| :: g.accounts[u].times[k].nanos == 0
    ensures var g' := Serve(g, r);
            && (forall u | u in g'.db :: Word(u))
            && (forall u, k | u in g'.accounts && 0 <= k < |g'.accounts[u].times| ::
                  g'.accounts[u].times[k].nanos == 0)
  {
    hide GraphOk, IndexOf;
    if r.UnFollowReq? && UnFollowOutcome(g, r.user, r.target) == Replied(SUCCESS) {
      RemoveEdgeIsSafe(g, r.user, r.target);
    }
  }

  /** A run of plain commands that the server survives is restored by a restart and
      by a sync, whatever was said and done in it. */
  lemma {:induction false} PlainRunsAreRestored(z: Zone, cs: seq<Command>)
    requires z.PrintsWords() && TellsTime(z) && Run(z, cs).alive && forall c | c in cs :: Plain(c)
    ensures var s := Run(z, cs);
            && StartFromFiles(z, s.userinfo, s.postlog) == Some(s)
            && StartFromLog(z, GetLog(s)) == Some(s)
  {
    hide StartFromFiles, StartFromLog, GetLog, Run, Plain;
    PlainRuns(z, cs);
    TellingZonesRestoreIff(z, cs);
  }

  // ---- what a run stores ----

  /** The posts said or replicated, in order, without empty messages. */
  function PostsSaid(cs: seq<Command>): seq<Post>
  {
    if cs == [] then []
    else
      var front := PostsSaid(cs[..|cs| - 1]);
      match cs[|cs| - 1]
      case Ask(_) => front
      case AddPost(p) => front + [p]
      case Chat(p) => if p.data == "" then front else front + [p]
  }

  function RequestsServed(cs: seq<Command>): seq<Request>
  {
    if cs == [] then []
    else
      var front := RequestsServed(cs[..|cs| - 1]);
      match cs[|cs| - 1]
      case Ask(r) => front + [r]
      case _ => front
  }

  /** A live server holds the graph of its requests and its posts, in order. */
  lemma {:induction false} RunStores(z: Zone, cs: seq<Command>)
    requires Run(z, cs).alive
    ensures Run(z, cs).graph == ServeAll(EMPTY_GRAPH, RequestsServed(cs))
    ensures Run(z, cs).posts == PostsSaid(cs)
    decreases |cs|
  {
    if cs != [] {
      var front := cs[..|cs| - 1];
      assert Run(z, front).alive;
      RunStores(z, front);
      var rs := RequestsServed(front);
      match cs[|cs| - 1] {
        case Ask(r) => assert (rs + [r])[..|rs|] == rs;
        case _ =>
      }
    }
  }

  lemma RunAppend(z: Zone, cs: seq<Command>, c: Command)
    ensures Run(z, cs + [c]) == Step(z, Run(z, cs), c)
  {
    hide Step;
    assert (cs + [c])[..|cs|] == cs;
  }

  // What each command of a live server leaves in memory and in the files.

  lemma {:induction false} LoginWrites(z: Zone, s: Server, u: string)
    requires s.alive && GraphOk(s.graph) && u !in s.graph.accounts
    ensures var s' := Step(z, s, Ask(LoginReq(u)));
            && s' == s.(graph := Login(s.graph, u), userinfo := s'.userinfo)
            && s'.userinfo == s.userinfo + ("user " + u + "\n")
  {
    hide GraphOk, Enter;
  }

  lemma {:induction false} FollowWrites(z: Zone, s: Server, a: string, b: string, t: Timestamp)
    requires s.alive && GraphOk(s.graph) && a in s.graph.accounts && b in s.graph.accounts
    requires a != b && b !in s.graph.accounts[a].following
    ensures var s' := Step(z, s, Ask(FollowReq(a, b, t)));
            && s' == s.(graph := Follow(s.graph, a, b, t), userinfo := s'.userinfo)
            && s'.userinfo == s.userinfo + ("follow " + a + " " + b + " " + z.format(t.seconds) + "\n")
  {
    hide GraphOk, AddEdge;
    WhichReply(s.graph, a, b);
  }

  lemma {:induction false} UnFollowWrites(z: Zone, s: Server, a: string, b: string)
    requires s.alive && GraphOk(s.graph) && a in s.graph.accounts && b in s.graph.accounts
    requires a != b && b in s.graph.accounts[a].following
    ensures var s' := Step(z, s, Ask(UnFollowReq(a, b)));
            && s' == s.(graph := UnFollow(s.graph, a, b), userinfo := s'.userinfo)
            && s'.userinfo == s.userinfo + ("unfollow " + a + " " + b + "\n")
  {
    hide GraphOk, RemoveEdge;
    WhichReply(s.graph, a, b);
  }

  /** A message of a user is stored and written after the earlier ones, whether it
      was said here or replicated; an empty message of a user changes nothing. */
  lemma {:induction false} PostWrites(z: Zone, s: Server, p: Post)
    requires s.alive && p.username in s.graph.accounts
    ensures var text := "T " + z.format(p.timestamp.seconds) + "\nU " + p.username + "\nW " + p.data + "\n\n";
            var after := s.(posts := s.posts + [p], postlog := s.postlog + text);
            && Step(z, s, AddPost(p)) == after
            && Step(z, s, Chat(p)) == if p.data == "" then s else after
  {
  }

  /** The two files after two users logged in, one followed the other, the other
      said something, the first said nothing, and unfollowed again. */
  lemma {:induction false} FilesOfASession(z: Zone, a: string, b: string, t: Timestamp, p: Post)
    requires a != b && p.username == b && p.data != ""
    ensures var cs := [Ask(LoginReq(a))] + [Ask(LoginReq(b))] + [Ask(FollowReq(a, b, t))]
                      + [Chat(p)] + [Chat(Post(a, "", t))] + [Ask(UnFollowReq(a, b))];
            var s := Run(z, cs);
            && s.alive && s.posts == [p] && s.graph.db == [a, b]
            && s.userinfo == "user " + a + "\n" + ("user " + b + "\n")
                             + ("follow " + a + " " + b + " " + z.format(t.seconds) + "\n")
                             + ("unfollow " + a + " " + b + "\n")
            && s.postlog == "T " + z.format(p.timestamp.seconds) + "\nU " + b + "\nW " + p.data + "\n\n"
  {
    hide Step, Run, GraphOk, Login, Follow, UnFollow;
    var cs2 := [Ask(LoginReq(a))] + [Ask(LoginReq(b))];
    var cs3 := cs2 + [Ask(FollowReq(a, b, t))];
    var s2 := TwoLogins(z, a, b);
    RunAppend(z, cs2, Ask(FollowReq(a, b, t)));
    FollowWrites(z, s2, a, b, t);
    FollowEffect(s2.graph, a, b, t);
    FollowKeepsGraph(s2.graph, a, b, t);
    var s3 := Step(z, s2, Ask(FollowReq(a, b, t)));
    RunAppend(z, cs3, Chat(p));
    PostWrites(z, s3, p);
    var s4 := Step(z, s3, Chat(p));
    RunAppend(z, cs3 + [Chat(p)], Chat(Post(a, "", t)));
    PostWrites(z, s4, Post(a, "", t));
    RunAppend(z, cs3 + [Chat(p)] + [Chat(Post(a, "", t))], Ask(UnFollowReq(a, b)));
    UnFollowWrites(z, s4, a, b);
    UsersOnlyFollow(s4.graph, a, b);
  }

  lemma UsersOnlyFollow(g: Graph, a: string, b: string)
    ensures UnFollow(g, a, b).db == g.db
  {
  }

  lemma {:induction false} TwoLogins(z: Zone, a: string, b: string) returns (s: Server)
    requires a != b
    ensures s == Run(z, [Ask(LoginReq(a))] + [Ask(LoginReq(b))]) && s.alive && GraphOk(s.graph)
    ensures s.graph.db == [a, b] && a in s.graph.accounts && b in s.graph.accounts
    ensures s.graph.accounts[a].following == [] && s.posts == [] && s.postlog == ""
    ensures s.userinfo == "user " + a + "\n" + ("user " + b + "\n")
  {
    hide Step, Login;
    RunsKeepGraph([]);
    assert Run(z, []) == NEW_SERVER && ServeAll(EMPTY_GRAPH, []) == EMPTY_GRAPH;
    RunAppend(z, [], Ask(LoginReq(a)));
    LoginWrites(z, NEW_SERVER, a);
    LoginEffect(EMPTY_GRAPH, a);
    LoginKeepsGraph(EMPTY_GRAPH, a);
    var s1 := Step(z, NEW_SERVER, Ask(LoginReq(a)));
    assert [] + [Ask(LoginReq(a))] == [Ask(LoginReq(a))] && s1.graph.db == [a];
    RunAppend(z, [Ask(LoginReq(a))], Ask(LoginReq(b)));
    LoginWrites(z, s1, b);
    LoginEffect(s1.graph, b);
    LoginKeepsGraph(s1.graph, b);
    s := Step(z, s1, Ask(LoginReq(b)));
  }

  /** Without a sync the files stay as they are; a sync ends the last line of the
      userinfo file and prints the posts anew. */
  lemma StartsKeepFiles(z: Zone, userinfo: string, postlog: string)
    ensures var s := StartFromFiles(z, userinfo, postlog);
            s.Some? ==> s.value.userinfo == userinfo && s.value.postlog == postlog && s.value.alive
    ensures var s := StartFromLog(z, (userinfo, postlog));
            s.Some? ==>
              && s.value.userinfo == (if WholeLines(userinfo) then userinfo else userinfo + "\n")
              && s.value.postlog == PostsText(z, s.value.posts) && s.value.alive
  {
    hide Recover;
    RewriteIsExact(userinfo);
  }

  function CopyOf(z: Zone): Server -> Option<Server>
  {
    (s: Server) => StartFromLog(z, GetLog(s))
  }

  /** The server at the end of a chain of `n` servers, each started by `copy`
      from the one before. */
  function SyncChain(copy: Server -> Option<Server>, s: Server, n: nat): Option<Server>
  {
    if n == 0 then Some(s)
    else
      match SyncChain(copy, s, n - 1)
      case Some(s') => copy(s')
      case None => None
  }

  lemma {:induction false} CopyingChain(copy: Server -> Option<Server>, s: Server, n: nat)
    requires copy(s) == Some(s)
    ensures SyncChain(copy, s, n) == Some(s)
  {
    if n > 0 {
      CopyingChain(copy, s, n - 1);
    }
  }

  /** Any chain of synchronisations preserves memory and files. */
  lemma {:induction false} SyncChainPreserves(z: Zone, cs: seq<Command>, n: nat)
    requires z.PrintsWords() && ReadableFollows(z, cs) && Run(z, cs).alive && Recoverable(z, Run(z, cs))
    ensures SyncChain(CopyOf(z), Run(z, cs), n) == Some(Run(z, cs))
  {
    SyncCopiesIff(z, cs);
    CopyingChain(CopyOf(z), Run(z, cs), n);
  }

  /** After one more replicated post the server can be restored exactly if it could
      be before, the author exists and the post survives printing.  A missing author kills the
      server, and has by then been written: if the post survives printing, no
      later start from these files succeeds. */
  lemma AddPostPoisonsIff(z: Zone, cs: seq<Command>, p: Post)
    requires z.PrintsWords() && Run(z, cs).alive
    ensures var s := Step(z, Run(z, cs), AddPost(p));
            var known, restored := p.username in s.graph.accounts, Some(s.(alive := true));
            var fit := ReadableFollows(z, cs) && Recoverable(z, Run(z, cs));
            && (s.alive <==> known)
            && (StartFromFiles(z, s.userinfo, s.postlog) == restored <==> fit && known && Survives(z, p))
            && (StartFromLog(z, GetLog(s)) == restored <==> fit && known && Survives(z, p))
            && (fit && Survives(z, p) ==>
                  && (StartFromFiles(z, s.userinfo, s.postlog).None? <==> !known)
                  && (StartFromLog(z, GetLog(s)).None? <==> !known))
  {
    var s0, cs' := Run(z, cs), cs + [AddPost(p)];
    var s := Step(z, s0, AddPost(p));
    assert cs'[..|cs'| - 1] == cs;
    assert s == Run(z, cs') && ReadableFollows(z, cs') == ReadableFollows(z, cs);
    SyncCopiesIff(z, cs');
    RestartRestoresIff(z, cs');
    OneMorePost(z, s0, s, p);
    if ReadableFollows(z, cs) && Recoverable(z, s0) && Survives(z, p) && p.username !in s.graph.accounts {
      RunKeepsLogs(z, cs');
      FilesReadBack(z, s, true);
      PostsAreReadBackIff(z, s.posts);
      RunKeepsLogs(z, cs);
      ReplayOfState(z, s0, true);
    }
  }

  lemma OneMorePost(z: Zone, s0: Server, s: Server, p: Post)
    requires s.graph == s0.graph && s.posts == s0.posts + [p]
    ensures Recoverable(z, s) <==> Recoverable(z, s0) && p.username in s.graph.accounts && Survives(z, p)
    ensures Recoverable(z, s0) && Survives(z, p) ==> forall q | q in s.posts :: Survives(z, q)
    ensures p.username !in s.graph.accounts ==> !AuthorsIn(s.graph, s.posts)
  {
    assert s.posts[|s0.posts|] == p;
    assert forall i | 0 <= i < |s0.posts| :: s.posts[i] == s0.posts[i];
  }

  /** A user who logs in and follows a stranger kills the server. */
  lemma FollowOfStrangerKills(z: Zone, u: string, stranger: string, t: Timestamp)
    requires u != stranger
    ensures var login, follow := Ask(LoginReq(u)), Ask(FollowReq(u, stranger, t));
            && Run(z, [login]).alive && Run(z, [login]).graph.db == [u]
            && Run(z, [login, follow]) == Run(z, [login]).(alive := false)
  {
    var login, follow := Ask(LoginReq(u)), Ask(FollowReq(u, stranger, t));
    assert [login][..0] == [] && [login, follow][..1] == [login];
    assert Run(z, []) == NEW_SERVER;
  }
}
