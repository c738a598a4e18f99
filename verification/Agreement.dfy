/** The whole system: a coordinator, servers that join, beat and fall silent, and
    clients' requests broadcast to them.  Broadcasts and joins are atomic. */
module Agreement {
  import opened Text
  import opened Social
  import opened LocalTime
  import opened PostLog
  import opened UserInfoLog
  import opened Registry
  import opened ElectionSafety
  import opened SyncAddresses
  import opened Broadcast
  import opened MasterFlags
  import R = Replica

  /** `at` says which server listens at an address; `believes` is the set of
      servers whose own `master` flag is set. */
  datatype System = System(coord: Coord, servers: map<Place, R.Server>, at: map<string, Place>, believes: set<Place>)

  datatype Step =
    | Ask(place: Place, request: Request)
    | Say(place: Place, post: Post)
    | Beat(info: ServerInfo, now: int)
    | Join(info: ServerInfo, now: int, userinfo: string, postlog: string)
    | Check(place: Place, now: int)

  function Begin(n: nat): System
  {
    System(Start(n), map[], map[], {})
  }

  function DeliverOne(z: Zone, servers: map<Place, R.Server>, q: Place, cmd: R.Command): map<Place, R.Server>
  {
    if q in servers then servers[q := R.Step(z, servers[q], cmd)] else servers
  }

  /** The command reaches the servers `ds`, one after the other. */
  function Deliver(z: Zone, servers: map<Place, R.Server>, ds: seq<Place>, cmd: R.Command): map<Place, R.Server>
  {
    if ds == [] then servers
    else DeliverOne(z, Deliver(z, servers, ds[..|ds| - 1], cmd), ds[|ds| - 1], cmd)
  }

  /** What a joining server starts with. */
  function Started(z: Zone, sys: System, sync: string, userinfo: string, postlog: string): Option<R.Server>
  {
    if sync == "" then R.StartFromFiles(z, userinfo, postlog)
    else if sync in sys.at && sys.at[sync] in sys.servers
    then R.StartFromLog(z, R.GetLog(sys.servers[sys.at[sync]]))
    else None
  }

  predicate Up(sys: System, p: Place)
  {
    sys.coord.Has(p) && p in sys.servers && sys.servers[p].alive
  }

  function Next(z: Zone, sys: System, step: Step): System
  {
    match step
    case Ask(p, r) =>
      if !Up(sys, p) then sys
      else if OutcomeOf(sys.servers[p].graph, r) == Fault then
        sys.(servers := DeliverOne(z, sys.servers, p, R.Ask(r)))
      else
        (match Spread(sys.coord, sys.believes, 3, p, false)
         case Some(ds) => sys.(servers := Deliver(z, sys.servers, ds, R.Ask(r)))
         case None => sys)
    case Say(p, post) =>
      if !Up(sys, p) then sys
      else
        // an empty post is ignored, and a missing author kills the server
        var said := sys.(servers := DeliverOne(z, sys.servers, p, R.Chat(post)));
        if post.data == "" || post.username !in sys.servers[p].graph.accounts then said
        else said.(servers := Deliver(z, said.servers, Forwards(sys.coord, sys.believes, p, false), R.AddPost(post)))
    case Beat(info, now) =>
      var (reply, c) := Heartbeat(sys.coord, info, now);
      sys.(coord := c, believes := AfterReply(sys.believes, info, reply))
    case Join(info, now, userinfo, postlog) =>
      var (reply, c) := Heartbeat(sys.coord, info, now);
      var heard := sys.(coord := c, believes := AfterReply(sys.believes, info, reply));
      if reply.Registered? && info.clusterId >= 1 then
        match Started(z, sys, reply.syncAddress, userinfo, postlog)
        case Some(s) =>
          heard.(servers := sys.servers[PlaceOf(info) := s], at := sys.at[AddressOf(info) := PlaceOf(info)])
        case None => heard.(servers := sys.servers - {PlaceOf(info)})
      else heard
    case Check(p, now) =>
      if sys.coord.Has(p) then sys.(coord := SweepServer(sys.coord, p, now)) else sys
  }

  function Run(z: Zone, sys: System, steps: seq<Step>): System
  {
    if steps == [] then sys else Next(z, Run(z, sys, steps[..|steps| - 1]), steps[|steps| - 1])
  }

  // ---- the runs considered ----

  /** A request whose log line can be read back. */
  predicate Readable(z: Zone, r: Request)
  {
    match r
    case LoginReq(u) => Word(u)
    case FollowReq(_, _, t) => z.Faithful(t)
    case UnFollowReq(_, _) => true
  }

  /** A server from whose logs another can start. */
  ghost predicate Sound(z: Zone, s: R.Server)
  {
    s.alive && R.LogsAgree(z, s, true) && R.Recoverable(z, s)
  }

  predicate SameState(s: R.Server, t: R.Server)
  {
    s.graph == t.graph && s.userinfo == t.userinfo
  }

  /** All active servers run, with the same graph and userinfo log. */
  ghost predicate Agree(sys: System)
  {
    forall q, t | Active(sys.coord, q) && Active(sys.coord, t) ::
      q in sys.servers && t in sys.servers && SameState(sys.servers[q], sys.servers[t])
  }

  ghost predicate Like(sys: System, s: R.Server)
  {
    forall q | Active(sys.coord, q) :: q in sys.servers && SameState(s, sys.servers[q])
  }

  /** Clients may talk to any server that runs and has not been given up. */
  predicate Serving(sys: System, p: Place)
  {
    Up(sys, p) && Active(sys.coord, p)
  }

  predicate Silent(z: Zone, sys: System, p: Place, r: Request)
    requires p in sys.servers
  {
    LogOf(z, sys.servers[p].graph, r) == ""
  }

  /** The request changes nothing, or its calls end and miss nobody. */
  ghost predicate CanAsk(z: Zone, sys: System, p: Place, r: Request)
    requires Serving(sys, p)
  {
    Silent(z, sys, p, r) || (Calm(sys.coord, p) && Covers(sys.coord, p, HoldsTitle(sys.coord, p)))
  }

  ghost predicate FreshAddress(c: Coord, info: ServerInfo)
  {
    forall q | Active(c, q) :: c.Node(q).Address() != AddressOf(info)
  }

  /** A server that was registered at its present address and still listens there. */
  ghost predicate KnownServer(sys: System, info: ServerInfo)
  {
    && info.registered && InRange(sys.coord, info) && sys.coord.Has(PlaceOf(info))
    && sys.coord.Node(PlaceOf(info)).Address() == AddressOf(info) && Listening(sys, PlaceOf(info))
  }

  ghost predicate Allowed(z: Zone, sys: System, step: Step)
  {
    match step
    case Ask(p, r) =>
      && Serving(sys, p) && Readable(z, r) && OutcomeOf(sys.servers[p].graph, r) != Fault
      && CanAsk(z, sys, p, r)
    case Say(p, post) =>
      Serving(sys, p) && Survives(z, post) && post.username in sys.servers[p].graph.accounts
    case Beat(info, now) =>
      // a server that was given up must not have missed anything
      KnownServer(sys, info) && (Active(sys.coord, PlaceOf(info)) || Like(sys, sys.servers[PlaceOf(info)]))
    case Join(info, now, userinfo, postlog) =>
      // local files count only if there is no master to start from
      && !info.registered && FreshAddress(sys.coord, info)
      && (!SomeMaster(sys.coord) ==>
            match R.StartFromFiles(z, userinfo, postlog)
            case Some(s) => Sound(z, s) && Like(sys, s)
            case None => false)
    case Check(_, _) => true
  }

  ghost predicate AllAllowed(z: Zone, sys: System, steps: seq<Step>)
  {
    steps == []
    || (var n := |steps| - 1; AllAllowed(z, sys, steps[..n]) && Allowed(z, Run(z, sys, steps[..n]), steps[n]))
  }

  // ---- the invariant ----

  ghost predicate Listening(sys: System, q: Place)
    requires sys.coord.Has(q)
  {
    var a := sys.coord.Node(q).Address();
    q in sys.servers && a in sys.at && sys.at[a] == q
  }

  ghost predicate Replicated(z: Zone, sys: System)
  {
    && (forall q | Active(sys.coord, q) :: Listening(sys, q))
    && (forall q | q in sys.servers :: Sound(z, sys.servers[q]))
    && Agree(sys)
  }

  ghost predicate Inv(z: Zone, sys: System)
  {
    && Safe(sys.coord) && LocksTell(sys.coord) && Flagged(sys.coord, sys.believes)
    && Replicated(z, sys)
  }

  // ---- requests ----

  /** A command delivered to distinct servers is applied once at each. */
  lemma {:induction false} DeliveredOnce(z: Zone, servers: map<Place, R.Server>, ds: seq<Place>, cmd: R.Command)
    requires NoDup(ds)
    ensures var after := Deliver(z, servers, ds, cmd);
            && after.Keys == servers.Keys
            && forall q | q in servers ::
                 after[q] == if q in ds then R.Step(z, servers[q], cmd) else servers[q]
    decreases |ds|
  {
    if ds != [] {
      var n := |ds| - 1;
      assert ds == ds[..n] + [ds[n]];
      assert ds[n] !in ds[..n];
      DeliveredOnce(z, servers, ds[..n], cmd);
    }
  }

  /** Sound servers in the same state stay so under a readable request. */
  lemma AskKeepsSound(z: Zone, s: R.Server, r: Request)
    requires z.PrintsWords() && Sound(z, s) && Readable(z, r) && OutcomeOf(s.graph, r) != Fault
    ensures Sound(z, R.Step(z, s, R.Ask(r)))
  {
    hide LogOf, R.LogsAgree;
    var g' := Serve(s.graph, r);
    R.AskKeepsLogs(z, s, r, true);
    R.UsersStay(s.graph, r);
    forall i | 0 <= i < |g'.db| ensures Word(g'.db[i]) {
      assert i < |s.graph.db| ==> g'.db[i] == s.graph.db[i];
      assert i >= |s.graph.db| ==> r.LoginReq? && g'.db == s.graph.db + [r.user];
    }
  }

  lemma PostKeepsSound(z: Zone, s: R.Server, p: Post)
    requires Sound(z, s) && Survives(z, p) && p.username in s.graph.accounts
    ensures Sound(z, R.Posted(z, s, p)) && SameState(R.Posted(z, s, p), s)
  {
    R.PostedKeepsLogs(z, s, p, true);
  }

  /** A client's request whose calls end is applied once at every server that it
      reaches, and nowhere else. */
  lemma AskEffect(z: Zone, sys: System, p: Place, r: Request)
    requires Safe(sys.coord) && Flagged(sys.coord, sys.believes)
    requires Serving(sys, p) && Calm(sys.coord, p) && OutcomeOf(sys.servers[p].graph, r) != Fault
    ensures var sys' := Next(z, sys, Ask(p, r));
            && sys' == sys.(servers := sys'.servers) && sys'.servers.Keys == sys.servers.Keys
            && forall q | q in sys.servers ::
                 sys'.servers[q] == if Reached(sys.coord, sys.believes, p, q) then R.Step(z, sys.servers[q], R.Ask(r))
                                    else sys.servers[q]
  {
    hide R.Step, OutcomeOf, MasterOf, Reached, Flagged, Safe, Calm, Titled, Uncontested, Spread;
    FlagsAreTitles(sys.coord, sys.believes);
    CalmIff(sys.coord, sys.believes, p);
    BroadcastReachesEachOnce(sys.coord, sys.believes, p);
    DeliveredOnce(z, sys.servers, Spread(sys.coord, sys.believes, 3, p, false).value, R.Ask(r));
  }

  /** Who is reached is in the new state, who is not in the old one. */
  lemma {:induction false} AskStates(z: Zone, sys: System, p: Place, r: Request)
    requires Inv(z, sys) && Serving(sys, p) && Calm(sys.coord, p) && OutcomeOf(sys.servers[p].graph, r) != Fault
    ensures var c, servers := sys.coord, Next(z, sys, Ask(p, r)).servers;
            && p in servers && Sound(z, sys.servers[p])
            && servers[p] == R.Step(z, sys.servers[p], R.Ask(r))
            && forall q | Active(c, q) ::
                 && q in servers
                 && SameState(servers[q], if Reached(c, sys.believes, p, q) then servers[p] else sys.servers[p])
  {
    hide Next, MasterOf, LogOf, Serve, OutcomeOf, Safe, Flagged, Calm;
    var c, servers := sys.coord, Next(z, sys, Ask(p, r)).servers;
    AskEffect(z, sys, p, r);
    assert Listening(sys, p);
    forall q | Active(c, q)
      ensures && q in servers
              && SameState(servers[q], if Reached(c, sys.believes, p, q) then servers[p] else sys.servers[p])
    {
      assert Listening(sys, q) && SameState(sys.servers[q], sys.servers[p]);
    }
  }

  /** A request whose calls never end changes nothing here; if it is silent, that is
      what it does wherever it has got to. */
  lemma EndlessAsk(z: Zone, sys: System, p: Place, r: Request)
    requires Safe(sys.coord) && Flagged(sys.coord, sys.believes)
    requires Serving(sys, p) && !Calm(sys.coord, p) && OutcomeOf(sys.servers[p].graph, r) != Fault
    ensures Next(z, sys, Ask(p, r)) == sys
  {
    hide Calm, Safe, Flagged, Uncontested, Spread;
    CalmIff(sys.coord, sys.believes, p);
    ContestedNeverEnds(sys.coord, sys.believes, 3, p);
  }

  lemma CoversIff(c: Coord, believes: set<Place>, p: Place)
    requires Flagged(c, believes) && Active(c, p)
    ensures (forall q | Active(c, q) :: Reached(c, believes, p, q)) <==> Covers(c, p, HoldsTitle(c, p))
  {
    hide HoldsTitle, MasterOf;
  }

  /** At whatever server a request arrives, if its calls end or it is silent:
      agreement survives exactly if it is silent or misses nobody. */
  lemma {:induction false} AskAgreesIff(z: Zone, sys: System, p: Place, r: Request)
    requires Inv(z, sys) && Serving(sys, p) && OutcomeOf(sys.servers[p].graph, r) != Fault
    requires Calm(sys.coord, p) || Silent(z, sys, p, r)
    ensures Agree(Next(z, sys, Ask(p, r))) <==> CanAsk(z, sys, p, r)
  {
    hide Next, LogOf, Serve, MasterOf, R.LogsAgree, R.Recoverable, OutcomeOf, Safe, Flagged, Calm, Covers, HoldsTitle,
         LocksTell, Reached;
    if Calm(sys.coord, p) {
      CoversIff(sys.coord, sys.believes, p);
      AskStates(z, sys, p, r);
      AskEffect(z, sys, p, r);
      SilentMeansSame(z, sys.servers[p], r);
      AllReachedIff(sys, Next(z, sys, Ask(p, r)), p, sys.servers[p]);
    } else {
      EndlessAsk(z, sys, p, r);
    }
  }

  /** Servers that were all like `s` and are like the server at `p` if reached. */
  lemma AllReachedIff(sys: System, sys': System, p: Place, s: R.Server)
    requires Active(sys.coord, p) && sys'.coord == sys.coord && p in sys'.servers
    requires forall q | Active(sys.coord, q) ::
               && q in sys'.servers
               && SameState(sys'.servers[q], if Reached(sys.coord, sys.believes, p, q) then sys'.servers[p] else s)
    ensures Agree(sys') <==>
            SameState(sys'.servers[p], s) || forall q | Active(sys.coord, q) :: Reached(sys.coord, sys.believes, p, q)
  {
    hide Active, MasterOf;
  }

  lemma {:induction false} AskReplicates(z: Zone, sys: System, p: Place, r: Request)
    requires z.PrintsWords() && Inv(z, sys) && Allowed(z, sys, Ask(p, r))
    ensures Inv(z, Next(z, sys, Ask(p, r)))
  {
    hide Next, LogOf, Serve, MasterOf, OutcomeOf, Readable, R.LogsAgree, R.Recoverable, Safe, Flagged, Calm, Covers,
         LocksTell, CanAsk, Silent;
    var c, sys' := sys.coord, Next(z, sys, Ask(p, r));
    if Calm(c, p) {
      AskEffect(z, sys, p, r);
      AskAgreesIff(z, sys, p, r);
      assert forall q | Active(c, q) :: Listening(sys, q) && Listening(sys', q);
      forall q | q in sys'.servers ensures Sound(z, sys'.servers[q]) {
        if Reached(c, sys.believes, p, q) {
          assert SameState(sys.servers[q], sys.servers[p]);
          AskKeepsSound(z, sys.servers[q], r);
        }
      }
    } else {
      EndlessAsk(z, sys, p, r);
    }
  }

  lemma SilentMeansSame(z: Zone, s: R.Server, r: Request)
    requires Sound(z, s) && OutcomeOf(s.graph, r) != Fault
    ensures SameState(R.Step(z, s, R.Ask(r)), s) <==> LogOf(z, s.graph, r) == ""
  {
    WhenRequestsFault(s.graph, r);
    var log := LogOf(z, s.graph, r);
    assert |s.userinfo + log| == |s.userinfo| + |log|;
    assert s.userinfo + "" == s.userinfo;
  }

  /** A post changes neither the graph nor the userinfo log of any server. */
  lemma PostDelivered(z: Zone, s: R.Server, cmd: R.Command)
    requires Sound(z, s) && !cmd.Ask? && Survives(z, cmd.post) && cmd.post.username in s.graph.accounts
    ensures Sound(z, R.Step(z, s, cmd)) && SameState(R.Step(z, s, cmd), s)
  {
    PostKeepsSound(z, s, cmd.post);
  }

  lemma PostForwards(c: Coord, believes: set<Place>, p: Place)
    requires c.Has(p)
    ensures var ps := Forwards(c, believes, p, false);
            NoDup(ps) && p !in ps && forall q :: q in ps <==> p in believes && PostGoesTo(c, p, q)
  {
    hide MasterOf, Forwards, NoDup, IsMasterOf;
    PostReaches(c, believes, p);
    var ps := Forwards(c, believes, p, false);
    FrontOnce(p, ps);
    assert forall q :: q in [p] + ps <==> q == p || q in ps;
  }

  lemma FrontOnce<T>(x: T, s: seq<T>)
    requires NoDup([x] + s)
    ensures NoDup(s) && x !in s
  {
    assert forall i | 0 <= i < |s| :: ([x] + s)[i + 1] == s[i] && s[i] != ([x] + s)[0];
  }

  /** What becomes of the server at `q` when `p` gets a post of a known author. */
  function Told(z: Zone, sys: System, p: Place, post: Post, q: Place): R.Server
    requires q in sys.servers
  {
    var s := sys.servers[q];
    if q == p then R.Step(z, s, R.Chat(post))
    else if post.data != "" && p in sys.believes && PostGoesTo(sys.coord, p, q) then R.Step(z, s, R.AddPost(post))
    else s
  }

  /** A post is stored once at each server that it goes to, and nowhere else. */
  lemma SayEffect(z: Zone, sys: System, p: Place, post: Post)
    requires Up(sys, p) && post.username in sys.servers[p].graph.accounts
    ensures var sys' := Next(z, sys, Say(p, post));
            && sys' == sys.(servers := sys'.servers) && sys'.servers.Keys == sys.servers.Keys
            && forall q | q in sys.servers :: sys'.servers[q] == Told(z, sys, p, post, q)
  {
    hide R.Step, MasterOf, IsMasterOf, Forwards;
    PostForwards(sys.coord, sys.believes, p);
    var said := DeliverOne(z, sys.servers, p, R.Chat(post));
    DeliveredOnce(z, said, Forwards(sys.coord, sys.believes, p, false), R.AddPost(post));
  }

  lemma GoesToActive(c: Coord, p: Place, q: Place)
    requires Safe(c) && PostGoesTo(c, p, q)
    ensures Active(c, q)
  {
    hide Safe;
    if q.cluster != p.cluster {
      FoundIsMaster(c, q);
      MastersAreActive(c, q);
    }
  }

  lemma {:induction false} SayKeepsStates(z: Zone, sys: System, p: Place, post: Post)
    requires Inv(z, sys) && Allowed(z, sys, Say(p, post))
    ensures var servers := Next(z, sys, Say(p, post)).servers;
            && servers.Keys == sys.servers.Keys
            && forall q | q in servers :: Sound(z, servers[q]) && SameState(servers[q], sys.servers[q])
  {
    hide Next, MasterOf, Sound, R.Step, Survives, Safe, Flagged, LocksTell, PostGoesTo;
    SayEffect(z, sys, p, post);
    forall q | q in sys.servers
      ensures Sound(z, Told(z, sys, p, post, q)) && SameState(Told(z, sys, p, post, q), sys.servers[q])
    {
      if PostGoesTo(sys.coord, p, q) {
        GoesToActive(sys.coord, p, q);
      }
      if Active(sys.coord, q) {
        assert SameState(sys.servers[q], sys.servers[p]);
        PostDelivered(z, sys.servers[q], R.Chat(post));
        PostDelivered(z, sys.servers[q], R.AddPost(post));
      }
    }
  }

  lemma {:induction false} SayReplicates(z: Zone, sys: System, p: Place, post: Post)
    requires Inv(z, sys) && Allowed(z, sys, Say(p, post))
    ensures Inv(z, Next(z, sys, Say(p, post)))
  {
    hide Next, MasterOf, Sound, Told, Safe, Flagged, LocksTell;
    var c, sys' := sys.coord, Next(z, sys, Say(p, post));
    SayEffect(z, sys, p, post);
    SayKeepsStates(z, sys, p, post);
    assert forall q | Active(c, q) :: Listening(sys, q) && Listening(sys', q);
    forall q, t | Active(c, q) && Active(c, t) ensures SameState(sys'.servers[q], sys'.servers[t]) {
      assert SameState(sys.servers[q], sys.servers[t]);
    }
  }

  lemma ActiveIsServing(z: Zone, sys: System, p: Place)
    requires Inv(z, sys) && Active(sys.coord, p)
    ensures Serving(sys, p)
  {
    assert Listening(sys, p);
  }

  /** A server that does not run ignores everything; a request that kills a server,
      or a post of a stranger, kills that server only and is not sent on. */
  lemma {:induction false} DeathStaysLocal(z: Zone, sys: System, p: Place, r: Request, post: Post)
    ensures !Up(sys, p) ==> Next(z, sys, Ask(p, r)) == sys && Next(z, sys, Say(p, post)) == sys
    ensures Up(sys, p) && OutcomeOf(sys.servers[p].graph, r) == Fault ==>
              Next(z, sys, Ask(p, r)) == sys.(servers := sys.servers[p := sys.servers[p].(alive := false)])
    ensures Up(sys, p) && post.username !in sys.servers[p].graph.accounts ==>
              Next(z, sys, Say(p, post)) == sys.(servers := sys.servers[p := sys.servers[p].(alive := false)])
  {
    hide OutcomeOf, Spread, Forwards;
  }

  // ---- the coordinator's steps ----

  /** Nobody's address changes, and at most `p` becomes active again. */
  lemma StillReplicated(z: Zone, sys: System, c: Coord, believes: set<Place>, p: Place)
    requires Replicated(z, sys)
    requires forall q | Active(c, q) && (q != p || Active(sys.coord, p)) ::
               Active(sys.coord, q) && c.Node(q).Address() == sys.coord.Node(q).Address()
    requires Active(c, p) && !Active(sys.coord, p) ==>
               && sys.coord.Has(p) && c.Node(p).Address() == sys.coord.Node(p).Address()
               && Listening(sys, p) && Like(sys, sys.servers[p])
    ensures Replicated(z, sys.(coord := c, believes := believes))
  {
    hide Sound;
    var sys' := sys.(coord := c, believes := believes);
    forall q | Active(c, q) ensures Listening(sys', q) {
      assert Listening(sys, q);
    }
    forall q, t | Active(c, q) && Active(c, t) ensures SameState(sys.servers[q], sys.servers[t]) {
      assert Active(sys.coord, q) && Active(sys.coord, t) ==> SameState(sys.servers[q], sys.servers[t]);
    }
  }

  lemma {:induction false} CheckReplicates(z: Zone, sys: System, p: Place, now: int)
    requires Inv(z, sys)
    ensures Inv(z, Next(z, sys, Check(p, now)))
    ensures var sys' := Next(z, sys, Check(p, now));
            && sys' == sys.(coord := sys'.coord)
            && forall q :: (sys'.coord.Has(q) <==> sys.coord.Has(q)) && (Active(sys'.coord, q) ==> Active(sys.coord, q))
  {
    hide SweepServer, Sound, MasterOf, Flagged;
    if sys.coord.Has(p) {
      var c := SweepServer(sys.coord, p, now);
      SweepEffect(sys.coord, p, now);
      SweepKeepsTelling(sys.coord, p, now);
      SweepFlags(sys.coord, sys.believes, p, now);
      StillReplicated(z, sys, c, sys.believes, p);
    }
  }

  /** A registered heartbeat makes its sender active and changes no other node. */
  lemma {:induction false} BeatEffect(z: Zone, sys: System, info: ServerInfo, now: int)
    requires Inv(z, sys) && info.registered && InRange(sys.coord, info)
    ensures var sys' := Next(z, sys, Step.Beat(info, now));
            && sys' == sys.(coord := sys'.coord, believes := sys'.believes)
            && OnlyAt(sys.coord, sys'.coord, PlaceOf(info)) && Active(sys'.coord, PlaceOf(info))
            && Safe(sys'.coord) && Flagged(sys'.coord, sys'.believes)
            && sys'.coord.Node(PlaceOf(info)).Address() == AddressOf(info)
            && (LocksTell(sys'.coord) <==> StaysPut(sys.coord, info))
  {
    hide Heartbeat, Sound, MasterOf, Flagged;
    HeartbeatEffect(sys.coord, info, now);
    HeartbeatKeepsTellingIff(sys.coord, info, now);
    HeartbeatFlags(sys.coord, sys.believes, info, now);
  }

  lemma {:induction false} BeatReplicates(z: Zone, sys: System, info: ServerInfo, now: int)
    requires Inv(z, sys) && Allowed(z, sys, Step.Beat(info, now))
    ensures Inv(z, Next(z, sys, Step.Beat(info, now)))
  {
    hide Next, Sound, MasterOf, Flagged, Safe;
    BeatEffect(z, sys, info, now);
    var sys' := Next(z, sys, Step.Beat(info, now));
    StillReplicated(z, sys, sys'.coord, sys'.believes, PlaceOf(info));
  }

  // ---- joining ----

  lemma MasterIsSource(c: Coord, p: Place)
    requires p.cluster < |c.clusters|
    ensures SyncSource(c, p).Some? ==> SomeMaster(c)
    ensures SyncSource(c, p).None? ==> !SomeMaster(c)
  {
    hide MasterOf, FirstOtherMaster;
    match SyncSource(c, p) {
      case Some(m) => assert IsMaster(c, m);
      case None => assert forall q | c.Has(q) :: MasterOf(c.clusters[q.cluster]).None?;
    }
  }

  /** The joining server starts as an exact copy of `m`, its source. */
  ghost predicate CopyOfSource(z: Zone, sys: System, p: Place, s: R.Server)
    requires p.cluster < |sys.coord.clusters|
  {
    var m := SyncSource(sys.coord, p);
    m.Some? && m.value in sys.servers && s == sys.servers[m.value] && Sound(z, s) && Like(sys, s)
  }

  /** A joining server copies memory and files, posts included, of its source if
      there is a master anywhere, and is then in the state that all active servers
      share; otherwise it starts from its own files. */
  lemma {:induction false} JoinerCopies(z: Zone, sys: System, info: ServerInfo, now: int,
                                        userinfo: string, postlog: string)
    requires z.PrintsWords() && Inv(z, sys) && !info.registered && Admitted(sys.coord, info)
    ensures var reply := Heartbeat(sys.coord, info, now).0;
            && reply.Registered?
            && var s := Started(z, sys, reply.syncAddress, userinfo, postlog);
               if SomeMaster(sys.coord) then s.Some? && CopyOfSource(z, sys, PlaceOf(info), s.value)
               else s == R.StartFromFiles(z, userinfo, postlog)
  {
    hide Heartbeat, MasterOf, R.StartFromFiles, R.StartFromLog, R.LogsAgree, R.Recoverable, SyncSource;
    var c := sys.coord;
    JoinSync(c, info, now);
    MasterIsSource(c, PlaceOf(info));
    match SyncSource(c, PlaceOf(info)) {
      case None =>
      case Some(m) =>
        MastersAreActive(c, m);
        assert Active(c, m) && Listening(sys, m);
        R.SyncOfState(z, sys.servers[m], true);
        assert forall q | Active(c, q) :: SameState(sys.servers[m], sys.servers[q]);
    }
  }

  /** An accepted join puts the started server, or nothing, at its place. */
  lemma {:induction false} JoinEffect(z: Zone, sys: System, info: ServerInfo, now: int,
                                      userinfo: string, postlog: string) returns (s: Option<R.Server>)
    requires z.PrintsWords() && Inv(z, sys) && !info.registered && Admitted(sys.coord, info)
    ensures if SomeMaster(sys.coord) then s.Some? && CopyOfSource(z, sys, PlaceOf(info), s.value)
            else s == R.StartFromFiles(z, userinfo, postlog)
    ensures var sys', p := Next(z, sys, Join(info, now, userinfo, postlog)), PlaceOf(info);
            && OnlyAt(sys.coord, sys'.coord, p) && Active(sys'.coord, p) && !Active(sys.coord, p)
            && Safe(sys'.coord) && LocksTell(sys'.coord) && Flagged(sys'.coord, sys'.believes)
            && sys'.coord.Node(p).Address() == AddressOf(info)
            && sys'.believes == Believe(sys.believes, p, sys'.coord.Node(p).master)
            && sys'.servers == (if s.Some? then sys.servers[p := s.value] else sys.servers - {p})
            && (s.Some? ==> sys'.at == sys.at[AddressOf(info) := p])
  {
    hide Heartbeat, Flagged, Started, Sound, MasterOf, R.StartFromFiles, Like, SomeMaster, CopyOfSource;
    var p := PlaceOf(info);
    if IsMaster(sys.coord, p) {
      MastersAreActive(sys.coord, p);
    }
    HeartbeatEffect(sys.coord, info, now);
    HeartbeatKeepsTellingIff(sys.coord, info, now);
    HeartbeatFlags(sys.coord, sys.believes, info, now);
    JoinerCopies(z, sys, info, now, userinfo, postlog);
    s := Started(z, sys, Heartbeat(sys.coord, info, now).0.syncAddress, userinfo, postlog);
  }

  lemma {:induction false} JoinReplicates(z: Zone, sys: System, info: ServerInfo, now: int,
                                          userinfo: string, postlog: string)
    requires z.PrintsWords() && Inv(z, sys) && Allowed(z, sys, Join(info, now, userinfo, postlog))
    ensures Inv(z, Next(z, sys, Join(info, now, userinfo, postlog)))
  {
    hide Next, Heartbeat, Sound, MasterOf, R.StartFromFiles, Admitted, Safe, LocksTell, Flagged, Replicated, OnlyAt,
         SomeMaster, Like;
    var sys' := Next(z, sys, Join(info, now, userinfo, postlog));
    if Admitted(sys.coord, info) {
      var s := JoinEffect(z, sys, info, now, userinfo, postlog);
      Joined(z, sys, sys', PlaceOf(info), s.value);
    } else {
      RefusedJoin(z, sys, info, now, userinfo, postlog);
    }
  }

  lemma RefusedJoin(z: Zone, sys: System, info: ServerInfo, now: int, userinfo: string, postlog: string)
    requires !Admitted(sys.coord, info)
    ensures Next(z, sys, Join(info, now, userinfo, postlog)) == sys
  {
    hide Heartbeat;
    RefusedChangesNothing(sys.coord, info, now);
  }

  lemma Joined(z: Zone, sys: System, sys': System, p: Place, s: R.Server)
    requires Replicated(z, sys) && OnlyAt(sys.coord, sys'.coord, p) && Sound(z, s) && Like(sys, s)
    requires sys'.servers == sys.servers[p := s] && sys'.at == sys.at[sys'.coord.Node(p).Address() := p]
    requires forall q | Active(sys.coord, q) :: sys.coord.Node(q).Address() != sys'.coord.Node(p).Address()
    ensures Replicated(z, sys')
  {
    hide Sound;
    forall q | Active(sys'.coord, q) ensures Listening(sys', q) && SameState(s, sys'.servers[q]) {
      if q != p {
        assert Active(sys.coord, q) && Listening(sys, q);
      }
    }
  }

  /** Agreement survives an accepted join exactly if there is a master somewhere
      to start from, or the joining server's own files happen to replay to the
      state of the servers that are still active. */
  lemma {:induction false} JoinAgreesIff(z: Zone, sys: System, info: ServerInfo, now: int,
                                         userinfo: string, postlog: string)
    requires z.PrintsWords() && Inv(z, sys) && !info.registered && Admitted(sys.coord, info)
    ensures Agree(Next(z, sys, Join(info, now, userinfo, postlog))) <==>
            || SomeMaster(sys.coord)
            || (var s := R.StartFromFiles(z, userinfo, postlog); s.Some? && Like(sys, s.value))
  {
    hide Next, Inv, OnlyAt, Like, Agree, SomeMaster, R.StartFromFiles, Active, Admitted, LocksTell, Safe;
    var s := JoinEffect(z, sys, info, now, userinfo, postlog);
    var sys' := Next(z, sys, Join(info, now, userinfo, postlog));
    OthersStayActive(sys.coord, sys'.coord, PlaceOf(info));
    OneMoreAgreesIff(sys, sys', PlaceOf(info), s);
  }

  lemma OthersStayActive(c: Coord, c': Coord, p: Place)
    requires OnlyAt(c, c', p)
    ensures forall q | q != p :: Active(c', q) <==> Active(c, q)
  {
  }

  lemma OneMoreAgreesIff(sys: System, sys': System, p: Place, s: Option<R.Server>)
    requires Active(sys'.coord, p) && !Active(sys.coord, p)
    requires forall q | q != p :: Active(sys'.coord, q) <==> Active(sys.coord, q)
    requires sys'.servers == if s.Some? then sys.servers[p := s.value] else sys.servers - {p}
    ensures Agree(sys') <==> s.Some? && Like(sys, s.value)
  {
    hide Active;
    if s.Some? && Like(sys, s.value) {
      assert forall q | Active(sys'.coord, q) :: q in sys'.servers && SameState(s.value, sys'.servers[q]);
    } else if s.Some? {
      var q :| Active(sys.coord, q) && !(q in sys.servers && SameState(s.value, sys.servers[q]));
      assert Active(sys'.coord, q) && Active(sys'.coord, p);
    } else {
      assert Active(sys'.coord, p) && p !in sys'.servers;
    }
  }

  // ---- whole runs ----

  lemma {:induction false} StepReplicates(z: Zone, sys: System, step: Step)
    requires z.PrintsWords() && Inv(z, sys) && Allowed(z, sys, step)
    ensures Inv(z, Next(z, sys, step))
  {
    hide Next, Inv, Allowed;
    match step {
      case Ask(p, r) => AskReplicates(z, sys, p, r);
      case Say(p, post) => SayReplicates(z, sys, p, post);
      case Beat(info, now) => BeatReplicates(z, sys, info, now);
      case Join(info, now, userinfo, postlog) => JoinReplicates(z, sys, info, now, userinfo, postlog);
      case Check(p, now) => CheckReplicates(z, sys, p, now);
    }
  }

  lemma {:induction false} RunReplicates(z: Zone, sys: System, steps: seq<Step>)
    requires z.PrintsWords() && Inv(z, sys) && AllAllowed(z, sys, steps)
    ensures Inv(z, Run(z, sys, steps))
    decreases |steps|
  {
    hide Next, Inv, Allowed;
    if steps != [] {
      var n := |steps| - 1;
      RunReplicates(z, sys, steps[..n]);
      StepReplicates(z, Run(z, sys, steps[..n]), steps[n]);
    }
  }

  lemma BeginIsReplicated(z: Zone, n: nat)
    ensures Inv(z, Begin(n))
  {
    StartIsSafe(n);
    NobodyIsFlagged(n);
    assert forall q :: !Start(n).Has(q);
  }

  /** After any allowed run of requests, posts, joins, heartbeats and sweeps, all
      active servers run and hold the same social graph (users, lists, times, in
      order) and the same userinfo log. */
  lemma {:induction false} ActiveServersAgree(z: Zone, n: nat, steps: seq<Step>, q: Place, r: Place)
    requires z.PrintsWords() && AllAllowed(z, Begin(n), steps)
    requires var c := Run(z, Begin(n), steps).coord; Active(c, q) && Active(c, r)
    ensures var servers := Run(z, Begin(n), steps).servers;
            && q in servers && r in servers && servers[q].alive
            && servers[q].graph == servers[r].graph && servers[q].userinfo == servers[r].userinfo
  {
    hide Next, Allowed;
    BeginIsReplicated(z, n);
    RunReplicates(z, Begin(n), steps);
    var sys := Run(z, Begin(n), steps);
    assert Listening(sys, q) && Listening(sys, r);
    assert SameState(sys.servers[q], sys.servers[r]);
  }

  // ---- a server that was given up and comes back ----

  /** What the requests of a run have appended to the logs of the served servers. */
  function Logged(z: Zone, sys: System, steps: seq<Step>): string
  {
    if steps == [] then ""
    else
      var before, step := Run(z, sys, steps[..|steps| - 1]), steps[|steps| - 1];
      Logged(z, sys, steps[..|steps| - 1]) + LoggedBy(z, before, step)
  }

  function LoggedBy(z: Zone, sys: System, step: Step): string
  {
    match step
    case Ask(p, r) => if p in sys.servers then LogOf(z, sys.servers[p].graph, r) else ""
    case _ => ""
  }

  /** No heartbeat of `p`. */
  predicate SilentAt(step: Step, p: Place)
  {
    match step
    case Beat(info, _) => info.clusterId >= 1 ==> PlaceOf(info) != p
    case Join(info, _, _, _) => info.clusterId >= 1 ==> PlaceOf(info) != p
    case _ => true
  }

  /** `p` stays silent, and some server is active all the time. */
  ghost predicate Away(z: Zone, sys: System, steps: seq<Step>, p: Place)
  {
    && (exists q :: Active(Run(z, sys, steps).coord, q))
    && (steps == [] || (Away(z, sys, steps[..|steps| - 1], p) && SilentAt(steps[|steps| - 1], p)))
  }

  /** Every active server is where `s` would be after logging `text`. */
  ghost predicate Ahead(sys: System, s: R.Server, text: string)
  {
    forall q | Active(sys.coord, q) ::
      && q in sys.servers && sys.servers[q].userinfo == s.userinfo + text
      && (text == "" ==> sys.servers[q].graph == s.graph)
  }

  /** `p` was given up, and its memory is still that of `s`. */
  predicate LeftBehind(sys: System, p: Place, s: R.Server)
  {
    sys.coord.Has(p) && !Active(sys.coord, p) && p in sys.servers && sys.servers[p] == s
  }

  lemma {:induction false} AskDrifts(z: Zone, sys: System, p: Place, s: R.Server, text: string, m: Place, r: Request)
    requires z.PrintsWords() && Inv(z, sys) && Allowed(z, sys, Ask(m, r))
    requires LeftBehind(sys, p, s) && Ahead(sys, s, text)
    ensures var sys' := Next(z, sys, Ask(m, r));
            LeftBehind(sys', p, s) && Ahead(sys', s, text + LoggedBy(z, sys, Ask(m, r)))
  {
    hide Next, LogOf, Serve, MasterOf, R.LogsAgree, R.Recoverable, OutcomeOf, Readable, R.Step, Safe, Flagged, Calm,
         Covers, LocksTell, HoldsTitle;
    var sys', log := Next(z, sys, Ask(m, r)), LogOf(z, sys.servers[m].graph, r);
    if !Calm(sys.coord, m) {
      EndlessAsk(z, sys, m, r);
      assert text + "" == text;
      return;
    }
    AskStates(z, sys, m, r);
    AskEffect(z, sys, m, r);
    AskAgreesIff(z, sys, m, r);
    FurtherAhead(z, sys.servers[m], s, text, r);
    forall q | Active(sys'.coord, q)
      ensures sys'.servers[q].userinfo == s.userinfo + (text + log)
              && (text + log == "" ==> sys'.servers[q].graph == s.graph)
    {
      assert SameState(sys'.servers[q], sys'.servers[m]);
    }
  }

  lemma FurtherAhead(z: Zone, s': R.Server, s: R.Server, text: string, r: Request)
    requires Sound(z, s') && OutcomeOf(s'.graph, r) != Fault
    requires s'.userinfo == s.userinfo + text && (text == "" ==> s'.graph == s.graph)
    ensures var t, log := R.Step(z, s', R.Ask(r)), LogOf(z, s'.graph, r);
            t.userinfo == s.userinfo + (text + log) && (text + log == "" ==> t.graph == s.graph)
  {
    hide LogOf, OutcomeOf, Sound, R.Step;
    SilentMeansSame(z, s', r);
    AskLogs(z, s', r);
    Regroup(s.userinfo, text, LogOf(z, s'.graph, r));
    assert |text + LogOf(z, s'.graph, r)| == |text| + |LogOf(z, s'.graph, r)|;
  }

  lemma AskLogs(z: Zone, s: R.Server, r: Request)
    requires Sound(z, s) && OutcomeOf(s.graph, r) != Fault
    ensures R.Step(z, s, R.Ask(r)).userinfo == s.userinfo + LogOf(z, s.graph, r)
  {
  }

  lemma {:induction false} SayDrifts(z: Zone, sys: System, p: Place, s: R.Server, text: string, m: Place, post: Post)
    requires z.PrintsWords() && Inv(z, sys) && Allowed(z, sys, Say(m, post))
    requires LeftBehind(sys, p, s) && Ahead(sys, s, text)
    ensures var sys' := Next(z, sys, Say(m, post)); LeftBehind(sys', p, s) && Ahead(sys', s, text)
  {
    hide Next, MasterOf, Sound, R.Step, Survives, Safe, Flagged, PostGoesTo;
    var sys' := Next(z, sys, Say(m, post));
    SayEffect(z, sys, m, post);
    SayKeepsStates(z, sys, m, post);
    if PostGoesTo(sys.coord, m, p) {
      GoesToActive(sys.coord, m, p);
    }
    assert p != m && Told(z, sys, m, post, p) == s;
  }

  lemma {:induction false} BeatDrifts(z: Zone, sys: System, p: Place, s: R.Server, text: string,
                                      info: ServerInfo, now: int)
    requires Inv(z, sys) && Allowed(z, sys, Step.Beat(info, now)) && SilentAt(Step.Beat(info, now), p)
    requires LeftBehind(sys, p, s) && Ahead(sys, s, text) && exists q :: Active(sys.coord, q)
    ensures var sys' := Next(z, sys, Step.Beat(info, now)); LeftBehind(sys', p, s) && Ahead(sys', s, text)
  {
    hide Next, MasterOf, Sound;
    BeatEffect(z, sys, info, now);
    var sys', a := Next(z, sys, Step.Beat(info, now)), PlaceOf(info);
    var q :| Active(sys.coord, q);
    assert !Active(sys.coord, a) ==> SameState(sys.servers[a], sys.servers[q]);
    OthersStayActive(sys.coord, sys'.coord, a);
  }

  lemma {:induction false} JoinDrifts(z: Zone, sys: System, p: Place, s: R.Server, text: string, info: ServerInfo,
                                      now: int, userinfo: string, postlog: string)
    requires z.PrintsWords() && Inv(z, sys) && Allowed(z, sys, Join(info, now, userinfo, postlog))
    requires SilentAt(Join(info, now, userinfo, postlog), p)
    requires LeftBehind(sys, p, s) && Ahead(sys, s, text) && exists q :: Active(sys.coord, q)
    ensures var sys' := Next(z, sys, Join(info, now, userinfo, postlog));
            LeftBehind(sys', p, s) && Ahead(sys', s, text)
  {
    hide Next, Heartbeat, Sound, R.StartFromFiles, SomeMaster, Admitted, LocksTell, Safe, Flagged, FreshAddress;
    var sys' := Next(z, sys, Join(info, now, userinfo, postlog));
    if Admitted(sys.coord, info) {
      var joined := JoinEffect(z, sys, info, now, userinfo, postlog);
      var a := PlaceOf(info);
      var q :| Active(sys.coord, q);
      assert SameState(joined.value, sys.servers[q]);
      OthersStayActive(sys.coord, sys'.coord, a);
    } else {
      RefusedJoin(z, sys, info, now, userinfo, postlog);
    }
  }

  lemma {:induction false} CheckDrifts(z: Zone, sys: System, p: Place, s: R.Server, text: string, q: Place, now: int)
    requires Inv(z, sys) && LeftBehind(sys, p, s) && Ahead(sys, s, text)
    ensures var sys' := Next(z, sys, Check(q, now)); LeftBehind(sys', p, s) && Ahead(sys', s, text)
  {
    hide Next, Sound, MasterOf;
    CheckReplicates(z, sys, q, now);
  }

  lemma {:induction false} StepDrifts(z: Zone, sys: System, p: Place, s: R.Server, text: string, step: Step)
    requires z.PrintsWords() && Inv(z, sys) && Allowed(z, sys, step) && SilentAt(step, p)
    requires LeftBehind(sys, p, s) && Ahead(sys, s, text) && exists q :: Active(sys.coord, q)
    ensures var sys' := Next(z, sys, step); LeftBehind(sys', p, s) && Ahead(sys', s, text + LoggedBy(z, sys, step))
  {
    hide Next, Inv, Allowed, SilentAt, LeftBehind, Ahead;
    assert text + "" == text;
    match step {
      case Ask(m, r) => AskDrifts(z, sys, p, s, text, m, r);
      case Say(m, post) => SayDrifts(z, sys, p, s, text, m, post);
      case Beat(info, now) => BeatDrifts(z, sys, p, s, text, info, now);
      case Join(info, now, userinfo, postlog) => JoinDrifts(z, sys, p, s, text, info, now, userinfo, postlog);
      case Check(q, now) => CheckDrifts(z, sys, p, s, text, q, now);
    }
  }

  lemma {:induction false} RunDrifts(z: Zone, sys: System, p: Place, s: R.Server, steps: seq<Step>)
    requires z.PrintsWords() && Inv(z, sys) && AllAllowed(z, sys, steps) && Away(z, sys, steps, p)
    requires LeftBehind(sys, p, s) && Ahead(sys, s, "")
    ensures var sys' := Run(z, sys, steps); LeftBehind(sys', p, s) && Ahead(sys', s, Logged(z, sys, steps))
    decreases |steps|
  {
    hide Next, Inv, Allowed, SilentAt, LeftBehind, Ahead, LoggedBy;
    if steps != [] {
      var n := |steps| - 1;
      RunDrifts(z, sys, p, s, steps[..n]);
      RunReplicates(z, sys, steps[..n]);
      StepDrifts(z, Run(z, sys, steps[..n]), p, s, Logged(z, sys, steps[..n]), steps[n]);
    }
  }

  /** A server that a sweep gives up and that later just beats again: agreement
      survives its return exactly if no request since then has changed anything. */
  lemma {:induction false} ReturnAgreesIff(z: Zone, sys: System, p: Place, givenUp: int, steps: seq<Step>,
                                           info: ServerInfo, now: int)
    requires z.PrintsWords() && Inv(z, sys) && Active(sys.coord, p)
    requires !Active(Next(z, sys, Check(p, givenUp)).coord, p)
    requires var gone := Next(z, sys, Check(p, givenUp));
             AllAllowed(z, gone, steps) && Away(z, gone, steps, p)
    requires info.registered && InRange(sys.coord, info) && PlaceOf(info) == p
    ensures var gone := Next(z, sys, Check(p, givenUp));
            Agree(Next(z, Run(z, gone, steps), Step.Beat(info, now))) <==> Logged(z, gone, steps) == ""
  {
    hide Next, Sound, MasterOf, Allowed, SilentAt, Logged;
    var gone := Next(z, sys, Check(p, givenUp));
    CheckReplicates(z, sys, p, givenUp);
    var s, text := sys.servers[p], Logged(z, gone, steps);
    assert Listening(sys, p);
    assert Ahead(gone, s, "") by {
      assert s.userinfo + "" == s.userinfo;
      assert forall q | Active(gone.coord, q) :: SameState(sys.servers[q], s) && Listening(sys, q);
    }
    RunDrifts(z, gone, p, s, steps);
    RunReplicates(z, gone, steps);
    BehindIffLogged(z, Run(z, gone, steps), p, s, text, info, now);
  }

  lemma {:induction false} BehindIffLogged(z: Zone, sys: System, p: Place, s: R.Server, text: string,
                                           info: ServerInfo, now: int)
    requires Inv(z, sys) && LeftBehind(sys, p, s) && Ahead(sys, s, text) && exists q :: Active(sys.coord, q)
    requires info.registered && info.clusterId >= 1 && PlaceOf(info) == p
    ensures Agree(Next(z, sys, Step.Beat(info, now))) <==> text == ""
  {
    hide Next, Sound, MasterOf;
    BeatEffect(z, sys, info, now);
    var sys' := Next(z, sys, Step.Beat(info, now));
    assert forall t | t != p :: Active(sys'.coord, t) <==> Active(sys.coord, t);
    assert |s.userinfo + text| == |s.userinfo| + |text|;
    assert s.userinfo + "" == s.userinfo;
    var q :| Active(sys.coord, q);
    assert Active(sys'.coord, q) && Active(sys'.coord, p);
  }
}
