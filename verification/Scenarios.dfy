/** Concrete runs of the whole system, from the empty system on: a failover that
    keeps the agreement, and the runs behind the exact conditions in `Agreement`
    and `Broadcast`, in which a join, a return or a post goes wrong. */
module Scenarios {
  import opened Text
  import opened Social
  import opened LocalTime
  import opened PostLog
  import opened UserInfoLog
  import opened Registry
  import opened ElectionSafety
  import opened SyncAddresses
  import opened FailoverTiming
  import opened Broadcast
  import opened MasterFlags
  import opened Agreement

  // ---- nodes of the coordinator ----

  ghost predicate Only(c: Coord, ps: set<Place>)
  {
    forall q :: c.Has(q) <==> q in ps
  }

  predicate NodeIs(c: Coord, info: ServerInfo, master: bool, missed: nat, last: int)
    requires info.clusterId >= 1
  {
    && c.Has(PlaceOf(info))
    && var z := c.Node(PlaceOf(info));
       z.master == master && z.missed == missed && z.lastHeartbeat == last && z.Address() == AddressOf(info)
  }

  lemma OthersStay(c: Coord, c': Coord, p: Place, ps: set<Place>)
    requires OnlyAt(c, c', p) && Only(c, ps)
    ensures Only(c', ps + {p})
    ensures forall q | q in ps && q != p :: c'.Has(q) && c'.Node(q) == c.Node(q)
  {
  }

  lemma LockedMeansLed(c: Coord, i: nat)
    requires Safe(c) && i < |c.clusters|
    ensures MasterLock(i + 1) in c.fs.tree <==> HasMaster(c.clusters[i])
  {
    assert ClusterSafe(c.clusters[i], i, Locked(c.fs.tree, i));
  }

  lemma AfterHeartbeat(c: Coord, info: ServerInfo, now: int)
    requires Safe(c) && Admitted(c, info)
    ensures var c', p := Heartbeat(c, info, now).1, PlaceOf(info);
            && OnlyAt(c, c', p)
            && NodeIs(c', info, IsMaster(c, p) || !HasMaster(c.clusters[p.cluster]), 0, now)
  {
    hide Heartbeat, MasterLock, MasterOf, FirstOtherMaster, HasMaster, Safe, OnlyAt, SameLock;
    HeartbeatEffect(c, info, now);
    HeartbeatTouches(c, info, now, PlaceOf(info));
    LockedMeansLed(c, PlaceOf(info).cluster);
  }

  lemma AfterSweep(c: Coord, info: ServerInfo, master: bool, missed: nat, last: int, now: int)
    requires info.clusterId >= 1 && Safe(c) && NodeIs(c, info, master, missed, last) && now > last + 10
    ensures var c' := SweepServer(c, PlaceOf(info), now);
            && OnlyAt(c, c', PlaceOf(info))
            && NodeIs(c', info, master && missed + 1 != 2, missed + 1, last)
  {
    SweepEffect(c, PlaceOf(info), now);
    hide OnlyAt, Safe, FlatFs.Remove;
  }

  lemma Masterless(c: Coord, i: nat)
    requires i < |c.clusters| && forall q | c.Has(q) && q.cluster == i :: !c.Node(q).master
    ensures !HasMaster(c.clusters[i])
  {
    assert forall k | k in c.clusters[i] :: c.Has(Place(i, k)) && c.clusters[i][k] == c.Node(Place(i, k));
  }

  lemma Mastered(c: Coord, p: Place)
    requires c.Has(p) && c.Node(p).master
    ensures HasMaster(c.clusters[p.cluster]) && SomeMaster(c)
  {
    assert p.server in c.clusters[p.cluster] && IsMaster(c, p);
  }

  /** Requests at `p` end and miss nobody. */
  ghost predicate Serves(c: Coord, p: Place)
  {
    HoldsTitle(c, p) && Calm(c, p) && Covers(c, p, true)
  }

  /** A master serves everyone if every active server is prompt and has a master. */
  lemma MasterServes(c: Coord, p: Place)
    requires Safe(c) && IsMaster(c, p)
    requires forall q | Active(c, q) :: c.Node(q).missed < 2 && HasMaster(c.clusters[q.cluster])
    ensures Serves(c, p)
  {
    hide Safe, MasterOf, MasterFilepath;
    MastersAreActive(c, p);
    forall q | Active(c, q) ensures HoldsTitle(c, q) <==> IsMaster(c, q) {
      TitleIsMastership(c, q);
    }
    forall i: nat | i < |c.clusters| ensures !TwoTitles(c, i) {
      OneAtMost(c, i);
    }
    OtherMastersAre(c, p.cluster);
  }

  // ---- steps of the system ----

  /** A new user logs in at a master that can broadcast. */
  lemma {:induction false} LoginReaches(z: Zone, sys: System, p: Place, u: string)
    requires z.PrintsWords() && Inv(z, sys) && Serves(sys.coord, p)
    requires Word(u) && p in sys.servers && u !in sys.servers[p].graph.db
    ensures var step := Ask(p, LoginReq(u));
            var sys' := Next(z, sys, step);
            && Allowed(z, sys, step) && Inv(z, sys')
            && sys' == sys.(servers := sys'.servers) && sys'.servers.Keys == sys.servers.Keys
            && forall q | q in sys.servers ::
                 if Active(sys.coord, q) then sys'.servers[q].graph.db == sys.servers[p].graph.db + [u]
                                              && sys'.servers[q].posts == sys.servers[q].posts
                 else sys'.servers[q] == sys.servers[q]
  {
    hide Next, MasterOf, R.Step, R.LogsAgree, R.Recoverable, LogOf, Safe, Flagged, LocksTell, Calm, Covers, HoldsTitle,
         Reached;
    TitlesAreActive(sys.coord, p);
    ActiveIsServing(z, sys, p);
    CoversIff(sys.coord, sys.believes, p);
    OnlyActive(sys.coord, sys.believes, p);
    AskReplicates(z, sys, p, LoginReq(u));
    AskEffect(z, sys, p, LoginReq(u));
    forall q | q in sys.servers && Active(sys.coord, q)
      ensures var s := R.Step(z, sys.servers[q], R.Ask(LoginReq(u)));
              s.graph.db == sys.servers[p].graph.db + [u] && s.posts == sys.servers[q].posts
    {
      assert SameState(sys.servers[q], sys.servers[p]);
      NewUser(z, sys.servers[q], u);
    }
  }

  lemma OnlyActive(c: Coord, believes: set<Place>, p: Place)
    requires Active(c, p)
    ensures forall q | Reached(c, believes, p, q) :: Active(c, q)
  {
  }

  lemma NewUser(z: Zone, s: R.Server, u: string)
    requires Sound(z, s) && u !in s.graph.db
    ensures R.Step(z, s, R.Ask(LoginReq(u))).graph.db == s.graph.db + [u]
    ensures R.Step(z, s, R.Ask(LoginReq(u))).posts == s.posts
  {
  }

  /** A new server joins while there is a master: it becomes master of its cluster
      if that has none, and knows the users that the active servers know. */
  lemma {:induction false} JoinFollows(z: Zone, sys: System, info: ServerInfo, now: int, ps: set<Place>)
    requires z.PrintsWords() && Inv(z, sys) && Only(sys.coord, ps) && SomeMaster(sys.coord)
    requires InRange(sys.coord, info) && !info.registered && PlaceOf(info) !in ps && FreshAddress(sys.coord, info)
    ensures var step, p := Join(info, now, "", ""), PlaceOf(info);
            var sys' := Next(z, sys, step);
            && Allowed(z, sys, step) && Inv(z, sys')
            && OnlyAt(sys.coord, sys'.coord, p)
            && NodeIs(sys'.coord, info, !HasMaster(sys.coord.clusters[p.cluster]), 0, now)
            && p in sys'.servers && sys'.servers == sys.servers[p := sys'.servers[p]] && Like(sys, sys'.servers[p])
            && sys'.servers[p] in sys.servers.Values
            && sys'.at == sys.at[AddressOf(info) := p]
            && sys'.believes == Believe(sys.believes, p, sys'.coord.Node(p).master)
  {
    hide Heartbeat, Started, Safe, LocksTell, Replicated, Sound, SomeMaster, HasMaster, Like, Active;
    JoinReplicates(z, sys, info, now, "", "");
    var s := JoinEffect(z, sys, info, now, "", "");
    AfterHeartbeat(sys.coord, info, now);
  }

  /** A check of a server that is late counts one more miss. */
  lemma {:induction false} LateCheck(z: Zone, sys: System, info: ServerInfo, master: bool, missed: nat, last: int,
                                     now: int)
    requires Inv(z, sys) && info.clusterId >= 1 && NodeIs(sys.coord, info, master, missed, last) && now > last + 10
    ensures var step := Check(PlaceOf(info), now);
            var sys' := Next(z, sys, step);
            && Allowed(z, sys, step) && Inv(z, sys') && sys' == sys.(coord := sys'.coord)
            && OnlyAt(sys.coord, sys'.coord, PlaceOf(info))
            && NodeIs(sys'.coord, info, master && missed + 1 != 2, missed + 1, last)
  {
    hide SweepServer, Safe, Replicated, LocksTell;
    CheckReplicates(z, sys, PlaceOf(info), now);
    AfterSweep(sys.coord, info, master, missed, last, now);
  }

  /** The next heartbeat of an active server in a cluster without master wins. */
  lemma {:induction false} BeatWins(z: Zone, sys: System, info: ServerInfo, missed: nat, last: int, now: int)
    requires Inv(z, sys) && info.registered && InRange(sys.coord, info)
    requires NodeIs(sys.coord, info, false, missed, last) && missed <= 2
    requires !HasMaster(sys.coord.clusters[info.clusterId - 1])
    ensures var step, p := Step.Beat(info, now), PlaceOf(info);
            var sys' := Next(z, sys, step);
            && Allowed(z, sys, step) && Inv(z, sys')
            && OnlyAt(sys.coord, sys'.coord, p) && NodeIs(sys'.coord, info, true, 0, now)
            && sys' == sys.(coord := sys'.coord, believes := sys.believes + {p})
  {
    hide Heartbeat, Safe, LocksTell, Sound, HasMaster;
    assert Active(sys.coord, PlaceOf(info)) && Listening(sys, PlaceOf(info));
    BeatReplicates(z, sys, info, now);
    HeartbeatEffect(sys.coord, info, now);
    AfterHeartbeat(sys.coord, info, now);
  }

  // ---- runs ----

  /** `steps` is an allowed run from the empty system to `sys`. */
  ghost predicate Leads(z: Zone, n: nat, steps: seq<Step>, sys: System)
  {
    AllAllowed(z, Begin(n), steps) && Agreement.Run(z, Begin(n), steps) == sys
  }

  lemma NoStep(z: Zone, n: nat)
    ensures Leads(z, n, [], Begin(n))
  {
  }

  lemma OneMoreStep(z: Zone, n: nat, steps: seq<Step>, sys: System, step: Step)
    requires Leads(z, n, steps, sys) && Allowed(z, sys, step)
    ensures Leads(z, n, steps + [step], Next(z, sys, step))
  {
    hide Next, Allowed;
    assert (steps + [step])[..|steps|] == steps;
  }

  lemma EmptyFiles(z: Zone)
    requires z.PrintsWords()
    ensures R.StartFromFiles(z, "", "") == Some(R.NEW_SERVER) && Sound(z, R.NEW_SERVER)
  {
    R.RunKeepsLogs(z, []);
    R.RestartRestoresIff(z, []);
    assert R.Run(z, []) == R.NEW_SERVER;
  }

  /** The first server of the system starts from empty files and is master. */
  lemma {:induction false} FirstJoin(z: Zone, n: nat, i: ServerInfo)
    requires z.PrintsWords() && 1 <= i.clusterId <= n && !i.registered
    ensures var step, p := Join(i, 0, "", ""), PlaceOf(i);
            var sys := Next(z, Begin(n), step);
            && Allowed(z, Begin(n), step) && Inv(z, sys)
            && Only(sys.coord, {p}) && |sys.coord.clusters| == n && NodeIs(sys.coord, i, true, 0, 0)
            && sys.servers == map[p := R.NEW_SERVER] && sys.believes == {p}
  {
    hide Heartbeat, Started, Safe, LocksTell, Sound, R.StartFromFiles;
    var c, p := Start(n), PlaceOf(i);
    assert Only(c, {}) && !SomeMaster(c) && |c.clusters| == n;
    BeginIsReplicated(z, n);
    EmptyFiles(z);
    Masterless(c, p.cluster);
    JoinReplicates(z, Begin(n), i, 0, "", "");
    var s := JoinEffect(z, Begin(n), i, 0, "", "");
    AfterHeartbeat(c, i, 0);
    OthersStay(c, Next(z, Begin(n), Join(i, 0, "", "")).coord, p, {});
  }

  /** One server, master of its cluster, where one user has logged in. */
  ghost predicate Solo(z: Zone, sys: System, n: nat, i: ServerInfo, u: string)
    requires i.clusterId >= 1
  {
    var p := PlaceOf(i);
    && Inv(z, sys) && Only(sys.coord, {p}) && |sys.coord.clusters| == n && NodeIs(sys.coord, i, true, 0, 0)
    && sys.servers.Keys == {p} && sys.believes == {p}
    && sys.servers[p].graph.db == [u] && sys.servers[p].posts == []
  }

  function Opening(i: ServerInfo, u: string): seq<Step>
    requires i.clusterId >= 1
  {
    [Join(i, 0, "", ""), Ask(PlaceOf(i), LoginReq(u))]
  }

  lemma {:induction false} SoloRun(z: Zone, n: nat, i: ServerInfo, u: string) returns (sys: System)
    requires z.PrintsWords() && Word(u) && 1 <= i.clusterId <= n && !i.registered
    ensures Leads(z, n, Opening(i, u), sys) && Solo(z, sys, n, i, u)
  {
    hide Next, Allowed, Leads, Inv, Only, NodeIs;
    var join, login := Join(i, 0, "", ""), Ask(PlaceOf(i), LoginReq(u));
    var sys1 := Next(z, Begin(n), join);
    NoStep(z, n);
    FirstJoin(z, n, i);
    OneMoreStep(z, n, [], Begin(n), join);
    FirstLogin(z, sys1, n, i, u);
    sys := Next(z, sys1, login);
    OneMoreStep(z, n, [] + [join], sys1, login);
    assert [] + [join] + [login] == Opening(i, u);
  }

  lemma {:induction false} FirstLogin(z: Zone, sys: System, n: nat, i: ServerInfo, u: string)
    requires z.PrintsWords() && Word(u) && Inv(z, sys) && i.clusterId >= 1 && |sys.coord.clusters| == n
    requires Only(sys.coord, {PlaceOf(i)}) && NodeIs(sys.coord, i, true, 0, 0)
    requires sys.servers == map[PlaceOf(i) := R.NEW_SERVER] && sys.believes == {PlaceOf(i)}
    ensures var login := Ask(PlaceOf(i), LoginReq(u));
            Allowed(z, sys, login) && Solo(z, Next(z, sys, login), n, i, u)
  {
    hide Next, Allowed, Inv, Serves, Only;
    SoloServes(z, sys, i);
    LoginReaches(z, sys, PlaceOf(i), u);
    assert [] + [u] == [u];
  }

  lemma SoloServes(z: Zone, sys: System, i: ServerInfo)
    requires Inv(z, sys) && i.clusterId >= 1 && Only(sys.coord, {PlaceOf(i)}) && NodeIs(sys.coord, i, true, 0, 0)
    ensures Serves(sys.coord, PlaceOf(i)) && Active(sys.coord, PlaceOf(i))
  {
    hide HasMaster, Serves, Safe, Replicated, Flagged, LocksTell;
    Mastered(sys.coord, PlaceOf(i));
    MasterServes(sys.coord, PlaceOf(i));
  }

  /** The only server was demoted at its second miss, and is still active. */
  ghost predicate Demoted(z: Zone, sys: System, n: nat, i: ServerInfo, u: string)
    requires i.clusterId >= 1
  {
    var p := PlaceOf(i);
    && Inv(z, sys) && Only(sys.coord, {p}) && |sys.coord.clusters| == n && NodeIs(sys.coord, i, false, 2, 0)
    && sys.servers.Keys == {p} && sys.believes == {p}
    && sys.servers[p].graph.db == [u] && sys.servers[p].posts == []
  }

  function SilenceSteps(i: ServerInfo, u: string): seq<Step>
    requires i.clusterId >= 1
  {
    Opening(i, u) + [Check(PlaceOf(i), 11)] + [Check(PlaceOf(i), 14)]
  }

  lemma {:induction false} DemotedRun(z: Zone, n: nat, i: ServerInfo, u: string) returns (sys: System)
    requires z.PrintsWords() && Word(u) && 1 <= i.clusterId <= n && !i.registered
    ensures Leads(z, n, SilenceSteps(i, u), sys) && Demoted(z, sys, n, i, u)
  {
    hide Next, Inv, Allowed, Leads;
    var p := PlaceOf(i);
    var sys0 := SoloRun(z, n, i, u);
    var sys1 := Next(z, sys0, Check(p, 11));
    LateCheck(z, sys0, i, true, 0, 0, 11);
    OthersStay(sys0.coord, sys1.coord, p, {p});
    OneMoreStep(z, n, Opening(i, u), sys0, Check(p, 11));
    sys := Next(z, sys1, Check(p, 14));
    LateCheck(z, sys1, i, true, 1, 0, 14);
    OthersStay(sys1.coord, sys.coord, p, {p});
    OneMoreStep(z, n, Opening(i, u) + [Check(p, 11)], sys1, Check(p, 14));
  }

  /** The demoted server at `p`, and one at `q` that started from empty files. */
  ghost predicate Strangers(sys: System, p: Place, q: Place, u: string)
  {
    && Active(sys.coord, p) && Active(sys.coord, q) && p != q && p in sys.servers && q in sys.servers
    && p in sys.believes && sys.servers[p].graph.db == [u] && sys.servers[p].posts == []
    && sys.servers[q] == R.NEW_SERVER
  }

  lemma {:induction false} StrangerJoins(z: Zone, sys: System, n: nat, i: ServerInfo, j: ServerInfo, u: string)
    requires z.PrintsWords() && i.clusterId >= 1 && 1 <= j.clusterId <= n && !j.registered
    requires PlaceOf(i) != PlaceOf(j) && Demoted(z, sys, n, i, u)
    ensures var sys', p, q := Next(z, sys, Join(j, 15, "", "")), PlaceOf(i), PlaceOf(j);
            && Agree(sys) && !SomeMaster(sys.coord) && !Agree(sys') && Strangers(sys', p, q, u)
            && sys'.servers[p] == sys.servers[p]
  {
    hide Next, Sound, R.StartFromFiles, Safe, LocksTell, Flagged;
    var sys', p, q := Next(z, sys, Join(j, 15, "", "")), PlaceOf(i), PlaceOf(j);
    EmptyFiles(z);
    var s := JoinEffect(z, sys, j, 15, "", "");
    OthersStay(sys.coord, sys'.coord, q, {p});
    assert Active(sys'.coord, p) && Active(sys'.coord, q) && !SameState(sys'.servers[p], sys'.servers[q]);
  }

  /** The master falls silent and is demoted, but is still active; a server that
      joins now, with empty files, finds no master and knows nobody. */
  lemma {:induction false} JoinLosesUsers(z: Zone, n: nat, i: ServerInfo, j: ServerInfo, u: string)
    requires z.PrintsWords() && Word(u) && 1 <= i.clusterId <= n && 1 <= j.clusterId <= n && PlaceOf(i) != PlaceOf(j)
    requires !i.registered && !j.registered
    ensures var p, q := PlaceOf(i), PlaceOf(j);
            var sys := Agreement.Run(z, Begin(n), SilenceSteps(i, u));
            var sys' := Next(z, sys, Join(j, 15, "", ""));
            && AllAllowed(z, Begin(n), SilenceSteps(i, u)) && Agree(sys) && !SomeMaster(sys.coord)
            && !Agree(sys') && Active(sys'.coord, p) && Active(sys'.coord, q)
            && p in sys'.servers && sys'.servers[p].graph.db == [u]
            && q in sys'.servers && sys'.servers[q].graph.db == []
  {
    hide Next, Demoted, Agree, SomeMaster, AllAllowed, Agreement.Run;
    var sys := DemotedRun(z, n, i, u);
    StrangerJoins(z, sys, n, i, j, u);
  }

  /** If both are in one cluster, a post said at the demoted server reaches the
      newcomer, which lacks the author: it stores the post, dies, and cannot start
      from its files again. */
  lemma {:induction false} PostPoisonsNewcomer(z: Zone, n: nat, i: ServerInfo, j: ServerInfo, u: string, post: Post)
    requires z.PrintsWords() && Word(u) && 1 <= i.clusterId == j.clusterId <= n && PlaceOf(i) != PlaceOf(j)
    requires !i.registered && !j.registered && post.username == u && post.data != "" && Survives(z, post)
    ensures var p, q := PlaceOf(i), PlaceOf(j);
            var sys := Agreement.Run(z, Begin(n), SilenceSteps(i, u) + [Join(j, 15, "", "")] + [Say(p, post)]);
            && AllAllowed(z, Begin(n), SilenceSteps(i, u)) && Active(sys.coord, q)
            && p in sys.servers && sys.servers[p].alive && sys.servers[p].posts == [post]
            && q in sys.servers && !sys.servers[q].alive && sys.servers[q].posts == [post]
            && R.StartFromFiles(z, sys.servers[q].userinfo, sys.servers[q].postlog).None?
  {
    hide Next, Demoted, Agree, SomeMaster, AllAllowed, Agreement.Run, Survives, R.StartFromFiles, Sound;
    var p, join, say := PlaceOf(i), Join(j, 15, "", ""), Say(PlaceOf(i), post);
    var sys := DemotedRun(z, n, i, u);
    StrangerJoins(z, sys, n, i, j, u);
    TwoMore(z, Begin(n), SilenceSteps(i, u), join, say);
    DemotedIsSound(z, sys, n, i, u);
    SayPoisons(z, Next(z, sys, join), p, PlaceOf(j), u, post);
  }

  lemma TwoMore(z: Zone, sys: System, steps: seq<Step>, a: Step, b: Step)
    ensures Agreement.Run(z, sys, steps + [a] + [b]) == Next(z, Next(z, Agreement.Run(z, sys, steps), a), b)
  {
    hide Next;
    assert (steps + [a])[..|steps|] == steps && (steps + [a] + [b])[..|steps| + 1] == steps + [a];
  }

  lemma DemotedIsSound(z: Zone, sys: System, n: nat, i: ServerInfo, u: string)
    requires i.clusterId >= 1 && Demoted(z, sys, n, i, u)
    ensures PlaceOf(i) in sys.servers && Sound(z, sys.servers[PlaceOf(i)])
  {
  }

  lemma {:induction false} SayPoisons(z: Zone, sys: System, p: Place, q: Place, u: string, post: Post)
    requires Strangers(sys, p, q, u) && Sound(z, sys.servers[p]) && p.cluster == q.cluster
    requires z.PrintsWords() && post.username == u && post.data != "" && Survives(z, post)
    ensures var sys' := Next(z, sys, Say(p, post));
            && Active(sys'.coord, q)
            && p in sys'.servers && sys'.servers[p].alive && sys'.servers[p].posts == [post]
            && q in sys'.servers && !sys'.servers[q].alive && sys'.servers[q].posts == [post]
            && R.StartFromFiles(z, sys'.servers[q].userinfo, sys'.servers[q].postlog).None?
  {
    hide Next, Survives, R.StartFromFiles, R.Step, Sound;
    KnownAuthor(z, sys.servers[p], post);
    SayEffect(z, sys, p, post);
    PoisonedFromTheStart(z, post);
  }

  lemma PoisonedFromTheStart(z: Zone, post: Post)
    requires z.PrintsWords() && Survives(z, post)
    ensures var s := R.Step(z, R.NEW_SERVER, R.AddPost(post));
            !s.alive && s.posts == [post] && R.StartFromFiles(z, s.userinfo, s.postlog).None?
  {
    hide R.StartFromFiles, Survives;
    assert R.Run(z, []) == R.NEW_SERVER && R.ReadableFollows(z, []);
    R.AddPostPoisonsIff(z, [], post);
    assert [] + [post] == [post];
  }

  // ---- failover ----

  predicate Newcomers(n: nat, i: ServerInfo, j: ServerInfo)
  {
    && 1 <= i.clusterId <= n && 1 <= j.clusterId <= n && PlaceOf(i) != PlaceOf(j) && AddressOf(i) != AddressOf(j)
    && !i.registered && !j.registered
  }

  /** Two servers of one cluster that know the user `u`. */
  ghost predicate Pair(z: Zone, sys: System, n: nat, i: ServerInfo, j: ServerInfo, u: string)
    requires Newcomers(n, i, j)
  {
    var p, q := PlaceOf(i), PlaceOf(j);
    && Inv(z, sys) && Only(sys.coord, {p, q}) && |sys.coord.clusters| == n && i.clusterId == j.clusterId
    && sys.servers.Keys == {p, q} && sys.servers[p].graph.db == [u] && sys.servers[q].graph.db == [u]
  }

  lemma {:induction false} PairForms(z: Zone, sys: System, n: nat, i: ServerInfo, j: ServerInfo, u: string)
    returns (sys': System)
    requires z.PrintsWords() && Newcomers(n, i, j) && i.clusterId == j.clusterId && Solo(z, sys, n, i, u)
    ensures Allowed(z, sys, Join(j, 5, "", "")) && sys' == Next(z, sys, Join(j, 5, "", ""))
    ensures Pair(z, sys', n, i, j, u) && NodeIs(sys'.coord, i, true, 0, 0) && NodeIs(sys'.coord, j, false, 0, 5)
    ensures sys'.believes == {PlaceOf(i)}
  {
    hide Next, Allowed, Inv, SomeMaster, HasMaster;
    var p := PlaceOf(i);
    Mastered(sys.coord, p);
    sys' := Next(z, sys, Join(j, 5, "", ""));
    JoinFollows(z, sys, j, 5, {p});
    OthersStay(sys.coord, sys'.coord, PlaceOf(j), {p});
    assert Active(sys.coord, p);
  }

  function TakeoverSteps(i: ServerInfo, j: ServerInfo): seq<Step>
    requires i.clusterId >= 1 && j.clusterId >= 1
  {
    [Check(PlaceOf(i), 11), Check(PlaceOf(i), 14), Step.Beat(j.(registered := true), 15)]
  }

  /** Two sweeps demote the silent master, and its slave's next heartbeat wins. */
  lemma {:induction false} SlaveTakesOver(z: Zone, n: nat, steps: seq<Step>, sys: System, i: ServerInfo, j: ServerInfo,
                                          u: string) returns (sys': System)
    requires Newcomers(n, i, j) && Leads(z, n, steps, sys) && Pair(z, sys, n, i, j, u)
    requires NodeIs(sys.coord, i, true, 0, 0) && NodeIs(sys.coord, j, false, 0, 5) && sys.believes == {PlaceOf(i)}
    ensures Leads(z, n, steps + TakeoverSteps(i, j), sys') && Pair(z, sys', n, i, j, u)
    ensures NodeIs(sys'.coord, i, false, 2, 0) && NodeIs(sys'.coord, j, true, 0, 15)
    ensures sys'.believes == {PlaceOf(i), PlaceOf(j)}
  {
    hide Next, Allowed, Inv, Leads, HasMaster;
    var p, q, beat := PlaceOf(i), PlaceOf(j), Step.Beat(j.(registered := true), 15);
    var sys1 := Next(z, sys, Check(p, 11));
    LateCheck(z, sys, i, true, 0, 0, 11);
    OthersStay(sys.coord, sys1.coord, p, {p, q});
    OneMoreStep(z, n, steps, sys, Check(p, 11));
    var sys2 := Next(z, sys1, Check(p, 14));
    LateCheck(z, sys1, i, true, 1, 0, 14);
    OthersStay(sys1.coord, sys2.coord, p, {p, q});
    OneMoreStep(z, n, steps + [Check(p, 11)], sys1, Check(p, 14));
    sys' := Next(z, sys2, beat);
    Masterless(sys2.coord, q.cluster);
    BeatWins(z, sys2, j.(registered := true), 0, 5, 15);
    OthersStay(sys2.coord, sys'.coord, q, {p, q});
    OneMoreStep(z, n, steps + [Check(p, 11)] + [Check(p, 14)], sys2, beat);
    assert steps + [Check(p, 11)] + [Check(p, 14)] + [beat] == steps + TakeoverSteps(i, j);
  }

  /** The third sweep gives the old master up. */
  lemma {:induction false} OldMasterGivenUp(z: Zone, sys: System, n: nat, i: ServerInfo, j: ServerInfo, u: string)
    returns (sys': System)
    requires Newcomers(n, i, j) && Pair(z, sys, n, i, j, u)
    requires NodeIs(sys.coord, i, false, 2, 0) && NodeIs(sys.coord, j, true, 0, 15)
    ensures sys' == Next(z, sys, Check(PlaceOf(i), 17)) && Allowed(z, sys, Check(PlaceOf(i), 17))
    ensures Pair(z, sys', n, i, j, u) && NodeIs(sys'.coord, i, false, 3, 0) && NodeIs(sys'.coord, j, true, 0, 15)
  {
    hide Next, Inv;
    var p, q := PlaceOf(i), PlaceOf(j);
    sys' := Next(z, sys, Check(p, 17));
    LateCheck(z, sys, i, false, 2, 0, 17);
    OthersStay(sys.coord, sys'.coord, p, {p, q});
  }

  /** Between the election of the new master and the third miss of the old one,
      every cluster has a master, but no request that reaches theirs ever ends: the
      two send it to and fro. */
  lemma {:induction false} RivalsRun(z: Zone, n: nat, i: ServerInfo, j: ServerInfo, u: string)
    requires z.PrintsWords() && Word(u) && Newcomers(n, i, j) && i.clusterId == j.clusterId
    ensures var p, q := PlaceOf(i), PlaceOf(j);
            var steps := Opening(i, u) + [Join(j, 5, "", "")] + TakeoverSteps(i, j);
            var sys := Agreement.Run(z, Begin(n), steps);
            var c := sys.coord;
            && AllAllowed(z, Begin(n), steps) && Serving(sys, p) && Serving(sys, q) && IsMaster(c, q)
            && (forall t | Active(c, t) :: HasMaster(c.clusters[t.cluster])) && !Calm(c, q)
            && (forall depth: nat, fromServer: bool ::
                  && Spread(c, sys.believes, depth, p, fromServer).None?
                  && Spread(c, sys.believes, depth, q, fromServer).None?)
  {
    hide Next, Allowed, Inv, AllAllowed, Agreement.Run, Solo, Pair, NodeIs;
    var sys0 := SoloRun(z, n, i, u);
    var sys1 := PairForms(z, sys0, n, i, j, u);
    OneMoreStep(z, n, Opening(i, u), sys0, Join(j, 5, "", ""));
    var sys := SlaveTakesOver(z, n, Opening(i, u) + [Join(j, 5, "", "")], sys1, i, j, u);
    PairLoops(z, sys, n, i, j, u);
  }

  lemma {:induction false} PairLoops(z: Zone, sys: System, n: nat, i: ServerInfo, j: ServerInfo, u: string)
    requires Newcomers(n, i, j) && Pair(z, sys, n, i, j, u) && sys.believes == {PlaceOf(i), PlaceOf(j)}
    requires NodeIs(sys.coord, i, false, 2, 0) && NodeIs(sys.coord, j, true, 0, 15)
    ensures var p, q, c := PlaceOf(i), PlaceOf(j), sys.coord;
            && Serving(sys, p) && Serving(sys, q) && IsMaster(c, q)
            && (forall t | Active(c, t) :: HasMaster(c.clusters[t.cluster])) && !Calm(c, q)
            && (forall depth: nat, fromServer: bool ::
                  && Spread(c, sys.believes, depth, p, fromServer).None?
                  && Spread(c, sys.believes, depth, q, fromServer).None?)
  {
    hide HasMaster, Safe, LocksTell, Replicated, Flagged, Calm, Spread;
    var p, q, c := PlaceOf(i), PlaceOf(j), sys.coord;
    Mastered(c, q);
    assert Active(c, p) && Active(c, q);
    ActiveIsServing(z, sys, p);
    ActiveIsServing(z, sys, q);
    assert Rivals(c, sys.believes, p, q);
    forall depth: nat, fromServer: bool
      ensures Spread(c, sys.believes, depth, p, fromServer).None? && Spread(c, sys.believes, depth, q, fromServer).None?
    {
      ContestedLoops(c, sys.believes, depth, p, fromServer);
      ContestedLoops(c, sys.believes, depth, q, fromServer);
    }
    CalmIff(c, sys.believes, q);
  }

  lemma NewMasterServes(z: Zone, sys: System, n: nat, i: ServerInfo, j: ServerInfo, u: string)
    requires Newcomers(n, i, j) && Pair(z, sys, n, i, j, u)
    requires NodeIs(sys.coord, i, false, 3, 0) && NodeIs(sys.coord, j, true, 0, 15)
    ensures Serves(sys.coord, PlaceOf(j))
    ensures Active(sys.coord, PlaceOf(j)) && !Active(sys.coord, PlaceOf(i))
  {
    hide HasMaster, Serves, Safe, LocksTell, Flagged, Replicated;
    var q := PlaceOf(j);
    Mastered(sys.coord, q);
    assert forall t | Active(sys.coord, t) :: t == q;
    MasterServes(sys.coord, q);
  }

  /** The new master knows one more user than the old one, which was given up. */
  ghost predicate Behind(z: Zone, sys: System, n: nat, i: ServerInfo, j: ServerInfo, u: string, v: string)
    requires Newcomers(n, i, j)
  {
    var p, q := PlaceOf(i), PlaceOf(j);
    && Inv(z, sys) && Only(sys.coord, {p, q}) && |sys.coord.clusters| == n && i.clusterId == j.clusterId
    && NodeIs(sys.coord, i, false, 3, 0) && NodeIs(sys.coord, j, true, 0, 15)
    && sys.servers.Keys == {p, q} && sys.servers[p].graph.db == [u] && sys.servers[q].graph.db == [u, v]
  }

  /** A user logs in at the new master; the server given up hears nothing of it. */
  lemma {:induction false} LoginAfterFailover(z: Zone, sys: System, n: nat, i: ServerInfo, j: ServerInfo,
                                              u: string, v: string)
    requires z.PrintsWords() && Word(v) && u != v && Newcomers(n, i, j) && Pair(z, sys, n, i, j, u)
    requires NodeIs(sys.coord, i, false, 3, 0) && NodeIs(sys.coord, j, true, 0, 15)
    ensures var login := Ask(PlaceOf(j), LoginReq(v));
            Allowed(z, sys, login) && Behind(z, Next(z, sys, login), n, i, j, u, v)
  {
    hide Next, Allowed, Inv, Serves, Active, Only, NodeIs;
    NewMasterServes(z, sys, n, i, j, u);
    assert v !in [u];
    LoginReaches(z, sys, PlaceOf(j), v);
    assert [u] + [v] == [u, v];
  }

  function FailoverSteps(i: ServerInfo, j: ServerInfo, k: ServerInfo, u: string, v: string): seq<Step>
    requires i.clusterId >= 1 && j.clusterId >= 1
  {
    Opening(i, u) + [Join(j, 5, "", "")] + TakeoverSteps(i, j) + [Check(PlaceOf(i), 17)]
    + [Ask(PlaceOf(j), LoginReq(v))] + [Join(k, 18, "", "")]
  }

  /** The master falls silent, is demoted and given up; its slave becomes master,
      a request follows, and a later joiner knows what the new master knows.  The
      old master does not, and if it just beats again agreement is lost. */
  lemma {:induction false} FailoverRun(z: Zone, n: nat, i: ServerInfo, j: ServerInfo, k: ServerInfo,
                                       u: string, v: string)
    requires z.PrintsWords() && Word(u) && Word(v) && u != v
    requires Newcomers(n, i, j) && Newcomers(n, i, k) && Newcomers(n, j, k) && i.clusterId == j.clusterId == k.clusterId
    ensures var p, q, r := PlaceOf(i), PlaceOf(j), PlaceOf(k);
            var steps := FailoverSteps(i, j, k, u, v);
            var sys := Agreement.Run(z, Begin(n), steps);
            && AllAllowed(z, Begin(n), steps)
            && !Active(sys.coord, p) && Active(sys.coord, q) && sys.coord.Node(q).master && Active(sys.coord, r)
            && sys.servers.Keys == {p, q, r} && sys.servers[p].graph.db == [u]
            && sys.servers[q].graph.db == [u, v] && sys.servers[r].graph.db == [u, v]
            && !Agree(Next(z, sys, Step.Beat(i.(registered := true), 18)))
  {
    hide Next, Allowed, Inv, AllAllowed, Agreement.Run, Solo, Pair, NodeIs, Behind;
    var p, q := PlaceOf(i), PlaceOf(j);
    var sys0 := SoloRun(z, n, i, u);
    var sys1 := PairForms(z, sys0, n, i, j, u);
    OneMoreStep(z, n, Opening(i, u), sys0, Join(j, 5, "", ""));
    var steps1 := Opening(i, u) + [Join(j, 5, "", "")];
    var sys2 := SlaveTakesOver(z, n, steps1, sys1, i, j, u);
    var given := OldMasterGivenUp(z, sys2, n, i, j, u);
    OneMoreStep(z, n, steps1 + TakeoverSteps(i, j), sys2, Check(p, 17));
    var steps2 := steps1 + TakeoverSteps(i, j) + [Check(p, 17)];
    var sys3 := Next(z, given, Ask(q, LoginReq(v)));
    LoginAfterFailover(z, given, n, i, j, u, v);
    OneMoreStep(z, n, steps2, given, Ask(q, LoginReq(v)));
    LateJoinerFollows(z, sys3, n, i, j, k, u, v);
    OneMoreStep(z, n, steps2 + [Ask(q, LoginReq(v))], sys3, Join(k, 18, "", ""));
  }

  lemma {:induction false} LateJoinerFollows(z: Zone, sys: System, n: nat, i: ServerInfo, j: ServerInfo, k: ServerInfo,
                                             u: string, v: string)
    requires z.PrintsWords() && Newcomers(n, i, j) && Newcomers(n, i, k) && Newcomers(n, j, k)
    requires Behind(z, sys, n, i, j, u, v) && j.clusterId == k.clusterId
    ensures var p, q, r := PlaceOf(i), PlaceOf(j), PlaceOf(k);
            var sys' := Next(z, sys, Join(k, 18, "", ""));
            && Allowed(z, sys, Join(k, 18, "", ""))
            && !Active(sys'.coord, p) && Active(sys'.coord, q) && sys'.coord.Node(q).master && Active(sys'.coord, r)
            && sys'.servers.Keys == {p, q, r} && sys'.servers[p].graph.db == [u]
            && sys'.servers[q].graph.db == [u, v] && sys'.servers[r].graph.db == [u, v]
            && !Agree(Next(z, sys', Step.Beat(i.(registered := true), 18)))
  {
    hide Next, Allowed, Inv, SomeMaster, HasMaster;
    var p, q, r := PlaceOf(i), PlaceOf(j), PlaceOf(k);
    var sys' := Next(z, sys, Join(k, 18, "", ""));
    Mastered(sys.coord, q);
    assert Active(sys.coord, q);
    JoinFollows(z, sys, k, 18, {p, q});
    OthersStay(sys.coord, sys'.coord, r, {p, q});
    ReturnDisagrees(z, sys', i, q);
  }

  lemma ReturnDisagrees(z: Zone, sys: System, i: ServerInfo, q: Place)
    requires Inv(z, sys) && InRange(sys.coord, i) && q != PlaceOf(i) && Active(sys.coord, q)
    requires q in sys.servers && PlaceOf(i) in sys.servers
    requires sys.servers[q].graph.db != sys.servers[PlaceOf(i)].graph.db
    ensures !Agree(Next(z, sys, Step.Beat(i.(registered := true), 18)))
  {
    hide Next, Inv;
    var back := i.(registered := true);
    BeatEffect(z, sys, back, 18);
    OthersStayActive(sys.coord, Next(z, sys, Step.Beat(back, 18)).coord, PlaceOf(i));
  }

  // ---- a post that does not arrive ----

  /** A master of each of two clusters, and a slave of the second. */
  ghost predicate TwoClusters(z: Zone, sys: System, n: nat, i: ServerInfo, j: ServerInfo, k: ServerInfo, u: string)
    requires i.clusterId >= 1 && j.clusterId >= 1 && k.clusterId >= 1
  {
    var p, q, r := PlaceOf(i), PlaceOf(j), PlaceOf(k);
    && Inv(z, sys) && Only(sys.coord, {p, q, r})
    && NodeIs(sys.coord, i, true, 0, 0) && NodeIs(sys.coord, j, true, 0, 1) && NodeIs(sys.coord, k, false, 0, 2)
    && sys.servers.Keys == {p, q, r} && sys.believes == {p, q}
    && (forall t | t in sys.servers :: sys.servers[t].graph.db == [u] && sys.servers[t].posts == [])
  }

  lemma {:induction false} SecondCluster(z: Zone, n: nat, steps: seq<Step>, sys: System, i: ServerInfo, j: ServerInfo,
                                         k: ServerInfo, u: string) returns (sys': System)
    requires z.PrintsWords() && Newcomers(n, i, j) && Newcomers(n, i, k) && Newcomers(n, j, k)
    requires i.clusterId != j.clusterId == k.clusterId && Leads(z, n, steps, sys) && Solo(z, sys, n, i, u)
    ensures Leads(z, n, steps + [Join(j, 1, "", "")] + [Join(k, 2, "", "")], sys')
    ensures TwoClusters(z, sys', n, i, j, k, u)
  {
    hide Next, Allowed, Inv, Leads, SomeMaster, HasMaster;
    var p, q, r := PlaceOf(i), PlaceOf(j), PlaceOf(k);
    var sys1 := Next(z, sys, Join(j, 1, "", ""));
    Mastered(sys.coord, p);
    assert Active(sys.coord, p);
    Masterless(sys.coord, q.cluster);
    JoinFollows(z, sys, j, 1, {p});
    OthersStay(sys.coord, sys1.coord, q, {p});
    OneMoreStep(z, n, steps, sys, Join(j, 1, "", ""));
    sys' := Next(z, sys1, Join(k, 2, "", ""));
    Mastered(sys1.coord, q);
    JoinFollows(z, sys1, k, 2, {p, q});
    OthersStay(sys1.coord, sys'.coord, r, {p, q});
    OneMoreStep(z, n, steps + [Join(j, 1, "", "")], sys1, Join(k, 2, "", ""));
    assert Active(sys'.coord, p);
  }

  /** A post said in one cluster reaches the master of another cluster, but not
      the active slave there. */
  lemma {:induction false} PostMissesSlave(z: Zone, n: nat, i: ServerInfo, j: ServerInfo, k: ServerInfo,
                                           u: string, post: Post)
    requires z.PrintsWords() && Word(u) && post.username == u && post.data != "" && Survives(z, post)
    requires Newcomers(n, i, j) && Newcomers(n, i, k) && Newcomers(n, j, k) && i.clusterId != j.clusterId == k.clusterId
    ensures var p, q, r := PlaceOf(i), PlaceOf(j), PlaceOf(k);
            var steps := Opening(i, u) + [Join(j, 1, "", "")] + [Join(k, 2, "", "")] + [Say(p, post)];
            var sys := Agreement.Run(z, Begin(n), steps);
            && AllAllowed(z, Begin(n), steps) && sys.servers.Keys == {p, q, r}
            && Active(sys.coord, r) && sys.servers[p].posts == [post] && sys.servers[q].posts == [post]
            && sys.servers[r].alive && sys.servers[r].posts == []
  {
    hide Next, Allowed, Inv, AllAllowed, Agreement.Run, TwoClusters, Solo, Survives;
    var sys0 := SoloRun(z, n, i, u);
    var sys1 := SecondCluster(z, n, Opening(i, u), sys0, i, j, k, u);
    SayMisses(z, sys1, n, i, j, k, u, post);
    OneMoreStep(z, n, Opening(i, u) + [Join(j, 1, "", "")] + [Join(k, 2, "", "")], sys1, Say(PlaceOf(i), post));
  }

  lemma {:induction false} SayMisses(z: Zone, sys: System, n: nat, i: ServerInfo, j: ServerInfo, k: ServerInfo,
                                     u: string, post: Post)
    requires post.username == u && post.data != "" && Survives(z, post)
    requires Newcomers(n, i, j) && Newcomers(n, i, k) && Newcomers(n, j, k) && i.clusterId != j.clusterId == k.clusterId
    requires TwoClusters(z, sys, n, i, j, k, u)
    ensures var p, q, r := PlaceOf(i), PlaceOf(j), PlaceOf(k);
            var sys' := Next(z, sys, Say(p, post));
            && Allowed(z, sys, Say(p, post)) && sys'.servers.Keys == {p, q, r}
            && Active(sys'.coord, r) && sys'.servers[p].posts == [post] && sys'.servers[q].posts == [post]
            && sys'.servers[r].alive && sys'.servers[r].posts == []
  {
    hide Next, Survives, Sound, R.Step, Safe, LocksTell, Flagged, PostGoesTo;
    var p, q, r := PlaceOf(i), PlaceOf(j), PlaceOf(k);
    PostRoutes(z, sys, n, i, j, k, u);
    KnownAuthor(z, sys.servers[p], post);
    KnownAuthor(z, sys.servers[q], post);
    KnownAuthor(z, sys.servers[r], post);
    SayEffect(z, sys, p, post);
  }

  lemma PostRoutes(z: Zone, sys: System, n: nat, i: ServerInfo, j: ServerInfo, k: ServerInfo, u: string)
    requires Newcomers(n, i, j) && Newcomers(n, i, k) && Newcomers(n, j, k) && i.clusterId != j.clusterId == k.clusterId
    requires TwoClusters(z, sys, n, i, j, k, u)
    ensures PostGoesTo(sys.coord, PlaceOf(i), PlaceOf(j)) && !PostGoesTo(sys.coord, PlaceOf(i), PlaceOf(k))
  {
    hide MasterOf, Safe, LocksTell, Flagged, Replicated;
    MastersAreActive(sys.coord, PlaceOf(j));
  }

  lemma KnownAuthor(z: Zone, s: R.Server, post: Post)
    requires Sound(z, s) && s.graph.db == [post.username] && s.posts == [] && post.data != ""
    ensures s.alive && post.username in s.graph.accounts
    ensures R.Step(z, s, R.Chat(post)).posts == [post] && R.Step(z, s, R.AddPost(post)).posts == [post]
    ensures R.Step(z, s, R.Chat(post)).alive && R.Step(z, s, R.AddPost(post)).alive
  {
    assert post.username in s.graph.db;
    assert [] + [post] == [post];
  }
}
