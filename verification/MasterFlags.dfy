/** The servers' own `master` flags, which they copy from the replies to their
    heartbeats, against the coordinator's nodes, over whole runs. */
module MasterFlags {
  import opened Registry
  import opened ElectionSafety
  import opened SyncAddresses
  import opened FailoverTiming
  import opened Broadcast

  /** An active server at the path of its cluster's master lock: the master, or a
      master that was demoted and has not been given up yet. */
  predicate HoldsTitle(c: Coord, q: Place)
  {
    Active(c, q) && c.Node(q).path == MasterFilepath(q.cluster + 1)
  }

  /** Demoted at its second miss, and still active. */
  predicate Stale(c: Coord, q: Place)
  {
    HoldsTitle(c, q) && c.Node(q).missed == 2
  }

  /** An active server believes it is master exactly if it holds the title. */
  ghost predicate Flagged(c: Coord, believes: set<Place>)
  {
    forall q | Active(c, q) :: q in believes <==> HoldsTitle(c, q)
  }

  function Believe(believes: set<Place>, q: Place, master: bool): set<Place>
  {
    if master then believes + {q} else believes - {q}
  }

  /** A server takes its flag from the reply, if it is accepted. */
  function AfterReply(believes: set<Place>, info: ServerInfo, reply: HeartbeatReply): set<Place>
  {
    if reply.Registered? && info.clusterId >= 1 then Believe(believes, PlaceOf(info), reply.master) else believes
  }

  // ---- every step keeps the flags right ----

  lemma TitleIsMastership(c: Coord, q: Place)
    requires Safe(c) && c.Has(q)
    ensures c.Node(q).master <==> c.Node(q).path == MasterFilepath(q.cluster + 1) && c.Node(q).missed < 2
  {
    assert ClusterSafe(c.clusters[q.cluster], q.cluster, Locked(c.fs.tree, q.cluster));
    assert NodeSafe(c.Node(q), q.cluster, q.server);
  }

  lemma {:induction false} HeartbeatFlags(c: Coord, believes: set<Place>, info: ServerInfo, now: int)
    requires Safe(c) && Flagged(c, believes)
    ensures var (reply, c') := Heartbeat(c, info, now);
            Flagged(c', AfterReply(believes, info, reply))
  {
    hide Heartbeat, MasterFilepath, MasterOf, Safe, SameLock;
    if Admitted(c, info) {
      HeartbeatEffect(c, info, now);
      TitleIsMastership(Heartbeat(c, info, now).1, PlaceOf(info));
    } else {
      RefusedChangesNothing(c, info, now);
    }
  }

  lemma SweepFlags(c: Coord, believes: set<Place>, p: Place, now: int)
    requires Flagged(c, believes) && c.Has(p)
    ensures Flagged(SweepServer(c, p, now), believes)
  {
    hide FlatFs.Remove, MasterFilepath;
    var c' := SweepServer(c, p, now);
    forall q | Active(c', q) ensures Active(c, q) && c'.Node(q).path == c.Node(q).path {
      assert q.cluster == p.cluster && q.server != p.server ==> c'.Node(q) == c.Node(q);
    }
  }

  lemma PassFlags(c: Coord, believes: set<Place>, now: int)
    requires Flagged(c, believes)
    ensures Flagged(Sweep(c, now), believes)
  {
    hide Sweep, MasterFilepath;
    forall q | Active(Sweep(c, now), q) ensures q in believes <==> HoldsTitle(Sweep(c, now), q) {
      SweepVisitsEachOnce(c, now, q);
    }
  }

  /** The flags after a run of the coordinator, all servers believing its replies. */
  function FlagsAfter(n: nat, events: seq<Event>): set<Place>
  {
    if events == [] then {}
    else
      var front := events[..|events| - 1];
      match events[|events| - 1]
      case Beat(info, now) => AfterReply(FlagsAfter(n, front), info, Heartbeat(Run(Start(n), front), info, now).0)
      case _ => FlagsAfter(n, front)
  }

  lemma {:induction false} RunIsFlagged(n: nat, events: seq<Event>)
    ensures Flagged(Run(Start(n), events), FlagsAfter(n, events))
    decreases |events|
  {
    hide Heartbeat, SweepServer, Sweep, AfterReply, Flagged;
    if events == [] {
      NobodyIsFlagged(n);
    } else {
      var front := events[..|events| - 1];
      RunIsFlagged(n, front);
      RunIsSafe(n, front);
      var c, believes := Run(Start(n), front), FlagsAfter(n, front);
      match events[|events| - 1] {
        case Beat(info, now) => HeartbeatFlags(c, believes, info, now);
        case SweepOne(p, now) => if c.Has(p) { SweepFlags(c, believes, p, now); }
        case SweepAll(now) => PassFlags(c, believes, now);
        case NewClient => SameNodes(c, Apply(c, NewClient), believes);
        case AskServer(id) => SameNodes(c, Apply(c, AskServer(id)), believes);
      }
    }
  }

  lemma NobodyIsFlagged(n: nat)
    ensures Flagged(Start(n), {})
  {
  }

  lemma SameNodes(c: Coord, c': Coord, believes: set<Place>)
    requires Flagged(c, believes) && c'.clusters == c.clusters
    ensures Flagged(c', believes)
  {
    assert forall q :: (Active(c', q) <==> Active(c, q)) && (HoldsTitle(c', q) <==> HoldsTitle(c, q));
  }

  // ---- what the flags mean for broadcasts ----

  /** The active servers and the coordinator agree about who is master. */
  ghost predicate Agreed(c: Coord, believes: set<Place>)
  {
    Titled(c, believes) && forall q | Active(c, q) :: q in believes <==> c.Node(q).master
  }

  lemma FlagsAreTitles(c: Coord, believes: set<Place>)
    requires Safe(c) && Flagged(c, believes)
    ensures Titled(c, believes)
  {
    hide MasterFilepath, Safe, OneMaster, MasterOf;
    forall m | IsMaster(c, m) ensures Active(c, m) && m in believes {
      TitleIsMastership(c, m);
      MastersAreActive(c, m);
    }
    forall i | 0 <= i < |c.clusters| ensures OneMaster(c.clusters[i]) {
      OneAtMost(c, i);
    }
  }

  lemma OneAtMost(c: Coord, i: nat)
    requires Safe(c) && i < |c.clusters|
    ensures OneMaster(c.clusters[i])
  {
    assert ClusterSafe(c.clusters[i], i, Locked(c.fs.tree, i));
  }

  lemma {:induction false} FlagsAgreeIff(c: Coord, believes: set<Place>)
    requires Safe(c) && Flagged(c, believes)
    ensures Agreed(c, believes) <==> forall q :: !Stale(c, q)
  {
    hide Safe, MasterFilepath, Titled;
    FlagsAreTitles(c, believes);
    forall q | Active(c, q) ensures (q in believes <==> c.Node(q).master) <==> !Stale(c, q) {
      TitleIsMastership(c, q);
    }
  }

  /** In every reachable state servers and coordinator agree exactly if no master
      was demoted that has not been given up yet. */
  lemma {:induction false} ReachableAgreesIff(n: nat, events: seq<Event>)
    ensures var c := Run(Start(n), events);
            Agreed(c, FlagsAfter(n, events)) <==> forall q :: !Stale(c, q)
  {
    RunIsSafe(n, events);
    RunIsFlagged(n, events);
    FlagsAgreeIff(Run(Start(n), events), FlagsAfter(n, events));
  }

  /** Two active servers of cluster `i` hold its title. */
  ghost predicate TwoTitles(c: Coord, i: nat)
  {
    exists q, r :: q != r && HoldsTitle(c, q) && HoldsTitle(c, r) && q.cluster == i && r.cluster == i
  }

  /** No cluster that would forward a client's request at `p` has two titles. */
  ghost predicate Calm(c: Coord, p: Place)
    requires c.Has(p)
  {
    HoldsTitle(c, p) ==>
      !TwoTitles(c, p.cluster) && forall m | m in OtherMasters(c, p) :: !TwoTitles(c, m.cluster)
  }

  lemma ContestedIff(c: Coord, believes: set<Place>, i: nat)
    requires Flagged(c, believes)
    ensures Contested(c, believes, i) <==> TwoTitles(c, i)
  {
    hide HoldsTitle;
    if TwoTitles(c, i) {
      var q, r :| q != r && HoldsTitle(c, q) && HoldsTitle(c, r) && q.cluster == i && r.cluster == i;
      TitlesAreActive(c, q);
      TitlesAreActive(c, r);
      assert Rivals(c, believes, q, r);
    }
    if Contested(c, believes, i) {
      var q, r :| Rivals(c, believes, q, r) && q.cluster == i;
      assert HoldsTitle(c, q) && HoldsTitle(c, r);
    }
  }

  lemma TitlesAreActive(c: Coord, q: Place)
    requires HoldsTitle(c, q)
    ensures Active(c, q)
  {
  }

  /** Whether the calls of a request end is for the coordinator's nodes to say. */
  lemma {:induction false} CalmIff(c: Coord, believes: set<Place>, p: Place)
    requires Safe(c) && Flagged(c, believes) && Active(c, p)
    ensures Uncontested(c, believes, p) <==> Calm(c, p)
  {
    hide HoldsTitle, Contested, TwoTitles, OtherMasters, Titled, Safe;
    FlagsAreTitles(c, believes);
    ContestedIff(c, believes, p.cluster);
    OthersBelieve(c, believes, p);
    forall m | m in OtherMasters(c, p) ensures Contested(c, believes, m.cluster) <==> TwoTitles(c, m.cluster) {
      ContestedIff(c, believes, m.cluster);
    }
  }

  lemma OthersBelieve(c: Coord, believes: set<Place>, p: Place)
    requires Titled(c, believes)
    ensures forall m | m in OtherMasters(c, p) :: m in believes
  {
    hide MasterOf, IsMaster;
    OtherMastersAre(c, p.cluster);
    forall m | m in OtherMasters(c, p) ensures m in believes {
      FoundIsMaster(c, m);
    }
  }

  /** In every reachable state a client's request at an active server comes to an
      end exactly if no cluster that would forward it has two title holders. */
  lemma {:induction false} ReachableBroadcastEndsIff(n: nat, events: seq<Event>, p: Place)
    requires Active(Run(Start(n), events), p)
    ensures var c, believes := Run(Start(n), events), FlagsAfter(n, events);
            (exists depth: nat :: Spread(c, believes, depth, p, false).Some?) <==> Calm(c, p)
  {
    RunIsSafe(n, events);
    RunIsFlagged(n, events);
    CalmIff(Run(Start(n), events), FlagsAfter(n, events), p);
    BroadcastEndsIff(Run(Start(n), events), FlagsAfter(n, events), p);
  }
}
