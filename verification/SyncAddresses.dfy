/** The sync address a joining server gets: the master lock file must hold the
    address of the server that is master now. */
module SyncAddresses {
  import opened Text
  import opened FlatFs
  import opened OrderedMaps
  import opened Registry
  import opened LockPaths
  import opened ElectionSafety

  function AddressOf(info: ServerInfo): string
  {
    info.hostname + ":" + info.port
  }

  /** The lock file of `q`'s cluster holds `q`'s address, if `q` is the master. */
  predicate Tells(c: Coord, q: Place)
  {
    c.Has(q) && c.Node(q).master ==>
      MasterLock(q.cluster + 1) in c.fs.tree
      && c.fs.tree[MasterLock(q.cluster + 1)] == File(c.Node(q).Address())
  }

  ghost predicate LocksTell(c: Coord)
  {
    forall q :: Tells(c, q)
  }

  /** Only the node at `p` differs, and of the master locks at most that of `p`'s cluster. */
  ghost predicate OnlyAt(c: Coord, c': Coord, p: Place)
  {
    && c'.Has(p)
    && |c'.clusters| == |c.clusters|
    && (forall q | q != p :: (c'.Has(q) <==> c.Has(q)) && (c.Has(q) ==> c'.Node(q) == c.Node(q)))
    && (forall i | i != p.cluster + 1 :: SameLock(c, c', i))
  }

  predicate SameLock(c: Coord, c': Coord, i: int)
  {
    && (MasterLock(i) in c'.fs.tree <==> MasterLock(i) in c.fs.tree)
    && (MasterLock(i) in c.fs.tree ==> c'.fs.tree[MasterLock(i)] == c.fs.tree[MasterLock(i)])
  }

  lemma PutIsOnlyAt(c: Coord, p: Place, z: ZNode, fs: Fs)
    requires p.cluster < |c.clusters|
    requires forall i | i != p.cluster + 1 :: SameLock(c, c.(fs := fs).Put(p, z), i)
    ensures OnlyAt(c, c.(fs := fs).Put(p, z), p)
  {
    var c' := c.(fs := fs).Put(p, z);
    forall q | q != p ensures (c'.Has(q) <==> c.Has(q)) && (c.Has(q) ==> c'.Node(q) == c.Node(q)) {
      assert q.cluster == p.cluster ==> q.server != p.server;
    }
  }

  // ---- what a heartbeat does ----

  predicate Admitted(c: Coord, info: ServerInfo)
  {
    InRange(c, info) && (c.Has(PlaceOf(info)) && !info.registered ==> !c.Node(PlaceOf(info)).IsActive())
  }

  lemma {:induction false} SameOtherMaster(cs: seq<Cluster>, cs': seq<Cluster>, skip: int, i: nat)
    requires i <= |cs| == |cs'| && forall j | 0 <= j < |cs| && j != skip :: cs[j] == cs'[j]
    ensures FirstOtherMaster(cs', skip, i) == FirstOtherMaster(cs, skip, i)
    decreases |cs| - i
  {
    hide MasterOf;
    if i < |cs| {
      SameOtherMaster(cs, cs', skip, i + 1);
    }
  }

  /** A heartbeat that is admitted changes its own node; only a candidate that
      finds no master lock changes one, and then writes its own address there. */
  lemma {:induction false} HeartbeatEffect(c: Coord, info: ServerInfo, now: int)
    requires Safe(c) && Admitted(c, info)
    ensures var (reply, c') := Heartbeat(c, info, now);
            var p, lock := PlaceOf(info), MasterLock(info.clusterId);
            && OnlyAt(c, c', p) && Safe(c')
            && c'.Node(p).missed == 0 && c'.Node(p).Address() == AddressOf(info)
            && reply.Registered? && reply.master == c'.Node(p).master
            && (if IsMaster(c, p) then c'.Node(p).master && SameLock(c, c', info.clusterId)
                else if lock in c.fs.tree then !c'.Node(p).master && SameLock(c, c', info.clusterId)
                     && reply.syncAddress == c.fs.tree[lock].data
                else c'.Node(p).master && lock in c'.fs.tree && c'.fs.tree[lock] == File(AddressOf(info))
                     && reply.syncAddress == SyncForMaster(c, info))
  {
    HeartbeatKeepsSafe(c, info, now);
    var p := PlaceOf(info);
    var z := (if c.Has(p) then c.Node(p) else NEW_NODE).Updated(info, now);
    var c1 := c.Put(p, z);
    var c' := Heartbeat(c, info, now).1;
    assert c1 == c.(fs := c.fs).Put(p, z);
    if IsMaster(c, p) {
      PutIsOnlyAt(c, p, z, c.fs);
    } else {
      CandidateEffect(c, c1, info, z);
    }
  }

  lemma CandidateEffect(c: Coord, c1: Coord, info: ServerInfo, z: ZNode)
    requires Safe(c) && InRange(c, info) && c1 == c.Put(PlaceOf(info), z) && !z.master && z.missed == 0
    requires z.Address() == AddressOf(info)
    ensures var (reply, c') := Elect(c1, info);
            var p, lock := PlaceOf(info), MasterLock(info.clusterId);
            && OnlyAt(c, c', p)
            && c'.Node(p).missed == 0 && c'.Node(p).Address() == AddressOf(info)
            && reply.Registered? && reply.master == c'.Node(p).master
            && (if lock in c.fs.tree then !c'.Node(p).master && SameLock(c, c', info.clusterId)
                     && reply.syncAddress == c.fs.tree[lock].data
                else c'.Node(p).master && lock in c'.fs.tree && c'.fs.tree[lock] == File(AddressOf(info))
                     && reply.syncAddress == SyncForMaster(c, info))
  {
    hide Elect, FilePath, MasterOf, FirstOtherMaster, MasterFilepath, SlaveFilepath, MasterLock, SlaveLock;
    var p, lock := PlaceOf(info), MasterLock(info.clusterId);
    ElectionOutcome(c1, info, z);
    var c' := Elect(c1, info).1;
    var z' := c'.Node(p);
    SameOtherMaster(c.clusters, c1.clusters, p.cluster, 0);
    PutTwice(c, p, z, z', c'.fs);
    assert c' == c.(fs := c'.fs).Put(p, z');
    forall i | i != p.cluster + 1 || lock in c.fs.tree ensures SameLock(c, c', i) {
      OtherLocksStay(c, c', info, z, i);
    }
    PutIsOnlyAt(c, p, z', c'.fs);
  }

  /** An election changes no other cluster's master lock, and not its own if it is
      taken. */
  lemma OtherLocksStay(c: Coord, c': Coord, info: ServerInfo, z: ZNode, i: int)
    requires var t, lock := c.fs.tree, MasterLock(info.clusterId);
             && (i != info.clusterId || lock in t)
             && c'.fs.tree == if lock in t then t[SlaveLock(info.clusterId, info.serverId) := File(z.Address())]
                              else t[lock.parent := Folder][lock := File(z.Address())]
    ensures SameLock(c, c', i)
  {
    hide MasterLock, SlaveLock;
    LocksDiffer(info.clusterId, info.serverId, i, 0);
    LocksDiffer(info.clusterId, 0, i, 0);
    NotAFolder(info.clusterId, i);
  }

  lemma NotAFolder(clusterId: int, i: int)
    ensures MasterLock(clusterId).Sub? && MasterLock(i) != MasterLock(clusterId).parent
  {
    assert MasterLock(i).parent.Sub? && !MasterLock(clusterId).parent.parent.Sub?;
  }

  /** Which reply a heartbeat gets, and what it says. */
  lemma {:induction false} HeartbeatReplies(c: Coord, info: ServerInfo, now: int)
    requires Safe(c)
    ensures var (reply, c') := Heartbeat(c, info, now);
            var known := InRange(c, info) && c.Has(PlaceOf(info));
            && (reply == InvalidCluster <==> info.clusterId < 1 || info.clusterId > |c.clusters|)
            && (reply == AlreadyExists <==> known && !info.registered && c.Node(PlaceOf(info)).missed <= 2)
            && (!reply.Registered? ==> c' == c && reply != Hung)
            && (reply.Registered? ==>
                  && InRange(c, info) && c'.Has(PlaceOf(info)) && reply.path == c'.Node(PlaceOf(info)).path
                  && c'.Node(PlaceOf(info)).lastHeartbeat == now && c'.Node(PlaceOf(info)).missed == 0
                  && (reply.master && (info.registered || (known && c.Node(PlaceOf(info)).master)) ==>
                        reply.syncAddress == ""))
  {
    hide Elect;
    var (a, c1) := Admit(c, info, now);
    if a == Candidate {
      ElectionSays(c, c1, info);
    }
  }

  lemma {:induction false} ElectionSays(c: Coord, c1: Coord, info: ServerInfo)
    requires Safe(c) && InRange(c, info) && c1.Has(PlaceOf(info)) && c1 == c.Put(PlaceOf(info), c1.Node(PlaceOf(info)))
    ensures var (reply, c') := Elect(c1, info);
            && reply.Registered? && c'.Has(PlaceOf(info)) && reply.path == c'.Node(PlaceOf(info)).path
            && c'.Node(PlaceOf(info)).lastHeartbeat == c1.Node(PlaceOf(info)).lastHeartbeat
            && c'.Node(PlaceOf(info)).missed == c1.Node(PlaceOf(info)).missed
            && (reply.master && info.registered ==> reply.syncAddress == "")
  {
    hide Elect, MasterFilepath, SlaveFilepath, MasterLock, SlaveLock, ClusterSafe, MasterOf, FirstOtherMaster;
    ElectionOutcome(c1, info, c1.Node(PlaceOf(info)));
  }

  /** The condition on a heartbeat that keeps the lock files true: a master does
      not move. */
  predicate StaysPut(c: Coord, info: ServerInfo)
  {
    InRange(c, info) && IsMaster(c, PlaceOf(info)) ==> c.Node(PlaceOf(info)).Address() == AddressOf(info)
  }

  lemma MastersAreActive(c: Coord, q: Place)
    requires Safe(c) && IsMaster(c, q)
    ensures c.Node(q).missed < 2 && MasterLock(q.cluster + 1) in c.fs.tree
    ensures MasterOf(c.clusters[q.cluster]) == Some(q.server)
  {
    assert NodeSafe(c.Node(q), q.cluster, q.server);
    assert ClusterSafe(c.clusters[q.cluster], q.cluster, Locked(c.fs.tree, q.cluster));
    var cluster := c.clusters[q.cluster];
    var k := MasterOf(cluster);
    assert HasMaster(cluster) && k.Some?;
    assert k.value in cluster && cluster[k.value].master && q.server in cluster && cluster[q.server].master;
    assert k.value == q.server;
  }

  /** An accepted heartbeat leaves the lock files true exactly if it does not move
      a master: the early return for a master does not rewrite its file. */
  lemma HeartbeatKeepsTellingIff(c: Coord, info: ServerInfo, now: int)
    requires Safe(c) && LocksTell(c) && Admitted(c, info)
    ensures LocksTell(Heartbeat(c, info, now).1) <==> StaysPut(c, info)
  {
    hide Heartbeat, MasterOf, MasterLock, IntStr;
    HeartbeatEffect(c, info, now);
    var p := PlaceOf(info);
    var c' := Heartbeat(c, info, now).1;
    assert Tells(c, p);
    forall q | q != p ensures Tells(c', q) {
      assert Tells(c, q);
      if IsMaster(c, q) && q.cluster == p.cluster {
        MastersAreActive(c, q);
        assert SameLock(c, c', info.clusterId);
      } else {
        assert SameLock(c, c', q.cluster + 1) || q.cluster == p.cluster;
      }
    }
    assert Tells(c', p) <==> StaysPut(c, info);
  }

  /** What the sweep of one server does. */
  lemma SweepEffect(c: Coord, p: Place, now: int)
    requires Safe(c) && c.Has(p)
    ensures var c' := SweepServer(c, p, now);
            && OnlyAt(c, c', p) && Safe(c')
            && c'.Node(p).missed >= c.Node(p).missed && c'.Node(p).Address() == c.Node(p).Address()
            && (c'.Node(p).master ==> c.Node(p).master)
            && (c'.Node(p).master || !c.Node(p).master ==> SameLock(c, c', p.cluster + 1))
  {
    hide Remove, MasterFilepath, SlaveFilepath;
    SweepServerKeepsSafe(c, p, now);
    var z, c' := c.Node(p), SweepServer(c, p, now);
    assert NodeSafe(z, p.cluster, p.server) by {
      assert ClusterSafe(c.clusters[p.cluster], p.cluster, Locked(c.fs.tree, p.cluster));
    }
    if now - z.lastHeartbeat > MAX_HEARTBEAT_DELAY && z.missed + 1 == 2 {
      SweepFreesOwnLock(c, p, z, p.cluster);
      forall i | i != p.cluster + 1 || !z.master ensures SameLock(c, c', i) {
        LocksDiffer(p.cluster + 1, p.server, i, 0);
        LocksDiffer(p.cluster + 1, 0, i, 0);
      }
      PutIsOnlyAt(c, p, c'.Node(p), c'.fs);
    } else {
      assert c' == c.(fs := c.fs).Put(p, c'.Node(p)) || c' == c;
      assert c == c.(fs := c.fs).Put(p, z) by {
        assert c.clusters[p.cluster][p.server := z] == c.clusters[p.cluster];
      }
      PutIsOnlyAt(c, p, c'.Node(p), c.fs);
    }
  }

  lemma SweepKeepsTelling(c: Coord, p: Place, now: int)
    requires Safe(c) && LocksTell(c) && c.Has(p)
    ensures LocksTell(SweepServer(c, p, now))
  {
    hide SweepServer, MasterLock, MasterOf, Safe;
    SweepEffect(c, p, now);
    var c' := SweepServer(c, p, now);
    forall q ensures Tells(c', q) {
      assert Tells(c, q);
      if IsMaster(c, q) && q != p && q.cluster == p.cluster {
        MastersAreActive(c, q);
        if IsMaster(c, p) {
          MastersAreActive(c, p);
        }
        assert SameLock(c, c', p.cluster + 1);
      } else {
        assert SameLock(c, c', q.cluster + 1) || q == p || q.cluster == p.cluster;
      }
    }
  }

  lemma {:induction false} SweepServersKeepsTelling(c: Coord, i: nat, ks: seq<int>, now: int)
    requires Safe(c) && LocksTell(c) && i < |c.clusters| && forall k | k in ks :: k in c.clusters[i]
    ensures LocksTell(SweepServers(c, i, ks, now))
    decreases |ks|
  {
    if ks != [] {
      SweepServerKeepsSafe(c, Place(i, ks[0]), now);
      SweepKeepsTelling(c, Place(i, ks[0]), now);
      assert forall k | k in ks[1..] :: k in ks;
      SweepServersKeepsTelling(SweepServer(c, Place(i, ks[0]), now), i, ks[1..], now);
    }
  }

  lemma {:induction false} SweepFromKeepsTelling(c: Coord, i: nat, now: int)
    requires Safe(c) && LocksTell(c) && i <= |c.clusters|
    ensures LocksTell(SweepFrom(c, i, now))
    decreases |c.clusters| - i
  {
    if i < |c.clusters| {
      var ks := Ascending(c.clusters[i].Keys);
      SweepServersKeepsSafe(c, i, ks, now);
      SweepServersKeepsTelling(c, i, ks, now);
      SweepFromKeepsTelling(SweepServers(c, i, ks, now), i + 1, now);
    }
  }

  // ---- joining ----

  /** Where a new server at `p` gets its data: the master of its cluster, or the
      first master of another cluster. */
  function SyncSource(c: Coord, p: Place): Option<Place>
    requires p.cluster < |c.clusters|
  {
    var own := MasterOf(c.clusters[p.cluster]);
    if own.Some? then Some(Place(p.cluster, own.value)) else FirstOtherMaster(c.clusters, p.cluster, 0)
  }

  lemma SourceIsAMaster(c: Coord, p: Place)
    requires Safe(c) && LocksTell(c) && p.cluster < |c.clusters| && !IsMaster(c, p)
    ensures match SyncSource(c, p)
            case None => forall q | c.Has(q) :: !c.Node(q).master
            case Some(m) =>
              && m != p && IsMaster(c, m) && c.Node(m).Address() != ""
              && (m.cluster == p.cluster <==> Locked(c.fs.tree, p.cluster))
              && (m.cluster == p.cluster ==>
                    c.fs.tree[MasterLock(p.cluster + 1)] == File(c.Node(m).Address()))
  {
    var cluster := c.clusters[p.cluster];
    assert ClusterSafe(cluster, p.cluster, Locked(c.fs.tree, p.cluster));
    assert HasMaster(cluster) <==> Locked(c.fs.tree, p.cluster);
    match SyncSource(c, p) {
      case None =>
        forall q | c.Has(q) ensures !c.Node(q).master {
          assert MasterOf(c.clusters[q.cluster]).None?;
        }
      case Some(m) =>
        assert c.clusters[m.cluster][m.server].master;
        assert Tells(c, m);
        assert c.Node(m).Address()[|c.Node(m).hostname|] == ':';
    }
  }

  lemma LockedHasSource(c: Coord, p: Place)
    requires Safe(c) && p.cluster < |c.clusters| && Locked(c.fs.tree, p.cluster)
    ensures SyncSource(c, p).Some?
  {
    assert ClusterSafe(c.clusters[p.cluster], p.cluster, Locked(c.fs.tree, p.cluster));
    assert HasMaster(c.clusters[p.cluster]);
  }

  /** The sync address of a joining server is the present address of its source,
      and empty exactly if there is no master anywhere. */
  lemma {:induction false} JoinSync(c: Coord, info: ServerInfo, now: int)
    requires Safe(c) && LocksTell(c) && Admitted(c, info) && !info.registered
    ensures var reply := Heartbeat(c, info, now).0;
            && reply.Registered?
            && match SyncSource(c, PlaceOf(info))
               case None => reply.syncAddress == "" && forall q | c.Has(q) :: !c.Node(q).master
               case Some(m) => m != PlaceOf(info) && IsMaster(c, m)
                               && reply.syncAddress == c.Node(m).Address() && reply.syncAddress != ""
  {
    hide Heartbeat, MasterOf, FirstOtherMaster, Tells, ClusterSafe, OnlyAt, SameLock;
    HeartbeatEffect(c, info, now);
    var p := PlaceOf(info);
    if IsMaster(c, p) {
      MastersAreActive(c, p);
    }
    SourceIsAMaster(c, p);
    if Locked(c.fs.tree, p.cluster) {
      LockedHasSource(c, p);
    }
  }

  /** Over whole runs in which no master moves. */
  ghost predicate MastersStay(n: nat, events: seq<Event>)
  {
    forall i | 0 <= i < |events| && events[i].Beat? ::
      Admitted(Run(Start(n), events[..i]), events[i].info) ==> StaysPut(Run(Start(n), events[..i]), events[i].info)
  }

  lemma RefusedChangesNothing(c: Coord, info: ServerInfo, now: int)
    requires !Admitted(c, info)
    ensures Heartbeat(c, info, now).1 == c && !Heartbeat(c, info, now).0.Registered?
  {
  }

  lemma NothingToTell(n: nat)
    ensures LocksTell(Start(n))
  {
  }

  lemma {:induction false} RunTells(n: nat, events: seq<Event>)
    requires MastersStay(n, events)
    ensures LocksTell(Run(Start(n), events))
    decreases |events|
  {
    hide Heartbeat, SweepServer, GetUniqueClientID, GetServer, LocksTell, StaysPut;
    if events == [] {
      assert LocksTell(Start(n)) by {
        NothingToTell(n);
      }
    } else {
      var k := |events| - 1;
      var before := events[..k];
      forall i | 0 <= i < k ensures before[..i] == events[..i] && before[i] == events[i] {
      }
      assert events == before + [events[k]];
      RunTells(n, before);
      RunIsSafe(n, before);
      var c := Run(Start(n), before);
      match events[k] {
        case Beat(info, now) =>
          if Admitted(c, info) {
            HeartbeatKeepsTellingIff(c, info, now);
          } else {
            RefusedChangesNothing(c, info, now);
          }
        case SweepOne(p, now) => if c.Has(p) { SweepKeepsTelling(c, p, now); }
        case SweepAll(now) => SweepFromKeepsTelling(c, 0, now);
        case NewClient => ClientsKeepTelling(c, NewClient);
        case AskServer(id) => ClientsKeepTelling(c, AskServer(id));
      }
    }
  }

  lemma ClientsKeepTelling(c: Coord, e: Event)
    requires LocksTell(c) && (e.NewClient? || e.AskServer?)
    ensures LocksTell(Apply(c, e))
  {
    forall q ensures Tells(Apply(c, e), q) {
      assert Tells(c, q);
    }
  }

  /** In every run in which no master moves, every joining server is sent to the
      present address of a live master, unless there is none. */
  lemma JoinersFindAMaster(n: nat, events: seq<Event>, info: ServerInfo, now: int)
    requires MastersStay(n, events)
    requires Admitted(Run(Start(n), events), info) && !info.registered
    ensures var c := Run(Start(n), events);
            var reply := Heartbeat(c, info, now).0;
            && reply.Registered?
            && (reply.syncAddress == "" <==> forall q | c.Has(q) :: !c.Node(q).master)
            && (reply.syncAddress != "" ==>
                  exists m :: m != PlaceOf(info) && IsMaster(c, m) && c.Node(m).Address() == reply.syncAddress)
  {
    RunIsSafe(n, events);
    RunTells(n, events);
    JoinSync(Run(Start(n), events), info, now);
  }

  /** A master that reports a new address: its lock file keeps the old one, and
      the next server to join its cluster is sent there. */
  lemma {:induction false} MovedMasterMisleads(n: nat, i: ServerInfo, moved: ServerInfo, j: ServerInfo)
    requires 1 <= i.clusterId == moved.clusterId == j.clusterId <= n && i.serverId == moved.serverId != j.serverId
    requires !i.registered && moved.registered && !j.registered && AddressOf(i) != AddressOf(moved)
    ensures var events, p := [Beat(i, 0), Beat(moved, 5)], PlaceOf(i);
            var c := Run(Start(n), events);
            && c.Has(p) && c.Node(p).master && c.Node(p).Address() == AddressOf(moved)
            && !LocksTell(c)
            && Heartbeat(c, j, 6).0.Registered? && Heartbeat(c, j, 6).0.syncAddress == AddressOf(i)
  {
    hide Heartbeat, MasterOf, IntStr;
    var events, p, lock := [Beat(i, 0), Beat(moved, 5)], PlaceOf(i), MasterLock(i.clusterId);
    var c1 := Heartbeat(Start(n), i, 0).1;
    var c2 := Heartbeat(c1, moved, 5).1;
    TwoEvents(Start(n), events[0], events[1]);
    StartIsSafe(n);
    HeartbeatEffect(Start(n), i, 0);
    HeartbeatEffect(c1, moved, 5);
    assert c2.Node(p).master && c2.fs.tree[lock] == File(AddressOf(i));
    assert !Tells(c2, p);
    assert c2.Has(PlaceOf(j)) <==> Start(n).Has(PlaceOf(j));
    HeartbeatEffect(c2, j, 6);
  }

  lemma TwoEvents(c: Coord, a: Event, b: Event)
    ensures Run(c, [a, b]) == Apply(Apply(c, a), b)
  {
    hide Apply;
    assert [a, b][..1] == [a] && [a][..0] == [];
    assert Run(c, [a]) == Apply(Run(c, []), a);
  }
}
