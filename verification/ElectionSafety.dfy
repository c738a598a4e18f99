/** Mutual exclusion of masters over every run of the coordinator whose handlers
    are atomic. */
module ElectionSafety {
  import opened FlatFs
  import opened OrderedMaps
  import opened Registry
  import opened LockPaths

  ghost predicate OneMaster(cluster: Cluster)
  {
    forall k, k' | k in cluster && k' in cluster && cluster[k].master && cluster[k'].master :: k == k'
  }

  ghost predicate HasMaster(cluster: Cluster)
  {
    exists k :: k in cluster && cluster[k].master
  }

  /** A server holds the master path with fewer than two misses exactly while it
      is master; otherwise it holds its own slave path, or lost its lock. */
  ghost predicate NodeSafe(z: ZNode, i: nat, k: int)
  {
    && z.clusterId == i + 1 && z.serverId == k
    && (z.path == MasterFilepath(i + 1) || z.path == SlaveFilepath(i + 1, k))
    && (z.master <==> z.path == MasterFilepath(i + 1) && z.missed < 2)
  }

  ghost predicate ClusterSafe(cluster: Cluster, i: nat, locked: bool)
  {
    && (forall k | k in cluster :: NodeSafe(cluster[k], i, k))
    && OneMaster(cluster)
    && (HasMaster(cluster) <==> locked)
  }

  predicate Locked(t: Tree, i: nat)
  {
    MasterLock(i + 1) in t
  }

  ghost predicate Safe(c: Coord)
  {
    && Shape(c.fs.tree) && c.fs.coarse && !c.fs.held
    && forall i: nat | i < |c.clusters| :: ClusterSafe(c.clusters[i], i, Locked(c.fs.tree, i))
  }

  lemma StartIsSafe(n: nat)
    ensures Safe(Start(n))
  {
    forall i: nat | i < n
      ensures ClusterSafe(Start(n).clusters[i], i, Locked(EMPTY_TREE, i))
    {
      assert !HasMaster(Start(n).clusters[i]);
    }
  }

  // ---- one server changes in one cluster ----

  lemma SameMastership(cluster: Cluster, k: int, z: ZNode)
    requires z.master == (k in cluster && cluster[k].master)
    ensures OneMaster(cluster) ==> OneMaster(cluster[k := z])
    ensures HasMaster(cluster[k := z]) <==> HasMaster(cluster)
  {
    if k' :| k' in cluster && cluster[k'].master {
      assert k' in cluster[k := z] && cluster[k := z][k'].master;
    }
  }

  lemma NewMaster(cluster: Cluster, k: int, z: ZNode)
    requires !HasMaster(cluster) && z.master
    ensures OneMaster(cluster[k := z]) && HasMaster(cluster[k := z])
  {
    assert k in cluster[k := z] && cluster[k := z][k].master;
  }

  lemma MasterGone(cluster: Cluster, k: int, z: ZNode)
    requires OneMaster(cluster) && k in cluster && cluster[k].master && !z.master
    ensures OneMaster(cluster[k := z]) && !HasMaster(cluster[k := z])
  {
  }

  /** Safety of a state that differs from a safe one at one place and in one
      cluster's folder. */
  lemma PutIsSafe(c: Coord, p: Place, z: ZNode, fs: Fs)
    requires Safe(c) && p.cluster < |c.clusters|
    requires Shape(fs.tree) && fs.coarse && !fs.held
    requires forall q | !InCluster(q, p.cluster + 1) :: q in c.fs.tree <==> q in fs.tree
    requires NodeSafe(z, p.cluster, p.server)
    requires OneMaster(c.clusters[p.cluster][p.server := z])
    requires HasMaster(c.clusters[p.cluster][p.server := z]) <==> Locked(fs.tree, p.cluster)
    ensures Safe(c.(fs := fs).Put(p, z))
  {
    var c' := c.(fs := fs).Put(p, z);
    forall j: nat | j < |c.clusters|
      ensures ClusterSafe(c'.clusters[j], j, Locked(fs.tree, j))
    {
      assert ClusterSafe(c.clusters[j], j, Locked(c.fs.tree, j));
      if j != p.cluster {
        OtherCluster(j + 1, p.cluster + 1);
      }
    }
  }

  // ---- Heartbeat ----

  /** What the election does in a safe state: no call hangs, `create` cannot
      fail, and exactly the lock files named here change. */
  lemma {:induction false} ElectionOutcome(c: Coord, info: ServerInfo, z: ZNode)
    requires InRange(c, info) && Shape(c.fs.tree) && c.fs.coarse && !c.fs.held
    requires c.Has(PlaceOf(info)) && c.Node(PlaceOf(info)) == z
    ensures var (reply, c') := Elect(c, info);
            var lock, slave := MasterLock(info.clusterId), SlaveLock(info.clusterId, info.serverId);
            if lock in c.fs.tree then
              && reply == Registered(SlaveFilepath(info.clusterId, info.serverId), false, c.fs.tree[lock].data)
              && c' == c.(fs := c.fs.(tree := c.fs.tree[slave := File(z.Address())]))
                        .Put(PlaceOf(info), z.(path := SlaveFilepath(info.clusterId, info.serverId)))
              && Shape(c'.fs.tree)
            else
              && reply == Registered(MasterFilepath(info.clusterId), true, SyncForMaster(c, info))
              && c' == c.(fs := c.fs.(tree := c.fs.tree[lock.parent := Folder][lock := File(z.Address())]))
                        .Put(PlaceOf(info), z.(path := MasterFilepath(info.clusterId), master := true))
              && Shape(c'.fs.tree)
  {
    hide MasterFilepath, SlaveFilepath, FilePath, SyncForMaster, MasterLock, SlaveLock, WriteAt, CreateAt;
    var t := c.fs.tree;
    var lock, slave := MasterLock(info.clusterId), SlaveLock(info.clusterId, info.serverId);
    LocksAreLocks(info.clusterId, info.serverId);
    MasterPath(info.clusterId);
    SlavePath(info.clusterId, info.serverId);
    LocksDiffer(info.clusterId, info.serverId, info.clusterId, 0);
    if lock in t {
      WriteLock(t, slave, z.Address());
      var t' := t[slave := File(z.Address())];
      assert t'[lock] == t[lock] && t[lock].File?;
      assert t[lock].data[0..] == t[lock].data;
    } else {
      CreateLock(t, lock);
      var t' := t[lock.parent := Folder][lock := File("")];
      WriteLock(t', lock, z.Address());
      assert t'[lock := File(z.Address())] == t[lock.parent := Folder][lock := File(z.Address())];
    }
  }

  lemma LocksAreLocks(clusterId: int, serverId: int)
    ensures IsLock(MasterLock(clusterId)) && IsLock(SlaveLock(clusterId, serverId))
    ensures SlaveLock(clusterId, serverId).parent == MasterLock(clusterId).parent
  {
  }

  lemma {:induction false} ElectKeepsSafe(c: Coord, info: ServerInfo, z: ZNode)
    requires Safe(c) && InRange(c, info) && !z.master && z.missed == 0
    requires z.clusterId == info.clusterId && z.serverId == info.serverId
    requires c.Has(PlaceOf(info)) ==> !c.Node(PlaceOf(info)).master
    ensures Safe(Elect(c.Put(PlaceOf(info), z), info).1)
  {
    var p := PlaceOf(info);
    var i, k, cluster := p.cluster, p.server, c.clusters[p.cluster];
    var c1 := c.Put(p, z);
    var c2 := Elect(c1, info).1;
    ElectionOutcome(c1, info, z);
    assert ClusterSafe(cluster, i, Locked(c.fs.tree, i));
    LocksDiffer(i + 1, k, i + 1, 0);
    var z' := c2.Node(p);
    if Locked(c.fs.tree, i) {
      SameMastership(cluster, k, z');
    } else {
      NewMaster(cluster, k, z');
    }
    PutIsSafe(c, p, z', c2.fs);
    PutTwice(c, p, z, z', c2.fs);
  }

  lemma PutTwice(c: Coord, p: Place, z: ZNode, z': ZNode, fs: Fs)
    requires p.cluster < |c.clusters|
    ensures c.Put(p, z).(fs := fs).Put(p, z') == c.(fs := fs).Put(p, z')
  {
    var cluster := c.clusters[p.cluster];
    assert cluster[p.server := z][p.server := z'] == cluster[p.server := z'];
  }

  lemma HeartbeatKeepsSafe(c: Coord, info: ServerInfo, now: int)
    requires Safe(c)
    ensures Safe(Heartbeat(c, info, now).1)
  {
    var (a, c') := Admit(c, info, now);
    match a {
      case NoSuchCluster =>
      case Duplicate =>
      case StillMaster =>
        var p := PlaceOf(info);
        var z := c'.Node(p);
        assert ClusterSafe(c.clusters[p.cluster], p.cluster, Locked(c.fs.tree, p.cluster));
        assert NodeSafe(c.Node(p), p.cluster, p.server);
        SameMastership(c.clusters[p.cluster], p.server, z);
        PutIsSafe(c, p, z, c.fs);
        assert c.(fs := c.fs).Put(p, z) == c';
      case Candidate =>
        ElectKeepsSafe(c, info, c'.Node(PlaceOf(info)));
    }
  }

  // ---- the sweep ----

  /** Removing the path of a server with one miss: its master lock if it is the
      master, otherwise its slave lock, and nothing else. */
  lemma SweepFreesOwnLock(c: Coord, p: Place, z: ZNode, i: nat)
    requires Shape(c.fs.tree) && c.fs.coarse && !c.fs.held
    requires NodeSafe(z, i, p.server) && z.missed < 2
    ensures var fs := Remove(c.fs, z.path).1;
            var lock := if z.master then MasterLock(i + 1) else SlaveLock(i + 1, p.server);
            && fs == c.fs.(tree := c.fs.tree - {lock}) && Shape(fs.tree)
            && (Locked(fs.tree, i) <==> Locked(c.fs.tree, i) && !z.master)
  {
    MasterPath(i + 1);
    SlavePath(i + 1, p.server);
    LocksDiffer(i + 1, p.server, i + 1, 0);
    RemoveLock(c.fs.tree, FilePath(z.path));
    assert FilePath(z.path) !in c.fs.tree ==> c.fs.tree - {FilePath(z.path)} == c.fs.tree;
  }

  lemma SweepServerKeepsSafe(c: Coord, p: Place, now: int)
    requires Safe(c) && c.Has(p)
    ensures Safe(SweepServer(c, p, now))
  {
    var i, k, cluster := p.cluster, p.server, c.clusters[p.cluster];
    var z, c' := c.Node(p), SweepServer(c, p, now);
    assert ClusterSafe(cluster, i, Locked(c.fs.tree, i)) && NodeSafe(z, i, k);
    if now - z.lastHeartbeat > MAX_HEARTBEAT_DELAY {
      var z' := c'.Node(p);
      if z.missed + 1 == 2 {
        SweepFreesOwnLock(c, p, z, i);
        if z.master {
          MasterGone(cluster, k, z');
        } else {
          SameMastership(cluster, k, z');
        }
        PutIsSafe(c, p, z', c'.fs);
      } else {
        SameMastership(cluster, k, z');
        PutIsSafe(c, p, z', c.fs);
        assert c.(fs := c.fs).Put(p, z') == c';
      }
    }
  }

  lemma {:induction false} SweepServersKeepsSafe(c: Coord, i: nat, ks: seq<int>, now: int)
    requires Safe(c) && i < |c.clusters| && forall k | k in ks :: k in c.clusters[i]
    ensures Safe(SweepServers(c, i, ks, now))
    decreases |ks|
  {
    if ks != [] {
      SweepServerKeepsSafe(c, Place(i, ks[0]), now);
      assert forall k | k in ks[1..] :: k in ks;
      SweepServersKeepsSafe(SweepServer(c, Place(i, ks[0]), now), i, ks[1..], now);
    }
  }

  lemma {:induction false} SweepFromKeepsSafe(c: Coord, i: nat, now: int)
    requires Safe(c) && i <= |c.clusters|
    ensures Safe(SweepFrom(c, i, now))
    decreases |c.clusters| - i
  {
    if i < |c.clusters| {
      var ks := Ascending(c.clusters[i].Keys);
      SweepServersKeepsSafe(c, i, ks, now);
      SweepFromKeepsSafe(SweepServers(c, i, ks, now), i + 1, now);
    }
  }

  // ---- runs ----

  datatype Event =
    | Beat(info: ServerInfo, now: int)
    | SweepOne(place: Place, now: int)
    | SweepAll(now: int)
    | NewClient
    | AskServer(id: nat)

  function Apply(c: Coord, e: Event): Coord
  {
    match e
    case Beat(info, now) => Heartbeat(c, info, now).1
    case SweepOne(p, now) => if c.Has(p) then SweepServer(c, p, now) else c
    case SweepAll(now) => Sweep(c, now)
    case NewClient => GetUniqueClientID(c).1
    case AskServer(id) => if |c.clusters| > 0 then GetServer(c, id).1 else c
  }

  function Run(c: Coord, events: seq<Event>): Coord
  {
    if events == [] then c else Apply(Run(c, events[..|events| - 1]), events[|events| - 1])
  }

  lemma ApplyKeepsSafe(c: Coord, e: Event)
    requires Safe(c)
    ensures Safe(Apply(c, e))
  {
    match e {
      case Beat(info, now) => HeartbeatKeepsSafe(c, info, now);
      case SweepOne(p, now) => if c.Has(p) { SweepServerKeepsSafe(c, p, now); }
      case SweepAll(now) => SweepFromKeepsSafe(c, 0, now);
      case NewClient =>
      case AskServer(id) =>
    }
  }

  lemma {:induction false} RunIsSafe(n: nat, events: seq<Event>)
    ensures Safe(Run(Start(n), events))
    decreases |events|
  {
    if events == [] {
      StartIsSafe(n);
    } else {
      RunIsSafe(n, events[..|events| - 1]);
      ApplyKeepsSafe(Run(Start(n), events[..|events| - 1]), events[|events| - 1]);
    }
  }

  /** In every reachable state a cluster has at most one master, and its master
      lock file exists exactly while it has one. */
  lemma {:induction false} MutualExclusion(n: nat, events: seq<Event>, i: nat)
    ensures var c := Run(Start(n), events);
            i < |c.clusters| ==>
              && (forall k, k' | k in c.clusters[i] && k' in c.clusters[i]
                                 && c.clusters[i][k].master && c.clusters[i][k'].master :: k == k')
              && ((exists k :: k in c.clusters[i] && c.clusters[i][k].master) <==>
                  MasterLock(i + 1) in c.fs.tree && c.fs.tree[MasterLock(i + 1)].File?)
  {
    RunIsSafe(n, events);
    var c := Run(Start(n), events);
    if i < |c.clusters| {
      assert ClusterSafe(c.clusters[i], i, Locked(c.fs.tree, i));
      assert HasMaster(c.clusters[i]) <==> Locked(c.fs.tree, i);
    }
  }

  /** The sweep of a server removes no lock but that server's own: what it
      removes is its slave lock, or the master lock while it is the master. */
  lemma {:induction false} OnlyOwnLockReleased(n: nat, events: seq<Event>, p: Place, now: int, lock: Path)
    requires Run(Start(n), events).Has(p)
    ensures var c := Run(Start(n), events);
            var c' := SweepServer(c, p, now);
            lock in c.fs.tree && lock !in c'.fs.tree ==>
              || lock == SlaveLock(p.cluster + 1, p.server)
              || (lock == MasterLock(p.cluster + 1) && c.Node(p).master && !c'.Node(p).master)
  {
    RunIsSafe(n, events);
    var c := Run(Start(n), events);
    var z := c.Node(p);
    assert NodeSafe(z, p.cluster, p.server);
    if z.missed + 1 == 2 {
      SweepFreesOwnLock(c, p, z, p.cluster);
    }
  }

  /** No call of a handler ever hangs or finds the mutex held, and a candidate is
      elected exactly when its cluster has no master. */
  lemma HeartbeatReturns(n: nat, events: seq<Event>, info: ServerInfo, now: int)
    ensures var c := Run(Start(n), events);
            var (reply, c') := Heartbeat(c, info, now);
            && reply != Hung && !c'.fs.held
            && (reply.Registered? && reply.master <==>
                  && InRange(c, info)
                  && !(c.Has(PlaceOf(info)) && !info.registered && c.Node(PlaceOf(info)).IsActive())
                  && ((c.Has(PlaceOf(info)) && c.Node(PlaceOf(info)).master)
                      || !HasMaster(c.clusters[info.clusterId - 1])))
  {
    RunIsSafe(n, events);
    var c := Run(Start(n), events);
    HeartbeatKeepsSafe(c, info, now);
    var (a, c') := Admit(c, info, now);
    if a == Candidate {
      ElectionOutcome(c', info, c'.Node(PlaceOf(info)));
      assert ClusterSafe(c.clusters[info.clusterId - 1], info.clusterId - 1, Locked(c.fs.tree, info.clusterId - 1));
    }
  }
}
