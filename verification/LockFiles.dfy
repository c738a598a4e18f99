/** The lock files of the coordinator over whole runs: which of them exist, what
    they hold, and which of them the sweep removes. */
module LockFiles {
  import opened FlatFs
  import opened OrderedMaps
  import opened Registry
  import opened LockPaths
  import opened ElectionSafety

  /** The lock that a server's path names. */
  function OwnLock(c: Coord, p: Place): Path
    requires c.Has(p)
  {
    if c.Node(p).master then MasterLock(p.cluster + 1) else SlaveLock(p.cluster + 1, p.server)
  }

  /** The next sweep brings the server at `p` to its second miss. */
  predicate Expires(c: Coord, p: Place, now: int)
  {
    c.Has(p) && now > c.Node(p).lastHeartbeat + 10 && c.Node(p).missed == 1
  }

  /** The next sweep releases this lock because of the server at `p`. */
  predicate Frees(c: Coord, p: Place, now: int, lock: Path)
  {
    Expires(c, p, now) && OwnLock(c, p) == lock
  }

  // ---- the sweep of one server ----

  lemma SweptTree(c: Coord, p: Place, now: int)
    requires Safe(c) && c.Has(p)
    ensures SweepServer(c, p, now).fs ==
            c.fs.(tree := if Expires(c, p, now) then c.fs.tree - {OwnLock(c, p)} else c.fs.tree)
  {
    hide Remove, MasterFilepath, SlaveFilepath, MasterLock, SlaveLock;
    assert ClusterSafe(c.clusters[p.cluster], p.cluster, Locked(c.fs.tree, p.cluster));
    assert NodeSafe(c.Node(p), p.cluster, p.server);
    if Expires(c, p, now) {
      SweepFreesOwnLock(c, p, c.Node(p), p.cluster);
    }
  }

  /** In every reachable state the sweep that brings a server to its second miss
      removes the lock named by its path, and no other sweep of a server changes
      the lock tree at all. */
  lemma {:induction false} SweepReleasesOwnLock(n: nat, events: seq<Event>, p: Place, now: int)
    requires Run(Start(n), events).Has(p)
    ensures var c := Run(Start(n), events);
            var t, t', z := c.fs.tree, SweepServer(c, p, now).fs.tree, c.Node(p);
            && (now > z.lastHeartbeat + 10 && z.missed == 1 ==>
                  && FilePath(z.path) == OwnLock(c, p) && OwnLock(c, p) !in t'
                  && forall q | q != OwnLock(c, p) :: (q in t' <==> q in t) && (q in t ==> t'[q] == t[q]))
            && (!(now > z.lastHeartbeat + 10 && z.missed == 1) ==> t' == t)
  {
    RunIsSafe(n, events);
    var c := Run(Start(n), events);
    SweptTree(c, p, now);
    if c.Node(p).missed < 2 {
      PathNamesLock(c, p);
    }
  }

  lemma PathNamesLock(c: Coord, p: Place)
    requires Safe(c) && c.Has(p) && c.Node(p).missed < 2
    ensures FilePath(c.Node(p).path) == OwnLock(c, p)
  {
    hide FilePath;
    assert ClusterSafe(c.clusters[p.cluster], p.cluster, Locked(c.fs.tree, p.cluster));
    assert NodeSafe(c.Node(p), p.cluster, p.server);
    MasterPath(p.cluster + 1);
    SlavePath(p.cluster + 1, p.server);
  }

  // ---- a whole pass ----

  function ExpiredOf(c: Coord, i: nat, ks: seq<int>, now: int): set<Path>
    requires i < |c.clusters| && forall k | k in ks :: k in c.clusters[i]
  {
    set k | k in ks && Expires(c, Place(i, k), now) :: OwnLock(c, Place(i, k))
  }

  lemma {:induction false} SweptServersTree(c: Coord, i: nat, ks: seq<int>, now: int)
    requires Safe(c) && i < |c.clusters| && Increasing(ks) && forall k | k in ks :: k in c.clusters[i]
    ensures SweepServers(c, i, ks, now).fs.tree == c.fs.tree - ExpiredOf(c, i, ks, now)
    decreases |ks|
  {
    hide SweepServer, Safe, MasterLock, SlaveLock, OwnLock, Expires;
    if ks == [] {
      assert ExpiredOf(c, i, ks, now) == {};
    } else {
      var p, rest := Place(i, ks[0]), ks[1..];
      assert forall k | k in rest :: k in ks;
      assert ks == [ks[0]] + rest && ks[0] !in rest;
      var c1 := SweepServer(c, p, now);
      SweepServerKeepsSafe(c, p, now);
      SweptTree(c, p, now);
      KeysStay(c, p, now);
      forall k | k in rest
        ensures Expires(c1, Place(i, k), now) == Expires(c, Place(i, k), now)
                && OwnLock(c1, Place(i, k)) == OwnLock(c, Place(i, k))
      {
        OthersUnswept(c, p, now, Place(i, k));
      }
      assert ExpiredOf(c1, i, rest, now) == ExpiredOf(c, i, rest, now);
      SplitExpired(c, i, ks, now);
      SweptServersTree(c1, i, rest, now);
    }
  }

  lemma KeysStay(c: Coord, p: Place, now: int)
    requires c.Has(p)
    ensures var c1 := SweepServer(c, p, now);
            && |c1.clusters| == |c.clusters| && c1.clusters[p.cluster].Keys == c.clusters[p.cluster].Keys
            && forall j | 0 <= j < |c.clusters| && j != p.cluster :: c1.clusters[j] == c.clusters[j]
  {
    hide Remove;
  }

  lemma OthersUnswept(c: Coord, p: Place, now: int, q: Place)
    requires c.Has(p) && c.Has(q) && q != p
    ensures var c1 := SweepServer(c, p, now);
            c1.Has(q) && Expires(c1, q, now) == Expires(c, q, now) && OwnLock(c1, q) == OwnLock(c, q)
  {
    hide Remove;
    assert q.cluster == p.cluster ==> q.server != p.server;
  }

  lemma SplitExpired(c: Coord, i: nat, ks: seq<int>, now: int)
    requires ks != [] && i < |c.clusters| && forall k | k in ks :: k in c.clusters[i]
    ensures forall k | k in ks[1..] :: k in c.clusters[i]
    ensures var p := Place(i, ks[0]);
            ExpiredOf(c, i, ks, now) ==
            (if Expires(c, p, now) then {OwnLock(c, p)} else {}) + ExpiredOf(c, i, ks[1..], now)
  {
    hide OwnLock, Expires;
    assert ks == [ks[0]] + ks[1..];
    assert forall k :: k in ks <==> k == ks[0] || k in ks[1..];
  }

  /** The locks released by a pass from cluster `i` on. */
  function ExpiredFrom(c: Coord, i: nat, now: int): set<Path>
    requires i <= |c.clusters|
    decreases |c.clusters| - i
  {
    if i == |c.clusters| then {}
    else ExpiredOf(c, i, Ascending(c.clusters[i].Keys), now) + ExpiredFrom(c, i + 1, now)
  }

  lemma {:induction false} ExpiredElsewhere(c: Coord, c': Coord, i: nat, now: int)
    requires i <= |c.clusters| == |c'.clusters| && forall j | i <= j < |c.clusters| :: c'.clusters[j] == c.clusters[j]
    ensures ExpiredFrom(c', i, now) == ExpiredFrom(c, i, now)
    decreases |c.clusters| - i
  {
    if i < |c.clusters| {
      hide ExpiredOf, Ascending, OwnLock, Expires;
      var ks := Ascending(c.clusters[i].Keys);
      assert c'.clusters[i] == c.clusters[i] && Ascending(c'.clusters[i].Keys) == ks;
      ExpiredElsewhere(c, c', i + 1, now);
      SameExpired(c, c', i, ks, now);
      assert ExpiredFrom(c, i, now) == ExpiredOf(c, i, ks, now) + ExpiredFrom(c, i + 1, now);
      assert ExpiredFrom(c', i, now) == ExpiredOf(c', i, ks, now) + ExpiredFrom(c', i + 1, now);
    }
  }

  lemma SameExpired(c: Coord, c': Coord, i: nat, ks: seq<int>, now: int)
    requires i < |c.clusters| == |c'.clusters| && c'.clusters[i] == c.clusters[i]
    requires forall k | k in ks :: k in c.clusters[i]
    ensures ExpiredOf(c', i, ks, now) == ExpiredOf(c, i, ks, now)
  {
    hide MasterLock, SlaveLock;
    assert forall k | k in ks :: c'.Node(Place(i, k)) == c.Node(Place(i, k));
  }

  lemma {:induction false} OtherClustersUnswept(c: Coord, i: nat, ks: seq<int>, now: int)
    requires i < |c.clusters| && forall k | k in ks :: k in c.clusters[i]
    ensures forall j | 0 <= j < |c.clusters| && j != i :: SweepServers(c, i, ks, now).clusters[j] == c.clusters[j]
    decreases |ks|
  {
    hide Remove;
    if ks != [] {
      assert forall k | k in ks[1..] :: k in ks;
      OtherClustersUnswept(SweepServer(c, Place(i, ks[0]), now), i, ks[1..], now);
    }
  }

  lemma {:induction false} SweptFromTree(c: Coord, i: nat, now: int)
    requires Safe(c) && i <= |c.clusters|
    ensures SweepFrom(c, i, now).fs.tree == c.fs.tree - ExpiredFrom(c, i, now)
    decreases |c.clusters| - i
  {
    hide SweepServers, Safe, ExpiredOf;
    if i < |c.clusters| {
      var ks := Ascending(c.clusters[i].Keys);
      AscendingIncreases(c.clusters[i].Keys);
      var c1 := SweepServers(c, i, ks, now);
      SweepServersKeepsSafe(c, i, ks, now);
      SweptServersTree(c, i, ks, now);
      OtherClustersUnswept(c, i, ks, now);
      ExpiredElsewhere(c, c1, i + 1, now);
      SweptFromTree(c1, i + 1, now);
    }
  }

  lemma {:induction false} ExpiredAre(c: Coord, i: nat, now: int, lock: Path)
    requires i <= |c.clusters|
    ensures lock in ExpiredFrom(c, i, now) <==> exists p :: Frees(c, p, now, lock) && p.cluster >= i
    decreases |c.clusters| - i
  {
    hide Frees, ExpiredOf;
    forall p | Frees(c, p, now, lock) ensures p.cluster < |c.clusters| {
      FreesIsKnown(c, p, now, lock);
    }
    if i < |c.clusters| {
      ExpiredAre(c, i + 1, now, lock);
      ExpiredAreOf(c, i, now, lock);
    }
  }

  lemma FreesIsKnown(c: Coord, p: Place, now: int, lock: Path)
    requires Frees(c, p, now, lock)
    ensures c.Has(p)
  {
  }

  lemma ExpiredAreOf(c: Coord, i: nat, now: int, lock: Path)
    requires i < |c.clusters|
    ensures lock in ExpiredOf(c, i, Ascending(c.clusters[i].Keys), now) <==>
            exists p :: Frees(c, p, now, lock) && p.cluster == i
  {
    hide OwnLock, Ascending;
    if p :| Frees(c, p, now, lock) && p.cluster == i {
      assert p == Place(i, p.server) && p.server in Ascending(c.clusters[i].Keys);
    }
    if lock in ExpiredOf(c, i, Ascending(c.clusters[i].Keys), now) {
      var k :| k in Ascending(c.clusters[i].Keys) && Expires(c, Place(i, k), now) && OwnLock(c, Place(i, k)) == lock;
      assert Frees(c, Place(i, k), now, lock);
    }
  }

  /** In every reachable state a whole pass removes from the lock tree exactly the
      locks of the servers that it brings to their second miss. */
  lemma {:induction false} PassReleasesExpired(n: nat, events: seq<Event>, now: int, q: Path)
    ensures var c := Run(Start(n), events);
            var t, t' := c.fs.tree, Sweep(c, now).fs.tree;
            && (q in t' <==> q in t && !exists p :: Frees(c, p, now, q))
            && (q in t' ==> t'[q] == t[q])
  {
    hide Run, Safe, ExpiredFrom, Frees;
    RunIsSafe(n, events);
    SweptFromTree(Run(Start(n), events), 0, now);
    ExpiredAre(Run(Start(n), events), 0, now, q);
  }

  // ---- slave locks exist ----

  /** The slave lock of `q` holds its address while it has that path and fewer than
      two misses. */
  predicate SlaveTells(c: Coord, q: Place)
  {
    c.Has(q) && c.Node(q).path == SlaveFilepath(q.cluster + 1, q.server) && c.Node(q).missed < 2 ==>
      var lock := SlaveLock(q.cluster + 1, q.server);
      lock in c.fs.tree && c.fs.tree[lock] == File(c.Node(q).Address())
  }

  ghost predicate SlavesTell(c: Coord)
  {
    forall q :: SlaveTells(c, q)
  }

  lemma LocksAreApart(p: Place, q: Place)
    ensures SlaveLock(q.cluster + 1, q.server) != MasterLock(p.cluster + 1)
    ensures SlaveLock(q.cluster + 1, q.server) != MasterLock(p.cluster + 1).parent
    ensures p != q ==> SlaveLock(q.cluster + 1, q.server) != SlaveLock(p.cluster + 1, p.server)
    ensures MasterFilepath(p.cluster + 1) != SlaveFilepath(p.cluster + 1, p.server)
  {
    LocksDiffer(q.cluster + 1, q.server, p.cluster + 1, p.server);
    LocksDiffer(p.cluster + 1, p.server, p.cluster + 1, p.server);
    assert SlaveLock(q.cluster + 1, q.server).parent.Sub? && !MasterLock(p.cluster + 1).parent.parent.Sub?;
  }

  lemma {:induction false} ElectionKeepsSlavesTelling(c: Coord, info: ServerInfo, z: ZNode)
    requires Safe(c) && SlavesTell(c) && InRange(c, info) && !z.master
    ensures SlavesTell(Elect(c.Put(PlaceOf(info), z), info).1)
  {
    hide Elect, MasterFilepath, SlaveFilepath, MasterLock, SlaveLock, Safe;
    var p := PlaceOf(info);
    var c1 := c.Put(p, z);
    ShapeOfSafe(c);
    ElectionOutcome(c1, info, z);
    var c' := Elect(c1, info).1;
    forall q ensures SlaveTells(c', q) {
      assert SlaveTells(c, q);
      LocksAreApart(p, q);
    }
  }

  lemma ShapeOfSafe(c: Coord)
    requires Safe(c)
    ensures Shape(c.fs.tree) && c.fs.coarse && !c.fs.held
  {
  }

  lemma {:induction false} HeartbeatKeepsSlavesTelling(c: Coord, info: ServerInfo, now: int)
    requires Safe(c) && SlavesTell(c)
    ensures SlavesTell(Heartbeat(c, info, now).1)
  {
    hide Elect, MasterFilepath, SlaveFilepath, MasterLock, SlaveLock;
    var (a, c') := Admit(c, info, now);
    match a {
      case NoSuchCluster =>
      case Duplicate =>
      case StillMaster =>
        var p := PlaceOf(info);
        assert ClusterSafe(c.clusters[p.cluster], p.cluster, Locked(c.fs.tree, p.cluster));
        assert NodeSafe(c.Node(p), p.cluster, p.server);
        LocksAreApart(p, p);
        forall q ensures SlaveTells(c', q) {
          assert SlaveTells(c, q);
        }
      case Candidate =>
        ElectionKeepsSlavesTelling(c, info, c'.Node(PlaceOf(info)));
    }
  }

  lemma {:induction false} SweepKeepsSlavesTelling(c: Coord, p: Place, now: int)
    requires Safe(c) && SlavesTell(c) && c.Has(p)
    ensures SlavesTell(SweepServer(c, p, now))
  {
    hide Safe, Remove, MasterFilepath, SlaveFilepath, MasterLock, SlaveLock;
    SweptTree(c, p, now);
    var c' := SweepServer(c, p, now);
    forall q ensures SlaveTells(c', q) {
      assert SlaveTells(c, q);
      LocksAreApart(p, q);
      assert q.cluster == p.cluster && q.server != p.server && c.Has(q) ==> c'.Node(q) == c.Node(q);
    }
  }

  lemma {:induction false} SweepServersKeepsSlavesTelling(c: Coord, i: nat, ks: seq<int>, now: int)
    requires Safe(c) && SlavesTell(c) && i < |c.clusters| && forall k | k in ks :: k in c.clusters[i]
    ensures SlavesTell(SweepServers(c, i, ks, now))
    decreases |ks|
  {
    hide SweepServer, Safe, SlavesTell;
    if ks != [] {
      SweepServerKeepsSafe(c, Place(i, ks[0]), now);
      SweepKeepsSlavesTelling(c, Place(i, ks[0]), now);
      KeysStay(c, Place(i, ks[0]), now);
      assert forall k | k in ks[1..] :: k in ks;
      SweepServersKeepsSlavesTelling(SweepServer(c, Place(i, ks[0]), now), i, ks[1..], now);
    }
  }

  lemma {:induction false} PassKeepsSlavesTelling(c: Coord, i: nat, now: int)
    requires Safe(c) && SlavesTell(c) && i <= |c.clusters|
    ensures SlavesTell(SweepFrom(c, i, now))
    decreases |c.clusters| - i
  {
    hide SweepServers, Safe, SlavesTell;
    if i < |c.clusters| {
      var ks := Ascending(c.clusters[i].Keys);
      SweepServersKeepsSafe(c, i, ks, now);
      SweepServersKeepsSlavesTelling(c, i, ks, now);
      PassKeepsSlavesTelling(SweepServers(c, i, ks, now), i + 1, now);
    }
  }

  /** In every reachable state the lock file of a slave that has not missed twice
      exists and holds its address; so what a sweep releases was there. */
  lemma {:induction false} SlaveLocksExist(n: nat, events: seq<Event>)
    ensures SlavesTell(Run(Start(n), events))
    decreases |events|
  {
    hide Heartbeat, SweepServer, Safe, SlavesTell, SweepFrom;
    if events == [] {
      NoSlavesYet(n);
    } else {
      var front := events[..|events| - 1];
      SlaveLocksExist(n, front);
      RunIsSafe(n, front);
      var c := Run(Start(n), front);
      match events[|events| - 1] {
        case Beat(info, now) => HeartbeatKeepsSlavesTelling(c, info, now);
        case SweepOne(p, now) => if c.Has(p) { SweepKeepsSlavesTelling(c, p, now); }
        case SweepAll(now) => PassKeepsSlavesTelling(c, 0, now);
        case NewClient => ClientsKeepSlavesTelling(c, NewClient);
        case AskServer(id) => ClientsKeepSlavesTelling(c, AskServer(id));
      }
    }
  }

  lemma NoSlavesYet(n: nat)
    ensures SlavesTell(Start(n))
  {
  }

  lemma ClientsKeepSlavesTelling(c: Coord, e: Event)
    requires SlavesTell(c) && (e.NewClient? || e.AskServer?)
    ensures SlavesTell(Apply(c, e))
  {
    forall q ensures SlaveTells(Apply(c, e), q) {
      assert SlaveTells(c, q);
    }
  }
}
