/** coordinator/src/SNSCoordinator.{h,cpp}: the coordinator's state and its RPC
    handlers as functions of that state. */
module Registry {
  import opened Text
  import opened FlatFs
  import opened OrderedMaps

  datatype ZNode = ZNode(serverId: int, clusterId: int, hostname: string, port: string,
                         path: string, master: bool, lastHeartbeat: int, missed: nat)
  {
    predicate IsActive()
    {
      missed <= 2
    }

    function Address(): string
    {
      hostname + ":" + port
    }

    /** `setFromServerInfo`: path and master stay. */
    function Updated(info: ServerInfo, now: int): ZNode
    {
      this.(serverId := info.serverId, clusterId := info.clusterId, hostname := info.hostname,
            port := info.port, lastHeartbeat := now, missed := 0)
    }
  }

  datatype ServerInfo = ServerInfo(serverId: int, clusterId: int, hostname: string, port: string, registered: bool)

  /** Where a zNode lives: nodes are never replaced or dropped, so a pointer to
      one is its place. */
  datatype Place = Place(cluster: nat, server: int)

  type Cluster = map<int, ZNode>

  datatype Coord = Coord(clusters: seq<Cluster>, fs: Fs, assignments: map<int, Option<Place>>)
  {
    predicate Has(p: Place)
    {
      p.cluster < |clusters| && p.server in clusters[p.cluster]
    }

    function Node(p: Place): ZNode
      requires Has(p)
    {
      clusters[p.cluster][p.server]
    }

    function Put(p: Place, z: ZNode): Coord
      requires p.cluster < |clusters|
    {
      this.(clusters := clusters[p.cluster := clusters[p.cluster][p.server := z]])
    }
  }

  const MAX_HEARTBEAT_DELAY := 10
  const HEARTBEAT_CHECK_DELAY := 3

  const NEW_NODE := ZNode(-1, -1, "", "", "", false, 0, 0)

  function Start(numClusters: nat): Coord
  {
    Coord(seq(numClusters, _ => map[]), Fs(EMPTY_TREE, true, false), map[])
  }

  // ---- lock paths ----

  function MasterFilepath(clusterId: int): string
  {
    "/cluster" + IntStr(clusterId) + "/master"
  }

  function SlaveFilepath(clusterId: int, serverId: int): string
  {
    "/cluster" + IntStr(clusterId) + "/slave" + IntStr(serverId)
  }

  function ClusterFolder(clusterId: int): Path
  {
    Sub(Root, "cluster" + IntStr(clusterId))
  }

  function MasterLock(clusterId: int): Path
  {
    Sub(ClusterFolder(clusterId), "master")
  }

  function SlaveLock(clusterId: int, serverId: int): Path
  {
    Sub(ClusterFolder(clusterId), "slave" + IntStr(serverId))
  }

  predicate IsMaster(c: Coord, p: Place)
  {
    c.Has(p) && c.Node(p).master
  }

  ghost predicate SomeMaster(c: Coord)
  {
    exists q :: IsMaster(c, q)
  }

  // ---- searching for masters ----

  function FirstMaster(cluster: Cluster, ks: seq<int>): (k: Option<int>)
    ensures k.Some? ==> k.value in ks && k.value in cluster && cluster[k.value].master
    ensures k.None? ==> forall s | s in ks && s in cluster :: !cluster[s].master
  {
    if ks == [] then None
    else if ks[0] in cluster && cluster[ks[0]].master then Some(ks[0])
    else FirstMaster(cluster, ks[1..])
  }

  function MasterOf(cluster: Cluster): (k: Option<int>)
    ensures k.Some? ==> k.value in cluster && cluster[k.value].master
    ensures k.None? ==> forall s | s in cluster :: !cluster[s].master
  {
    FirstMaster(cluster, Ascending(cluster.Keys))
  }

  /** `getFirstAvailableClusterMaster`, from cluster `i` on. */
  function FirstOtherMaster(clusters: seq<Cluster>, skip: int, i: nat): (p: Option<Place>)
    requires i <= |clusters|
    ensures p.Some? ==> i <= p.value.cluster < |clusters| && p.value.cluster != skip
                        && MasterOf(clusters[p.value.cluster]) == Some(p.value.server)
    ensures p.None? ==> forall j | i <= j < |clusters| && j != skip :: MasterOf(clusters[j]).None?
    decreases |clusters| - i
  {
    if i == |clusters| then None
    else if i != skip && MasterOf(clusters[i]).Some? then Some(Place(i, MasterOf(clusters[i]).value))
    else FirstOtherMaster(clusters, skip, i + 1)
  }

  lemma {:induction false} FirstMasterIsFirst(cluster: Cluster, ks: seq<int>)
    requires Increasing(ks)
    ensures FirstMaster(cluster, ks).Some? ==>
              forall s | s in ks && s in cluster && cluster[s].master :: FirstMaster(cluster, ks).value <= s
    decreases |ks|
  {
    if ks != [] {
      FirstMasterIsFirst(cluster, ks[1..]);
      assert ks == [ks[0]] + ks[1..];
      forall s | s in ks[1..] ensures ks[0] < s {
        var j :| 0 <= j < |ks[1..]| && ks[1..][j] == s;
        assert ks[j + 1] == s;
      }
    }
  }

  /** The master found is the first in key order, and none is found exactly if
      no server has its flag set. */
  lemma MasterOfIsFirst(cluster: Cluster)
    ensures match MasterOf(cluster)
            case None => forall s | s in cluster :: !cluster[s].master
            case Some(k) =>
              k in cluster && cluster[k].master && forall s | s in cluster && cluster[s].master :: k <= s
  {
    AscendingIncreases(cluster.Keys);
    FirstMasterIsFirst(cluster, Ascending(cluster.Keys));
  }

  /** The master found is that of the first other cluster that has one. */
  lemma {:induction false} FirstOtherIsFirst(clusters: seq<Cluster>, skip: int, i: nat)
    requires i <= |clusters|
    ensures match FirstOtherMaster(clusters, skip, i)
            case None => forall j | i <= j < |clusters| && j != skip :: MasterOf(clusters[j]).None?
            case Some(p) =>
              && i <= p.cluster < |clusters| && p.cluster != skip
              && MasterOf(clusters[p.cluster]) == Some(p.server)
              && forall j | i <= j < p.cluster && j != skip :: MasterOf(clusters[j]).None?
    decreases |clusters| - i
  {
    hide MasterOf;
    if i < |clusters| {
      FirstOtherIsFirst(clusters, skip, i + 1);
    }
  }

  // ---- Heartbeat ----

  /** The reply; `Hung` stands for a call that does not return. */
  datatype HeartbeatReply =
    | InvalidCluster
    | AlreadyExists
    | Registered(path: string, master: bool, syncAddress: string)
    | Hung

  datatype Admission = NoSuchCluster | Duplicate | StillMaster | Candidate

  function PlaceOf(info: ServerInfo): Place
    requires info.clusterId >= 1
  {
    Place(info.clusterId - 1, info.serverId)
  }

  predicate InRange(c: Coord, info: ServerInfo)
  {
    1 <= info.clusterId <= |c.clusters|
  }

  /** The part of `Heartbeat` before the election: find or make the zNode, refuse
      a second registration, record the heartbeat. */
  function Admit(c: Coord, info: ServerInfo, now: int): (Admission, Coord)
  {
    if !InRange(c, info) then (NoSuchCluster, c)
    else
      var p := PlaceOf(info);
      if c.Has(p) && !info.registered && c.Node(p).IsActive() then (Duplicate, c)
      else
        var z := (if c.Has(p) then c.Node(p) else NEW_NODE).Updated(info, now);
        (if z.master then StillMaster else Candidate, c.Put(p, z))
  }

  function ReadOrEmpty(fs: Fs, file: string): string
  {
    match Read(fs, file, 0)
    case Some(data) => data
    case None => ""
  }

  function SyncForMaster(c: Coord, info: ServerInfo): string
    requires InRange(c, info)
  {
    if info.registered then ""
    else
      match FirstOtherMaster(c.clusters, info.clusterId - 1, 0)
      case Some(p) => c.Node(p).Address()
      case None => ""
  }

  predicate Returns(st: Status)
  {
    st == Ok || st == Failed
  }

  /** The election for a candidate: take the slave lock when the master lock
      exists, otherwise try to create the master lock. */
  function Elect(c: Coord, info: ServerInfo): (HeartbeatReply, Coord)
    requires InRange(c, info) && c.Has(PlaceOf(info))
  {
    var p := PlaceOf(info);
    var z := c.Node(p);
    var lock := MasterFilepath(info.clusterId);
    if Exists(c.fs, lock) then
      var raw := SlaveFilepath(info.clusterId, info.serverId);
      var (st, fs) := Write(c.fs, raw, z.Address(), false, true);
      if !Returns(st) then (Hung, c.(fs := fs))
      else (Registered(raw, false, ReadOrEmpty(fs, lock)), c.(fs := fs).Put(p, z.(path := raw)))
    else
      var (st, fs) := Create(c.fs, lock, false, true);
      if !Returns(st) then (Hung, c.(fs := fs))
      else if st == Failed then
        (Registered("", false, ReadOrEmpty(fs, lock)), c.(fs := fs).Put(p, z.(path := "")))
      else
        var (st', fs') := Write(fs, lock, z.Address(), false, true);
        if !Returns(st') then (Hung, c.(fs := fs'))
        else (Registered(lock, true, SyncForMaster(c, info)),
              c.(fs := fs').Put(p, z.(path := lock, master := true)))
  }

  function Heartbeat(c: Coord, info: ServerInfo, now: int): (HeartbeatReply, Coord)
  {
    var (a, c') := Admit(c, info, now);
    match a
    case NoSuchCluster => (InvalidCluster, c')
    case Duplicate => (AlreadyExists, c')
    case StillMaster => (Registered(c'.Node(PlaceOf(info)).path, true, ""), c')
    case Candidate => Elect(c', info)
  }

  // ---- checkHeartbeats ----

  /** One server in the sweep. */
  function SweepServer(c: Coord, p: Place, now: int): Coord
    requires c.Has(p)
  {
    var z := c.Node(p);
    if now - z.lastHeartbeat > MAX_HEARTBEAT_DELAY then
      var z' := z.(missed := z.missed + 1);
      if z'.missed == 2 then
        c.(fs := Remove(c.fs, z.path).1).Put(p, z'.(master := false))
      else c.Put(p, z')
    else c
  }

  function SweepServers(c: Coord, i: nat, ks: seq<int>, now: int): (c': Coord)
    requires i < |c.clusters| && forall k | k in ks :: k in c.clusters[i]
    ensures |c'.clusters| == |c.clusters|
    ensures forall j | 0 <= j < |c.clusters| :: c'.clusters[j].Keys == c.clusters[j].Keys
    decreases |ks|
  {
    if ks == [] then c
    else
      assert forall k | k in ks[1..] :: k in ks;
      SweepServers(SweepServer(c, Place(i, ks[0]), now), i, ks[1..], now)
  }

  function SweepFrom(c: Coord, i: nat, now: int): (c': Coord)
    requires i <= |c.clusters|
    ensures |c'.clusters| == |c.clusters|
    decreases |c.clusters| - i
  {
    if i == |c.clusters| then c
    else SweepFrom(SweepServers(c, i, Ascending(c.clusters[i].Keys), now), i + 1, now)
  }

  /** One pass of `checkHeartbeats` over every cluster and server. */
  function Sweep(c: Coord, now: int): Coord
  {
    SweepFrom(c, 0, now)
  }

  // ---- lists of servers for replication ----

  function ActiveOthers(cluster: Cluster, self: int, ks: seq<int>): seq<int>
  {
    if ks == [] then []
    else
      var front, k := ActiveOthers(cluster, self, ks[..|ks| - 1]), ks[|ks| - 1];
      if k in cluster && k != self && cluster[k].IsActive() then front + [k] else front
  }

  /** `GetCounterparts`: the active servers of the cluster, without the caller. */
  function Counterparts(c: Coord, p: Place): seq<Place>
    requires p.cluster < |c.clusters|
  {
    var ks := ActiveOthers(c.clusters[p.cluster], p.server, Ascending(c.clusters[p.cluster].Keys));
    seq(|ks|, i requires 0 <= i < |ks| => Place(p.cluster, ks[i]))
  }

  /** The masters of the first `n` clusters, without cluster `skip`. */
  function OtherMastersUpTo(clusters: seq<Cluster>, skip: int, n: nat): seq<Place>
    requires n <= |clusters|
  {
    if n == 0 then []
    else
      var front := OtherMastersUpTo(clusters, skip, n - 1);
      if n - 1 != skip && MasterOf(clusters[n - 1]).Some?
      then front + [Place(n - 1, MasterOf(clusters[n - 1]).value)] else front
  }

  /** `GetOtherClusterMasters`: one master of every other cluster that has one. */
  function OtherMasters(c: Coord, p: Place): seq<Place>
  {
    OtherMastersUpTo(c.clusters, p.cluster, |c.clusters|)
  }

  // ---- clients ----

  function GetUniqueClientID(c: Coord): (int, Coord)
  {
    (|c.assignments|, c.(assignments := c.assignments[|c.assignments| := None]))
  }

  /** The ring search of `getActiveMaster`: `remaining` clusters from `i` on. */
  function RingSearch(clusters: seq<Cluster>, i: nat, remaining: nat): Option<Place>
    requires i < |clusters|
    decreases remaining
  {
    if remaining == 0 then None
    else if MasterOf(clusters[i]).Some? then Some(Place(i, MasterOf(clusters[i]).value))
    else RingSearch(clusters, (i + 1) % |clusters|, remaining - 1)
  }

  datatype ServerReply = Unavailable | Assigned(place: Place, changed: bool)

  /** `GetServer`; the lookup itself enters an unknown id with no server. */
  function GetServer(c: Coord, id: nat): (ServerReply, Coord)
    requires |c.clusters| > 0
  {
    var known := if id in c.assignments then c.assignments[id] else None;
    if known.Some? && c.Has(known.value) && c.Node(known.value).master then
      (Assigned(known.value, false), c)
    else
      match RingSearch(c.clusters, id % |c.clusters|, |c.clusters|)
      case Some(p) => (Assigned(p, true), c.(assignments := c.assignments[id := Some(p)]))
      case None => (Unavailable, c.(assignments := c.assignments[id := known]))
  }
}
