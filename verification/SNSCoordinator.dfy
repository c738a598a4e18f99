/** coordinator/src/SNSCoordinator.{h,cpp}: the coordinator object.  Its methods
    update zNodes, maps and the lock tree in place, and are proved against the
    functions of module Registry. */
module Coordinator {
  import opened Text
  import opened FlatFs
  import opened MemoryTree
  import opened OrderedMaps
  import opened Registry
  import opened ElectionSafety

  class Node {
    // Where the coordinator keeps this node; it is never moved or dropped.
    ghost const home: Place
    var serverId: int
    var clusterId: int
    var hostname: string
    var port: string
    var path: string
    var master: bool
    var lastHeartbeat: int
    var missedHeartbeats: nat

    constructor (ghost home: Place)
      ensures this.home == home && View() == NEW_NODE
    {
      this.home := home;
      serverId, clusterId := -1, -1;
      hostname, port, path := "", "", "";
      master, lastHeartbeat, missedHeartbeats := false, 0, 0;
    }

    function View(): ZNode
      reads this
    {
      ZNode(serverId, clusterId, hostname, port, path, master, lastHeartbeat, missedHeartbeats)
    }

    method UpdateHeartbeat(now: int)
      modifies this`lastHeartbeat, this`missedHeartbeats
      ensures View() == old(View()).(lastHeartbeat := now, missed := 0)
    {
      lastHeartbeat := now;
      missedHeartbeats := 0;
    }

    method SetFromServerInfo(s: ServerInfo, now: int)
      modifies this
      ensures View() == old(View()).Updated(s, now)
    {
      serverId := s.serverId;
      clusterId := s.clusterId;
      hostname := s.hostname;
      port := s.port;
      UpdateHeartbeat(now);
    }
  }

  type NodeMap = map<int, Node>

  lemma SyncIgnoresLocks(c: Coord, fs: Fs, info: ServerInfo)
    requires InRange(c, info)
    ensures SyncForMaster(c.(fs := fs), info) == SyncForMaster(c, info)
  {
  }

  lemma SweepFromStep(c: Coord, c': Coord, i: nat, now: int)
    requires i < |c.clusters| && c' == SweepServers(c, i, Ascending(c.clusters[i].Keys), now)
    ensures SweepFrom(c, i, now) == SweepFrom(c', i + 1, now)
  {
  }

  lemma SweepServersStep(c: Coord, c': Coord, i: nat, ks: seq<int>, j: nat, now: int)
    requires i < |c.clusters| && j < |ks| && forall k | k in ks :: k in c.clusters[i]
    requires ks[j] in ks && c' == SweepServer(c, Place(i, ks[j]), now)
    ensures |c'.clusters| == |c.clusters| && c'.clusters[i].Keys == c.clusters[i].Keys
    ensures (forall k | k in ks[j..] :: k in ks) && (forall k | k in ks[j + 1..] :: k in ks)
    ensures SweepServers(c, i, ks[j..], now) == SweepServers(c', i, ks[j + 1..], now)
  {
    assert ks[j..][0] == ks[j] && ks[j..][1..] == ks[j + 1..];
  }

  ghost predicate KeysIn(c: Coord, i: nat, ks: seq<int>)
  {
    i < |c.clusters| && forall k | k in ks :: k in c.clusters[i]
  }

  lemma SweepServersDone(c: Coord, i: nat, now: int)
    requires i < |c.clusters|
    ensures SweepServers(c, i, [], now) == c
  {
  }

  lemma AdmitCases(c: Coord, info: ServerInfo, now: int)
    requires InRange(c, info)
    ensures var p, (a, c') := PlaceOf(info), Admit(c, info, now);
            var refused := c.Has(p) && !info.registered && c.Node(p).IsActive();
            && (a == Duplicate <==> refused)
            && c' == if refused then c else c.Put(p, (if c.Has(p) then c.Node(p) else NEW_NODE).Updated(info, now))
  {
  }

  lemma SweepFromDone(c: Coord, now: int)
    ensures SweepFrom(c, |c.clusters|, now) == c
  {
  }

  class SNSCoordinator {
    const filesys: FSMemory
    var clusters: seq<NodeMap>
    var clientAssignments: map<int, Node?>
    // What the nodes and the assignments stand for in module Registry.
    ghost var nodes: seq<Cluster>
    ghost var places: map<int, Option<Place>>

    ghost function View(): Coord
      reads this`nodes, this`places, filesys`nodes, filesys`locked, filesys.nodes.Values
    {
      Coord(nodes, filesys.View(), places)
    }

    ghost function Nodes(): set<Node>
      reads this`clusters
    {
      set i, k | 0 <= i < |clusters| && k in clusters[i] :: clusters[i][k]
    }

    ghost predicate Kept(node: Node)
      reads this`clusters
    {
      && node.home.cluster < |clusters|
      && node.home.server in clusters[node.home.cluster]
      && clusters[node.home.cluster][node.home.server] == node
    }

    ghost predicate Tied(i: nat, k: int)
      requires i < |clusters| && k in clusters[i]
      reads this`clusters, this`nodes, clusters[i][k]
    {
      && clusters[i][k].home == Place(i, k)
      && i < |nodes| && k in nodes[i] && nodes[i][k] == clusters[i][k].View()
    }

    ghost predicate ClustersTied()
      reads this`clusters, this`nodes, Nodes()
    {
      && |nodes| == |clusters|
      && (forall i: nat | i < |clusters| :: nodes[i].Keys == clusters[i].Keys)
      && (forall i: nat, k | i < |clusters| && k in clusters[i] :: clusters[i][k] in Nodes() && Tied(i, k))
    }

    ghost predicate AssignmentsTied()
      reads this`clusters, this`places, this`clientAssignments
    {
      && places.Keys == clientAssignments.Keys
      && forall id | id in clientAssignments ::
           var node := clientAssignments[id];
           if node == null then places[id] == None
           else Kept(node) && places[id] == Some(node.home)
    }

    ghost predicate Valid()
      reads this`clusters, this`clientAssignments, this`nodes, this`places, Nodes()
      reads filesys`nodes, filesys`Repr, filesys.nodes.Values
    {
      ClustersTied() && AssignmentsTied() && filesys.Valid()
    }

    constructor (numClusters: nat)
      ensures Valid() && fresh(filesys) && fresh(filesys.Repr) && Nodes() == {}
      ensures View() == Start(numClusters)
    {
      filesys := new FSMemory(true);
      clusters := seq(numClusters, _ => map[]);
      clientAssignments := map[];
      nodes := seq(numClusters, _ => map[]);
      places := map[];
    }

    // ---- changes to one node ----

    method NewServer(clusterIdx: nat, serverId: int) returns (server: Node)
      requires ClustersTied() && clusterIdx < |clusters| && serverId !in clusters[clusterIdx]
      modifies this`clusters, this`nodes
      ensures ClustersTied() && Kept(server) && server.home == Place(clusterIdx, serverId)
      ensures clusters == old(clusters)[clusterIdx := old(clusters)[clusterIdx][serverId := server]]
      ensures fresh(server) && fresh(Nodes() - old(Nodes()))
      ensures nodes == old(nodes)[clusterIdx := old(nodes)[clusterIdx][serverId := NEW_NODE]]
    {
      server := new Node(Place(clusterIdx, serverId));
      clusters := clusters[clusterIdx := clusters[clusterIdx][serverId := server]];
      nodes := nodes[clusterIdx := nodes[clusterIdx][serverId := NEW_NODE]];
      assert clusters[clusterIdx][serverId] == server;
    }

    /** The assignments keep their nodes. */
    method EnterServer(clusterIdx: nat, serverId: int) returns (server: Node)
      requires ClustersTied() && AssignmentsTied() && clusterIdx < |clusters| && serverId !in clusters[clusterIdx]
      modifies this`clusters, this`nodes
      ensures ClustersTied() && AssignmentsTied() && Kept(server) && server.home == Place(clusterIdx, serverId)
      ensures fresh(server) && fresh(Nodes() - old(Nodes()))
      ensures nodes == old(nodes)[clusterIdx := old(nodes)[clusterIdx][serverId := NEW_NODE]]
    {
      hide ClustersTied, Nodes;
      server := NewServer(clusterIdx, serverId);
    }

    ghost function NodesWith(p: Place, z: ZNode): seq<Cluster>
      requires p.cluster < |nodes|
      reads this`nodes
    {
      nodes[p.cluster := nodes[p.cluster][p.server := z]]
    }

    method Refresh(node: Node, info: ServerInfo, now: int)
      requires ClustersTied() && Kept(node)
      modifies node, this`nodes
      ensures ClustersTied()
      ensures nodes == old(NodesWith(node.home, node.View().Updated(info, now)))
    {
      node.SetFromServerInfo(info, now);
      nodes := NodesWith(node.home, node.View());
    }

    method SetPath(node: Node, raw: string, master: bool)
      requires ClustersTied() && Kept(node)
      modifies node, this`nodes
      ensures ClustersTied()
      ensures nodes == old(NodesWith(node.home, node.View().(path := raw, master := node.master || master)))
    {
      node.path := raw;
      if master {
        node.master := true;
      }
      nodes := NodesWith(node.home, node.View());
    }

    method RecordHeartbeat(node: Node, info: ServerInfo, now: int)
      requires Valid() && Kept(node)
      modifies node, this`nodes
      ensures Valid()
      ensures View() == old(View()).Put(node.home, old(node.View()).Updated(info, now))
    {
      hide FSMemory.Valid;
      Refresh(node, info, now);
    }

    method RecordPath(node: Node, raw: string, master: bool)
      requires Valid() && Kept(node)
      modifies node, this`nodes
      ensures Valid()
      ensures var z := old(node.View());
              View() == old(View()).Put(node.home, z.(path := raw, master := z.master || master))
    {
      hide FSMemory.Valid;
      SetPath(node, raw, master);
    }

    method AddServer(clusterIdx: nat, serverId: int) returns (server: Node)
      requires Valid() && clusterIdx < |clusters| && serverId !in clusters[clusterIdx]
      modifies this`clusters, this`nodes
      ensures Valid() && Kept(server) && server.home == Place(clusterIdx, serverId)
      ensures fresh(server) && fresh(Nodes() - old(Nodes())) && server.View() == NEW_NODE
      ensures View() == old(View()).Put(Place(clusterIdx, serverId), NEW_NODE)
    {
      hide FSMemory.Valid, AssignmentsTied;
      server := EnterServer(clusterIdx, serverId);
      assert Tied(clusterIdx, serverId);
    }

    // ---- the lock filesystem ----

    method WriteFile(file: string, data: string) returns (st: Status)
      requires Valid()
      modifies filesys`nodes, filesys`Repr, filesys`locked, filesys.Repr
      ensures Valid() && fresh(filesys.Repr - old(filesys.Repr))
      ensures st == Write(old(View().fs), file, data, false, true).0
      ensures View() == old(View()).(fs := Write(old(View().fs), file, data, false, true).1)
    {
      st := filesys.Write(file, data, false, true);
    }

    method CreateFile(file: string) returns (st: Status)
      requires Valid()
      modifies filesys`nodes, filesys`Repr, filesys`locked, filesys.Repr
      ensures Valid() && fresh(filesys.Repr - old(filesys.Repr))
      ensures st == Create(old(View().fs), file, false, true).0
      ensures View() == old(View()).(fs := Create(old(View().fs), file, false, true).1)
    {
      st := filesys.Create(file, false, true);
    }

    method ReadFile(file: string) returns (data: string)
      requires Valid()
      modifies filesys`nodes, filesys`Repr, filesys.Repr
      ensures Valid() && fresh(filesys.Repr - old(filesys.Repr))
      ensures data == ReadOrEmpty(View().fs, file) && View() == old(View())
    {
      var r := filesys.Read(file, 0);
      data := if r.Some? then r.value else "";
    }

    method FileExists(file: string) returns (found: bool)
      requires Valid()
      modifies filesys`nodes, filesys`Repr, filesys.Repr
      ensures Valid() && fresh(filesys.Repr - old(filesys.Repr))
      ensures found == Exists(View().fs, file) && View() == old(View())
    {
      found := filesys.Exists(file);
    }

    // ---- Heartbeat ----

    /** The node of a server that is kept stands for its zNode. */
    lemma KeptIsTied(server: Node)
      requires Valid() && Kept(server)
      ensures View().Has(server.home) && View().Node(server.home) == server.View()
    {
      assert Tied(server.home.cluster, server.home.server);
    }

    lemma HomeOf(i: nat, k: int)
      requires Valid() && i < |clusters| && k in clusters[i]
      ensures clusters[i][k].home == Place(i, k) && Kept(clusters[i][k]) && clusters[i][k] in Nodes()
    {
      assert Tied(i, k);
    }

    lemma SameKeys(p: Place)
      requires Valid()
      ensures |clusters| == |nodes|
      ensures View().Has(p) <==> p.cluster < |clusters| && p.server in clusters[p.cluster]
    {
    }

    /** Finds or makes the zNode and records the heartbeat, unless it is refused. */
    method Admitted(info: ServerInfo, now: int) returns (server: Node?)
      requires Valid() && InRange(View(), info)
      modifies this`clusters, this`nodes, Nodes()
      ensures Valid() && fresh(Nodes() - old(Nodes()))
      ensures View() == Admit(old(View()), info, now).1
      ensures server == null <==> Admit(old(View()), info, now).0 == Duplicate
      ensures server != null ==> Kept(server) && server.home == PlaceOf(info)
    {
      hide SNSCoordinator.Valid, Admit, Nodes;
      var clusterIdx := info.clusterId - 1;
      SameKeys(PlaceOf(info));
      AdmitCases(View(), info, now);
      ghost var refused := Admit(View(), info, now).0 == Duplicate;
      if info.serverId in clusters[clusterIdx] {
        server := clusters[clusterIdx][info.serverId];
        HomeOf(clusterIdx, info.serverId);
        KeptIsTied(server);
        if !info.registered && server.missedHeartbeats <= 2 {
          assert refused;
          return null;
        }
        assert !refused;
        RecordHeartbeat(server, info, now);
      } else {
        assert !refused;
        server := FirstBeat(info, now);
      }
    }

    /** A server that was not known yet. */
    method FirstBeat(info: ServerInfo, now: int) returns (server: Node)
      requires Valid() && 1 <= info.clusterId <= |clusters| && info.serverId !in clusters[info.clusterId - 1]
      modifies this`clusters, this`nodes
      ensures Valid() && fresh(Nodes() - old(Nodes())) && Kept(server) && server.home == PlaceOf(info)
      ensures View() == old(View()).Put(PlaceOf(info), NEW_NODE.Updated(info, now))
    {
      hide SNSCoordinator.Valid;
      ghost var c := View();
      SameKeys(PlaceOf(info));
      server := AddServer(info.clusterId - 1, info.serverId);
      RecordHeartbeat(server, info, now);
      PutTwice(c, PlaceOf(info), NEW_NODE, NEW_NODE.Updated(info, now), c.fs);
    }

    method Heartbeat(info: ServerInfo, now: int) returns (reply: HeartbeatReply)
      requires Valid()
      modifies this`clusters, this`nodes, Nodes(), filesys`nodes, filesys`Repr, filesys`locked, filesys.Repr
      ensures Valid() && fresh(Nodes() - old(Nodes())) && fresh(filesys.Repr - old(filesys.Repr))
      ensures (reply, View()) == Registry.Heartbeat(old(View()), info, now)
    {
      hide Registry.Elect, FSMemory.Valid, AssignmentsTied;
      if info.clusterId - 1 < 0 || info.clusterId - 1 >= |clusters| {
        return InvalidCluster;
      }
      var server := Admitted(info, now);
      if server == null {
        return AlreadyExists;
      }
      assert Tied(server.home.cluster, server.home.server);
      if server.master {
        return Registered(server.path, true, "");
      }
      reply := Elect(server, info);
    }

    method Elect(server: Node, info: ServerInfo) returns (reply: HeartbeatReply)
      requires Valid() && InRange(View(), info) && Kept(server) && server.home == PlaceOf(info) && !server.master
      modifies this`nodes, server, filesys`nodes, filesys`Repr, filesys`locked, filesys.Repr
      ensures Valid() && fresh(filesys.Repr - old(filesys.Repr))
      ensures (reply, View()) == Registry.Elect(old(View()), info)
    {
      hide Registry.Elect, MasterFilepath, FlatFs.Exists, FSMemory.Valid, AssignmentsTied;
      assert Tied(server.home.cluster, server.home.server);
      var masterFilepath := MasterFilepath(info.clusterId);
      var masterExists := FileExists(masterFilepath);
      if masterExists {
        reply := BecomeSlave(server, info, masterFilepath);
      } else {
        reply := BecomeMaster(server, info, masterFilepath);
      }
    }

    method BecomeSlave(server: Node, info: ServerInfo, masterFilepath: string) returns (reply: HeartbeatReply)
      requires Valid() && InRange(View(), info) && Kept(server) && server.home == PlaceOf(info) && !server.master
      requires View().Has(server.home) && masterFilepath == MasterFilepath(info.clusterId)
      requires Exists(View().fs, masterFilepath)
      modifies this`nodes, server, filesys`nodes, filesys`Repr, filesys`locked, filesys.Repr
      ensures Valid() && fresh(filesys.Repr - old(filesys.Repr))
      ensures (reply, View()) == Registry.Elect(old(View()), info)
    {
      hide FlatFs.Write, ReadOrEmpty, MasterFilepath, SlaveFilepath, SNSCoordinator.Valid;
      KeptIsTied(server);
      var rawPath := SlaveFilepath(info.clusterId, info.serverId);
      var st := WriteFile(rawPath, server.hostname + ":" + server.port);
      if !Returns(st) {
        return Hung;
      }
      var syncAddress := ReadFile(masterFilepath);
      RecordPath(server, rawPath, false);
      reply := Registered(rawPath, false, syncAddress);
    }

    method BecomeMaster(server: Node, info: ServerInfo, masterFilepath: string) returns (reply: HeartbeatReply)
      requires Valid() && InRange(View(), info) && Kept(server) && server.home == PlaceOf(info) && !server.master
      requires View().Has(server.home) && masterFilepath == MasterFilepath(info.clusterId)
      requires !Exists(View().fs, masterFilepath)
      modifies this`nodes, server, filesys`nodes, filesys`Repr, filesys`locked, filesys.Repr
      ensures Valid() && fresh(filesys.Repr - old(filesys.Repr))
      ensures (reply, View()) == Registry.Elect(old(View()), info)
    {
      hide FlatFs.Create, FlatFs.Write, ReadOrEmpty, MasterFilepath, SNSCoordinator.Valid;
      KeptIsTied(server);
      var st := CreateFile(masterFilepath);
      if !Returns(st) {
        return Hung;
      }
      if st == Failed {
        reply := LoseElection(server, masterFilepath);
        return;
      }
      reply := FinishElection(server, info, masterFilepath);
    }

    /** The master lock appeared between the two calls: the path stays empty. */
    method LoseElection(server: Node, masterFilepath: string) returns (reply: HeartbeatReply)
      requires Valid() && Kept(server) && !server.master
      modifies this`nodes, server, filesys`nodes, filesys`Repr, filesys.Repr
      ensures Valid() && fresh(filesys.Repr - old(filesys.Repr))
      ensures reply == Registered("", false, ReadOrEmpty(old(View().fs), masterFilepath))
      ensures View() == old(View()).Put(server.home, old(server.View()).(path := ""))
    {
      var syncAddress := ReadFile(masterFilepath);
      RecordPath(server, "", false);
      reply := Registered("", false, syncAddress);
    }

    /** The winner writes its address, looks for another master to sync from and
        takes the title. */
    method FinishElection(server: Node, info: ServerInfo, masterFilepath: string) returns (reply: HeartbeatReply)
      requires Valid() && InRange(View(), info) && Kept(server) && server.home == PlaceOf(info) && !server.master
      modifies this`nodes, server, filesys`nodes, filesys`Repr, filesys`locked, filesys.Repr
      ensures Valid() && fresh(filesys.Repr - old(filesys.Repr))
      ensures var c, z := old(View()), old(server.View());
              var (st, fs) := Write(c.fs, masterFilepath, z.Address(), false, true);
              if !Returns(st) then reply == Hung && View() == c.(fs := fs)
              else reply == Registered(masterFilepath, true, SyncForMaster(c, info))
                   && View() == c.(fs := fs).Put(server.home, z.(path := masterFilepath, master := true))
    {
      hide FlatFs.Write, SyncForMaster, FSMemory.Valid, AssignmentsTied;
      var st := WriteFile(masterFilepath, server.hostname + ":" + server.port);
      if !Returns(st) {
        return Hung;
      }
      SyncIgnoresLocks(old(View()), View().fs, info);
      reply := TakeTitle(server, info, masterFilepath);
    }

    method TakeTitle(server: Node, info: ServerInfo, masterFilepath: string) returns (reply: HeartbeatReply)
      requires Valid() && InRange(View(), info) && Kept(server)
      modifies this`nodes, server
      ensures Valid()
      ensures reply == Registered(masterFilepath, true, SyncForMaster(old(View()), info))
      ensures View() == old(View()).Put(server.home, old(server.View()).(path := masterFilepath, master := true))
    {
      hide SyncForMaster, FSMemory.Valid, AssignmentsTied;
      var syncAddress := SyncAddress(info);
      RecordPath(server, masterFilepath, true);
      reply := Registered(masterFilepath, true, syncAddress);
    }

    method SyncAddress(info: ServerInfo) returns (address: string)
      requires Valid() && InRange(View(), info)
      ensures address == SyncForMaster(View(), info)
    {
      address := "";
      if info.registered {
        return;
      }
      var other := GetFirstAvailableClusterMaster(info.clusterId - 1);
      if other != null {
        assert Tied(other.home.cluster, other.home.server);
        address := other.hostname + ":" + other.port;
      }
    }

    // ---- searching for masters ----

    /** The inner loop over one cluster in key order, ended by the first master. */
    method ClusterMaster(i: nat) returns (server: Node?)
      requires ClustersTied() && i < |clusters|
      ensures match MasterOf(nodes[i])
              case None => server == null
              case Some(k) => k in clusters[i] && server == clusters[i][k] && Kept(server)
    {
      var ks := Ascending(clusters[i].Keys);
      server := null;
      var j := 0;
      while j < |ks|
        invariant j <= |ks|
        invariant FirstMaster(nodes[i], ks[j..]) == MasterOf(nodes[i])
      {
        assert ks[j] in ks && Tied(i, ks[j]);
        if clusters[i][ks[j]].master {
          return clusters[i][ks[j]];
        }
        j := j + 1;
      }
    }

    method GetFirstAvailableClusterMaster(clusterIdx: int) returns (server: Node?)
      requires ClustersTied()
      ensures match FirstOtherMaster(nodes, clusterIdx, 0)
              case None => server == null
              case Some(p) => server != null && Kept(server) && server.home == p
    {
      server := null;
      var i := 0;
      while i < |clusters|
        invariant i <= |clusters|
        invariant FirstOtherMaster(nodes, clusterIdx, i) == FirstOtherMaster(nodes, clusterIdx, 0)
      {
        if i != clusterIdx {
          server := ClusterMaster(i);
          if server != null {
            assert Tied(i, MasterOf(nodes[i]).value);
            return;
          }
        }
        i := i + 1;
      }
      server := null;
    }

    // ---- checkHeartbeats ----

    method SetMisses(node: Node, missed: nat, master: bool)
      requires ClustersTied() && Kept(node)
      modifies node, this`nodes
      ensures ClustersTied()
      ensures nodes == old(NodesWith(node.home, node.View().(missed := missed, master := master)))
    {
      node.missedHeartbeats := missed;
      node.master := master;
      nodes := NodesWith(node.home, node.View());
    }

    method RecordMiss(node: Node, master: bool)
      requires Valid() && Kept(node)
      modifies node, this`nodes
      ensures Valid()
      ensures var z := old(node.View());
              View() == old(View()).Put(node.home, z.(missed := z.missed + 1, master := master))
    {
      hide FSMemory.Valid;
      SetMisses(node, node.missedHeartbeats + 1, master);
    }

    method RemoveFile(file: string)
      requires Valid()
      modifies filesys`nodes, filesys`Repr, filesys`locked, filesys.Repr
      ensures Valid() && fresh(filesys.Repr - old(filesys.Repr))
      ensures View() == old(View()).(fs := Remove(old(View().fs), file).1)
    {
      var _ := filesys.Remove(file);
    }

    /** The body of the sweep for one server. */
    method CheckServer(i: nat, k: int, now: int)
      requires Valid() && i < |clusters| && k in clusters[i]
      modifies this`nodes, clusters[i][k], filesys`nodes, filesys`Repr, filesys`locked, filesys.Repr
      ensures Valid() && fresh(filesys.Repr - old(filesys.Repr))
      ensures View() == SweepServer(old(View()), Place(i, k), now)
    {
      hide FlatFs.Remove, FSMemory.Valid, AssignmentsTied;
      var server := clusters[i][k];
      assert Tied(i, k);
      if now - server.lastHeartbeat > MAX_HEARTBEAT_DELAY {
        if server.missedHeartbeats + 1 == 2 {
          RecordMiss(server, false);
          RemoveFile(server.path);
        } else {
          RecordMiss(server, server.master);
        }
      }
    }

    method CheckCluster(i: nat, now: int)
      requires Valid() && i < |clusters|
      modifies this`nodes, Nodes(), filesys`nodes, filesys`Repr, filesys`locked, filesys.Repr
      ensures Valid() && fresh(filesys.Repr - old(filesys.Repr))
      ensures View() == SweepServers(old(View()), i, Ascending(old(View().clusters[i]).Keys), now)
    {
      hide FSMemory.Valid, AssignmentsTied, SweepServers;
      CheckServers(i, Ascending(clusters[i].Keys), now);
    }

    /** The inner loop, over the keys of one cluster in order. */
    method CheckServers(i: nat, ks: seq<int>, now: int)
      requires Valid() && KeysIn(View(), i, ks)
      modifies this`nodes, Nodes(), filesys`nodes, filesys`Repr, filesys`locked, filesys.Repr
      ensures Valid() && fresh(filesys.Repr - old(filesys.Repr))
      ensures View() == SweepServers(old(View()), i, ks, now)
    {
      hide FSMemory.Valid, ClustersTied, AssignmentsTied, SweepServers, Nodes, View;
      var j := 0;
      assert ks[0..] == ks;
      while j < |ks|
        invariant j <= |ks| && Valid() && fresh(filesys.Repr - old(filesys.Repr))
        invariant KeysIn(View(), i, ks)
        invariant SweepServers(View(), i, ks[j..], now) == SweepServers(old(View()), i, ks, now)
      {
        CheckNext(i, ks, j, now);
        j := j + 1;
      }
      assert ks[j..] == [];
      SweepServersDone(View(), i, now);
    }

    method CheckNext(i: nat, ks: seq<int>, j: nat, now: int)
      requires Valid() && j < |ks| && KeysIn(View(), i, ks)
      modifies this`nodes, Nodes(), filesys`nodes, filesys`Repr, filesys`locked, filesys.Repr
      ensures Valid() && fresh(filesys.Repr - old(filesys.Repr))
      ensures KeysIn(View(), i, ks)
      ensures SweepServers(View(), i, ks[j + 1..], now) == SweepServers(old(View()), i, ks[j..], now)
    {
      hide SweepServers, SweepServer, FSMemory.Valid, AssignmentsTied;
      assert ks[j] in ks && Tied(i, ks[j]);
      CheckServer(i, ks[j], now);
      SweepServersStep(old(View()), View(), i, ks, j, now);
    }

    /** One pass of `checkHeartbeats`. */
    method CheckHeartbeats(now: int)
      requires Valid()
      modifies this`nodes, Nodes(), filesys`nodes, filesys`Repr, filesys`locked, filesys.Repr
      ensures Valid() && fresh(filesys.Repr - old(filesys.Repr))
      ensures View() == Sweep(old(View()), now)
    {
      hide SweepServers, SweepFrom, SNSCoordinator.Valid;
      SameKeys(Place(0, 0));
      var i := 0;
      while i < |clusters|
        invariant i <= |clusters| == |nodes| && Valid() && fresh(filesys.Repr - old(filesys.Repr))
        invariant SweepFrom(View(), i, now) == SweepFrom(old(View()), 0, now)
      {
        ghost var c := View();
        CheckCluster(i, now);
        SweepFromStep(c, View(), i, now);
        SameKeys(Place(0, 0));
        i := i + 1;
      }
      SweepFromDone(View(), now);
    }

    // ---- servers for replication ----

    method GetCounterparts(masterInfo: ServerInfo) returns (slaveList: seq<Node>)
      requires ClustersTied() && 1 <= masterInfo.clusterId <= |clusters|
      ensures Listed(slaveList, Counterparts(View(), PlaceOf(masterInfo)))
    {
      var i := masterInfo.clusterId - 1;
      var ks := Ascending(clusters[i].Keys);
      slaveList := [];
      ghost var found: seq<int> := [];
      var j := 0;
      while j < |ks|
        invariant j <= |ks|
        invariant found == ActiveOthers(nodes[i], masterInfo.serverId, ks[..j])
        invariant |found| == |slaveList|
        invariant forall m | 0 <= m < |found| :: Kept(slaveList[m]) && slaveList[m].home == Place(i, found[m])
      {
        assert ks[j] in ks && Tied(i, ks[j]);
        assert ks[..j + 1][..j] == ks[..j];
        var server := clusters[i][ks[j]];
        if masterInfo.serverId != ks[j] && server.missedHeartbeats <= 2 {
          slaveList, found := slaveList + [server], found + [ks[j]];
        }
        j := j + 1;
      }
      assert ks[..|ks|] == ks;
    }

    /** The nodes of a list are the ones kept at these places, in this order. */
    ghost predicate Listed(list: seq<Node>, at: seq<Place>)
      reads this`clusters
    {
      |list| == |at| && forall m | 0 <= m < |list| :: Kept(list[m]) && list[m].home == at[m]
    }

    method GetOtherClusterMasters(masterInfo: ServerInfo) returns (list: seq<Node>)
      requires ClustersTied()
      ensures Listed(list, OtherMastersUpTo(View().clusters, masterInfo.clusterId - 1, |View().clusters|))
    {
      hide MasterOf;
      var clusterIdx := masterInfo.clusterId - 1;
      list := [];
      var i: nat := 0;
      while i < |clusters|
        invariant i <= |clusters|
        invariant Listed(list, OtherMastersUpTo(nodes, clusterIdx, i))
      {
        if i != clusterIdx {
          var server := ClusterMaster(i);
          if server != null {
            assert Tied(i, MasterOf(nodes[i]).value);
            ListedMore(list, OtherMastersUpTo(nodes, clusterIdx, i), server, server.home);
            list := list + [server];
          }
        }
        i := i + 1;
      }
    }

    lemma ListedMore(list: seq<Node>, at: seq<Place>, server: Node, p: Place)
      requires Listed(list, at) && Kept(server) && server.home == p
      ensures Listed(list + [server], at + [p])
    {
    }

    // ---- clients ----

    method GetUniqueClientID() returns (rawId: int)
      requires Valid()
      modifies this`clientAssignments, this`places
      ensures Valid() && (rawId, View()) == Registry.GetUniqueClientID(old(View()))
    {
      hide FSMemory.Valid;
      rawId := ClientCount();
      EnterClient(rawId);
    }

    method ClientCount() returns (count: int)
      requires AssignmentsTied()
      ensures count == |places|
    {
      SameSize(clientAssignments, places);
      count := |clientAssignments|;
    }

    /** The id is entered without a server. */
    method EnterClient(rawId: int)
      requires AssignmentsTied()
      modifies this`clientAssignments, this`places
      ensures AssignmentsTied() && places == old(places)[rawId := None]
    {
      clientAssignments := clientAssignments[rawId := null];
      places := places[rawId := None];
    }

    method GetActiveMaster(clientId: nat) returns (server: Node?)
      requires ClustersTied() && |clusters| > 0
      ensures match RingSearch(nodes, clientId % |nodes|, |nodes|)
              case None => server == null
              case Some(p) => server != null && Kept(server) && server.home == p
    {
      var numClusters := |clusters|;
      var clusterIdx: nat := clientId % numClusters;
      var remainingClusters: nat := numClusters;
      while remainingClusters > 0
        invariant clusterIdx < numClusters
        invariant RingSearch(nodes, clusterIdx, remainingClusters) ==
                  RingSearch(nodes, clientId % numClusters, numClusters)
      {
        server := ClusterMaster(clusterIdx);
        if server != null {
          assert Tied(clusterIdx, MasterOf(nodes[clusterIdx]).value);
          return;
        }
        clusterIdx := (clusterIdx + 1) % numClusters;
        remainingClusters := remainingClusters - 1;
      }
      server := null;
    }

    /** `null` stands for the UNAVAILABLE status. */
    method GetServer(rawId: nat) returns (server: Node?, changed: bool)
      requires Valid() && |clusters| > 0
      modifies this`clientAssignments, this`places
      ensures Valid() && View() == Registry.GetServer(old(View()), rawId).1
      ensures match Registry.GetServer(old(View()), rawId).0
              case Unavailable => server == null
              case Assigned(p, ch) => server != null && Kept(server) && server.home == p && changed == ch
    {
      hide FSMemory.Valid;
      ghost var m := View().assignments;
      server := LookUp(rawId);
      changed := false;
      if server != null {
        assert Tied(server.home.cluster, server.home.server);
        if server.master {
          return;
        }
      }
      server := FindAndAssign(rawId);
      changed := server != null;
      if server != null {
        EnterTwice(m, rawId, if rawId in m then m[rawId] else None, Some(server.home));
      }
    }

    method FindAndAssign(rawId: nat) returns (server: Node?)
      requires Valid() && |clusters| > 0
      modifies this`clientAssignments, this`places
      ensures Valid()
      ensures match RingSearch(nodes, rawId % |nodes|, |nodes|)
              case None => server == null && View() == old(View())
              case Some(p) =>
                && server != null && Kept(server) && server.home == p
                && View() == old(View()).(assignments := old(View().assignments)[rawId := Some(p)])
    {
      hide FSMemory.Valid;
      server := GetActiveMaster(rawId);
      if server != null {
        Assign(rawId, server);
      }
    }

    /** `clientAssignments[rawId]`: a missing key is entered. */
    method LookUp(rawId: int) returns (server: Node?)
      requires Valid()
      modifies this`clientAssignments, this`places
      ensures Valid()
      ensures var m := old(View().assignments);
              && View() == old(View()).(assignments := m[rawId := if rawId in m then m[rawId] else None])
              && (rawId in m ==> View() == old(View()))
              && (server == null <==> !(rawId in m && m[rawId].Some?))
              && (server != null ==> Kept(server) && m[rawId] == Some(server.home))
    {
      hide FSMemory.Valid;
      if rawId !in clientAssignments {
        clientAssignments := clientAssignments[rawId := null];
        places := places[rawId := None];
      } else {
        assert places[rawId := places[rawId]] == places;
      }
      server := clientAssignments[rawId];
    }

    method Assign(rawId: int, server: Node)
      requires Valid() && Kept(server)
      modifies this`clientAssignments, this`places
      ensures Valid() && View() == old(View()).(assignments := old(View().assignments)[rawId := Some(server.home)])
    {
      hide FSMemory.Valid;
      clientAssignments := clientAssignments[rawId := server];
      places := places[rawId := Some(server.home)];
    }
  }

  lemma EnterTwice<T>(m: map<int, T>, id: int, u: T, v: T)
    ensures m[id := u][id := v] == m[id := v]
  {
  }
}
