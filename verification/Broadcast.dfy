/** server/src/SNSServer.cpp, `propogate` and `propogateHelper`: how a request
    spreads over the servers, by the lists the coordinator hands out. */
module Broadcast {
  import opened Text
  import opened OrderedMaps
  import opened Registry
  import opened ElectionSafety
  import opened Social

  // ---- the coordinator's lists ----

  predicate Active(c: Coord, q: Place)
  {
    c.Has(q) && c.Node(q).IsActive()
  }

  lemma {:induction false} ActiveOthersAre(cluster: Cluster, self: int, ks: seq<int>)
    ensures forall k :: k in ActiveOthers(cluster, self, ks) <==>
                          k in ks && k in cluster && k != self && cluster[k].IsActive()
    ensures Increasing(ks) ==> Increasing(ActiveOthers(cluster, self, ks))
    decreases |ks|
  {
    if ks != [] {
      var n := |ks| - 1;
      ActiveOthersAre(cluster, self, ks[..n]);
      assert ks == ks[..n] + [ks[n]];
      if Increasing(ks) {
        var front := ActiveOthers(cluster, self, ks[..n]);
        assert Increasing(ks[..n]);
        forall i | 0 <= i < |front| ensures front[i] < ks[n] {
          assert front[i] in front;
        }
      }
    }
  }

  /** `GetCounterparts` names every other active server of the cluster, once. */
  lemma CounterpartsAre(c: Coord, p: Place)
    requires p.cluster < |c.clusters|
    ensures forall q :: q in Counterparts(c, p) <==> q != p && q.cluster == p.cluster && Active(c, q)
    ensures NoDup(Counterparts(c, p)) && Have(c, Counterparts(c, p))
  {
    var cluster := c.clusters[p.cluster];
    AscendingIncreases(cluster.Keys);
    ActiveOthersAre(cluster, p.server, Ascending(cluster.Keys));
    var ks := ActiveOthers(cluster, p.server, Ascending(cluster.Keys));
    forall q ensures q in Counterparts(c, p) <==> q != p && q.cluster == p.cluster && Active(c, q) {
      if q.server in ks && q.cluster == p.cluster {
        var i :| 0 <= i < |ks| && ks[i] == q.server;
        assert Counterparts(c, p)[i] == q;
      }
    }
  }

  /** They come in ascending order of server id, ... */
  lemma {:induction false} CounterpartsAscend(c: Coord, p: Place)
    requires p.cluster < |c.clusters|
    ensures forall i, j | 0 <= i < j < |Counterparts(c, p)| ::
              Counterparts(c, p)[i].server < Counterparts(c, p)[j].server
  {
    var cluster := c.clusters[p.cluster];
    AscendingIncreases(cluster.Keys);
    ActiveOthersAre(cluster, p.server, Ascending(cluster.Keys));
  }

  ghost predicate InClusterOrder(ps: seq<Place>, n: nat)
  {
    && (forall i, j | 0 <= i < j < |ps| :: ps[i].cluster < ps[j].cluster)
    && (forall i | 0 <= i < |ps| :: ps[i].cluster < n)
  }

  /** ... and the other masters in ascending order of cluster id. */
  lemma {:induction false} OtherMastersAscend(clusters: seq<Cluster>, skip: int, n: nat)
    requires n <= |clusters|
    ensures InClusterOrder(OtherMastersUpTo(clusters, skip, n), n)
    decreases n
  {
    hide MasterOf;
    if n > 0 {
      OtherMastersAscend(clusters, skip, n - 1);
      OneMoreInOrder(OtherMastersUpTo(clusters, skip, n - 1), n - 1, MasterOf(clusters[n - 1]));
    }
  }

  lemma OneMoreInOrder(ps: seq<Place>, n: nat, k: Option<int>)
    requires InClusterOrder(ps, n)
    ensures InClusterOrder(ps, n + 1) && (k.Some? ==> InClusterOrder(ps + [Place(n, k.value)], n + 1))
  {
  }

  // ---- spreading ----

  predicate Have(c: Coord, ps: seq<Place>)
  {
    forall q | q in ps :: c.Has(q)
  }

  /** Where a server sends a request on: nowhere unless it believes it is master,
      and to other clusters only what came from a client. */
  function Forwards(c: Coord, believes: set<Place>, p: Place, fromServer: bool): (ps: seq<Place>)
    requires c.Has(p)
    ensures Have(c, ps)
  {
    if p !in believes then []
    else
      CounterpartsAre(c, p);
      OtherMastersHave(c, p.cluster, |c.clusters|);
      if fromServer then Counterparts(c, p) else Counterparts(c, p) + OtherMasters(c, p)
  }

  predicate IsMasterOf(c: Coord, q: Place)
  {
    q.cluster < |c.clusters| && MasterOf(c.clusters[q.cluster]) == Some(q.server)
  }

  lemma {:induction false} OtherMastersHave(c: Coord, skip: int, n: nat)
    requires n <= |c.clusters|
    ensures Have(c, OtherMastersUpTo(c.clusters, skip, n))
    decreases n
  {
    hide MasterOf;
    if n > 0 {
      OtherMastersHave(c, skip, n - 1);
      var front, k := OtherMastersUpTo(c.clusters, skip, n - 1), MasterOf(c.clusters[n - 1]);
      assert k.Some? ==> c.Has(Place(n - 1, k.value));
    }
  }

  /** The same list from the masters alone. */
  function ListOf(masters: seq<Option<int>>, skip: int, n: nat): seq<Place>
    requires n <= |masters|
  {
    if n == 0 then []
    else
      var front := ListOf(masters, skip, n - 1);
      if n - 1 != skip && masters[n - 1].Some? then front + [Place(n - 1, masters[n - 1].value)] else front
  }

  lemma {:induction false} ListOfIs(masters: seq<Option<int>>, skip: int, n: nat)
    requires n <= |masters|
    ensures NoDup(ListOf(masters, skip, n))
    ensures forall q :: q in ListOf(masters, skip, n) <==>
                          q.cluster < n && q.cluster != skip && masters[q.cluster] == Some(q.server)
    decreases n
  {
    if n > 0 {
      ListOfIs(masters, skip, n - 1);
      var front := ListOf(masters, skip, n - 1);
      if n - 1 != skip && masters[n - 1].Some? {
        NoDupAppend(front, Place(n - 1, masters[n - 1].value));
      }
    }
  }

  lemma {:induction false} OtherMastersAreListed(clusters: seq<Cluster>, masters: seq<Option<int>>, skip: int, n: nat)
    requires n <= |clusters| == |masters| && forall i | 0 <= i < |clusters| :: masters[i] == MasterOf(clusters[i])
    ensures OtherMastersUpTo(clusters, skip, n) == ListOf(masters, skip, n)
    decreases n
  {
    hide MasterOf;
    if n > 0 {
      OtherMastersAreListed(clusters, masters, skip, n - 1);
      assert masters[n - 1] == MasterOf(clusters[n - 1]);
    }
  }

  /** `GetOtherClusterMasters` names the first master of every other cluster, once. */
  lemma OtherMastersAre(c: Coord, skip: int)
    ensures var ps := OtherMastersUpTo(c.clusters, skip, |c.clusters|);
            NoDup(ps) && Have(c, ps) && forall q :: q in ps <==> q.cluster != skip && IsMasterOf(c, q)
  {
    var masters := seq(|c.clusters|, i requires 0 <= i < |c.clusters| => MasterOf(c.clusters[i]));
    OtherMastersAreListed(c.clusters, masters, skip, |c.clusters|);
    ListOfIs(masters, skip, |c.clusters|);
    OtherMastersHave(c, skip, |c.clusters|);
  }

  /** The servers that apply a request arriving at `p`, in order; `None` if the
      calls are nested deeper than `depth`. */
  function Spread(c: Coord, believes: set<Place>, depth: nat, p: Place, fromServer: bool): Option<seq<Place>>
    requires c.Has(p)
    decreases depth, 0, 0
  {
    if depth == 0 then None
    else
      match SpreadEach(c, believes, depth - 1, Forwards(c, believes, p, fromServer))
      case Some(ds) => Some([p] + ds)
      case None => None
  }

  function SpreadEach(c: Coord, believes: set<Place>, depth: nat, ps: seq<Place>): Option<seq<Place>>
    requires Have(c, ps)
    decreases depth, 1, |ps|
  {
    if ps == [] then Some([])
    else
      match (SpreadEach(c, believes, depth, ps[..|ps| - 1]), Spread(c, believes, depth, ps[|ps| - 1], true))
      case (Some(ds), Some(es)) => Some(ds + es)
      case _ => None
  }

  // ---- what `propogate` names ----

  datatype Destination = COUNTERPARTS | OTHER_MASTERS

  /** The lists of servers that a server asks the coordinator for. */
  function Destinations(master: bool, fromServer: bool): seq<Destination>
  {
    if !master then [] else if fromServer then [COUNTERPARTS] else [COUNTERPARTS, OTHER_MASTERS]
  }

  /** The coordinator's answer to one of these requests. */
  function Answer(c: Coord, p: Place, d: Destination): seq<Place>
    requires c.Has(p)
  {
    match d
    case COUNTERPARTS => Counterparts(c, p)
    case OTHER_MASTERS => OtherMasters(c, p)
  }

  function Answers(c: Coord, p: Place, ds: seq<Destination>): seq<Place>
    requires c.Has(p)
  {
    if ds == [] then [] else Answers(c, p, ds[..|ds| - 1]) + Answer(c, p, ds[|ds| - 1])
  }

  /** The servers called are those in the coordinator's answers, in order. */
  lemma ForwardsAreAnswers(c: Coord, believes: set<Place>, p: Place, fromServer: bool)
    requires c.Has(p)
    ensures Forwards(c, believes, p, fromServer) == Answers(c, p, Destinations(p in believes, fromServer))
  {
    var counterparts, both := [COUNTERPARTS], [COUNTERPARTS, OTHER_MASTERS];
    assert counterparts[..0] == [] && both[..1] == counterparts;
    assert Answers(c, p, []) == [];
    assert [] + Counterparts(c, p) == Counterparts(c, p);
    assert Answers(c, p, counterparts) == Counterparts(c, p);
    assert Answers(c, p, both) == Counterparts(c, p) + OtherMasters(c, p);
  }

  // ---- when the calls end ----

  /** Two active servers of one cluster that both believe they are its master. */
  predicate Rivals(c: Coord, believes: set<Place>, q: Place, r: Place)
  {
    q != r && q.cluster == r.cluster && Active(c, q) && Active(c, r) && q in believes && r in believes
  }

  ghost predicate Contested(c: Coord, believes: set<Place>, i: nat)
  {
    exists q, r :: Rivals(c, believes, q, r) && q.cluster == i
  }

  lemma {:induction false} EachNeedsAll(c: Coord, believes: set<Place>, depth: nat, ps: seq<Place>)
    requires Have(c, ps)
    ensures SpreadEach(c, believes, depth, ps).Some? <==>
              forall q | q in ps :: Spread(c, believes, depth, q, true).Some?
    decreases |ps|
  {
    if ps != [] {
      var n := |ps| - 1;
      assert ps == ps[..n] + [ps[n]];
      assert forall q | q in ps[..n] :: q in ps;
      EachNeedsAll(c, believes, depth, ps[..n]);
      assert (forall q | q in ps :: Spread(c, believes, depth, q, true).Some?) <==>
             (forall q | q in ps[..n] :: Spread(c, believes, depth, q, true).Some?)
             && Spread(c, believes, depth, ps[n], true).Some?;
    }
  }

  /** Rivals send a request to and fro for ever. */
  lemma {:induction false} RivalsLoop(c: Coord, believes: set<Place>, depth: nat, q: Place, r: Place)
    requires Rivals(c, believes, q, r)
    ensures Spread(c, believes, depth, q, true).None?
    decreases depth
  {
    hide SpreadEach, Forwards, MasterOf;
    if depth > 0 {
      RivalsLoop(c, believes, depth - 1, r, q);
      ForwardsTo(c, believes, q, true, r);
      EachNeedsAll(c, believes, depth - 1, Forwards(c, believes, q, true));
    }
  }

  /** A believer forwards to the other active servers of its cluster. */
  lemma ForwardsTo(c: Coord, believes: set<Place>, p: Place, fromServer: bool, r: Place)
    requires c.Has(p) && p in believes && Active(c, r) && r.cluster == p.cluster && r != p
    ensures r in Forwards(c, believes, p, fromServer)
  {
    hide MasterOf, OtherMasters;
    CounterpartsAre(c, p);
  }

  lemma ContestedLoops(c: Coord, believes: set<Place>, depth: nat, p: Place, fromServer: bool)
    requires c.Has(p) && p in believes && Contested(c, believes, p.cluster)
    ensures Spread(c, believes, depth, p, fromServer).None?
  {
    hide SpreadEach, Forwards;
    if depth > 0 {
      var q, r :| Rivals(c, believes, q, r) && q.cluster == p.cluster;
      RivalsLoop(c, believes, depth - 1, q, r);
      RivalsLoop(c, believes, depth - 1, r, q);
      ForwardsTo(c, believes, p, fromServer, if q != p then q else r);
      EachNeedsAll(c, believes, depth - 1, Forwards(c, believes, p, fromServer));
    }
  }

  lemma QuietServer(c: Coord, believes: set<Place>, depth: nat, p: Place, fromServer: bool)
    requires c.Has(p) && depth >= 1 && p !in believes
    ensures Spread(c, believes, depth, p, fromServer) == Some([p])
  {
    assert [p] + [] == [p];
  }

  /** Without rivals a server's call ends within three levels. */
  lemma UncontestedEnds(c: Coord, believes: set<Place>, depth: nat, p: Place)
    requires c.Has(p) && (p !in believes || !Contested(c, believes, p.cluster))
    requires depth >= 3 || (depth >= 2 && Active(c, p))
    ensures Spread(c, believes, depth, p, true).Some?
    decreases depth
  {
    hide SpreadEach;
    if p !in believes {
      QuietServer(c, believes, depth, p, true);
    } else {
      CounterpartsAre(c, p);
      var ps := Forwards(c, believes, p, true);
      forall q | q in ps ensures Spread(c, believes, depth - 1, q, true).Some? {
        if q !in believes {
          QuietServer(c, believes, depth - 1, q, true);
        } else {
          assert Active(c, p) ==> Rivals(c, believes, p, q);
          UncontestedEnds(c, believes, depth - 1, q);
        }
      }
      EachNeedsAll(c, believes, depth - 1, ps);
    }
  }

  /** No cluster that gets to forward a client's request at `p` has two active
      servers that believe they are master. */
  ghost predicate Uncontested(c: Coord, believes: set<Place>, p: Place)
  {
    p in believes ==>
      && !Contested(c, believes, p.cluster)
      && forall m | m in OtherMasters(c, p) && m in believes :: !Contested(c, believes, m.cluster)
  }

  lemma {:induction false} UncontestedSpreads(c: Coord, believes: set<Place>, p: Place)
    requires c.Has(p) && Uncontested(c, believes, p)
    ensures Spread(c, believes, 4, p, false).Some?
  {
    if p !in believes {
      QuietServer(c, believes, 4, p, false);
    } else {
      CounterpartsAre(c, p);
      var ps := Forwards(c, believes, p, false);
      forall q | q in ps ensures Spread(c, believes, 3, q, true).Some? {
        UncontestedEnds(c, believes, 3, q);
      }
      EachNeedsAll(c, believes, 3, ps);
    }
  }

  lemma {:induction false} ContestedNeverEnds(c: Coord, believes: set<Place>, depth: nat, p: Place)
    requires c.Has(p) && !Uncontested(c, believes, p)
    ensures Spread(c, believes, depth, p, false).None?
  {
    hide MasterOf;
    if Contested(c, believes, p.cluster) {
      ContestedLoops(c, believes, depth, p, false);
    } else if depth > 0 {
      var m :| m in OtherMasters(c, p) && m in believes && Contested(c, believes, m.cluster);
      var ps := Forwards(c, believes, p, false);
      assert m in ps;
      ContestedLoops(c, believes, depth - 1, m, true);
      EachNeedsAll(c, believes, depth - 1, ps);
    }
  }

  /** A client's request stops spreading exactly if it is uncontested. */
  lemma BroadcastEndsIff(c: Coord, believes: set<Place>, p: Place)
    requires c.Has(p)
    ensures (exists depth: nat :: Spread(c, believes, depth, p, false).Some?) <==> Uncontested(c, believes, p)
  {
    if Uncontested(c, believes, p) {
      UncontestedSpreads(c, believes, p);
    } else {
      forall depth: nat ensures Spread(c, believes, depth, p, false).None? {
        ContestedNeverEnds(c, believes, depth, p);
      }
    }
  }

  // ---- each server once ----

  /** The coordinator's masters are active, know it, and are one per cluster. */
  ghost predicate Titled(c: Coord, believes: set<Place>)
  {
    && (forall m | IsMaster(c, m) :: Active(c, m) && m in believes)
    && (forall i | 0 <= i < |c.clusters| :: OneMaster(c.clusters[i]))
  }

  /** A believer without a rival. */
  ghost predicate Unrivalled(c: Coord, believes: set<Place>, p: Place)
  {
    Active(c, p) && p in believes && !Contested(c, believes, p.cluster)
  }

  /** Where a request of a client at `p` gets: from a believer to the active
      servers of its own cluster, and of every other cluster that has a master. */
  predicate Reached(c: Coord, believes: set<Place>, p: Place, q: Place)
  {
    q == p
    || (p in believes && Active(c, q) && (q.cluster == p.cluster || MasterOf(c.clusters[q.cluster]).Some?))
  }

  /** What a master adds to a request from another server: itself and its counterparts. */
  function Group(c: Coord, p: Place): seq<Place>
    requires p.cluster < |c.clusters|
  {
    [p] + Counterparts(c, p)
  }

  lemma OneMore(c: Coord, believes: set<Place>, depth: nat, ps: seq<Place>, q: Place)
    requires Have(c, ps) && c.Has(q) && Have(c, ps + [q])
    requires SpreadEach(c, believes, depth, ps).Some? && Spread(c, believes, depth, q, true).Some?
    ensures SpreadEach(c, believes, depth, ps + [q]) ==
            Some(SpreadEach(c, believes, depth, ps).value + Spread(c, believes, depth, q, true).value)
  {
    assert (ps + [q])[..|ps|] == ps && (ps + [q])[|ps|] == q;
  }

  lemma {:induction false} SlavesOnly(c: Coord, believes: set<Place>, depth: nat, ps: seq<Place>)
    requires depth >= 1 && Have(c, ps) && forall q | q in ps :: q !in believes
    ensures SpreadEach(c, believes, depth, ps) == Some(ps)
    decreases |ps|
  {
    if ps != [] {
      var n := |ps| - 1;
      assert ps == ps[..n] + [ps[n]];
      assert forall q | q in ps[..n] :: q in ps;
      SlavesOnly(c, believes, depth, ps[..n]);
      assert ps[n] in ps;
      QuietServer(c, believes, depth, ps[n], true);
      OneMore(c, believes, depth, ps[..n], ps[n]);
    }
  }

  lemma CounterpartsAreSlaves(c: Coord, believes: set<Place>, p: Place)
    requires Unrivalled(c, believes, p)
    ensures Have(c, Counterparts(c, p)) && forall q | q in Counterparts(c, p) :: q !in believes
  {
    CounterpartsAre(c, p);
    assert forall q | q in Counterparts(c, p) && q in believes :: Rivals(c, believes, p, q);
  }

  lemma {:induction false} MasterHop(c: Coord, believes: set<Place>, p: Place)
    requires Unrivalled(c, believes, p)
    ensures Spread(c, believes, 2, p, true) == Some(Group(c, p))
  {
    CounterpartsAreSlaves(c, believes, p);
    SlavesOnly(c, believes, 1, Counterparts(c, p));
  }

  function Groups(c: Coord, skip: int, n: nat): seq<Place>
    requires n <= |c.clusters|
  {
    if n == 0 then []
    else
      var front, k := Groups(c, skip, n - 1), MasterOf(c.clusters[n - 1]);
      if n - 1 != skip && k.Some? then front + Group(c, Place(n - 1, k.value)) else front
  }

  lemma {:induction false} OtherMastersHop(c: Coord, believes: set<Place>, skip: int, n: nat)
    requires n <= |c.clusters| && Have(c, OtherMastersUpTo(c.clusters, skip, n))
    requires forall m | m in OtherMastersUpTo(c.clusters, skip, n) :: Unrivalled(c, believes, m)
    ensures SpreadEach(c, believes, 2, OtherMastersUpTo(c.clusters, skip, n)) == Some(Groups(c, skip, n))
    decreases n
  {
    hide MasterOf, Unrivalled;
    if n > 0 {
      OtherMastersHave(c, skip, n - 1);
      assert OtherMastersUpTo(c.clusters, skip, n - 1) <= OtherMastersUpTo(c.clusters, skip, n);
      OtherMastersHop(c, believes, skip, n - 1);
      var front, k := OtherMastersUpTo(c.clusters, skip, n - 1), MasterOf(c.clusters[n - 1]);
      if n - 1 != skip && k.Some? {
        var m := Place(n - 1, k.value);
        MasterHop(c, believes, m);
        OneMore(c, believes, 2, front, m);
      }
    }
  }

  lemma {:induction false} EachAppend(c: Coord, believes: set<Place>, depth: nat, ps: seq<Place>, qs: seq<Place>)
    requires Have(c, ps) && Have(c, qs) && Have(c, ps + qs)
    requires SpreadEach(c, believes, depth, ps).Some? && SpreadEach(c, believes, depth, qs).Some?
    ensures SpreadEach(c, believes, depth, ps + qs) ==
            Some(SpreadEach(c, believes, depth, ps).value + SpreadEach(c, believes, depth, qs).value)
    decreases |qs|
  {
    var ds := SpreadEach(c, believes, depth, ps).value;
    if qs == [] {
      assert ps + qs == ps && ds + [] == ds;
    } else {
      var n := |qs| - 1;
      var front, q := qs[..n], qs[n];
      assert qs == front + [q] && ps + qs == (ps + front) + [q];
      assert Have(c, front) && Have(c, ps + front) && c.Has(q);
      EachNeedsAll(c, believes, depth, qs);
      EachNeedsAll(c, believes, depth, front);
      EachAppend(c, believes, depth, ps, front);
      OneMore(c, believes, depth, front, q);
      OneMore(c, believes, depth, ps + front, q);
      Regroup(ds, SpreadEach(c, believes, depth, front).value, Spread(c, believes, depth, q, true).value);
    }
  }

  /** Every other master spreads the request on, and none of them has a rival. */
  lemma {:induction false} OthersUnrivalled(c: Coord, believes: set<Place>, p: Place)
    requires c.Has(p) && p in believes && Titled(c, believes) && Uncontested(c, believes, p)
    ensures forall m | m in OtherMasters(c, p) :: Unrivalled(c, believes, m)
  {
    hide MasterOf, OneMaster, Contested;
    OtherMastersAre(c, p.cluster);
    forall m | m in OtherMasters(c, p) ensures Unrivalled(c, believes, m) {
      assert IsMasterOf(c, m);
      FoundIsMaster(c, m);
    }
  }

  lemma FoundIsMaster(c: Coord, m: Place)
    requires IsMasterOf(c, m)
    ensures IsMaster(c, m)
  {
  }

  /** The order in which a client's request at the believer `p` is applied. */
  lemma {:induction false} BroadcastOrder(c: Coord, believes: set<Place>, p: Place)
    requires Active(c, p) && p in believes && Titled(c, believes) && Uncontested(c, believes, p)
    ensures Spread(c, believes, 3, p, false) ==
            Some(Group(c, p) + Groups(c, p.cluster, |c.clusters|))
  {
    CounterpartsAreSlaves(c, believes, p);
    OtherMastersHave(c, p.cluster, |c.clusters|);
    OthersUnrivalled(c, believes, p);
    SlavesOnly(c, believes, 2, Counterparts(c, p));
    OtherMastersHop(c, believes, p.cluster, |c.clusters|);
    EachAppend(c, believes, 2, Counterparts(c, p), OtherMasters(c, p));
    var others := Groups(c, p.cluster, |c.clusters|);
    assert [p] + (Counterparts(c, p) + others) == Group(c, p) + others;
  }

  lemma NoDupConcat<T>(a: seq<T>, b: seq<T>)
    requires NoDup(a) && NoDup(b) && forall x | x in a :: x !in b
    ensures NoDup(a + b)
  {
    assert forall i | 0 <= i < |a| :: a[i] in a;
    assert forall i | 0 <= i < |b| :: b[i] in b;
  }

  lemma GroupIs(c: Coord, p: Place)
    requires Active(c, p)
    ensures NoDup(Group(c, p))
    ensures forall q :: q in Group(c, p) <==> q.cluster == p.cluster && Active(c, q)
  {
    CounterpartsAre(c, p);
    NoDupConcat([p], Counterparts(c, p));
  }

  /** The active servers of the clusters that have a master. */
  predicate Served(c: Coord, q: Place)
  {
    Active(c, q) && MasterOf(c.clusters[q.cluster]).Some?
  }

  ghost predicate ServedBelow(c: Coord, skip: int, n: nat, ps: seq<Place>)
  {
    NoDup(ps) && forall q :: q in ps <==> q.cluster < n && q.cluster != skip && Served(c, q)
  }

  lemma {:induction false} GroupsAre(c: Coord, believes: set<Place>, skip: int, n: nat)
    requires Titled(c, believes) && n <= |c.clusters|
    ensures ServedBelow(c, skip, n, Groups(c, skip, n))
    decreases n
  {
    hide MasterOf;
    if n > 0 {
      GroupsAre(c, believes, skip, n - 1);
      var front, k := Groups(c, skip, n - 1), MasterOf(c.clusters[n - 1]);
      if n - 1 != skip && k.Some? {
        FoundIsMaster(c, Place(n - 1, k.value));
        GroupIs(c, Place(n - 1, k.value));
        OneMoreGroup(c, skip, n, front, Group(c, Place(n - 1, k.value)));
      } else {
        NoMoreGroup(c, skip, n, front);
      }
    }
  }

  lemma OneMoreGroup(c: Coord, skip: int, n: nat, front: seq<Place>, group: seq<Place>)
    requires 0 < n && n - 1 != skip && ServedBelow(c, skip, n - 1, front)
    requires NoDup(group) && forall q :: q in group <==> q.cluster == n - 1 && Served(c, q)
    ensures ServedBelow(c, skip, n, front + group)
  {
    NoDupConcat(front, group);
    forall q ensures q in front + group <==> q.cluster < n && q.cluster != skip && Served(c, q) {
      assert q in front + group <==> q in front || q in group;
    }
  }

  lemma NoMoreGroup(c: Coord, skip: int, n: nat, front: seq<Place>)
    requires 0 < n <= |c.clusters| && (n - 1 == skip || MasterOf(c.clusters[n - 1]).None?)
    requires ServedBelow(c, skip, n - 1, front)
    ensures ServedBelow(c, skip, n, front)
  {
    hide MasterOf;
  }

  lemma {:induction false} AllGroupsAre(c: Coord, believes: set<Place>, p: Place)
    requires Titled(c, believes) && Active(c, p) && p in believes
    ensures var ds := Group(c, p) + Groups(c, p.cluster, |c.clusters|);
            NoDup(ds) && forall q :: q in ds <==> Reached(c, believes, p, q)
  {
    hide MasterOf, Titled;
    var own, others := Group(c, p), Groups(c, p.cluster, |c.clusters|);
    GroupIs(c, p);
    GroupsAre(c, believes, p.cluster, |c.clusters|);
    NoDupConcat(own, others);
    assert forall q :: q in own + others <==> q in own || q in others;
  }

  /** A request of a client at an active server, unless its calls never end, is
      applied exactly once at every server that it reaches, and nowhere else; the
      calls nest three deep. */
  lemma {:induction false} BroadcastReachesEachOnce(c: Coord, believes: set<Place>, p: Place)
    requires Titled(c, believes) && Active(c, p) && Uncontested(c, believes, p)
    ensures var ds := Spread(c, believes, 3, p, false);
            ds.Some? && NoDup(ds.value) && forall q :: q in ds.value <==> Reached(c, believes, p, q)
  {
    hide MasterOf, Titled, Uncontested;
    if p in believes {
      BroadcastOrder(c, believes, p);
      AllGroupsAre(c, believes, p);
    } else {
      QuietServer(c, believes, 3, p, false);
    }
  }

  ghost predicate Alone(c: Coord, p: Place)
  {
    forall q | Active(c, q) :: q == p
  }

  /** Nobody is out of reach of `p`, which forwards or does not. */
  ghost predicate Covers(c: Coord, p: Place, forwards: bool)
  {
    || Alone(c, p)
    || (forwards && forall q | Active(c, q) && q.cluster != p.cluster :: MasterOf(c.clusters[q.cluster]).Some?)
  }

  /** It misses nobody exactly if there is nobody else, or it came to a believer
      and every other cluster with an active server has a master. */
  lemma {:induction false} BroadcastReachesAllIff(c: Coord, believes: set<Place>, p: Place)
    requires Titled(c, believes) && Active(c, p) && Uncontested(c, believes, p)
    ensures var ds := Spread(c, believes, 3, p, false);
            ds.Some? && ((forall q | Active(c, q) :: q in ds.value) <==> Covers(c, p, p in believes))
  {
    hide MasterOf, Titled, Uncontested, Spread;
    BroadcastReachesEachOnce(c, believes, p);
  }

  // ---- posts ----

  /** `Timeline` forwards a post like a client's request, but `AddPost` forwards
      nothing, whoever receives it. */
  function PostSpread(c: Coord, believes: set<Place>, p: Place): seq<Place>
    requires c.Has(p)
  {
    [p] + Forwards(c, believes, p, false)
  }

  /** Who gets a post from a believer `p`: the others of its own cluster, and the
      master of each other cluster. */
  predicate PostGoesTo(c: Coord, p: Place, q: Place)
  {
    if q.cluster == p.cluster then q != p && Active(c, q) else IsMasterOf(c, q)
  }

  /** A post reaches these once each, whatever anyone else believes. */
  lemma {:induction false} PostReaches(c: Coord, believes: set<Place>, p: Place)
    requires c.Has(p)
    ensures var ds := PostSpread(c, believes, p);
            NoDup(ds) && forall q :: q in ds <==> q == p || (p in believes && PostGoesTo(c, p, q))
  {
    hide MasterOf;
    var own, others := Counterparts(c, p), OtherMasters(c, p);
    CounterpartsAre(c, p);
    OtherMastersAre(c, p.cluster);
    NoDupConcat([p], own);
    NoDupConcat([p] + own, others);
    assert [p] + own + others == [p] + (own + others);
    assert [p] + [] == [p];
  }

  /** The documentation lets a post reach every slave.  It does exactly if there is
      nobody else, or if it came to a believer and every active server of another
      cluster is its master. */
  lemma {:induction false} PostReachesAllIff(c: Coord, believes: set<Place>, p: Place)
    requires c.Has(p)
    ensures (forall q | Active(c, q) :: q in PostSpread(c, believes, p)) <==>
            || Alone(c, p)
            || (p in believes && forall q | Active(c, q) && q.cluster != p.cluster :: IsMasterOf(c, q))
  {
    hide IsMasterOf, PostSpread;
    PostReaches(c, believes, p);
  }
}
