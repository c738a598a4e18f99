/** Client ids and the assignment of clients to masters. */
module ClientAssignment {
  import opened Text
  import opened OrderedMaps
  import opened Registry
  import opened ElectionSafety

  // ---- the ring search ----

  /** The cluster visited in step `k` of a ring search from `i`. */
  function RingAt(i: nat, k: nat, n: nat): (j: nat)
    requires n > 0
    ensures j < n
  {
    (i + k) % n
  }

  lemma ModWrap(x: nat, n: nat)
    requires n <= x < 2 * n
    ensures x % n == x - n
  {
    var q := x / n;
    assert x == q * n + x % n;
    assert q >= 2 ==> q * n >= 2 * n;
  }

  lemma RingStep(i: nat, k: nat, n: nat)
    requires i < n && k < n
    ensures RingAt(i, k, n) == if i + k < n then i + k else i + k - n
  {
    if i + k >= n {
      ModWrap(i + k, n);
    }
  }

  lemma NextInRing(i: nat, n: nat)
    requires i < n
    ensures (i + 1) % n == if i + 1 < n then i + 1 else 0
  {
    if i + 1 >= n {
      ModWrap(n, n);
    }
  }

  lemma {:induction false} RingShift(i: nat, i1: nat, k: nat, n: nat)
    requires i < n && i1 == (if i + 1 < n then i + 1 else 0) && k + 1 < n
    ensures RingAt(i1, k, n) == RingAt(i, k + 1, n)
  {
    hide RingAt;
    RingStep(i1, k, n);
    RingStep(i, k + 1, n);
  }

  /** None of the first `k` clusters visited from `i` has a master. */
  ghost predicate NoneWithin(clusters: seq<Cluster>, i: nat, k: nat)
    requires i < |clusters|
  {
    forall j: nat | j < k :: MasterOf(clusters[RingAt(i, j, |clusters|)]).None?
  }

  /** `p` is the master of the first cluster visited from `i` that has one. */
  ghost predicate FirstAt(clusters: seq<Cluster>, i: nat, k: nat, p: Place)
    requires i < |clusters|
  {
    && p.cluster == RingAt(i, k, |clusters|) && MasterOf(clusters[p.cluster]) == Some(p.server)
    && NoneWithin(clusters, i, k)
  }

  lemma NoneOneEarlier(clusters: seq<Cluster>, i: nat, i1: nat, k: nat)
    requires i < |clusters| && i1 == (if i + 1 < |clusters| then i + 1 else 0) && k < |clusters|
    requires MasterOf(clusters[i]).None? && NoneWithin(clusters, i1, k)
    ensures NoneWithin(clusters, i, k + 1)
  {
    hide MasterOf, RingAt;
    var n := |clusters|;
    RingStep(i, 0, n);
    forall j: nat | j < k + 1 ensures MasterOf(clusters[RingAt(i, j, n)]).None? {
      if j > 0 {
        RingShift(i, i1, j - 1, n);
      }
    }
  }

  /** The search ends at the first cluster with a master in ring order, or fails
      because none of the visited clusters has one. */
  lemma {:induction false} RingSearchFindsFirst(clusters: seq<Cluster>, i: nat, remaining: nat)
    requires i < |clusters| && remaining <= |clusters|
    ensures match RingSearch(clusters, i, remaining)
            case None => NoneWithin(clusters, i, remaining)
            case Some(p) => exists k: nat :: k < remaining && FirstAt(clusters, i, k, p)
    decreases remaining
  {
    hide MasterOf, RingAt;
    var n := |clusters|;
    if remaining == 0 {
      assert NoneWithin(clusters, i, 0);
    } else {
      RingStep(i, 0, n);
      if MasterOf(clusters[i]).Some? {
        assert FirstAt(clusters, i, 0, RingSearch(clusters, i, remaining).value);
      } else {
        NextInRing(i, n);
        var i1 := if i + 1 < n then i + 1 else 0;
        RingSearchFindsFirst(clusters, i1, remaining - 1);
        var found := RingSearch(clusters, i1, remaining - 1);
        assert RingSearch(clusters, i, remaining) == found;
        FoundOneEarlier(clusters, i, i1, remaining - 1, found);
        assert found.Some? ==> exists k: nat :: k < remaining && FirstAt(clusters, i, k, found.value);
      }
    }
  }

  /** What a search finds from the next cluster on, a search from `i` finds too. */
  lemma FoundOneEarlier(clusters: seq<Cluster>, i: nat, i1: nat, remaining: nat, found: Option<Place>)
    requires i < |clusters| && i1 == (if i + 1 < |clusters| then i + 1 else 0) && remaining < |clusters|
    requires MasterOf(clusters[i]).None?
    requires match found
             case None => NoneWithin(clusters, i1, remaining)
             case Some(p) => exists k: nat :: k < remaining && FirstAt(clusters, i1, k, p)
    ensures match found
            case None => NoneWithin(clusters, i, remaining + 1)
            case Some(p) => exists k: nat :: k < remaining + 1 && FirstAt(clusters, i, k, p)
  {
    hide MasterOf, RingAt, NoneWithin;
    match found {
      case None => NoneOneEarlier(clusters, i, i1, remaining);
      case Some(p) =>
        var k: nat :| k < remaining && FirstAt(clusters, i1, k, p);
        var k1: nat := k + 1;
        NoneOneEarlier(clusters, i, i1, k);
        RingShift(i, i1, k, |clusters|);
        assert FirstAt(clusters, i, k1, p);
    }
  }

  /** A full round visits every cluster. */
  lemma RingVisitsAll(i: nat, j: nat, n: nat)
    requires i < n && j < n
    ensures var k := if j >= i then j - i else j + n - i;
            k < n && RingAt(i, k, n) == j
  {
    RingStep(i, if j >= i then j - i else j + n - i, n);
  }

  /** ... and visits no cluster twice. */
  lemma {:induction false} RingVisitsOnce(i: nat, k: nat, k': nat, n: nat)
    requires i < n && k < n && k' < n && RingAt(i, k, n) == RingAt(i, k', n)
    ensures k == k'
  {
    RingStep(i, k, n);
    RingStep(i, k', n);
  }

  // ---- GetServer ----

  /** What a client is told: a current master; the one it had exactly if that is
      still master, otherwise the first in ring order from its id; and nothing
      exactly if no cluster has a master. */
  lemma {:induction false} GetServerAssigns(c: Coord, id: nat)
    requires |c.clusters| > 0
    ensures var (reply, c') := GetServer(c, id);
            var n := |c.clusters|;
            var known := if id in c.assignments then c.assignments[id] else None;
            var keeps := known.Some? && c.Has(known.value) && c.Node(known.value).master;
            && c'.clusters == c.clusters && c'.fs == c.fs
            && c'.assignments.Keys == c.assignments.Keys + {id}
            && (forall k | k in c.assignments && k != id :: c'.assignments[k] == c.assignments[k])
            && match reply
               case Unavailable => !SomeMaster(c) && c'.assignments[id] == known
               case Assigned(p, changed) =>
                 && c.Has(p) && c.Node(p).master
                 && id in c'.assignments && c'.assignments[id] == Some(p)
                 && (changed <==> !keeps)
                 && (keeps ==> p == known.value)
                 && (changed ==> exists k: nat :: k < n && FirstAt(c.clusters, id % n, k, p))
  {
    var n := |c.clusters|;
    RingSearchFindsFirst(c.clusters, id % n, n);
    var (reply, c') := GetServer(c, id);
    if reply == Unavailable && SomeMaster(c) {
      var q :| IsMaster(c, q);
      RingVisitsAll(id % n, q.cluster, n);
    }
  }

  // ---- client ids ----

  ghost predicate Dense<T>(m: map<int, T>)
  {
    forall k :: k in m <==> 0 <= k < |m|
  }

  function IssueCount(events: seq<Event>): nat
  {
    if events == [] then 0
    else IssueCount(events[..|events| - 1]) + if events[|events| - 1] == NewClient then 1 else 0
  }

  /** Clients ask for a server only with an id they were given before. */
  predicate AsksWithIssuedIds(events: seq<Event>)
  {
    events == []
    || (var front, e := events[..|events| - 1], events[|events| - 1];
        AsksWithIssuedIds(front) && (e.AskServer? ==> e.id < IssueCount(front)))
  }

  lemma {:induction false} AssignmentsStayDense(n: nat, events: seq<Event>)
    requires AsksWithIssuedIds(events)
    ensures var m := Run(Start(n), events).assignments;
            |m| == IssueCount(events) && Dense(m)
    decreases |events|
  {
    hide Heartbeat, GetServer;
    if events != [] {
      var front, e := events[..|events| - 1], events[|events| - 1];
      AssignmentsStayDense(n, front);
      var c := Run(Start(n), front);
      match e {
        case Beat(info, now) => AssignmentsKept(c, info, now);
        case SweepOne(p, now) =>
        case SweepAll(now) => SweepKeepsAssignments(c, 0, now);
        case NewClient =>
        case AskServer(id) =>
          if |c.clusters| > 0 {
            GetServerAssigns(c, id);
            assert Apply(c, e).assignments.Keys == c.assignments.Keys;
            SameSize(Apply(c, e).assignments, c.assignments);
          }
      }
    }
  }

  lemma AssignmentsKept(c: Coord, info: ServerInfo, now: int)
    ensures Heartbeat(c, info, now).1.assignments == c.assignments
  {
    hide FlatFs.Write, FlatFs.Create, FlatFs.Exists, ReadOrEmpty, SyncForMaster, MasterFilepath, SlaveFilepath;
  }

  lemma {:induction false} SweepServersKeepsAssignments(c: Coord, i: nat, ks: seq<int>, now: int)
    requires i < |c.clusters| && forall k | k in ks :: k in c.clusters[i]
    ensures SweepServers(c, i, ks, now).assignments == c.assignments
    decreases |ks|
  {
    if ks != [] {
      assert forall k | k in ks[1..] :: k in ks;
      SweepServersKeepsAssignments(SweepServer(c, Place(i, ks[0]), now), i, ks[1..], now);
    }
  }

  lemma {:induction false} SweepKeepsAssignments(c: Coord, i: nat, now: int)
    requires i <= |c.clusters|
    ensures SweepFrom(c, i, now).assignments == c.assignments
    decreases |c.clusters| - i
  {
    if i < |c.clusters| {
      var ks := Ascending(c.clusters[i].Keys);
      SweepServersKeepsAssignments(c, i, ks, now);
      SweepKeepsAssignments(SweepServers(c, i, ks, now), i + 1, now);
    }
  }

  /** In such a run the ids handed out are 0, 1, 2, ...: the next one is new. */
  lemma {:induction false} IdsAreUnique(n: nat, events: seq<Event>)
    requires AsksWithIssuedIds(events)
    ensures var c := Run(Start(n), events);
            GetUniqueClientID(c).0 == IssueCount(events) && GetUniqueClientID(c).0 !in c.assignments
  {
    AssignmentsStayDense(n, events);
  }

  // ---- what is recorded for an id ----

  /** A new id is the size of the map; it has no server, and nothing else changes. */
  lemma NewIdHasNoServer(c: Coord)
    ensures var (id, c') := GetUniqueClientID(c);
            && id == |c.assignments|
            && c'.assignments.Keys == c.assignments.Keys + {id} && c'.assignments[id] == None
            && (forall k | k in c.assignments && k != id :: c'.assignments[k] == c.assignments[k])
            && c'.clusters == c.clusters && c'.fs == c.fs
  {
  }

  /** The server that a client was last told of, if any. */
  function LastTold(n: nat, events: seq<Event>, id: nat): Option<Place>
  {
    if events == [] then None
    else
      var front, e := events[..|events| - 1], events[|events| - 1];
      var c := Run(Start(n), front);
      if e == AskServer(id) && |c.clusters| > 0 then
        (match GetServer(c, id).0
         case Assigned(p, _) => Some(p)
         case Unavailable => LastTold(n, front, id))
      else LastTold(n, front, id)
  }

  lemma {:induction false} ClustersStay(n: nat, events: seq<Event>)
    ensures |Run(Start(n), events).clusters| == n
    decreases |events|
  {
    hide Admit, Elect, SweepServer, GetServer;
    if events != [] {
      var front := events[..|events| - 1];
      ClustersStay(n, front);
      ApplyKeepsClusters(Run(Start(n), front), events[|events| - 1]);
    }
  }

  lemma ApplyKeepsClusters(c: Coord, e: Event)
    ensures |Apply(c, e).clusters| == |c.clusters|
  {
    hide FlatFs.Write, FlatFs.Create, FlatFs.Exists, FlatFs.Remove, ReadOrEmpty, SyncForMaster, MasterFilepath,
         SlaveFilepath;
  }

  /** Over runs that ask with issued ids, what is recorded for an id is what its
      client was last told, and a client that was told nothing has no server. */
  lemma {:induction false} RecordIsLastTold(n: nat, events: seq<Event>, id: nat)
    requires AsksWithIssuedIds(events) && id < IssueCount(events)
    ensures var m := Run(Start(n), events).assignments;
            id in m && m[id] == LastTold(n, events, id)
    decreases |events|
  {
    hide Heartbeat, GetServer, GetUniqueClientID;
    var front, e := events[..|events| - 1], events[|events| - 1];
    var c := Run(Start(n), front);
    AssignmentsStayDense(n, front);
    NewIdHasNoServer(c);
    if id == IssueCount(front) {
      NeverAsked(n, front, id);
    } else {
      RecordIsLastTold(n, front, id);
      match e {
        case Beat(info, now) => AssignmentsKept(c, info, now);
        case SweepOne(p, now) =>
        case SweepAll(now) => SweepKeepsAssignments(c, 0, now);
        case NewClient =>
        case AskServer(k) => if |c.clusters| > 0 { GetServerAssigns(c, k); }
      }
    }
  }

  /** Nobody asks with an id before it is issued. */
  lemma {:induction false} NeverAsked(n: nat, events: seq<Event>, id: nat)
    requires AsksWithIssuedIds(events) && id >= IssueCount(events)
    ensures LastTold(n, events, id).None?
    decreases |events|
  {
    if events != [] {
      NeverAsked(n, events[..|events| - 1], id);
    }
  }

  /** The first time a client asks, it gets the first master in ring order from its
      id, as a change, and nothing exactly if there is no master. */
  lemma {:induction false} FirstAskGetsRingMaster(n: nat, events: seq<Event>, id: nat)
    requires AsksWithIssuedIds(events) && id < IssueCount(events) && n > 0
    requires forall i | 0 <= i < |events| :: events[i] != AskServer(id)
    ensures var c := Run(Start(n), events);
            |c.clusters| == n &&
            match GetServer(c, id).0
            case Unavailable => !SomeMaster(c)
            case Assigned(p, changed) => changed && exists k: nat :: k < n && FirstAt(c.clusters, id % n, k, p)
  {
    hide GetServer, Run, LastTold, FirstAt;
    ClustersStay(n, events);
    RecordIsLastTold(n, events, id);
    NotAskedNotTold(n, events, id);
    GetServerAssigns(Run(Start(n), events), id);
  }

  lemma {:induction false} NotAskedNotTold(n: nat, events: seq<Event>, id: nat)
    requires forall i | 0 <= i < |events| :: events[i] != AskServer(id)
    ensures LastTold(n, events, id).None?
    decreases |events|
  {
    if events != [] {
      NotAskedNotTold(n, events[..|events| - 1], id);
    }
  }

  // ---- what an unissued id does ----

  /** The assignment map after handing out `j` more ids. */
  function Issued(m: map<int, Option<Place>>, j: nat): map<int, Option<Place>>
  {
    if j == 0 then m else var m' := Issued(m, j - 1); m'[|m'| := None]
  }

  predicate KeysBelowSize(m: map<int, Option<Place>>)
  {
    forall k | k in m :: k < |m|
  }

  lemma {:induction false} IssuedKeepsKeysBelow(m: map<int, Option<Place>>, j: nat)
    requires KeysBelowSize(m)
    ensures KeysBelowSize(Issued(m, j))
    decreases j
  {
    if j > 0 {
      IssuedKeepsKeysBelow(m, j - 1);
    }
  }

  lemma {:induction false} IssuedFillsUp(m: map<int, Option<Place>>, j: nat)
    requires forall k | |m| <= k < |m| + j :: k !in m
    ensures |Issued(m, j)| == |m| + j && m.Keys <= Issued(m, j).Keys
    ensures forall k | k in Issued(m, j) :: k in m || |m| <= k < |m| + j
    decreases j
  {
    if j > 0 {
      IssuedFillsUp(m, j - 1);
    }
  }

  lemma LeastAbove(m: map<int, Option<Place>>) returns (x: int)
    requires !KeysBelowSize(m)
    ensures x in m && x >= |m| && forall k | |m| <= k < x :: k !in m
  {
    var big := set k | k in m && k >= |m|;
    assert |big| > 0 by {
      var k :| k in m && k >= |m|;
      assert k in big;
    }
    HasLeast(big);
    x :| IsLeast(big, x);
    forall k | |m| <= k < x ensures k !in m {
      assert k !in big;
    }
  }

  /** Every id handed out from now on is new if and only if no key has reached
      the size of the map; asking for a server with an id above the number of
      ids issued is what breaks this, since the lookup enters the id. */
  lemma IdsStayUniqueIff(m: map<int, Option<Place>>)
    ensures KeysBelowSize(m) <==> forall j: nat :: |Issued(m, j)| !in Issued(m, j)
  {
    if KeysBelowSize(m) {
      forall j: nat ensures |Issued(m, j)| !in Issued(m, j) {
        IssuedKeepsKeysBelow(m, j);
      }
    } else {
      var x := LeastAbove(m);
      IssuedFillsUp(m, x - |m|);
      assert x in Issued(m, x - |m|);
    }
  }

  /** A dense map survives the lookup of any id up to its size, and no other. */
  lemma UnissuedIdBreaksIff(m: map<int, Option<Place>>, id: nat)
    requires Dense(m)
    ensures KeysBelowSize(m[id := None]) <==> id <= |m|
  {
    if id > |m| {
      assert id in m[id := None];
      assert |m[id := None]| == |m| + 1;
    }
  }
}
