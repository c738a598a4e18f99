/** How long a master may be silent: sweeps at exact 3-second intervals and the
    10-second threshold, over runs with a clock. */
module FailoverTiming {
  import opened OrderedMaps
  import opened Registry
  import opened ElectionSafety

  // ---- a whole sweep, server by server ----

  function Swept(z: ZNode, now: int): ZNode
  {
    if now - z.lastHeartbeat > MAX_HEARTBEAT_DELAY then
      z.(missed := z.missed + 1, master := z.master && z.missed + 1 != 2)
    else z
  }

  lemma {:induction false} SweepServersPointwise(c: Coord, i: nat, ks: seq<int>, now: int, p: Place)
    requires i < |c.clusters| && Increasing(ks) && forall k | k in ks :: k in c.clusters[i]
    requires c.Has(p)
    ensures var c' := SweepServers(c, i, ks, now);
            && c'.Has(p)
            && c'.Node(p) == if p.cluster == i && p.server in ks then Swept(c.Node(p), now) else c.Node(p)
    decreases |ks|
  {
    if ks != [] {
      var rest := ks[1..];
      assert forall k | k in rest :: k in ks;
      assert ks[0] !in rest;
      assert p.server in ks <==> p.server == ks[0] || p.server in rest;
      SweepServersPointwise(SweepServer(c, Place(i, ks[0]), now), i, rest, now, p);
    }
  }

  /** The sweep of cluster `i` touches each of its servers once. */
  lemma SweptCluster(c: Coord, i: nat, now: int, p: Place) returns (c': Coord)
    requires i < |c.clusters| && c.Has(p)
    ensures |c'.clusters| == |c.clusters| && SweepFrom(c, i, now) == SweepFrom(c', i + 1, now)
    ensures c'.Has(p) && c'.Node(p) == if p.cluster == i then Swept(c.Node(p), now) else c.Node(p)
  {
    hide Swept;
    var ks := Ascending(c.clusters[i].Keys);
    AscendingIncreases(c.clusters[i].Keys);
    SweepServersPointwise(c, i, ks, now, p);
    c' := SweepServers(c, i, ks, now);
  }

  lemma {:induction false} SweepFromPointwise(c: Coord, i: nat, now: int, p: Place)
    requires i <= |c.clusters| && c.Has(p)
    ensures var c' := SweepFrom(c, i, now);
            c'.Has(p) && c'.Node(p) == if p.cluster >= i then Swept(c.Node(p), now) else c.Node(p)
    decreases |c.clusters| - i
  {
    hide Swept, SweepFrom;
    if i == |c.clusters| {
      NothingLeft(c, now);
    } else {
      var c' := SweptCluster(c, i, now, p);
      SweepFromPointwise(c', i + 1, now, p);
    }
  }

  lemma NothingLeft(c: Coord, now: int)
    ensures SweepFrom(c, |c.clusters|, now) == c
  {
  }

  lemma {:induction false} SweepFromPlaces(c: Coord, i: nat, now: int, p: Place)
    requires i <= |c.clusters|
    ensures SweepFrom(c, i, now).Has(p) <==> c.Has(p)
    decreases |c.clusters| - i
  {
    if i < |c.clusters| {
      SweepFromPlaces(SweepServers(c, i, Ascending(c.clusters[i].Keys), now), i + 1, now, p);
    }
  }

  /** One pass visits every server of every cluster exactly once. */
  lemma SweepVisitsEachOnce(c: Coord, now: int, p: Place)
    ensures Sweep(c, now).Has(p) <==> c.Has(p)
    ensures c.Has(p) ==> Sweep(c, now).Node(p) == Swept(c.Node(p), now)
  {
    SweepFromPlaces(c, 0, now, p);
    if c.Has(p) {
      SweepFromPointwise(c, 0, now, p);
    }
  }

  // ---- runs with a clock ----

  datatype Timed = Timed(coord: Coord, start: int, now: int, sweeps: seq<int>, nextSweep: int)

  datatype TimedEvent =
    | HeartbeatAt(info: ServerInfo, at: int)
    | SweepNow
    | Pass(at: int)

  /** Time does not go backwards, and no sweep is late. */
  predicate Legal(t: Timed, e: TimedEvent)
  {
    match e
    case HeartbeatAt(_, at) => t.now <= at <= t.nextSweep
    case SweepNow => true
    case Pass(at) => t.now <= at <= t.nextSweep
  }

  function Tick(t: Timed, e: TimedEvent): Timed
  {
    match e
    case HeartbeatAt(info, at) => t.(coord := Heartbeat(t.coord, info, at).1, now := at)
    case SweepNow =>
      Timed(Sweep(t.coord, t.nextSweep), t.start, t.nextSweep, t.sweeps + [t.nextSweep],
            t.nextSweep + HEARTBEAT_CHECK_DELAY)
    case Pass(at) => t.(now := at)
  }

  predicate LegalRun(t: Timed, events: seq<TimedEvent>)
    decreases |events|
  {
    events == [] || (Legal(t, events[0]) && LegalRun(Tick(t, events[0]), events[1..]))
  }

  function TimedRun(t: Timed, events: seq<TimedEvent>): Timed
    decreases |events|
  {
    if events == [] then t else TimedRun(Tick(t, events[0]), events[1..])
  }

  /** How many of the times lie after `limit`. */
  function CountAfter(times: seq<int>, limit: int): nat
  {
    if times == [] then 0
    else CountAfter(times[..|times| - 1], limit) + if times[|times| - 1] > limit then 1 else 0
  }

  lemma {:induction false} NoneAfter(times: seq<int>, limit: int)
    requires forall k | 0 <= k < |times| :: times[k] <= limit
    ensures CountAfter(times, limit) == 0
    decreases |times|
  {
    if times != [] {
      NoneAfter(times[..|times| - 1], limit);
    }
  }

  ghost predicate Clocked(t: Timed)
  {
    && Safe(t.coord)
    && Rhythm(t)
    && (forall p | t.coord.Has(p) :: NodeClocked(t, t.coord.Node(p)))
  }

  /** Sweeps happened at `start`, `start + 3`, ... and the next one is due. */
  ghost predicate Rhythm(t: Timed)
  {
    && t.start <= t.now <= t.nextSweep
    && t.nextSweep == t.start + HEARTBEAT_CHECK_DELAY * |t.sweeps|
    && (forall k | 0 <= k < |t.sweeps| :: t.sweeps[k] == t.start + HEARTBEAT_CHECK_DELAY * k <= t.now)
  }

  ghost predicate NodeClocked(t: Timed, z: ZNode)
  {
    && t.start <= z.lastHeartbeat <= t.now
    && z.missed == CountAfter(t.sweeps, z.lastHeartbeat + MAX_HEARTBEAT_DELAY)
  }

  lemma {:induction false} BeatKeepsClock(t: Timed, info: ServerInfo, at: int)
    requires Clocked(t) && Legal(t, HeartbeatAt(info, at))
    ensures Clocked(Tick(t, HeartbeatAt(info, at)))
  {
    var t' := Tick(t, HeartbeatAt(info, at));
    HeartbeatKeepsSafe(t.coord, info, at);
    forall p | t'.coord.Has(p) ensures NodeClocked(t', t'.coord.Node(p)) {
      BeatClocksNode(t, info, at, p);
    }
  }

  lemma BeatClocksNode(t: Timed, info: ServerInfo, at: int, p: Place)
    requires Rhythm(t) && t.now <= at && Heartbeat(t.coord, info, at).1.Has(p)
    requires t.coord.Has(p) ==> NodeClocked(t, t.coord.Node(p))
    ensures NodeClocked(Tick(t, HeartbeatAt(info, at)), Heartbeat(t.coord, info, at).1.Node(p))
  {
    hide Heartbeat;
    NoneAfter(t.sweeps, at + MAX_HEARTBEAT_DELAY);
    HeartbeatTouches(t.coord, info, at, p);
  }

  lemma {:induction false} SweepKeepsClock(t: Timed)
    requires Clocked(t)
    ensures Clocked(Tick(t, SweepNow))
  {
    hide SweepFrom, Safe, Swept, NodeClocked, Rhythm;
    var t' := Tick(t, SweepNow);
    SweepFromKeepsSafe(t.coord, 0, t.nextSweep);
    RhythmGoesOn(t);
    forall p | t'.coord.Has(p) ensures NodeClocked(t', t'.coord.Node(p)) {
      SweepVisitsEachOnce(t.coord, t.nextSweep, p);
      SweptIsClocked(t, t.coord.Node(p));
    }
  }

  lemma RhythmGoesOn(t: Timed)
    requires Rhythm(t)
    ensures Rhythm(Tick(t, SweepNow))
  {
    hide Sweep;
  }

  lemma SweptIsClocked(t: Timed, z: ZNode)
    requires Rhythm(t) && NodeClocked(t, z)
    ensures NodeClocked(Tick(t, SweepNow), Swept(z, t.nextSweep))
  {
    hide Sweep;
    var sweeps := Tick(t, SweepNow).sweeps;
    assert sweeps[..|sweeps| - 1] == t.sweeps;
  }

  lemma {:induction false} TickKeepsClock(t: Timed, e: TimedEvent)
    requires Clocked(t) && Legal(t, e)
    ensures Clocked(Tick(t, e))
  {
    match e {
      case HeartbeatAt(info, at) => BeatKeepsClock(t, info, at);
      case SweepNow => SweepKeepsClock(t);
      case Pass(at) =>
        forall p | t.coord.Has(p) ensures NodeClocked(Tick(t, e), t.coord.Node(p)) {
          assert NodeClocked(t, t.coord.Node(p));
        }
    }
  }

  /** A heartbeat changes the time and the miss count of its sender only, and of
      the sender exactly when it is accepted. */
  lemma HeartbeatTouches(c: Coord, info: ServerInfo, now: int, p: Place)
    ensures var (reply, c') := Heartbeat(c, info, now);
            && (c.Has(p) ==> c'.Has(p))
            && (c'.Has(p) ==>
                  if InRange(c, info) && p == PlaceOf(info) && reply != AlreadyExists then
                    c'.Node(p).lastHeartbeat == now && c'.Node(p).missed == 0
                  else c.Has(p) && c'.Node(p) == c.Node(p))
  {
    hide FlatFs.Write, FlatFs.Create, FlatFs.Exists, ReadOrEmpty, SyncForMaster, MasterFilepath, SlaveFilepath;
  }

  lemma {:induction false} RunKeepsClock(t: Timed, events: seq<TimedEvent>)
    requires Clocked(t) && LegalRun(t, events)
    ensures Clocked(TimedRun(t, events))
    decreases |events|
  {
    if events != [] {
      TickKeepsClock(t, events[0]);
      RunKeepsClock(Tick(t, events[0]), events[1..]);
    }
  }

  function Startup(n: nat, start: int): Timed
  {
    Timed(Start(n), start, start, [], start)
  }

  /** In every run a server's miss count is the number of sweeps later than its
      last accepted heartbeat plus ten seconds. */
  lemma MissedCountsSweeps(n: nat, start: int, events: seq<TimedEvent>, p: Place)
    requires LegalRun(Startup(n, start), events)
    ensures var t := TimedRun(Startup(n, start), events);
            t.coord.Has(p) ==>
              t.coord.Node(p).missed == CountAfter(t.sweeps, t.coord.Node(p).lastHeartbeat + 10)
  {
    StartIsSafe(n);
    RunKeepsClock(Startup(n, start), events);
    var t := TimedRun(Startup(n, start), events);
    assert t.coord.Has(p) ==> NodeClocked(t, t.coord.Node(p));
  }

  // ---- what the 3-second rhythm makes of it ----

  function Misses(nextSweep: int, last: int): nat
  {
    if nextSweep <= last + 13 then 0 else (nextSweep - last - 11) / 3
  }

  lemma {:induction false} PeriodicCount(sweeps: seq<int>, start: int, last: int)
    requires forall k | 0 <= k < |sweeps| :: sweeps[k] == start + 3 * k
    requires start <= last
    ensures CountAfter(sweeps, last + 10) == Misses(start + 3 * |sweeps|, last)
    decreases |sweeps|
  {
    if sweeps != [] {
      PeriodicCount(sweeps[..|sweeps| - 1], start, last);
    }
  }

  ghost predicate Reachable(t: Timed, n: nat, start: int, events: seq<TimedEvent>)
  {
    LegalRun(Startup(n, start), events) && t == TimedRun(Startup(n, start), events)
  }

  lemma ReachableIsClocked(t: Timed, n: nat, start: int, events: seq<TimedEvent>)
    requires Reachable(t, n, start, events)
    ensures Clocked(t)
  {
    StartIsSafe(n);
    RunKeepsClock(Startup(n, start), events);
  }

  /** A server holding the master path is master exactly until the first sweep
      at 14 seconds or more after its last accepted heartbeat. */
  lemma MasterUntilSweep(t: Timed, p: Place)
    requires Clocked(t) && t.coord.Has(p) && t.coord.Node(p).path == MasterFilepath(p.cluster + 1)
    ensures t.coord.Node(p).master <==> t.nextSweep - HEARTBEAT_CHECK_DELAY < t.coord.Node(p).lastHeartbeat + 14
  {
    var z := t.coord.Node(p);
    assert NodeClocked(t, z);
    PeriodicCount(t.sweeps, t.start, z.lastHeartbeat);
    assert ClusterSafe(t.coord.clusters[p.cluster], p.cluster, Locked(t.coord.fs.tree, p.cluster));
    assert NodeSafe(z, p.cluster, p.server);
  }

  /** A silent master is demoted by a sweep, 14 to 16 seconds after its last
      accepted heartbeat; nothing else ever demotes a master. */
  lemma DemotionTime(n: nat, start: int, events: seq<TimedEvent>, e: TimedEvent, p: Place)
    requires LegalRun(Startup(n, start), events)
    requires var t := TimedRun(Startup(n, start), events);
             Legal(t, e) && IsMaster(t.coord, p) && !IsMaster(Tick(t, e).coord, p)
    ensures var t := TimedRun(Startup(n, start), events);
            e == SweepNow && t.coord.Node(p).lastHeartbeat + 14 <= t.nextSweep <= t.coord.Node(p).lastHeartbeat + 16
  {
    var t := TimedRun(Startup(n, start), events);
    ReachableIsClocked(t, n, start, events);
    TickKeepsClock(t, e);
    var z := t.coord.Node(p);
    assert ClusterSafe(t.coord.clusters[p.cluster], p.cluster, Locked(t.coord.fs.tree, p.cluster));
    assert NodeSafe(z, p.cluster, p.server);
    MasterUntilSweep(t, p);
    match e {
      case HeartbeatAt(info, at) =>
        MasterSurvivesHeartbeats(t.coord, info, at, p);
      case SweepNow =>
        SweepVisitsEachOnce(t.coord, t.nextSweep, p);
        MasterUntilSweep(Tick(t, e), p);
      case Pass(at) =>
    }
  }

  lemma MasterSurvivesHeartbeats(c: Coord, info: ServerInfo, now: int, p: Place)
    requires c.Has(p) && c.Node(p).master
    ensures Heartbeat(c, info, now).1.Has(p)
    ensures Heartbeat(c, info, now).1.Node(p).master && Heartbeat(c, info, now).1.Node(p).path == c.Node(p).path
  {
    hide FlatFs.Write, FlatFs.Create, FlatFs.Exists, ReadOrEmpty, SyncForMaster, MasterFilepath, SlaveFilepath;
  }

  /** The clock never runs past 13 seconds after the last heartbeat of `p`. */
  predicate Prompt(t: Timed, events: seq<TimedEvent>, p: Place)
    decreases |events|
  {
    && (t.coord.Has(p) ==> t.now <= t.coord.Node(p).lastHeartbeat + 13)
    && (events == [] || Prompt(Tick(t, events[0]), events[1..], p))
  }

  /** A master whose accepted heartbeats are never more than 13 seconds apart
      stays master through any run. */
  lemma {:induction false} PromptMasterIsNeverDemoted(t: Timed, events: seq<TimedEvent>, p: Place)
    requires Clocked(t) && LegalRun(t, events) && Prompt(t, events, p)
    requires t.coord.Has(p) && t.coord.Node(p).master
    ensures TimedRun(t, events).coord.Has(p) && TimedRun(t, events).coord.Node(p).master
    decreases |events|
  {
    if events != [] {
      var e, t' := events[0], Tick(t, events[0]);
      TickKeepsClock(t, e);
      assert ClusterSafe(t.coord.clusters[p.cluster], p.cluster, Locked(t.coord.fs.tree, p.cluster));
      assert NodeSafe(t.coord.Node(p), p.cluster, p.server);
      match e {
        case HeartbeatAt(info, at) => MasterSurvivesHeartbeats(t.coord, info, at, p);
        case SweepNow =>
          SweepVisitsEachOnce(t.coord, t.nextSweep, p);
          assert Prompt(t', events[1..], p);
          MasterUntilSweep(t', p);
        case Pass(at) =>
      }
      PromptMasterIsNeverDemoted(t', events[1..], p);
    }
  }

  /** More than 16 seconds after its last accepted heartbeat no server is master. */
  lemma SilentForTooLong(n: nat, start: int, events: seq<TimedEvent>, p: Place)
    requires LegalRun(Startup(n, start), events)
    ensures var t := TimedRun(Startup(n, start), events);
            t.coord.Has(p) && t.now > t.coord.Node(p).lastHeartbeat + 16 ==> !t.coord.Node(p).master
  {
    var t := TimedRun(Startup(n, start), events);
    ReachableIsClocked(t, n, start, events);
    if IsMaster(t.coord, p) {
      assert ClusterSafe(t.coord.clusters[p.cluster], p.cluster, Locked(t.coord.fs.tree, p.cluster));
      assert NodeSafe(t.coord.Node(p), p.cluster, p.server);
      MasterUntilSweep(t, p);
    }
  }

  /** After a demotion the next accepted heartbeat in the cluster elects its
      sender, whoever it is. */
  lemma NextHeartbeatElects(n: nat, start: int, events: seq<TimedEvent>, info: ServerInfo, at: int)
    requires LegalRun(Startup(n, start), events)
    requires var c := TimedRun(Startup(n, start), events).coord;
             InRange(c, info) && !HasMaster(c.clusters[info.clusterId - 1])
    ensures var c := TimedRun(Startup(n, start), events).coord;
            var (reply, c') := Heartbeat(c, info, at);
            reply != AlreadyExists ==>
              reply.Registered? && reply.master && c'.Has(PlaceOf(info)) && c'.Node(PlaceOf(info)).master
  {
    hide Elect, SyncForMaster, MasterFilepath, SlaveFilepath, LegalRun, NodeSafe;
    var t := TimedRun(Startup(n, start), events);
    ReachableIsClocked(t, n, start, events);
    var c := t.coord;
    assert ClusterSafe(c.clusters[info.clusterId - 1], info.clusterId - 1, Locked(c.fs.tree, info.clusterId - 1));
    var (a, c') := Admit(c, info, at);
    if a == Candidate {
      ElectionOutcome(c', info, c'.Node(PlaceOf(info)));
    }
  }
}
