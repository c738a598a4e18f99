/** The election when heartbeats of different servers interleave: `exists`,
    `create`, `write`, `read`, the path update and the flag update are separate
    steps; the sweep touches only servers that have no heartbeat in flight. */
module ElectionRace {
  import opened FlatFs
  import opened Registry
  import opened LockPaths
  import opened ElectionSafety

  datatype Stage =
    | AtExists
    | AtSlaveWrite
    | AtSlaveRead
    | AtCreate
    | AtLoseRead
    | AtWinWrite
    | AtWinSync
    | AtPath(raw: string, won: bool)
    | AtFlag

  /** `sync` is the sync address read so far. */
  datatype Flight = Flight(info: ServerInfo, stage: Stage, sync: string)

  /** `replies` is the last reply to each server. */
  datatype Race = Race(coord: Coord, flights: map<Place, Flight>, replies: map<Place, HeartbeatReply>)
  {
    function Move(p: Place, stage: Stage): Race
      requires p in flights
    {
      this.(flights := flights[p := flights[p].(stage := stage)])
    }

    function Synced(p: Place, stage: Stage, sync: string): Race
      requires p in flights
    {
      this.(flights := flights[p := flights[p].(stage := stage, sync := sync)])
    }

    function Land(p: Place, reply: HeartbeatReply): Race
    {
      this.(flights := flights - {p}, replies := replies[p := reply])
    }
  }

  datatype Step =
    | Begin(info: ServerInfo, now: int)
    | Advance(place: Place)
    | SweepIdle(place: Place, now: int)

  /** The next step of the heartbeat in flight for `p`; a step that waits for the
      mutex does not happen. */
  function Go(r: Race, p: Place): Race
    requires p in r.flights && r.coord.Has(p) && InRange(r.coord, r.flights[p].info)
  {
    var c := r.coord;
    var Flight(info, stage, sync) := r.flights[p];
    var z := c.Node(p);
    var lock := MasterFilepath(info.clusterId);
    match stage
    case AtExists => r.Move(p, if Exists(c.fs, lock) then AtSlaveWrite else AtCreate)
    case AtSlaveWrite =>
      var (st, fs) := Write(c.fs, SlaveFilepath(info.clusterId, info.serverId), z.Address(), false, true);
      if Returns(st) then r.(coord := c.(fs := fs)).Move(p, AtSlaveRead) else r
    case AtSlaveRead =>
      r.Synced(p, AtPath(SlaveFilepath(info.clusterId, info.serverId), false), ReadOrEmpty(c.fs, lock))
    case AtCreate =>
      var (st, fs) := Create(c.fs, lock, false, true);
      if st == Ok then r.(coord := c.(fs := fs)).Move(p, AtWinWrite)
      else if st == Failed then r.Move(p, AtLoseRead)
      else r
    case AtLoseRead => r.Synced(p, AtPath("", false), ReadOrEmpty(c.fs, lock))
    case AtWinWrite =>
      var (st, fs) := Write(c.fs, lock, z.Address(), false, true);
      if Returns(st) then r.(coord := c.(fs := fs)).Move(p, AtWinSync) else r
    case AtWinSync => r.Synced(p, AtPath(lock, true), SyncForMaster(c, info))
    case AtPath(raw, won) =>
      var r' := r.(coord := c.Put(p, z.(path := raw)));
      if won then r'.Move(p, AtFlag) else r'.Land(p, Registered(raw, false, sync))
    case AtFlag => r.(coord := c.Put(p, z.(master := true))).Land(p, Registered(lock, true, sync))
  }

  function Do(r: Race, s: Step): Race
  {
    match s
    case Begin(info, now) =>
      if !InRange(r.coord, info) || PlaceOf(info) in r.flights then r
      else
        var (a, c') := Admit(r.coord, info, now);
        var p := PlaceOf(info);
        (match a
         case Candidate => Race(c', r.flights[p := Flight(info, AtExists, "")], r.replies)
         case StillMaster => Race(c', r.flights, r.replies[p := Registered(c'.Node(p).path, true, "")])
         case Duplicate => Race(c', r.flights, r.replies[p := AlreadyExists])
         case NoSuchCluster => r)
    case Advance(p) =>
      if p in r.flights && r.coord.Has(p) && InRange(r.coord, r.flights[p].info) then Go(r, p) else r
    case SweepIdle(p, now) =>
      if r.coord.Has(p) && p !in r.flights then r.(coord := SweepServer(r.coord, p, now)) else r
  }

  function Opening(n: nat): Race
  {
    Race(Start(n), map[], map[])
  }

  function Schedule(r: Race, steps: seq<Step>): Race
  {
    if steps == [] then r else Do(Schedule(r, steps[..|steps| - 1]), steps[|steps| - 1])
  }

  // ---- the invariant ----

  predicate Winning(stage: Stage)
  {
    stage == AtWinWrite || stage == AtWinSync || stage == AtFlag || (stage.AtPath? && stage.won)
  }

  /** The master of its cluster, or a server that has created the master lock and
      has not yet set its flag. */
  predicate Holder(r: Race, p: Place)
  {
    r.coord.Has(p) && (r.coord.Node(p).master || (p in r.flights && Winning(r.flights[p].stage)))
  }

  ghost predicate OneHolder(r: Race)
  {
    forall p, q | Holder(r, p) && Holder(r, q) && p.cluster == q.cluster :: p == q
  }

  ghost predicate FlightSafe(r: Race, p: Place)
    requires p in r.flights
  {
    var Flight(info, stage, _) := r.flights[p];
    && r.coord.Has(p) && InRange(r.coord, info) && PlaceOf(info) == p
    && !r.coord.Node(p).master && r.coord.Node(p).missed == 0
    && (stage.AtPath? ==>
          if stage.won then stage.raw == MasterFilepath(p.cluster + 1)
          else stage.raw == "" || stage.raw == SlaveFilepath(p.cluster + 1, p.server))
    && (stage == AtFlag ==> r.coord.Node(p).path == MasterFilepath(p.cluster + 1))
  }

  ghost predicate PlaceSafe(r: Race, p: Place)
    requires r.coord.Has(p)
  {
    var z := r.coord.Node(p);
    && (z.path == "" || z.path == MasterFilepath(p.cluster + 1) || z.path == SlaveFilepath(p.cluster + 1, p.server))
    && (p !in r.flights ==> (z.master <==> z.path == MasterFilepath(p.cluster + 1) && z.missed < 2))
  }

  ghost predicate LocksSafe(r: Race)
  {
    && (forall p | Holder(r, p) :: Locked(r.coord.fs.tree, p.cluster))
    && (!r.coord.fs.held ==>
          forall i: nat | i < |r.coord.clusters| && Locked(r.coord.fs.tree, i) :: Held(r, i))
  }

  ghost predicate Held(r: Race, i: nat)
  {
    exists k :: Holder(r, Place(i, k))
  }

  ghost predicate RaceSafe(r: Race)
  {
    && Shape(r.coord.fs.tree) && r.coord.fs.coarse
    && (forall p | p in r.flights :: FlightSafe(r, p))
    && (forall p | r.coord.Has(p) :: PlaceSafe(r, p))
    && OneHolder(r)
    && LocksSafe(r)
  }

  /** `r'` differs from `r` only at `p`. */
  ghost predicate OnlyAt(r: Race, r': Race, p: Place)
  {
    && |r'.coord.clusters| == |r.coord.clusters|
    && (forall q | q != p :: r'.coord.Has(q) <==> r.coord.Has(q))
    && (forall q | q != p && r.coord.Has(q) :: r'.coord.Node(q) == r.coord.Node(q))
    && (forall q | q != p :: q in r'.flights <==> q in r.flights)
    && (forall q | q != p && q in r.flights :: r'.flights[q] == r.flights[q])
  }

  ghost predicate HandsOver(r: Race, r': Race, p: Place)
  {
    var before, after := Locked(r.coord.fs.tree, p.cluster), Locked(r'.coord.fs.tree, p.cluster);
    || (Holder(r', p) == Holder(r, p) && after == before)
    || (Holder(r', p) && !before && after)
    || (Holder(r, p) && !Holder(r', p) && (r'.coord.fs.held || !after))
  }

  lemma LocalStepIsSafe(r: Race, r': Race, p: Place)
    requires RaceSafe(r) && OnlyAt(r, r', p) && HandsOver(r, r', p)
    requires Shape(r'.coord.fs.tree) && r'.coord.fs.coarse && (r.coord.fs.held ==> r'.coord.fs.held)
    requires forall q | !InCluster(q, p.cluster + 1) :: q in r.coord.fs.tree <==> q in r'.coord.fs.tree
    requires p in r'.flights ==> FlightSafe(r', p)
    requires r'.coord.Has(p) ==> PlaceSafe(r', p)
    ensures RaceSafe(r')
  {
    forall q | q != p ensures Holder(r', q) <==> Holder(r, q) {}
    forall j: nat | j != p.cluster
      ensures Locked(r'.coord.fs.tree, j) <==> Locked(r.coord.fs.tree, j)
    {
      OtherCluster(j + 1, p.cluster + 1);
    }
    forall q | q in r'.flights ensures FlightSafe(r', q) {
      assert q != p ==> FlightSafe(r, q);
    }
    forall q | r'.coord.Has(q) ensures PlaceSafe(r', q) {
      assert q != p ==> PlaceSafe(r, q);
    }
    assert OneHolder(r');
    LocalStepKeepsLocks(r, r', p);
  }

  lemma LocalStepKeepsLocks(r: Race, r': Race, p: Place)
    requires OneHolder(r) && LocksSafe(r) && HandsOver(r, r', p)
    requires |r'.coord.clusters| == |r.coord.clusters| && (r.coord.fs.held ==> r'.coord.fs.held)
    requires forall q | q != p :: Holder(r', q) <==> Holder(r, q)
    requires forall j: nat | j != p.cluster :: Locked(r'.coord.fs.tree, j) <==> Locked(r.coord.fs.tree, j)
    ensures LocksSafe(r')
  {
    if !r'.coord.fs.held {
      forall i: nat | i < |r'.coord.clusters| && Locked(r'.coord.fs.tree, i) ensures Held(r', i) {
        if Locked(r.coord.fs.tree, i) {
          assert Held(r, i);
          var k :| Holder(r, Place(i, k));
          assert Place(i, k) != p ==> Holder(r', Place(i, k));
          assert Place(i, k) == p ==> Holder(r', Place(i, p.server));
        } else {
          assert i == p.cluster && Holder(r', Place(i, p.server));
        }
      }
    }
  }

  // ---- every step keeps it ----

  lemma {:induction false} BeginIsSafe(r: Race, info: ServerInfo, now: int)
    requires RaceSafe(r)
    ensures RaceSafe(Do(r, Begin(info, now)))
  {
    hide Do, OnlyAt, Shape, OneHolder, LocksSafe, FlightSafe, PlaceSafe, Holder;
    if InRange(r.coord, info) && PlaceOf(info) !in r.flights {
      BeginIsLocal(r, info, now);
      BegunIsSafe(r, info, now);
      LocalStepIsSafe(r, Do(r, Begin(info, now)), PlaceOf(info));
    } else {
      BeginIgnored(r, info, now);
    }
  }

  lemma BeginIgnored(r: Race, info: ServerInfo, now: int)
    requires !InRange(r.coord, info) || PlaceOf(info) in r.flights
    ensures Do(r, Begin(info, now)).flights == r.flights && Do(r, Begin(info, now)).coord == r.coord
    ensures RaceSafe(r) ==> RaceSafe(Do(r, Begin(info, now)))
  {
    hide Shape, OneHolder, LocksSafe;
  }

  lemma BeginIsLocal(r: Race, info: ServerInfo, now: int)
    requires InRange(r.coord, info) && PlaceOf(info) !in r.flights
    ensures var r', p := Do(r, Begin(info, now)), PlaceOf(info);
            r'.coord.fs == r.coord.fs && OnlyAt(r, r', p) && (Holder(r', p) <==> Holder(r, p))
  {
  }

  lemma BegunIsSafe(r: Race, info: ServerInfo, now: int)
    requires InRange(r.coord, info) && PlaceOf(info) !in r.flights
    requires r.coord.Has(PlaceOf(info)) ==> PlaceSafe(r, PlaceOf(info))
    ensures var r', p := Do(r, Begin(info, now)), PlaceOf(info);
            && (p in r'.flights ==> FlightSafe(r', p))
            && (r'.coord.Has(p) ==> PlaceSafe(r', p))
  {
    hide SlaveFilepath;
    MasterPath(info.clusterId);
  }

  /** What `create` and `write` do to the locks of a heartbeat in flight. */
  lemma LockCalls(r: Race, p: Place)
    requires RaceSafe(r) && p in r.flights
    ensures var info, t := r.flights[p].info, r.coord.fs.tree;
            var lock, slave := MasterLock(p.cluster + 1), SlaveLock(p.cluster + 1, p.server);
            var addr := r.coord.Node(p).Address();
            && slave != lock
            && Create(r.coord.fs, MasterFilepath(info.clusterId), false, true) ==
               (if r.coord.fs.held then (Blocked, r.coord.fs)
                else if lock in t then (Failed, r.coord.fs)
                else (Ok, r.coord.fs.(tree := t[lock.parent := Folder][lock := File("")])))
            && Write(r.coord.fs, MasterFilepath(info.clusterId), addr, false, true) ==
               (if r.coord.fs.held then (Blocked, r.coord.fs)
                else if lock.parent !in t then (Failed, r.coord.fs)
                else (Ok, r.coord.fs.(tree := t[lock := File(addr)])))
            && Write(r.coord.fs, SlaveFilepath(info.clusterId, info.serverId), addr, false, true) ==
               (if r.coord.fs.held then (Blocked, r.coord.fs)
                else if lock.parent !in t then (Failed, r.coord.fs)
                else (Ok, r.coord.fs.(tree := t[slave := File(addr)])))
  {
    hide MasterFilepath, SlaveFilepath;
    assert FlightSafe(r, p);
    var info, t := r.flights[p].info, r.coord.fs.tree;
    var addr := r.coord.Node(p).Address();
    var lock, slave := MasterLock(info.clusterId), SlaveLock(info.clusterId, info.serverId);
    MasterPath(info.clusterId);
    SlavePath(info.clusterId, info.serverId);
    LocksDiffer(info.clusterId, info.serverId, info.clusterId, 0);
    CreateLock(t, lock);
    WriteLock(t, slave, addr);
    WriteLock(t, lock, addr);
  }

  lemma PlacesAreSafe(r: Race, p: Place)
    requires RaceSafe(r) && p in r.flights
    ensures FlightSafe(r, p) && PlaceSafe(r, p)
    ensures MasterFilepath(p.cluster + 1) != SlaveFilepath(p.cluster + 1, p.server)
    ensures MasterFilepath(p.cluster + 1) != ""
    ensures SlaveFilepath(p.cluster + 1, p.server) != ""
  {
    LocksDiffer(p.cluster + 1, p.server, p.cluster + 1, 0);
    MasterPath(p.cluster + 1);
    SlavePath(p.cluster + 1, p.server);
    assert FlightSafe(r, p);
  }

  ghost function WithTree(r: Race, t: Tree): Race
  {
    r.(coord := r.coord.(fs := r.coord.fs.(tree := t)))
  }

  /** A step that changes the filesystem and moves on to `stage`. */
  lemma {:induction false} MoveIsSafe(r: Race, p: Place, t: Tree, stage: Stage)
    requires RaceSafe(r) && p in r.flights && stage != AtFlag && !stage.AtPath?
    requires Shape(t)
    requires forall q | !InCluster(q, p.cluster + 1) :: q in r.coord.fs.tree <==> q in t
    requires var before, after := Locked(r.coord.fs.tree, p.cluster), Locked(t, p.cluster);
             if Winning(stage) == Winning(r.flights[p].stage) then before == after
             else Winning(stage) && !before && after
    ensures RaceSafe(WithTree(r, t).Move(p, stage))
    ensures WithTree(r, r.coord.fs.tree) == r
  {
    hide MasterFilepath, SlaveFilepath, Write, Create, Exists, Shape, OneHolder, LocksSafe;
    PlacesAreSafe(r, p);
    var r' := WithTree(r, t).Move(p, stage);
    assert Holder(r', p) <==> Winning(stage);
    assert Holder(r, p) <==> Winning(r.flights[p].stage);
    LocalStepIsSafe(r, r', p);
  }

  /** The filesystem steps of a heartbeat in flight, spelled out. */
  lemma {:induction false} LockSteps(r: Race, p: Place)
    requires RaceSafe(r) && p in r.flights
    ensures var t, z := r.coord.fs.tree, r.coord.Node(p);
            var lock, slave := MasterLock(p.cluster + 1), SlaveLock(p.cluster + 1, p.server);
            match r.flights[p].stage
            case AtSlaveWrite =>
              Go(r, p) == (if r.coord.fs.held then r
                           else if lock.parent !in t then r.Move(p, AtSlaveRead)
                           else WithTree(r, t[slave := File(z.Address())]).Move(p, AtSlaveRead))
            case AtCreate =>
              Go(r, p) == (if r.coord.fs.held then r
                           else if lock in t then r.Move(p, AtLoseRead)
                           else WithTree(r, t[lock.parent := Folder][lock := File("")]).Move(p, AtWinWrite))
            case AtWinWrite =>
              Go(r, p) == (if r.coord.fs.held then r
                           else if lock.parent !in t then r.Move(p, AtWinSync)
                           else WithTree(r, t[lock := File(z.Address())]).Move(p, AtWinSync))
            case _ => true
  {
    PlacesAreSafe(r, p);
    LockCalls(r, p);
  }

  lemma SlaveWriteIsSafe(r: Race, p: Place)
    requires RaceSafe(r) && p in r.flights && r.flights[p].stage == AtSlaveWrite
    ensures RaceSafe(Go(r, p))
  {
    hide MasterFilepath, SlaveFilepath, Go;
    LockSteps(r, p);
    var t, slave, addr := r.coord.fs.tree, SlaveLock(p.cluster + 1, p.server), r.coord.Node(p).Address();
    LocksDiffer(p.cluster + 1, p.server, p.cluster + 1, 0);
    if !r.coord.fs.held {
      WriteLock(t, slave, addr);
      MoveIsSafe(r, p, if slave.parent in t then t[slave := File(addr)] else t, AtSlaveRead);
    }
  }

  lemma CreateStepIsSafe(r: Race, p: Place)
    requires RaceSafe(r) && p in r.flights && r.flights[p].stage == AtCreate
    ensures RaceSafe(Go(r, p))
  {
    hide MasterFilepath, SlaveFilepath, Go;
    LockSteps(r, p);
    var t, lock := r.coord.fs.tree, MasterLock(p.cluster + 1);
    if !r.coord.fs.held {
      if lock in t {
        MoveIsSafe(r, p, t, AtLoseRead);
      } else {
        CreateLock(t, lock);
        MoveIsSafe(r, p, t[lock.parent := Folder][lock := File("")], AtWinWrite);
      }
    }
  }

  lemma WinWriteIsSafe(r: Race, p: Place)
    requires RaceSafe(r) && p in r.flights && r.flights[p].stage == AtWinWrite
    ensures RaceSafe(Go(r, p))
  {
    hide MasterFilepath, SlaveFilepath, Go;
    LockSteps(r, p);
    PlacesAreSafe(r, p);
    var t, lock, addr := r.coord.fs.tree, MasterLock(p.cluster + 1), r.coord.Node(p).Address();
    assert Holder(r, p) && Locked(t, p.cluster);
    if !r.coord.fs.held {
      WriteLock(t, lock, addr);
      MoveIsSafe(r, p, if lock.parent in t then t[lock := File(addr)] else t, AtWinSync);
    }
  }

  /** Leaving the election with a path, won or not. */
  lemma {:induction false} ReachPathIsSafe(r: Race, p: Place, raw: string, won: bool, sync: string)
    requires RaceSafe(r) && p in r.flights && won == Winning(r.flights[p].stage)
    requires if won then raw == MasterFilepath(p.cluster + 1)
             else raw == "" || raw == SlaveFilepath(p.cluster + 1, p.server)
    ensures RaceSafe(r.Synced(p, AtPath(raw, won), sync))
  {
    hide MasterFilepath, SlaveFilepath, Write, Create, Exists, Shape, OneHolder, LocksSafe;
    PlacesAreSafe(r, p);
    LocalStepIsSafe(r, r.Synced(p, AtPath(raw, won), sync), p);
  }

  lemma {:induction false} ReadStepIsSafe(r: Race, p: Place)
    requires RaceSafe(r) && p in r.flights && r.flights[p].stage in {AtExists, AtSlaveRead, AtLoseRead, AtWinSync}
    ensures RaceSafe(Go(r, p))
  {
    hide MasterFilepath, SlaveFilepath, Exists, Shape, OneHolder, LocksSafe, PlaceSafe;
    assert FlightSafe(r, p);
    var lock := MasterFilepath(p.cluster + 1);
    match r.flights[p].stage {
      case AtExists =>
        if Exists(r.coord.fs, lock) {
          MoveIsSafe(r, p, r.coord.fs.tree, AtSlaveWrite);
        } else {
          MoveIsSafe(r, p, r.coord.fs.tree, AtCreate);
        }
      case AtSlaveRead =>
        ReachPathIsSafe(r, p, SlaveFilepath(p.cluster + 1, p.server), false, ReadOrEmpty(r.coord.fs, lock));
      case AtLoseRead => ReachPathIsSafe(r, p, "", false, ReadOrEmpty(r.coord.fs, lock));
      case AtWinSync => ReachPathIsSafe(r, p, lock, true, SyncForMaster(r.coord, r.flights[p].info));
    }
  }

  lemma {:induction false} PathStepIsSafe(r: Race, p: Place)
    requires RaceSafe(r) && p in r.flights && r.flights[p].stage.AtPath?
    ensures RaceSafe(Go(r, p))
  {
    hide MasterFilepath, SlaveFilepath, Write, Create, Exists, Shape, OneHolder, LocksSafe, OnlyAt, HandsOver,
         PlaceSafe;
    PathStepIsLocal(r, p);
    LocalStepIsSafe(r, Go(r, p), p);
  }

  lemma PathStepIsLocal(r: Race, p: Place)
    requires RaceSafe(r) && p in r.flights && r.flights[p].stage.AtPath?
    ensures var r' := Go(r, p);
            && r'.coord.fs == r.coord.fs && OnlyAt(r, r', p) && HandsOver(r, r', p)
            && (p in r'.flights ==> FlightSafe(r', p)) && (r'.coord.Has(p) ==> PlaceSafe(r', p))
  {
    hide MasterFilepath, SlaveFilepath, Write, Create, Exists, RaceSafe;
    PlacesAreSafe(r, p);
  }

  lemma {:induction false} FlagStepIsSafe(r: Race, p: Place)
    requires RaceSafe(r) && p in r.flights && r.flights[p].stage == AtFlag
    ensures RaceSafe(Go(r, p))
  {
    hide MasterFilepath, SlaveFilepath, Write, Create, Exists, Shape, OneHolder, LocksSafe;
    PlacesAreSafe(r, p);
    LocalStepIsSafe(r, Go(r, p), p);
  }

  lemma AdvanceIsSafe(r: Race, p: Place)
    requires RaceSafe(r) && p in r.flights
    ensures RaceSafe(Go(r, p))
  {
    match r.flights[p].stage {
      case AtSlaveWrite => SlaveWriteIsSafe(r, p);
      case AtCreate => CreateStepIsSafe(r, p);
      case AtWinWrite => WinWriteIsSafe(r, p);
      case AtPath(_, _) => PathStepIsSafe(r, p);
      case AtFlag => FlagStepIsSafe(r, p);
      case _ => ReadStepIsSafe(r, p);
    }
  }

  /** Removing the path of a swept server touches no lock but its own. */
  lemma SweepFsIsLocal(fs: Fs, z: ZNode, p: Place)
    requires Shape(fs.tree)
    requires z.path == "" || z.path == MasterFilepath(p.cluster + 1) || z.path == SlaveFilepath(p.cluster + 1, p.server)
    ensures var fs' := Remove(fs, z.path).1;
            && Shape(fs'.tree) && fs'.coarse == fs.coarse && (fs.held ==> fs'.held)
            && (forall q | !InCluster(q, p.cluster + 1) :: q in fs.tree <==> q in fs'.tree)
            && (fs.coarse && !fs'.held && z.path == MasterFilepath(p.cluster + 1) ==> !Locked(fs'.tree, p.cluster))
            && (z.path != MasterFilepath(p.cluster + 1) ==>
                  (Locked(fs'.tree, p.cluster) <==> Locked(fs.tree, p.cluster)))
  {
    MasterPath(p.cluster + 1);
    SlavePath(p.cluster + 1, p.server);
    LocksDiffer(p.cluster + 1, p.server, p.cluster + 1, 0);
    if z.path != "" {
      RemoveLock(fs.tree, FilePath(z.path));
    }
  }

  lemma {:induction false} SweepIsSafe(r: Race, p: Place, now: int)
    requires RaceSafe(r)
    ensures RaceSafe(Do(r, SweepIdle(p, now)))
  {
    hide MasterFilepath, SlaveFilepath, Remove, Shape, OneHolder, LocksSafe, OnlyAt, HandsOver, PlaceSafe, FlightSafe;
    if r.coord.Has(p) && p !in r.flights {
      SweepIsLocal(r, p, now);
      SweepHandsOver(r, p, now);
      LocalStepIsSafe(r, Do(r, SweepIdle(p, now)), p);
    }
  }

  lemma SweepIsLocal(r: Race, p: Place, now: int)
    requires r.coord.Has(p) && p !in r.flights && PlaceSafe(r, p)
    ensures var r' := Do(r, SweepIdle(p, now));
            OnlyAt(r, r', p) && r'.coord.Has(p) && p !in r'.flights && PlaceSafe(r', p)
  {
    hide MasterFilepath, SlaveFilepath, Remove;
  }

  lemma SweepHandsOver(r: Race, p: Place, now: int)
    requires r.coord.Has(p) && p !in r.flights && PlaceSafe(r, p) && Shape(r.coord.fs.tree) && r.coord.fs.coarse
    ensures var r' := Do(r, SweepIdle(p, now));
            && HandsOver(r, r', p)
            && Shape(r'.coord.fs.tree) && r'.coord.fs.coarse && (r.coord.fs.held ==> r'.coord.fs.held)
            && (forall q | !InCluster(q, p.cluster + 1) :: q in r.coord.fs.tree <==> q in r'.coord.fs.tree)
  {
    hide MasterFilepath, SlaveFilepath, Remove, Shape;
    SweepFsIsLocal(r.coord.fs, r.coord.Node(p), p);
  }

  lemma {:induction false} StepIsSafe(r: Race, s: Step)
    requires RaceSafe(r)
    ensures RaceSafe(Do(r, s))
  {
    match s {
      case Begin(info, now) => BeginIsSafe(r, info, now);
      case Advance(p) =>
        if p in r.flights {
          AdvanceIsSafe(r, p);
        }
      case SweepIdle(p, now) => SweepIsSafe(r, p, now);
    }
  }

  lemma {:induction false} ScheduleIsSafe(n: nat, steps: seq<Step>)
    ensures RaceSafe(Schedule(Opening(n), steps))
    decreases |steps|
  {
    if steps != [] {
      ScheduleIsSafe(n, steps[..|steps| - 1]);
      StepIsSafe(Schedule(Opening(n), steps[..|steps| - 1]), steps[|steps| - 1]);
    }
  }

  /** `create` acts as test-and-set: on every schedule each cluster has at most
      one master or pending winner, and while it has one, its lock file exists. */
  lemma {:induction false} RaceExclusion(n: nat, steps: seq<Step>, p: Place, q: Place)
    ensures var r := Schedule(Opening(n), steps);
            && (Holder(r, p) && Holder(r, q) && p.cluster == q.cluster ==> p == q)
            && (Holder(r, p) ==> MasterLock(p.cluster + 1) in r.coord.fs.tree)
  {
    ScheduleIsSafe(n, steps);
    assert OneHolder(Schedule(Opening(n), steps));
  }

  // ---- the atomic handler is one of the schedules ----

  function Advances(r: Race, p: Place, n: nat): Race
    decreases n
  {
    if n == 0 then r else Advances(Do(r, Advance(p)), p, n - 1)
  }

  lemma {:induction false} NothingInFlight(r: Race, p: Place, n: nat)
    requires p !in r.flights
    ensures Advances(r, p, n) == r
    decreases n
  {
    if n > 0 {
      NothingInFlight(r, p, n - 1);
    }
  }

  lemma SixAdvances(r: Race, p: Place)
    ensures var r3 := Do(Do(Do(r, Advance(p)), Advance(p)), Advance(p));
            Advances(r, p, 6) == Do(Do(Do(r3, Advance(p)), Advance(p)), Advance(p))
  {
    var r3 := Do(Do(Do(r, Advance(p)), Advance(p)), Advance(p));
    assert Advances(r, p, 6) == Advances(r3, p, 3);
  }

  lemma {:induction false} SlaveSchedule(r: Race, c: Coord, info: ServerInfo)
    requires InRange(c, info) && c.Has(PlaceOf(info))
    requires r == Race(c, map[PlaceOf(info) := Flight(info, AtExists, "")], r.replies)
    requires Exists(c.fs, MasterFilepath(info.clusterId)) && Elect(c, info).0 != Hung
    ensures Advances(r, PlaceOf(info), 6) ==
            Race(Elect(c, info).1, map[], r.replies[PlaceOf(info) := Elect(c, info).0])
  {
    hide MasterFilepath, SlaveFilepath, Write, Exists, ReadOrEmpty;
    var p, c' := PlaceOf(info), Elect(c, info).1;
    var c1 := c.(fs := c'.fs);
    var r2 := Race(c1, map[p := Flight(info, AtSlaveRead, "")], r.replies);
    assert Do(Do(r, Advance(p)), Advance(p)) == r2;
    var r4 := Do(Do(r2, Advance(p)), Advance(p));
    assert r4.coord == c' && r4.flights == map[];
    NothingInFlight(r4, p, 2);
    SixAdvances(r, p);
  }

  lemma {:induction false} LosingSchedule(r: Race, c: Coord, info: ServerInfo)
    requires InRange(c, info) && c.Has(PlaceOf(info))
    requires r == Race(c, map[PlaceOf(info) := Flight(info, AtCreate, "")], r.replies)
    requires !Exists(c.fs, MasterFilepath(info.clusterId))
    requires Create(c.fs, MasterFilepath(info.clusterId), false, true).0 == Failed
    ensures Advances(r, PlaceOf(info), 5) ==
            Race(Elect(c, info).1, map[], r.replies[PlaceOf(info) := Elect(c, info).0])
  {
    hide MasterFilepath, SlaveFilepath, Write, Exists, ReadOrEmpty;
    var p, lock := PlaceOf(info), MasterFilepath(info.clusterId);
    MasterPath(info.clusterId);
    CreateFails(c.fs, lock);
    var r1 := r.Move(p, AtLoseRead);
    assert Do(r, Advance(p)) == r1;
    var r2 := r1.Synced(p, AtPath("", false), ReadOrEmpty(c.fs, lock));
    assert Do(r1, Advance(p)) == r2;
    var r3 := Do(r2, Advance(p));
    assert r3.coord == Elect(c, info).1 && r3.flights == map[];
    NothingInFlight(r3, p, 2);
    assert Advances(r, p, 5) == Advances(r3, p, 2);
  }

  lemma {:induction false} WinningSchedule(r: Race, c: Coord, info: ServerInfo)
    requires InRange(c, info) && c.Has(PlaceOf(info))
    requires r == Race(c, map[PlaceOf(info) := Flight(info, AtCreate, "")], r.replies)
    requires !Exists(c.fs, MasterFilepath(info.clusterId)) && Elect(c, info).0 != Hung
    requires Create(c.fs, MasterFilepath(info.clusterId), false, true).0 == Ok
    ensures Advances(r, PlaceOf(info), 5) ==
            Race(Elect(c, info).1, map[], r.replies[PlaceOf(info) := Elect(c, info).0])
  {
    hide MasterFilepath, SlaveFilepath, Write, Create, Exists, ReadOrEmpty, FirstOtherMaster;
    var p, lock := PlaceOf(info), MasterFilepath(info.clusterId);
    var fs := Create(c.fs, lock, false, true).1;
    var r2 := Race(c.(fs := fs), map[p := Flight(info, AtWinWrite, "")], r.replies);
    assert Do(r, Advance(p)) == r2;
    assert SyncForMaster(r2.coord, info) == SyncForMaster(c, info);
    WriteSchedule(r2, p, lock, Elect(c, info).1);
    assert Advances(r, p, 5) == Advances(r2, p, 4);
  }

  lemma {:induction false} WriteSchedule(r: Race, p: Place, lock: string, c': Coord)
    requires r.flights.Keys == {p} && r.coord.Has(p) && InRange(r.coord, r.flights[p].info)
    requires r.flights[p].stage == AtWinWrite && lock == MasterFilepath(r.flights[p].info.clusterId)
    requires var (st, fs) := Write(r.coord.fs, lock, r.coord.Node(p).Address(), false, true);
             && Returns(st)
             && c' == r.coord.(fs := fs).Put(p, r.coord.Node(p).(path := lock, master := true))
    ensures Advances(r, p, 4) ==
            Race(c', map[], r.replies[p := Registered(lock, true, SyncForMaster(r.coord, r.flights[p].info))])
  {
    hide MasterFilepath, Write, FirstOtherMaster;
    var r3 := Do(r, Advance(p));
    assert SyncForMaster(r3.coord, r.flights[p].info) == SyncForMaster(r.coord, r.flights[p].info);
    FlagSchedule(r3, p, lock, c');
    assert Advances(r, p, 4) == Advances(r3, p, 3);
  }

  lemma {:induction false} FlagSchedule(r: Race, p: Place, lock: string, c': Coord)
    requires r.flights.Keys == {p} && r.coord.Has(p) && InRange(r.coord, r.flights[p].info)
    requires r.flights[p].stage == AtWinSync && lock == MasterFilepath(r.flights[p].info.clusterId)
    requires c' == r.coord.Put(p, r.coord.Node(p).(path := lock, master := true))
    ensures Advances(r, p, 3) ==
            Race(c', map[], r.replies[p := Registered(lock, true, SyncForMaster(r.coord, r.flights[p].info))])
  {
    hide MasterFilepath, SyncForMaster;
    var z := r.coord.Node(p);
    var r2 := Do(Do(r, Advance(p)), Advance(p));
    assert r2.coord == r.coord.Put(p, z.(path := lock)) && r2.flights[p].stage == AtFlag;
    PutTwice(r.coord, p, z.(path := lock), z.(path := lock, master := true), r.coord.fs);
    var r3 := Do(r2, Advance(p));
    assert r3.coord == c' && r3.flights == map[];
    assert Advances(r, p, 3) == r3;
  }

  lemma CreateFails(fs: Fs, file: string)
    requires Create(fs, file, false, true).0 == Failed && file != ""
    ensures Create(fs, file, false, true).1 == fs
  {
  }

  /** Running the steps of one heartbeat without interruption is the atomic
      handler, reply included, so the two granularities describe the same code. */
  lemma {:induction false} AtomicHeartbeatIsASchedule(r0: Race, info: ServerInfo, now: int)
    requires InRange(r0.coord, info) && r0.flights == map[] && Heartbeat(r0.coord, info, now).0 != Hung
    ensures var (reply, c') := Heartbeat(r0.coord, info, now);
            Advances(Do(r0, Begin(info, now)), PlaceOf(info), 6) ==
            Race(c', map[], r0.replies[PlaceOf(info) := reply])
  {
    hide MasterFilepath, SlaveFilepath, Write, Create, Exists, ReadOrEmpty, SyncForMaster;
    var p := PlaceOf(info);
    var r := Do(r0, Begin(info, now));
    var (a, c') := Admit(r0.coord, info, now);
    if a == Candidate {
      if Exists(c'.fs, MasterFilepath(info.clusterId)) {
        SlaveSchedule(r, c', info);
      } else {
        var r1 := r.Move(p, AtCreate);
        assert Advances(r, p, 6) == Advances(r1, p, 5);
        assert r1 == Race(c', map[p := Flight(info, AtCreate, "")], r0.replies);
        if Elect(c', info).0.master {
          WinningSchedule(r1, c', info);
        } else {
          LosingSchedule(r1, c', info);
        }
      }
    } else {
      NothingInFlight(r, p, 6);
    }
  }

  // ---- the loser's empty path ----

  /** After a lost race the server's path is empty.  Sweeping such a server at
      its second miss calls `remove("")`, and that is the only way the mutex is
      ever left held. */
  lemma {:induction false} WhenTheSweepJams(n: nat, steps: seq<Step>, s: Step)
    ensures var r := Schedule(Opening(n), steps);
            Do(r, s).coord.fs.held <==>
              r.coord.fs.held
              || (s.SweepIdle? && r.coord.Has(s.place) && s.place !in r.flights
                  && s.now - r.coord.Node(s.place).lastHeartbeat > MAX_HEARTBEAT_DELAY
                  && r.coord.Node(s.place).missed == 1 && r.coord.Node(s.place).path == "")
  {
    hide FlatFs.Write, FlatFs.Create, FlatFs.Exists, Remove, MasterFilepath, SlaveFilepath, OneHolder, LocksSafe,
         Shape, FlightSafe;
    ScheduleIsSafe(n, steps);
    var r := Schedule(Opening(n), steps);
    match s {
      case Begin(info, now) =>
      case Advance(p) =>
        if p in r.flights {
          AdvanceKeepsMutex(r, p, p);
        }
      case SweepIdle(p, now) =>
        if r.coord.Has(p) {
          assert PlaceSafe(r, p);
          RemoveLeavesMutex(r.coord.fs, r.coord.Node(p).path, p);
        }
    }
  }

  lemma {:induction false} AdvanceKeepsMutex(r: Race, p: Place, q: Place)
    requires RaceSafe(r) && p in r.flights
    ensures Do(r, Advance(p)).coord.fs.held == r.coord.fs.held
    ensures r.coord.fs.held && Holder(Do(r, Advance(p)), q) ==> Holder(r, q)
  {
    hide MasterFilepath, SlaveFilepath, FlatFs.Write, FlatFs.Create, FlatFs.Exists, Shape, OneHolder, LocksSafe;
    assert FlightSafe(r, p);
    var stage := r.flights[p].stage;
    if stage == AtSlaveWrite || stage == AtCreate || stage == AtWinWrite {
      LockStepKeepsMutex(r, p);
    }
  }

  lemma {:induction false} LockStepKeepsMutex(r: Race, p: Place)
    requires RaceSafe(r) && p in r.flights
    requires r.flights[p].stage in {AtSlaveWrite, AtCreate, AtWinWrite}
    ensures Go(r, p).coord.clusters == r.coord.clusters
    ensures Go(r, p).coord.fs.held == r.coord.fs.held
    ensures r.coord.fs.held ==> Go(r, p) == r
    ensures Go(r, p).flights == r.flights[p := Go(r, p).flights[p]]
  {
    LockSteps(r, p);
  }

  lemma RemoveLeavesMutex(fs: Fs, path: string, p: Place)
    requires fs.coarse
    requires path == "" || path == MasterFilepath(p.cluster + 1) || path == SlaveFilepath(p.cluster + 1, p.server)
    ensures Remove(fs, path).1.held <==> fs.held || path == ""
  {
    MasterPath(p.cluster + 1);
    SlavePath(p.cluster + 1, p.server);
  }

  /** Once the mutex is left held, no election in any cluster is ever won again. */
  lemma {:induction false} NoElectionAfterAJam(r: Race, s: Step, p: Place)
    requires RaceSafe(r) && r.coord.fs.held
    ensures Do(r, s).coord.fs.held
    ensures Holder(Do(r, s), p) ==> Holder(r, p)
  {
    hide MasterFilepath, SlaveFilepath, Shape, OneHolder, LocksSafe, FlatFs.Write, FlatFs.Create, FlatFs.Exists;
    match s {
      case Begin(info, now) =>
      case Advance(q) =>
        if q in r.flights {
          AdvanceKeepsMutex(r, q, p);
        }
      case SweepIdle(q, now) =>
    }
  }

  /** Two servers of one cluster that both find the master lock free; the one
      that loses the race goes silent.  The jam is reached. */
  lemma {:induction false} JamIsReachable(n: nat, i: ServerInfo, j: ServerInfo)
    requires 1 <= i.clusterId == j.clusterId <= n && i.serverId != j.serverId
    ensures var p, q := PlaceOf(i), PlaceOf(j);
            var both := Do(Do(Opening(n), Begin(i, 0)), Begin(j, 0));
            var race := Do(Do(Do(both, Advance(p)), Advance(q)), Advance(p));
            Do(Do(Advances(race, q, 3), SweepIdle(q, 11)), SweepIdle(q, 14)).coord.fs.held
  {
    var p, q := PlaceOf(i), PlaceOf(j);
    var lock := MasterLock(i.clusterId);
    MasterPath(i.clusterId);
    var r2 := Do(Do(Opening(n), Begin(i, 0)), Begin(j, 0));
    var r4 := r2.Move(p, AtCreate).Move(q, AtCreate);
    assert Do(Do(r2, Advance(p)), Advance(q)) == r4;
    CreateLock(r4.coord.fs.tree, lock);
    var r5 := Do(r4, Advance(p));
    assert lock in r5.coord.fs.tree && r5.flights[q].stage == AtCreate;
    LoserLandsWithoutPath(r5, q);
    var r8 := Advances(r5, q, 3);
    assert r8.coord.Node(q).missed == 0 && r8.coord.Node(q).lastHeartbeat == 0;
    SilentLoserJams(r8, q, 11, 14);
  }

  lemma {:induction false} LoserLandsWithoutPath(r: Race, q: Place)
    requires q in r.flights && r.coord.Has(q) && InRange(r.coord, r.flights[q].info)
    requires r.flights[q].stage == AtCreate && Shape(r.coord.fs.tree) && !r.coord.fs.held
    requires MasterLock(r.flights[q].info.clusterId) in r.coord.fs.tree
    ensures var sync := ReadOrEmpty(r.coord.fs, MasterFilepath(r.flights[q].info.clusterId));
            Advances(r, q, 3) ==
            r.(coord := r.coord.Put(q, r.coord.Node(q).(path := ""))).Land(q, Registered("", false, sync))
  {
    var lock := MasterLock(r.flights[q].info.clusterId);
    MasterPath(r.flights[q].info.clusterId);
    CreateLock(r.coord.fs.tree, lock);
    var r1 := r.Move(q, AtLoseRead);
    assert Do(r, Advance(q)) == r1;
    var r2 := r1.Synced(q, AtPath("", false), ReadOrEmpty(r.coord.fs, MasterFilepath(r.flights[q].info.clusterId)));
    assert Do(r1, Advance(q)) == r2;
    var r3 := Do(r2, Advance(q));
    assert r3.flights == r.flights - {q};
    assert Advances(r, q, 3) == r3;
  }

  lemma SilentLoserJams(r: Race, q: Place, now: int, later: int)
    requires r.coord.Has(q) && q !in r.flights && r.coord.fs.coarse
    requires var z := r.coord.Node(q);
             z.path == "" && z.missed == 0 && now - z.lastHeartbeat > MAX_HEARTBEAT_DELAY && now <= later
    ensures Do(Do(r, SweepIdle(q, now)), SweepIdle(q, later)).coord.fs.held
  {
    var r1 := Do(r, SweepIdle(q, now));
    assert r1.coord.Has(q) && r1.coord.Node(q).missed == 1;
  }
}
