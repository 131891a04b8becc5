/** The orchestrator's state and the requests that change it: rig records, groups, heartbeats
    over HTTP and UDP, commands, the reaper, and the laps captured on the way. */
module Orchestrator {
  import opened PyText
  import Leaderboard

  // ------------------------------------------------------------------
  // State
  // ------------------------------------------------------------------

  /** A rig record. `ip` is missing while nothing but a driver's name has been heard of the rig;
      `selectedCar` is `str()` of the field: empty before any selection, "None" once it has been
      cleared. */
  datatype Rig = Rig(
    status: string, mode: string, ip: Option<string>, lastSeen: real, killRequestedAt: Option<real>,
    lastLapCount: int, groupId: Option<string>, selectedCar: string, driverName: string)

  datatype Group = Group(id: string, name: string, track: string, rigIds: seq<string>)

  /** Rigs by id and their ids in dictionary order, groups in dictionary order, and the leaderboard. */
  datatype Hub = Hub(rigs: map<string, Rig>, order: seq<string>, groups: seq<Group>, board: Leaderboard.Board)

  /** The telemetry of a heartbeat; an empty dictionary is falsy. */
  datatype Telemetry = Empty | Frame(completedLaps: int, lapTimeMs: Option<int>)

  /** The fields of a status post that the hub acts on. */
  datatype StatusUpdate = StatusUpdate(
    status: Option<string>, ip: string, selectedCar: Option<string>, hasCpuTemp: bool, telemetry: Option<Telemetry>)

  /** The requests the hub serves, and the rounds of the reaper. A `BoardRequest` deletes a lap,
      clears the leaderboard or records a test lap; `FullUpdate` is the "update" request. */
  datatype Event =
    | Post(rid: string, update: StatusUpdate)
    | Command(rid: string, action: string)
    | GlobalCommand(action: string)
    | GroupCommand(gid: string, action: string)
    | Datagram(rid: string, status: string, ip: string)
    | Reap
    | SetMode(rid: string, mode: string)
    | SetDriverName(rid: string, name: string)
    | CreateGroup(gid: string, name: string)
    | UpdateGroup(gid: string, newName: Option<string>, newTrack: Option<string>)
    | DeleteGroup(gid: string)
    | AddRigToGroup(gid: string, rid: string)
    | RemoveRigFromGroup(gid: string, rid: string)
    | FullUpdate
    | BoardRequest(op: Leaderboard.Op)

  const KILL_GUARD := 10.0
  const DOWNGRADE_DELAY := 3.0
  const STALE_AFTER := 10.0

  // ------------------------------------------------------------------
  // Groups
  // ------------------------------------------------------------------

  /** `next((g for g in groups if rig_id in g.rig_ids), None)`. */
  function GroupOf(groups: seq<Group>, rid: string): Option<Group> {
    if groups == [] then None
    else if rid in groups[0].rigIds then Some(groups[0])
    else GroupOf(groups[1..], rid)
  }

  /** `self._groups.get(group_id)`. */
  function Find(groups: seq<Group>, gid: string): Option<Group> {
    if groups == [] then None
    else if groups[0].id == gid then Some(groups[0])
    else Find(groups[1..], gid)
  }

  /** `list.remove`. */
  function RemoveFirst(ids: seq<string>, rid: string): seq<string> {
    if ids == [] then []
    else if ids[0] == rid then ids[1..]
    else [ids[0]] + RemoveFirst(ids[1..], rid)
  }

  function Store(groups: seq<Group>, g: Group): seq<Group> {
    if groups == [] then [g]
    else if groups[0].id == g.id then [g] + groups[1..]
    else [groups[0]] + Store(groups[1..], g)
  }

  function Drop(groups: seq<Group>, gid: string): seq<Group> {
    if groups == [] then []
    else if groups[0].id == gid then groups[1..]
    else [groups[0]] + Drop(groups[1..], gid)
  }

  function WithoutRig(g: Group, rid: string): Group {
    g.(rigIds := RemoveFirst(g.rigIds, rid))
  }

  /** Every group without `rid`, and then `gid` with it at its end. */
  function Moved(groups: seq<Group>, gid: string, rid: string): seq<Group> {
    if groups == [] then []
    else
      var g := WithoutRig(groups[0], rid);
      [if g.id == gid then g.(rigIds := g.rigIds + [rid]) else g] + Moved(groups[1..], gid, rid)
  }

  // ------------------------------------------------------------------
  // Rig records
  // ------------------------------------------------------------------

  function NewRig(now: real): Rig {
    Rig("idle", "lockout", None, now, None, 0, None, "", "")
  }

  /** The dictionary order once `rid` has a record. */
  function Entered(rigs: map<string, Rig>, order: seq<string>, rid: string): seq<string> {
    if rid in rigs then order else order + [rid]
  }

  /** `upsert_rig` with an address. */
  function Seen(rigs: map<string, Rig>, rid: string, ip: string, now: real): Rig {
    (if rid in rigs then rigs[rid] else NewRig(now)).(ip := Some(ip), lastSeen := now)
  }

  /** The status part of a post, on the record `upsert_rig` has returned. */
  function PostedStatus(rig: Rig, status: Option<string>, now: real): Rig {
    if status == None || status.value == "" then rig
    else
      var s := status.value;
      if s == "racing" && rig.killRequestedAt.Some? then
        if now - rig.killRequestedAt.value < KILL_GUARD then rig
        else rig.(killRequestedAt := None, status := s)
      else if rig.status in {"racing", "ready"} && s in {"idle", "setup"} then
        if now - rig.lastSeen < DOWNGRADE_DELAY then rig
        else rig.(status := s, killRequestedAt := None)
      else rig.(status := s)
  }

  /** The car part: only posts that carry no temperature and no telemetry select a car. */
  function PostedCar(rig: Rig, u: StatusUpdate): Rig {
    if u.selectedCar == None || u.hasCpuTemp || u.telemetry.Some? then rig
    else if u.selectedCar.value in {"", "None"} then rig.(selectedCar := "None")
    else rig.(selectedCar := u.selectedCar.value)
  }

  /** The lap count of a post, if it has one. */
  function LapCount(u: StatusUpdate): Option<int> {
    match u.telemetry
    case Some(Frame(n, _)) => Some(n)
    case _ => None
  }

  predicate CompletesLap(rig: Rig, u: StatusUpdate) {
    LapCount(u).Some? && LapCount(u).value > rig.lastLapCount
  }

  function LapEntry(groups: seq<Group>, rid: string, rig: Rig, u: StatusUpdate, now: real): Leaderboard.Entry
    requires LapCount(u).Some?
  {
    var g := GroupOf(groups, rid);
    Leaderboard.Entry(
      rid, if rig.driverName == "" then None else Some(rig.driverName), Some(rig.selectedCar),
      if g.Some? then Some(g.value.track) else None, if g.Some? then Some(g.value.name) else None,
      u.telemetry.value.completedLaps, u.telemetry.value.lapTimeMs,
      if g.Some? then Some(g.value.id) else None, now)
  }

  /** The record before the lap part of a post. */
  function PostedRig(rigs: map<string, Rig>, rid: string, u: StatusUpdate, now: real): Rig {
    PostedCar(PostedStatus(Seen(rigs, rid, u.ip, now), u.status, now), u)
  }

  /** The lap part of a post. */
  function OnLap(h: Hub, rid: string, u: StatusUpdate, now: real): Hub
    requires rid in h.rigs
  {
    var rig := h.rigs[rid];
    if CompletesLap(rig, u) then
      h.(rigs := h.rigs[rid := rig.(lastLapCount := LapCount(u).value)],
         board := Leaderboard.Recorded(h.board, LapEntry(h.groups, rid, rig, u, now)))
    else h
  }

  function OnPost(h: Hub, rid: string, u: StatusUpdate, now: real): Hub {
    var posted := h.rigs[rid := PostedRig(h.rigs, rid, u, now)];
    OnLap(h.(rigs := posted, order := Entered(h.rigs, h.order, rid)), rid, u, now)
  }

  /** `action_status_map`. */
  function CommandedStatus(action: string): Option<string> {
    if action == "SETUP_MODE" then Some("setup") else if action == "KILL_RACE" then Some("idle") else None
  }

  function CommandedGuard(rig: Rig, action: string, now: real): Option<real> {
    if action == "KILL_RACE" then Some(now)
    else if action == "LAUNCH_RACE" then None
    else rig.killRequestedAt
  }

  /** A command to this rig alone. */
  function Commanded(rig: Rig, action: string, now: real): Rig {
    rig.(status := if CommandedStatus(action).Some? then CommandedStatus(action).value else rig.status,
         killRequestedAt := CommandedGuard(rig, action, now),
         selectedCar := if action == "SETUP_MODE" then "None" else rig.selectedCar)
  }

  /** A command to all rigs or to a group: an action that is not in the map means "idle". */
  function Broadcast(rig: Rig, action: string, now: real): Rig {
    rig.(status := if CommandedStatus(action).Some? then CommandedStatus(action).value else "idle",
         killRequestedAt := CommandedGuard(rig, action, now),
         selectedCar := if action == "SETUP_MODE" then "None" else rig.selectedCar)
  }

  /** The records that a loop over `ids` gets to: it passes over ids without a record, and stops with
      an error at the first record without an address, which it has already changed. */
  function Served(rigs: map<string, Rig>, ids: seq<string>): set<string> {
    if ids == [] then {}
    else if ids[0] !in rigs then Served(rigs, ids[1..])
    else {ids[0]} + if rigs[ids[0]].ip == None then {} else Served(rigs, ids[1..])
  }

  /** No record of `ids` lacks an address: a loop over them goes through. */
  predicate AllAddressed(rigs: map<string, Rig>, ids: seq<string>) {
    forall r <- ids | r in rigs :: rigs[r].ip.Some?
  }

  function BroadcastTo(rigs: map<string, Rig>, served: set<string>, action: string, now: real): map<string, Rig> {
    map r | r in rigs :: if r in served then Broadcast(rigs[r], action, now) else rigs[r]
  }

  /** A command to a group: the first loop reaches every member, the second may stop early. */
  function GroupCommanded(rigs: map<string, Rig>, ids: seq<string>, action: string, now: real): map<string, Rig> {
    map r | r in rigs ::
      if r in Served(rigs, ids) then Broadcast(rigs[r], action, now)
      else if r in ids then Marked(rigs[r], action, now)
      else rigs[r]
  }

  /** What the second loop of a group command leaves of a record. */
  function Set(rig: Rig, action: string, newStatus: string): Rig {
    rig.(status := newStatus, selectedCar := if action == "SETUP_MODE" then "None" else rig.selectedCar)
  }

  /** What its first loop leaves. */
  function Marked(rig: Rig, action: string, now: real): Rig {
    rig.(killRequestedAt := CommandedGuard(rig, action, now),
         status := if action == "KILL_RACE" then "idle" else rig.status)
  }

  lemma SetMarked(rig: Rig, action: string, newStatus: string, now: real)
    requires newStatus == if CommandedStatus(action).Some? then CommandedStatus(action).value else "idle"
    ensures Set(Marked(rig, action, now), action, newStatus) == Broadcast(rig, action, now)
  {}

  lemma MarkedKeepsAddress(rig: Rig, action: string, now: real)
    ensures Marked(rig, action, now).ip == rig.ip
  {}

  predicate Stale(rig: Rig, now: real) {
    now - rig.lastSeen > STALE_AFTER
  }

  /** The records of `ids` set idle. */
  function Idled(rigs: map<string, Rig>, ids: seq<string>): map<string, Rig> {
    map r | r in rigs :: if r in ids then rigs[r].(status := "idle") else rigs[r]
  }

  /** The ids whose record the reaper leaves. */
  function Unreaped(rigs: map<string, Rig>, order: seq<string>, now: real): seq<string> {
    if order == [] then []
    else
      (if order[0] in rigs && Stale(rigs[order[0]], now) then [] else [order[0]]) + Unreaped(rigs, order[1..], now)
  }

  /** Fields that are not given stay as they are. */
  function Updated(g: Group, name: Option<string>, track: Option<string>): Group {
    g.(name := if name.Some? then name.value else g.name, track := if track.Some? then track.value else g.track)
  }

  function Members(groups: seq<Group>, gid: string): seq<string> {
    match Find(groups, gid) case Some(g) => g.rigIds case None => []
  }

  /** The records of `ids` with no group. */
  function Unassigned(rigs: map<string, Rig>, ids: set<string>): map<string, Rig> {
    map r | r in rigs :: if r in ids then rigs[r].(groupId := None) else rigs[r]
  }

  // ------------------------------------------------------------------
  // One event
  // ------------------------------------------------------------------

  function Next(h: Hub, e: Event, now: real): Hub {
    match e
    case Post(rid, u) => OnPost(h, rid, u, now)
    case Command(rid, action) =>
      if rid in h.rigs then h.(rigs := h.rigs[rid := Commanded(h.rigs[rid], action, now)]) else h
    case GlobalCommand(action) => h.(rigs := BroadcastTo(h.rigs, Served(h.rigs, h.order), action, now))
    case GroupCommand(gid, action) => h.(rigs := GroupCommanded(h.rigs, Members(h.groups, gid), action, now))
    case Datagram(rid, status, ip) =>
      if rid == "" then h
      else h.(rigs := h.rigs[rid := Seen(h.rigs, rid, ip, now).(status := status)],
              order := Entered(h.rigs, h.order, rid))
    case Reap =>
      h.(rigs := map r | r in h.rigs && !Stale(h.rigs[r], now) :: h.rigs[r],
         order := Unreaped(h.rigs, h.order, now))
    case SetMode(rid, mode) => if rid in h.rigs then h.(rigs := h.rigs[rid := h.rigs[rid].(mode := mode)]) else h
    case SetDriverName(rid, name) =>
      h.(rigs := h.rigs[rid := (if rid in h.rigs then h.rigs[rid] else NewRig(now)).(driverName := name)],
         order := Entered(h.rigs, h.order, rid))
    case CreateGroup(gid, name) => h.(groups := Store(h.groups, Group(gid, name, "monza", [])))
    case UpdateGroup(gid, name, track) =>
      if Find(h.groups, gid) == None then h
      else h.(groups := Store(h.groups, Updated(Find(h.groups, gid).value, name, track)))
    case DeleteGroup(gid) =>
      h.(rigs := Unassigned(h.rigs, (set r <- Members(h.groups, gid))), groups := Drop(h.groups, gid))
    case AddRigToGroup(gid, rid) =>
      if Find(h.groups, gid) == None then h
      else h.(groups := Moved(h.groups, gid, rid),
              rigs := if rid in h.rigs then h.rigs[rid := h.rigs[rid].(groupId := Some(gid))] else h.rigs)
    case RemoveRigFromGroup(gid, rid) =>
      if rid !in Members(h.groups, gid) then h
      else h.(groups := Store(h.groups, WithoutRig(Find(h.groups, gid).value, rid)),
              rigs := Unassigned(h.rigs, {rid}))
    case FullUpdate => h.(rigs := Idled(h.rigs, h.order))
    case BoardRequest(op) => h.(board := Leaderboard.Apply(h.board, op))
  }

  /** The reaper takes this rig's record. */
  predicate Reaped(h: Hub, e: Event, now: real, rid: string) {
    e.Reap? && rid in h.rigs && Stale(h.rigs[rid], now)
  }

  /** An event with the clock reading of its handler. */
  type Stamped = (Event, real)

  function Run(h: Hub, es: seq<Stamped>): Hub {
    if es == [] then h else Next(Run(h, es[..|es| - 1]), es[|es| - 1].0, es[|es| - 1].1)
  }

  // ------------------------------------------------------------------
  // One record
  // ------------------------------------------------------------------

  function RigOf(h: Hub, rid: string): Option<Rig> {
    if rid in h.rigs then Some(h.rigs[rid]) else None
  }

  /** The record of `rid` after a post for it. */
  function RigPosted(h: Hub, rid: string, u: StatusUpdate, now: real): Rig {
    var rig := PostedRig(h.rigs, rid, u, now);
    if CompletesLap(rig, u) then rig.(lastLapCount := LapCount(u).value) else rig
  }

  /** What an event makes of one rig's record. */
  function RigAfter(h: Hub, e: Event, now: real, rid: string): Option<Rig> {
    var known, before := rid in h.rigs, RigOf(h, rid);
    match e
    case Post(r, u) => if r == rid then Some(RigPosted(h, rid, u, now)) else before
    case Datagram(r, s, ip) =>
      if r == rid && rid != "" then Some(Seen(h.rigs, rid, ip, now).(status := s)) else before
    case SetDriverName(r, name) =>
      if r == rid then Some((if known then h.rigs[rid] else NewRig(now)).(driverName := name)) else before
    case Reap => if Reaped(h, e, now, rid) then None else before
    case Command(r, a) => if r == rid && known then Some(Commanded(h.rigs[rid], a, now)) else before
    case GlobalCommand(a) =>
      if known && rid in Served(h.rigs, h.order) then Some(Broadcast(h.rigs[rid], a, now)) else before
    case GroupCommand(g, a) =>
      var ids := Members(h.groups, g);
      if known && rid in Served(h.rigs, ids) then Some(Broadcast(h.rigs[rid], a, now))
      else if known && rid in ids then Some(Marked(h.rigs[rid], a, now))
      else before
    case SetMode(r, mode) => if r == rid && known then Some(h.rigs[rid].(mode := mode)) else before
    case DeleteGroup(g) =>
      if known && rid in Members(h.groups, g) then Some(h.rigs[rid].(groupId := None)) else before
    case AddRigToGroup(g, r) =>
      if r == rid && known && Find(h.groups, g).Some? then Some(h.rigs[rid].(groupId := Some(g))) else before
    case RemoveRigFromGroup(g, r) =>
      if r == rid && known && r in Members(h.groups, g) then Some(h.rigs[rid].(groupId := None)) else before
    case FullUpdate => if known && rid in h.order then Some(h.rigs[rid].(status := "idle")) else before
    case CreateGroup(_, _) => before
    case UpdateGroup(_, _, _) => before
    case BoardRequest(_) => before
  }

  lemma RecordStep(h: Hub, e: Event, now: real, rid: string)
    ensures RigOf(Next(h, e, now), rid) == RigAfter(h, e, now, rid)
  {
    hide Served, Find, Moved, Drop, Store, Unreaped, GroupOf, Broadcast, Marked, Commanded, PostedStatus, PostedCar;
    hide LapEntry, Leaderboard.Apply, Leaderboard.Recorded;
  }

  function GroupsAfter(groups: seq<Group>, e: Event): seq<Group> {
    match e
    case CreateGroup(gid, name) => Store(groups, Group(gid, name, "monza", []))
    case UpdateGroup(gid, name, track) =>
      if Find(groups, gid) == None then groups else Store(groups, Updated(Find(groups, gid).value, name, track))
    case DeleteGroup(gid) => Drop(groups, gid)
    case AddRigToGroup(gid, rid) => if Find(groups, gid) == None then groups else Moved(groups, gid, rid)
    case RemoveRigFromGroup(gid, rid) =>
      if rid !in Members(groups, gid) then groups else Store(groups, WithoutRig(Find(groups, gid).value, rid))
    case _ => groups
  }

  lemma GroupsStep(h: Hub, e: Event, now: real)
    ensures Next(h, e, now).groups == GroupsAfter(h.groups, e)
  {
    hide Served, Find, Moved, Drop, Store, Unreaped, GroupOf, PostedRig, LapEntry;
    hide Leaderboard.Apply, Leaderboard.Recorded;
  }

  lemma RunStep(h: Hub, es: seq<Stamped>)
    requires es != []
    ensures Run(h, es) == Next(Run(h, es[..|es| - 1]), es[|es| - 1].0, es[|es| - 1].1)
  {}

  // ------------------------------------------------------------------
  // The loops over records
  // ------------------------------------------------------------------

  lemma OnGlobalCommand(h: Hub, action: string, now: real)
    ensures Next(h, GlobalCommand(action), now) ==
            h.(rigs := BroadcastTo(h.rigs, Served(h.rigs, h.order), action, now))
  {}

  lemma OnGroupCommand(h: Hub, gid: string, action: string, now: real)
    ensures Next(h, GroupCommand(gid, action), now) ==
            h.(rigs := GroupCommanded(h.rigs, Members(h.groups, gid), action, now))
  {}

  lemma OnFullUpdate(h: Hub)
    ensures forall now :: Next(h, FullUpdate, now) == h.(rigs := Idled(h.rigs, h.order))
  {}

  lemma OnDeleteGroup(h: Hub, gid: string)
    ensures forall now :: Next(h, DeleteGroup(gid), now) ==
              h.(rigs := Unassigned(h.rigs, (set r <- Members(h.groups, gid))), groups := Drop(h.groups, gid))
  {}

  /** A record is reached if and only if no record before it in the loop lacks an address. */
  lemma {:induction false} ServedIff(rigs: map<string, Rig>, ids: seq<string>, rid: string)
    ensures rid in Served(rigs, ids) <==>
            && rid in rigs
            && exists i | 0 <= i < |ids| ::
                 ids[i] == rid && forall j | 0 <= j < i :: ids[j] in rigs ==> rigs[ids[j]].ip.Some?
  {
    if ids != [] {
      var rest := ids[1..];
      ServedIff(rigs, rest, rid);
      assert forall i | 0 < i < |ids| :: ids[i] == rest[i - 1];
      if i :| 0 <= i < |rest| && rest[i] == rid && forall j | 0 <= j < i :: rest[j] in rigs ==> rigs[rest[j]].ip.Some? {
        assert ids[i + 1] == rid;
      }
    }
  }

  lemma {:induction false} ServedDependsOn(rigs: map<string, Rig>, others: map<string, Rig>, ids: seq<string>)
    requires rigs.Keys == others.Keys && forall r <- rigs :: rigs[r].ip == others[r].ip
    ensures Served(rigs, ids) == Served(others, ids)
  {
    if ids != [] {
      ServedDependsOn(rigs, others, ids[1..]);
    }
  }

  lemma SameAddresses(rigs: map<string, Rig>, others: map<string, Rig>, ids: seq<string>)
    requires rigs.Keys == others.Keys && forall r <- rigs :: rigs[r].ip == others[r].ip
    ensures AllAddressed(rigs, ids) <==> AllAddressed(others, ids)
  {}

  /** One turn of a loop. */
  lemma ServedStep(rigs: map<string, Rig>, ids: seq<string>, i: nat)
    requires i < |ids|
    ensures Served(rigs, ids[i..]) ==
            if ids[i] !in rigs then Served(rigs, ids[i + 1..])
            else {ids[i]} + if rigs[ids[i]].ip == None then {} else Served(rigs, ids[i + 1..])
    ensures AllAddressed(rigs, ids[..i]) && (ids[i] in rigs ==> rigs[ids[i]].ip.Some?) ==>
              AllAddressed(rigs, ids[..i + 1])
    ensures ids[i] in rigs && rigs[ids[i]].ip == None ==> !AllAddressed(rigs, ids)
  {
    assert ids[i..][0] == ids[i] && ids[i..][1..] == ids[i + 1..];
    assert ids[..i + 1] == ids[..i] + [ids[i]];
  }

  lemma NoneUnaddressed(rigs: map<string, Rig>, none: seq<string>)
    requires none == []
    ensures AllAddressed(rigs, none)
  {}

  lemma ServedNone(rigs: map<string, Rig>, none: seq<string>)
    requires none == []
    ensures Served(rigs, none) == {}
  {}

  lemma BroadcastTwice(rig: Rig, action: string, now: real)
    ensures Broadcast(Broadcast(rig, action, now), action, now) == Broadcast(rig, action, now)
    ensures Broadcast(rig, action, now).ip == rig.ip
  {}

  /** One more turn of the global loop. */
  lemma BroadcastNext(rigs: map<string, Rig>, done: set<string>, rid: string, action: string, now: real)
    ensures var b := BroadcastTo(rigs, done, action, now);
            && (rid in b <==> rid in rigs)
            && (rid in rigs ==>
                  && b[rid := Broadcast(b[rid], action, now)] == BroadcastTo(rigs, done + {rid}, action, now)
                  && Broadcast(b[rid], action, now).ip == rigs[rid].ip)
  {
    hide Broadcast;
    if rid in rigs {
      BroadcastTwice(rigs[rid], action, now);
    }
  }

  lemma BroadcastToNone(rigs: map<string, Rig>, action: string, now: real)
    ensures BroadcastTo(rigs, {}, action, now) == rigs
  {}

  // ------------------------------------------------------------------
  // The state object
  // ------------------------------------------------------------------

  class AppState {
    var rigs: map<string, Rig>
    var order: seq<string>
    var groups: seq<Group>
    const db: Leaderboard.LeaderboardDB

    constructor (db: Leaderboard.LeaderboardDB)
      ensures this.db == db && rigs == map[] && order == [] && groups == []
    {
      rigs, order, groups := map[], [], [];
      this.db := db;
    }

    function View(): Hub
      reads this, db
    {
      Hub(rigs, order, groups, db.View())
    }

    /** `upsert_rig(rig_id, {"ip": ip})`. */
    method UpsertRig(rid: string, ip: string, now: real)
      modifies this`rigs, this`order
      ensures rigs == old(rigs)[rid := Seen(old(rigs), rid, ip, now)]
      ensures order == Entered(old(rigs), old(order), rid)
    {
      if rid !in rigs {
        rigs := rigs[rid := NewRig(now).(ip := Some(ip))];
        order := order + [rid];
      } else {
        rigs := rigs[rid := rigs[rid].(ip := Some(ip))];
        rigs := rigs[rid := rigs[rid].(lastSeen := now)];
      }
    }

    method UpdateRigStatus(rid: string, u: StatusUpdate, now: real)
      modifies this`rigs, this`order, db
      ensures View() == Next(old(View()), Post(rid, u), now)
    {
      ghost var h := View();
      UpsertRig(rid, u.ip, now);
      if u.status.Some? && u.status.value != "" {
        UpdateStatus(rid, u.status.value, now);
      }
      SelectCar(rid, u);
      assert rigs == h.rigs[rid := PostedRig(h.rigs, rid, u, now)];
      CaptureLap(rid, u, now);
    }

    /** Heartbeats, which carry a temperature or telemetry, never select a car. */
    method SelectCar(rid: string, u: StatusUpdate)
      requires rid in rigs
      modifies this`rigs
      ensures rigs == old(rigs)[rid := PostedCar(old(rigs)[rid], u)]
    {
      if u.selectedCar.Some? && !(u.hasCpuTemp || u.telemetry.Some?) {
        if u.selectedCar.value !in {"", "None"} {
          rigs := rigs[rid := rigs[rid].(selectedCar := u.selectedCar.value)];
        } else {
          rigs := rigs[rid := rigs[rid].(selectedCar := "None")];
        }
      }
    }

    /** The precedence rules for a posted status. */
    method UpdateStatus(rid: string, newStatus: string, now: real)
      requires rid in rigs && newStatus != ""
      modifies this`rigs
      ensures rigs == old(rigs)[rid := PostedStatus(old(rigs)[rid], Some(newStatus), now)]
    {
      var rig := rigs[rid];
      if newStatus == "racing" && rig.killRequestedAt.Some? {
        var elapsed := now - rig.killRequestedAt.value;
        if elapsed >= KILL_GUARD {
          rigs := rigs[rid := rigs[rid].(killRequestedAt := None)];
          rigs := rigs[rid := rigs[rid].(status := newStatus)];
        }
      } else if rig.status in {"racing", "ready"} && newStatus in {"idle", "setup"} {
        if now - rig.lastSeen >= DOWNGRADE_DELAY {
          rigs := rigs[rid := rigs[rid].(status := newStatus)];
          rigs := rigs[rid := rigs[rid].(killRequestedAt := None)];
        }
      } else {
        rigs := rigs[rid := rigs[rid].(status := newStatus)];
      }
    }

    /** Record a lap, under the rig's group, when the lap count has grown. */
    method CaptureLap(rid: string, u: StatusUpdate, now: real)
      requires rid in rigs
      modifies this`rigs, db
      ensures View() == OnLap(old(View()), rid, u, now)
    {
      match u.telemetry
      case Some(Frame(completed, lapTimeMs)) =>
        var rig := rigs[rid];
        if completed > rig.lastLapCount {
          rigs := rigs[rid := rig.(lastLapCount := completed)];
          var g := FirstGroupOf(rid);
          var entry := Leaderboard.Entry(
            rid, if rig.driverName == "" then None else Some(rig.driverName), Some(rig.selectedCar),
            if g.Some? then Some(g.value.track) else None, if g.Some? then Some(g.value.name) else None,
            completed, lapTimeMs, if g.Some? then Some(g.value.id) else None, now);
          db.Insert(entry);
          db.UpsertSessionBest(entry);
        }
      case _ =>
    }

    method FirstGroupOf(rid: string) returns (r: Option<Group>)
      ensures r == GroupOf(groups, rid)
    {
      assert groups[0..] == groups;
      for i := 0 to |groups|
        invariant GroupOf(groups[i..], rid) == GroupOf(groups, rid)
      {
        assert groups[i..][0] == groups[i] && groups[i..][1..] == groups[i + 1..];
        if rid in groups[i].rigIds {
          return Some(groups[i]);
        }
      }
      r := None;
    }

    method RemoveStaleRigs(now: real)
      modifies this`rigs, this`order
      ensures View() == Next(old(View()), Reap, now)
    {
      var stale := set r | r in rigs && Stale(rigs[r], now);
      order := Unreaped(rigs, order, now);
      rigs := rigs - stale;
    }

    method SendCommand(rid: string, action: string, now: real) returns (found: bool)
      modifies this`rigs
      ensures View() == Next(old(View()), Command(rid, action), now)
      ensures found <==> rid in old(rigs)
    {
      found := rid in rigs;
      if !found {
        return;
      }
      var newStatus := CommandedStatus(action);
      if newStatus.Some? {
        rigs := rigs[rid := rigs[rid].(status := newStatus.value)];
      }
      if action == "KILL_RACE" {
        rigs := rigs[rid := rigs[rid].(killRequestedAt := Some(now))];
      } else if action == "LAUNCH_RACE" {
        rigs := rigs[rid := rigs[rid].(killRequestedAt := None)];
      }
      if action == "SETUP_MODE" {
        rigs := rigs[rid := rigs[rid].(selectedCar := "None")];
      }
    }

    /** `ok` is false when the loop stops at a record without an address. */
    method SendGlobalCommand(action: string, now: real) returns (ok: bool)
      modifies this`rigs
      ensures View() == Next(old(View()), GlobalCommand(action), now)
      ensures ok <==> AllAddressed(old(rigs), order)
    {
      var newStatus := if CommandedStatus(action).Some? then CommandedStatus(action).value else "idle";
      hide Next, Served, CommandedStatus, AllAddressed, BroadcastTo;
      OnGlobalCommand(View(), action, now);
      ok := CommandAll(action, newStatus, now);
    }

    /** The global loop. */
    method CommandAll(action: string, newStatus: string, now: real) returns (ok: bool)
      requires newStatus == if CommandedStatus(action).Some? then CommandedStatus(action).value else "idle"
      modifies this`rigs
      ensures rigs == BroadcastTo(old(rigs), Served(old(rigs), order), action, now)
      ensures ok <==> AllAddressed(old(rigs), order)
    {
      hide Broadcast, BroadcastTo, CommandedStatus, Served, AllAddressed;
      ghost var before := rigs;
      BroadcastToNone(before, action, now);
      NoneUnaddressed(before, order[..0]);
      ghost var done: set<string> := {};
      assert order[0..] == order;
      for i := 0 to |order|
        invariant rigs == BroadcastTo(before, done, action, now)
        invariant done + Served(before, order[i..]) == Served(before, order)
        invariant AllAddressed(before, order[..i])
      {
        var rid := order[i];
        ServedStep(before, order, i);
        BroadcastNext(before, done, rid, action, now);
        if rid in rigs {
          CommandOne(rid, action, newStatus, now);
          done := done + {rid};
          if rigs[rid].ip == None {
            assert done == Served(before, order);
            return false;
          }
        }
      }
      ServedNone(before, order[|order|..]);
      assert order[..|order|] == order;
      ok := true;
    }

    /** The body of the global loop. */
    method CommandOne(rid: string, action: string, newStatus: string, now: real)
      requires rid in rigs
      requires newStatus == if CommandedStatus(action).Some? then CommandedStatus(action).value else "idle"
      modifies this`rigs
      ensures rigs == old(rigs)[rid := Broadcast(old(rigs)[rid], action, now)]
    {
      if action == "SETUP_MODE" {
        rigs := rigs[rid := rigs[rid].(selectedCar := "None")];
        rigs := rigs[rid := rigs[rid].(status := "setup")];
      }
      rigs := rigs[rid := rigs[rid].(status := newStatus)];
      if action == "KILL_RACE" {
        rigs := rigs[rid := rigs[rid].(killRequestedAt := Some(now))];
      } else if action == "LAUNCH_RACE" {
        rigs := rigs[rid := rigs[rid].(killRequestedAt := None)];
      }
    }

    /** `ok` is false when the second loop stops at a record without an address. */
    method SendGroupCommand(gid: string, action: string, now: real) returns (found: bool, ok: bool)
      modifies this`rigs
      ensures View() == Next(old(View()), GroupCommand(gid, action), now)
      ensures found <==> Find(groups, gid).Some?
      ensures ok <==> AllAddressed(old(rigs), Members(groups, gid))
    {
      hide Served, AllAddressed, Marked, Broadcast, Set, CommandedStatus, Next;
      OnGroupCommand(View(), gid, action, now);
      ghost var before := rigs;
      var group := Find(groups, gid);
      found, ok := group.Some?, true;
      if !found {
        ServedNone(rigs, []);
        NoneUnaddressed(rigs, []);
        return;
      }
      var ids := group.value.rigIds;
      var newStatus := if CommandedStatus(action).Some? then CommandedStatus(action).value else "idle";
      MarkFor(ids, action, now);
      ghost var marked := rigs;
      forall r <- before ensures marked[r].ip == before[r].ip {
        MarkedKeepsAddress(before[r], action, now);
      }
      ServedDependsOn(before, marked, ids);
      ok := SetAll(ids, action, newStatus);
      SameAddresses(before, marked, ids);
      forall r <- before ensures rigs[r] == GroupCommanded(before, ids, action, now)[r] {
        ServedIff(before, ids, r);
        SetMarked(before[r], action, newStatus, now);
      }
    }

    /** The first loop of a group command, which only KILL_RACE and LAUNCH_RACE have. */
    method MarkFor(ids: seq<string>, action: string, now: real)
      modifies this`rigs
      ensures rigs.Keys == old(rigs).Keys
      ensures forall r <- rigs :: rigs[r] == if r in ids then Marked(old(rigs)[r], action, now) else old(rigs)[r]
    {
      if action == "KILL_RACE" {
        MarkAll(ids, Some(now), true);
      } else if action == "LAUNCH_RACE" {
        MarkAll(ids, None, false);
      }
    }

    /** The second loop of a group command. */
    method SetAll(ids: seq<string>, action: string, newStatus: string) returns (ok: bool)
      modifies this`rigs
      ensures rigs.Keys == old(rigs).Keys
      ensures forall r <- rigs ::
                rigs[r] == if r in Served(old(rigs), ids) then Set(old(rigs)[r], action, newStatus) else old(rigs)[r]
      ensures ok <==> AllAddressed(old(rigs), ids)
    {
      hide Served, AllAddressed;
      ghost var before := rigs;
      NoneUnaddressed(before, ids[..0]);
      ghost var done: set<string> := {};
      assert ids[0..] == ids;
      for i := 0 to |ids|
        invariant rigs.Keys == before.Keys
        invariant forall r <- rigs :: rigs[r] == if r in done then Set(before[r], action, newStatus) else before[r]
        invariant done + Served(before, ids[i..]) == Served(before, ids)
        invariant AllAddressed(before, ids[..i])
      {
        var rid := ids[i];
        ServedStep(before, ids, i);
        if rid in rigs {
          SetOne(rid, action, newStatus);
          done := done + {rid};
          if rigs[rid].ip == None {
            return false;
          }
        }
      }
      ServedNone(before, ids[|ids|..]);
      assert ids[..|ids|] == ids;
      ok := true;
    }

    /** The body of the second loop of a group command. */
    method SetOne(rid: string, action: string, newStatus: string)
      requires rid in rigs
      modifies this`rigs
      ensures rigs == old(rigs)[rid := Set(old(rigs)[rid], action, newStatus)]
    {
      if action == "SETUP_MODE" {
        rigs := rigs[rid := rigs[rid].(selectedCar := "None")];
        rigs := rigs[rid := rigs[rid].(status := "setup")];
      }
      rigs := rigs[rid := rigs[rid].(status := newStatus)];
    }

    /** The first loop of a group command: set or clear the guard, and mark killed rigs idle. */
    method MarkAll(ids: seq<string>, guard: Option<real>, idle: bool)
      modifies this`rigs
      ensures rigs.Keys == old(rigs).Keys
      ensures forall r <- rigs :: rigs[r] ==
                if r !in ids then old(rigs)[r]
                else old(rigs)[r].(killRequestedAt := guard, status := if idle then "idle" else old(rigs)[r].status)
    {
      for i := 0 to |ids|
        invariant rigs.Keys == old(rigs).Keys
        invariant forall r <- rigs :: rigs[r] ==
                    if r !in ids[..i] then old(rigs)[r]
                    else old(rigs)[r].(killRequestedAt := guard, status := if idle then "idle" else old(rigs)[r].status)
      {
        assert ids[..i + 1] == ids[..i] + [ids[i]];
        var rid := ids[i];
        if rid in rigs {
          if idle {
            rigs := rigs[rid := rigs[rid].(status := "idle")];
          }
          rigs := rigs[rid := rigs[rid].(killRequestedAt := guard)];
        }
      }
      assert ids[..|ids|] == ids;
    }

    method ReceiveDatagram(rid: string, status: string, ip: string, now: real)
      modifies this`rigs, this`order
      ensures View() == Next(old(View()), Datagram(rid, status, ip), now)
    {
      if rid == "" {
        return;
      }
      UpsertRig(rid, ip, now);
      rigs := rigs[rid := rigs[rid].(status := status)];
    }

    method SetRigMode(rid: string, mode: string) returns (found: bool)
      modifies this`rigs
      ensures forall now :: View() == Next(old(View()), SetMode(rid, mode), now)
      ensures found <==> rid in old(rigs)
    {
      found := rid in rigs;
      if found {
        rigs := rigs[rid := rigs[rid].(mode := mode)];
      }
    }

    method SetRigDriverName(rid: string, name: string, now: real)
      modifies this`rigs, this`order
      ensures View() == Next(old(View()), SetDriverName(rid, name), now)
    {
      if rid !in rigs {
        rigs := rigs[rid := NewRig(now).(driverName := name)];
        order := order + [rid];
      } else {
        rigs := rigs[rid := rigs[rid].(driverName := name)];
      }
    }

    /** `gid` is the id the new group has been given. */
    method AddGroup(gid: string, name: string)
      modifies this`groups
      ensures forall now :: View() == Next(old(View()), CreateGroup(gid, name), now)
    {
      groups := Store(groups, Group(gid, name, "monza", []));
    }

    method UpdateTheGroup(gid: string, name: Option<string>, track: Option<string>) returns (found: bool)
      modifies this`groups
      ensures forall now :: View() == Next(old(View()), UpdateGroup(gid, name, track), now)
      ensures found <==> Find(old(groups), gid).Some?
    {
      var group := Find(groups, gid);
      found := group.Some?;
      if found {
        var g := group.value;
        if name.Some? {
          g := g.(name := name.value);
        }
        if track.Some? {
          g := g.(track := track.value);
        }
        groups := Store(groups, g);
      }
    }

    /** The loop of a full update over the rigs. */
    method UpdateEverything()
      modifies this`rigs
      ensures forall now :: View() == Next(old(View()), FullUpdate, now)
    {
      hide Next;
      OnFullUpdate(View());
      for i := 0 to |order|
        invariant rigs == Idled(old(rigs), order[..i])
      {
        var rid := order[i];
        assert order[..i + 1] == order[..i] + [rid];
        if rid in rigs {
          rigs := rigs[rid := rigs[rid].(status := "idle")];
        }
      }
      assert order[..|order|] == order;
    }

    method AddRig(gid: string, rid: string) returns (ok: bool)
      modifies this`rigs, this`groups
      ensures forall now :: View() == Next(old(View()), AddRigToGroup(gid, rid), now)
      ensures ok <==> Find(old(groups), gid).Some?
    {
      var group := Find(groups, gid);
      ok := group.Some?;
      if !ok {
        return;
      }
      ghost var before := groups;
      var moved: seq<Group> := [];
      assert groups[0..] == groups;
      for i := 0 to |groups|
        invariant View() == old(View()) && groups == before
        invariant moved + Moved(groups[i..], gid, rid) == Moved(groups, gid, rid)
      {
        assert groups[i..][0] == groups[i] && groups[i..][1..] == groups[i + 1..];
        var g := groups[i];
        if rid in g.rigIds {
          g := g.(rigIds := RemoveFirst(g.rigIds, rid));
        } else {
          RemoveAbsent(g.rigIds, rid);
        }
        if g.id == gid {
          g := g.(rigIds := g.rigIds + [rid]);
        }
        Associative(moved, [g], Moved(groups[i + 1..], gid, rid));
        moved := moved + [g];
      }
      assert groups[|groups|..] == [];
      groups := moved;
      if rid in rigs {
        rigs := rigs[rid := rigs[rid].(groupId := Some(gid))];
      }
    }

    method RemoveRig(gid: string, rid: string) returns (ok: bool)
      modifies this`rigs, this`groups
      ensures forall now :: View() == Next(old(View()), RemoveRigFromGroup(gid, rid), now)
      ensures ok <==> rid in Members(old(groups), gid)
    {
      var group := Find(groups, gid);
      ok := group.Some? && rid in group.value.rigIds;
      if ok {
        groups := Store(groups, group.value.(rigIds := RemoveFirst(group.value.rigIds, rid)));
        if rid in rigs {
          rigs := rigs[rid := rigs[rid].(groupId := None)];
        }
        assert rigs == Unassigned(old(rigs), {rid});
      }
    }

    method RemoveGroup(gid: string) returns (ok: bool)
      modifies this`rigs, this`groups
      ensures forall now :: View() == Next(old(View()), DeleteGroup(gid), now)
      ensures ok <==> Find(old(groups), gid).Some?
    {
      hide Next;
      OnDeleteGroup(View(), gid);
      var group := Find(groups, gid);
      ok := group.Some?;
      if !ok {
        DropAbsent(groups, gid);
        assert rigs == Unassigned(rigs, {});
        return;
      }
      UnassignAll(group.value.rigIds);
      groups := Drop(groups, gid);
    }

    method UnassignAll(ids: seq<string>)
      modifies this`rigs
      ensures rigs == Unassigned(old(rigs), (set r <- ids))
    {
      for i := 0 to |ids|
        invariant rigs == Unassigned(old(rigs), (set r <- ids[..i]))
      {
        assert ids[..i + 1] == ids[..i] + [ids[i]];
        var rid := ids[i];
        if rid in rigs {
          rigs := rigs[rid := rigs[rid].(groupId := None)];
        }
      }
      assert ids[..|ids|] == ids;
    }

    /** `entry` is the lap that the random choices make up. */
    method AddTestLap(entry: Leaderboard.Entry)
      modifies db
      ensures forall now :: View() == Next(old(View()), BoardRequest(Leaderboard.Record(entry)), now)
    {
      db.Insert(entry);
      db.UpsertSessionBest(entry);
    }

    method DeleteLeaderboardRecord(id: int) returns (found: bool)
      modifies db
      ensures forall now :: View() == Next(old(View()), BoardRequest(Leaderboard.Delete(id)), now)
      ensures found <==> exists l <- old(db.laps) :: l.id == id
    {
      found := db.DeleteRecord(id);
    }

    method ClearLeaderboard()
      modifies db
      ensures forall now :: View() == Next(old(View()), BoardRequest(Leaderboard.Clear), now)
    {
      db.ClearLeaderboard();
    }
  }

  lemma {:induction false} RemoveAbsent(ids: seq<string>, rid: string)
    requires rid !in ids
    ensures RemoveFirst(ids, rid) == ids
  {
    if ids != [] {
      RemoveAbsent(ids[1..], rid);
    }
  }

  lemma {:induction false} DropAbsent(groups: seq<Group>, gid: string)
    requires Find(groups, gid) == None
    ensures Drop(groups, gid) == groups
  {
    if groups != [] {
      DropAbsent(groups[1..], gid);
    }
  }
}
