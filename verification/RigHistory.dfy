/** The fields of a rig record over whole runs: each is what the last event that concerns it has
    made of it, or what a new record has. */
module RigHistory {
  import opened PyText
  import opened Orchestrator
  import opened KillGuard

  // ------------------------------------------------------------------
  // The last event that sets a field
  // ------------------------------------------------------------------

  /** What the last event that sets something has set, or `start` if there is none. */
  ghost function Latest<T>(h: Hub, es: seq<Stamped>, start: T, sets: (Hub, Stamped) -> Option<T>): T {
    if es == [] then start
    else
      var n := |es| - 1;
      var v := sets(Run(h, es[..n]), es[n]);
      if v.Some? then v.value else Latest(h, es[..n], start, sets)
  }

  lemma {:induction false} FieldIsLatest<T>(
    h: Hub, es: seq<Stamped>, field: Hub -> T, sets: (Hub, Stamped) -> Option<T>)
    requires forall s: Hub, x: Stamped ::
               field(Next(s, x.0, x.1)) == if sets(s, x).Some? then sets(s, x).value else field(s)
    ensures field(Run(h, es)) == Latest(h, es, field(h), sets)
  {
    hide Next;
    if es != [] {
      var n := |es| - 1;
      FieldIsLatest(h, es[..n], field, sets);
      RunStep(h, es);
      assert field(Next(Run(h, es[..n]), es[n].0, es[n].1)) ==
             if sets(Run(h, es[..n]), es[n]).Some? then sets(Run(h, es[..n]), es[n]).value else field(Run(h, es[..n]));
    }
  }

  // ------------------------------------------------------------------
  // When the rig was heard of, and where
  // ------------------------------------------------------------------

  /** When the rig was last heard of, if the hub has a record of it. */
  function SeenAt(h: Hub, rid: string): Option<real> {
    if rid in h.rigs then Some(h.rigs[rid].lastSeen) else None
  }

  /** A post and a datagram of the rig, and naming the driver of an unknown one. The reaper forgets
      a rig not heard of for more than ten seconds. */
  function SeenBy(h: Hub, x: Stamped, rid: string): Option<Option<real>> {
    match x.0
    case Post(r, _) => if r == rid then Some(Some(x.1)) else None
    case Datagram(r, _, _) => if r == rid && rid != "" then Some(Some(x.1)) else None
    case SetDriverName(r, _) => if r == rid && SeenAt(h, rid) == None then Some(Some(x.1)) else None
    case Reap => if SeenAt(h, rid).Some? && x.1 - SeenAt(h, rid).value > 10.0 then Some(None) else None
    case _ => None
  }

  /** After every run the hub knows exactly the rigs heard of and not forgotten since, and when. */
  lemma SeenIsLatest(h: Hub, es: seq<Stamped>, rid: string)
    ensures SeenAt(Run(h, es), rid) == Latest(h, es, SeenAt(h, rid), (s, x) => SeenBy(s, x, rid))
  {
    hide Next, Run;
    forall s: Hub, x: Stamped
      ensures SeenAt(Next(s, x.0, x.1), rid) ==
              if SeenBy(s, x, rid).Some? then SeenBy(s, x, rid).value else SeenAt(s, rid)
    {
      SeenAfter(s, x, rid);
    }
    FieldIsLatest(h, es, s => SeenAt(s, rid), (s, x) => SeenBy(s, x, rid));
  }

  lemma SeenAfter(h: Hub, x: Stamped, rid: string)
    ensures SeenAt(Next(h, x.0, x.1), rid) ==
            if SeenBy(h, x, rid).Some? then SeenBy(h, x, rid).value else SeenAt(h, rid)
  {
    hide Next, Served, Find;
    RecordStep(h, x.0, x.1, rid);
  }

  /** The event makes the hub forget the rig. */
  predicate Forgets(h: Hub, x: Stamped, rid: string) {
    SeenBy(h, x, rid) == Some(None)
  }

  function AddressOf(h: Hub, rid: string): Option<string> {
    if rid in h.rigs then h.rigs[rid].ip else None
  }

  function AddressBy(h: Hub, x: Stamped, rid: string): Option<Option<string>> {
    match x.0
    case Post(r, u) => if r == rid then Some(Some(u.ip)) else None
    case Datagram(r, _, ip) => if r == rid && rid != "" then Some(Some(ip)) else None
    case _ => if Forgets(h, x, rid) then Some(None) else None
  }

  /** The address is that of the last post or datagram. */
  lemma AddressIsLatest(h: Hub, es: seq<Stamped>, rid: string)
    ensures AddressOf(Run(h, es), rid) == Latest(h, es, AddressOf(h, rid), (s, x) => AddressBy(s, x, rid))
  {
    hide Next, Run;
    forall s: Hub, x: Stamped
      ensures AddressOf(Next(s, x.0, x.1), rid) ==
              if AddressBy(s, x, rid).Some? then AddressBy(s, x, rid).value else AddressOf(s, rid)
    {
      AddressAfter(s, x, rid);
    }
    FieldIsLatest(h, es, s => AddressOf(s, rid), (s, x) => AddressBy(s, x, rid));
  }

  lemma AddressAfter(h: Hub, x: Stamped, rid: string)
    ensures AddressOf(Next(h, x.0, x.1), rid) ==
            if AddressBy(h, x, rid).Some? then AddressBy(h, x, rid).value else AddressOf(h, rid)
  {
    hide Next, Served, Find;
    RecordStep(h, x.0, x.1, rid);
  }

  // ------------------------------------------------------------------
  // Mode and driver
  // ------------------------------------------------------------------

  /** A rig without a record is locked and has no driver. */
  function RigMode(h: Hub, rid: string): string {
    if rid in h.rigs then h.rigs[rid].mode else "lockout"
  }

  function ModeBy(h: Hub, x: Stamped, rid: string): Option<string> {
    match x.0
    case SetMode(r, mode) => if r == rid && SeenAt(h, rid).Some? then Some(mode) else None
    case _ => if Forgets(h, x, rid) then Some("lockout") else None
  }

  /** The mode is the last one set for a known rig. */
  lemma ModeIsLatest(h: Hub, es: seq<Stamped>, rid: string)
    ensures RigMode(Run(h, es), rid) == Latest(h, es, RigMode(h, rid), (s, x) => ModeBy(s, x, rid))
  {
    hide Next, Run;
    forall s: Hub, x: Stamped
      ensures RigMode(Next(s, x.0, x.1), rid) ==
              if ModeBy(s, x, rid).Some? then ModeBy(s, x, rid).value else RigMode(s, rid)
    {
      RigModeAfter(s, x, rid);
    }
    FieldIsLatest(h, es, s => RigMode(s, rid), (s, x) => ModeBy(s, x, rid));
  }

  lemma RigModeAfter(h: Hub, x: Stamped, rid: string)
    ensures RigMode(Next(h, x.0, x.1), rid) ==
            if ModeBy(h, x, rid).Some? then ModeBy(h, x, rid).value else RigMode(h, rid)
  {
    hide Next, Served, Find;
    RecordStep(h, x.0, x.1, rid);
  }

  function DriverOf(h: Hub, rid: string): string {
    if rid in h.rigs then h.rigs[rid].driverName else ""
  }

  function DriverBy(h: Hub, x: Stamped, rid: string): Option<string> {
    match x.0
    case SetDriverName(r, name) => if r == rid then Some(name) else None
    case _ => if Forgets(h, x, rid) then Some("") else None
  }

  /** The driver is the last one named. */
  lemma DriverIsLatest(h: Hub, es: seq<Stamped>, rid: string)
    ensures DriverOf(Run(h, es), rid) == Latest(h, es, DriverOf(h, rid), (s, x) => DriverBy(s, x, rid))
  {
    hide Next, Run;
    forall s: Hub, x: Stamped
      ensures DriverOf(Next(s, x.0, x.1), rid) ==
              if DriverBy(s, x, rid).Some? then DriverBy(s, x, rid).value else DriverOf(s, rid)
    {
      DriverAfter(s, x, rid);
    }
    FieldIsLatest(h, es, s => DriverOf(s, rid), (s, x) => DriverBy(s, x, rid));
  }

  lemma DriverAfter(h: Hub, x: Stamped, rid: string)
    ensures DriverOf(Next(h, x.0, x.1), rid) ==
            if DriverBy(h, x, rid).Some? then DriverBy(h, x, rid).value else DriverOf(h, rid)
  {
    hide Next, Served, Find;
    RecordStep(h, x.0, x.1, rid);
  }

  // ------------------------------------------------------------------
  // Kill guard and status
  // ------------------------------------------------------------------

  /** When the rig was last killed, as far as the guard remembers. */
  function KilledAt(h: Hub, rid: string): Option<real> {
    if rid in h.rigs then h.rigs[rid].killRequestedAt else None
  }

  /** A kill less than ten seconds ago. */
  predicate JustKilled(h: Hub, now: real, rid: string) {
    KilledAt(h, rid).Some? && now < KilledAt(h, rid).value + 10.0
  }

  function KilledBy(h: Hub, x: Stamped, rid: string): Option<Option<real>> {
    if Reaches(h, x.0, "KILL_RACE", rid) then Some(Some(x.1))
    else if Reaches(h, x.0, "LAUNCH_RACE", rid) || Forgets(h, x, rid) then Some(None)
    else
      match x.0
      case Post(r, u) => if r == rid && u.status == Some("racing") && !JustKilled(h, x.1, rid) then Some(None) else None
      case _ => None
  }

  /** The guard remembers the last kill that reached the rig, until a launch reaches it, the hub
      forgets it, or a racing post comes ten seconds later. */
  lemma KillIsLatest(h: Hub, es: seq<Stamped>, rid: string)
    ensures KilledAt(Run(h, es), rid) == Latest(h, es, KilledAt(h, rid), (s, x) => KilledBy(s, x, rid))
  {
    hide Next, Run;
    forall s: Hub, x: Stamped
      ensures KilledAt(Next(s, x.0, x.1), rid) ==
              if KilledBy(s, x, rid).Some? then KilledBy(s, x, rid).value else KilledAt(s, rid)
    {
      KilledAfter(s, x, rid);
    }
    FieldIsLatest(h, es, s => KilledAt(s, rid), (s, x) => KilledBy(s, x, rid));
  }

  lemma KilledAfter(h: Hub, x: Stamped, rid: string)
    ensures KilledAt(Next(h, x.0, x.1), rid) ==
            if KilledBy(h, x, rid).Some? then KilledBy(h, x, rid).value else KilledAt(h, rid)
  {
    hide Next, Served, Find;
    RecordStep(h, x.0, x.1, rid);
    MembersAreServed(h, x.0, rid);
  }

  /** A rig without a record counts as idle. */
  function StatusOf(h: Hub, rid: string): string {
    if rid in h.rigs then h.rigs[rid].status else "idle"
  }

  /** The loop of a command to all, or to a group, gets to the rig. */
  predicate BroadcastReaches(h: Hub, e: Event, rid: string) {
    match e
    case GlobalCommand(_) => rid in Served(h.rigs, h.order)
    case GroupCommand(g, _) => rid in Served(h.rigs, Members(h.groups, g))
    case _ => false
  }

  function StatusBy(h: Hub, x: Stamped, rid: string): Option<string> {
    match x.0
    case Post(r, u) =>
      if r != rid || u.status in {None, Some("")} then None
      else if u.status == Some("racing") && JustKilled(h, x.1, rid) then None
      else if u.status in {Some("idle"), Some("setup")} && StatusOf(h, rid) in {"racing", "ready"} then None
      else u.status
    case Datagram(r, status, _) => if r == rid && rid != "" then Some(status) else None
    case FullUpdate => if rid in h.rigs && rid in h.order then Some("idle") else None
    case Reap => if Forgets(h, x, rid) then Some("idle") else None
    case e =>
      if Reaches(h, e, "SETUP_MODE", rid) then Some("setup")
      else if Reaches(h, e, "KILL_RACE", rid) || (rid in h.rigs && BroadcastReaches(h, e, rid)) then Some("idle")
      else None
  }

  /** The status is the last one given: by a command, a full update, a datagram, or a post that
      neither the guard nor the rule against downgrades stops. */
  lemma StatusIsLatest(h: Hub, es: seq<Stamped>, rid: string)
    ensures StatusOf(Run(h, es), rid) == Latest(h, es, StatusOf(h, rid), (s, x) => StatusBy(s, x, rid))
  {
    hide Next, Run;
    forall s: Hub, x: Stamped
      ensures StatusOf(Next(s, x.0, x.1), rid) ==
              if StatusBy(s, x, rid).Some? then StatusBy(s, x, rid).value else StatusOf(s, rid)
    {
      StatusAfter(s, x, rid);
    }
    FieldIsLatest(h, es, s => StatusOf(s, rid), (s, x) => StatusBy(s, x, rid));
  }

  lemma StatusAfter(h: Hub, x: Stamped, rid: string)
    ensures StatusOf(Next(h, x.0, x.1), rid) ==
            if StatusBy(h, x, rid).Some? then StatusBy(h, x, rid).value else StatusOf(h, rid)
  {
    hide Next, Served, Find, RigPosted;
    RecordStep(h, x.0, x.1, rid);
    MembersAreServed(h, x.0, rid);
    if x.0.Post? {
      StatusAfterPost(h, rid, x.0.update, x.1);
    }
  }
}
