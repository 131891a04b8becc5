/** What KILL_RACE guarantees on the orchestrator, and what heartbeats can and cannot do to a
    rig's status. */
module KillGuard {
  import opened PyText
  import opened Orchestrator
  import Leaderboard

  // ------------------------------------------------------------------
  // One heartbeat
  // ------------------------------------------------------------------

  /** A live guard: a kill was requested less than ten seconds ago. */
  predicate GuardLive(rig: Rig, now: real) {
    rig.killRequestedAt.Some? && now - rig.killRequestedAt.value < KILL_GUARD
  }

  function Before(h: Hub, rid: string, now: real): Rig {
    if rid in h.rigs then h.rigs[rid] else NewRig(now)
  }

  /** The status after a post is the one it asks for, unless it asks for none, a live guard stands
      against "racing", or it asks a rig that is racing or ready for idle or setup. That last it
      never gets: the post has refreshed `last_seen` by the time the downgrade rule looks at it. */
  lemma StatusAfterPost(h: Hub, rid: string, u: StatusUpdate, now: real)
    ensures var r := Before(h, rid, now);
            RigPosted(h, rid, u, now).status ==
            if u.status in {None, Some("")} then r.status
            else if u.status == Some("racing") && GuardLive(r, now) then r.status
            else if u.status in {Some("idle"), Some("setup")} && r.status in {"racing", "ready"} then r.status
            else u.status.value
  {}

  /** When a rig is "racing" after a post: it says so and no live guard blocks it, or the rig was
      racing already and the post says nothing, asks for a downgrade, or is blocked. */
  lemma RacingAfterPostIff(h: Hub, rid: string, u: StatusUpdate, now: real)
    ensures var r := Before(h, rid, now);
            RigPosted(h, rid, u, now).status == "racing" <==>
            || (u.status == Some("racing") && !GuardLive(r, now))
            || (r.status == "racing" && u.status in {None, Some(""), Some("idle"), Some("setup"), Some("racing")})
  {
    hide RigPosted;
    StatusAfterPost(h, rid, u, now);
  }

  /** A post changes the guard in one case only: a racing heartbeat after it has expired. */
  lemma GuardAfterPost(h: Hub, rid: string, u: StatusUpdate, now: real)
    ensures var r := Before(h, rid, now);
            RigPosted(h, rid, u, now).killRequestedAt ==
            if u.status == Some("racing") && !GuardLive(r, now) then None else r.killRequestedAt
  {}

  // ------------------------------------------------------------------
  // Runs
  // ------------------------------------------------------------------

  /** What holds at the start of a run, and is kept by a step exactly when the step is of a certain
      kind, holds all the way exactly when every step is of that kind. */
  lemma {:induction false} AlwaysIff(h: Hub, es: seq<Stamped>, holds: Hub -> bool, keeps: (Hub, Stamped) -> bool)
    requires holds(h)
    requires forall s, i | 0 <= i < |es| && holds(s) :: holds(Next(s, es[i].0, es[i].1)) <==> keeps(s, es[i])
    ensures (forall k | 0 <= k <= |es| :: holds(Run(h, es[..k]))) <==>
            (forall k | 0 <= k < |es| :: keeps(Run(h, es[..k]), es[k]))
  {
    hide Next, Run;
    RunNothing(h, es[..0]);
    if es != [] {
      var n := |es| - 1;
      assert forall k | 0 <= k <= n :: es[..n][..k] == es[..k];
      AlwaysIff(h, es[..n], holds, keeps);
      assert es[..|es|] == es;
      RunStep(h, es);
      assert es[..n + 1] == es;
    }
  }

  lemma RunNothing(h: Hub, none: seq<Stamped>)
    requires none == []
    ensures Run(h, none) == h
  {}

  // ------------------------------------------------------------------
  // Whom a command reaches
  // ------------------------------------------------------------------

  /** The action reaches this rig's record. A command to all rigs stops with an error at the first
      record without an address; one to a group does so too, but its first loop, which only
      KILL_RACE and LAUNCH_RACE have, has been to every member before. */
  predicate Reaches(h: Hub, e: Event, action: string, rid: string) {
    rid in h.rigs &&
    match e
    case Command(r, a) => r == rid && a == action
    case GlobalCommand(a) => a == action && rid in Served(h.rigs, h.order)
    case GroupCommand(g, a) =>
      && a == action
      && rid in (if a in {"KILL_RACE", "LAUNCH_RACE"} then set r <- Members(h.groups, g)
                 else Served(h.rigs, Members(h.groups, g)))
    case _ => false
  }

  /** The dictionary's keys, in order. */
  ghost predicate Ordered(h: Hub) {
    NoRepeats(h.order) && forall r :: r in h.order <==> r in h.rigs
  }

  lemma {:induction false} UnreapedAre(rigs: map<string, Rig>, order: seq<string>, now: real)
    ensures forall r :: r in Unreaped(rigs, order, now) <==> r in order && !(r in rigs && Stale(rigs[r], now))
    ensures NoRepeats(order) ==> NoRepeats(Unreaped(rigs, order, now))
  {
    if order != [] {
      var rest := order[1..];
      UnreapedAre(rigs, rest, now);
      assert order == [order[0]] + rest;
      assert forall i | 0 <= i < |rest| :: rest[i] == order[i + 1];
      assert NoRepeats(order) ==> order[0] !in rest;
    }
  }

  lemma OrderAfter(h: Hub, e: Event, now: real)
    ensures Next(h, e, now).order ==
            match e
            case Post(r, _) => Entered(h.rigs, h.order, r)
            case Datagram(r, _, _) => if r == "" then h.order else Entered(h.rigs, h.order, r)
            case SetDriverName(r, _) => Entered(h.rigs, h.order, r)
            case Reap => Unreaped(h.rigs, h.order, now)
            case _ => h.order
  {
    hide Served, Moved, Drop, Store, Find, Unreaped, PostedRig, Broadcast, LapEntry, Leaderboard.Recorded;
  }

  lemma OrderStep(h: Hub, e: Event, now: real)
    requires Ordered(h)
    ensures Ordered(Next(h, e, now))
  {
    hide Next, Served, Find, Unreaped, Broadcast, Marked, Commanded, PostedRig, RigPosted;
    OrderAfter(h, e, now);
    UnreapedAre(h.rigs, h.order, now);
    forall r ensures r in Next(h, e, now).order <==> r in Next(h, e, now).rigs {
      RecordStep(h, e, now, r);
    }
  }

  lemma {:induction false} RunsAreOrdered(h: Hub, es: seq<Stamped>)
    requires Ordered(h)
    ensures Ordered(Run(h, es))
  {
    hide Ordered, Next;
    if es != [] {
      RunsAreOrdered(h, es[..|es| - 1]);
      OrderStep(Run(h, es[..|es| - 1]), es[|es| - 1].0, es[|es| - 1].1);
    }
  }

  ghost predicate Unaddressed(h: Hub, rid: string) {
    rid in h.rigs && h.rigs[rid].ip == None
  }

  /** The rig's record was made by naming its driver, and the rig has not been heard of, nor its
      record reaped, since. */
  ghost predicate OnlyNamed(h: Hub, es: seq<Stamped>, rid: string) {
    if es == [] then Unaddressed(h, rid)
    else
      var n := |es| - 1;
      var before := Run(h, es[..n]);
      match es[n].0
      case SetDriverName(r, _) => (r == rid && rid !in before.rigs) || OnlyNamed(h, es[..n], rid)
      case Post(r, _) => r != rid && OnlyNamed(h, es[..n], rid)
      case Datagram(r, _, _) => (r != rid || rid == "") && OnlyNamed(h, es[..n], rid)
      case e => !Reaped(before, e, es[n].1, rid) && OnlyNamed(h, es[..n], rid)
  }

  lemma AddressStep(h: Hub, e: Event, now: real, rid: string)
    ensures Unaddressed(Next(h, e, now), rid) <==>
            match e
            case SetDriverName(r, _) => (r == rid && rid !in h.rigs) || Unaddressed(h, rid)
            case Post(r, _) => r != rid && Unaddressed(h, rid)
            case Datagram(r, _, _) => (r != rid || rid == "") && Unaddressed(h, rid)
            case _ => !Reaped(h, e, now, rid) && Unaddressed(h, rid)
  {
    hide Next, Served, Find;
    RecordStep(h, e, now, rid);
  }

  lemma {:induction false} UnaddressedIff(h: Hub, es: seq<Stamped>, rid: string)
    ensures Unaddressed(Run(h, es), rid) <==> OnlyNamed(h, es, rid)
  {
    hide Next, Unaddressed, Reaped;
    if es != [] {
      var n := |es| - 1;
      UnaddressedIff(h, es[..n], rid);
      AddressStep(Run(h, es[..n]), es[n].0, es[n].1, rid);
    }
  }

  /** After every run a command to all rigs reaches a rig if and only if the hub has a record of
      it and no rig before it in the dictionary is one that only its driver's name is known of. */
  lemma GlobalReachesIff(h: Hub, es: seq<Stamped>, action: string, rid: string)
    requires Ordered(h)
    ensures var s := Run(h, es);
            Reaches(s, GlobalCommand(action), action, rid) <==>
            exists i | 0 <= i < |s.order| :: s.order[i] == rid && forall j | 0 <= j < i :: !OnlyNamed(h, es, s.order[j])
  {
    var s := Run(h, es);
    RunsAreOrdered(h, es);
    ServedIff(s.rigs, s.order, rid);
    forall j | 0 <= j < |s.order|
      ensures s.order[j] in s.rigs && (s.rigs[s.order[j]].ip.Some? <==> !OnlyNamed(h, es, s.order[j]))
    {
      UnaddressedIff(h, es, s.order[j]);
      assert s.order[j] in s.order;
    }
    hide Run, OnlyNamed, Served;
  }

  // ------------------------------------------------------------------
  // Runs after a kill
  // ------------------------------------------------------------------

  predicate Launches(h: Hub, e: Event, rid: string) {
    Reaches(h, e, "LAUNCH_RACE", rid)
  }

  /** A UDP heartbeat that says the rig is racing. */
  predicate RacingDatagram(e: Event, rid: string) {
    e.Datagram? && e.rid == rid && rid != "" && e.status == "racing"
  }

  /** The events the guard does not stand up to. */
  predicate Breaks(h: Hub, e: Event, now: real, rid: string) {
    Launches(h, e, rid) || RacingDatagram(e, rid) || Reaped(h, e, now, rid)
  }

  predicate Undisturbed(h: Hub, es: seq<Stamped>, rid: string) {
    forall k | 0 <= k < |es| :: !Breaks(Run(h, es[..k]), es[k].0, es[k].1, rid)
  }

  /** Every handler of the run reads the clock in the ten seconds from `t`. */
  predicate InWindow(es: seq<Stamped>, t: real) {
    forall i | 0 <= i < |es| :: t <= es[i].1 < t + 10.0
  }

  predicate NotRacing(h: Hub, rid: string) {
    rid in h.rigs && h.rigs[rid].status != "racing"
  }

  predicate Racing(h: Hub, rid: string) {
    rid in h.rigs && h.rigs[rid].status == "racing"
  }

  predicate Guarded(h: Hub, rid: string, t: real) {
    && NotRacing(h, rid)
    && h.rigs[rid].killRequestedAt.Some?
    && h.rigs[rid].killRequestedAt.value >= t
  }

  /** KILL_RACE, sent to one rig, to all or to a group. */
  predicate IsKill(e: Event) {
    match e
    case Command(_, a) => a == "KILL_RACE"
    case GlobalCommand(a) => a == "KILL_RACE"
    case GroupCommand(_, a) => a == "KILL_RACE"
    case _ => false
  }

  /** However KILL_RACE is sent, it marks the rigs it reaches idle and sets their guard, and leaves
      every other rig as it was. */
  lemma KillArms(h: Hub, e: Event, t: real, rid: string)
    requires IsKill(e) && rid in h.rigs
    ensures rid in Next(h, e, t).rigs
    ensures if Reaches(h, e, "KILL_RACE", rid)
            then Guarded(Next(h, e, t), rid, t) && Next(h, e, t).rigs[rid].status == "idle"
            else Next(h, e, t).rigs[rid] == h.rigs[rid]
  {
    MembersAreServed(h, e, rid);
    hide Served;
  }

  /** The second loop of a group command gets to members only. */
  lemma MembersAreServed(h: Hub, e: Event, rid: string)
    ensures e.GroupCommand? && rid in Served(h.rigs, Members(h.groups, e.gid)) ==> rid in Members(h.groups, e.gid)
  {
    if e.GroupCommand? {
      ServedIff(h.rigs, Members(h.groups, e.gid), rid);
    }
  }

  /** Inside the window three kinds of events end the guard, and nothing else does. */
  lemma GuardStep(h: Hub, e: Event, now: real, rid: string, t: real)
    requires Guarded(h, rid, t) && t <= now < t + 10.0
    ensures Guarded(Next(h, e, now), rid, t) <==> !Breaks(h, e, now, rid)
  {
    hide Next, Served, Find, RigPosted;
    RecordStep(h, e, now, rid);
    if e.Post? {
      RacingAfterPostIff(h, rid, e.update, now);
      GuardAfterPost(h, rid, e.update, now);
    }
    MembersAreServed(h, e, rid);
  }

  /** For ten seconds from `t` a guarded rig stays guarded, whatever heartbeats arrive and whatever
      is asked of the orchestrator, exactly as long as no launch reaches it, no datagram says it is
      racing and the reaper does not take it. */
  lemma GuardHoldsIff(h: Hub, es: seq<Stamped>, rid: string, t: real)
    requires Guarded(h, rid, t) && InWindow(es, t)
    ensures (forall k | 0 <= k <= |es| :: Guarded(Run(h, es[..k]), rid, t)) <==> Undisturbed(h, es, rid)
  {
    hide Guarded, Breaks, Next, Run;
    forall s, i | 0 <= i < |es| && Guarded(s, rid, t)
      ensures Guarded(Next(s, es[i].0, es[i].1), rid, t) <==> !Breaks(s, es[i].0, es[i].1, rid)
    {
      GuardStep(s, es[i].0, es[i].1, rid, t);
    }
    AlwaysIff(h, es, s => Guarded(s, rid, t), (s, x: Stamped) => !Breaks(s, x.0, x.1, rid));
  }

  /** So for ten seconds after a kill the rig never shows "racing", unless one of the three
      intervenes. */
  lemma KilledRigDoesNotRace(h: Hub, kill: Event, t: real, es: seq<Stamped>, rid: string)
    requires Reaches(h, kill, "KILL_RACE", rid)
    requires InWindow(es, t) && Undisturbed(Next(h, kill, t), es, rid)
    ensures forall k | 0 <= k <= |es| :: NotRacing(Run(Next(h, kill, t), es[..k]), rid)
  {
    KillArms(h, kill, t, rid);
    GuardHoldsIff(Next(h, kill, t), es, rid, t);
    hide Next, Run;
  }

  /** A racing heartbeat after a kill at `t` is blocked for ten seconds, and then believed. */
  lemma KillBlocksTenSeconds(h: Hub, kill: Event, t: real, rid: string, u: StatusUpdate, now: real)
    requires Reaches(h, kill, "KILL_RACE", rid) && u.status == Some("racing")
    ensures var after := Next(Next(h, kill, t), Post(rid, u), now);
            && rid in after.rigs
            && after.rigs[rid].status == if now < t + 10.0 then "idle" else "racing"
  {
    hide Next, Served, Find;
    RecordStep(h, kill, t, rid);
    KillArms(h, kill, t, rid);
    MembersAreServed(h, kill, rid);
    var killed := Next(h, kill, t);
    RecordStep(killed, Post(rid, u), now, rid);
    StatusAfterPost(killed, rid, u, now);
  }

  // ------------------------------------------------------------------
  // The status a command gives
  // ------------------------------------------------------------------

  /** SETUP_MODE makes a rig it reaches "setup" and KILL_RACE "idle". Any other action leaves the
      status alone when it is sent to one rig, and makes it "idle" when it is sent to a group or to
      all and gets to the rig in the loop. */
  lemma CommandedStatusIs(h: Hub, e: Event, now: real, rid: string)
    requires (e.Command? || e.GlobalCommand? || e.GroupCommand?) && rid in h.rigs
    ensures rid in Next(h, e, now).rigs
    ensures var before, after := h.rigs[rid].status, Next(h, e, now).rigs[rid].status;
            if Reaches(h, e, "SETUP_MODE", rid) then after == "setup"
            else if Reaches(h, e, "KILL_RACE", rid) then after == "idle"
            else if (e.GlobalCommand? && rid in Served(h.rigs, h.order))
                    || (e.GroupCommand? && rid in Served(h.rigs, Members(h.groups, e.gid))) then after == "idle"
            else after == before
  {
    hide Next, Served, Find;
    RecordStep(h, e, now, rid);
    MembersAreServed(h, e, rid);
  }

  // ------------------------------------------------------------------
  // The reaper
  // ------------------------------------------------------------------

  /** A round of the reaper leaves exactly the rigs heard from in the last ten seconds. */
  lemma ReaperTakesIff(h: Hub, now: real, rid: string)
    ensures rid in Next(h, Reap, now).rigs <==> rid in h.rigs && now - h.rigs[rid].lastSeen <= 10.0
    ensures rid in Next(h, Reap, now).rigs ==> Next(h, Reap, now).rigs[rid] == h.rigs[rid]
  {
    hide Unreaped;
  }

  /** No launch and no racing datagram reaches the rig; the reaper may run at any time. */
  predicate LeftAlone(h: Hub, es: seq<Stamped>, rid: string) {
    forall k | 0 <= k < |es| :: !Launches(Run(h, es[..k]), es[k].0, rid) && !RacingDatagram(es[k].0, rid)
  }

  predicate SeenSince(h: Hub, rid: string, t: real) {
    rid in h.rigs && h.rigs[rid].lastSeen >= t
  }

  lemma SeenStep(h: Hub, e: Event, now: real, rid: string, t: real)
    requires SeenSince(h, rid, t) && t <= now < t + 10.0
    ensures !Reaped(h, e, now, rid) && SeenSince(Next(h, e, now), rid, t)
  {
    hide Next, Served, Find;
    RecordStep(h, e, now, rid);
  }

  /** A rig heard from at or after the kill cannot be reaped inside the window: there the guard
      holds exactly as long as no launch and no racing datagram comes, through any number of reaper
      rounds. */
  lemma GuardOutlivesReaper(h: Hub, es: seq<Stamped>, rid: string, t: real)
    requires Guarded(h, rid, t) && SeenSince(h, rid, t) && InWindow(es, t)
    ensures (forall k | 0 <= k <= |es| :: Guarded(Run(h, es[..k]), rid, t)) <==> LeftAlone(h, es, rid)
  {
    hide Guarded, Next, Run, SeenSince, Reaped, Launches;
    forall s, i | 0 <= i < |es| && SeenSince(s, rid, t)
      ensures SeenSince(Next(s, es[i].0, es[i].1), rid, t) && !Reaped(s, es[i].0, es[i].1, rid)
    {
      SeenStep(s, es[i].0, es[i].1, rid, t);
    }
    AlwaysIff(h, es, s => SeenSince(s, rid, t), (_, _) => true);
    GuardHoldsIff(h, es, rid, t);
  }

  // ------------------------------------------------------------------
  // What the guard does not cover
  // ------------------------------------------------------------------

  const RACING := StatusUpdate(Some("racing"), "", None, true, None)

  /** A rig not heard from for ten seconds loses the guard with its record: killed at `t`, reaped
      at `t + 1`, back and racing at `t + 2`. */
  lemma ReaperDropsGuard(h: Hub, rid: string, t: real)
    requires rid in h.rigs && h.rigs[rid].lastSeen < t - 9.0
    ensures var killed := Next(h, Command(rid, "KILL_RACE"), t);
            var after := Run(killed, [(Reap, t + 1.0), (Post(rid, RACING), t + 2.0)]);
            rid in after.rigs && after.rigs[rid].status == "racing"
  {
    var killed := Next(h, Command(rid, "KILL_RACE"), t);
    RunTwo(killed, (Reap, t + 1.0), (Post(rid, RACING), t + 2.0));
    assert rid !in Next(killed, Reap, t + 1.0).rigs;
  }

  /** A UDP datagram is not checked against the guard at all. */
  lemma DatagramBypassesGuard(h: Hub, rid: string, t: real, now: real)
    requires rid in h.rigs && rid != ""
    ensures Next(Next(h, Command(rid, "KILL_RACE"), t), Datagram(rid, "racing", ""), now).rigs[rid].status == "racing"
  {}

  /** A rig that only its driver's name is known of keeps a global kill from the rigs behind it:
      they go on racing, with no guard. */
  lemma NamedRigStopsGlobalKill(named: string, racing: string, t: real)
    requires named != racing
    ensures var empty := Hub(map[], [], [], Leaderboard.Board([], map[], 1));
            var h := Run(empty, [(SetDriverName(named, "x"), t), (Post(racing, RACING), t)]);
            var after := Next(h, GlobalCommand("KILL_RACE"), t);
            Racing(after, racing) && after.rigs[racing].killRequestedAt == None
  {
    var empty := Hub(map[], [], [], Leaderboard.Board([], map[], 1));
    RunTwo(empty, (SetDriverName(named, "x"), t), (Post(racing, RACING), t));
    var h1 := Next(empty, SetDriverName(named, "x"), t);
    assert h1.order == [named] && h1.rigs.Keys == {named};
    var h := Next(h1, Post(racing, RACING), t);
    assert h.order == [named, racing] && h.rigs[named].ip == None;
    assert Served(h.rigs, h.order) == {named};
  }

  lemma RunTwo(h: Hub, a: Stamped, b: Stamped)
    ensures Run(h, [a, b]) == Next(Next(h, a.0, a.1), b.0, b.1)
  {
    hide Next;
    assert [a, b][..1] == [a] && [a][..0] == [];
    assert Run(h, [a][..0]) == h;
    assert Run(h, [a]) == Next(h, a.0, a.1);
  }

  // ------------------------------------------------------------------
  // When a race begins and ends on the orchestrator
  // ------------------------------------------------------------------

  /** A post says so with no live guard in its way, or a datagram does. */
  predicate BeginsRace(h: Hub, e: Event, now: real, rid: string) {
    || (e.Post? && e.rid == rid && e.update.status == Some("racing") && !GuardLive(Before(h, rid, now), now))
    || RacingDatagram(e, rid)
  }

  /** A post of a status other than idle, setup and racing, a setup or a kill for this rig, a group
      kill, any command to its group or to all that gets as far as this rig, a datagram of another
      status, a full update, or the reaper. */
  predicate EndsRace(h: Hub, e: Event, now: real, rid: string) {
    match e
    case Post(r, u) => r == rid && u.status !in {None, Some(""), Some("idle"), Some("setup"), Some("racing")}
    case Command(r, a) => r == rid && a in {"SETUP_MODE", "KILL_RACE"}
    case GlobalCommand(_) => rid in Served(h.rigs, h.order)
    case GroupCommand(g, a) =>
      (a == "KILL_RACE" && rid in Members(h.groups, g)) || rid in Served(h.rigs, Members(h.groups, g))
    case Datagram(r, s, _) => r == rid && rid != "" && s != "racing"
    case Reap => Reaped(h, e, now, rid)
    case FullUpdate => rid in h.order
    case _ => false
  }

  lemma RacingStep(h: Hub, e: Event, now: real, rid: string)
    ensures Racing(Next(h, e, now), rid) <==>
            if Racing(h, rid) then !EndsRace(h, e, now, rid) else BeginsRace(h, e, now, rid)
  {
    hide Next, Served, Find, RigPosted;
    RecordStep(h, e, now, rid);
    if e.Post? {
      RacingAfterPostIff(h, rid, e.update, now);
    }
    MembersAreServed(h, e, rid);
  }

  /** Heartbeats that say "idle" or "setup" never end a race on the orchestrator: a rig that shows
      "racing" goes on doing so exactly as long as none of the events above comes. */
  lemma HeartbeatsNeverEndRace(h: Hub, es: seq<Stamped>, rid: string)
    requires Racing(h, rid)
    ensures (forall k | 0 <= k <= |es| :: Racing(Run(h, es[..k]), rid)) <==>
            (forall k | 0 <= k < |es| :: !EndsRace(Run(h, es[..k]), es[k].0, es[k].1, rid))
  {
    hide Racing, EndsRace, BeginsRace, Next, Run;
    forall s, i | 0 <= i < |es| && Racing(s, rid)
      ensures Racing(Next(s, es[i].0, es[i].1), rid) <==> !EndsRace(s, es[i].0, es[i].1, rid)
    {
      RacingStep(s, es[i].0, es[i].1, rid);
    }
    AlwaysIff(h, es, s => Racing(s, rid), (s, x: Stamped) => !EndsRace(s, x.0, x.1, rid));
  }

  /** A rig that does not show "racing" goes on not doing so exactly as long as no post without a
      live guard and no datagram says so. */
  lemma NoRaceLastsIff(h: Hub, es: seq<Stamped>, rid: string)
    requires !Racing(h, rid)
    ensures (forall k | 0 <= k <= |es| :: !Racing(Run(h, es[..k]), rid)) <==>
            (forall k | 0 <= k < |es| :: !BeginsRace(Run(h, es[..k]), es[k].0, es[k].1, rid))
  {
    hide Racing, EndsRace, BeginsRace, Next, Run;
    forall s, i | 0 <= i < |es| && !Racing(s, rid)
      ensures !Racing(Next(s, es[i].0, es[i].1), rid) <==> !BeginsRace(s, es[i].0, es[i].1, rid)
    {
      RacingStep(s, es[i].0, es[i].1, rid);
    }
    AlwaysIff(h, es, s => !Racing(s, rid), (s, x: Stamped) => !BeginsRace(s, x.0, x.1, rid));
  }

  // ------------------------------------------------------------------
  // Car selection
  // ------------------------------------------------------------------

  /** The rig's selected car; a rig without a record has none. */
  function CarOf(h: Hub, rid: string): string {
    if rid in h.rigs then h.rigs[rid].selectedCar else ""
  }

  /** What the event makes of the rig's car: the car picked by a post that is not a heartbeat,
      "None" for an empty pick or a setup, nothing at all once the record is gone. */
  function Pick(h: Hub, e: Event, now: real, rid: string): Option<string> {
    if Reaches(h, e, "SETUP_MODE", rid) then Some("None")
    else if Reaped(h, e, now, rid) then Some("")
    else
      match e
      case Post(r, StatusUpdate(_, _, Some(car), false, None)) =>
        if r != rid then None else Some(if car in {"", "None"} then "None" else car)
      case _ => None
  }

  lemma CarStep(h: Hub, e: Event, now: real, rid: string)
    ensures var pick := Pick(h, e, now, rid);
            CarOf(Next(h, e, now), rid) == if pick.Some? then pick.value else CarOf(h, rid)
  {
    hide Next, Served, Find;
    RecordStep(h, e, now, rid);
    MembersAreServed(h, e, rid);
  }

  function LastPick(h: Hub, es: seq<Stamped>, rid: string): string {
    if es == [] then CarOf(h, rid)
    else
      var n := |es| - 1;
      var pick := Pick(Run(h, es[..n]), es[n].0, es[n].1, rid);
      if pick.Some? then pick.value else LastPick(h, es[..n], rid)
  }

  /** After every run the selected car is the last pick: heartbeats, launches, kills, datagrams and
      group changes leave it alone, and a setup or the reaper makes it none. */
  lemma {:induction false} CarIsLastPick(h: Hub, es: seq<Stamped>, rid: string)
    ensures CarOf(Run(h, es), rid) == LastPick(h, es, rid)
  {
    hide Next, Pick, CarOf;
    if es != [] {
      var n := |es| - 1;
      CarIsLastPick(h, es[..n], rid);
      CarStep(Run(h, es[..n]), es[n].0, es[n].1, rid);
    }
  }

  /** A pick lasts exactly as long as no other pick, setup or reap changes the car. */
  lemma PickLasts(h: Hub, es: seq<Stamped>, rid: string, car: string)
    requires CarOf(h, rid) == car
    ensures (forall k | 0 <= k <= |es| :: CarOf(Run(h, es[..k]), rid) == car) <==>
            (forall k | 0 <= k < |es| :: Pick(Run(h, es[..k]), es[k].0, es[k].1, rid) in {None, Some(car)})
  {
    hide Next, Run, Pick, CarOf;
    forall s, i | 0 <= i < |es| && CarOf(s, rid) == car
      ensures CarOf(Next(s, es[i].0, es[i].1), rid) == car <==> Pick(s, es[i].0, es[i].1, rid) in {None, Some(car)}
    {
      CarStep(s, es[i].0, es[i].1, rid);
    }
    AlwaysIff(h, es, s => CarOf(s, rid) == car, (s, x: Stamped) => Pick(s, x.0, x.1, rid) in {None, Some(car)});
  }
}
