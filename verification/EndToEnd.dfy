/** A kill from end to end: orchestrator, rig agent, heartbeats in flight and the clock. The
    guard bridges the time in which the agent's watchdog may still report the dying race. */
module EndToEnd {
  import opened PyText
  import opened Orchestrator
  import opened KillGuard
  import Sled

  /** A heartbeat in flight. */
  datatype Message = Message(id: nat, update: StatusUpdate)

  datatype World = World(hub: Hub, sled: Sled.State, wire: seq<Message>, nextId: nat, now: real)

  /** `OnHub` is any other request to the orchestrator. Heartbeats may be lost, or arrive in any
      order. */
  datatype Step =
    | OnHub(event: Event)
    | OnSled(step: Sled.Step)
    | Send(ip: string, telemetry: Option<Telemetry>)
    | Deliver(i: nat)
    | Lose(i: nat)

  type Timed = (Step, real)

  predicate Enabled(w: World, s: Timed) {
    && s.1 >= w.now
    && match s.0
       case OnSled(x) => Sled.Enabled(w.sled, x)
       case Deliver(i) => i < |w.wire|
       case Lose(i) => i < |w.wire|
       case _ => true
  }

  function Without(wire: seq<Message>, i: nat): seq<Message> {
    if i < |wire| then wire[..i] + wire[i + 1..] else wire
  }

  function NextWorld(w: World, rid: string, s: Timed): World {
    var w' := w.(now := s.1);
    match s.0
    case OnHub(e) => w'.(hub := Next(w.hub, e, s.1))
    case OnSled(x) => w'.(sled := Sled.Next(w.sled, x))
    case Send(ip, tele) =>
      w'.(wire := w.wire + [Message(w.nextId, StatusUpdate(Some(w.sled.status), ip, None, true, tele))],
          nextId := w.nextId + 1)
    case Deliver(i) =>
      if i < |w.wire| then
        w'.(hub := Next(w.hub, Post(rid, w.wire[i].update), s.1), wire := Without(w.wire, i))
      else w'
    case Lose(i) => w'.(wire := Without(w.wire, i))
  }

  /** `ws` are the worlds that `steps` lead through. */
  ghost predicate IsRun(ws: seq<World>, rid: string, steps: seq<Timed>) {
    && |ws| == |steps| + 1
    && forall k | 0 <= k < |steps| :: Enabled(ws[k], steps[k]) && ws[k + 1] == NextWorld(ws[k], rid, steps[k])
  }

  /** No launch, racing datagram or reap reaches the rig. */
  predicate Undisturbing(w: World, rid: string, s: Timed) {
    s.0.OnHub? ==> !Breaks(w.hub, s.0.event, s.1, rid)
  }

  /** Up to step `c`, that is. */
  ghost predicate Calm(ws: seq<World>, rid: string, steps: seq<Timed>, c: nat)
    requires |ws| == |steps| + 1
  {
    forall k | 0 <= k < c && k < |steps| :: Undisturbing(ws[k], rid, steps[k])
  }

  /** The game is not started again from step `a` on. */
  predicate StaysOff(steps: seq<Timed>, a: nat) {
    forall m | a <= m < |steps| :: steps[m].0 != OnSled(Sled.StartAc)
  }

  predicate SaysRacing(u: StatusUpdate) {
    u.status == Some("racing")
  }

  /** Another client says that the rig is racing. */
  predicate ForeignRacing(s: Step, rid: string) {
    s.OnHub? &&
    ((s.event.Post? && s.event.rid == rid && SaysRacing(s.event.update)) || RacingDatagram(s.event, rid))
  }

  // ------------------------------------------------------------------
  // Before the rig has settled: the guard
  // ------------------------------------------------------------------

  lemma {:induction false} ClockRuns(ws: seq<World>, rid: string, steps: seq<Timed>, j: nat, k: nat)
    requires IsRun(ws, rid, steps) && j <= k <= |steps|
    ensures ws[j].now <= ws[k].now
    decreases k
  {
    hide Next, Sled.Next;
    if j < k {
      ClockRuns(ws, rid, steps, j, k - 1);
    }
  }

  lemma GuardedStep(w: World, rid: string, s: Timed, t: real)
    requires Guarded(w.hub, rid, t) && Undisturbing(w, rid, s) && t <= s.1 < t + 10.0
    ensures Guarded(NextWorld(w, rid, s).hub, rid, t)
  {
    hide Next, Sled.Next, Guarded;
    match s.0
    case OnHub(e) =>
      GuardStep(w.hub, e, s.1, rid, t);
    case Deliver(i) =>
      if i < |w.wire| {
        GuardStep(w.hub, Post(rid, w.wire[i].update), s.1, rid, t);
      }
    case _ =>
  }

  lemma {:induction false} GuardHoldsTo(ws: seq<World>, rid: string, t: real, steps: seq<Timed>, k: nat)
    requires IsRun(ws, rid, steps) && k <= |steps| && Calm(ws, rid, steps, k)
    requires Guarded(ws[0].hub, rid, t) && ws[0].now >= t && ws[k].now < t + 10.0
    ensures Guarded(ws[k].hub, rid, t)
    decreases k
  {
    hide Next, Sled.Next, Guarded, Undisturbing;
    if k > 0 {
      ClockRuns(ws, rid, steps, 0, k - 1);
      ClockRuns(ws, rid, steps, k - 1, k);
      GuardHoldsTo(ws, rid, t, steps, k - 1);
      assert Enabled(ws[k - 1], steps[k - 1]) && ws[k].now == steps[k - 1].1;
      GuardedStep(ws[k - 1], rid, steps[k - 1], t);
    }
  }

  // ------------------------------------------------------------------
  // After the game has died: the sled
  // ------------------------------------------------------------------

  lemma {:induction false} StaysDown(ws: seq<World>, rid: string, steps: seq<Timed>, a: nat, k: nat)
    requires IsRun(ws, rid, steps) && StaysOff(steps, a) && a <= k <= |steps| && !ws[a].sled.acRunning
    ensures !ws[k].sled.acRunning
    decreases k
  {
    hide Next;
    if a < k {
      StaysDown(ws, rid, steps, a, k - 1);
      assert ws[k] == NextWorld(ws[k - 1], rid, steps[k - 1]);
    }
  }

  /** The game is dead, and the watchdog has no older reading in hand. */
  predicate Dead(s: Sled.State) {
    !s.acRunning && s.sample != Some(true)
  }

  lemma {:induction false} StaysDead(ws: seq<World>, rid: string, steps: seq<Timed>, a: nat, k: nat)
    requires IsRun(ws, rid, steps) && StaysOff(steps, a) && a <= k <= |steps| && Dead(ws[a].sled)
    ensures Dead(ws[k].sled)
    decreases k
  {
    hide Next;
    if a < k {
      StaysDead(ws, rid, steps, a, k - 1);
      assert ws[k] == NextWorld(ws[k - 1], rid, steps[k - 1]);
    }
  }

  /** The sled no longer reports a race, and neither does any heartbeat it has sent from `n` on. */
  ghost predicate Settled(w: World, n: nat) {
    && Dead(w.sled) && w.sled.status != "racing"
    && w.nextId >= n
    && forall m <- w.wire | m.id >= n :: !SaysRacing(m.update)
  }

  lemma SettledSled(s: Sled.State, x: Sled.Step)
    requires Dead(s) && s.status != "racing" && Sled.Enabled(s, x) && x != Sled.StartAc
    ensures Dead(Sled.Next(s, x)) && Sled.Next(s, x).status != "racing"
  {}

  lemma SettledStep(w: World, rid: string, s: Timed, n: nat)
    requires Settled(w, n) && Enabled(w, s) && s.0 != OnSled(Sled.StartAc)
    ensures Settled(NextWorld(w, rid, s), n)
  {
    hide Next, Sled.Next, Sled.Enabled;
    match s.0
    case OnSled(x) =>
      SettledSled(w.sled, x);
    case _ =>
  }

  lemma {:induction false} StaysSettled(ws: seq<World>, rid: string, steps: seq<Timed>, n: nat, a: nat, k: nat)
    requires IsRun(ws, rid, steps) && StaysOff(steps, a) && a <= k <= |steps| && Settled(ws[a], n)
    ensures Settled(ws[k], n)
    decreases k
  {
    hide NextWorld, Settled, Enabled;
    if a < k {
      StaysSettled(ws, rid, steps, n, a, k - 1);
      SettledStep(ws[k - 1], rid, steps[k - 1], n);
    }
  }

  /** Heartbeats are numbered in the order they are sent. */
  ghost predicate Numbered(w: World) {
    forall m <- w.wire :: m.id < w.nextId
  }

  lemma NumberedStep(w: World, rid: string, s: Timed)
    requires Numbered(w)
    ensures Numbered(NextWorld(w, rid, s))
  {
    hide Next, Sled.Next;
  }

  lemma {:induction false} StaysNumbered(ws: seq<World>, rid: string, steps: seq<Timed>, k: nat)
    requires IsRun(ws, rid, steps) && k <= |steps| && Numbered(ws[0])
    ensures Numbered(ws[k])
    decreases k
  {
    hide NextWorld, Numbered, Enabled;
    if k > 0 {
      StaysNumbered(ws, rid, steps, k - 1);
      NumberedStep(ws[k - 1], rid, steps[k - 1]);
    }
  }

  /** A complete watchdog round after the game's death settles the sled. */
  lemma WatchdogSettles(ws: seq<World>, rid: string, steps: seq<Timed>, a: nat, i: nat, j: nat)
    requires IsRun(ws, rid, steps) && Numbered(ws[0]) && StaysOff(steps, a) && a <= i < j < |steps|
    requires !ws[a].sled.acRunning
    requires steps[i].0 == OnSled(Sled.Sample) && steps[j].0 == OnSled(Sled.Act)
    ensures Settled(ws[j + 1], ws[j + 1].nextId)
  {
    StaysDown(ws, rid, steps, a, i);
    SampleSeesDeath(ws[i], rid, steps[i]);
    StaysDead(ws, rid, steps, i + 1, j);
    ActIdles(ws[j], rid, steps[j]);
    StaysNumbered(ws, rid, steps, j + 1);
    hide NextWorld, Dead;
  }

  lemma SampleSeesDeath(w: World, rid: string, s: Timed)
    requires !w.sled.acRunning && s.0 == OnSled(Sled.Sample)
    ensures Dead(NextWorld(w, rid, s).sled)
  {}

  lemma ActIdles(w: World, rid: string, s: Timed)
    requires Dead(w.sled) && s.0 == OnSled(Sled.Act) && Enabled(w, s)
    ensures Dead(NextWorld(w, rid, s).sled) && NextWorld(w, rid, s).sled.status != "racing"
  {
    assert Sled.Enabled(w.sled, Sled.Act);
    var running := w.sled.sample.value;
    assert w.sled.sample == Some(running) && !running;
    assert |"idle"| != |"racing"|;
  }

  // ------------------------------------------------------------------
  // After the old heartbeats are in: nobody says "racing" any more
  // ------------------------------------------------------------------

  /** The rig does not show "racing", and nothing in flight says so. */
  ghost predicate Quiet(w: World, rid: string) {
    !Racing(w.hub, rid) && forall m <- w.wire :: !SaysRacing(m.update)
  }

  lemma QuietStep(w: World, rid: string, s: Timed)
    requires Quiet(w, rid) && w.sled.status != "racing" && Enabled(w, s)
    requires !ForeignRacing(s.0, rid)
    ensures Quiet(NextWorld(w, rid, s), rid)
  {
    hide Next, Sled.Next, Racing, EndsRace;
    match s.0
    case OnHub(e) =>
      RacingStep(w.hub, e, s.1, rid);
    case Deliver(i) =>
      RacingStep(w.hub, Post(rid, w.wire[i].update), s.1, rid);
    case _ =>
  }

  lemma {:induction false} StaysQuiet(ws: seq<World>, rid: string, steps: seq<Timed>, n: nat, c: nat, k: nat)
    requires IsRun(ws, rid, steps) && StaysOff(steps, c) && c <= k <= |steps|
    requires Settled(ws[c], n) && Quiet(ws[c], rid)
    requires forall m | c <= m < |steps| :: !ForeignRacing(steps[m].0, rid)
    ensures Quiet(ws[k], rid)
    decreases k
  {
    hide NextWorld, Enabled, Quiet, ForeignRacing;
    if c < k {
      StaysQuiet(ws, rid, steps, n, c, k - 1);
      StaysSettled(ws, rid, steps, n, c, k - 1);
      QuietStep(ws[k - 1], rid, steps[k - 1]);
    }
  }

  /** The orchestrator never shows "racing" again after a KILL_RACE at `t`, provided that within
      ten seconds the game is dead (from step `a` on), the watchdog has then made a complete round
      (it samples at step `i` and acts at step `j`), and the heartbeats sent up to then have come
      in or been lost (by step `c`). Up to then no launch, racing datagram or reap may reach the rig,
      from then on no other client may say it is racing, and the game may not be started again.
      Until it is dead the watchdog may promote the rig back to "racing" as often as it likes. */
  lemma KilledRigNeverShowsRacing(
    ws: seq<World>, rid: string, t: real, steps: seq<Timed>, a: nat, i: nat, j: nat, c: nat, k: nat)
    requires IsRun(ws, rid, steps) && Calm(ws, rid, steps, c) && StaysOff(steps, a)
    requires Guarded(ws[0].hub, rid, t) && ws[0].now >= t && Numbered(ws[0])
    requires a <= i < j < c <= |steps| && k <= |steps|
    requires !ws[a].sled.acRunning
    requires steps[i].0 == OnSled(Sled.Sample) && steps[j].0 == OnSled(Sled.Act)
    requires ws[c].now < t + 10.0 && forall m <- ws[c].wire :: m.id >= ws[j + 1].nextId
    requires forall m | c <= m < |steps| :: !ForeignRacing(steps[m].0, rid)
    ensures !Racing(ws[k].hub, rid)
  {
    hide NextWorld, Enabled, Undisturbing, ForeignRacing;
    if k <= c {
      ClockRuns(ws, rid, steps, k, c);
      GuardHoldsTo(ws, rid, t, steps, k);
    } else {
      var n := ws[j + 1].nextId;
      GuardHoldsTo(ws, rid, t, steps, c);
      WatchdogSettles(ws, rid, steps, a, i, j);
      StaysSettled(ws, rid, steps, n, j + 1, c);
      StaysQuiet(ws, rid, steps, n, c, k);
    }
  }

  // ------------------------------------------------------------------
  // What heartbeats do bring
  // ------------------------------------------------------------------

  /** A game that runs is shown as soon as the watchdog has made a round and a heartbeat has come in,
      unless the rig has been killed in the last ten seconds. */
  lemma RunningGameIsShown(w: World, rid: string, t: real, ip: string, telemetry: Option<Telemetry>)
    requires w.sled.acRunning && w.sled.sample == None && w.now <= t
    requires rid in w.hub.rigs && w.hub.rigs[rid].killRequestedAt.Some? ==>
               w.hub.rigs[rid].killRequestedAt.value + 10.0 <= t
    ensures var w1 := NextWorld(w, rid, (OnSled(Sled.Sample), t));
            var w2 := NextWorld(w1, rid, (OnSled(Sled.Act), t));
            var w3 := NextWorld(w2, rid, (Send(ip, telemetry), t));
            var last := (Deliver(|w.wire|), t);
            && Enabled(w, (OnSled(Sled.Sample), t)) && Enabled(w1, (OnSled(Sled.Act), t)) && Enabled(w3, last)
            && Racing(NextWorld(w3, rid, last).hub, rid)
  {
    hide Next;
    var w1 := NextWorld(w, rid, (OnSled(Sled.Sample), t));
    var w2 := NextWorld(w1, rid, (OnSled(Sled.Act), t));
    var w3 := NextWorld(w2, rid, (Send(ip, telemetry), t));
    assert w2.sled.status == "racing" && w3.hub == w.hub;
    var u := w3.wire[|w.wire|].update;
    assert u == StatusUpdate(Some("racing"), ip, None, true, telemetry);
    RacingAfterPostIff(w.hub, rid, u, t);
    RecordStep(w.hub, Post(rid, u), t, rid);
  }

  /** Nothing in flight picks a car. */
  ghost predicate OnlyHeartbeats(w: World) {
    forall m <- w.wire :: m.update.selectedCar == None || m.update.hasCpuTemp
  }

  lemma HeartbeatStep(w: World, rid: string, s: Timed)
    requires OnlyHeartbeats(w) && (s.0.OnHub? ==> Pick(w.hub, s.0.event, s.1, rid) == None)
    ensures OnlyHeartbeats(NextWorld(w, rid, s)) && CarOf(NextWorld(w, rid, s).hub, rid) == CarOf(w.hub, rid)
  {
    hide Next, Sled.Next, CarOf;
    match s.0
    case OnHub(e) => CarStep(w.hub, e, s.1, rid);
    case Deliver(i) =>
      if i < |w.wire| {
        assert w.wire[i] in w.wire;
        CarStep(w.hub, Post(rid, w.wire[i].update), s.1, rid);
      }
    case _ =>
  }

  /** The sled's heartbeats never change the car that has been picked on the orchestrator. */
  lemma {:induction false} HeartbeatsKeepCar(ws: seq<World>, rid: string, steps: seq<Timed>, k: nat)
    requires IsRun(ws, rid, steps) && k <= |steps| && OnlyHeartbeats(ws[0])
    requires forall m | 0 <= m < |steps| ::
               steps[m].0.OnHub? ==> Pick(ws[m].hub, steps[m].0.event, steps[m].1, rid) == None
    ensures OnlyHeartbeats(ws[k]) && CarOf(ws[k].hub, rid) == CarOf(ws[0].hub, rid)
    decreases k
  {
    hide NextWorld, Enabled, OnlyHeartbeats, CarOf, Pick;
    if k > 0 {
      HeartbeatsKeepCar(ws, rid, steps, k - 1);
      HeartbeatStep(ws[k - 1], rid, steps[k - 1]);
    }
  }

  /** Why the old heartbeats must be in before the guard expires: one that says "racing" and comes
      ten seconds after the kill is believed. */
  lemma LateHeartbeatShowsRacing(w: World, rid: string, t: real, ip: string)
    requires rid in w.hub.rigs && w.now <= t
    requires w.wire == [Message(0, StatusUpdate(Some("racing"), ip, None, true, None))]
    ensures var killed := NextWorld(w, rid, (OnHub(Command(rid, "KILL_RACE")), t));
            var dead := NextWorld(killed, rid, (OnSled(Sled.KillAc), t + 1.0));
            var late := (Deliver(0), t + 10.0);
            && Enabled(dead, late)
            && !dead.sled.acRunning
            && NextWorld(dead, rid, late).hub.rigs[rid].status == "racing"
  {
    var killed := NextWorld(w, rid, (OnHub(Command(rid, "KILL_RACE")), t));
    assert killed.hub.rigs[rid].killRequestedAt == Some(t);
    RacingStep(killed.hub, Post(rid, w.wire[0].update), t + 10.0, rid);
  }
}
