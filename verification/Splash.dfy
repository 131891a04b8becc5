/** The splash screen's lockout machine. A poll thread writes the mode and the status and hands
    callbacks to Tk; Tk runs them in order on its own thread, beside the timers that hide the
    screen for a race and the unlock keys. */
module Splash {
  import opened PyText

  /** What Tk is asked to run: apply a mode, or apply a status. */
  datatype Callback = ApplyMode(mode: string) | ApplyStatus(status: string)

  /** `queue` holds the callbacks Tk has been handed; `owed` those a poll thread has written the
      field for but not handed over yet; `hideTimers` counts the pending hides. */
  datatype State = State(
    mode: string, status: string, locallyUnlocked: bool, hideScheduled: bool, visible: bool,
    queue: seq<Callback>, owed: seq<Callback>, hideTimers: nat)

  const INIT := State("lockout", "idle", false, false, true, [], [], 0)

  /** `PollMode` and `PollStatus` are a poll thread's two writes, `HandOver` its call of `after`;
      `RunCallback` and `HideTimer` are Tk's; `Unlock` is a key or mouse unlock. */
  datatype Step =
    | PollMode(mode: string)
    | PollStatus(status: string)
    | HandOver(i: nat)
    | RunCallback
    | HideTimer
    | Unlock

  // ------------------------------------------------------------------
  // Steps
  // ------------------------------------------------------------------

  function OnPollMode(s: State, m: string): State {
    if m == s.mode then s
    else if s.locallyUnlocked && m != "lockout" then s
    else
      s.(locallyUnlocked := if s.locallyUnlocked && m == "lockout" then false else s.locallyUnlocked,
         mode := m, owed := s.owed + [ApplyMode(m)])
  }

  function OnPollStatus(s: State, x: string): State {
    if x == s.status then s else s.(status := x, owed := s.owed + [ApplyStatus(x)])
  }

  function Applied(s: State, c: Callback): State {
    match c
    case ApplyMode(m) => s.(visible := m != "freeuse")
    case ApplyStatus(x) =>
      if x == "setup" && s.mode == "lockout" then s.(hideScheduled := false, visible := true)
      else if x == "racing" then
        if s.hideScheduled then s else s.(hideScheduled := true, hideTimers := s.hideTimers + 1)
      else if x == "ready" then s.(hideScheduled := false, visible := s.visible || s.mode == "lockout")
      else if x == "syncing" then s.(hideScheduled := false)
      else s.(hideScheduled := false, visible := s.visible || s.mode == "lockout")
  }

  function OnHideTimer(s: State): State {
    if s.hideTimers == 0 then s
    else if s.status == "racing" then s.(hideTimers := s.hideTimers - 1, visible := false)
    else s.(hideTimers := s.hideTimers - 1, hideScheduled := false)
  }

  function OnUnlock(s: State): State {
    s.(mode := "freeuse", locallyUnlocked := true, visible := false)
  }

  function OnHandOver(s: State, i: nat): State {
    if i < |s.owed| then s.(queue := s.queue + [s.owed[i]], owed := s.owed[..i] + s.owed[i + 1..]) else s
  }

  function OnRunCallback(s: State): State {
    if s.queue == [] then s else Applied(s.(queue := s.queue[1..]), s.queue[0])
  }

  function Next(s: State, step: Step): State {
    match step
    case PollMode(m) => OnPollMode(s, m)
    case PollStatus(x) => OnPollStatus(s, x)
    case HandOver(i) => OnHandOver(s, i)
    case RunCallback => OnRunCallback(s)
    case HideTimer => OnHideTimer(s)
    case Unlock => OnUnlock(s)
  }

  function Run(s: State, steps: seq<Step>): State {
    if steps == [] then s else Next(Run(s, steps[..|steps| - 1]), steps[|steps| - 1])
  }

  // ------------------------------------------------------------------
  // The screen
  // ------------------------------------------------------------------

  class DesktopBlocker {
    var currentMode: string
    var currentStatus: string
    var locallyUnlocked: bool
    var hideScheduled: bool
    var visible: bool
    var queue: seq<Callback>
    var owed: seq<Callback>
    var hideTimers: nat

    constructor ()
      ensures View() == INIT
    {
      currentMode, currentStatus := "lockout", "idle";
      locallyUnlocked, hideScheduled, visible := false, false, true;
      queue, owed, hideTimers := [], [], 0;
    }

    function View(): State
      reads this
    {
      State(currentMode, currentStatus, locallyUnlocked, hideScheduled, visible, queue, owed, hideTimers)
    }

    /** The mode half of `_do_poll`. */
    method PollTheMode(newMode: string)
      modifies this
      ensures View() == Next(old(View()), PollMode(newMode))
    {
      if newMode != currentMode {
        if !(locallyUnlocked && newMode != "lockout") {
          if locallyUnlocked && newMode == "lockout" {
            locallyUnlocked := false;
          }
          currentMode := newMode;
          owed := owed + [ApplyMode(newMode)];
        }
      }
    }

    /** The status half of `_do_poll`. */
    method PollTheStatus(newStatus: string)
      modifies this
      ensures View() == Next(old(View()), PollStatus(newStatus))
    {
      if newStatus != currentStatus {
        currentStatus := newStatus;
        owed := owed + [ApplyStatus(newStatus)];
      }
    }

    /** `root.after(0, ...)` for one of the owed callbacks. */
    method HandOverOne(i: nat)
      modifies this
      ensures View() == Next(old(View()), HandOver(i))
    {
      if i < |owed| {
        queue := queue + [owed[i]];
        owed := owed[..i] + owed[i + 1..];
      }
    }

    /** Tk takes the next callback. */
    method RunOne()
      modifies this
      ensures View() == Next(old(View()), RunCallback)
    {
      if queue != [] {
        var c := queue[0];
        queue := queue[1..];
        match c
        case ApplyMode(m) => ApplyTheMode(m);
        case ApplyStatus(x) => ApplyTheStatus(x);
      }
    }

    method ApplyTheMode(mode: string)
      modifies this`visible
      ensures View() == Applied(old(View()), ApplyMode(mode))
    {
      if mode == "freeuse" {
        visible := false;
      } else {
        RestoreForLockout();
      }
    }

    method ApplyTheStatus(status: string)
      modifies this
      ensures View() == Applied(old(View()), ApplyStatus(status))
    {
      if status == "setup" && currentMode == "lockout" {
        hideScheduled := false;
        RestoreForLockout();
      } else if status == "racing" {
        if !hideScheduled {
          hideScheduled := true;
          hideTimers := hideTimers + 1;
        }
      } else if status == "ready" {
        hideScheduled := false;
        if currentMode == "lockout" {
          RestoreForLockout();
        }
      } else if status == "syncing" {
        hideScheduled := false;
      } else {
        hideScheduled := false;
        if currentMode == "lockout" {
          RestoreForLockout();
        }
      }
    }

    method RestoreForLockout()
      modifies this`visible
      ensures visible
    {
      visible := true;
    }

    method HideForRacing()
      requires hideTimers > 0
      modifies this
      ensures View() == Next(old(View()), HideTimer)
    {
      hideTimers := hideTimers - 1;
      if currentStatus == "racing" {
        visible := false;
      } else {
        hideScheduled := false;
      }
    }

    method EnterUnlockedMode()
      modifies this
      ensures View() == Next(old(View()), Unlock)
    {
      currentMode := "freeuse";
      locallyUnlocked := true;
      visible := false;
    }
  }

  // ------------------------------------------------------------------
  // Lockout coverage
  // ------------------------------------------------------------------

  /** The callbacks still to run. */
  function Pending(s: State): seq<Callback> {
    s.queue + s.owed
  }

  predicate Covering(s: State) {
    s.mode == "lockout" && s.status !in {"racing", "syncing"}
  }

  /** The callback, run in this state, shows the screen. */
  predicate Shows(s: State, c: Callback) {
    match c
    case ApplyMode(m) => m != "freeuse"
    case ApplyStatus(x) => s.mode == "lockout" && x !in {"racing", "syncing"}
  }

  /** `stale` says that a "freeuse" callback has run in lockout, and none since that shows the
      screen: what it says after a step. */
  predicate StaleAfter(stale: bool, s: State, step: Step) {
    if step != RunCallback || s.queue == [] then stale
    else if s.queue[0] == ApplyMode("freeuse") then stale || s.mode == "lockout"
    else stale && !Shows(s, s.queue[0])
  }

  predicate StaleUnlock(steps: seq<Step>) {
    steps != [] &&
    var n := |steps| - 1;
    StaleAfter(StaleUnlock(steps[..n]), Run(INIT, steps[..n]), steps[n])
  }

  /** In a covering state the screen shows, or a callback that shows it is still to come, unless a
      "freeuse" callback came late. */
  ghost predicate Covered(s: State, stale: bool) {
    && (stale ==> !s.visible)
    && (Covering(s) && !s.visible && !stale ==> exists c <- Pending(s) :: Shows(s, c))
  }

  /** A step takes one callback away at most, the one it runs. */
  lemma StepKeepsPending(s: State, step: Step, c: Callback)
    requires c in Pending(s)
    ensures c in Pending(Next(s, step)) || (step == RunCallback && s.queue != [] && c == s.queue[0])
  {
    match step
    case HandOver(i) =>
      if i < |s.owed| {
        assert s.owed == s.owed[..i] + [s.owed[i]] + s.owed[i + 1..];
      }
    case RunCallback =>
      if s.queue != [] {
        assert s.queue == [s.queue[0]] + s.queue[1..];
      }
    case _ =>
  }

  lemma CoveredStep(s: State, step: Step, stale: bool)
    requires Covered(s, stale)
    ensures Covered(Next(s, step), StaleAfter(stale, s, step))
  {
    var n := Next(s, step);
    if Covering(n) && !n.visible && !StaleAfter(stale, s, step) {
      if (step.PollMode? || step.PollStatus?) && n != s {
        var c := n.owed[|s.owed|];
        assert c in Pending(n) && Shows(n, c);
      } else {
        var c :| c in Pending(s) && Shows(s, c);
        StepKeepsPending(s, step, c);
      }
    }
  }

  lemma {:induction false} RunsAreCovered(steps: seq<Step>)
    ensures Covered(Run(INIT, steps), StaleUnlock(steps))
  {
    if steps != [] {
      hide Covered, Next, StaleAfter;
      var n := |steps| - 1;
      RunsAreCovered(steps[..n]);
      CoveredStep(Run(INIT, steps[..n]), steps[n], StaleUnlock(steps[..n]));
    }
  }

  /** In lockout, with no race and no sync, and with nothing left to apply, the desktop is covered,
      whatever unlocks, re-locks, hide timers and interleavings of polls came before, except
      exactly when a "freeuse" callback ran after the mode was back to lockout and no callback has
      shown the screen since. */
  lemma LockoutIsCoveredIff(steps: seq<Step>)
    requires var s := Run(INIT, steps); Covering(s) && Pending(s) == []
    ensures Run(INIT, steps).visible <==> !StaleUnlock(steps)
  {
    RunsAreCovered(steps);
  }

  /** The modes still to be applied, in order. */
  function Modes(cs: seq<Callback>): seq<string> {
    if cs == [] then []
    else (match cs[0] case ApplyMode(m) => [m] case ApplyStatus(_) => []) + Modes(cs[1..])
  }

  lemma {:induction false} ModesAppend(a: seq<Callback>, b: seq<Callback>)
    ensures Modes(a + b) == Modes(a) + Modes(b)
  {
    if a == [] {
      assert a + b == b;
    } else {
      ModesAppend(a[1..], b);
      HeadAndTail(a, b);
    }
  }

  lemma ModesOne(c: Callback)
    ensures Modes([c]) == match c case ApplyMode(m) => [m] case ApplyStatus(_) => []
  {
    assert [c][1..] == [];
  }

  /** The step hands no mode over before one that was written earlier. */
  predicate KeepsModeOrder(s: State, step: Step) {
    step.HandOver? && step.i < |s.owed| && s.owed[step.i].ApplyMode? ==> Modes(s.owed[..step.i]) == []
  }

  /** No mode overtakes another between its write and its hand-over. Polls may overlap, and
      statuses may overtake anything. */
  predicate ModesInOrder(steps: seq<Step>) {
    steps == [] ||
    var n := |steps| - 1;
    ModesInOrder(steps[..n]) && KeepsModeOrder(Run(INIT, steps[..n]), steps[n])
  }

  /** How a step changes the modes still to be applied. */
  lemma StepModes(s: State, step: Step)
    requires KeepsModeOrder(s, step)
    ensures var n, ms := Next(s, step), Modes(Pending(s));
            Modes(Pending(n)) ==
            match step
            case PollMode(m) => if n == s then ms else ms + [m]
            case RunCallback => if s.queue != [] && s.queue[0].ApplyMode? then ms[1..] else ms
            case _ => ms
    ensures s.queue != [] && s.queue[0].ApplyMode? ==>
              Modes(Pending(s)) != [] && Modes(Pending(s))[0] == s.queue[0].mode
  {
    hide Modes;
    FirstMode(s);
    match step
    case PollMode(m) => OwedModes(s, ApplyMode(m));
    case PollStatus(x) => OwedModes(s, ApplyStatus(x));
    case HandOver(i) =>
      if i < |s.owed| {
        HandOverModes(s, i);
      }
    case _ =>
  }

  lemma OwedModes(s: State, c: Callback)
    ensures Modes(s.queue + (s.owed + [c])) ==
            Modes(Pending(s)) + match c case ApplyMode(m) => [m] case ApplyStatus(_) => []
  {
    Associative(s.queue, s.owed, [c]);
    ModesAppend(Pending(s), [c]);
    ModesOne(c);
    hide Modes;
  }

  lemma FirstMode(s: State)
    ensures s.queue != [] ==>
              var ms, rest := Modes(Pending(s)), Modes(s.queue[1..] + s.owed);
              if s.queue[0].ApplyMode? then ms != [] && ms[0] == s.queue[0].mode && ms[1..] == rest else ms == rest
  {
    if s.queue != [] {
      HeadAndTail(s.queue, s.owed);
    }
  }

  lemma HandOverModes(s: State, i: nat)
    requires i < |s.owed| && KeepsModeOrder(s, HandOver(i))
    ensures Modes(Pending(OnHandOver(s, i))) == Modes(Pending(s))
  {
    var c := s.owed[i];
    assert s.owed == s.owed[..i] + ([c] + s.owed[i + 1..]);
    ModesOne(c);
    Overtaking(s.queue, s.owed[..i], [c], s.owed[i + 1..]);
    hide Modes;
  }

  lemma Overtaking(q: seq<Callback>, a: seq<Callback>, c: seq<Callback>, b: seq<Callback>)
    requires Modes(a) == [] || Modes(c) == []
    ensures Modes((q + c) + (a + b)) == Modes(q + (a + (c + b)))
  {
    ModesAppend(q + c, a + b);
    ModesAppend(q, c);
    ModesAppend(a, b);
    ModesAppend(q, a + (c + b));
    ModesAppend(a, c + b);
    ModesAppend(c, b);
    hide Modes;
  }

  /** In lockout the last mode still to be applied is "lockout", and it will make up for a
      "freeuse" that came late. */
  predicate EndsLocked(s: State, stale: bool) {
    var ms := Modes(Pending(s));
    s.mode == "lockout" ==> (ms != [] ==> ms[|ms| - 1] == "lockout") && (stale ==> ms != [])
  }

  lemma EndsLockedStep(s: State, step: Step, stale: bool)
    requires EndsLocked(s, stale) && KeepsModeOrder(s, step)
    ensures EndsLocked(Next(s, step), StaleAfter(stale, s, step))
  {
    hide Modes, Pending;
    StepModes(s, step);
    var ms := Modes(Pending(s));
    match step
    case PollMode(_) =>
    case RunCallback =>
      assert |ms| > 1 ==> ms[1..][|ms| - 2] == ms[|ms| - 1];
    case _ =>
  }

  lemma {:induction false} RunsEndLocked(steps: seq<Step>)
    requires ModesInOrder(steps)
    ensures EndsLocked(Run(INIT, steps), StaleUnlock(steps))
  {
    if steps != [] {
      hide EndsLocked, Next, StaleAfter, KeepsModeOrder;
      var n := |steps| - 1;
      RunsEndLocked(steps[..n]);
      EndsLockedStep(Run(INIT, steps[..n]), steps[n], StaleUnlock(steps[..n]));
    }
  }

  /** So as long as modes are handed to Tk in the order they were written, a locked desktop is
      covered, however polls overlap. */
  lemma LockoutIsCovered(steps: seq<Step>)
    requires ModesInOrder(steps)
    requires var s := Run(INIT, steps); Covering(s) && Pending(s) == []
    ensures Run(INIT, steps).visible
  {
    RunsEndLocked(steps);
    LockoutIsCoveredIff(steps);
  }

  // ------------------------------------------------------------------
  // Which mode is in force
  // ------------------------------------------------------------------

  /** The rig has been unlocked locally, and no poll of "lockout" has found it in another mode
      since. */
  predicate Unlocked(steps: seq<Step>) {
    steps != [] &&
    var n := |steps| - 1;
    match steps[n]
    case Unlock => true
    case PollMode(m) => Unlocked(steps[..n]) && (m != "lockout" || ModeOf(steps[..n]) == "lockout")
    case _ => Unlocked(steps[..n])
  }

  /** The mode in force: the last one polled, but for those polled while the rig was unlocked
      locally, when only "lockout" is obeyed. */
  function ModeOf(steps: seq<Step>): string {
    if steps == [] then "lockout"
    else
      var n := |steps| - 1;
      match steps[n]
      case Unlock => "freeuse"
      case PollMode(m) => if m == "lockout" || !Unlocked(steps[..n]) then m else ModeOf(steps[..n])
      case _ => ModeOf(steps[..n])
  }

  lemma {:induction false} ModeInForce(steps: seq<Step>)
    ensures Run(INIT, steps).mode == ModeOf(steps)
    ensures Run(INIT, steps).locallyUnlocked <==> Unlocked(steps)
    ensures Unlocked(steps) ==> ModeOf(steps) == "freeuse"
  {
    hide Next;
    if steps != [] {
      var n := |steps| - 1;
      ModeInForce(steps[..n]);
      ModeAfter(Run(INIT, steps[..n]), steps[n]);
    }
  }

  lemma ModeAfter(s: State, step: Step)
    ensures var n := Next(s, step);
            match step
            case Unlock => n.mode == "freeuse" && n.locallyUnlocked
            case PollMode(m) =>
              && n.mode == (if m == "lockout" || !s.locallyUnlocked then m else s.mode)
              && n.locallyUnlocked == (s.locallyUnlocked && (m != "lockout" || s.mode == "lockout"))
            case _ => n.mode == s.mode && n.locallyUnlocked == s.locallyUnlocked
  {}

  /** After every run a polled mode is obeyed if and only if it is "lockout", or the rig is not
      unlocked locally, or it is the mode in force already. */
  lemma PollIsObeyedIff(steps: seq<Step>, m: string)
    ensures Next(Run(INIT, steps), PollMode(m)).mode == m <==>
            m == "lockout" || !Unlocked(steps) || m == ModeOf(steps)
  {
    ModeInForce(steps);
  }

  /** Without local unlocks the mode is the last one polled. */
  function LastPolled(steps: seq<Step>): string {
    if steps == [] then "lockout"
    else if steps[|steps| - 1].PollMode? then steps[|steps| - 1].mode
    else LastPolled(steps[..|steps| - 1])
  }

  lemma {:induction false} ModeIsLastPolled(steps: seq<Step>)
    requires forall i | 0 <= i < |steps| :: steps[i] != Unlock
    ensures Run(INIT, steps).mode == LastPolled(steps) && !Unlocked(steps)
  {
    ModeInForce(steps);
    if steps != [] {
      ModeIsLastPolled(steps[..|steps| - 1]);
      ModeInForce(steps[..|steps| - 1]);
    }
    hide Run;
  }

  /** The status is the last one polled, and "idle" before any poll. */
  function LastStatus(steps: seq<Step>): string {
    if steps == [] then "idle"
    else if steps[|steps| - 1].PollStatus? then steps[|steps| - 1].status
    else LastStatus(steps[..|steps| - 1])
  }

  lemma {:induction false} StatusIsLastPolled(steps: seq<Step>)
    ensures Run(INIT, steps).status == LastStatus(steps)
  {
    hide Next;
    if steps != [] {
      var n := |steps| - 1;
      StatusIsLastPolled(steps[..n]);
      StatusAfter(Run(INIT, steps[..n]), steps[n]);
    }
  }

  lemma StatusAfter(s: State, step: Step)
    ensures Next(s, step).status == if step.PollStatus? then step.status else s.status
  {}

  // ------------------------------------------------------------------
  // Free use
  // ------------------------------------------------------------------

  /** `stale` says that a callback that locks has run in "freeuse", and the screen has not been
      hidden since: what it says after a step. */
  predicate StaleLockAfter(stale: bool, s: State, step: Step) {
    match step
    case RunCallback =>
      if s.queue == [] || !s.queue[0].ApplyMode? then stale
      else s.queue[0].mode != "freeuse" && (stale || s.mode == "freeuse")
    case HideTimer => stale && (s.hideTimers == 0 || s.status != "racing")
    case Unlock => false
    case _ => stale
  }

  predicate StaleLock(steps: seq<Step>) {
    steps != [] &&
    var n := |steps| - 1;
    StaleLockAfter(StaleLock(steps[..n]), Run(INIT, steps[..n]), steps[n])
  }

  /** In "freeuse" the screen is hidden, or a callback that hides it is still to come, unless one
      that locks came late. */
  predicate Freed(s: State, stale: bool) {
    && (stale ==> s.visible)
    && (s.mode == "freeuse" && s.visible && !stale ==> ApplyMode("freeuse") in Pending(s))
  }

  lemma FreedStep(s: State, step: Step, stale: bool)
    requires Freed(s, stale)
    ensures Freed(Next(s, step), StaleLockAfter(stale, s, step))
  {
    var c := ApplyMode("freeuse");
    if c in Pending(s) {
      StepKeepsPending(s, step, c);
    }
    match step
    case PollMode(m) =>
      if Next(s, step) != s {
        assert Next(s, step).owed[|s.owed|] == ApplyMode(m);
        assert ApplyMode(m) in Pending(Next(s, step));
      }
    case _ =>
  }

  lemma {:induction false} RunsAreFreed(steps: seq<Step>)
    ensures Freed(Run(INIT, steps), StaleLock(steps))
  {
    if steps != [] {
      hide Freed, Next, StaleLockAfter;
      var n := |steps| - 1;
      RunsAreFreed(steps[..n]);
      FreedStep(Run(INIT, steps[..n]), steps[n], StaleLock(steps[..n]));
    }
  }

  /** In "freeuse", with nothing left to apply, the desktop is uncovered, whatever came before and
      however polls overlap, except exactly when a callback that locks ran after the mode was
      "freeuse" and the screen has not been hidden since. */
  lemma FreeuseIsUncoveredIff(steps: seq<Step>)
    requires var s := Run(INIT, steps); s.mode == "freeuse" && Pending(s) == []
    ensures !Run(INIT, steps).visible <==> !StaleLock(steps)
  {
    RunsAreFreed(steps);
  }

  /** Unless the rig is unlocked locally, the last mode still to be applied is the one in force, and
      in "freeuse" it will make up for a lock that came late. */
  predicate EndsAsPolled(s: State, unlocked: bool, stale: bool) {
    var ms := Modes(Pending(s));
    !unlocked ==> (ms != [] ==> ms[|ms| - 1] == s.mode) && (s.mode == "freeuse" && stale ==> ms != [])
  }

  lemma EndsAsPolledStep(s: State, step: Step, stale: bool)
    requires EndsAsPolled(s, s.locallyUnlocked, stale) && KeepsModeOrder(s, step)
    requires s.locallyUnlocked ==> s.mode == "freeuse"
    ensures EndsAsPolled(Next(s, step), Next(s, step).locallyUnlocked, StaleLockAfter(stale, s, step))
  {
    hide Modes, Pending;
    StepModes(s, step);
    var ms := Modes(Pending(s));
    match step
    case PollMode(_) =>
    case RunCallback =>
      assert |ms| > 1 ==> ms[1..][|ms| - 2] == ms[|ms| - 1];
    case _ =>
  }

  lemma {:induction false} RunsEndAsPolled(steps: seq<Step>)
    requires ModesInOrder(steps)
    ensures EndsAsPolled(Run(INIT, steps), Run(INIT, steps).locallyUnlocked, StaleLock(steps))
  {
    if steps != [] {
      hide EndsAsPolled, Next, StaleLockAfter, KeepsModeOrder, ModeOf, Unlocked;
      var n := |steps| - 1;
      RunsEndAsPolled(steps[..n]);
      ModeInForce(steps[..n]);
      EndsAsPolledStep(Run(INIT, steps[..n]), steps[n], StaleLock(steps[..n]));
    }
  }

  /** So a rig that the orchestrator has set to "freeuse" is uncovered, as long as modes are handed
      to Tk in the order they were written. */
  lemma FreeuseIsUncovered(steps: seq<Step>)
    requires ModesInOrder(steps) && !Unlocked(steps)
    requires ModeOf(steps) == "freeuse" && Pending(Run(INIT, steps)) == []
    ensures !Run(INIT, steps).visible
  {
    hide Run, ModeOf, Unlocked, ModesInOrder, StaleLock;
    ModeInForce(steps);
    RunsEndAsPolled(steps);
    FreeuseIsUncoveredIff(steps);
  }

  // ------------------------------------------------------------------
  // The race is uncovered
  // ------------------------------------------------------------------

  /** Callbacks are handed to Tk in the order they were written. */
  predicate InOrder(steps: seq<Step>) {
    forall i | 0 <= i < |steps| :: steps[i].HandOver? ==> steps[i].i == 0
  }

  /** `relocked` says that of the mode callbacks, the hide timers fired in a race and the unlocks,
      the last one locked the screen: what it says after a step. */
  predicate RelockedAfter(relocked: bool, s: State, step: Step) {
    match step
    case RunCallback =>
      if s.queue != [] && s.queue[0].ApplyMode? then s.queue[0].mode != "freeuse" else relocked
    case HideTimer => relocked && (s.hideTimers == 0 || s.status != "racing")
    case Unlock => false
    case _ => relocked
  }

  predicate Relocked(steps: seq<Step>) {
    steps != [] &&
    var n := |steps| - 1;
    RelockedAfter(Relocked(steps[..n]), Run(INIT, steps[..n]), steps[n])
  }

  /** `clean` says that no mode but "freeuse" has been written in the current race. */
  predicate CleanAfter(clean: bool, s: State, step: Step) {
    match step
    case PollMode(m) => clean && (s.status != "racing" || m == "freeuse" || Next(s, step) == s)
    case PollStatus(x) => clean || x != s.status
    case _ => clean
  }

  /** No mode but "freeuse" has taken effect since the status last changed to "racing". */
  predicate NoRelock(steps: seq<Step>) {
    steps == [] ||
    var n := |steps| - 1;
    CleanAfter(NoRelock(steps[..n]), Run(INIT, steps[..n]), steps[n])
  }

  /** Whether a hide is scheduled once all of `cs` have run. */
  predicate Scheduled(now: bool, cs: seq<Callback>) {
    if cs == [] then now
    else
      match cs[|cs| - 1]
      case ApplyMode(_) => Scheduled(now, cs[..|cs| - 1])
      case ApplyStatus(x) => x == "racing"
  }

  predicate OnlyModes(cs: seq<Callback>, clean: bool) {
    forall c <- cs :: c.ApplyMode? && (clean ==> c.mode == "freeuse")
  }

  /** The callback at `i` will schedule a hide, and only modes come after it. */
  predicate HidesAt(now: bool, cs: seq<Callback>, i: nat, clean: bool) {
    i < |cs| && cs[i] == ApplyStatus("racing") && !Scheduled(now, cs[..i]) && OnlyModes(cs[i + 1..], clean)
  }

  /** In a race a hide is still to be scheduled, or it is scheduled and still to come unless the
      screen is hidden or has been locked again. Outside a race none will be left scheduled. */
  ghost predicate HideToCome(s: State, relocked: bool, clean: bool) {
    var cs := Pending(s);
    && (relocked ==> s.visible)
    && if s.status != "racing" then !Scheduled(s.hideScheduled, cs)
       else
         || (exists i: nat :: HidesAt(s.hideScheduled, cs, i, clean))
         || (OnlyModes(cs, clean) && s.hideScheduled && (s.visible && (!relocked || clean) ==> s.hideTimers > 0))
  }

  /** Handed over in turn, the pending callbacks are a queue. */
  lemma StepPending(s: State, step: Step)
    requires step.HandOver? ==> step.i == 0
    ensures Pending(Next(s, step)) ==
            match step
            case PollMode(m) => if Next(s, step) == s then Pending(s) else Pending(s) + [ApplyMode(m)]
            case PollStatus(x) => if x == s.status then Pending(s) else Pending(s) + [ApplyStatus(x)]
            case RunCallback => if s.queue == [] then Pending(s) else Pending(s)[1..]
            case _ => Pending(s)
  {
    match step
    case PollMode(m) => Associative(s.queue, s.owed, [ApplyMode(m)]);
    case PollStatus(x) => Associative(s.queue, s.owed, [ApplyStatus(x)]);
    case HandOver(_) =>
      if s.owed != [] {
        assert s.owed == [s.owed[0]] + s.owed[1..];
        Associative(s.queue, [s.owed[0]], s.owed[1..]);
      }
    case RunCallback =>
      if s.queue != [] {
        HeadAndTail(s.queue, s.owed);
      }
    case _ =>
  }

  /** Running the first of the callbacks does not change what they leave scheduled. */
  lemma {:induction false} ScheduledStep(now: bool, cs: seq<Callback>)
    requires cs != []
    ensures var next := match cs[0] case ApplyMode(_) => now case ApplyStatus(x) => x == "racing";
            Scheduled(next, cs[1..]) == Scheduled(now, cs)
  {
    var last := |cs| - 1;
    if last == 0 {
      assert cs[1..] == [] && cs[..0] == [];
    } else {
      ScheduledStep(now, cs[..last]);
      assert cs[1..][..last - 1] == cs[..last][1..];
    }
  }

  lemma {:induction false} ScheduledLess(cs: seq<Callback>)
    ensures Scheduled(false, cs) ==> Scheduled(true, cs)
  {
    if cs != [] {
      ScheduledLess(cs[..|cs| - 1]);
    }
  }

  lemma ScheduledLast(now: bool, cs: seq<Callback>, c: Callback)
    ensures Scheduled(now, cs + [c]) ==
            match c case ApplyMode(_) => Scheduled(now, cs) case ApplyStatus(x) => x == "racing"
  {
    assert (cs + [c])[..|cs|] == cs;
  }

  lemma HidesBeforeLast(now: bool, cs: seq<Callback>, i: nat, m: string, clean: bool, clean': bool)
    requires HidesAt(now, cs, i, clean) && (clean' ==> clean && m == "freeuse")
    ensures HidesAt(now, cs + [ApplyMode(m)], i, clean')
  {
    var more := cs + [ApplyMode(m)];
    assert more[..i] == cs[..i] && more[i + 1..] == cs[i + 1..] + [ApplyMode(m)];
  }

  lemma HidesAfterFirst(now: bool, next: bool, cs: seq<Callback>, i: nat, clean: bool)
    requires HidesAt(now, cs, i, clean) && i > 0
    requires next == match cs[0] case ApplyMode(_) => now case ApplyStatus(x) => x == "racing"
    ensures HidesAt(next, cs[1..], i - 1, clean)
  {
    ScheduledStep(now, cs[..i]);
    assert cs[1..][..i - 1] == cs[..i][1..] && cs[1..][i..] == cs[i + 1..];
  }

  lemma ModeStep(s: State, m: string, relocked: bool, clean: bool)
    requires HideToCome(s, relocked, clean)
    ensures HideToCome(Next(s, PollMode(m)), relocked, CleanAfter(clean, s, PollMode(m)))
  {
    hide Scheduled, HidesAt, Pending;
    var n, clean' := Next(s, PollMode(m)), CleanAfter(clean, s, PollMode(m));
    StepPending(s, PollMode(m));
    if n != s {
      var cs := Pending(s);
      ScheduledLast(s.hideScheduled, cs, ApplyMode(m));
      if i: nat :| s.status == "racing" && HidesAt(s.hideScheduled, cs, i, clean) {
        HidesBeforeLast(s.hideScheduled, cs, i, m, clean, clean');
      }
    }
  }

  lemma StatusStep(s: State, x: string, relocked: bool, clean: bool)
    requires HideToCome(s, relocked, clean)
    ensures HideToCome(Next(s, PollStatus(x)), relocked, CleanAfter(clean, s, PollStatus(x)))
  {
    hide Scheduled, Pending;
    var n, cs := Next(s, PollStatus(x)), Pending(s);
    StepPending(s, PollStatus(x));
    if x != s.status {
      ScheduledLast(s.hideScheduled, cs, ApplyStatus(x));
      var more := cs + [ApplyStatus(x)];
      assert more[..|cs|] == cs && more[|cs| + 1..] == [];
      assert x == "racing" ==> HidesAt(n.hideScheduled, more, |cs|, CleanAfter(clean, s, PollStatus(x)));
    }
  }

  lemma CallbackStep(s: State, relocked: bool, clean: bool)
    requires HideToCome(s, relocked, clean)
    ensures HideToCome(Next(s, RunCallback), RelockedAfter(relocked, s, RunCallback), clean)
  {
    hide Scheduled, Pending;
    var n, cs := Next(s, RunCallback), Pending(s);
    StepPending(s, RunCallback);
    if s.queue != [] {
      FirstPending(s);
      ScheduledStep(s.hideScheduled, cs);
      if i: nat :| s.status == "racing" && HidesAt(s.hideScheduled, cs, i, clean) {
        if i > 0 {
          HidesAfterFirst(s.hideScheduled, n.hideScheduled, cs, i, clean);
          hide HidesAt;
        } else {
          ScheduledNow(s.hideScheduled, cs[..0]);
        }
      }
    }
  }

  lemma FirstPending(s: State)
    requires s.queue != []
    ensures Pending(s) != [] && Pending(s)[0] == s.queue[0]
  {}

  lemma ScheduledNow(now: bool, none: seq<Callback>)
    requires none == []
    ensures Scheduled(now, none) == now
  {}

  lemma HideToComeStep(s: State, step: Step, relocked: bool, clean: bool)
    requires HideToCome(s, relocked, clean) && (step.HandOver? ==> step.i == 0)
    ensures HideToCome(Next(s, step), RelockedAfter(relocked, s, step), CleanAfter(clean, s, step))
  {
    match step
    case PollMode(m) => ModeStep(s, m, relocked, clean);
    case PollStatus(x) => StatusStep(s, x, relocked, clean);
    case RunCallback => CallbackStep(s, relocked, clean);
    case _ =>
      StepPending(s, step);
      ScheduledLess(Pending(s));
      hide Scheduled, Pending;
  }

  lemma {:induction false} RunsHide(steps: seq<Step>)
    requires InOrder(steps)
    ensures HideToCome(Run(INIT, steps), Relocked(steps), NoRelock(steps))
  {
    if steps != [] {
      hide HideToCome, Next, RelockedAfter, CleanAfter;
      var n := |steps| - 1;
      RunsHide(steps[..n]);
      HideToComeStep(Run(INIT, steps[..n]), steps[n], Relocked(steps[..n]), NoRelock(steps[..n]));
    }
  }

  /** With the callbacks handed over in order, once they have run and the hide timers have fired, a
      race is uncovered except exactly when the screen was locked again after the last of the
      timers. */
  lemma RelockedRaceIff(steps: seq<Step>)
    requires InOrder(steps)
    requires var s := Run(INIT, steps); s.status == "racing" && Pending(s) == [] && s.hideTimers == 0
    ensures !Run(INIT, steps).visible <==> !Relocked(steps)
  {
    RunsHide(steps);
  }

  /** So it is uncovered if the orchestrator has not locked the rig since the race began. */
  lemma RaceIsUncovered(steps: seq<Step>)
    requires InOrder(steps) && NoRelock(steps)
    requires var s := Run(INIT, steps); s.status == "racing" && Pending(s) == [] && s.hideTimers == 0
    ensures !Run(INIT, steps).visible
  {
    RunsHide(steps);
  }

  // ------------------------------------------------------------------
  // The race under any interleaving
  // ------------------------------------------------------------------

  /** `late` says that since the screen was last hidden it was locked again, or an older status was
      applied in a race behind the last callback of that race: what it says after a step. */
  predicate LateAfter(late: bool, s: State, step: Step) {
    match step
    case RunCallback =>
      if s.queue == [] then late
      else if s.queue[0] == ApplyMode("freeuse") then false
      else if !Shows(s, s.queue[0]) then late
      else late || s.queue[0].ApplyMode?
                || (s.status == "racing" && ApplyStatus("racing") !in s.queue[1..] + s.owed)
    case HideTimer => late && (s.hideTimers == 0 || s.status != "racing")
    case Unlock => false
    case _ => late
  }

  predicate LateShow(steps: seq<Step>) {
    steps != [] &&
    var n := |steps| - 1;
    LateAfter(LateShow(steps[..n]), Run(INIT, steps[..n]), steps[n])
  }

  /** With no timer left, a screen that shows without a late callback has no hide scheduled, and in
      a race one that will be. */
  predicate HideOwed(s: State, late: bool) {
    && (late ==> s.visible)
    && (s.hideTimers == 0 && s.visible && !late ==>
          && !s.hideScheduled
          && (s.status == "racing" ==> ApplyStatus("racing") in Pending(s)))
  }

  lemma HideOwedStep(s: State, step: Step, late: bool)
    requires HideOwed(s, late)
    ensures HideOwed(Next(s, step), LateAfter(late, s, step))
  {
    var c := ApplyStatus("racing");
    if c in Pending(s) {
      StepKeepsPending(s, step, c);
    }
    match step
    case PollStatus(x) =>
      if x != s.status {
        assert Next(s, step).owed[|s.owed|] == ApplyStatus(x);
        assert ApplyStatus(x) in Pending(Next(s, step));
      }
    case _ =>
  }

  lemma {:induction false} RunsOweHides(steps: seq<Step>)
    ensures HideOwed(Run(INIT, steps), LateShow(steps))
  {
    if steps != [] {
      hide HideOwed, Next, LateAfter;
      var n := |steps| - 1;
      RunsOweHides(steps[..n]);
      HideOwedStep(Run(INIT, steps[..n]), steps[n], LateShow(steps[..n]));
    }
  }

  /** Once the callbacks have run and the hide timers have fired, a race is uncovered, whatever came
      before and however polls overlap, except exactly when, since the screen was last hidden, it
      was locked again or an older status was applied behind the last callback of the race. */
  lemma RaceIsUncoveredIff(steps: seq<Step>)
    requires var s := Run(INIT, steps); s.status == "racing" && Pending(s) == [] && s.hideTimers == 0
    ensures !Run(INIT, steps).visible <==> !LateShow(steps)
  {
    RunsOweHides(steps);
  }

  // ------------------------------------------------------------------
  // What is not covered
  // ------------------------------------------------------------------

  lemma RunFour(s: State, a: Step, b: Step, c: Step, d: Step)
    ensures Run(s, [a, b, c, d]) == Next(Next(Next(Next(s, a), b), c), d)
  {
    hide Next;
    assert [a, b, c, d][..3] == [a, b, c] && [a, b, c][..2] == [a, b] && [a, b][..1] == [a] && [a][..0] == [];
    assert Run(s, [a]) == Next(Run(s, [a][..0]), a);
    assert Run(s, [a, b]) == Next(Run(s, [a]), b);
    assert Run(s, [a, b, c]) == Next(Run(s, [a, b]), c);
  }

  /** Polls that overlap can uncover a locked desktop for good: one thread writes "freeuse", the
      next "lockout", and their callbacks reach Tk in the other order. */
  lemma OverlappingPollsUncover()
    ensures var s := Run(Run(INIT, [PollMode("freeuse"), PollMode("lockout"), HandOver(1), HandOver(0)]),
                         [RunCallback, RunCallback, HideTimer, HideTimer]);
            Covering(s) && s.queue == [] && s.owed == [] && !s.visible
  {
    var s1 := Next(INIT, PollMode("freeuse"));
    var s2 := Next(s1, PollMode("lockout"));
    assert s2.owed == [ApplyMode("freeuse"), ApplyMode("lockout")];
    RunFour(INIT, PollMode("freeuse"), PollMode("lockout"), HandOver(1), HandOver(0));
    var s4 := Next(Next(s2, HandOver(1)), HandOver(0));
    assert s4.queue == [ApplyMode("lockout"), ApplyMode("freeuse")] && s4.owed == [];
    RunFour(s4, RunCallback, RunCallback, HideTimer, HideTimer);
    var s5 := Next(s4, RunCallback);
    assert s5.queue == [ApplyMode("freeuse")] && s5.visible;
    var s6 := Next(s5, RunCallback);
    assert s6.queue == [] && !s6.visible;
  }

  /** A local unlock can be covered again at once: the orchestrator's lock was written before it and
      reaches Tk after it. The rig counts as unlocked all the same. */
  lemma LateLockCoversUnlock()
    ensures var open := Run(INIT, [PollMode("freeuse"), HandOver(0), RunCallback, PollMode("lockout")]);
            var s := Run(open, [Unlock, HandOver(0), RunCallback, HideTimer]);
            s.mode == "freeuse" && s.locallyUnlocked && Pending(s) == [] && s.visible
  {
    RunFour(INIT, PollMode("freeuse"), HandOver(0), RunCallback, PollMode("lockout"));
    var s2 := Next(Next(INIT, PollMode("freeuse")), HandOver(0));
    assert s2.queue == [ApplyMode("freeuse")] && s2.owed == [];
    var open := Next(Next(s2, RunCallback), PollMode("lockout"));
    assert open.queue == [] && open.owed == [ApplyMode("lockout")];
    RunFour(open, Unlock, HandOver(0), RunCallback, HideTimer);
    var s3 := Next(Next(open, Unlock), HandOver(0));
    assert s3.queue == [ApplyMode("lockout")] && s3.owed == [];
  }

  /** Statuses that overtake each other can cover a race for good: a race is over and the next has
      begun before either callback reaches Tk, and "idle" comes last. */
  lemma OvertakenStatusCoversRace()
    ensures var hidden := Run(INIT, [PollStatus("racing"), HandOver(0), RunCallback, HideTimer]);
            var s := Run(Run(hidden, [PollStatus("idle"), PollStatus("racing"), HandOver(1), HandOver(0)]),
                         [RunCallback, RunCallback, HideTimer, HideTimer]);
            && !hidden.visible
            && s.status == "racing" && Pending(s) == [] && s.hideTimers == 0 && s.visible
  {
    RunFour(INIT, PollStatus("racing"), HandOver(0), RunCallback, HideTimer);
    var s2 := Next(Next(INIT, PollStatus("racing")), HandOver(0));
    assert s2.queue == [ApplyStatus("racing")] && s2.owed == [];
    var hidden := Next(Next(s2, RunCallback), HideTimer);
    assert hidden == State("lockout", "racing", false, true, false, [], [], 0);
    SecondRaceCovered(hidden);
  }

  lemma SecondRaceCovered(hidden: State)
    requires hidden == State("lockout", "racing", false, true, false, [], [], 0)
    ensures var s := Run(Run(hidden, [PollStatus("idle"), PollStatus("racing"), HandOver(1), HandOver(0)]),
                         [RunCallback, RunCallback, HideTimer, HideTimer]);
            s.status == "racing" && Pending(s) == [] && s.hideTimers == 0 && s.visible
  {
    RunFour(hidden, PollStatus("idle"), PollStatus("racing"), HandOver(1), HandOver(0));
    var s2 := Next(Next(hidden, PollStatus("idle")), PollStatus("racing"));
    assert s2.owed == [ApplyStatus("idle"), ApplyStatus("racing")];
    var s4 := Next(Next(s2, HandOver(1)), HandOver(0));
    assert s4.queue == [ApplyStatus("racing"), ApplyStatus("idle")] && s4.owed == [];
    RunFour(s4, RunCallback, RunCallback, HideTimer, HideTimer);
    var s5 := Next(s4, RunCallback);
    assert s5.queue == [ApplyStatus("idle")] && s5.hideTimers == 0;
    var s6 := Next(s5, RunCallback);
    assert s6.queue == [] && s6.visible;
  }

  /** Locking a rig again during its race covers the race, and no timer will uncover it: the hide
      counts as scheduled already. */
  lemma RelockCoversRace(s: State)
    requires s.status == "racing" && s.mode == "freeuse" && s.hideScheduled
    requires s.queue == [] && s.owed == [] && s.hideTimers == 0
    ensures var r := Run(s, [PollMode("lockout"), HandOver(0), RunCallback, HideTimer]);
            r.status == "racing" && r.queue == [] && r.owed == [] && r.hideTimers == 0 && r.visible
  {
    RunFour(s, PollMode("lockout"), HandOver(0), RunCallback, HideTimer);
    var s2 := Next(Next(s, PollMode("lockout")), HandOver(0));
    assert s2.queue == [ApplyMode("lockout")] && s2.owed == [];
  }
}
