/** The rig agent's status: the process watchdog, the kill sequence, the other writers, and the
    heartbeat service's standalone mode. */
module Sled {
  import opened PyText

  /** `sample` is what the watchdog has read of the process list and not yet acted on. */
  datatype State = State(status: string, acRunning: bool, sample: Option<bool>)

  /** The atomic steps that touch the agent's status or the game process. `kill_race` is
      `SetStatus("idle")`, a second's sleep, and `KillAc`; a launch or a manual start is `StartAc`. */
  datatype Step = SetStatus(status: string) | Sample | Act | KillAc | StartAc

  /** Nobody but the watchdog writes "racing": the kill sequence, the command handler and the
      heartbeat's pull write other statuses. */
  predicate Enabled(s: State, step: Step) {
    match step
    case SetStatus(x) => x != "racing"
    case Sample => s.sample == None
    case Act => s.sample.Some?
    case _ => true
  }

  function Next(s: State, step: Step): State {
    match step
    case SetStatus(x) => s.(status := x)
    case Sample => s.(sample := Some(s.acRunning))
    case Act =>
      if s.sample == Some(true) && s.status != "racing" then s.(status := "racing", sample := None)
      else if s.sample == Some(false) && s.status == "racing" then s.(status := "idle", sample := None)
      else s.(sample := None)
    case KillAc => s.(acRunning := false)
    case StartAc => s.(acRunning := true)
  }

  class RigAgent {
    var status: string
    var selectedCar: Option<string>
    var acRunning: bool
    var acSample: Option<bool>

    constructor ()
      ensures View() == State("idle", false, None) && selectedCar == None
    {
      status, selectedCar, acRunning, acSample := "idle", None, false, None;
    }

    function View(): State
      reads this
    {
      State(status, acRunning, acSample)
    }

    /** The watchdog's look at the process list. */
    method WatchdogSample()
      requires acSample == None
      modifies this`acSample
      ensures View() == Next(old(View()), Sample)
    {
      acSample := Some(acRunning);
    }

    /** What the watchdog does about it. */
    method WatchdogAct()
      requires acSample.Some?
      modifies this`acSample, this`status
      ensures View() == Next(old(View()), Act)
    {
      var running := acSample.value;
      if running && status != "racing" {
        status := "racing";
      } else if !running && status == "racing" {
        status := "idle";
      }
      acSample := None;
    }

    /** `kill_race` before its sleep. */
    method BeginKill()
      modifies this`status
      ensures View() == Next(old(View()), SetStatus("idle"))
    {
      status := "idle";
    }

    /** `kill_race` after its sleep. */
    method FinishKill()
      modifies this`acRunning
      ensures View() == Next(old(View()), KillAc)
    {
      acRunning := false;
    }

    /** SETUP_MODE. */
    method EnterSetup()
      modifies this`status, this`selectedCar
      ensures View() == Next(old(View()), SetStatus("setup")) && selectedCar == None
    {
      status := "setup";
      selectedCar := None;
    }
  }

  function Run(s: State, steps: seq<Step>): State {
    if steps == [] then s else Next(Run(s, steps[..|steps| - 1]), steps[|steps| - 1])
  }

  /** Whether the game runs: what was last done to it. */
  predicate GameAfter(start: bool, steps: seq<Step>) {
    if steps == [] then start
    else
      match steps[|steps| - 1]
      case StartAc => true
      case KillAc => false
      case _ => GameAfter(start, steps[..|steps| - 1])
  }

  /** The watchdog's last reading of the process list, until it has acted on it. */
  function ReadingAfter(start: State, steps: seq<Step>): Option<bool> {
    if steps == [] then start.sample
    else
      var before := steps[..|steps| - 1];
      match steps[|steps| - 1]
      case Sample => Some(GameAfter(start.acRunning, before))
      case Act => None
      case _ => ReadingAfter(start, before)
  }

  /** The status last written, or given by the watchdog: "racing" for a game it has read as running,
      and "idle" in place of "racing" for one it has not. */
  function StatusAfter(start: State, steps: seq<Step>): string {
    if steps == [] then start.status
    else
      var before := steps[..|steps| - 1];
      match steps[|steps| - 1]
      case SetStatus(x) => x
      case Act =>
        var read, status := ReadingAfter(start, before), StatusAfter(start, before);
        if read == Some(true) then "racing" else if read == Some(false) && status == "racing" then "idle" else status
      case _ => StatusAfter(start, before)
  }

  /** The agent over every run. */
  lemma {:induction false} AgentIs(s: State, steps: seq<Step>)
    ensures Run(s, steps).acRunning == GameAfter(s.acRunning, steps)
    ensures Run(s, steps).sample == ReadingAfter(s, steps)
    ensures Run(s, steps).status == StatusAfter(s, steps)
  {
    if steps != [] {
      AgentIs(s, steps[..|steps| - 1]);
    }
  }

  lemma {:induction false} SampleKept(s: State, steps: seq<Step>)
    requires forall i | 0 <= i < |steps| :: !steps[i].Sample? && !steps[i].Act?
    ensures Run(s, steps).sample == s.sample
  {
    if steps != [] {
      SampleKept(s, steps[..|steps| - 1]);
    }
  }

  /** A round of the watchdog leaves the rig "racing" exactly if the game was running when the
      process list was read, whatever has been written and started or killed in between. */
  lemma WatchdogReports(s: State, between: seq<Step>)
    requires forall i | 0 <= i < |between| :: !between[i].Sample? && !between[i].Act?
    ensures var after := Next(Run(Next(s, Sample), between), Act);
            && (after.status == "racing" <==> s.acRunning)
            && (!s.acRunning && Run(Next(s, Sample), between).status == "racing" ==> after.status == "idle")
            && after.sample == None
  {
    SampleKept(Next(s, Sample), between);
    assert |"idle"| != |"racing"|;
  }

  // ------------------------------------------------------------------
  // Standalone mode
  // ------------------------------------------------------------------

  const STANDALONE_THRESHOLD := 3

  class HeartbeatService {
    var failCount: nat
    var standalone: bool

    constructor (standalone: bool)
      ensures failCount == 0 && this.standalone == standalone
    {
      failCount, this.standalone := 0, standalone;
    }

    /** One attempt to post: it went through, or it raised a request error. */
    method Attempt(ok: bool)
      modifies this
      ensures (failCount, standalone) == AfterAttempt(old(failCount), old(standalone), ok)
    {
      if ok {
        failCount := 0;
        standalone := false;
      } else {
        failCount := failCount + 1;
        if failCount >= STANDALONE_THRESHOLD && !standalone {
          standalone := true;
        }
      }
    }
  }

  function AfterAttempt(failCount: nat, standalone: bool, ok: bool): (nat, bool) {
    if ok then (0, false) else (failCount + 1, standalone || failCount + 1 >= STANDALONE_THRESHOLD)
  }

  function AfterAll(start: bool, attempts: seq<bool>): (nat, bool) {
    if attempts == [] then (0, start)
    else
      var n := |attempts| - 1;
      var before := AfterAll(start, attempts[..n]);
      AfterAttempt(before.0, before.1, attempts[n])
  }

  /** The number of failures at the end of `attempts`. */
  ghost predicate TrailingFailures(attempts: seq<bool>, n: nat) {
    && n <= |attempts|
    && (forall i | |attempts| - n <= i < |attempts| :: !attempts[i])
    && (n < |attempts| ==> attempts[|attempts| - n - 1])
  }

  /** Standalone means the last three attempts failed, or that the sled started so and no attempt
      has gone through yet. */
  lemma {:induction false} StandaloneIff(start: bool, attempts: seq<bool>)
    ensures TrailingFailures(attempts, AfterAll(start, attempts).0)
    ensures AfterAll(start, attempts).1 <==>
            || (|attempts| >= 3 && forall i | |attempts| - 3 <= i < |attempts| :: !attempts[i])
            || (start && forall i | 0 <= i < |attempts| :: !attempts[i])
  {
    if attempts != [] {
      StandaloneIff(start, attempts[..|attempts| - 1]);
    }
  }
}
