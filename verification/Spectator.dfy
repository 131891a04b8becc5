/** The spectator service's protocol around video.ini: back up once, patch on every launch,
    restore on kill. */
module Spectator {
  import opened PyText
  import opened IniPatch
  import opened IniFile
  import opened IniRewriters

  /** The service's handle on the game it has started. */
  datatype Handle = NoProcess | Alive | Exited

  /** How the rest of a launch goes once video.ini has been written. */
  datatype Outcome = IniFailed | ExeMissing | SpawnFailed | Launched

  /** The service's fields, and the two files it handles, if they exist. */
  datatype World = World(process: Handle, group: Option<string>, live: Option<string>, backup: Option<string>)

  datatype Event = Launch(group: string, outcome: Outcome) | Kill | SelfExit | ServiceRestart

  // ------------------------------------------------------------------
  // Steps
  // ------------------------------------------------------------------

  function WriteLowQuality(w: World): World {
    match w.live
    case None => w
    case Some(t) =>
      w.(live := Some(RewriteText(SPECTATOR, t)), backup := if w.backup.Some? then w.backup else Some(Text(Lines(t))))
  }

  function Restore(w: World): World {
    if w.backup.Some? then w.(live := w.backup, backup := None) else w
  }

  function KillProcess(w: World): World {
    w.(process := NoProcess, group := None)
  }

  function Launching(w: World, group: string, outcome: Outcome): World {
    var w1 := WriteLowQuality(if w.process == Alive then KillProcess(w) else w);
    match outcome
    case IniFailed => w1
    case ExeMissing => w1
    case SpawnFailed => Restore(w1)
    case Launched => w1.(process := Alive, group := Some(group))
  }

  function Killing(w: World): World {
    if w.process != Alive then w.(group := None) else Restore(KillProcess(w))
  }

  function Step(w: World, e: Event): World {
    match e
    case Launch(g, o) => Launching(w, g, o)
    case Kill => Killing(w)
    case SelfExit => if w.process == Alive then w.(process := Exited) else w
    case ServiceRestart => w.(process := NoProcess, group := None)
  }

  function Run(w: World, es: seq<Event>): World {
    if es == [] then w else Step(Run(w, es[..|es| - 1]), es[|es| - 1])
  }

  // ------------------------------------------------------------------
  // The service
  // ------------------------------------------------------------------

  class Disk {
    var videoIni: Option<string>
    var backup: Option<string>
  }

  class SpectatorService {
    var process: Handle
    var activeGroup: Option<string>
    const disk: Disk

    constructor (disk: Disk)
      ensures this.disk == disk && process == NoProcess && activeGroup == None
    {
      process, activeGroup := NoProcess, None;
      this.disk := disk;
    }

    function View(): World
      reads this, disk
    {
      World(process, activeGroup, disk.videoIni, disk.backup)
    }

    method WriteLowQualityVideoIni()
      modifies disk
      ensures View() == WriteLowQuality(old(View()))
    {
      match disk.videoIni
      case None =>
      case Some(text) =>
        var lines := Lines(text);
        if disk.backup == None {
          disk.backup := Some(Text(lines));
        }
        var newLines := RewriteForSpectator(lines);
        disk.videoIni := Some(Text(newLines));
    }

    method RestoreVideoIni()
      modifies disk
      ensures View() == Restore(old(View()))
    {
      if disk.backup.Some? {
        disk.videoIni := disk.backup;
        disk.backup := None;
      }
    }

    method KillTheProcess()
      modifies this
      ensures View() == KillProcess(old(View()))
    {
      process := NoProcess;
      activeGroup := None;
    }

    /** `launch`: `outcome` is what the rest of the launch meets. */
    method LaunchSpectator(group: string, outcome: Outcome) returns (ok: bool)
      modifies this, disk
      ensures View() == Launching(old(View()), group, outcome)
      ensures ok <==> outcome == Launched
    {
      if process == Alive {
        KillTheProcess();
      }
      WriteLowQualityVideoIni();
      match outcome
      case IniFailed =>
        ok := false;
      case ExeMissing =>
        ok := false;
      case SpawnFailed =>
        RestoreVideoIni();
        ok := false;
      case Launched =>
        process := Alive;
        activeGroup := Some(group);
        ok := true;
    }

    method KillSpectator()
      modifies this, disk
      ensures View() == Killing(old(View()))
    {
      if process != Alive {
        activeGroup := None;
        return;
      }
      KillTheProcess();
      RestoreVideoIni();
    }
  }

  // ------------------------------------------------------------------
  // Every run
  // ------------------------------------------------------------------

  /** `t` after `n` passes of the spectator's rewriter. */
  function Patched(t: string, n: nat): string {
    if n == 0 then t else RewriteText(SPECTATOR, Patched(t, n - 1))
  }

  /** The passes over video.ini since it was last the original, if there were `k` before the run. */
  function Passes(w: World, es: seq<Event>, k: nat): nat {
    if es == [] then k
    else
      var n := |es| - 1;
      match es[n]
      case Launch(_, SpawnFailed) => 0
      case Launch(_, _) => Passes(w, es[..n], k) + 1
      case Kill => if Run(w, es[..n]).process == Alive then 0 else Passes(w, es[..n], k)
      case _ => Passes(w, es[..n], k)
  }

  /** After `k` passes over the original the backup, if there is one, is the original, and the live
      file is the original patched `k` times. */
  predicate Consistent(w: World, original: Option<string>, k: nat) {
    match original
    case None => w.live == None && w.backup == None
    case Some(t) => w.live == Some(Patched(t, k)) && w.backup == if k == 0 then None else Some(t)
  }

  lemma LaunchKeeps(w: World, original: Option<string>, k: nat)
    requires Consistent(w, original, k)
    ensures Consistent(WriteLowQuality(w), original, k + 1)
    ensures Consistent(Restore(w), original, 0) && Restore(w).live == original && Restore(w).backup == None
  {
    hide RewriteText;
    match w.live
    case None =>
    case Some(t) =>
      TextOfLines(t);
      assert Patched(original.value, k + 1) == RewriteText(SPECTATOR, Patched(original.value, k));
  }

  lemma StepKeeps(w: World, e: Event, original: Option<string>, k: nat)
    requires Consistent(w, original, k)
    ensures Consistent(Step(w, e), original,
              match e
              case Launch(_, SpawnFailed) => 0
              case Launch(_, _) => k + 1
              case Kill => if w.process == Alive then 0 else k
              case _ => k)
  {
    hide Patched, WriteLowQuality, Restore, RewriteText;
    var w0 := if w.process == Alive then KillProcess(w) else w;
    LaunchKeeps(w0, original, k);
    LaunchKeeps(WriteLowQuality(w0), original, k + 1);
  }

  /** Over every run of launches that succeed or fail, relaunches, self-exits, kills and restarts
      of the service, the files are the original and so many passes over it. */
  lemma {:induction false} RunKeeps(w: World, es: seq<Event>, original: Option<string>, k: nat)
    requires Consistent(w, original, k)
    ensures Consistent(Run(w, es), original, Passes(w, es, k))
  {
    hide Consistent, Step;
    if es != [] {
      var n := |es| - 1;
      RunKeeps(w, es[..n], original, k);
      StepKeeps(Run(w, es[..n]), es[n], original, Passes(w, es[..n], k));
    }
  }

  /** Killing a live spectator restores the original file, whatever came before and whatever the
      file looks like. */
  lemma KillRestores(w: World, es: seq<Event>, original: Option<string>)
    requires w.backup == None && w.live == original
    requires Run(w, es).process == Alive
    ensures Step(Run(w, es), Kill).live == original && Step(Run(w, es), Kill).backup == None
  {
    RunKeeps(w, es, original, 0);
    LaunchKeeps(KillProcess(Run(w, es)), original, Passes(w, es, 0));
  }

  // ------------------------------------------------------------------
  // How many passes matter
  // ------------------------------------------------------------------

  lemma PatchedOnce(t: string)
    ensures Patched(t, 1) == RewriteText(SPECTATOR, t)
    ensures Patched(t, 2) == RewriteText(SPECTATOR, RewriteText(SPECTATOR, t))
  {
    hide RewriteText;
    assert Patched(t, 0) == t;
    assert Patched(t, 2) == RewriteText(SPECTATOR, Patched(t, 1));
  }

  /** A pass after the second changes nothing: the first leaves a file that ends in a newline, or
      one that is stable already. */
  lemma ThirdPassCopies(t: string)
    ensures RewriteText(SPECTATOR, Patched(t, 2)) == Patched(t, 2)
  {
    PatchedOnce(t);
    IdempotentIffNotGlued(t);
    if Glues(SPECTATOR, t) {
      GluedIsTerminated(SPECTATOR, t);
      CoversItself(SPECTATOR);
      CoveredPassCopies(SPECTATOR, SPECTATOR, RewriteText(SPECTATOR, t));
    }
    hide *;
  }

  lemma {:induction false} TwoPassesSuffice(t: string, n: nat)
    requires n > 0
    ensures Patched(t, n) == Patched(t, if n == 1 then 1 else 2)
  {
    hide RewriteText;
    if n > 2 {
      TwoPassesSuffice(t, n - 1);
      ThirdPassCopies(t);
    }
  }

  lemma {:induction false} GluedStaysTerminated(t: string, n: nat)
    requires n > 0 && Glues(SPECTATOR, t)
    ensures Terminated(Patched(t, n))
  {
    hide RewriteText, Glues, Terminated;
    if n == 1 {
      PatchedOnce(t);
      GluedIsTerminated(SPECTATOR, t);
    } else {
      GluedStaysTerminated(t, n - 1);
      CoversItself(SPECTATOR);
      CoveredPassCopies(SPECTATOR, SPECTATOR, Patched(t, n - 1));
    }
  }

  lemma {:induction false} PatchedIsSame(t: string, n: nat)
    requires RewriteText(SPECTATOR, t) == t
    ensures Patched(t, n) == t
  {
    hide RewriteText;
    if n > 0 {
      PatchedIsSame(t, n - 1);
    }
  }

  /** However often a file has been patched, it is what it was only if a single pass leaves it so. */
  lemma PatchedIsOriginalIff(t: string, n: nat)
    requires n > 0
    ensures Patched(t, n) == t <==> RewriteText(SPECTATOR, t) == t
  {
    if RewriteText(SPECTATOR, t) == t {
      PatchedIsSame(t, n);
    } else if Glues(SPECTATOR, t) {
      GluedStaysTerminated(t, n);
    } else {
      IdempotentIffNotGlued(t);
      TwoPassesSuffice(t, n);
      PatchedOnce(t);
    }
    hide RewriteText, Patched;
  }

  /** The live file is the original, one pass over it, or two. Two differ from one exactly when the
      first pass glued an override to the original's last line, and a third changes nothing. */
  lemma LiveIsOnePass(w: World, es: seq<Event>, original: string)
    requires w.backup == None && w.live == Some(original)
    ensures var r, k := Run(w, es), Passes(w, es, 0);
            var once := RewriteText(SPECTATOR, original);
            var twice := RewriteText(SPECTATOR, once);
            && r.live == Some(if k == 0 then original else if k == 1 then once else twice)
            && r.backup == (if k == 0 then None else Some(original))
            && (once == twice <==> !Glues(SPECTATOR, original))
  {
    hide RewriteText, Glues;
    assert Patched(original, 0) == original;
    RunKeeps(w, es, Some(original), 0);
    var k := Passes(w, es, 0);
    TwoPassesSuffice(original, if k == 0 then 1 else k);
    PatchedOnce(original);
    IdempotentIffNotGlued(original);
  }

  /** Exactly when a kill request leaves the original file: the game is still alive, or nothing
      has been backed up, or a pass would not have changed the original. After a self-exit the
      request returns early and the patched file stays. */
  lemma KillLeavesOriginalIff(w: World, es: seq<Event>, original: Option<string>)
    requires w.backup == None && w.live == original
    ensures var r := Run(w, es);
            Step(r, Kill).live == original <==>
            || r.process == Alive
            || r.backup == None
            || (original.Some? && RewriteText(SPECTATOR, original.value) == original.value)
  {
    hide RewriteText;
    RunKeeps(w, es, original, 0);
    if Run(w, es).process == Alive {
      KillRestores(w, es, original);
    } else if Run(w, es).backup.Some? {
      PatchedIsOriginalIff(original.value, Passes(w, es, 0));
    }
  }

  /** A kill after a self-exit leaves a rig with a bare [VIDEO] section patched. */
  lemma KillAfterExitKeepsPatch(group: string)
    ensures var w := World(NoProcess, None, Some("[VIDEO]\n"), None);
            Step(Run(w, [Launch(group, Launched), SelfExit]), Kill).live != w.live
  {
    hide Run, WriteLowQuality, Restore;
    var w := World(NoProcess, None, Some("[VIDEO]\n"), None);
    var es := [Launch(group, Launched), SelfExit];
    RunTwo(w, es[0], es[1]);
    KillLeavesOriginalIff(w, es, w.live);
    BareVideoChanges();
    Backs(w);
  }

  lemma Backs(w: World)
    requires w.live.Some? && w.backup == None
    ensures WriteLowQuality(w).backup.Some? && WriteLowQuality(w).process == w.process
  {
    hide RewriteText;
  }

  lemma RunTwo(w: World, a: Event, b: Event)
    ensures Run(w, [a, b]) == Step(Step(w, a), b)
  {
    hide Step;
    assert [a, b][..1] == [a] && [a][..0] == [];
    assert Run(w, [a][..0]) == w;
    assert Run(w, [a]) == Step(w, a);
  }

  /** Relaunching a live spectator leaves video.ini as the first launch wrote it exactly when that
      launch glued no override to the file's last line. */
  lemma RelaunchIsHarmlessIff(w: World, first: string, second: string)
    requires w.backup == None && w.live.Some?
    ensures var once := Step(w, Launch(first, Launched));
            Step(once, Launch(second, Launched)).live == once.live <==> !Glues(SPECTATOR, w.live.value)
  {
    hide RewriteText, Glues;
    IdempotentIffNotGlued(w.live.value);
  }

  /** The group of the last launch that succeeded. */
  function LastLaunched(es: seq<Event>): Option<string> {
    if es == [] then None
    else match es[|es| - 1]
      case Launch(g, Launched) => Some(g)
      case _ => LastLaunched(es[..|es| - 1])
  }

  lemma GroupStep(w: World, e: Event)
    ensures Step(w, e).process == Alive ==>
              match e
              case Launch(g, Launched) => Step(w, e).group == Some(g)
              case _ => w.process == Alive && Step(w, e).group == w.group
  {
    hide RewriteText;
  }

  /** While a spectator is alive the active group is the one it was last launched for, whatever
      launches have failed since. */
  lemma {:induction false} LiveGroupIsLastLaunched(w: World, es: seq<Event>)
    requires w.process == NoProcess
    ensures Run(w, es).process == Alive ==> Run(w, es).group == LastLaunched(es)
  {
    hide Step;
    if es != [] {
      LiveGroupIsLastLaunched(w, es[..|es| - 1]);
      GroupStep(Run(w, es[..|es| - 1]), es[|es| - 1]);
    }
  }

  predicate Succeeds(e: Event) {
    e.Launch? && e.outcome == Launched
  }

  /** The service takes a spectator for alive exactly when nothing but its launch came last. */
  lemma AliveIff(w: World, es: seq<Event>)
    requires w.process == NoProcess
    ensures Run(w, es).process == Alive <==> es != [] && Succeeds(es[|es| - 1])
  {
    hide Step;
    if es != [] {
      ProcessStep(Run(w, es[..|es| - 1]), es[|es| - 1]);
    }
  }

  lemma RestoreKeeps(w: World)
    ensures Restore(w).process == w.process && Restore(w).group == w.group
    ensures WriteLowQuality(w).process == w.process && WriteLowQuality(w).group == w.group
  {
    hide RewriteText;
  }

  lemma ProcessStep(w: World, e: Event)
    ensures Step(w, e).process == Alive <==> Succeeds(e)
    ensures Step(w, e).group ==
            match e
            case Launch(g, o) => if o == Launched then Some(g) else if w.process == Alive then None else w.group
            case SelfExit => w.group
            case _ => None
  {
    hide WriteLowQuality, Restore;
    var w0 := if w.process == Alive then KillProcess(w) else w;
    RestoreKeeps(w0);
    RestoreKeeps(WriteLowQuality(w0));
  }

  /** The group of the last launch that succeeded, unless a kill, a restart of the service, or a
      failed launch that stopped a live game has come since. */
  function GroupInForce(group: Option<string>, es: seq<Event>): Option<string> {
    if es == [] then group
    else
      var n := |es| - 1;
      match es[n]
      case Launch(g, Launched) => Some(g)
      case Launch(_, _) => if n > 0 && Succeeds(es[n - 1]) then None else GroupInForce(group, es[..n])
      case SelfExit => GroupInForce(group, es[..n])
      case _ => None
  }

  lemma {:induction false} GroupIsInForce(w: World, es: seq<Event>)
    requires w.process == NoProcess
    ensures Run(w, es).group == GroupInForce(w.group, es)
  {
    hide Step;
    if es != [] {
      var n := |es| - 1;
      GroupIsInForce(w, es[..n]);
      AliveIff(w, es[..n]);
      ProcessStep(Run(w, es[..n]), es[n]);
    }
  }
}
