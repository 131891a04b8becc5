/** The laps the orchestrator records out of the stream of heartbeats, and what they make of the
    leaderboard. */
module LapCapture {
  import opened PyText
  import opened Orchestrator
  import opened GroupPartition
  import Leaderboard

  // ------------------------------------------------------------------
  // What a run records
  // ------------------------------------------------------------------

  /** The lap an event records, if any. */
  function CapturedBy(h: Hub, e: Event, now: real): seq<Leaderboard.Entry> {
    if e.Post? && CompletesLap(PostedRig(h.rigs, e.rid, e.update, now), e.update)
    then [LapEntry(h.groups, e.rid, PostedRig(h.rigs, e.rid, e.update, now), e.update, now)]
    else []
  }

  function Captured(h: Hub, es: seq<Stamped>): seq<Leaderboard.Entry> {
    if es == [] then []
    else
      var n := |es| - 1;
      Captured(h, es[..n]) + CapturedBy(Run(h, es[..n]), es[n].0, es[n].1)
  }

  function ReportedBy(e: Event, rid: string): seq<int> {
    if e.Post? && e.rid == rid && LapCount(e.update).Some? then [LapCount(e.update).value] else []
  }

  /** The lap counts `rid` has reported. */
  function Reported(es: seq<Stamped>, rid: string): seq<int> {
    if es == [] then [] else Reported(es[..|es| - 1], rid) + ReportedBy(es[|es| - 1].0, rid)
  }

  /** The lap counts `rid` has reported, one sequence for each life of its record: a reap ends a
      life. */
  function Lives(h: Hub, es: seq<Stamped>, rid: string): (lives: seq<seq<int>>)
    ensures lives != []
  {
    if es == [] then [[]]
    else
      var n := |es| - 1;
      var lives := Lives(h, es[..n], rid);
      if Reaped(Run(h, es[..n]), es[n].0, es[n].1, rid) then lives + [[]]
      else lives[|lives| - 1 := lives[|lives| - 1] + ReportedBy(es[n].0, rid)]
  }

  /** The lap numbers recorded for `rid`. */
  function LapsOf(entries: seq<Leaderboard.Entry>, rid: string): seq<int> {
    if entries == [] then []
    else
      var n := |entries| - 1;
      LapsOf(entries[..n], rid) + if entries[n].rigId == rid then [entries[n].lap] else []
  }

  /** The record of `rid` is not reaped during the run. */
  predicate NeverReaped(h: Hub, es: seq<Stamped>, rid: string) {
    es == [] ||
    var n := |es| - 1;
    NeverReaped(h, es[..n], rid) && !Reaped(Run(h, es[..n]), es[n].0, es[n].1, rid)
  }

  // ------------------------------------------------------------------
  // Running-maximum records
  // ------------------------------------------------------------------

  /** The members of `xs` that are positive and greater than every one before them. */
  function Records(xs: seq<int>): seq<int> {
    if xs == [] then []
    else
      var n := |xs| - 1;
      Records(xs[..n]) + if xs[n] > 0 && (forall j | 0 <= j < n :: xs[j] < xs[n]) then [xs[n]] else []
  }

  lemma {:induction false} RecordsAreMembers(xs: seq<int>)
    ensures forall r :: r in Records(xs) ==> r in xs && r > 0
  {
    if xs != [] {
      RecordsAreMembers(xs[..|xs| - 1]);
    }
  }

  /** Records strictly increase. */
  lemma {:induction false} RecordsIncrease(xs: seq<int>)
    ensures forall i, j | 0 <= i < j < |Records(xs)| :: Records(xs)[i] < Records(xs)[j]
  {
    if xs != [] {
      var n := |xs| - 1;
      RecordsIncrease(xs[..n]);
      RecordsAreMembers(xs[..n]);
      forall i | 0 <= i < |Records(xs[..n])| && Records(xs) != Records(xs[..n])
        ensures Records(xs[..n])[i] < xs[n]
      {
        assert Records(xs[..n])[i] in Records(xs[..n]);
      }
    }
  }

  function Peak(xs: seq<int>): int {
    if xs == [] then 0 else if xs[|xs| - 1] > Peak(xs[..|xs| - 1]) then xs[|xs| - 1] else Peak(xs[..|xs| - 1])
  }

  lemma {:induction false} PeakBounds(xs: seq<int>, x: int)
    ensures x > Peak(xs) <==> x > 0 && forall j | 0 <= j < |xs| :: xs[j] < x
  {
    if xs != [] {
      var n := |xs| - 1;
      PeakBounds(xs[..n], x);
      assert forall j | 0 <= j < n :: xs[..n][j] == xs[j];
    }
  }

  lemma RecordsStep(xs: seq<int>, x: int)
    ensures Records(xs + [x]) == Records(xs) + if x > Peak(xs) then [x] else []
    ensures Peak(xs + [x]) == if x > Peak(xs) then x else Peak(xs)
  {
    PeakBounds(xs, x);
    var ys := xs + [x];
    assert ys[..|xs|] == xs;
    assert (forall j | 0 <= j < |xs| :: ys[j] < x) <==> (forall j | 0 <= j < |xs| :: xs[j] < x);
  }

  // ------------------------------------------------------------------
  // Capture
  // ------------------------------------------------------------------

  /** The lap count the orchestrator compares with. */
  function LastLap(h: Hub, rid: string): int {
    if rid in h.rigs then h.rigs[rid].lastLapCount else 0
  }

  lemma CaptureStep(h: Hub, e: Event, now: real, rid: string)
    requires !Reaped(h, e, now, rid)
    ensures var n := Next(h, e, now);
            if e.Post? && e.rid == rid && LapCount(e.update).Some? && LapCount(e.update).value > LastLap(h, rid)
            then
              && |CapturedBy(h, e, now)| == 1 && CapturedBy(h, e, now)[0].rigId == rid
              && CapturedBy(h, e, now)[0].lap == LapCount(e.update).value == LastLap(n, rid)
            else
              && (forall c <- CapturedBy(h, e, now) :: c.rigId != rid) && |CapturedBy(h, e, now)| <= 1
              && LastLap(n, rid) == LastLap(h, rid)
  {
    hide Next, Find, GroupOf, Served;
    RecordStep(h, e, now, rid);
  }

  lemma LapsOfStep(entries: seq<Leaderboard.Entry>, more: seq<Leaderboard.Entry>, rid: string)
    requires |more| <= 1
    ensures LapsOf(entries + more, rid) ==
            LapsOf(entries, rid) + if |more| == 1 && more[0].rigId == rid then [more[0].lap] else []
  {
    if more == [] {
      assert entries + more == entries;
    } else {
      assert (entries + more)[..|entries|] == entries;
    }
  }

  /** The records of every life, one life after the other. */
  function RecordsOfAll(lives: seq<seq<int>>): seq<int> {
    if lives == [] then [] else RecordsOfAll(lives[..|lives| - 1]) + Records(lives[|lives| - 1])
  }

  lemma LivesStep(lives: seq<seq<int>>, more: seq<int>)
    requires lives != [] && |more| <= 1
    ensures var last := |lives| - 1;
            var lives' := lives[last := lives[last] + more];
            && RecordsOfAll(lives') ==
               RecordsOfAll(lives) + (if |more| == 1 && more[0] > Peak(lives[last]) then more else [])
            && Peak(lives'[last]) ==
               if |more| == 1 && more[0] > Peak(lives[last]) then more[0] else Peak(lives[last])
  {
    var last := |lives| - 1;
    assert lives[last := lives[last] + more][..last] == lives[..last];
    if more == [] {
      assert lives[last] + more == lives[last];
    } else {
      assert more == [more[0]];
      RecordsStep(lives[last], more[0]);
    }
    hide Records, Peak;
  }

  lemma NewLife(lives: seq<seq<int>>)
    ensures RecordsOfAll(lives + [[]]) == RecordsOfAll(lives) && Peak([]) == 0
  {
    assert (lives + [[]])[..|lives|] == lives;
  }

  /** Over every run the laps recorded for a rig are exactly the positive running-maximum records
      of the counts it has reported, life by life of its record. */
  lemma {:induction false} LapsAreRecords(h: Hub, es: seq<Stamped>, rid: string)
    requires LastLap(h, rid) == 0
    ensures var lives := Lives(h, es, rid);
            && LapsOf(Captured(h, es), rid) == RecordsOfAll(lives)
            && LastLap(Run(h, es), rid) == Peak(lives[|lives| - 1])
  {
    if es != [] {
      var n := |es| - 1;
      LapsAreRecords(h, es[..n], rid);
      var s, e, now := Run(h, es[..n]), es[n].0, es[n].1;
      var lives := Lives(h, es[..n], rid);
      RunStep(h, es);
      LapsOfStep(Captured(h, es[..n]), CapturedBy(s, e, now), rid);
      hide Next, CapturedBy, Run, LapsOf, RecordsOfAll, Peak, LastLap;
      if Reaped(s, e, now, rid) {
        ReapForgets(s, e, now, rid);
        NewLife(lives);
      } else {
        CaptureStep(s, e, now, rid);
        LivesStep(lives, ReportedBy(e, rid));
      }
    } else {
      NewLife([]);
    }
  }

  lemma ReapForgets(h: Hub, e: Event, now: real, rid: string)
    requires Reaped(h, e, now, rid)
    ensures LastLap(Next(h, e, now), rid) == 0 && CapturedBy(h, e, now) == []
  {}

  lemma {:induction false} OneLife(h: Hub, es: seq<Stamped>, rid: string)
    requires NeverReaped(h, es, rid)
    ensures Lives(h, es, rid) == [Reported(es, rid)]
  {
    if es != [] {
      OneLife(h, es[..|es| - 1], rid);
    }
    hide Run;
  }

  /** So during one life lap numbers strictly increase, however often a heartbeat is repeated or
      comes late. */
  lemma LapNumbersIncrease(h: Hub, es: seq<Stamped>, rid: string)
    requires LastLap(h, rid) == 0 && NeverReaped(h, es, rid)
    ensures var laps := LapsOf(Captured(h, es), rid);
            forall i, j | 0 <= i < j < |laps| :: 0 < laps[i] < laps[j]
  {
    LapsAreRecords(h, es, rid);
    OneLife(h, es, rid);
    var none: seq<seq<int>> := [];
    assert [Reported(es, rid)][..0] == none;
    assert RecordsOfAll([Reported(es, rid)]) == RecordsOfAll(none) + Records(Reported(es, rid));
    RecordsIncrease(Reported(es, rid));
    RecordsAreMembers(Reported(es, rid));
    var laps := LapsOf(Captured(h, es), rid);
    assert forall i | 0 <= i < |laps| :: laps[i] in Records(Reported(es, rid));
  }

  /** A post records a lap exactly if it reports a lap count above the stored one, and the lap has
      the count and time reported, the driver and car the record has after the post, and the time
      of the post. */
  lemma CapturedLapIs(h: Hub, rid: string, u: StatusUpdate, now: real)
    ensures var c := CapturedBy(h, Post(rid, u), now);
            var rig := RigPosted(h, rid, u, now);
            match u.telemetry
            case Some(Frame(count, time)) =>
              if count > LastLap(h, rid)
              then
                && |c| == 1 && c[0].rigId == rid && c[0].lap == count && c[0].timeMs == time
                && c[0].driver == (if rig.driverName == "" then None else Some(rig.driverName))
                && c[0].car == Some(rig.selectedCar) && c[0].timestamp == now
              else c == []
            case _ => c == []
  {
    hide GroupOf;
  }

  /** A lap is recorded under the one group that lists the rig, with that group's track and name,
      or under none if no group does. */
  lemma CapturedUnderOwnGroup(h: Hub, e: Event, now: real, g: Group)
    requires Sound(h) && |CapturedBy(h, e, now)| == 1
    ensures var c := CapturedBy(h, e, now)[0];
            && (g in h.groups && c.rigId in g.rigIds ==>
                  c.sessionId == Some(g.id) && c.track == Some(g.track) && c.groupName == Some(g.name))
            && ((forall x <- h.groups :: c.rigId !in x.rigIds) ==>
                  c.sessionId == None && c.track == None && c.groupName == None)
  {
    var rid := e.rid;
    GroupOfAt(h.groups, rid);
    if g in h.groups && rid in g.rigIds {
      OnlyGroup(h.groups, rid, g);
    }
    hide PostedRig, Sound;
  }

  // ------------------------------------------------------------------
  // The leaderboard
  // ------------------------------------------------------------------

  /** What an event does to the leaderboard. */
  function OpsBy(h: Hub, e: Event, now: real): seq<Leaderboard.Op> {
    if e.BoardRequest? then [e.op]
    else if CapturedBy(h, e, now) != [] then [Leaderboard.Record(CapturedBy(h, e, now)[0])]
    else []
  }

  function Ops(h: Hub, es: seq<Stamped>): seq<Leaderboard.Op> {
    if es == [] then []
    else
      var n := |es| - 1;
      Ops(h, es[..n]) + OpsBy(Run(h, es[..n]), es[n].0, es[n].1)
  }

  lemma BoardStep(h: Hub, e: Event, now: real)
    ensures var ops := OpsBy(h, e, now);
            && |ops| <= 1
            && Next(h, e, now).board == if ops == [] then h.board else Leaderboard.Apply(h.board, ops[0])
  {}

  /** The leaderboard is the captured laps and the test laps, each inserted and upserted in turn,
      with the deletions and clears that came between them. */
  lemma {:induction false} BoardIsCaptured(h: Hub, es: seq<Stamped>)
    ensures Run(h, es).board == Leaderboard.Run(h.board, Ops(h, es))
  {
    if es != [] {
      var n := |es| - 1;
      BoardIsCaptured(h, es[..n]);
      var s, e, now := Run(h, es[..n]), es[n].0, es[n].1;
      RunStep(h, es);
      BoardStep(s, e, now);
      var before, ops := Ops(h, es[..n]), OpsBy(s, e, now);
      if ops == [] {
        assert before + ops == before;
      } else {
        assert ops == [ops[0]];
        Leaderboard.RunStep(h.board, before, ops[0]);
      }
    }
    hide Next, OpsBy, Leaderboard.Apply;
  }

  /** From heartbeats to the table: after any run, with laps deleted, test laps and clears on the
      way, the session-best row of a rig and session holds the least positive time recorded for
      them since the last clear. */
  lemma SessionBestIsBestCaptured(h: Hub, es: seq<Stamped>, k: Leaderboard.Key)
    requires h.board.laps == [] && h.board.best == map[]
    requires Leaderboard.HasPositive(Leaderboard.Of(Leaderboard.History(Ops(h, es)), k))
    ensures k in Run(h, es).board.best
    ensures Leaderboard.IsBestTime(
              Leaderboard.Of(Leaderboard.History(Ops(h, es)), k), Run(h, es).board.best[k].timeMs)
  {
    BoardIsCaptured(h, es);
    Leaderboard.TableIsView(h.board, Ops(h, es));
    Leaderboard.FoldTime(Leaderboard.Of(Leaderboard.History(Ops(h, es)), k));
  }

  /** The lap count and lap time of a post, if it has them. */
  function LapReport(u: StatusUpdate): Option<(int, Option<int>)> {
    match u.telemetry
    case Some(Frame(count, time)) => Some((count, time))
    case _ => None
  }

  /** The lap time an event reports for a rig and session, if any: that of a post that completes a
      lap while the session's group is the first to list the rig, or of a test lap. */
  function TimeReported(h: Hub, e: Event, k: Leaderboard.Key): seq<Option<int>> {
    match e
    case Post(rid, u) =>
      var r, g := LapReport(u), GroupOf(h.groups, rid);
      if rid == k.0 && r.Some? && r.value.0 > LastLap(h, rid) && g.Some? && g.value.id == k.1 != ""
      then [r.value.1] else []
    case BoardRequest(op) =>
      if op.Record? && op.entry.rigId == k.0 && op.entry.sessionId == Some(k.1) && k.1 != ""
      then [op.entry.timeMs] else []
    case _ => []
  }

  /** The lap times reported since the last clear. */
  function TimesReported(h: Hub, es: seq<Stamped>, k: Leaderboard.Key): seq<Option<int>> {
    if es == [] || es[|es| - 1].0 == BoardRequest(Leaderboard.Clear) then []
    else TimesReported(h, es[..|es| - 1], k) + TimeReported(Run(h, es[..|es| - 1]), es[|es| - 1].0, k)
  }

  function Times(es: seq<Leaderboard.Entry>): seq<Option<int>> {
    seq(|es|, i requires 0 <= i < |es| => es[i].timeMs)
  }

  lemma TimesAppend(history: seq<Leaderboard.Entry>, e: Leaderboard.Entry, k: Leaderboard.Key)
    ensures Times(Leaderboard.Of(history + [e], k)) ==
            Times(Leaderboard.Of(history, k)) +
            if e.rigId == k.0 && e.sessionId == Some(k.1) && k.1 != "" then [e.timeMs] else []
  {
    hide Leaderboard.Of;
    Leaderboard.OfStep(history, e, k);
  }

  lemma NoTimes(none: seq<Leaderboard.Entry>, k: Leaderboard.Key)
    requires none == []
    ensures Times(Leaderboard.Of(none, k)) == []
  {}

  lemma HistoryStep(before: seq<Leaderboard.Op>, ops: seq<Leaderboard.Op>)
    requires |ops| <= 1
    ensures var past, now := Leaderboard.History(before), Leaderboard.History(before + ops);
            if ops == [] || ops[0].Delete? then now == past
            else if ops[0].Clear? then now == []
            else now == past + [ops[0].entry]
  {
    if ops == [] {
      assert before + ops == before;
    } else {
      assert ops == [ops[0]] && (before + ops)[..|before|] == before;
    }
  }

  /** The operation of an event adds the time it reports. */
  lemma OpReports(h: Hub, e: Event, now: real, history: seq<Leaderboard.Entry>, k: Leaderboard.Key)
    requires e != BoardRequest(Leaderboard.Clear)
    ensures var ops := OpsBy(h, e, now);
            Times(Leaderboard.Of(history, k)) + TimeReported(h, e, k) ==
            if ops != [] && ops[0].Record? then Times(Leaderboard.Of(history + [ops[0].entry], k))
            else Times(Leaderboard.Of(history, k))
  {
    hide Leaderboard.Of, GroupOf;
    var ops := OpsBy(h, e, now);
    if ops != [] && ops[0].Record? {
      TimesAppend(history, ops[0].entry, k);
    }
  }

  lemma {:induction false} TimesAreReported(h: Hub, es: seq<Stamped>, k: Leaderboard.Key)
    ensures Times(Leaderboard.Of(Leaderboard.History(Ops(h, es)), k)) == TimesReported(h, es, k)
  {
    hide Run, Leaderboard.Of, TimeReported, Times, CapturedBy;
    NoTimes([], k);
    if es != [] {
      var n := |es| - 1;
      TimesAreReported(h, es[..n], k);
      var s, e, now := Run(h, es[..n]), es[n].0, es[n].1;
      HistoryStep(Ops(h, es[..n]), OpsBy(s, e, now));
      if e != BoardRequest(Leaderboard.Clear) {
        OpReports(s, e, now, Leaderboard.History(Ops(h, es[..n])), k);
      }
    }
  }

  ghost predicate LeastPositive(times: seq<Option<int>>, t: Option<int>) {
    && t in times && t.Some? && t.value > 0
    && forall x <- times | x.Some? && x.value > 0 :: t.value <= x.value
  }

  /** From heartbeats to the table: after any run the row of a rig and session has the least positive
      lap time reported for them since the last clear, if one has been reported. */
  lemma SessionBestIsBestReported(h: Hub, es: seq<Stamped>, k: Leaderboard.Key)
    requires h.board.laps == [] && h.board.best == map[]
    requires exists t <- TimesReported(h, es, k) :: t.Some? && t.value > 0
    ensures k in Run(h, es).board.best
    ensures LeastPositive(TimesReported(h, es, k), Run(h, es).board.best[k].timeMs)
  {
    hide Ops, Run, TimesReported, Leaderboard.History;
    TimesAreReported(h, es, k);
    var laps := Leaderboard.Of(Leaderboard.History(Ops(h, es)), k);
    var t :| t in TimesReported(h, es, k) && t.Some? && t.value > 0;
    var i :| 0 <= i < |Times(laps)| && Times(laps)[i] == t;
    assert laps[i] in laps && laps[i].timeMs == t;
    SessionBestIsBestCaptured(h, es, k);
    var best := Run(h, es).board.best[k].timeMs;
    var e :| e in laps && e.timeMs == best;
    var j :| 0 <= j < |laps| && laps[j] == e;
    assert Times(laps)[j] == best;
    forall x | x in Times(laps) && x.Some? && x.value > 0 ensures best.value <= x.value {
      var m :| 0 <= m < |laps| && Times(laps)[m] == x;
      assert laps[m] in laps;
    }
  }

  lemma CapturedIsOp(h: Hub, e: Event, now: real)
    requires !e.BoardRequest?
    ensures var c, ops := CapturedBy(h, e, now), OpsBy(h, e, now);
            if c == [] then ops == [] else c == [c[0]] && ops == [Leaderboard.Record(c[0])]
  {}

  lemma HistoryOfMore(ops: seq<Leaderboard.Op>, e: Leaderboard.Entry)
    ensures Leaderboard.History(ops + [Leaderboard.Record(e)]) == Leaderboard.History(ops) + [e]
  {
    assert (ops + [Leaderboard.Record(e)])[..|ops|] == ops;
  }

  /** Without board requests what is recorded is what is captured. */
  lemma {:induction false} HistoryIsCaptured(h: Hub, es: seq<Stamped>)
    requires forall i | 0 <= i < |es| :: !es[i].0.BoardRequest?
    ensures Leaderboard.History(Ops(h, es)) == Captured(h, es)
  {
    hide CapturedBy, OpsBy, Run;
    if es != [] {
      var n := |es| - 1;
      HistoryIsCaptured(h, es[..n]);
      var s, e, now := Run(h, es[..n]), es[n].0, es[n].1;
      CapturedIsOp(s, e, now);
      var before, c := Ops(h, es[..n]), CapturedBy(s, e, now);
      if c == [] {
        assert before + [] == before && Captured(h, es[..n]) + [] == Captured(h, es[..n]);
      } else {
        HistoryOfMore(before, c[0]);
      }
      hide Leaderboard.History;
    }
  }
}
