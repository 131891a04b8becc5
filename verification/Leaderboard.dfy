/** The leaderboard database: the log of laps, and the session-best table kept beside it by a
    conditional upsert. The table is shown to be a function of the history of laps. */
module Leaderboard {
  import opened PyText

  datatype Entry = Entry(
    rigId: string, driver: Option<string>, car: Option<string>, track: Option<string>, groupName: Option<string>,
    lap: int, timeMs: Option<int>, sessionId: Option<string>, timestamp: real)

  /** A row of the laps table. */
  datatype Lap = Lap(id: nat, entry: Entry)

  /** The primary key of the session-best table. */
  type Key = (string, string)

  datatype Board = Board(laps: seq<Lap>, best: map<Key, Entry>, nextId: nat)

  // ------------------------------------------------------------------
  // The merge rule of the upsert
  // ------------------------------------------------------------------

  function Coalesce<T>(a: Option<T>, b: Option<T>): Option<T> {
    if a.Some? then a else b
  }

  predicate Positive(t: Option<int>) {
    t.Some? && t.value > 0
  }

  function MergeTime(stored: Option<int>, excluded: Option<int>): Option<int> {
    if stored == None || stored.value <= 0 then excluded
    else if Positive(excluded) && excluded.value < stored.value then excluded
    else stored
  }

  function Merge(row: Entry, e: Entry): Entry {
    row.(timeMs := MergeTime(row.timeMs, e.timeMs),
         lap := if row.lap >= e.lap then row.lap else e.lap,
         driver := Coalesce(e.driver, row.driver),
         car := Coalesce(e.car, row.car),
         track := Coalesce(e.track, row.track),
         groupName := Coalesce(e.groupName, row.groupName),
         timestamp := e.timestamp)
  }

  /** `if not entry.session_id: return`. */
  predicate Ranked(e: Entry) {
    e.sessionId.Some? && e.sessionId.value != ""
  }

  function KeyOf(e: Entry): Key
    requires Ranked(e)
  {
    (e.rigId, e.sessionId.value)
  }

  // ------------------------------------------------------------------
  // Operations
  // ------------------------------------------------------------------

  function Inserted(b: Board, e: Entry): Board {
    b.(laps := b.laps + [Lap(b.nextId, e)], nextId := b.nextId + 1)
  }

  function Upserted(b: Board, e: Entry): Board {
    if !Ranked(e) then b
    else
      var k := KeyOf(e);
      b.(best := b.best[k := if k in b.best then Merge(b.best[k], e) else e])
  }

  /** How every caller records a lap: insert, then upsert. */
  function Recorded(b: Board, e: Entry): Board {
    Upserted(Inserted(b, e), e)
  }

  function Without(laps: seq<Lap>, id: int): seq<Lap> {
    if laps == [] then []
    else (if laps[0].id == id then [] else [laps[0]]) + Without(laps[1..], id)
  }

  lemma WithoutStep(laps: seq<Lap>, i: nat, id: int)
    requires i < |laps|
    ensures Without(laps[i..], id) == (if laps[i].id == id then [] else [laps[i]]) + Without(laps[i + 1..], id)
  {
    assert laps[i..][0] == laps[i] && laps[i..][1..] == laps[i + 1..];
  }

  lemma WithoutNothing(none: seq<Lap>, id: int)
    requires none == []
    ensures Without(none, id) == []
  {}

  function Deleted(b: Board, id: int): Board {
    b.(laps := Without(b.laps, id))
  }

  function Cleared(b: Board): Board {
    b.(laps := [], best := map[])
  }

  class LeaderboardDB {
    var laps: seq<Lap>
    var sessionBest: map<Key, Entry>
    var nextId: nat

    constructor ()
      ensures View() == Board([], map[], 1)
    {
      laps, sessionBest, nextId := [], map[], 1;
    }

    function View(): Board
      reads this
    {
      Board(laps, sessionBest, nextId)
    }

    method Insert(e: Entry)
      modifies this
      ensures View() == Inserted(old(View()), e)
    {
      laps := laps + [Lap(nextId, e)];
      nextId := nextId + 1;
    }

    method UpsertSessionBest(e: Entry)
      modifies this
      ensures View() == Upserted(old(View()), e)
    {
      if e.sessionId == None || e.sessionId.value == "" {
        return;
      }
      var k := (e.rigId, e.sessionId.value);
      if k in sessionBest {
        sessionBest := sessionBest[k := Merge(sessionBest[k], e)];
      } else {
        sessionBest := sessionBest[k := e];
      }
    }

    method DeleteRecord(id: int) returns (deleted: bool)
      modifies this
      ensures View() == Deleted(old(View()), id)
      ensures deleted <==> exists l <- old(laps) :: l.id == id
    {
      hide Without;
      var all := laps;
      var kept: seq<Lap> := [];
      deleted := false;
      assert all[0..] == all;
      for i := 0 to |all|
        invariant View() == old(View())
        invariant kept + Without(all[i..], id) == Without(all, id)
        invariant deleted <==> exists j | 0 <= j < i :: all[j].id == id
      {
        WithoutStep(all, i, id);
        if all[i].id == id {
          deleted := true;
        } else {
          Associative(kept, [all[i]], Without(all[i + 1..], id));
          kept := kept + [all[i]];
        }
      }
      WithoutNothing(all[|all|..], id);
      assert deleted ==> exists j | 0 <= j < |all| :: all[j] in all && all[j].id == id;
      laps := kept;
    }

    method ClearLeaderboard()
      modifies this
      ensures View() == Cleared(old(View()))
    {
      laps := [];
      sessionBest := map[];
    }
  }

  // ------------------------------------------------------------------
  // What a sequence of upserts to one row leaves
  // ------------------------------------------------------------------

  /** The row after upserting `es` in order. */
  function Fold(es: seq<Entry>): Entry
    requires es != []
  {
    if |es| == 1 then es[0] else Merge(Fold(es[..|es| - 1]), es[|es| - 1])
  }

  /** The last known value of a column. */
  function LastKnown(vs: seq<Option<string>>): Option<string> {
    if vs == [] then None else if vs[|vs| - 1].Some? then vs[|vs| - 1] else LastKnown(vs[..|vs| - 1])
  }

  function Column(es: seq<Entry>, get: Entry -> Option<string>): seq<Option<string>> {
    seq(|es|, i requires 0 <= i < |es| => get(es[i]))
  }

  ghost predicate HasPositive(es: seq<Entry>) {
    exists e <- es :: Positive(e.timeMs)
  }

  /** `t` is the least of the positive times. */
  ghost predicate IsBestTime(es: seq<Entry>, t: Option<int>) {
    && Positive(t)
    && (exists e <- es :: e.timeMs == t)
    && (forall e <- es | Positive(e.timeMs) :: t.value <= e.timeMs.value)
  }

  lemma PositiveStep(init: seq<Entry>, e: Entry)
    ensures HasPositive(init + [e]) <==> HasPositive(init) || Positive(e.timeMs)
  {
    assert forall x :: x in init + [e] <==> x in init || x == e;
  }

  lemma BestStep(init: seq<Entry>, e: Entry, t: Option<int>)
    requires HasPositive(init) ==> IsBestTime(init, t)
    requires !HasPositive(init) ==> !Positive(t)
    ensures HasPositive(init + [e]) ==> IsBestTime(init + [e], MergeTime(t, e.timeMs))
    ensures !HasPositive(init + [e]) ==> MergeTime(t, e.timeMs) == e.timeMs
  {
    assert forall x :: x in init + [e] <==> x in init || x == e;
    PositiveStep(init, e);
  }

  /** The stored time is the least positive time, once there is one; before that it is the last. */
  lemma {:induction false} FoldTime(es: seq<Entry>)
    requires es != []
    ensures HasPositive(es) ==> IsBestTime(es, Fold(es).timeMs)
    ensures !HasPositive(es) ==> Fold(es).timeMs == es[|es| - 1].timeMs && !Positive(Fold(es).timeMs)
  {
    var n := |es| - 1;
    assert es[n] in es;
    if n == 0 {
      assert es == [es[0]];
    } else {
      FoldTime(es[..n]);
      BestStep(es[..n], es[n], Fold(es[..n]).timeMs);
      PositiveStep(es[..n], es[n]);
      assert es == es[..n] + [es[n]];
      hide HasPositive, IsBestTime, MergeTime;
      assert Positive(es[n].timeMs) ==> HasPositive(es);
    }
  }

  lemma {:induction false} FoldKnown(es: seq<Entry>, get: Entry -> Option<string>)
    requires es != []
    requires forall row, e :: get(Merge(row, e)) == Coalesce(get(e), get(row))
    ensures get(Fold(es)) == LastKnown(Column(es, get))
  {
    ColumnStep(es, get);
    if |es| == 1 {
      assert Column(es[..0], get) == [];
    } else {
      FoldKnown(es[..|es| - 1], get);
    }
  }

  lemma {:induction false} FoldLap(es: seq<Entry>)
    requires es != []
    ensures (exists e <- es :: e.lap == Fold(es).lap) && (forall e <- es :: e.lap <= Fold(es).lap)
    ensures Fold(es).timestamp == es[|es| - 1].timestamp
    ensures Fold(es).rigId == es[0].rigId && Fold(es).sessionId == es[0].sessionId
  {
    var n := |es| - 1;
    assert es[n] in es;
    if n > 0 {
      var init := es[..n];
      FoldLap(init);
      assert es == init + [es[n]];
      assert forall e <- es :: e in init || e == es[n];
    }
  }

  /** The other columns: the highest lap, the last known driver, car, track and group, the last
      timestamp, and the rig and session of the row. */
  lemma FoldColumns(es: seq<Entry>)
    requires es != []
    ensures (exists e <- es :: e.lap == Fold(es).lap) && (forall e <- es :: e.lap <= Fold(es).lap)
    ensures Fold(es).driver == LastKnown(Column(es, (e: Entry) => e.driver))
    ensures Fold(es).car == LastKnown(Column(es, (e: Entry) => e.car))
    ensures Fold(es).track == LastKnown(Column(es, (e: Entry) => e.track))
    ensures Fold(es).groupName == LastKnown(Column(es, (e: Entry) => e.groupName))
    ensures Fold(es).timestamp == es[|es| - 1].timestamp
    ensures Fold(es).rigId == es[0].rigId && Fold(es).sessionId == es[0].sessionId
  {
    FoldLap(es);
    FoldKnown(es, (e: Entry) => e.driver);
    FoldKnown(es, (e: Entry) => e.car);
    FoldKnown(es, (e: Entry) => e.track);
    FoldKnown(es, (e: Entry) => e.groupName);
    hide *;
  }

  lemma ColumnStep(es: seq<Entry>, get: Entry -> Option<string>)
    requires es != []
    ensures var n := |es| - 1;
            LastKnown(Column(es, get)) ==
            if get(es[n]).Some? then get(es[n]) else LastKnown(Column(es[..n], get))
  {
    var n := |es| - 1;
    assert Column(es, get)[..n] == Column(es[..n], get);
  }

  /** The stored time does not depend on the order of the laps. */
  lemma TimeIgnoresOrder(es: seq<Entry>, fs: seq<Entry>)
    requires multiset(es) == multiset(fs) && HasPositive(es)
    ensures es != [] && fs != [] && Fold(es).timeMs == Fold(fs).timeMs
  {
    SameMembers(es, fs);
    FoldTime(es);
    FoldTime(fs);
    hide Fold;
  }

  lemma SameMembers(es: seq<Entry>, fs: seq<Entry>)
    requires multiset(es) == multiset(fs)
    ensures forall e :: e in es <==> e in fs
  {
    assert forall e :: e in es <==> e in multiset(es);
    assert forall e :: e in fs <==> e in multiset(fs);
  }

  // ------------------------------------------------------------------
  // The table is a view of the history
  // ------------------------------------------------------------------

  datatype Op = Record(entry: Entry) | Delete(id: int) | Clear

  function Apply(b: Board, op: Op): Board {
    match op
    case Record(e) => Recorded(b, e)
    case Delete(id) => Deleted(b, id)
    case Clear => Cleared(b)
  }

  function Run(b: Board, ops: seq<Op>): Board {
    if ops == [] then b else Apply(Run(b, ops[..|ops| - 1]), ops[|ops| - 1])
  }

  /** The laps recorded since the last clear. */
  function History(ops: seq<Op>): seq<Entry> {
    if ops == [] then []
    else
      var before := History(ops[..|ops| - 1]);
      match ops[|ops| - 1]
      case Record(e) => before + [e]
      case Delete(_) => before
      case Clear => []
  }

  /** No lap has been deleted since the last clear. */
  predicate Undeleted(ops: seq<Op>) {
    ops == [] ||
    match ops[|ops| - 1]
    case Record(_) => Undeleted(ops[..|ops| - 1])
    case Delete(_) => false
    case Clear => true
  }

  /** The laps of one row, in order. */
  function Of(es: seq<Entry>, k: Key): seq<Entry> {
    if es == [] then []
    else
      var last := es[|es| - 1];
      Of(es[..|es| - 1], k) + if Ranked(last) && KeyOf(last) == k then [last] else []
  }

  function Entries(laps: seq<Lap>): seq<Entry> {
    seq(|laps|, i requires 0 <= i < |laps| => laps[i].entry)
  }

  /** The table and the log, as functions of the history. */
  ghost predicate IsView(b: Board, history: seq<Entry>) {
    && (forall k :: k in b.best <==> Of(history, k) != [])
    && (forall k <- b.best :: b.best[k] == Fold(Of(history, k)))
    && (forall l <- b.laps :: l.entry in history)
  }

  lemma OfStep(es: seq<Entry>, e: Entry, k: Key)
    ensures Of(es + [e], k) == Of(es, k) + if Ranked(e) && KeyOf(e) == k then [e] else []
  {
    assert (es + [e])[..|es|] == es;
  }

  lemma FoldStep(es: seq<Entry>, e: Entry)
    ensures Fold(es + [e]) == if es == [] then e else Merge(Fold(es), e)
  {
    assert (es + [e])[..|es|] == es;
  }

  lemma RecordKeepsView(b: Board, history: seq<Entry>, e: Entry)
    requires IsView(b, history)
    ensures IsView(Recorded(b, e), history + [e])
  {
    var r := Recorded(b, e);
    forall k
      ensures k in r.best <==> Of(history + [e], k) != []
      ensures k in r.best ==> r.best[k] == Fold(Of(history + [e], k))
    {
      OfStep(history, e, k);
      if Ranked(e) && KeyOf(e) == k {
        FoldStep(Of(history, k), e);
      } else {
        assert Of(history + [e], k) == Of(history, k);
      }
    }
  }

  lemma {:induction false} WithoutKeeps(laps: seq<Lap>, id: int)
    ensures forall l :: l in Without(laps, id) <==> l in laps && l.id != id
  {
    if laps != [] {
      WithoutKeeps(laps[1..], id);
      assert laps == [laps[0]] + laps[1..];
    }
  }

  /** After any run from an empty database the session-best table has a row for exactly the keys
      raced since the last clear, each the fold of its laps, and no lap is in the log that was not
      recorded since. Deleting a lap leaves the table as it is; with no deletion the log is the
      history. */
  lemma {:induction false} TableIsView(b: Board, ops: seq<Op>)
    requires b.laps == [] && b.best == map[]
    ensures IsView(Run(b, ops), History(ops))
    ensures Undeleted(ops) ==> Entries(Run(b, ops).laps) == History(ops)
  {
    if ops != [] {
      var n := |ops| - 1;
      TableIsView(b, ops[..n]);
      var before := Run(b, ops[..n]);
      match ops[n]
      case Record(e) =>
        RecordKeepsView(before, History(ops[..n]), e);
        assert Entries(before.laps + [Lap(before.nextId, e)]) == Entries(before.laps) + [e];
      case Delete(id) =>
        WithoutKeeps(before.laps, id);
      case Clear =>
    }
  }

  /** The number of laps ever recorded. */
  function RecordedCount(ops: seq<Op>): nat {
    if ops == [] then 0 else RecordedCount(ops[..|ops| - 1]) + if ops[|ops| - 1].Record? then 1 else 0
  }

  ghost predicate Numbered(laps: seq<Lap>, next: nat) {
    && (forall i | 0 <= i < |laps| :: laps[i].id < next)
    && (forall i, j | 0 <= i < j < |laps| :: laps[i].id < laps[j].id)
  }

  lemma FirstIsLeast(laps: seq<Lap>, next: nat)
    requires Numbered(laps, next) && laps != []
    ensures Numbered(laps[1..], next) && laps[0].id < next && forall l <- laps[1..] :: laps[0].id < l.id
  {
    var rest := laps[1..];
    assert forall i | 0 <= i < |rest| :: rest[i] == laps[i + 1];
  }

  lemma LeastFirst(l: Lap, rest: seq<Lap>, next: nat)
    requires Numbered(rest, next) && l.id < next && forall x <- rest :: l.id < x.id
    ensures Numbered([l] + rest, next)
  {
    assert forall i | 0 <= i < |rest| :: rest[i] in rest;
  }

  lemma {:induction false} WithoutIsNumbered(laps: seq<Lap>, id: int, next: nat)
    requires Numbered(laps, next)
    ensures Numbered(Without(laps, id), next)
  {
    if laps != [] {
      hide Numbered;
      FirstIsLeast(laps, next);
      WithoutIsNumbered(laps[1..], id, next);
      WithoutKeeps(laps[1..], id);
      LeastFirst(laps[0], Without(laps[1..], id), next);
      assert [] + Without(laps[1..], id) == Without(laps[1..], id);
    }
  }

  /** Laps are numbered in the order they are recorded, and no number is given twice, not even
      after a clear. */
  lemma {:induction false} IdsAreNeverReused(b: Board, ops: seq<Op>)
    requires b.laps == []
    ensures Numbered(Run(b, ops).laps, Run(b, ops).nextId)
    ensures Run(b, ops).nextId == b.nextId + RecordedCount(ops)
  {
    if ops != [] {
      var n := |ops| - 1;
      IdsAreNeverReused(b, ops[..n]);
      match ops[n]
      case Record(_) =>
      case Delete(id) => WithoutIsNumbered(Run(b, ops[..n]).laps, id, Run(b, ops[..n]).nextId);
      case Clear =>
    }
  }

  lemma {:induction false} OfMembers(es: seq<Entry>, k: Key)
    ensures forall e :: e in Of(es, k) <==> e in es && Ranked(e) && KeyOf(e) == k
  {
    if es != [] {
      var n := |es| - 1;
      OfMembers(es[..n], k);
      assert es == es[..n] + [es[n]];
    }
  }

  /** Every positive lap in the log with a session is covered by its row. */
  lemma PositiveLapsAreCovered(b: Board, ops: seq<Op>, l: Lap)
    requires b.laps == [] && b.best == map[]
    requires l in Run(b, ops).laps && Ranked(l.entry) && Positive(l.entry.timeMs)
    ensures var r := Run(b, ops);
            && KeyOf(l.entry) in r.best
            && Positive(r.best[KeyOf(l.entry)].timeMs)
            && r.best[KeyOf(l.entry)].timeMs.value <= l.entry.timeMs.value
  {
    TableIsView(b, ops);
    var k := KeyOf(l.entry);
    OfMembers(History(ops), k);
    assert l.entry in Of(History(ops), k);
    FoldTime(Of(History(ops), k));
  }

  /** The lap belongs to the row. */
  predicate IsOf(l: Lap, k: Key) {
    Ranked(l.entry) && KeyOf(l.entry) == k
  }

  lemma LogMembers(laps: seq<Lap>, k: Key)
    ensures forall e :: e in Of(Entries(laps), k) <==> exists l <- laps :: l.entry == e && IsOf(l, k)
  {
    OfMembers(Entries(laps), k);
    assert forall i | 0 <= i < |laps| :: Entries(laps)[i] == laps[i].entry;
    forall l | l in laps && IsOf(l, k) ensures l.entry in Of(Entries(laps), k) {
      var i :| 0 <= i < |laps| && laps[i] == l;
      assert Entries(laps)[i] == l.entry;
    }
    hide Of, Ranked;
  }

  /** After any run, with deletions or without, a row's time is the least positive time its laps in
      the log have, provided any has one, exactly when some lap in the log has that time. */
  lemma RowIsLeastOfLogIff(b: Board, ops: seq<Op>, k: Key)
    requires b.laps == [] && b.best == map[]
    requires HasPositive(Of(Entries(Run(b, ops).laps), k))
    ensures var r := Run(b, ops);
            && k in r.best
            && (IsBestTime(Of(Entries(r.laps), k), r.best[k].timeMs) <==>
                exists l <- r.laps :: IsOf(l, k) && l.entry.timeMs == r.best[k].timeMs)
  {
    var r, history := Run(b, ops), History(ops);
    TableIsView(b, ops);
    LogMembers(r.laps, k);
    OfMembers(history, k);
    var log := Of(Entries(r.laps), k);
    assert forall e <- log :: e in Of(history, k);
    FoldTime(Of(history, k));
    hide Of, Fold, Run, History, Entries;
    if l :| l in r.laps && IsOf(l, k) && l.entry.timeMs == r.best[k].timeMs {
      assert l.entry in log;
    }
  }

  /** Deleting a lap keeps a row the least of the log exactly when another lap of the row has the
      row's time. */
  lemma DeletionKeepsLeastIff(b: Board, ops: seq<Op>, id: int, k: Key)
    requires b.laps == [] && b.best == map[]
    requires HasPositive(Of(Entries(Deleted(Run(b, ops), id).laps), k))
    ensures var r := Run(b, ops);
            && k in r.best
            && (IsBestTime(Of(Entries(Deleted(r, id).laps), k), Deleted(r, id).best[k].timeMs) <==>
                exists l <- r.laps :: l.id != id && IsOf(l, k) && l.entry.timeMs == r.best[k].timeMs)
  {
    RunStep(b, ops, Delete(id));
    RowIsLeastOfLogIff(b, ops + [Delete(id)], k);
    WithoutKeeps(Run(b, ops).laps, id);
    hide Of, Run, HasPositive, IsBestTime, Entries;
  }

  /** With no deletion since the last clear it is always the least. */
  lemma RowIsLeastOfLog(b: Board, ops: seq<Op>, k: Key)
    requires b.laps == [] && b.best == map[] && Undeleted(ops)
    requires HasPositive(Of(Entries(Run(b, ops).laps), k))
    ensures k in Run(b, ops).best
    ensures IsBestTime(Of(Entries(Run(b, ops).laps), k), Run(b, ops).best[k].timeMs)
  {
    TableIsView(b, ops);
    FoldTime(Of(History(ops), k));
  }

  const FAST := Entry("RIG-01", None, None, None, None, 1, Some(90000), Some("s"), 0.0)
  const SLOW := Entry("RIG-01", None, None, None, None, 2, Some(95000), Some("s"), 0.0)

  lemma FirstLap()
    ensures Recorded(Board([], map[], 1), FAST) == Board([Lap(1, FAST)], map[("RIG-01", "s") := FAST], 2)
  {}

  lemma SecondLap(b: Board)
    requires b == Board([Lap(1, FAST)], map[("RIG-01", "s") := FAST], 2)
    ensures Recorded(b, SLOW) ==
            Board([Lap(1, FAST), Lap(2, SLOW)], map[("RIG-01", "s") := Merge(FAST, SLOW)], 3)
  {}

  lemma FastLapDeleted(laps: seq<Lap>)
    requires laps == [Lap(1, FAST), Lap(2, SLOW)]
    ensures Without(laps, 1) == [Lap(2, SLOW)]
  {
    WithoutStep(laps, 0, 1);
    WithoutStep(laps, 1, 1);
    WithoutNothing(laps[2..], 1);
    assert laps[0..] == laps;
    hide Without;
  }

  lemma RunThree(b: Board, x: Op, y: Op, z: Op)
    ensures Run(b, [x, y, z]) == Apply(Apply(Apply(b, x), y), z)
  {
    hide Apply;
    var none: seq<Op> := [];
    assert none + [x] == [x] && [x] + [y] == [x, y] && [x, y] + [z] == [x, y, z];
    RunStep(b, none, x);
    RunStep(b, [x], y);
    RunStep(b, [x, y], z);
  }

  /** With deletions it need not be: here the row remembers a lap the log has lost. */
  lemma DeletedLapStaysBest()
    ensures var r := Run(Board([], map[], 1), [Record(FAST), Record(SLOW), Delete(1)]);
            && r.laps == [Lap(2, SLOW)]
            && ("RIG-01", "s") in r.best && r.best[("RIG-01", "s")].timeMs == FAST.timeMs
            && r.laps[0].entry.timeMs != FAST.timeMs
  {
    hide Run, Without, Recorded;
    var b := Board([], map[], 1);
    RunThree(b, Record(FAST), Record(SLOW), Delete(1));
    FirstLap();
    var b1 := Recorded(b, FAST);
    SecondLap(b1);
    var b2 := Recorded(b1, SLOW);
    FastLapDeleted(b2.laps);
  }

  lemma RunStep(b: Board, ops: seq<Op>, op: Op)
    ensures Run(b, ops + [op]) == Apply(Run(b, ops), op)
  {
    assert (ops + [op])[..|ops|] == ops;
  }
}
