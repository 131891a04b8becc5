/** The section-aware video.ini rewriters of the rig launcher and of the spectator service:
    one specification for both passes, the meaning of a pass, and why a second pass is harmless. */
module IniPatch {
  import opened PyText

  // ------------------------------------------------------------------
  // Override tables
  // ------------------------------------------------------------------

  predicate IsKeyChar(c: char) {
    'A' <= c <= 'Z' || '0' <= c <= '9' || c == '_'
  }

  predicate IsValueChar(c: char) {
    'A' <= c <= 'Z' || 'a' <= c <= 'z' || '0' <= c <= '9'
  }

  predicate IsKey(k: string) {
    k != "" && forall i | 0 <= i < |k| :: IsKeyChar(k[i])
  }

  predicate IsValue(v: string) {
    v != "" && forall i | 0 <= i < |v| :: IsValueChar(v[i])
  }

  /** A Python dictionary of overrides: its keys in insertion order, and their values. */
  datatype RawTable = Table(order: seq<string>, value: map<string, string>)

  predicate IsTable(t: RawTable) {
    && (forall k <- t.order :: k in t.value)
    && (forall k <- t.value :: k in t.order && IsKey(k) && IsValue(t.value[k]))
  }

  type Table = t: RawTable | IsTable(t) witness Table([], map[])

  const NO_TABLE: Table := Table([], map[])

  type Entry = e: (string, string) | IsKey(e.0) && IsValue(e.1) witness (KeyDof(); ("DOF", "5"))

  lemma KeyDof()
    ensures IsKey("DOF") && IsValue("5")
  {}

  /** `t` with one more entry at its end. */
  function With(t: Table, e: Entry): Table {
    Table(t.order + [e.0], t.value[e.0 := e.1])
  }

  /** The dictionary of the first `n` entries. */
  function Dictionary(entries: seq<Entry>, n: nat): Table
    requires n <= |entries|
  {
    if n == 0 then NO_TABLE else With(Dictionary(entries, n - 1), entries[n - 1])
  }

  const PURE_ENTRIES: seq<Entry> :=
    (PureEntries();
    [("DOF", "5"), ("ENABLED", "1"), ("FILTER", "pureHDR"), ("FXAA", "1"),
     ("GLARE", "5"), ("HEAT_SHIMMER", "1"), ("QUALITY", "5"), ("RAYS_OF_GOD", "1")])

  const VIDEO_ENTRIES: seq<Entry> :=
    (ShadowEntries(); EffectEntries(); ScreenEntries();
    [("SHADOW_MAP_SIZE", "512"), ("SHADOW_MAP_SIZE2", "512"), ("SHADOW_MAP_SIZE3", "256"),
     ("REFLECTION_RESOLUTION", "0"), ("REFLECTION_DISTANCE", "0"), ("MOTION_BLUR", "0"),
     ("DEPTH_OF_FIELD", "0"), ("ANISOTROPIC", "4"), ("WIDTH", "1920"), ("HEIGHT", "1080"),
     ("FULLSCREEN", "0"), ("BORDERLESS", "1"), ("DISABLE_LEGACY_HDR", "1")])

  const LEGACY_ENTRIES: seq<Entry> := (EffectEntries(); ScreenEntries(); [("DISABLE_LEGACY_HDR", "1")])

  const PURE_POST_PROCESS: Table := Dictionary(PURE_ENTRIES, |PURE_ENTRIES|)
  const SPECTATOR_VIDEO: Table := Dictionary(VIDEO_ENTRIES, |VIDEO_ENTRIES|)
  const LEGACY_HDR: Table := Dictionary(LEGACY_ENTRIES, |LEGACY_ENTRIES|)

  lemma PureEntries()
    ensures IsKey("DOF") && IsKey("ENABLED") && IsKey("FILTER") && IsKey("FXAA") && IsKey("GLARE")
    ensures IsKey("HEAT_SHIMMER") && IsKey("QUALITY") && IsKey("RAYS_OF_GOD")
    ensures IsValue("1") && IsValue("5") && IsValue("pureHDR")
  {}

  lemma ShadowEntries()
    ensures IsKey("SHADOW_MAP_SIZE") && IsKey("SHADOW_MAP_SIZE2") && IsKey("SHADOW_MAP_SIZE3")
    ensures IsKey("REFLECTION_RESOLUTION") && IsKey("REFLECTION_DISTANCE")
  {}

  lemma EffectEntries()
    ensures IsKey("MOTION_BLUR") && IsKey("DEPTH_OF_FIELD") && IsKey("ANISOTROPIC")
    ensures IsKey("BORDERLESS") && IsKey("DISABLE_LEGACY_HDR")
  {}

  lemma ScreenEntries()
    ensures IsKey("WIDTH") && IsKey("HEIGHT") && IsKey("FULLSCREEN")
    ensures IsValue("512") && IsValue("256") && IsValue("0") && IsValue("4") && IsValue("1920") && IsValue("1080")
    ensures IsValue("1")
  {}

  /** What one rewriter enforces. `marksVideo` says whether appending the missing [VIDEO] keys
      records them as written: the launcher does so, the spectator service does not, and neither
      does it for [POST_PROCESS]. */
  datatype Patch = Patch(postProcess: Table, video: Table, marksVideo: bool)

  const LAUNCHER := Patch(PURE_POST_PROCESS, LEGACY_HDR, true)
  const SPECTATOR := Patch(PURE_POST_PROCESS, SPECTATOR_VIDEO, false)

  /** The section a header opens; only two of them are told apart by the rewriters. */
  datatype Section = PostProcess | Video | Other(name: string)

  function SectionNamed(name: string): Section {
    if name == "POST_PROCESS" then PostProcess else if name == "VIDEO" then Video else Other(name)
  }

  function TableOf(p: Patch, section: Section): Table {
    match section
    case PostProcess => p.postProcess
    case Video => p.video
    case Other(_) => NO_TABLE
  }

  predicate Marks(p: Patch, section: Section) {
    section == Video && p.marksVideo
  }

  /** The line written for an override. */
  function Canon(k: string, v: string): string {
    k + "=" + v + "\n"
  }

  // ------------------------------------------------------------------
  // Reading a line
  // ------------------------------------------------------------------

  datatype Parsed = Header(section: Section) | Setting(key: string, value: string) | Plain

  function Parse(line: string): Parsed {
    var s := Strip(line);
    if s != "" && s[0] == '[' && s[|s| - 1] == ']' then Header(SectionNamed(Upper(s[1..|s| - 1])))
    else if '=' in s then Setting(Upper(Strip(Before(s))), Strip(After(s)))
    else Plain
  }

  predicate Overrides(p: Patch, section: Section, line: string) {
    Parse(line).Setting? && Parse(line).key in TableOf(p, section).value
  }

  // ------------------------------------------------------------------
  // One pass
  // ------------------------------------------------------------------

  /** The state of a pass: the current section and the (section, key) pairs already written. */
  datatype Pass = Pass(section: Section, written: set<(Section, string)>)

  const START := Pass(Other(""), {})

  /** The lines for the keys of `order` not written yet. */
  function Missing(t: Table, order: seq<string>, st: Pass): (r: seq<string>)
    requires forall k <- order :: k in t.value
  {
    if order == [] then []
    else
      (if (st.section, order[0]) in st.written then [] else [Canon(order[0], t.value[order[0]])])
      + Missing(t, order[1..], st)
  }

  /** What is appended when the current section ends. */
  function Flush(p: Patch, st: Pass): seq<string> {
    Missing(TableOf(p, st.section), TableOf(p, st.section).order, st)
  }

  function Emit(p: Patch, st: Pass, line: string): seq<string> {
    match Parse(line)
    case Header(_) => Flush(p, st) + [line]
    case Setting(k, _) =>
      var t := TableOf(p, st.section);
      if k in t.value then [Canon(k, t.value[k])] else [line]
    case Plain => [line]
  }

  function Next(p: Patch, st: Pass, line: string): Pass {
    match Parse(line)
    case Header(s) =>
      var marked := if Marks(p, st.section) then set k <- TableOf(p, st.section).value :: (st.section, k) else {};
      Pass(s, st.written + marked)
    case Setting(k, _) =>
      if k in TableOf(p, st.section).value then st.(written := st.written + {(st.section, k)}) else st
    case Plain => st
  }

  /** The lines written before the end of the file, and the state reached there. */
  function Emitted(p: Patch, st: Pass, lines: seq<string>): seq<string>
    decreases |lines|
  {
    if lines == [] then [] else Emit(p, st, lines[0]) + Emitted(p, Next(p, st, lines[0]), lines[1..])
  }

  function Reached(p: Patch, st: Pass, lines: seq<string>): Pass
    decreases |lines|
  {
    if lines == [] then st else Reached(p, Next(p, st, lines[0]), lines[1..])
  }

  /** The rest of a pass from state `st`, with the flush at the end of the file. */
  function Rewrite(p: Patch, st: Pass, lines: seq<string>): seq<string> {
    Emitted(p, st, lines) + Flush(p, Reached(p, st, lines))
  }

  lemma {:induction false} ReachedAppend(p: Patch, st: Pass, a: seq<string>, b: seq<string>)
    ensures Reached(p, st, a + b) == Reached(p, Reached(p, st, a), b)
    decreases |a|
  {
    if a == [] {
      assert a + b == b;
    } else {
      HeadAndTail(a, b);
      ReachedAppend(p, Next(p, st, a[0]), a[1..], b);
    }
  }

  lemma {:induction false} EmittedAppend(p: Patch, st: Pass, a: seq<string>, b: seq<string>)
    ensures Emitted(p, st, a + b) == Emitted(p, st, a) + Emitted(p, Reached(p, st, a), b)
    decreases |a|
  {
    if a == [] {
      assert a + b == b;
    } else {
      HeadAndTail(a, b);
      var n, rest := Next(p, st, a[0]), a[1..];
      EmittedAppend(p, n, rest, b);
      Associative(Emit(p, st, a[0]), Emitted(p, n, rest), Emitted(p, Reached(p, n, rest), b));
    }
  }

  lemma RewriteAppend(p: Patch, st: Pass, a: seq<string>, b: seq<string>)
    ensures Rewrite(p, st, a + b) == Emitted(p, st, a) + Rewrite(p, Reached(p, st, a), b)
  {
    EmittedAppend(p, st, a, b);
    ReachedAppend(p, st, a, b);
    Associative(Emitted(p, st, a), Emitted(p, Reached(p, st, a), b), Flush(p, Reached(p, st, a + b)));
  }

  lemma RewriteStep(p: Patch, st: Pass, lines: seq<string>)
    requires lines != []
    ensures Rewrite(p, st, lines) == Emit(p, st, lines[0]) + Rewrite(p, Next(p, st, lines[0]), lines[1..])
  {
    var n, rest := Next(p, st, lines[0]), lines[1..];
    Associative(Emit(p, st, lines[0]), Emitted(p, n, rest), Flush(p, Reached(p, n, rest)));
  }

  // ------------------------------------------------------------------
  // Override lines read back as themselves
  // ------------------------------------------------------------------

  lemma KeyIsPlain(k: string)
    requires IsKey(k)
    ensures Upper(k) == k && Strip(k) == k && Trimmed(k) && '=' !in k && '[' !in k
  {
    assert forall i | 0 <= i < |k| :: IsKeyChar(k[i]) && UpperChar(k[i]) == k[i] && !IsSpace(k[i]);
    StripTrimmed(k);
  }

  lemma ValueIsPlain(v: string)
    requires IsValue(v)
    ensures Trimmed(v) && Strip(v) == v && v[|v| - 1] != ']'
  {
    assert IsValueChar(v[0]) && IsValueChar(v[|v| - 1]);
    StripTrimmed(v);
  }

  lemma CanonParses(k: string, v: string)
    requires IsKey(k) && IsValue(v)
    ensures Parse(Canon(k, v)) == Setting(k, v)
  {
    KeyIsPlain(k);
    ValueIsPlain(v);
    var s := k + "=" + v;
    assert s[0] == k[0] && s[|s| - 1] == v[|v| - 1] && s[|k|] == '=';
    StripTrimmed(s);
    SplitAtEquals(k, v);
  }

  lemma TableEntry(t: Table, k: string)
    requires k in t.value
    ensures IsKey(k) && IsValue(t.value[k]) && Parse(Canon(k, t.value[k])) == Setting(k, t.value[k])
  {
    CanonParses(k, t.value[k]);
  }

  // ------------------------------------------------------------------
  // A second pass
  // ------------------------------------------------------------------

  /** Everything `q` enforces, `p` enforces with the same value. */
  ghost predicate Covers(p: Patch, q: Patch) {
    forall s, k | k in TableOf(q, s).value ::
      k in TableOf(p, s).value && TableOf(p, s).value[k] == TableOf(q, s).value[k]
  }

  /** The second pass, by `q`, is in the section the first is in and has met every override of
      `q` that the first has written. */
  ghost predicate Follows(q: Patch, first: Pass, second: Pass) {
    && first.section == second.section
    && forall s, k | (s, k) in first.written && k in TableOf(q, s).value :: (s, k) in second.written
  }

  lemma {:induction false} FlushPasses(p: Patch, q: Patch, order: seq<string>, first: Pass, second: Pass)
    requires Covers(p, q) && first.section == second.section
    requires forall k <- order :: k in TableOf(p, first.section).value
    ensures var f := Missing(TableOf(p, first.section), order, first);
            && Emitted(q, second, f) == f
            && Reached(q, second, f).section == second.section
            && second.written <= Reached(q, second, f).written
            && forall k | k in order && k in TableOf(q, first.section).value && (first.section, k) !in first.written ::
                 (first.section, k) in Reached(q, second, f).written
  {
    if order != [] {
      var t := TableOf(p, first.section);
      var k := order[0];
      TableEntry(t, k);
      var c := Canon(k, t.value[k]);
      if (first.section, k) in first.written {
        FlushPasses(p, q, order[1..], first, second);
        assert Missing(t, order, first) == Missing(t, order[1..], first);
      } else {
        FlushPasses(p, q, order[1..], first, Next(q, second, c));
        assert Missing(t, order, first)[1..] == Missing(t, order[1..], first);
      }
    }
  }

  lemma {:induction false} NothingMissing(t: Table, order: seq<string>, st: Pass)
    requires forall k <- order :: k in t.value && (st.section, k) in st.written
    ensures Missing(t, order, st) == []
  {
    if order != [] {
      NothingMissing(t, order[1..], st);
    }
  }

  /** Once the second pass has read what the first appended to a section, it has nothing of its
      own left to append. */
  lemma AfterFlush(p: Patch, q: Patch, first: Pass, second: Pass)
    requires Covers(p, q) && Follows(q, first, second)
    ensures var f := Flush(p, first);
            && Emitted(q, second, f) == f
            && Reached(q, second, f).section == second.section
            && second.written <= Reached(q, second, f).written
            && (forall k <- TableOf(q, first.section).value :: (first.section, k) in Reached(q, second, f).written)
            && Flush(q, Reached(q, second, f)) == []
  {
    var t := TableOf(p, first.section);
    FlushPasses(p, q, t.order, first, second);
    var after := Reached(q, second, Flush(p, first));
    forall k <- TableOf(q, first.section).value ensures (first.section, k) in after.written {
      assert k in t.order;
    }
    NothingMissing(TableOf(q, after.section), TableOf(q, after.section).order, after);
  }

  /** Running a pass of `q` over the output of a pass of `p` copies it. */
  lemma {:induction false} SecondPassCopies(p: Patch, q: Patch, first: Pass, second: Pass, lines: seq<string>)
    requires Covers(p, q) && Follows(q, first, second)
    ensures Rewrite(q, second, Rewrite(p, first, lines)) == Rewrite(p, first, lines)
    decreases |lines|
  {
    if lines == [] {
      AfterFlush(p, q, first, second);
      var f := Flush(p, first);
      assert Rewrite(p, first, lines) == f;
      assert Rewrite(q, second, f) == f;
    } else {
      var e := Emit(p, first, lines[0]);
      RewriteStep(p, first, lines);
      RewriteAppend(q, second, e, Rewrite(p, Next(p, first, lines[0]), lines[1..]));
      StepCopies(p, q, first, second, lines[0]);
      SecondPassCopies(p, q, Next(p, first, lines[0]), Reached(q, second, e), lines[1..]);
    }
  }

  lemma StepCopies(p: Patch, q: Patch, first: Pass, second: Pass, line: string)
    requires Covers(p, q) && Follows(q, first, second)
    ensures var e := Emit(p, first, line);
            Emitted(q, second, e) == e && Follows(q, Next(p, first, line), Reached(q, second, e))
  {
    hide Parse;
    match Parse(line)
    case Header(s) =>
      HeaderCopies(p, q, first, second, line);
    case Setting(k, _) =>
      var t := TableOf(p, first.section);
      if k in t.value {
        TableEntry(t, k);
        OneLine(q, second, Canon(k, t.value[k]));
      } else {
        OneLine(q, second, line);
      }
    case Plain =>
      OneLine(q, second, line);
  }

  lemma HeaderCopies(p: Patch, q: Patch, first: Pass, second: Pass, line: string)
    requires Covers(p, q) && Follows(q, first, second) && Parse(line).Header?
    ensures var e := Flush(p, first) + [line];
            Emitted(q, second, e) == e && Follows(q, Next(p, first, line), Reached(q, second, e))
  {
    hide Parse;
    var f := Flush(p, first);
    AfterFlush(p, q, first, second);
    EmittedAppend(q, second, f, [line]);
    ReachedAppend(q, second, f, [line]);
    OneLine(q, Reached(q, second, f), line);
  }

  lemma OneLine(p: Patch, st: Pass, line: string)
    ensures Emitted(p, st, [line]) == Emit(p, st, line)
    ensures Reached(p, st, [line]) == Next(p, st, line)
  {
    var rest := [line][1..];
    assert rest == [];
    assert Emitted(p, Next(p, st, line), rest) == [];
    assert Reached(p, Next(p, st, line), rest) == Next(p, st, line);
  }

  lemma CoversItself(p: Patch)
    ensures Covers(p, p)
  {}

  lemma LegacyHdrTable()
    ensures LEGACY_HDR.order == ["DISABLE_LEGACY_HDR"]
    ensures LEGACY_HDR.value == map["DISABLE_LEGACY_HDR" := "1"]
    ensures LEGACY_HDR.value.Keys == {"DISABLE_LEGACY_HDR"}
  {
    assert Dictionary(LEGACY_ENTRIES, 0) == NO_TABLE;
  }

  lemma LastEntryHolds(entries: seq<Entry>, n: nat)
    requires 0 < n <= |entries|
    ensures entries[n - 1].0 in Dictionary(entries, n).value
    ensures Dictionary(entries, n).value[entries[n - 1].0] == entries[n - 1].1
  {}

  lemma LegacyHdrIsLast()
    ensures "DISABLE_LEGACY_HDR" in SPECTATOR_VIDEO.value && SPECTATOR_VIDEO.value["DISABLE_LEGACY_HDR"] == "1"
  {
    hide Dictionary, IsTable;
    LastEntryHolds(VIDEO_ENTRIES, 13);
    assert VIDEO_ENTRIES[12] == ("DISABLE_LEGACY_HDR", "1");
  }

  lemma SpectatorCoversLauncher()
    ensures Covers(SPECTATOR, LAUNCHER)
  {
    LegacyHdrTable();
    LegacyHdrIsLast();
    hide Dictionary, IsTable;
    forall s, k | k in TableOf(LAUNCHER, s).value
      ensures k in TableOf(SPECTATOR, s).value && TableOf(SPECTATOR, s).value[k] == TableOf(LAUNCHER, s).value[k]
    {
      assert s == PostProcess || s == Video;
    }
  }

  /** Both rewriters are idempotent on any lines, and the launcher leaves a file patched by the
      spectator service as it is. */
  lemma PassesAbsorb(lines: seq<string>)
    ensures var s := Rewrite(SPECTATOR, START, lines);
            var l := Rewrite(LAUNCHER, START, lines);
            && Rewrite(SPECTATOR, START, s) == s
            && Rewrite(LAUNCHER, START, l) == l
            && Rewrite(LAUNCHER, START, s) == s
  {
    SpectatorCoversLauncher();
    CoversItself(SPECTATOR);
    CoversItself(LAUNCHER);
    SecondPassCopies(SPECTATOR, SPECTATOR, START, START, lines);
    SecondPassCopies(LAUNCHER, LAUNCHER, START, START, lines);
    SecondPassCopies(SPECTATOR, LAUNCHER, START, START, lines);
  }
}
