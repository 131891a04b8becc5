/** How a line is read, said without the reader's own terms: section names and keys count in any
    case of their letters, and nothing else about a line matters. */
module IniReading {
  import opened PyText
  import opened IniPatch
  import opened IniFile
  import opened IniMeaning

  // ------------------------------------------------------------------
  // Names in any case
  // ------------------------------------------------------------------

  /** The same character, or the two cases of one ASCII letter. */
  predicate SameLetter(c: char, d: char) {
    || c == d
    || ('a' <= c <= 'z' && c as int == d as int + 32)
    || ('a' <= d <= 'z' && d as int == c as int + 32)
  }

  predicate SameName(a: string, b: string) {
    |a| == |b| && forall i | 0 <= i < |a| :: SameLetter(a[i], b[i])
  }

  lemma UpperIff(a: string, b: string)
    ensures Upper(a) == Upper(b) <==> SameName(a, b)
  {
    if Upper(a) == Upper(b) {
      forall i | 0 <= i < |a| ensures SameLetter(a[i], b[i]) {
        assert Upper(a)[i] == Upper(b)[i];
      }
    }
  }

  // ------------------------------------------------------------------
  // One line
  // ------------------------------------------------------------------

  /** The line is a header, but for blank ends. */
  predicate Bracketed(line: string) {
    var s := Strip(line);
    |s| >= 2 && s[0] == '[' && s[|s| - 1] == ']'
  }

  function NameIn(line: string): string
    requires Bracketed(line)
  {
    Strip(line)[1..|Strip(line)| - 1]
  }

  /** The line sets `key`, in whatever case it is written. */
  predicate Sets(line: string, key: string) {
    !Bracketed(line) && '=' in Strip(line) && SameName(Strip(Before(Strip(line))), key)
  }

  /** A header closes the section before it, stays as it is, and opens the section whose name it
      has in any case. */
  lemma HeaderOpens(p: Patch, st: Pass, line: string)
    requires Bracketed(line)
    ensures Emit(p, st, line) == Flush(p, st) + [line]
    ensures Next(p, st, line).section == Video <==> SameName(NameIn(line), "VIDEO")
    ensures Next(p, st, line).section == PostProcess <==> SameName(NameIn(line), "POST_PROCESS")
  {
    CapitalNames();
    UpperIff(NameIn(line), "VIDEO");
    UpperIff(NameIn(line), "POST_PROCESS");
    assert |"VIDEO"| != |"POST_PROCESS"|;
    hide Flush, Upper;
  }

  lemma CapitalNames()
    ensures Upper("VIDEO") == "VIDEO" && Upper("POST_PROCESS") == "POST_PROCESS"
  {}

  /** A line that sets an override of the open section, in any case, is replaced by the override. */
  lemma SettingIsReplaced(p: Patch, st: Pass, line: string, key: string)
    requires key in TableOf(p, st.section).value && Sets(line, key)
    ensures Emit(p, st, line) == [key + "=" + TableOf(p, st.section).value[key] + "\n"]
    ensures Next(p, st, line) == st.(written := st.written + {(st.section, key)})
  {
    UpperIff(Strip(Before(Strip(line))), key);
    TableEntry(TableOf(p, st.section), key);
    KeyIsPlain(key);
    hide Strip, Upper, Flush, Before;
  }

  /** Every other line is copied, and means nothing. */
  lemma OtherLinesAreCopied(p: Patch, st: Pass, line: string)
    requires !Bracketed(line) && forall key <- TableOf(p, st.section).value :: !Sets(line, key)
    ensures Emit(p, st, line) == [line] && Next(p, st, line) == st
  {
    var k := Upper(Strip(Before(Strip(line))));
    if '=' in Strip(line) && k in TableOf(p, st.section).value {
      TableEntry(TableOf(p, st.section), k);
      KeyIsPlain(k);
      UpperIff(Strip(Before(Strip(line))), k);
      assert false;
    }
    hide Strip, Upper, Flush, Before;
  }

  // ------------------------------------------------------------------
  // Whole files
  // ------------------------------------------------------------------

  /** The lines differ at most in the case of a section's or a key's name, and in blanks around it. */
  predicate Recased(a: string, b: string) {
    || a == b
    || (Bracketed(a) && Bracketed(b) && SameName(NameIn(a), NameIn(b)))
    || (&& !Bracketed(a) && !Bracketed(b)
        && '=' in Strip(a) && '=' in Strip(b)
        && SameName(Strip(Before(Strip(a))), Strip(Before(Strip(b))))
        && Strip(After(Strip(a))) == Strip(After(Strip(b))))
  }

  ghost predicate AllRecased(a: seq<string>, b: seq<string>) {
    |a| == |b| && forall i | 0 <= i < |a| :: Recased(a[i], b[i])
  }

  lemma RecasedParse(a: string, b: string)
    requires Recased(a, b)
    ensures Parse(a) == Parse(b)
  {
    if a != b {
      if Bracketed(a) {
        UpperIff(NameIn(a), NameIn(b));
      } else {
        UpperIff(Strip(Before(Strip(a))), Strip(Before(Strip(b))));
      }
    }
    hide Strip, Upper, Before, After;
  }

  lemma RecasedAppend(a: seq<string>, b: seq<string>, c: seq<string>, d: seq<string>)
    requires AllRecased(a, b) && AllRecased(c, d)
    ensures AllRecased(a + c, b + d)
  {
    hide Recased;
  }

  lemma RecasedItself(a: seq<string>)
    ensures AllRecased(a, a)
  {}

  /** A pass does to a file what it does to the same file in other letter case: the outputs have
      the same overrides in the same places, and the lines that are kept differ as they did. */
  lemma {:induction false} CaseIsImmaterial(p: Patch, st: Pass, a: seq<string>, b: seq<string>)
    requires AllRecased(a, b)
    ensures AllRecased(Rewrite(p, st, a), Rewrite(p, st, b))
    decreases |a|
  {
    hide Parse, Recased, Missing;
    if a == [] {
      RecasedItself(Flush(p, st));
    } else {
      RecasedParse(a[0], b[0]);
      RecasedItself(Emit(p, st, a[0]));
      RecasedItself(Flush(p, st));
      assert AllRecased([a[0]], [b[0]]);
      RecasedAppend(Flush(p, st), Flush(p, st), [a[0]], [b[0]]);
      assert AllRecased(Emit(p, st, a[0]), Emit(p, st, b[0]));
      var n := Next(p, st, a[0]);
      CaseIsImmaterial(p, n, a[1..], b[1..]);
      RecasedAppend(Emit(p, st, a[0]), Emit(p, st, b[0]), Rewrite(p, n, a[1..]), Rewrite(p, n, b[1..]));
      RewriteStep(p, st, a);
      RewriteStep(p, st, b);
    }
  }

  // ------------------------------------------------------------------
  // The overrides themselves
  // ------------------------------------------------------------------

  /** The [POST_PROCESS] settings that Pure needs. */
  predicate PureSetting(key: string, value: string) {
    || (key == "DOF" && value == "5") || (key == "ENABLED" && value == "1")
    || (key == "FILTER" && value == "pureHDR") || (key == "FXAA" && value == "1")
    || (key == "GLARE" && value == "5") || (key == "HEAT_SHIMMER" && value == "1")
    || (key == "QUALITY" && value == "5") || (key == "RAYS_OF_GOD" && value == "1")
  }

  /** The [VIDEO] settings of a spectator: a borderless window of 1920 by 1080, with little shadow
      and no reflection. */
  predicate LowQualitySetting(key: string, value: string) {
    || (key == "SHADOW_MAP_SIZE" && value == "512") || (key == "SHADOW_MAP_SIZE2" && value == "512")
    || (key == "SHADOW_MAP_SIZE3" && value == "256") || (key == "REFLECTION_RESOLUTION" && value == "0")
    || (key == "REFLECTION_DISTANCE" && value == "0") || (key == "MOTION_BLUR" && value == "0")
    || (key == "DEPTH_OF_FIELD" && value == "0") || (key == "ANISOTROPIC" && value == "4")
    || (key == "WIDTH" && value == "1920") || (key == "HEIGHT" && value == "1080")
    || (key == "FULLSCREEN" && value == "0") || (key == "BORDERLESS" && value == "1")
    || (key == "DISABLE_LEGACY_HDR" && value == "1")
  }

  ghost predicate DistinctKeys(entries: seq<Entry>) {
    forall i, j | 0 <= i < j < |entries| :: entries[i].0 != entries[j].0
  }

  lemma {:induction false} DictionaryHolds(entries: seq<Entry>, n: nat)
    requires n <= |entries| && DistinctKeys(entries)
    ensures var t := Dictionary(entries, n);
            && (forall i | 0 <= i < n :: entries[i].0 in t.value && t.value[entries[i].0] == entries[i].1)
            && (forall k <- t.value :: exists i | 0 <= i < n :: entries[i].0 == k)
  {
    hide IsTable;
    if n > 0 {
      DictionaryHolds(entries, n - 1);
    }
  }

  lemma DictionaryIs(entries: seq<Entry>, k: string, v: string)
    requires DistinctKeys(entries)
    ensures var t := Dictionary(entries, |entries|);
            k in t.value && t.value[k] == v <==> Holds(entries, k, v)
  {
    DictionaryHolds(entries, |entries|);
    hide Dictionary;
  }

  lemma RankedAreDistinct(entries: seq<Entry>, low: nat)
    requires forall i | 0 <= i < |entries| :: Rank(entries[i].0) == low + i
    ensures DistinctKeys(entries)
  {
    hide Rank;
    forall i, j | 0 <= i < j < |entries| ensures entries[i].0 != entries[j].0 {
      assert Rank(entries[i].0) != Rank(entries[j].0);
    }
  }

  predicate Holds(entries: seq<Entry>, k: string, v: string) {
    exists i | 0 <= i < |entries| :: entries[i].0 == k && entries[i].1 == v
  }

  lemma PureEntriesAre(k: string, v: string)
    ensures Holds(PURE_ENTRIES, k, v) <==> PureSetting(k, v)
  {
    assert PURE_ENTRIES[0] == ("DOF", "5") && PURE_ENTRIES[1] == ("ENABLED", "1");
    assert PURE_ENTRIES[2] == ("FILTER", "pureHDR") && PURE_ENTRIES[3] == ("FXAA", "1");
    assert PURE_ENTRIES[4] == ("GLARE", "5") && PURE_ENTRIES[5] == ("HEAT_SHIMMER", "1");
    assert PURE_ENTRIES[6] == ("QUALITY", "5") && PURE_ENTRIES[7] == ("RAYS_OF_GOD", "1");
  }

  lemma VideoEntriesAre(k: string, v: string)
    ensures Holds(VIDEO_ENTRIES, k, v) <==> LowQualitySetting(k, v)
  {
    assert VIDEO_ENTRIES[0] == ("SHADOW_MAP_SIZE", "512") && VIDEO_ENTRIES[1] == ("SHADOW_MAP_SIZE2", "512");
    assert VIDEO_ENTRIES[2] == ("SHADOW_MAP_SIZE3", "256") && VIDEO_ENTRIES[3] == ("REFLECTION_RESOLUTION", "0");
    assert VIDEO_ENTRIES[4] == ("REFLECTION_DISTANCE", "0") && VIDEO_ENTRIES[5] == ("MOTION_BLUR", "0");
    assert VIDEO_ENTRIES[6] == ("DEPTH_OF_FIELD", "0") && VIDEO_ENTRIES[7] == ("ANISOTROPIC", "4");
    assert VIDEO_ENTRIES[8] == ("WIDTH", "1920") && VIDEO_ENTRIES[9] == ("HEIGHT", "1080");
    assert VIDEO_ENTRIES[10] == ("FULLSCREEN", "0") && VIDEO_ENTRIES[11] == ("BORDERLESS", "1");
    assert VIDEO_ENTRIES[12] == ("DISABLE_LEGACY_HDR", "1");
  }

  /** The tables are these settings and no others. */
  lemma TablesAre(key: string, value: string)
    ensures key in PURE_POST_PROCESS.value && PURE_POST_PROCESS.value[key] == value <==> PureSetting(key, value)
    ensures key in SPECTATOR_VIDEO.value && SPECTATOR_VIDEO.value[key] == value <==> LowQualitySetting(key, value)
    ensures key in LEGACY_HDR.value && LEGACY_HDR.value[key] == value <==> key == "DISABLE_LEGACY_HDR" && value == "1"
  {
    hide Dictionary, PureSetting, LowQualitySetting, Rank, Holds;
    PureRanks();
    ShadowRanks();
    ScreenRanks();
    RankedAreDistinct(PURE_ENTRIES, 0);
    RankedAreDistinct(VIDEO_ENTRIES, 8);
    DictionaryIs(PURE_ENTRIES, key, value);
    DictionaryIs(VIDEO_ENTRIES, key, value);
    PureEntriesAre(key, value);
    VideoEntriesAre(key, value);
    LegacyHdrTable();
  }

  /** A line of the file is a header for the section, in any case. */
  predicate HasHeader(lines: seq<string>, name: string) {
    exists l <- lines :: Bracketed(l) && SameName(NameIn(l), name)
  }

  lemma HeaderOccurs(lines: seq<string>)
    ensures HasHeader(lines, "VIDEO") <==> Occurs(Video, lines)
    ensures HasHeader(lines, "POST_PROCESS") <==> Occurs(PostProcess, lines)
  {
    forall l | l in lines
      ensures Parse(l) == Header(Video) <==> Bracketed(l) && SameName(NameIn(l), "VIDEO")
      ensures Parse(l) == Header(PostProcess) <==> Bracketed(l) && SameName(NameIn(l), "POST_PROCESS")
    {
      HeaderParse(l);
    }
    hide Parse, Bracketed, SameName;
  }

  lemma HeaderParse(line: string)
    ensures Parse(line) == Header(Video) <==> Bracketed(line) && SameName(NameIn(line), "VIDEO")
    ensures Parse(line) == Header(PostProcess) <==> Bracketed(line) && SameName(NameIn(line), "POST_PROCESS")
  {
    if Bracketed(line) {
      CapitalNames();
      UpperIff(NameIn(line), "VIDEO");
      UpperIff(NameIn(line), "POST_PROCESS");
      assert |"VIDEO"| != |"POST_PROCESS"|;
    }
    hide Upper, Strip;
  }

  /** What a spectator's video.ini says: every one of the settings, in a section that the file has
      under its name in any case, unless it is lost to the last line. */
  lemma SpectatorFileSays(t: string, target: Section, key: string, value: string)
    requires target == Video ==> LowQualitySetting(key, value) && HasHeader(Lines(t), "VIDEO")
    requires target == PostProcess ==> PureSetting(key, value) && HasHeader(Lines(t), "POST_PROCESS")
    requires !target.Other? && !Loses(SPECTATOR, t, target, key)
    ensures var v := Values(START.section, Lines(RewriteText(SPECTATOR, t)), target, key);
            v != [] && Uniform(v, value)
  {
    hide *;
    TablesAre(key, value);
    HeaderOccurs(Lines(t));
    SpectatorTables();
    RewrittenFileMeaning(SPECTATOR, t, target, key);
  }

  lemma SpectatorTables()
    ensures TableOf(SPECTATOR, Video) == SPECTATOR_VIDEO && TableOf(SPECTATOR, PostProcess) == PURE_POST_PROCESS
    ensures TableOf(LAUNCHER, Video) == LEGACY_HDR && TableOf(LAUNCHER, PostProcess) == PURE_POST_PROCESS
  {}

  lemma VideoInLowerCase()
    ensures Bracketed("[video]\n") && NameIn("[video]\n") == "video" && SameName("video", "VIDEO")
  {
    var s := "[video]";
    StripTrimmed(s);
    assert s + "\n" == "[video]\n";
    assert s[1..|s| - 1] == "video";
  }

  lemma SettingSets(k: string, v: string, key: string)
    requires k != "" && Trimmed(k) && '=' !in k && k[0] != '[' && v != "" && Trimmed(v) && SameName(k, key)
    ensures Sets(k + "=" + v + "\n", key)
  {
    var s := k + "=" + v;
    assert s[0] == k[0] && s[|s| - 1] == v[|v| - 1] && s[|k|] == '=';
    StripTrimmed(s);
    StripTrimmed(k);
    SplitAtEquals(k, v);
    hide Strip, Before, SameName;
  }

  lemma FullscreenInLowerCase()
    ensures Sets("fullscreen=1\n", "FULLSCREEN")
  {
    hide Sets;
    SettingSets("fullscreen", "1", "FULLSCREEN");
    assert "fullscreen" + "=" + "1" + "\n" == "fullscreen=1\n";
  }

  /** A file in lower case is patched like any other. */
  lemma LowerCaseIsPatched()
    ensures var lines := ["[video]\n", "fullscreen=1\n"];
            var out := Rewrite(SPECTATOR, START, lines);
            |out| >= 2 && out[0] == "[video]\n" && out[1] == "FULLSCREEN=0\n"
  {
    hide Bracketed, NameIn, SameName, Sets, Strip, Missing, Dictionary, LowQualitySetting, Parse, IsTable;
    var a, b := "[video]\n", "fullscreen=1\n";
    var lines := [a, b];
    VideoInLowerCase();
    FullscreenInLowerCase();
    HeaderOpens(SPECTATOR, START, a);
    SpectatorTables();
    NothingMissing(NO_TABLE, NO_TABLE.order, START);
    var st := Next(SPECTATOR, START, a);
    FullscreenIsZero();
    SettingIsReplaced(SPECTATOR, st, b, "FULLSCREEN");
    RewriteStep(SPECTATOR, START, lines);
    assert lines[1..] == [b];
    RewriteStep(SPECTATOR, st, [b]);
    assert "FULLSCREEN" + "=" + "0" + "\n" == "FULLSCREEN=0\n";
  }

  lemma FullscreenIsZero()
    ensures "FULLSCREEN" in SPECTATOR_VIDEO.value && SPECTATOR_VIDEO.value["FULLSCREEN"] == "0"
  {
    TablesAre("FULLSCREEN", "0");
    hide Dictionary, IsTable;
  }
}
