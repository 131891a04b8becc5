/** The two line rewriters as the source runs them, each computing one pass of the specification. */
module IniRewriters {
  import opened PyText
  import opened IniPatch

  /** `for k, v in table.items(): if k not in written: new_lines.append(...)`. */
  method AppendMissing(t: Table, written: set<string>, newLines: seq<string>, ghost st: Pass)
    returns (r: seq<string>)
    requires forall k <- t.order :: k in written <==> (st.section, k) in st.written
    ensures r == newLines + Missing(t, t.order, st)
  {
    r := newLines;
    assert t.order[0..] == t.order;
    for i := 0 to |t.order|
      invariant r + Missing(t, t.order[i..], st) == newLines + Missing(t, t.order, st)
    {
      var k := t.order[i];
      ghost var before := r;
      ghost var rest := Missing(t, t.order[i + 1..], st);
      assert t.order[i..][0] == k && t.order[i..][1..] == t.order[i + 1..];
      if k !in written {
        r := r + [Canon(k, t.value[k])];
        Associative(before, [Canon(k, t.value[k])], rest);
      } else {
        assert Missing(t, t.order[i..], st) == rest;
      }
    }
  }

  /** The header branch of the loops, in the terms of the specification. */
  lemma HeaderStep(p: Patch, st: Pass, line: string, s: Section, lines: seq<string>, done: seq<string>)
    requires lines != [] && lines[0] == line && Parse(line) == Header(s)
    ensures (done + Flush(p, st)) + [line] + Rewrite(p, Next(p, st, line), lines[1..]) == done + Rewrite(p, st, lines)
  {
    var rest := Rewrite(p, Next(p, st, line), lines[1..]);
    RewriteStep(p, st, lines);
    Associative(done, Flush(p, st), [line]);
    Associative(done, Flush(p, st) + [line], rest);
  }

  /** A branch that appends one line. */
  lemma LineStep(p: Patch, st: Pass, line: string, out: string, lines: seq<string>, done: seq<string>)
    requires lines != [] && lines[0] == line && !Parse(line).Header? && Emit(p, st, line) == [out]
    ensures done + [out] + Rewrite(p, Next(p, st, line), lines[1..]) == done + Rewrite(p, st, lines)
  {
    RewriteStep(p, st, lines);
    Associative(done, [out], Rewrite(p, Next(p, st, line), lines[1..]));
  }

  lemma EndStep(p: Patch, st: Pass, none: seq<string>)
    requires none == []
    ensures Rewrite(p, st, none) == Flush(p, st)
  {}

  method RewriteForSpectator(lines: seq<string>) returns (newLines: seq<string>)
    ensures newLines == Rewrite(SPECTATOR, START, lines)
  {
    newLines := SpectatorPass(PURE_POST_PROCESS, SPECTATOR_VIDEO, lines);
  }

  method SpectatorPass(purePp: Table, videoOverrides: Table, lines: seq<string>) returns (newLines: seq<string>)
    ensures newLines == Rewrite(Patch(purePp, videoOverrides, false), START, lines)
  {
    hide Rewrite, Missing, LStrip, RStrip, Before, Upper;
    ghost var p := Patch(purePp, videoOverrides, false);
    newLines := [];
    var currentSection := Other("");
    var ppWritten: set<string> := {};
    var videoWritten: set<string> := {};
    ghost var st := START;
    assert lines[0..] == lines;
    for i := 0 to |lines|
      invariant st.section == currentSection
      invariant forall k :: k in ppWritten <==> (PostProcess, k) in st.written
      invariant forall k :: k in videoWritten <==> (Video, k) in st.written
      invariant newLines + Rewrite(p, st, lines[i..]) == Rewrite(p, START, lines)
    {
      var line := lines[i];
      var stripped := Strip(line);
      assert lines[i..][0] == line && lines[i..][1..] == lines[i + 1..];
      ghost var before := newLines;
      if stripped != "" && stripped[0] == '[' && stripped[|stripped| - 1] == ']' {
        newLines := LeaveSection(purePp, videoOverrides, currentSection, ppWritten, videoWritten, newLines, st);
        currentSection := SectionNamed(Upper(stripped[1..|stripped| - 1]));
        newLines := newLines + [line];
        HeaderStep(p, st, line, currentSection, lines[i..], before);
        st := Next(p, st, line);
        continue;
      }
      if '=' in stripped {
        var key := Upper(Strip(Before(stripped)));
        if currentSection == PostProcess && key in purePp.value {
          var out := Canon(key, purePp.value[key]);
          newLines := newLines + [out];
          ppWritten := ppWritten + {key};
          LineStep(p, st, line, out, lines[i..], before);
          st := Next(p, st, line);
          continue;
        }
        if currentSection == Video && key in videoOverrides.value {
          var out := Canon(key, videoOverrides.value[key]);
          newLines := newLines + [out];
          videoWritten := videoWritten + {key};
          LineStep(p, st, line, out, lines[i..], before);
          st := Next(p, st, line);
          continue;
        }
      }
      newLines := newLines + [line];
      LineStep(p, st, line, line, lines[i..], before);
      st := Next(p, st, line);
    }
    EndStep(p, st, lines[|lines|..]);
    newLines := LeaveSection(purePp, videoOverrides, currentSection, ppWritten, videoWritten, newLines, st);
  }

  /** The two flushes of the spectator's rewriter, at a header and at the end of the file. */
  method LeaveSection(
    purePp: Table, videoOverrides: Table, currentSection: Section, ppWritten: set<string>, videoWritten: set<string>,
    newLines: seq<string>, ghost st: Pass)
    returns (r: seq<string>)
    requires st.section == currentSection
    requires forall k :: k in ppWritten <==> (PostProcess, k) in st.written
    requires forall k :: k in videoWritten <==> (Video, k) in st.written
    ensures r == newLines + Flush(Patch(purePp, videoOverrides, false), st)
  {
    r := newLines;
    if currentSection == PostProcess {
      r := AppendMissing(purePp, ppWritten, r, st);
    }
    if currentSection == Video {
      r := AppendMissing(videoOverrides, videoWritten, r, st);
    }
  }

  method RewriteForLauncher(lines: seq<string>) returns (newLines: seq<string>)
    ensures newLines == Rewrite(LAUNCHER, START, lines)
  {
    LegacyHdrTable();
    newLines := LauncherPass(PURE_POST_PROCESS, LEGACY_HDR, "DISABLE_LEGACY_HDR", "1", lines);
  }

  /** `legacy` holds the one [VIDEO] override, `dlhdr`. */
  method LauncherPass(purePp: Table, legacy: Table, dlhdr: string, value: string, lines: seq<string>)
    returns (newLines: seq<string>)
    requires legacy.order == [dlhdr] && legacy.value == map[dlhdr := value]
    ensures newLines == Rewrite(Patch(purePp, legacy, true), START, lines)
  {
    hide Rewrite, LStrip, RStrip, Before, Upper;
    ghost var p := Patch(purePp, legacy, true);
    newLines := [];
    var currentSection := Other("");
    var ppWritten: set<string> := {};
    var dlhdrWritten := false;
    ghost var st := START;
    assert lines[0..] == lines;
    for i := 0 to |lines|
      invariant st.section == currentSection
      invariant forall k :: k in ppWritten <==> (PostProcess, k) in st.written
      invariant dlhdrWritten <==> (Video, dlhdr) in st.written
      invariant newLines + Rewrite(p, st, lines[i..]) == Rewrite(p, START, lines)
    {
      var line := lines[i];
      var stripped := Strip(line);
      assert lines[i..][0] == line && lines[i..][1..] == lines[i + 1..];
      ghost var before := newLines;
      if stripped != "" && stripped[0] == '[' && stripped[|stripped| - 1] == ']' {
        newLines := LeaveRigSection(
          purePp, legacy, dlhdr, value, currentSection, ppWritten, dlhdrWritten, newLines, st);
        if currentSection == Video && !dlhdrWritten {
          dlhdrWritten := true;
        }
        currentSection := SectionNamed(Upper(stripped[1..|stripped| - 1]));
        newLines := newLines + [line];
        HeaderStep(p, st, line, currentSection, lines[i..], before);
        st := Next(p, st, line);
        continue;
      }
      if '=' in stripped {
        var key := Upper(Strip(Before(stripped)));
        if currentSection == PostProcess && key in purePp.value {
          var out := Canon(key, purePp.value[key]);
          newLines := newLines + [out];
          ppWritten := ppWritten + {key};
          LineStep(p, st, line, out, lines[i..], before);
          st := Next(p, st, line);
          continue;
        }
        if currentSection == Video && key == dlhdr {
          var out := Canon(dlhdr, value);
          newLines := newLines + [out];
          dlhdrWritten := true;
          LineStep(p, st, line, out, lines[i..], before);
          st := Next(p, st, line);
          continue;
        }
      }
      newLines := newLines + [line];
      LineStep(p, st, line, line, lines[i..], before);
      st := Next(p, st, line);
    }
    EndStep(p, st, lines[|lines|..]);
    newLines := LeaveRigSection(purePp, legacy, dlhdr, value, currentSection, ppWritten, dlhdrWritten, newLines, st);
  }

  /** The two flushes of the launcher's rewriter. */
  method LeaveRigSection(
    purePp: Table, legacy: Table, dlhdr: string, value: string, currentSection: Section, ppWritten: set<string>,
    dlhdrWritten: bool, newLines: seq<string>, ghost st: Pass)
    returns (r: seq<string>)
    requires legacy.order == [dlhdr] && legacy.value == map[dlhdr := value]
    requires st.section == currentSection
    requires forall k :: k in ppWritten <==> (PostProcess, k) in st.written
    requires dlhdrWritten <==> (Video, dlhdr) in st.written
    ensures r == newLines + Flush(Patch(purePp, legacy, true), st)
  {
    r := newLines;
    if currentSection == PostProcess {
      r := AppendMissing(purePp, ppWritten, r, st);
    }
    if currentSection == Video {
      assert legacy.order[1..] == [];
      assert Missing(legacy, legacy.order[1..], st) == [];
      if !dlhdrWritten {
        r := r + [Canon(dlhdr, value)];
      }
    }
  }
}
