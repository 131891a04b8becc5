/** The read-merge-write cycle on apps_visible.ini. */
module AppsVisible {
  import opened PyText
  import opened PySort

  type Apps = map<string, string>

  const DEFAULT_APPS: seq<string> := ["Track Map Display", "Speedometer", "Tyres", "Leaderboard"]

  // ------------------------------------------------------------------
  // Reading
  // ------------------------------------------------------------------

  /** A line that is a setting, and what it sets. */
  predicate IsSetting(line: string) {
    var s := Strip(line);
    '=' in s && s[0] != '['
  }

  function KeyOf(line: string): string {
    Strip(Before(Strip(line)))
  }

  function ValueOf(line: string): string {
    Strip(After(Strip(line)))
  }

  /** The settings of the lines; the last of several for one key counts. */
  function Parse(lines: seq<string>): Apps {
    if lines == [] then map[]
    else
      var n := |lines| - 1;
      var before := Parse(lines[..n]);
      if IsSetting(lines[n]) then before[KeyOf(lines[n]) := ValueOf(lines[n])] else before
  }

  method ReadApps(lines: seq<string>) returns (apps: Apps)
    ensures apps == Parse(lines)
  {
    apps := map[];
    for i := 0 to |lines|
      invariant apps == Parse(lines[..i])
    {
      assert lines[..i + 1][..i] == lines[..i];
      var line := Strip(lines[i]);
      if '=' in line && line[0] != '[' {
        apps := apps[Strip(Before(line)) := Strip(After(line))];
      }
    }
    assert lines[..|lines|] == lines;
  }

  // ------------------------------------------------------------------
  // Merging
  // ------------------------------------------------------------------

  /** The defaults, where nothing is set yet. */
  function Merged(apps: Apps): Apps {
    (map d | d in DEFAULT_APPS :: "1") + apps
  }

  method MergeDefaults(existing: Apps) returns (apps: Apps)
    ensures apps == Merged(existing)
  {
    apps := EnsurePresent(DEFAULT_APPS, existing);
  }

  method EnsurePresent(defaults: seq<string>, existing: Apps) returns (apps: Apps)
    ensures apps == (map d | d in defaults :: "1") + existing
  {
    apps := existing;
    for i := 0 to |defaults|
      invariant apps == (map d | d in defaults[..i] :: "1") + existing
    {
      assert defaults[..i + 1] == defaults[..i] + [defaults[i]];
      if defaults[i] !in apps {
        apps := apps[defaults[i] := "1"];
      }
    }
    assert defaults[..|defaults|] == defaults;
  }

  // ------------------------------------------------------------------
  // Writing
  // ------------------------------------------------------------------

  const SECTION := "[APPS]\n"

  function AppLine(k: string, v: string): string {
    k + "=" + v + "\n"
  }

  /** The settings of `apps` for `keys`, in that order. */
  function Render(keys: seq<string>, apps: Apps): seq<string>
    requires forall k <- keys :: k in apps
  {
    if keys == [] then [] else Render(keys[..|keys| - 1], apps) + [AppLine(keys[|keys| - 1], apps[keys[|keys| - 1]])]
  }

  /** The written file: a header, and the settings sorted by key. */
  ghost predicate IsFileOf(lines: seq<string>, apps: Apps) {
    exists keys: seq<string> ::
      IsSorted(keys) && Elements(keys) == apps.Keys && lines == [SECTION] + Render(keys, apps)
  }

  method WriteApps(apps: Apps) returns (lines: seq<string>)
    ensures IsFileOf(lines, apps)
  {
    var keys := Sort(apps.Keys);
    lines := [SECTION];
    for i := 0 to |keys|
      invariant forall k <- keys :: k in apps
      invariant lines == [SECTION] + Render(keys[..i], apps)
    {
      assert keys[..i + 1][..i] == keys[..i];
      assert keys[i] in Elements(keys);
      lines := lines + [AppLine(keys[i], apps[keys[i]])];
    }
    assert keys[..|keys|] == keys;
    assert IsSorted(keys) && Elements(keys) == apps.Keys && lines == [SECTION] + Render(keys, apps);
  }

  /** One cycle: read, merge, write. */
  method Cycle(lines: seq<string>) returns (r: seq<string>)
    ensures IsFileOf(r, Merged(Parse(lines)))
  {
    var existing := ReadApps(lines);
    var apps := MergeDefaults(existing);
    r := WriteApps(apps);
  }

  // ------------------------------------------------------------------
  // Reading back what was written
  // ------------------------------------------------------------------

  /** What can be a key and a value after reading: trimmed, the key without "=" and not taken for
      a header. */
  predicate IsKey(k: string) {
    Trimmed(k) && '=' !in k && (k != "" ==> k[0] != '[')
  }

  ghost predicate Readable(apps: Apps) {
    forall k <- apps :: IsKey(k) && Trimmed(apps[k])
  }

  lemma BlankHead(lead: string, rest: string)
    requires Blank(lead)
    ensures lead != "" ==> IsSpace((lead + rest)[0])
  {
    assert lead != "" ==> lead[0] in lead;
  }

  lemma ReadIsReadable(line: string)
    requires IsSetting(line)
    ensures IsKey(KeyOf(line)) && Trimmed(ValueOf(line))
  {
    var s := Strip(line);
    var a, b := StripParts(line);
    SplitRejoins(s);
    var c, d := StripParts(Before(s));
    var e, f := StripParts(After(s));
    var k := KeyOf(line);
    if k != "" {
      assert Before(s) != "" && s[0] == Before(s)[0];
      BlankHead(c, k + d);
      assert Before(s) == c + (k + d);
      assert k[0] == s[0];
    }
    assert forall x <- k :: x in Before(s);
  }

  lemma {:induction false} ParseIsReadable(lines: seq<string>)
    ensures Readable(Parse(lines))
  {
    if lines != [] {
      var n := |lines| - 1;
      ParseIsReadable(lines[..n]);
      if IsSetting(lines[n]) {
        ReadIsReadable(lines[n]);
      }
    }
  }

  lemma AppLineReads(k: string, v: string)
    requires IsKey(k) && Trimmed(v)
    ensures IsSetting(AppLine(k, v)) && KeyOf(AppLine(k, v)) == k && ValueOf(AppLine(k, v)) == v
  {
    var s := k + "=" + v;
    assert s[|k|] == '=';
    assert s[0] == if k == "" then '=' else k[0];
    assert s[|s| - 1] == if v == "" then '=' else v[|v| - 1];
    StripTrimmed(s);
    SplitAtEquals(k, v);
    StripTrimmed(k);
    StripTrimmed(v);
  }

  lemma SectionIsNoSetting()
    ensures !IsSetting(SECTION)
  {
    var s := "[APPS]";
    StripTrimmed(s);
    assert s + "\n" == SECTION;
  }

  lemma ParseStep(lines: seq<string>, line: string)
    ensures Parse(lines + [line]) ==
            if IsSetting(line) then Parse(lines)[KeyOf(line) := ValueOf(line)] else Parse(lines)
  {
    assert (lines + [line])[..|lines|] == lines;
  }

  lemma SectionReads(none: seq<string>)
    requires none == []
    ensures Parse(none + [SECTION]) == map[]
  {
    SectionIsNoSetting();
    ParseStep(none, SECTION);
    hide IsSetting, KeyOf, ValueOf;
  }

  lemma {:induction false} RenderReads(keys: seq<string>, apps: Apps)
    requires Readable(apps) && forall k <- keys :: k in apps
    ensures Parse([SECTION] + Render(keys, apps)) == map k | k in keys :: apps[k]
  {
    hide IsSetting, KeyOf, ValueOf, Parse, AppLine, Trimmed, IsKey;
    if keys == [] {
      var none: seq<string> := [];
      SectionReads(none);
      assert [SECTION] + Render(keys, apps) == none + [SECTION];
    } else {
      var n := |keys| - 1;
      var init := [SECTION] + Render(keys[..n], apps);
      var last := AppLine(keys[n], apps[keys[n]]);
      RenderReads(keys[..n], apps);
      AppLineReads(keys[n], apps[keys[n]]);
      ParseStep(init, last);
      Associative([SECTION], Render(keys[..n], apps), [last]);
      assert keys == keys[..n] + [keys[n]];
    }
  }

  /** Reading the written file gives back the map it was written from. */
  lemma FileReadsBack(lines: seq<string>, apps: Apps)
    requires Readable(apps) && IsFileOf(lines, apps)
    ensures Parse(lines) == apps
  {
    var keys: seq<string> :|
      IsSorted(keys) && Elements(keys) == apps.Keys && lines == [SECTION] + Render(keys, apps);
    assert forall k <- keys :: k in Elements(keys);
    RenderReads(keys, apps);
  }

  lemma FileIsUnique(a: seq<string>, b: seq<string>, apps: Apps)
    requires IsFileOf(a, apps) && IsFileOf(b, apps)
    ensures a == b
  {
    var ka: seq<string> :| IsSorted(ka) && Elements(ka) == apps.Keys && a == [SECTION] + Render(ka, apps);
    var kb: seq<string> :| IsSorted(kb) && Elements(kb) == apps.Keys && b == [SECTION] + Render(kb, apps);
    SortIsUnique(ka, kb);
  }

  lemma DefaultsAreReadable()
    ensures forall d <- DEFAULT_APPS :: IsKey(d)
    ensures Trimmed("1")
  {}

  lemma MergedIsReadable(apps: Apps)
    requires Readable(apps)
    ensures Readable(Merged(apps))
  {
    DefaultsAreReadable();
    hide IsKey, Trimmed;
  }

  lemma MergedFacts(apps: Apps)
    ensures Merged(apps).Keys == apps.Keys + Elements(DEFAULT_APPS)
    ensures forall k <- apps :: Merged(apps)[k] == apps[k]
    ensures forall k <- DEFAULT_APPS :: k in Merged(apps) && (k !in apps ==> Merged(apps)[k] == "1")
    ensures Merged(Merged(apps)) == Merged(apps)
  {
    MergeFacts(DEFAULT_APPS, apps);
  }

  lemma MergeFacts(defaults: seq<string>, apps: Apps)
    ensures var m := (map d | d in defaults :: "1") + apps;
            && m.Keys == apps.Keys + Elements(defaults)
            && (forall k <- apps :: m[k] == apps[k])
            && (forall k <- defaults :: k in m && (k !in apps ==> m[k] == "1"))
            && (map d | d in defaults :: "1") + m == m
  {}

  /** The cycle keeps every setting it reads, adds each default that is not there, and adds nothing
      else; a second cycle changes nothing. `once` and `twice` are any files the first and the
      second cycle write. */
  lemma CycleIsIdempotent(lines: seq<string>, once: seq<string>, twice: seq<string>)
    requires IsFileOf(once, Merged(Parse(lines))) && IsFileOf(twice, Merged(Parse(once)))
    ensures twice == once
    ensures Parse(once).Keys == Parse(lines).Keys + Elements(DEFAULT_APPS)
    ensures forall k <- Parse(lines) :: k in Parse(once) && Parse(once)[k] == Parse(lines)[k]
    ensures forall k <- DEFAULT_APPS :: k !in Parse(lines) ==> k in Parse(once) && Parse(once)[k] == "1"
  {
    ParseIsReadable(lines);
    MergedIsReadable(Parse(lines));
    FileReadsBack(once, Merged(Parse(lines)));
    MergedFacts(Parse(lines));
    hide Parse, IsFileOf, Merged;
    FileIsUnique(once, twice, Parse(once));
  }

  // ------------------------------------------------------------------
  // The file between two cycles
  // ------------------------------------------------------------------

  predicate OneLine(apps: Apps) {
    forall k <- apps :: '\n' !in k && '\n' !in apps[k]
  }

  /** A stripped line has no newline in it. */
  lemma StrippedIsOneLine(line: string)
    requires IsLine(line) || '\n' !in line
    ensures '\n' !in Strip(line)
  {
    var a, b := StripParts(line);
    var s := Strip(line);
    forall i | 0 <= i < |s| ensures s[i] != '\n' {
      assert line[|a| + i] == s[i];
      assert i == |s| - 1 ==> !IsSpace(s[i]);
    }
  }

  lemma SettingIsOneLine(line: string)
    requires IsSetting(line) && (IsLine(line) || '\n' !in line)
    ensures '\n' !in KeyOf(line) && '\n' !in ValueOf(line)
  {
    var s := Strip(line);
    StrippedIsOneLine(line);
    SplitRejoins(s);
    var c, d := StripParts(Before(s));
    var e, f := StripParts(After(s));
    assert forall x <- KeyOf(line) :: x in Before(s);
    assert forall x <- ValueOf(line) :: x in After(s);
  }

  lemma {:induction false} ParseIsOneLine(lines: seq<string>)
    requires forall l <- lines :: IsLine(l) || '\n' !in l
    ensures OneLine(Parse(lines))
  {
    if lines != [] {
      var n := |lines| - 1;
      ParseIsOneLine(lines[..n]);
      if IsSetting(lines[n]) {
        SettingIsOneLine(lines[n]);
      }
    }
  }

  lemma {:induction false} RenderIsLines(keys: seq<string>, apps: Apps)
    requires OneLine(apps) && forall k <- keys :: k in apps
    ensures AllLines(Render(keys, apps))
  {
    if keys != [] {
      var n := |keys| - 1;
      RenderIsLines(keys[..n], apps);
      var k := keys[n];
      var l := AppLine(k, apps[k]);
      forall i | 0 <= i < |l| - 1 ensures l[i] != '\n' {
        if i < |k| {
          assert l[i] == k[i];
        } else if i > |k| {
          assert l[i] == apps[k][i - |k| - 1];
        }
      }
    }
  }

  /** Whatever text was read, the file written from it is complete lines, so the next cycle reads
      the very lines this one wrote. */
  lemma WrittenFileRereads(t: string, once: seq<string>)
    requires IsFileOf(once, Merged(Parse(Lines(t))))
    ensures Lines(Text(once)) == once
  {
    var ls, tail := SplitText(t);
    ParseIsOneLine(Lines(t));
    MergedIsOneLine(Parse(Lines(t)));
    FileIsLines(once, Merged(Parse(Lines(t))));
    LinesOfText(once, "");
    hide *;
    assert Text(once) + "" == Text(once);
  }

  lemma FileIsLines(lines: seq<string>, apps: Apps)
    requires OneLine(apps) && IsFileOf(lines, apps)
    ensures AllLines(lines)
  {
    var keys: seq<string> :|
      IsSorted(keys) && Elements(keys) == apps.Keys && lines == [SECTION] + Render(keys, apps);
    assert forall k <- keys :: k in Elements(keys);
    RenderIsLines(keys, apps);
    hide IsSorted, Render;
  }

  lemma MergedIsOneLine(apps: Apps)
    requires OneLine(apps)
    ensures OneLine(Merged(apps))
  {
    DefaultsAreOneLine();
    MergedFacts(apps);
    hide Merged;
  }

  lemma DefaultsAreOneLine()
    ensures forall d <- DEFAULT_APPS :: '\n' !in d
    ensures '\n' !in "1"
  {}
}
