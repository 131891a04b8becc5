/** The rewriters on whole files. A file that ends in a newline is stable after one pass; a file
    that does not can have its last line glued to an appended override, and exactly then a second
    pass changes it again. */
module IniFile {
  import opened PyText
  import opened IniPatch

  /** Read the lines, run one pass, write the lines. */
  function RewriteText(p: Patch, t: string): string {
    Text(Rewrite(p, START, Lines(t)))
  }

  /** The complete lines of a text, and its unterminated last line if it has one. */
  function Body(t: string): seq<string> {
    if Terminated(t) then Lines(t) else BodyAndTail(t).0
  }

  function Tail(t: string): string {
    if Terminated(t) then "" else BodyAndTail(t).1
  }

  function BodyAndTail(t: string): (seq<string>, string)
    requires t != ""
  {
    var ls := Lines(t);
    (ls[..|ls| - 1], ls[|ls| - 1])
  }

  lemma BodyParts(t: string)
    ensures AllLines(Body(t)) && '\n' !in Tail(t) && t == Text(Body(t)) + Tail(t)
    ensures Lines(t) == Body(t) + (if Tail(t) == "" then [] else [Tail(t)])
    ensures Terminated(t) <==> Tail(t) == ""
  {
    var ls, tail := SplitText(t);
    if tail != "" {
      assert (ls + [tail])[..|ls|] == ls;
    } else {
      assert t == Text(ls);
    }
  }

  // ------------------------------------------------------------------
  // Terminated files
  // ------------------------------------------------------------------

  lemma CanonIsLine(t: Table, k: string)
    requires k in t.value
    ensures IsLine(Canon(k, t.value[k]))
  {
    var v := t.value[k];
    var c := Canon(k, v);
    assert IsKey(k) && IsValue(v);
    forall i | 0 <= i < |c| - 1 ensures c[i] != '\n' {
      if i < |k| {
        assert c[i] == k[i];
      } else if i > |k| {
        assert c[i] == v[i - |k| - 1];
      }
    }
  }

  lemma {:induction false} FlushIsLines(t: Table, order: seq<string>, st: Pass)
    requires forall k <- order :: k in t.value
    ensures AllLines(Missing(t, order, st))
  {
    if order != [] {
      CanonIsLine(t, order[0]);
      FlushIsLines(t, order[1..], st);
    }
  }

  lemma {:induction false} EmittedIsLines(p: Patch, st: Pass, lines: seq<string>)
    requires AllLines(lines)
    ensures AllLines(Emitted(p, st, lines))
    decreases |lines|
  {
    if lines != [] {
      assert lines[0] in lines;
      EmitIsLines(p, st, lines[0]);
      EmittedIsLines(p, Next(p, st, lines[0]), lines[1..]);
    }
  }

  lemma EmitIsLines(p: Patch, st: Pass, line: string)
    requires IsLine(line) || Overrides(p, st.section, line)
    ensures AllLines(Emit(p, st, line))
  {
    var t := TableOf(p, st.section);
    FlushIsLines(t, t.order, st);
    if Overrides(p, st.section, line) {
      CanonIsLine(t, Parse(line).key);
    }
  }

  lemma RewriteIsLines(p: Patch, st: Pass, lines: seq<string>)
    requires AllLines(lines)
    ensures AllLines(Rewrite(p, st, lines))
  {
    var r := Reached(p, st, lines);
    EmittedIsLines(p, st, lines);
    FlushIsLines(TableOf(p, r.section), TableOf(p, r.section).order, r);
  }

  lemma LinesOfLines(ls: seq<string>)
    requires AllLines(ls)
    ensures Lines(Text(ls)) == ls
  {
    LinesOfText(ls, "");
    assert Text(ls) + "" == Text(ls);
  }

  lemma CoveredPassCopies(p: Patch, q: Patch, t: string)
    requires Covers(p, q) && Terminated(t)
    ensures Terminated(RewriteText(p, t))
    ensures RewriteText(q, RewriteText(p, t)) == RewriteText(p, t)
  {
    BodyParts(t);
    var out := Rewrite(p, START, Lines(t));
    RewriteIsLines(p, START, Lines(t));
    LinesOfLines(out);
    LinesEndTerminated(out);
    SecondPassCopies(p, q, START, START, Lines(t));
  }

  /** On a file that ends in a newline each rewriter is idempotent, and the launcher leaves a
      file patched by the spectator service as it is. */
  lemma PatchedFileIsStable(t: string)
    requires Terminated(t)
    ensures var s := RewriteText(SPECTATOR, t);
            var l := RewriteText(LAUNCHER, t);
            && RewriteText(SPECTATOR, s) == s
            && RewriteText(LAUNCHER, l) == l
            && RewriteText(LAUNCHER, s) == s
  {
    CoversItself(SPECTATOR);
    CoversItself(LAUNCHER);
    SpectatorCoversLauncher();
    CoveredPassCopies(SPECTATOR, SPECTATOR, t);
    CoveredPassCopies(LAUNCHER, LAUNCHER, t);
    CoveredPassCopies(SPECTATOR, LAUNCHER, t);
  }

  // ------------------------------------------------------------------
  // Any file
  // ------------------------------------------------------------------

  /** Reading from `section`, the lines leave section `s`. */
  predicate Leaves(section: Section, lines: seq<string>, s: Section)
    decreases |lines|
  {
    lines != [] &&
    match Parse(lines[0])
    case Header(n) => section == s || Leaves(n, lines[1..], s)
    case _ => Leaves(section, lines[1..], s)
  }

  /** The pass glues an override to the last line, and loses that override: the last line is
      unterminated, is neither a header nor an override itself, some override of its section is
      still missing, and the line is blank or no earlier stretch of the section holds the override. */
  predicate Glues(p: Patch, t: string) {
    var st := Reached(p, START, Body(t));
    && !Terminated(t)
    && !Parse(Tail(t)).Header?
    && !Overrides(p, st.section, Tail(t))
    && Flush(p, st) != []
    && (Blank(Tail(t)) || !Leaves(START.section, Body(t), st.section))
  }

  /** The first key of `order` that is still missing. */
  function FirstMissingKey(order: seq<string>, st: Pass): Option<string> {
    if order == [] then None
    else if (st.section, order[0]) in st.written then FirstMissingKey(order[1..], st)
    else Some(order[0])
  }

  /** The override that a pass of `p` glues to the last line, and so loses, is one that `q` enforces
      too. */
  predicate GluesFor(p: Patch, q: Patch, t: string) {
    var st := Reached(p, START, Body(t));
    var first := FirstMissingKey(TableOf(p, st.section).order, st);
    Glues(p, t) && first.Some? && first.value in TableOf(q, st.section).value
  }

  /** No key of the table ends in another. */
  ghost predicate SuffixFree(t: Table) {
    forall a, b | a in t.value && b in t.value && |a| < |b| :: b[|b| - |a|..] != a
  }

  /** What the two patches' key names have in common. */
  ghost predicate Distinctive(p: Patch) {
    && SuffixFree(p.postProcess) && SuffixFree(p.video)
    && NoRepeats(p.postProcess.order) && NoRepeats(p.video.order)
    && p.postProcess.value.Keys !! p.video.value.Keys
  }

  // The second pass over what the first wrote for complete lines.

  lemma {:induction false} FlushWritesHere(p: Patch, q: Patch, order: seq<string>, first: Pass, second: Pass)
    requires first.section == second.section
    requires forall k <- order :: k in TableOf(p, first.section).value
    ensures forall s, k | (s, k) in Reached(q, second, Missing(TableOf(p, first.section), order, first)).written ::
              (s, k) in second.written || (s == first.section && k in order)
  {
    if order != [] {
      var t := TableOf(p, first.section);
      TableEntry(t, order[0]);
      if (first.section, order[0]) in first.written {
        FlushWritesHere(p, q, order[1..], first, second);
        assert Missing(t, order, first) == Missing(t, order[1..], first);
      } else {
        var n := Next(q, second, Canon(order[0], t.value[order[0]]));
        FlushWritesHere(p, q, order[1..], first, n);
        assert Missing(t, order, first)[1..] == Missing(t, order[1..], first);
      }
    }
  }

  /** The overrides of `s` the second pass has met: those it had met before, those the first pass
      has written, and all of them once the section has been left. */
  ghost predicate Accounted(q: Patch, second: Pass, first: Pass, after: Pass, left: bool, s: Section) {
    forall k <- TableOf(q, s).value ::
      (s, k) in after.written <==> (s, k) in second.written || (s, k) in first.written || left
  }

  lemma {:induction false} SecondPassMeets(
    p: Patch, q: Patch, first: Pass, second: Pass, lines: seq<string>, s: Section)
    requires Covers(p, q) && Follows(q, first, second)
    ensures var e := Emitted(p, first, lines);
            && Emitted(q, second, e) == e
            && Follows(q, Reached(p, first, lines), Reached(q, second, e))
            && Accounted(q, second, Reached(p, first, lines), Reached(q, second, e), Leaves(first.section, lines, s), s)
    decreases |lines|
  {
    if lines == [] {
      var none: seq<string> := [];
      assert Emitted(p, first, lines) == none;
      assert Emitted(q, second, none) == none && Reached(q, second, none) == second;
    } else {
      var e, n, rest := Emit(p, first, lines[0]), Next(p, first, lines[0]), lines[1..];
      StepCopies(p, q, first, second, lines[0]);
      StepMeets(p, q, first, second, lines[0], s);
      var m := Reached(q, second, e);
      SecondPassMeets(p, q, n, m, rest, s);
      EmittedAppend(q, second, e, Emitted(p, n, rest));
      ReachedAppend(q, second, e, Emitted(p, n, rest));
      WrittenGrows(p, n, rest);
    }
  }

  lemma {:induction false} WrittenGrows(p: Patch, st: Pass, lines: seq<string>)
    ensures st.written <= Reached(p, st, lines).written
    decreases |lines|
  {
    if lines != [] {
      WrittenGrows(p, Next(p, st, lines[0]), lines[1..]);
    }
  }

  lemma StepMeets(p: Patch, q: Patch, first: Pass, second: Pass, line: string, s: Section)
    requires Covers(p, q) && Follows(q, first, second)
    ensures Accounted(q, second, Next(p, first, line), Reached(q, second, Emit(p, first, line)),
                      Parse(line).Header? && first.section == s, s)
  {
    hide Parse, Canon, Emitted, Reached, Missing;
    match Parse(line)
    case Header(_) =>
      var f := Flush(p, first);
      AfterFlush(p, q, first, second);
      FlushWritesHere(p, q, TableOf(p, first.section).order, first, second);
      ReachedAppend(q, second, f, [line]);
      OneLine(q, Reached(q, second, f), line);
    case Setting(k, _) =>
      var t := TableOf(p, first.section);
      if k in t.value {
        TableEntry(t, k);
        OneLine(q, second, Canon(k, t.value[k]));
      } else {
        OneLine(q, second, line);
      }
    case Plain =>
      OneLine(q, second, line);
  }

  // The glued line.

  lemma {:induction false} BeforeAppend(a: string, b: string)
    requires '=' in a
    ensures Before(a + b) == Before(a)
  {
    if a[0] != '=' {
      assert a == [a[0]] + a[1..];
      BeforeAppend(a[1..], b);
      assert (a + b)[1..] == a[1..] + b;
    }
  }

  lemma GluedEnds(l: string, k: string, v: string)
    requires l != "" && !IsSpace(l[0]) && v != "" && !IsSpace(v[|v| - 1])
    ensures var w := l + k + "=" + v;
            Trimmed(w) && w != "" && l + Canon(k, v) == w + "\n"
  {
    var w := l + k + "=" + v;
    assert w[0] == l[0] && w[|w| - 1] == v[|v| - 1];
  }

  /** `strip()` of a line with an override glued to it. */
  lemma StripGlued(tail: string, k: string, v: string)
    requires IsValue(v) && !Blank(tail)
    ensures LStrip(tail) != "" && !IsSpace(LStrip(tail)[0])
    ensures Strip(tail + Canon(k, v)) == LStrip(tail) + k + "=" + v
  {
    var lead := LStripParts(tail);
    LStripAppend(tail, Canon(k, v));
    ValueIsPlain(v);
    GluedEnds(LStrip(tail), k, v);
    RStripNewline(LStrip(tail) + k + "=" + v);
  }

  /** The key the glued line has. */
  function GluedKey(tail: string, k: string): string {
    if '=' in tail then Upper(Strip(Before(LStrip(tail)))) else Upper(LStrip(tail)) + k
  }

  lemma JoinedKey(l: string, k: string)
    requires l != "" && !IsSpace(l[0]) && IsKey(k)
    ensures Upper(Strip(l + k)) == Upper(l) + k
  {
    KeyIsPlain(k);
    assert (l + k)[0] == l[0] && (l + k)[|l + k| - 1] == k[|k| - 1];
    StripTrimmed(l + k);
    assert Upper(l + k) == Upper(l) + Upper(k);
  }

  lemma GluedParses(tail: string, k: string, v: string)
    requires IsKey(k) && IsValue(v) && !Blank(tail)
    ensures Parse(tail + Canon(k, v)).Setting? && Parse(tail + Canon(k, v)).key == GluedKey(tail, k)
  {
    var l := LStrip(tail);
    StripGlued(tail, k, v);
    ValueIsPlain(v);
    KeyIsPlain(k);
    var w := l + k + "=" + v;
    assert w[|w| - 1] == v[|v| - 1];
    assert w[|l| + |k|] == '=';
    var lead := LStripParts(tail);
    if '=' in tail {
      assert '=' in l;
      BeforeAppend(l, k + "=" + v);
      assert w == l + (k + "=" + v);
    } else {
      SplitAtEquals(l + k, v);
      JoinedKey(l, k);
    }
  }

  /** A line that is neither a header nor an override does not become an override by having one
      glued to it, unless it is blank. */
  lemma GluedIsForeign(t: Table, tail: string, k: string)
    requires SuffixFree(t) && k in t.value && !Blank(tail)
    requires !Parse(tail).Header? && !(Parse(tail).Setting? && Parse(tail).key in t.value)
    ensures GluedKey(tail, k) !in t.value
  {
    var l := LStrip(tail);
    var lead := LStripParts(tail);
    var trail := RStripParts(l);
    LStripAppend(tail, "");
    assert tail + "" == tail;
    if '=' in tail {
      assert '=' in l;
      assert '=' in RStrip(l) || '=' in trail;
      BeforeAppend(RStrip(l), trail);
    } else {
      var g := Upper(l) + k;
      assert |g| > |k| && g[|g| - |k|..] == k;
    }
  }

  lemma StripKeepsHead(s: string)
    requires s != "" && !IsSpace(s[0])
    ensures Strip(s) != "" && Strip(s)[0] == s[0]
  {
    assert s[0] in s;
    var trail := RStripParts(s);
  }

  /** Nor does a header. */
  lemma GluedHeaderIsForeign(t: Table, tail: string, k: string)
    requires Parse(tail).Header?
    ensures !Blank(tail) && GluedKey(tail, k) !in t.value
  {
    var l := LStrip(tail);
    var lead := LStripParts(tail);
    var trail := RStripParts(l);
    assert l[0] == '[';
    assert l[0] in tail;
    var g := GluedKey(tail, k);
    if '=' in tail {
      var b := Before(l);
      assert b != "" && b[0] == '[';
      StripKeepsHead(b);
    }
    assert g[0] == '[';
    assert !IsKey(g) by { assert !IsKeyChar(g[0]); }
  }

  lemma BlankGlued(tail: string, k: string, v: string)
    requires IsKey(k) && IsValue(v) && Blank(tail)
    ensures Parse(tail + Canon(k, v)) == Setting(k, v)
  {
    LStripAppend(tail, Canon(k, v));
    CanonParses(k, v);
  }

  // ------------------------------------------------------------------
  // When a second pass changes nothing
  // ------------------------------------------------------------------

  /** The first pass over a file with an unterminated last line. */
  lemma FirstPass(p: Patch, t: string)
    requires !Terminated(t)
    ensures var st := Reached(p, START, Body(t));
            Rewrite(p, START, Lines(t)) ==
            Emitted(p, START, Body(t)) + (Emit(p, st, Tail(t)) + Flush(p, Next(p, st, Tail(t))))
  {
    BodyParts(t);
    var st := Reached(p, START, Body(t));
    RewriteAppend(p, START, Body(t), [Tail(t)]);
    OneLine(p, st, Tail(t));
  }

  lemma TerminatedLines(lines: seq<string>, tail: string)
    requires AllLines(lines) && '\n' !in tail && tail != ""
    ensures Lines(Text(lines + [tail])) == lines + [tail]
  {
    TextAppend(lines, [tail]);
    TextOne(tail);
    LinesOfText(lines, tail);
  }

  lemma GluedText(lines: seq<string>, tail: string, f: seq<string>)
    requires f != []
    ensures Text(lines + ([tail] + f)) == Text(lines) + (tail + Text(f))
    ensures Text(lines + ([tail + f[0]] + f[1..])) == Text(lines) + (tail + Text(f))
  {
    TextAppend(lines, [tail] + f);
    TextAppend([tail], f);
    TextOne(tail);
    var first := [tail + f[0]];
    TextAppend(lines, first + f[1..]);
    TextAppend(first, f[1..]);
    TextOne(tail + f[0]);
    Associative(tail, f[0], Text(f[1..]));
  }

  lemma GluedIsLine(tail: string, l: string)
    requires '\n' !in tail && IsLine(l)
    ensures IsLine(tail + l)
  {
    assert forall i | 0 <= i < |tail + l| - 1 :: (tail + l)[i] == if i < |tail| then tail[i] else l[i - |tail|];
  }

  /** Lines written after an unterminated one begin by completing it. */
  lemma GluedLines(lines: seq<string>, tail: string, f: seq<string>)
    requires AllLines(lines) && AllLines(f) && '\n' !in tail && f != []
    ensures Lines(Text(lines + ([tail] + f))) == lines + ([tail + f[0]] + f[1..])
  {
    GluedText(lines, tail, f);
    GluedIsLine(tail, f[0]);
    LinesOfLines(lines + ([tail + f[0]] + f[1..]));
  }

  /** If the pass writes lines that read back as they are, a second pass copies them. */
  lemma StableWhenLinesSurvive(p: Patch, q: Patch, t: string)
    requires Covers(p, q) && Lines(RewriteText(p, t)) == Rewrite(p, START, Lines(t))
    ensures RewriteText(q, RewriteText(p, t)) == RewriteText(p, t)
  {
    SecondPassCopies(p, q, START, START, Lines(t));
  }

  lemma NothingAfter(a: seq<string>, b: seq<string>)
    requires b == []
    ensures a + b == a
  {}

  /** Unless overrides are appended to an unterminated last line, the lines written read back as
      they are. */
  lemma UngluedLines(p: Patch, t: string)
    requires !Terminated(t)
    requires var st := Reached(p, START, Body(t));
             Overrides(p, st.section, Tail(t)) || Flush(p, Next(p, st, Tail(t))) == []
    ensures Lines(RewriteText(p, t)) == Rewrite(p, START, Lines(t))
  {
    hide Parse;
    BodyParts(t);
    FirstPass(p, t);
    var st := Reached(p, START, Body(t));
    var e, tail := Emitted(p, START, Body(t)), Tail(t);
    var n := Next(p, st, tail);
    EmittedIsLines(p, START, Body(t));
    FlushIsLines(TableOf(p, st.section), TableOf(p, st.section).order, st);
    FlushIsLines(TableOf(p, n.section), TableOf(p, n.section).order, n);
    if Overrides(p, st.section, tail) {
      EmitIsLines(p, st, tail);
      LinesOfLines(e + (Emit(p, st, tail) + Flush(p, n)));
    } else if Parse(tail).Header? {
      TerminatedLines(e + Flush(p, st), tail);
      Associative(e, Flush(p, st), [tail]);
      NothingAfter(Flush(p, st) + [tail], Flush(p, n));
    } else {
      TerminatedLines(e, tail);
      NothingAfter([tail], Flush(p, n));
    }
  }

  /** Overrides of one section are copied when read in another: there they mean nothing. */
  lemma {:induction false} ForeignLines(p: Patch, q: Patch, order: seq<string>, first: Pass, second: Pass)
    requires forall k <- order :: k in TableOf(p, first.section).value && k !in TableOf(q, second.section).value
    ensures var f := Missing(TableOf(p, first.section), order, first);
            Emitted(q, second, f) == f && Reached(q, second, f) == second
  {
    if order != [] {
      var t := TableOf(p, first.section);
      TableEntry(t, order[0]);
      ForeignLines(p, q, order[1..], first, second);
      if (first.section, order[0]) in first.written {
        assert Missing(t, order, first) == Missing(t, order[1..], first);
      } else {
        assert Missing(t, order, first)[1..] == Missing(t, order[1..], first);
      }
    }
  }

  /** The first missing override, and the ones after it. */
  lemma {:induction false} FirstMissing(t: Table, order: seq<string>, st: Pass) returns (i: nat)
    requires forall k <- order :: k in t.value
    requires Missing(t, order, st) != []
    ensures i < |order| && (st.section, order[i]) !in st.written
    ensures forall j | 0 <= j < i :: (st.section, order[j]) in st.written
    ensures FirstMissingKey(order, st) == Some(order[i])
    ensures Missing(t, order, st) == [Canon(order[i], t.value[order[i]])] + Missing(t, order[i + 1..], st)
  {
    if (st.section, order[0]) !in st.written {
      i := 0;
    } else {
      assert Missing(t, order, st) == Missing(t, order[1..], st);
      var j := FirstMissing(t, order[1..], st);
      i := j + 1;
      assert order[1..][j + 1..] == order[i + 1..];
      assert forall m | 0 < m < i :: order[m] == order[1..][m - 1];
    }
  }

  lemma {:induction false} SomethingMissing(t: Table, order: seq<string>, st: Pass, k: string)
    requires forall k <- order :: k in t.value
    requires k in order && (st.section, k) !in st.written
    ensures Text(Missing(t, order, st)) != ""
  {
    if (st.section, order[0]) in st.written {
      assert Missing(t, order, st) == Missing(t, order[1..], st);
      SomethingMissing(t, order[1..], st, k);
    } else {
      assert Missing(t, order, st)[0] == Canon(order[0], t.value[order[0]]);
    }
  }

  /** The second pass over the glued line, when that line means nothing to it, and over the rest
      of the flush, when that is copied. */
  lemma GluedPass(p: Patch, second: Pass, g: string, f: seq<string>)
    requires !Parse(g).Header? && !Overrides(p, second.section, g)
    requires Emitted(p, second, f) == f
    ensures Rewrite(p, second, [g] + f) == ([g] + f) + Flush(p, Reached(p, second, f))
  {
    OneLine(p, second, g);
    RewriteAppend(p, second, [g], f);
    Associative([g], f, Flush(p, Reached(p, second, f)));
  }

  /** A header that a flush is glued to costs nothing more on the second pass: its section is gone. */
  lemma HeaderGlued(p: Patch, q: Patch, t: string)
    requires Distinctive(p) && Covers(p, q) && !Terminated(t) && Parse(Tail(t)).Header?
    requires Flush(p, Next(p, Reached(p, START, Body(t)), Tail(t))) != []
    ensures RewriteText(q, RewriteText(p, t)) == RewriteText(p, t)
  {
    hide Parse;
    BodyParts(t);
    FirstPass(p, t);
    var st := Reached(p, START, Body(t));
    var e, tail, leave := Emitted(p, START, Body(t)), Tail(t), Flush(p, st);
    var n := Next(p, st, tail);
    var tbl := TableOf(p, n.section);
    var f := Flush(p, n);
    // What was written, and how it reads back.
    Associative(e, leave, [tail] + f);
    Associative(leave, [tail], f);
    EmittedIsLines(p, START, Body(t));
    FlushIsLines(TableOf(p, st.section), TableOf(p, st.section).order, st);
    FlushIsLines(tbl, tbl.order, n);
    GluedLines(e + leave, tail, f);
    GluedText(e + leave, tail, f);
    // The second pass.
    SecondPassMeets(p, q, START, START, Body(t), st.section);
    var r := Reached(q, START, e);
    AfterFlush(p, q, st, r);
    EmittedAppend(q, START, e, leave);
    ReachedAppend(q, START, e, leave);
    HeaderTail(p, q, n, Reached(q, START, e + leave), tail);
    RewriteAppend(q, START, e + leave, [tail + f[0]] + f[1..]);
  }

  /** The second pass over a header with a flush glued to it, in the section before that header. */
  lemma HeaderTail(p: Patch, q: Patch, n: Pass, s2: Pass, tail: string)
    requires Distinctive(p) && Covers(p, q) && Parse(tail).Header? && Flush(p, n) != []
    requires forall k <- TableOf(q, s2.section).value :: (s2.section, k) in s2.written
    ensures var f := Flush(p, n);
            Rewrite(q, s2, [tail + f[0]] + f[1..]) == [tail + f[0]] + f[1..]
  {
    hide Parse, Emitted, Reached, Canon, SuffixFree, NoRepeats, Blank;
    var tbl, f := TableOf(p, n.section), Flush(p, n);
    var i := FirstMissing(tbl, tbl.order, n);
    var k, rest := tbl.order[i], tbl.order[i + 1..];
    GluedHeaderIsForeign(TableOf(q, s2.section), tail, k);
    GluedParses(tail, k, tbl.value[k]);
    if n.section == s2.section {
      FlushPasses(p, q, rest, n, s2);
    } else {
      assert forall m <- TableOf(q, s2.section).value :: m in TableOf(p, s2.section).value;
      ForeignLines(p, q, rest, n, s2);
    }
    assert f[1..] == Missing(tbl, rest, n);
    GluedPass(q, s2, tail + f[0], f[1..]);
    var s3 := Reached(q, s2, f[1..]);
    NothingMissing(TableOf(q, s3.section), TableOf(q, s3.section).order, s3);
    NothingAfter([tail + f[0]] + f[1..], Flush(q, s3));
  }

  /** Both passes over a file whose last line a flush is glued to. */
  lemma GluedFile(p: Patch, q: Patch, t: string)
    requires Covers(p, q) && !Terminated(t) && !Parse(Tail(t)).Header?
    requires var st := Reached(p, START, Body(t));
             !Overrides(p, st.section, Tail(t)) && Flush(p, st) != []
    ensures var st := Reached(p, START, Body(t));
            var e, f := Emitted(p, START, Body(t)), Flush(p, st);
            var glued := [Tail(t) + f[0]] + f[1..];
            var s2 := Reached(q, START, e);
            && RewriteText(p, t) == Text(e) + (Tail(t) + Text(f))
            && RewriteText(p, t) == Text(e + glued)
            && RewriteText(q, RewriteText(p, t)) == Text(e + Rewrite(q, s2, glued))
            && Follows(q, st, s2)
            && Accounted(q, START, st, s2, Leaves(START.section, Body(t), st.section), st.section)
  {
    BodyParts(t);
    FirstPass(p, t);
    var st := Reached(p, START, Body(t));
    var e, tail, f := Emitted(p, START, Body(t)), Tail(t), Flush(p, st);
    assert Next(p, st, tail) == st && Emit(p, st, tail) == [tail];
    hide Parse;
    EmittedIsLines(p, START, Body(t));
    FlushIsLines(TableOf(p, st.section), TableOf(p, st.section).order, st);
    GluedLines(e, tail, f);
    GluedText(e, tail, f);
    SecondPassMeets(p, q, START, START, Body(t), st.section);
    RewriteAppend(q, START, e, [tail + f[0]] + f[1..]);
  }

  /** Any other line that a flush is glued to. */
  lemma LineGlued(p: Patch, q: Patch, t: string)
    requires Distinctive(p) && Covers(p, q) && !Terminated(t) && !Parse(Tail(t)).Header?
    requires var st := Reached(p, START, Body(t));
             !Overrides(p, st.section, Tail(t)) && Flush(p, st) != []
    ensures var st := Reached(p, START, Body(t));
            var k := FirstMissingKey(TableOf(p, st.section).order, st);
            RewriteText(q, RewriteText(p, t)) == RewriteText(p, t) <==>
            !(k.Some? && k.value in TableOf(q, st.section).value &&
              (Blank(Tail(t)) || !Leaves(START.section, Body(t), st.section)))
  {
    hide Parse, RewriteText, Rewrite, Flush, Emitted, Reached, Body, Tail, Leaves, Text, FirstMissingKey, Blank;
    hide Terminated, Overrides, Accounted, Follows, BeginsAt, Covers, Distinctive, Missing, IsTable;
    GluedFile(p, q, t);
    BodyParts(t);
    var st := Reached(p, START, Body(t));
    var e, tail, f := Emitted(p, START, Body(t)), Tail(t), Flush(p, st);
    var s2 := Reached(q, START, e);
    var i := FlushBegins(p, st);
    var k := TableOf(p, st.section).order[i];
    var glued := [tail + f[0]] + f[1..];
    if Blank(tail) && k in TableOf(q, st.section).value {
      BlankTail(p, q, st, s2, tail, i);
      TextAppend(e, f);
      assert |tail + Text(f)| > |Text(f)|;
    } else {
      CopiedTail(p, q, st, s2, tail, i, Leaves(START.section, Body(t), st.section));
      var left := Flush(q, Reached(q, s2, f[1..]));
      Associative(e, glued, left);
      TextAppend(e + glued, left);
    }
  }

  /** `i` is the place of the first override that the flush writes. */
  ghost predicate BeginsAt(p: Patch, st: Pass, i: nat) {
    var tbl := TableOf(p, st.section);
    && i < |tbl.order| && (st.section, tbl.order[i]) !in st.written
    && (forall j | 0 <= j < i :: (st.section, tbl.order[j]) in st.written)
    && Flush(p, st) == [Canon(tbl.order[i], tbl.value[tbl.order[i]])] + Missing(tbl, tbl.order[i + 1..], st)
  }

  lemma FlushBegins(p: Patch, st: Pass) returns (i: nat)
    requires Flush(p, st) != []
    ensures BeginsAt(p, st, i)
    ensures FirstMissingKey(TableOf(p, st.section).order, st) == Some(TableOf(p, st.section).order[i])
  {
    i := FirstMissing(TableOf(p, st.section), TableOf(p, st.section).order, st);
  }

  /** After the overrides behind the first the second pass has met all but the first. */
  lemma RestMet(p: Patch, q: Patch, st: Pass, second: Pass, i: nat)
    requires Covers(p, q) && Follows(q, st, second) && BeginsAt(p, st, i)
    ensures var tbl := TableOf(p, st.section);
            var rest := Missing(tbl, tbl.order[i + 1..], st);
            var after := Reached(q, second, rest);
            && Flush(p, st)[1..] == rest
            && Emitted(q, second, rest) == rest
            && after.section == st.section && second.written <= after.written
            && (forall m <- TableOf(q, st.section).value | m != tbl.order[i] :: (st.section, m) in after.written)
  {
    var tbl := TableOf(p, st.section);
    var order := tbl.order[i + 1..];
    FlushPasses(p, q, order, st, second);
    var after := Reached(q, second, Missing(tbl, order, st));
    forall m <- TableOf(q, st.section).value | m != tbl.order[i] ensures (st.section, m) in after.written {
      assert m in tbl.value;
      var j :| 0 <= j < |tbl.order| && tbl.order[j] == m;
      assert j > i ==> order[j - i - 1] == m;
    }
  }

  /** A blank last line vanishes into the override glued to it, if the second pass enforces that
      override. */
  lemma BlankTail(p: Patch, q: Patch, st: Pass, s2: Pass, tail: string, i: nat)
    requires Covers(p, q) && Follows(q, st, s2) && BeginsAt(p, st, i) && Blank(tail)
    requires TableOf(p, st.section).order[i] in TableOf(q, st.section).value
    ensures var f := Flush(p, st);
            Rewrite(q, s2, [tail + f[0]] + f[1..]) == f
  {
    hide Parse;
    var tbl, f := TableOf(p, st.section), Flush(p, st);
    var k, g := tbl.order[i], tail + f[0];
    TableEntry(tbl, k);
    BlankGlued(tail, k, tbl.value[k]);
    OneLine(q, s2, g);
    RewriteAppend(q, s2, [g], f[1..]);
    var s3 := Next(q, s2, g);
    RestMet(p, q, st, s3, i);
    var s4 := Reached(q, s3, f[1..]);
    NothingMissing(TableOf(q, s4.section), TableOf(q, s4.section).order, s4);
    NothingAfter(f[1..], Flush(q, s4));
  }

  /** Any other last line is copied with the override in it. The override is then missing, unless
      the second pass does not enforce it or an earlier stretch of the section holds it. */
  lemma CopiedTail(p: Patch, q: Patch, st: Pass, s2: Pass, tail: string, i: nat, left: bool)
    requires Distinctive(p) && Covers(p, q) && Follows(q, st, s2) && BeginsAt(p, st, i)
    requires !Blank(tail) || TableOf(p, st.section).order[i] !in TableOf(q, st.section).value
    requires !Parse(tail).Header? && !Overrides(p, st.section, tail)
    requires Accounted(q, START, st, s2, left, st.section)
    ensures var f, k := Flush(p, st), TableOf(p, st.section).order[i];
            var glued := [tail + f[0]] + f[1..];
            && Rewrite(q, s2, glued) == glued + Flush(q, Reached(q, s2, f[1..]))
            && (Text(Flush(q, Reached(q, s2, f[1..]))) == "" <==> left || k !in TableOf(q, st.section).value)
  {
    hide Parse;
    var tbl, f := TableOf(p, st.section), Flush(p, st);
    var k := tbl.order[i];
    GluedMeansNothing(p, q, st.section, tail, k);
    RestMet(p, q, st, s2, i);
    GluedPass(q, s2, tail + f[0], f[1..]);
    StillMissing(p, q, st, s2, i, left);
  }

  lemma GluedMeansNothing(p: Patch, q: Patch, section: Section, tail: string, k: string)
    requires Distinctive(p) && Covers(p, q) && k in TableOf(p, section).value
    requires !Parse(tail).Header? && !Overrides(p, section, tail)
    requires !Blank(tail) || k !in TableOf(q, section).value
    ensures var g := tail + Canon(k, TableOf(p, section).value[k]);
            !Parse(g).Header? && !Overrides(q, section, g)
  {
    hide Parse;
    var tbl := TableOf(p, section);
    TableEntry(tbl, k);
    if Blank(tail) {
      BlankGlued(tail, k, tbl.value[k]);
    } else {
      GluedIsForeign(tbl, tail, k);
      GluedParses(tail, k, tbl.value[k]);
    }
  }

  /** What the second pass still has to append after copying all but the first missing override. */
  lemma StillMissing(p: Patch, q: Patch, st: Pass, s2: Pass, i: nat, left: bool)
    requires Distinctive(p) && Covers(p, q) && Follows(q, st, s2) && BeginsAt(p, st, i)
    requires Accounted(q, START, st, s2, left, st.section)
    ensures var tbl, f := TableOf(p, st.section), Flush(p, st);
            Text(Flush(q, Reached(q, s2, f[1..]))) == "" <==>
            left || tbl.order[i] !in TableOf(q, st.section).value
  {
    hide Parse, Emitted, Reached, Canon, Missing, SuffixFree, Covers;
    var tbl := TableOf(p, st.section);
    var k, rest := tbl.order[i], tbl.order[i + 1..];
    RestMet(p, q, st, s2, i);
    FlushWritesHere(p, q, rest, st, s2);
    var qt, s4 := TableOf(q, st.section), Reached(q, s2, Missing(tbl, rest, st));
    if left || k !in qt.value {
      NothingMissing(qt, qt.order, s4);
    } else {
      assert k !in rest by {
        assert NoRepeats(tbl.order);
        assert forall j | 0 <= j < |rest| :: rest[j] == tbl.order[i + 1 + j];
      }
      SomethingMissing(qt, qt.order, s4, k);
    }
  }

  /** A pass of `q` over a file that `p` has patched, and covers, changes it if and only if the pass
      of `p` glued an override of `q` to the file's last line. */
  lemma StableIff(p: Patch, q: Patch, t: string)
    requires Distinctive(p) && Covers(p, q)
    ensures RewriteText(q, RewriteText(p, t)) == RewriteText(p, t) <==> !GluesFor(p, q, t)
  {
    if Terminated(t) {
      CoveredPassCopies(p, q, t);
    } else {
      var st := Reached(p, START, Body(t));
      var tail := Tail(t);
      if Overrides(p, st.section, tail) || Flush(p, Next(p, st, tail)) == [] {
        UngluedLines(p, t);
        StableWhenLinesSurvive(p, q, t);
      } else if Parse(tail).Header? {
        HeaderGlued(p, q, t);
      } else {
        assert Next(p, st, tail) == st;
        LineGlued(p, q, t);
      }
    }
  }

  /** What a rewriter glues it enforces itself. */
  lemma GluesForItself(p: Patch, t: string)
    ensures GluesFor(p, p, t) <==> Glues(p, t)
  {
    if Glues(p, t) {
      var i := FlushBegins(p, Reached(p, START, Body(t)));
    }
  }

  // ------------------------------------------------------------------
  // The two rewriters
  // ------------------------------------------------------------------

  /** A number for each override key that its last three letters determine. */
  function Rank(k: string): int {
    if |k| < 3 then -1
    else
      var z := (k[|k| - 3], k[|k| - 2], k[|k| - 1]);
      if z == ('D', 'O', 'F') then 0
      else if z == ('L', 'E', 'D') then 1
      else if z == ('T', 'E', 'R') then 2
      else if z == ('X', 'A', 'A') then 3
      else if z == ('A', 'R', 'E') then 4
      else if z == ('M', 'E', 'R') then 5
      else if z == ('I', 'T', 'Y') then 6
      else if z == ('G', 'O', 'D') then 7
      else if z == ('I', 'Z', 'E') then 8
      else if z == ('Z', 'E', '2') then 9
      else if z == ('Z', 'E', '3') then 10
      else if z == ('I', 'O', 'N') then 11
      else if z == ('N', 'C', 'E') then 12
      else if z == ('L', 'U', 'R') then 13
      else if z == ('E', 'L', 'D') then 14
      else if z == ('P', 'I', 'C') then 15
      else if z == ('D', 'T', 'H') then 16
      else if z == ('G', 'H', 'T') then 17
      else if z == ('E', 'E', 'N') then 18
      else if z == ('E', 'S', 'S') then 19
      else if z == ('H', 'D', 'R') then 20
      else -1
  }

  /** The keys of `t` are numbered from `low` on, in order. */
  ghost predicate Ranked(t: Table, low: nat) {
    forall i | 0 <= i < |t.order| :: Rank(t.order[i]) == low + i
  }

  lemma RankOfSuffix(b: string, n: nat)
    requires 3 <= n <= |b|
    ensures Rank(b[|b| - n..]) == Rank(b)
  {
    var end := b[|b| - n..];
    assert end[n - 3] == b[|b| - 3] && end[n - 2] == b[|b| - 2] && end[n - 1] == b[|b| - 1];
  }

  lemma RankPlace(t: Table, low: nat, k: string) returns (i: nat)
    requires Ranked(t, low) && k in t.value
    ensures i < |t.order| && t.order[i] == k && Rank(k) == low + i && |k| >= 3
  {
    i :| 0 <= i < |t.order| && t.order[i] == k;
  }

  lemma RankedIsSuffixFree(t: Table, low: nat)
    requires Ranked(t, low)
    ensures SuffixFree(t)
  {
    forall a, b | a in t.value && b in t.value && |a| < |b| ensures b[|b| - |a|..] != a {
      NotASuffix(t, low, a, b);
    }
  }

  lemma NotASuffix(t: Table, low: nat, a: string, b: string)
    requires Ranked(t, low) && a in t.value && b in t.value && |a| < |b|
    ensures b[|b| - |a|..] != a
  {
    hide Rank, IsTable;
    var i := RankPlace(t, low, a);
    var j := RankPlace(t, low, b);
    RankOfSuffix(b, |a|);
  }

  lemma RankedHasNoRepeats(t: Table, low: nat)
    requires Ranked(t, low)
    ensures NoRepeats(t.order)
  {
    forall i, j | 0 <= i < j < |t.order| ensures t.order[i] != t.order[j] {
      assert Rank(t.order[i]) != Rank(t.order[j]);
    }
  }

  lemma WithIsRanked(t: Table, e: Entry, low: nat)
    requires Ranked(t, low) && Rank(e.0) == low + |t.order|
    ensures Ranked(With(t, e), low) && |With(t, e).order| == |t.order| + 1
  {
    hide Rank;
  }

  lemma {:induction false} DictionaryIsRanked(entries: seq<Entry>, n: nat, low: nat)
    requires n <= |entries| && forall i | 0 <= i < n :: Rank(entries[i].0) == low + i
    ensures Ranked(Dictionary(entries, n), low) && |Dictionary(entries, n).order| == n
  {
    hide Rank, IsTable, With;
    if n > 0 {
      DictionaryIsRanked(entries, n - 1, low);
      WithIsRanked(Dictionary(entries, n - 1), entries[n - 1], low);
    }
  }

  lemma PureRanks()
    ensures Rank("DOF") == 0
    ensures Rank("ENABLED") == 1
    ensures Rank("FILTER") == 2
    ensures Rank("FXAA") == 3
    ensures Rank("GLARE") == 4
    ensures Rank("HEAT_SHIMMER") == 5
    ensures Rank("QUALITY") == 6
    ensures Rank("RAYS_OF_GOD") == 7
  {}

  lemma ShadowRanks()
    ensures Rank("SHADOW_MAP_SIZE") == 8
    ensures Rank("SHADOW_MAP_SIZE2") == 9
    ensures Rank("SHADOW_MAP_SIZE3") == 10
    ensures Rank("REFLECTION_RESOLUTION") == 11
    ensures Rank("REFLECTION_DISTANCE") == 12
  {}

  lemma ScreenRanks()
    ensures Rank("MOTION_BLUR") == 13
    ensures Rank("DEPTH_OF_FIELD") == 14
    ensures Rank("ANISOTROPIC") == 15
    ensures Rank("WIDTH") == 16
    ensures Rank("HEIGHT") == 17
    ensures Rank("FULLSCREEN") == 18
    ensures Rank("BORDERLESS") == 19
    ensures Rank("DISABLE_LEGACY_HDR") == 20
  {}

  lemma PureIsRanked()
    ensures Ranked(PURE_POST_PROCESS, 0) && |PURE_POST_PROCESS.order| == 8
  {
    PureRanks();
    DictionaryIsRanked(PURE_ENTRIES, 8, 0);
  }

  lemma VideoIsRanked()
    ensures Ranked(SPECTATOR_VIDEO, 8)
  {
    ShadowRanks();
    ScreenRanks();
    DictionaryIsRanked(VIDEO_ENTRIES, 13, 8);
  }

  lemma LegacyIsRanked()
    ensures Ranked(LEGACY_HDR, 20)
  {
    ScreenRanks();
    DictionaryIsRanked(LEGACY_ENTRIES, 1, 20);
  }

  lemma Apart(pure: Table, video: Table, low: nat)
    requires Ranked(pure, 0) && Ranked(video, low) && |pure.order| <= low
    ensures Distinctive(Patch(pure, video, true)) && Distinctive(Patch(pure, video, false))
  {
    RankedIsSuffixFree(pure, 0);
    RankedIsSuffixFree(video, low);
    RankedHasNoRepeats(pure, 0);
    RankedHasNoRepeats(video, low);
    forall k | k in pure.value && k in video.value ensures false {
      var i := RankPlace(pure, 0, k);
      var j := RankPlace(video, low, k);
    }
  }

  lemma PatchesAreDistinctive()
    ensures Distinctive(SPECTATOR) && Distinctive(LAUNCHER)
  {
    hide Rank, Dictionary, IsTable, Distinctive;
    PureIsRanked();
    VideoIsRanked();
    LegacyIsRanked();
    Apart(PURE_POST_PROCESS, SPECTATOR_VIDEO, 8);
    Apart(PURE_POST_PROCESS, LEGACY_HDR, 20);
  }

  /** Whatever the file, each rewriter is idempotent on it exactly when its first pass does not
      glue an override to the last line. */
  lemma IdempotentIffNotGlued(t: string)
    ensures RewriteText(SPECTATOR, RewriteText(SPECTATOR, t)) == RewriteText(SPECTATOR, t) <==> !Glues(SPECTATOR, t)
    ensures RewriteText(LAUNCHER, RewriteText(LAUNCHER, t)) == RewriteText(LAUNCHER, t) <==> !Glues(LAUNCHER, t)
  {
    hide *;
    PatchesAreDistinctive();
    CoversItself(SPECTATOR);
    CoversItself(LAUNCHER);
    StableIff(SPECTATOR, SPECTATOR, t);
    StableIff(LAUNCHER, LAUNCHER, t);
    GluesForItself(SPECTATOR, t);
    GluesForItself(LAUNCHER, t);
  }

  /** Whatever the file, the launcher leaves it as the spectator service has patched it exactly when
      the service did not glue one of the launcher's overrides to the last line. */
  lemma LauncherKeepsSpectatorsIff(t: string)
    ensures var s := RewriteText(SPECTATOR, t);
            RewriteText(LAUNCHER, s) == s <==> !GluesFor(SPECTATOR, LAUNCHER, t)
  {
    hide *;
    PatchesAreDistinctive();
    SpectatorCoversLauncher();
    StableIff(SPECTATOR, LAUNCHER, t);
  }

  /** A file that a flush has been glued to ends in a newline. */
  lemma GluedIsTerminated(p: Patch, t: string)
    requires Glues(p, t)
    ensures Terminated(RewriteText(p, t))
  {
    CoversItself(p);
    GluedFile(p, p, t);
    BodyParts(t);
    var st := Reached(p, START, Body(t));
    var e, tail, f := Emitted(p, START, Body(t)), Tail(t), Flush(p, st);
    EmittedIsLines(p, START, Body(t));
    FlushIsLines(TableOf(p, st.section), TableOf(p, st.section).order, st);
    GluedIsLine(tail, f[0]);
    LinesEndTerminated(e + ([tail + f[0]] + f[1..]));
    hide *;
  }

  /** A header and, without a newline, a comment. */
  lemma CommentLines(head: string)
    requires IsLine(head)
    ensures var t := head + ";";
            !Terminated(t) && Body(t) == [head] && Tail(t) == ";"
  {
    var t := head + ";";
    TextOne(head);
    LinesOfText([head], ";");
    assert t == Text([head]) + ";" && t[|t| - 1] == ';';
    assert Lines(t) == [head] + [";"];
    assert ([head] + [";"])[..1] == [head];
  }

  lemma HeaderState(p: Patch, head: string, s: Section)
    requires Parse(head) == Header(s) && s != START.section
    ensures Reached(p, START, [head]) == Pass(s, {})
    ensures !Leaves(START.section, [head], s)
  {
    hide Parse;
    OneLine(p, START, head);
    var none := [head][1..];
    assert none == [];
    assert !Leaves(s, none, s);
  }

  lemma CommentIsPlain()
    ensures Parse(";") == Plain && !Blank(";")
  {
    StripTrimmed(";");
    assert ';' in ";";
  }

  lemma CommentGlues(p: Patch, q: Patch, head: string, s: Section, k: string)
    requires Parse(head) == Header(s) && IsLine(head) && s != START.section
    requires k in TableOf(p, s).value && TableOf(p, s).value.Keys == TableOf(q, s).value.Keys
    ensures GluesFor(p, q, head + ";")
  {
    hide Parse, Missing, Reached, Leaves, Blank, Body, Tail, Terminated, IsLine;
    CommentLines(head);
    HeaderState(p, head, s);
    CommentIsPlain();
    var st := Pass(s, {});
    KeyIsMissing(TableOf(p, s), st, k);
    assert Flush(p, st) != [];
    var i := FlushBegins(p, st);
  }

  /** A file that is not stable: its last line is a comment without a newline, in [VIDEO]. */
  lemma UnterminatedCommentGlues()
    ensures var t := "[VIDEO]\n;";
            Glues(LAUNCHER, t) && RewriteText(LAUNCHER, RewriteText(LAUNCHER, t)) != RewriteText(LAUNCHER, t)
  {
    hide GluesFor, Glues, RewriteText, Parse, Dictionary;
    VideoHeader();
    LegacyHdrTable();
    CommentGlues(LAUNCHER, LAUNCHER, "[VIDEO]\n", Video, "DISABLE_LEGACY_HDR");
    assert "[VIDEO]\n" + ";" == "[VIDEO]\n;";
    GluesForItself(LAUNCHER, "[VIDEO]\n;");
    IdempotentIffNotGlued("[VIDEO]\n;");
  }

  /** A file that the launcher changes after the spectator service: the same comment in
      [POST_PROCESS]. */
  lemma LauncherChangesSpectators()
    ensures var s := RewriteText(SPECTATOR, "[POST_PROCESS]\n;");
            RewriteText(LAUNCHER, s) != s
  {
    hide GluesFor, RewriteText, Parse, Dictionary;
    PostProcessHeader();
    LastEntryHolds(PURE_ENTRIES, 8);
    CommentGlues(SPECTATOR, LAUNCHER, "[POST_PROCESS]\n", PostProcess, PURE_ENTRIES[7].0);
    assert "[POST_PROCESS]\n" + ";" == "[POST_PROCESS]\n;";
    LauncherKeepsSpectatorsIff("[POST_PROCESS]\n;");
  }

  lemma VideoHeader()
    ensures Parse("[VIDEO]\n") == Header(Video)
  {
    var s := "[VIDEO]";
    StripTrimmed(s);
    assert s + "\n" == "[VIDEO]\n";
    assert s[1..|s| - 1] == "VIDEO";
    assert Upper("VIDEO") == "VIDEO";
  }

  lemma PostProcessHeader()
    ensures Parse("[POST_PROCESS]\n") == Header(PostProcess)
  {
    var s := "[POST_PROCESS]";
    StripTrimmed(s);
    assert s + "\n" == "[POST_PROCESS]\n";
    assert s[1..|s| - 1] == "POST_PROCESS";
    assert Upper("POST_PROCESS") == "POST_PROCESS";
  }

  lemma KeyIsMissing(t: Table, st: Pass, k: string)
    requires k in t.value && (st.section, k) !in st.written
    ensures Text(Missing(t, t.order, st)) != ""
  {
    SomethingMissing(t, t.order, st, k);
  }

  lemma HeaderAlone(p: Patch, line: string, s: Section)
    requires Parse(line) == Header(s) && IsLine(line)
    ensures RewriteText(p, line) == line + Text(Flush(p, Pass(s, {})))
  {
    hide Parse;
    TextOne(line);
    LinesOfLines([line]);
    OneLine(p, START, line);
    NothingMissing(NO_TABLE, NO_TABLE.order, START);
    assert Emit(p, START, line) == [line];
    assert Next(p, START, line) == Pass(s, {});
    TextAppend([line], Flush(p, Pass(s, {})));
  }

  /** A file that the spectator's rewriter changes: a [VIDEO] section without settings. */
  lemma BareVideoChanges()
    ensures RewriteText(SPECTATOR, "[VIDEO]\n") != "[VIDEO]\n"
  {
    hide Parse, Dictionary, Missing, RewriteText, Text, IsTable;
    VideoHeader();
    LegacyHdrIsLast();
    HeaderAlone(SPECTATOR, "[VIDEO]\n", Video);
    KeyIsMissing(SPECTATOR_VIDEO, Pass(Video, {}), "DISABLE_LEGACY_HDR");
    assert |"[VIDEO]\n" + Text(Flush(SPECTATOR, Pass(Video, {})))| > |"[VIDEO]\n"|;
  }
}
