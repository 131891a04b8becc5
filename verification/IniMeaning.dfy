/** What a rewritten video.ini says: the overrides hold, and nothing else is touched. */
module IniMeaning {
  import opened PyText
  import opened IniPatch
  import opened IniFile

  /** The lines a patch does not own, in order: headers, comments, and all other settings. */
  function Kept(p: Patch, section: Section, lines: seq<string>): seq<string>
    decreases |lines|
  {
    if lines == [] then []
    else match Parse(lines[0])
      case Header(s) => [lines[0]] + Kept(p, s, lines[1..])
      case Setting(k, _) =>
        (if k in TableOf(p, section).value then [] else [lines[0]]) + Kept(p, section, lines[1..])
      case Plain => [lines[0]] + Kept(p, section, lines[1..])
  }

  /** Every value the file gives to `key` in `target`, in order, when reading starts in `section`. */
  function Values(section: Section, lines: seq<string>, target: Section, key: string): seq<string>
    decreases |lines|
  {
    if lines == [] then []
    else match Parse(lines[0])
      case Header(s) => Values(s, lines[1..], target, key)
      case Setting(k, v) =>
        (if section == target && k == key then [v] else []) + Values(section, lines[1..], target, key)
      case Plain => Values(section, lines[1..], target, key)
  }

  /** The file has a header for `s`. */
  predicate Occurs(s: Section, lines: seq<string>) {
    exists l <- lines :: Parse(l) == Header(s)
  }

  /** All of `values` are `value`. */
  predicate Uniform(values: seq<string>, value: string) {
    forall v <- values :: v == value
  }

  // ------------------------------------------------------------------
  // Nothing else is touched
  // ------------------------------------------------------------------

  lemma {:induction false} FlushOnly(p: Patch, order: seq<string>, st: Pass, rest: seq<string>)
    requires forall k <- order :: k in TableOf(p, st.section).value
    ensures var f := Missing(TableOf(p, st.section), order, st);
            Kept(p, st.section, f + rest) == Kept(p, st.section, rest)
  {
    var t := TableOf(p, st.section);
    var f := Missing(t, order, st);
    if order == [] {
      assert f + rest == rest;
    } else {
      FlushOnly(p, order[1..], st, rest);
      if (st.section, order[0]) !in st.written {
        TableEntry(t, order[0]);
        HeadAndTail(f, rest);
        assert f[1..] == Missing(t, order[1..], st);
      } else {
        assert f == Missing(t, order[1..], st);
      }
    }
  }

  /** A pass leaves every line it does not own as it was, in the order it was. */
  lemma {:induction false} KeepsTheRest(p: Patch, st: Pass, lines: seq<string>)
    ensures Kept(p, st.section, Rewrite(p, st, lines)) == Kept(p, st.section, lines)
    decreases |lines|
  {
    var t := TableOf(p, st.section);
    if lines == [] {
      var f := Flush(p, st);
      var none: seq<string> := [];
      FlushOnly(p, t.order, st, none);
      assert f + none == f;
      assert Rewrite(p, st, lines) == f;
    } else {
      var n := Next(p, st, lines[0]);
      KeepsTheRest(p, n, lines[1..]);
      RewriteStep(p, st, lines);
      var rest := Rewrite(p, n, lines[1..]);
      match Parse(lines[0])
      case Header(s) =>
        FlushOnly(p, t.order, st, [lines[0]] + rest);
        Associative(Flush(p, st), [lines[0]], rest);
        HeadAndTail([lines[0]], rest);
      case Setting(k, _) =>
        if k in t.value {
          var c := Canon(k, t.value[k]);
          TableEntry(t, k);
          HeadAndTail([c], rest);
        } else {
          HeadAndTail([lines[0]], rest);
        }
      case Plain =>
        HeadAndTail([lines[0]], rest);
    }
  }

  /** The values of a setting the patch does not own can be read off the kept lines. */
  lemma {:induction false} ValuesOfKept(p: Patch, section: Section, lines: seq<string>, target: Section, key: string)
    requires key !in TableOf(p, target).value
    ensures Values(section, lines, target, key) == Values(section, Kept(p, section, lines), target, key)
    decreases |lines|
  {
    hide Parse;
    if lines != [] {
      var s := match Parse(lines[0]) case Header(s) => s case _ => section;
      ValuesOfKept(p, s, lines[1..], target, key);
      var rest := Kept(p, s, lines[1..]);
      HeadAndTail([lines[0]], rest);
    }
  }

  /** Every other setting keeps its exact list of values. */
  lemma OtherValuesKept(p: Patch, lines: seq<string>, target: Section, key: string)
    requires key !in TableOf(p, target).value
    ensures Values(START.section, Rewrite(p, START, lines), target, key) == Values(START.section, lines, target, key)
  {
    KeepsTheRest(p, START, lines);
    ValuesOfKept(p, START.section, lines, target, key);
    ValuesOfKept(p, START.section, Rewrite(p, START, lines), target, key);
  }

  lemma {:induction false} HeadersAreKept(p: Patch, section: Section, lines: seq<string>, s: Section)
    ensures Occurs(s, lines) <==> Occurs(s, Kept(p, section, lines))
    decreases |lines|
  {
    if lines != [] {
      var next := match Parse(lines[0]) case Header(x) => x case _ => section;
      HeadersAreKept(p, next, lines[1..], s);
      var rest := Kept(p, next, lines[1..]);
      OccursStep(s, lines);
      HeadAndTail([lines[0]], rest);
      OccursStep(s, [lines[0]] + rest);
    }
  }

  // ------------------------------------------------------------------
  // The overrides hold
  // ------------------------------------------------------------------

  lemma {:induction false} FlushValues(
    p: Patch, order: seq<string>, st: Pass, rest: seq<string>, target: Section, key: string)
    requires forall k <- order :: k in TableOf(p, st.section).value
    requires key in TableOf(p, target).value
    ensures var f := Missing(TableOf(p, st.section), order, st);
            var v := Values(st.section, f + rest, target, key);
            && (Uniform(Values(st.section, rest, target, key), TableOf(p, target).value[key])
                ==> Uniform(v, TableOf(p, target).value[key]))
            && (Values(st.section, rest, target, key) != [] ==> v != [])
            && (st.section == target && key in order && (target, key) !in st.written ==> v != [])
  {
    hide Parse;
    var t := TableOf(p, st.section);
    var f := Missing(t, order, st);
    if order == [] {
      assert f + rest == rest;
    } else {
      FlushValues(p, order[1..], st, rest, target, key);
      if (st.section, order[0]) !in st.written {
        TableEntry(t, order[0]);
        HeadAndTail(f, rest);
        assert f[1..] == Missing(t, order[1..], st);
        ValueIsPlain(t.value[order[0]]);
      } else {
        assert f == Missing(t, order[1..], st);
      }
    }
  }

  /** From state `st` on, an override reads as its table value everywhere, and it is there as soon
      as its section is open or still to come and it has not been written before. */
  lemma {:induction false} Enforced(p: Patch, st: Pass, lines: seq<string>, target: Section, key: string)
    requires key in TableOf(p, target).value
    ensures var v := Values(st.section, Rewrite(p, st, lines), target, key);
            && Uniform(v, TableOf(p, target).value[key])
            && ((st.section == target || Occurs(target, lines)) && (target, key) !in st.written ==> v != [])
    decreases |lines|
  {
    var t := TableOf(p, st.section);
    var none: seq<string> := [];
    if lines == [] {
      var f := Flush(p, st);
      FlushValues(p, t.order, st, none, target, key);
      assert f + none == f;
      assert Rewrite(p, st, lines) == f;
    } else {
      Enforced(p, Next(p, st, lines[0]), lines[1..], target, key);
      EnforcedStep(p, st, lines, target, key);
    }
  }

  lemma EnforcedStep(p: Patch, st: Pass, lines: seq<string>, target: Section, key: string)
    requires lines != [] && key in TableOf(p, target).value
    requires var n := Next(p, st, lines[0]);
             var v := Values(n.section, Rewrite(p, n, lines[1..]), target, key);
             && Uniform(v, TableOf(p, target).value[key])
             && ((n.section == target || Occurs(target, lines[1..])) && (target, key) !in n.written ==> v != [])
    ensures var v := Values(st.section, Rewrite(p, st, lines), target, key);
            && Uniform(v, TableOf(p, target).value[key])
            && ((st.section == target || Occurs(target, lines)) && (target, key) !in st.written ==> v != [])
  {
    RewriteStep(p, st, lines);
    OccursStep(target, lines);
    EnforcedEmit(p, st, lines[0], Rewrite(p, Next(p, st, lines[0]), lines[1..]), target, key);
  }

  lemma EnforcedEmit(p: Patch, st: Pass, line: string, rest: seq<string>, target: Section, key: string)
    requires key in TableOf(p, target).value
    requires Uniform(Values(Next(p, st, line).section, rest, target, key), TableOf(p, target).value[key])
    ensures var n := Next(p, st, line);
            var v := Values(st.section, Emit(p, st, line) + rest, target, key);
            && Uniform(v, TableOf(p, target).value[key])
            && (Values(n.section, rest, target, key) != [] ==> v != [])
            && ((target, key) in n.written && (target, key) !in st.written ==> v != [])
            && (st.section == target && Parse(line).Header? && (target, key) !in st.written ==> v != [])
  {
    hide Parse;
    var t := TableOf(p, st.section);
    match Parse(line)
    case Header(s) =>
      EnforcedHeader(p, st, line, rest, target, key);
    case Setting(k, _) =>
      if k in t.value {
        TableEntry(t, k);
        ValueIsPlain(t.value[k]);
        HeadAndTail([Canon(k, t.value[k])], rest);
      } else {
        HeadAndTail([line], rest);
      }
    case Plain =>
      HeadAndTail([line], rest);
  }

  lemma EnforcedHeader(p: Patch, st: Pass, line: string, rest: seq<string>, target: Section, key: string)
    requires Parse(line).Header? && key in TableOf(p, target).value
    requires Uniform(Values(Parse(line).section, rest, target, key), TableOf(p, target).value[key])
    ensures var v := Values(st.section, Flush(p, st) + [line] + rest, target, key);
            && Uniform(v, TableOf(p, target).value[key])
            && (Values(Parse(line).section, rest, target, key) != [] ==> v != [])
            && (st.section == target && (target, key) !in st.written ==> v != [])
  {
    var from := [line] + rest;
    HeadAndTail([line], rest);
    assert Values(st.section, from, target, key) == Values(Parse(line).section, rest, target, key);
    FlushValues(p, TableOf(p, st.section).order, st, from, target, key);
    Associative(Flush(p, st), [line], rest);
  }

  lemma OccursStep(s: Section, lines: seq<string>)
    requires lines != []
    ensures Occurs(s, lines) <==> Parse(lines[0]) == Header(s) || Occurs(s, lines[1..])
  {
    assert lines == [lines[0]] + lines[1..];
  }

  /** The meaning of a pass: an override reads as its table value wherever it stands, it stands
      there if and only if its section does, and sections come and go with no pass. */
  lemma PatchMeaning(p: Patch, lines: seq<string>, target: Section, key: string)
    requires key in TableOf(p, target).value
    ensures var out := Rewrite(p, START, lines);
            var v := Values(START.section, out, target, key);
            && Uniform(v, TableOf(p, target).value[key])
            && (v != [] <==> Occurs(target, lines))
            && (Occurs(target, out) <==> Occurs(target, lines))
  {
    Enforced(p, START, lines, target, key);
    SectionsStay(p, lines, target);
    if !Occurs(target, lines) {
      NoValuesElsewhere(START.section, Rewrite(p, START, lines), target, key);
    }
  }

  lemma SectionsStay(p: Patch, lines: seq<string>, s: Section)
    ensures Occurs(s, Rewrite(p, START, lines)) <==> Occurs(s, lines)
  {
    KeepsTheRest(p, START, lines);
    HeadersAreKept(p, START.section, lines, s);
    HeadersAreKept(p, START.section, Rewrite(p, START, lines), s);
  }

  lemma {:induction false} NoValuesElsewhere(section: Section, lines: seq<string>, target: Section, key: string)
    requires section != target && !Occurs(target, lines)
    ensures Values(section, lines, target, key) == []
    decreases |lines|
  {
    if lines != [] {
      assert lines[0] in lines && forall l <- lines[1..] :: l in lines;
      var next := match Parse(lines[0]) case Header(x) => x case _ => section;
      NoValuesElsewhere(next, lines[1..], target, key);
    }
  }

  lemma SameForced(q: Patch, p: Patch, lines: seq<string>, target: Section, key: string)
    requires key in TableOf(p, target).value
    ensures var direct := Values(START.section, Rewrite(p, START, lines), target, key);
            var after := Values(START.section, Rewrite(p, START, Rewrite(q, START, lines)), target, key);
            && (direct == [] <==> after == [])
            && (direct != [] ==> after[0] == direct[0] && after[|after| - 1] == direct[|direct| - 1])
  {
    PatchMeaning(p, lines, target, key);
    PatchMeaning(p, Rewrite(q, START, lines), target, key);
    SectionsStay(q, lines, target);
    UniformEnds(Values(START.section, Rewrite(p, START, lines), target, key), TableOf(p, target).value[key]);
    UniformEnds(Values(START.section, Rewrite(p, START, Rewrite(q, START, lines)), target, key),
                TableOf(p, target).value[key]);
  }

  lemma UniformEnds(values: seq<string>, value: string)
    requires Uniform(values, value)
    ensures values != [] ==> values[0] == value && values[|values| - 1] == value
  {
    assert values != [] ==> values[0] in values && values[|values| - 1] in values;
  }

  lemma FirstPatchIsImmaterial(q: Patch, p: Patch, lines: seq<string>, target: Section, key: string)
    requires Covers(p, q)
    ensures var direct := Values(START.section, Rewrite(p, START, lines), target, key);
            var after := Values(START.section, Rewrite(p, START, Rewrite(q, START, lines)), target, key);
            && (direct == [] <==> after == [])
            && (direct != [] ==> after[0] == direct[0] && after[|after| - 1] == direct[|direct| - 1])
  {
    var l := Rewrite(q, START, lines);
    if key in TableOf(p, target).value {
      SameForced(q, p, lines, target, key);
    } else {
      OtherValuesKept(p, lines, target, key);
      OtherValuesKept(p, l, target, key);
      OtherValuesKept(q, lines, target, key);
    }
  }

  /** Whether the launcher has patched the file before the spectator service does makes no
      difference to what the file says: a reader that takes the last value of a setting (or the
      first) reads the same. */
  lemma LauncherFirstIsImmaterial(lines: seq<string>, target: Section, key: string)
    ensures var direct := Values(START.section, Rewrite(SPECTATOR, START, lines), target, key);
            var after := Values(START.section, Rewrite(SPECTATOR, START, Rewrite(LAUNCHER, START, lines)), target, key);
            && (direct == [] <==> after == [])
            && (direct != [] ==> after[0] == direct[0] && after[|after| - 1] == direct[|direct| - 1])
  {
    hide *;
    SpectatorCoversLauncher();
    FirstPatchIsImmaterial(LAUNCHER, SPECTATOR, lines, target, key);
  }

  // ------------------------------------------------------------------
  // What a file says when it is read again
  // ------------------------------------------------------------------

  /** The pass appends overrides to an unterminated last line. */
  predicate GluesTail(p: Patch, t: string) {
    var st := Reached(p, START, Body(t));
    !Terminated(t) && !Overrides(p, st.section, Tail(t)) && Flush(p, Next(p, st, Tail(t))) != []
  }

  /** The file does not say `key` in `target` after the pass although it has that section: the
      section's only header is the last line and has been glued to, or `key` is the override that
      was glued to a last line of its section, which is not blank, and no earlier stretch of the
      section holds it. */
  predicate Loses(p: Patch, t: string, target: Section, key: string) {
    var st := Reached(p, START, Body(t));
    && GluesTail(p, t)
    && match Parse(Tail(t))
       case Header(s) => s == target && !Occurs(target, Body(t))
       case _ =>
         && st.section == target && FirstMissingKey(TableOf(p, target).order, st) == Some(key)
         && !Blank(Tail(t)) && !Leaves(START.section, Body(t), target)
  }

  lemma {:induction false} ValuesAppend(
    p: Patch, st: Pass, a: seq<string>, b: seq<string>, target: Section, key: string)
    ensures Values(st.section, a + b, target, key) ==
            Values(st.section, a, target, key) + Values(Reached(p, st, a).section, b, target, key)
    decreases |a|
  {
    hide Parse, TableOf;
    if a == [] {
      assert a + b == b;
    } else {
      var n, rest := Next(p, st, a[0]), a[1..];
      HeadAndTail(a, b);
      ValuesAppend(p, n, rest, b, target, key);
      var here := match Parse(a[0])
        case Setting(k, v) => if st.section == target && k == key then [v] else []
        case _ => [];
      Associative(here, Values(n.section, rest, target, key), Values(Reached(p, n, rest).section, b, target, key));
    }
  }

  lemma {:induction false} KeptAppend(p: Patch, st: Pass, a: seq<string>, b: seq<string>)
    ensures Kept(p, st.section, a + b) == Kept(p, st.section, a) + Kept(p, Reached(p, st, a).section, b)
    decreases |a|
  {
    hide Parse;
    if a == [] {
      assert a + b == b;
    } else {
      var n, rest := Next(p, st, a[0]), a[1..];
      HeadAndTail(a, b);
      KeptAppend(p, n, rest, b);
      var here := if Overrides(p, st.section, a[0]) then [] else [a[0]];
      Associative(here, Kept(p, n.section, rest), Kept(p, Reached(p, n, rest).section, b));
    }
  }

  lemma OneValue(section: Section, line: string, target: Section, key: string)
    ensures Values(section, [line], target, key) ==
            match Parse(line)
            case Setting(k, v) => if section == target && k == key then [v] else []
            case _ => []
  {
    hide Parse;
    var none := [line][1..];
    assert none == [];
    assert forall s :: Values(s, none, target, key) == [];
  }

  lemma OneKept(p: Patch, section: Section, line: string)
    ensures Kept(p, section, [line]) == if Overrides(p, section, line) then [] else [line]
  {
    hide Parse;
    var none := [line][1..];
    assert none == [];
    assert forall s :: Kept(p, s, none) == [];
  }

  /** The values in what a flush appends. */
  lemma {:induction false} MissingValues(
    p: Patch, order: seq<string>, st: Pass, section: Section, target: Section, key: string)
    requires forall k <- order :: k in TableOf(p, st.section).value
    requires key in TableOf(p, target).value
    ensures var v := Values(section, Missing(TableOf(p, st.section), order, st), target, key);
            && (section != target || key !in order ==> v == [])
            && (section == st.section ==> Uniform(v, TableOf(p, target).value[key]))
  {
    hide Parse, Canon;
    var t := TableOf(p, st.section);
    if order != [] {
      var rest := Missing(t, order[1..], st);
      MissingValues(p, order[1..], st, section, target, key);
      assert order[0] in t.value;
      if (st.section, order[0]) !in st.written {
        SettingFirst(section, order[0], t.value[order[0]], rest, target, key);
        assert Missing(t, order, st) == [Canon(order[0], t.value[order[0]])] + rest;
      } else {
        assert Missing(t, order, st) == rest;
      }
    }
  }

  lemma SettingFirst(section: Section, k: string, value: string, rest: seq<string>, target: Section, key: string)
    requires IsKey(k) && IsValue(value)
    ensures Values(section, [Canon(k, value)] + rest, target, key) ==
            (if section == target && k == key then [value] else []) + Values(section, rest, target, key)
  {
    CanonParses(k, value);
    HeadAndTail([Canon(k, value)], rest);
    hide Parse, Canon;
  }

  /** With no flush that marks, what is written is what has been read. */
  lemma {:induction false} WrittenIsRead(p: Patch, st: Pass, lines: seq<string>, target: Section, key: string)
    requires !p.marksVideo && key in TableOf(p, target).value
    ensures (target, key) in Reached(p, st, lines).written <==>
            (target, key) in st.written || Values(st.section, lines, target, key) != []
    decreases |lines|
  {
    hide Parse;
    if lines != [] {
      WrittenIsRead(p, Next(p, st, lines[0]), lines[1..], target, key);
    }
  }

  /** What the lines before the end of the file hold of the section that is open there. */
  lemma EmittedValues(p: Patch, lines: seq<string>, key: string)
    requires var st := Reached(p, START, lines); key in TableOf(p, st.section).value
    ensures var st := Reached(p, START, lines);
            Values(START.section, Emitted(p, START, lines), st.section, key) != [] <==>
            (st.section, key) in st.written || Leaves(START.section, lines, st.section)
    ensures Reached(p, START, Emitted(p, START, lines)).section == Reached(p, START, lines).section
  {
    var q := p.(marksVideo := false);
    var st := Reached(p, START, lines);
    assert forall s :: TableOf(q, s) == TableOf(p, s);
    SecondPassMeets(p, q, START, START, lines, st.section);
    WrittenIsRead(q, START, Emitted(p, START, lines), st.section, key);
    SameSection(p, q, START, START, Emitted(p, START, lines));
  }

  lemma {:induction false} SameSection(p: Patch, q: Patch, a: Pass, b: Pass, lines: seq<string>)
    requires a.section == b.section
    ensures Reached(p, a, lines).section == Reached(q, b, lines).section
    decreases |lines|
  {
    hide Parse;
    if lines != [] {
      SameSection(p, q, Next(p, a, lines[0]), Next(q, b, lines[0]), lines[1..]);
    }
  }

  lemma UniformParts(a: seq<string>, b: seq<string>, value: string)
    ensures Uniform(a + b, value) <==> Uniform(a, value) && Uniform(b, value)
  {
    assert forall v :: v in a + b <==> v in a || v in b;
  }

  /** The lines written when nothing is glued read back as they are. */
  lemma UngluedReadsBack(p: Patch, t: string)
    requires !GluesTail(p, t)
    ensures Lines(RewriteText(p, t)) == Rewrite(p, START, Lines(t))
  {
    BodyParts(t);
    if Terminated(t) {
      RewriteIsLines(p, START, Lines(t));
      LinesOfLines(Rewrite(p, START, Lines(t)));
    } else {
      UngluedLines(p, t);
    }
    hide *;
  }

  /** What the last line and the overrides appended to it read back as. */
  lemma GluedReadsBack(p: Patch, t: string)
    requires GluesTail(p, t)
    ensures var st := Reached(p, START, Body(t));
            var tail := Tail(t);
            var e, f := Emitted(p, START, Body(t)), Flush(p, Next(p, st, tail));
            && (Parse(tail).Header? ==>
                  Lines(RewriteText(p, t)) == Rewrite(p, START, Body(t)) + ([tail + f[0]] + f[1..]))
            && (!Parse(tail).Header? ==>
                  f == Flush(p, st) && Lines(RewriteText(p, t)) == e + ([tail + f[0]] + f[1..]))
  {
    hide Parse;
    BodyParts(t);
    FirstPass(p, t);
    var st := Reached(p, START, Body(t));
    var e, tail, leave := Emitted(p, START, Body(t)), Tail(t), Flush(p, st);
    var n := Next(p, st, tail);
    var f := Flush(p, n);
    EmittedIsLines(p, START, Body(t));
    FlushIsLines(TableOf(p, st.section), TableOf(p, st.section).order, st);
    FlushIsLines(TableOf(p, n.section), TableOf(p, n.section).order, n);
    if Parse(tail).Header? {
      Associative(e, leave, [tail] + f);
      Associative(leave, [tail], f);
      GluedLines(e + leave, tail, f);
    } else {
      GluedLines(e, tail, f);
    }
  }

  /** The section open at the end of the output is the one open at the end of the input. */
  lemma SectionOfOutput(p: Patch, lines: seq<string>)
    ensures Reached(p, START, Emitted(p, START, lines)).section == Reached(p, START, lines).section
    ensures Reached(p, START, Rewrite(p, START, lines)).section == Reached(p, START, lines).section
  {
    CoversItself(p);
    var st := Reached(p, START, lines);
    SecondPassMeets(p, p, START, START, lines, st.section);
    AfterFlush(p, p, st, Reached(p, START, Emitted(p, START, lines)));
    ReachedAppend(p, START, Emitted(p, START, lines), Flush(p, st));
    hide Parse, Emitted, Reached, Missing;
  }

  lemma {:induction false} OpenSectionOccurs(p: Patch, st: Pass, lines: seq<string>)
    ensures Reached(p, st, lines).section == st.section || Occurs(Reached(p, st, lines).section, lines)
    decreases |lines|
  {
    hide Parse;
    if lines != [] {
      OpenSectionOccurs(p, Next(p, st, lines[0]), lines[1..]);
      OccursStep(Reached(p, st, lines).section, lines);
    }
  }

  lemma OccursLast(s: Section, lines: seq<string>, last: string)
    ensures Occurs(s, lines + [last]) <==> Occurs(s, lines) || Parse(last) == Header(s)
  {
    hide Parse;
    assert forall l :: l in lines + [last] <==> l in lines || l == last;
  }

  /** Values of a text whose last lines begin with one that is no header. */
  lemma ValuesOfGlued(
    p: Patch, front: seq<string>, section: Section, g: string, rest: seq<string>, target: Section, key: string)
    requires Reached(p, START, front).section == section && !Parse(g).Header?
    ensures Values(START.section, front + ([g] + rest), target, key) ==
            Values(START.section, front, target, key)
            + ((if section == target && Parse(g).Setting? && Parse(g).key == key then [Parse(g).value] else [])
               + Values(section, rest, target, key))
  {
    hide Parse;
    ValuesAppend(p, START, front, [g] + rest, target, key);
    ValuesAppend(p, Reached(p, START, front), [g], rest, target, key);
    OneLine(p, Reached(p, START, front), g);
    OneValue(section, g, target, key);
  }

  lemma KeptOfGlued(p: Patch, front: seq<string>, section: Section, g: string, rest: seq<string>)
    requires Reached(p, START, front).section == section && !Parse(g).Header?
    ensures Kept(p, START.section, front + ([g] + rest)) ==
            Kept(p, START.section, front)
            + ((if Overrides(p, section, g) then [] else [g]) + Kept(p, section, rest))
  {
    hide Parse;
    KeptAppend(p, START, front, [g] + rest);
    KeptAppend(p, Reached(p, START, front), [g], rest);
    OneLine(p, Reached(p, START, front), g);
    OneKept(p, section, g);
  }

  lemma GluedLineParses(p: Patch, section: Section, tail: string, k: string)
    requires Distinctive(p) && k in TableOf(p, section).value
    requires !Parse(tail).Header? && !Overrides(p, section, tail)
    ensures var c := Canon(k, TableOf(p, section).value[k]);
            && Parse(c) == Setting(k, TableOf(p, section).value[k])
            && !Parse(tail + c).Header?
            && (if Blank(tail) then Parse(tail + c) == Parse(c) else !Overrides(p, section, tail + c))
  {
    hide Parse;
    var t := TableOf(p, section);
    TableEntry(t, k);
    if Blank(tail) {
      BlankGlued(tail, k, t.value[k]);
    } else {
      GluedIsForeign(t, tail, k);
      GluedParses(tail, k, t.value[k]);
    }
  }

  lemma RestHoldsNot(p: Patch, st: Pass, i: nat)
    requires Distinctive(p) && BeginsAt(p, st, i)
    ensures var tbl := TableOf(p, st.section);
            && tbl.order[i] in tbl.value
            && Flush(p, st)[0] == Canon(tbl.order[i], tbl.value[tbl.order[i]])
            && Flush(p, st)[1..] == Missing(tbl, tbl.order[i + 1..], st)
            && tbl.order[i] !in tbl.order[i + 1..]
  {
    var tbl := TableOf(p, st.section);
    var rest := tbl.order[i + 1..];
    assert forall j | 0 <= j < |rest| :: rest[j] == tbl.order[i + 1 + j];
    hide Missing;
  }

  /** With the flush glued to a line of the section the text says what it says with the flush in
      lines of its own, but for the first override if the line is not blank. */
  lemma LineValues(p: Patch, st: Pass, e: seq<string>, tail: string, i: nat, target: Section, key: string)
    requires Distinctive(p) && BeginsAt(p, st, i) && Reached(p, START, e).section == st.section
    requires !Parse(tail).Header? && !Overrides(p, st.section, tail) && key in TableOf(p, target).value
    ensures var f, k := Flush(p, st), TableOf(p, st.section).order[i];
            var v := Values(START.section, e + ([tail + f[0]] + f[1..]), target, key);
            var v0 := Values(START.section, e + f, target, key);
            if st.section == target && key == k && !Blank(tail)
            then v0 != [] && v == Values(START.section, e, target, key) && v <= v0
            else v == v0
  {
    hide Parse, Values, Missing, Distinctive, Canon, Reached, Emitted, Blank;
    RestHoldsNot(p, st, i);
    var f, tbl := Flush(p, st), TableOf(p, st.section);
    var k, rest := tbl.order[i], f[1..];
    GluedLineParses(p, st.section, tail, k);
    assert f == [f[0]] + rest;
    ValuesOfGlued(p, e, st.section, f[0], rest, target, key);
    ValuesOfGlued(p, e, st.section, tail + f[0], rest, target, key);
    if st.section == target && key == k {
      MissingValues(p, tbl.order[i + 1..], st, st.section, target, key);
    }
  }

  lemma PrefixIsUniform(a: seq<string>, b: seq<string>, value: string)
    requires a <= b && Uniform(b, value)
    ensures Uniform(a, value)
  {
    assert forall v <- a :: v in b;
  }

  /** A line of the open section, with its overrides glued to it: what is read of `key`. */
  lemma LineMeaning(p: Patch, t: string, target: Section, key: string)
    requires Distinctive(p) && GluesTail(p, t) && !Parse(Tail(t)).Header? && key in TableOf(p, target).value
    ensures var v := Values(START.section, Lines(RewriteText(p, t)), target, key);
            && Uniform(v, TableOf(p, target).value[key])
            && ((v != [] <==> Occurs(target, Lines(t))) <==> !Loses(p, t, target, key))
  {
    hide Parse, Reached, Emitted, Missing, Values, Lines, RewriteText, Body, Tail, Text, Leaves, BeginsAt;
    hide Distinctive, Uniform, Occurs, Blank, FirstMissingKey;
    GluedReadsBack(p, t);
    BodyParts(t);
    var st := Reached(p, START, Body(t));
    var body, tail, e := Body(t), Tail(t), Emitted(p, START, Body(t));
    OccursLast(target, body, tail);
    SectionOfOutput(p, body);
    PatchMeaning(p, body, target, key);
    var i := FlushBegins(p, st);
    LineValues(p, st, e, tail, i, target, key);
    var v := Values(START.section, Lines(RewriteText(p, t)), target, key);
    PrefixIsUniform(v, Values(START.section, e + Flush(p, st), target, key), TableOf(p, target).value[key]);
    if st.section == target {
      EmittedValues(p, body, key);
      FirstIsMissing(p, st, i);
    }
  }

  lemma FirstIsMissing(p: Patch, st: Pass, i: nat)
    requires BeginsAt(p, st, i)
    ensures (st.section, TableOf(p, st.section).order[i]) !in st.written
  {}

  /** The flush of the section that the last line opens, glued to that line, read in section
      `section`: nothing that the patch owns there, unless it is the same section again. */
  lemma HeaderValues(p: Patch, n: Pass, front: seq<string>, section: Section, tail: string, i: nat,
    target: Section, key: string)
    requires Distinctive(p) && BeginsAt(p, n, i) && Reached(p, START, front).section == section
    requires Parse(tail).Header? && key in TableOf(p, target).value
    ensures var f := Flush(p, n);
            var v := Values(START.section, front + ([tail + f[0]] + f[1..]), target, key);
            exists more :: && v == Values(START.section, front, target, key) + more
                           && Uniform(more, TableOf(p, target).value[key])
                           && (section != target ==> more == [])
  {
    hide Parse, Values, Missing, SuffixFree, NoRepeats, Canon, Reached, Emitted, Blank, Uniform;
    RestHoldsNot(p, n, i);
    var f, tbl := Flush(p, n), TableOf(p, n.section);
    var k, rest := tbl.order[i], f[1..];
    TableEntry(tbl, k);
    GluedHeaderIsForeign(TableOf(p, section), tail, k);
    GluedParses(tail, k, tbl.value[k]);
    ValuesOfGlued(p, front, section, tail + f[0], rest, target, key);
    var more := Values(section, rest, target, key);
    if section == target && n.section != target {
      ForeignValues(p, tbl.order[i + 1..], n, section, target, key);
    } else {
      MissingValues(p, tbl.order[i + 1..], n, section, target, key);
    }
    NoneIsUniform(TableOf(p, target).value[key]);
    assert Values(START.section, front + ([tail + f[0]] + f[1..]), target, key) ==
           Values(START.section, front, target, key) + more;
  }

  lemma NoneIsUniform(value: string)
    ensures Uniform([], value)
  {}

  lemma ForeignValues(
    p: Patch, order: seq<string>, st: Pass, section: Section, target: Section, key: string)
    requires Distinctive(p) && forall k <- order :: k in TableOf(p, st.section).value
    requires key in TableOf(p, target).value && st.section != target
    ensures Values(section, Missing(TableOf(p, st.section), order, st), target, key) == []
  {
    hide SuffixFree, NoRepeats, Missing, Values, Uniform;
    assert key !in TableOf(p, st.section).value;
    assert key !in order;
    MissingValues(p, order, st, section, target, key);
  }

  /** A header with the overrides of its section glued to it: what is read of `key`. */
  lemma HeaderMeaning(p: Patch, t: string, target: Section, key: string)
    requires Distinctive(p) && GluesTail(p, t) && Parse(Tail(t)).Header? && key in TableOf(p, target).value
    ensures var v := Values(START.section, Lines(RewriteText(p, t)), target, key);
            && Uniform(v, TableOf(p, target).value[key])
            && ((v != [] <==> Occurs(target, Lines(t))) <==> !Loses(p, t, target, key))
  {
    hide Parse, Reached, Rewrite, Missing, Values, Lines, RewriteText, Body, Tail, Text, Leaves, BeginsAt, Flush;
    hide Distinctive, Uniform, Occurs, Blank, FirstMissingKey;
    GluedReadsBack(p, t);
    BodyParts(t);
    var body, tail := Body(t), Tail(t);
    var st := Reached(p, START, body);
    var n := Next(p, st, tail);
    OccursLast(target, body, tail);
    SectionOfOutput(p, body);
    PatchMeaning(p, body, target, key);
    OpenSectionOccurs(p, START, body);
    var i := FlushBegins(p, n);
    var front := Rewrite(p, START, body);
    HeaderValues(p, n, front, st.section, tail, i, target, key);
    var v0 := Values(START.section, front, target, key);
    var v := Values(START.section, Lines(RewriteText(p, t)), target, key);
    var more :| v == v0 + more && Uniform(more, TableOf(p, target).value[key]) && (st.section != target ==> more == []);
    UniformParts(v0, more, TableOf(p, target).value[key]);
  }

  lemma DifferFromHere<T>(a: seq<T>, x: T, b: seq<T>, y: T)
    requires x != y
    ensures a + ([x] + b) != a + [y]
  {
    assert (a + ([x] + b))[|a|] == x && (a + [y])[|a|] == y;
  }

  /** The line that is glued to is not left as it was. */
  lemma GluedTailIsChanged(p: Patch, t: string)
    requires Distinctive(p) && GluesTail(p, t)
    ensures Kept(p, START.section, Lines(RewriteText(p, t))) != Kept(p, START.section, Lines(t))
  {
    hide Parse, Reached, Emitted, Missing, Lines, RewriteText, Body, Tail, Text, Kept, Distinctive, Blank, Follows;
    GluedReadsBack(p, t);
    BodyParts(t);
    var body, tail := Body(t), Tail(t);
    var st := Reached(p, START, body);
    var n := Next(p, st, tail);
    var f := Flush(p, n);
    SectionOfOutput(p, body);
    KeptAppend(p, START, body, [tail]);
    OneKept(p, st.section, tail);
    KeepsTheRest(p, START, body);
    var i := FlushBegins(p, n);
    RestHoldsNot(p, n, i);
    var tbl := TableOf(p, n.section);
    var k := tbl.order[i];
    TableEntry(tbl, k);
    assert |tail + f[0]| > |tail|;
    if Parse(tail).Header? {
      GluedHeaderIsForeign(TableOf(p, st.section), tail, k);
      GluedParses(tail, k, tbl.value[k]);
      KeptOfGlued(p, Rewrite(p, START, body), st.section, tail + f[0], f[1..]);
      DifferFromHere(Kept(p, START.section, body), tail + f[0], Kept(p, st.section, f[1..]), tail);
    } else {
      var e := Emitted(p, START, body);
      GluedLineParses(p, st.section, tail, k);
      FlushKeepsNothing(p, tbl.order, st);
      FlushKeepsNothing(p, tbl.order[i + 1..], st);
      KeptAppend(p, START, e, f);
      KeptOfGlued(p, e, st.section, tail + f[0], f[1..]);
      if !Blank(tail) {
        DifferFromHere(Kept(p, START.section, body), tail + f[0], Kept(p, st.section, f[1..]), tail);
      }
    }
  }

  lemma FlushKeepsNothing(p: Patch, order: seq<string>, st: Pass)
    requires forall k <- order :: k in TableOf(p, st.section).value
    ensures Kept(p, st.section, Missing(TableOf(p, st.section), order, st)) == []
  {
    hide Missing, Parse;
    var f := Missing(TableOf(p, st.section), order, st);
    var none: seq<string> := [];
    FlushOnly(p, order, st, none);
    assert f + none == f;
  }

  /** The same on files: what a file says after a pass when it is read again. Every line the patch
      does not own is as it was exactly if nothing was glued to the last line; an override reads as
      its table value wherever it stands, and it stands there if and only if its section does,
      except exactly for the overrides that the glueing loses. */
  lemma PatchedFileMeaning(p: Patch, t: string, target: Section, key: string)
    requires Terminated(t) || Distinctive(p)
    ensures var lines := Lines(RewriteText(p, t));
            var v := Values(START.section, lines, target, key);
            && (Kept(p, START.section, lines) == Kept(p, START.section, Lines(t)) <==> !GluesTail(p, t))
            && (key !in TableOf(p, target).value && !GluesTail(p, t) ==>
                  v == Values(START.section, Lines(t), target, key))
            && (key in TableOf(p, target).value ==>
                  && Uniform(v, TableOf(p, target).value[key])
                  && ((v != [] <==> Occurs(target, Lines(t))) <==> !Loses(p, t, target, key)))
  {
    hide Kept, Values, Rewrite, Lines, Text, Occurs, Uniform, Terminated, Distinctive, Body, Tail, Parse, Flush;
    hide Reached;
    if !GluesTail(p, t) {
      UngluedReadsBack(p, t);
      KeepsTheRest(p, START, Lines(t));
      if key in TableOf(p, target).value {
        PatchMeaning(p, Lines(t), target, key);
      } else {
        OtherValuesKept(p, Lines(t), target, key);
      }
    } else {
      GluedTailIsChanged(p, t);
      if key in TableOf(p, target).value {
        if Parse(Tail(t)).Header? {
          HeaderMeaning(p, t, target, key);
        } else {
          LineMeaning(p, t, target, key);
        }
      }
    }
  }

  /** The same of the two rewriters as they are. */
  lemma RewrittenFileMeaning(p: Patch, t: string, target: Section, key: string)
    requires p in {SPECTATOR, LAUNCHER} && key in TableOf(p, target).value
    ensures var v := Values(START.section, Lines(RewriteText(p, t)), target, key);
            && Uniform(v, TableOf(p, target).value[key])
            && ((v != [] <==> Occurs(target, Lines(t))) <==> !Loses(p, t, target, key))
  {
    hide *;
    PatchesAreDistinctive();
    PatchedFileMeaning(p, t, target, key);
  }

  lemma BareHeaderParses()
    ensures Parse("[VIDEO]") == Header(Video) && '\n' !in "[VIDEO]"
  {
    var s := "[VIDEO]";
    StripTrimmed(s);
    assert s[1..|s| - 1] == "VIDEO";
    assert Upper("VIDEO") == "VIDEO";
  }

  lemma OneLineText(l: string)
    requires l != "" && '\n' !in l
    ensures !Terminated(l) && Lines(l) == [l] && Body(l) == [] && Tail(l) == l
  {
    hide FirstLine, IsLine;
    var none: seq<string> := [];
    LinesOfText(none, l);
    assert Text(none) + l == l && none + [l] == [l];
    assert l[|l| - 1] in l;
    assert [l][..0] == none;
  }

  /** A file of which the launcher loses a section: its header is the last line. */
  lemma UnterminatedHeaderIsLost()
    ensures Occurs(Video, Lines("[VIDEO]"))
    ensures Values(START.section, Lines(RewriteText(LAUNCHER, "[VIDEO]")), Video, "DISABLE_LEGACY_HDR") == []
  {
    hide Parse, Dictionary, Missing, Lines, RewriteText, Values, Body, Tail, Terminated, Uniform;
    var t, key := "[VIDEO]", "DISABLE_LEGACY_HDR";
    BareHeaderParses();
    OneLineText(t);
    LegacyHdrTable();
    assert Reached(LAUNCHER, START, Body(t)) == START;
    KeyIsMissing(LEGACY_HDR, Pass(Video, {}), key);
    assert Next(LAUNCHER, START, t) == Pass(Video, {});
    assert Flush(LAUNCHER, Pass(Video, {})) != [];
    assert t in Lines(t);
    RewrittenFileMeaning(LAUNCHER, t, Video, key);
  }

  // ------------------------------------------------------------------
  // How often an override is appended
  // ------------------------------------------------------------------

  /** The stretches of `target` that end before the file has set `key` in it. */
  function BareStretches(section: Section, lines: seq<string>, target: Section, key: string): nat
    decreases |lines|
  {
    var here := if section == target then 1 else 0;
    if lines == [] then here
    else match Parse(lines[0])
      case Header(s) => here + BareStretches(s, lines[1..], target, key)
      case Setting(k, _) =>
        if section == target && k == key then 0 else BareStretches(section, lines[1..], target, key)
      case Plain => BareStretches(section, lines[1..], target, key)
  }

  /** What a pass adds to the settings that a file has for an override: one for every stretch of the
      section that ends before the file has set it, but only one for [VIDEO] if appending marks it
      as written. */
  lemma {:induction false} AppendedTimes(p: Patch, st: Pass, lines: seq<string>, target: Section, key: string)
    requires key in TableOf(p, target).value && NoRepeats(TableOf(p, target).order)
    ensures var n := BareStretches(st.section, lines, target, key);
            |Values(st.section, Rewrite(p, st, lines), target, key)| ==
            |Values(st.section, lines, target, key)|
            + (if (target, key) in st.written then 0 else if p.marksVideo && target == Video && n > 1 then 1 else n)
    decreases |lines|
  {
    hide Parse, Missing, Canon, Values, Rewrite, Emitted, Reached;
    if lines == [] {
      var none: seq<string> := [];
      FlushAdds(p, st, target, key, none);
      assert Flush(p, st) + none == Flush(p, st);
      EndOfRewrite(p, st, lines);
      NoValues(st.section, none, target, key);
    } else {
      var line, n := lines[0], Next(p, st, lines[0]);
      var rest := Rewrite(p, n, lines[1..]);
      AppendedTimes(p, n, lines[1..], target, key);
      RewriteStep(p, st, lines);
      assert lines == [line] + lines[1..];
      ValuesHead(st.section, line, lines[1..], target, key);
      ValuesHead(st.section, line, rest, target, key);
      match Parse(line)
      case Header(s) =>
        FlushAdds(p, st, target, key, [line] + rest);
        Associative(Flush(p, st), [line], rest);
      case Setting(k, _) =>
        if k in TableOf(p, st.section).value {
          TableEntry(TableOf(p, st.section), k);
          SettingFirst(st.section, k, TableOf(p, st.section).value[k], rest, target, key);
        }
      case Plain =>
    }
  }

  lemma EndOfRewrite(p: Patch, st: Pass, none: seq<string>)
    requires none == []
    ensures Rewrite(p, st, none) == Flush(p, st)
  {}

  lemma NoValues(section: Section, none: seq<string>, target: Section, key: string)
    requires none == []
    ensures Values(section, none, target, key) == []
  {}

  lemma ValuesHead(section: Section, line: string, rest: seq<string>, target: Section, key: string)
    ensures Values(section, [line] + rest, target, key) ==
            match Parse(line)
            case Header(s) => Values(s, rest, target, key)
            case Setting(k, v) =>
              (if section == target && k == key then [v] else []) + Values(section, rest, target, key)
            case Plain => Values(section, rest, target, key)
  {
    hide Parse;
    HeadAndTail([line], rest);
  }

  lemma FlushAdds(p: Patch, st: Pass, target: Section, key: string, rest: seq<string>)
    requires key in TableOf(p, target).value && NoRepeats(TableOf(p, target).order)
    ensures |Values(st.section, Flush(p, st) + rest, target, key)| ==
            |Values(st.section, rest, target, key)|
            + if st.section == target && (target, key) !in st.written then 1 else 0
  {
    MissingAdds(p, TableOf(p, st.section).order, st, target, key, rest);
    hide Missing, Values;
  }

  lemma {:induction false} MissingAdds(
    p: Patch, order: seq<string>, st: Pass, target: Section, key: string, rest: seq<string>)
    requires forall k <- order :: k in TableOf(p, st.section).value
    requires NoRepeats(order) || st.section != target
    ensures |Values(st.section, Missing(TableOf(p, st.section), order, st) + rest, target, key)| ==
            |Values(st.section, rest, target, key)|
            + if st.section == target && key in order && (target, key) !in st.written then 1 else 0
  {
    hide Parse, Canon, Values;
    var t := TableOf(p, st.section);
    var f := Missing(t, order, st);
    if order == [] {
      assert f + rest == rest;
    } else {
      var tail := order[1..];
      assert order == [order[0]] + tail;
      assert forall i | 0 <= i < |tail| :: tail[i] == order[i + 1];
      MissingAdds(p, tail, st, target, key, rest);
      assert order[0] in t.value;
      var more := Missing(t, tail, st);
      if (st.section, order[0]) !in st.written {
        SettingFirst(st.section, order[0], t.value[order[0]], more + rest, target, key);
        Associative([Canon(order[0], t.value[order[0]])], more, rest);
        assert f == [Canon(order[0], t.value[order[0]])] + more;
      } else {
        assert f == more;
      }
    }
  }

  /** The launcher adds its [VIDEO] override once at most; it adds those of [POST_PROCESS], and the
      spectator service all of its, at the end of every stretch until the file has set them. */
  lemma RewritersAppend(p: Patch, lines: seq<string>, target: Section, key: string)
    requires p in {SPECTATOR, LAUNCHER} && key in TableOf(p, target).value
    ensures var n := BareStretches(START.section, lines, target, key);
            |Values(START.section, Rewrite(p, START, lines), target, key)| ==
            |Values(START.section, lines, target, key)| +
            if p == LAUNCHER && target == Video && n > 1 then 1 else n
  {
    hide *;
    PatchesAreDistinctive();
    NothingRepeats(p, target);
    AppendedTimes(p, START, lines, target, key);
    MarksAre();
    StartIsFresh(target, key);
  }

  lemma NothingRepeats(p: Patch, s: Section)
    requires Distinctive(p)
    ensures NoRepeats(TableOf(p, s).order)
  {}

  lemma StartIsFresh(s: Section, key: string)
    ensures (s, key) !in START.written
  {}

  lemma MarksAre()
    ensures LAUNCHER.marksVideo && !SPECTATOR.marksVideo
  {}
}
