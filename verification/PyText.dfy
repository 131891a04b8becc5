/** Options, and the few Python string operations the source relies on. */
module PyText {

  datatype Option<+T> = None | Some(value: T)

  // ------------------------------------------------------------------
  // Sequences
  // ------------------------------------------------------------------

  lemma Associative<T>(a: seq<T>, b: seq<T>, c: seq<T>)
    ensures a + (b + c) == (a + b) + c
  {}

  lemma DropPrefix<T>(a: seq<T>, b: seq<T>)
    ensures (a + b)[|a|..] == b
  {}

  lemma HeadAndTail<T>(a: seq<T>, b: seq<T>)
    requires a != []
    ensures (a + b)[0] == a[0] && (a + b)[1..] == a[1..] + b
  {}

  /** No element occurs twice. */
  ghost predicate NoRepeats<T>(s: seq<T>) {
    forall i, j | 0 <= i < j < |s| :: s[i] != s[j]
  }

  // ------------------------------------------------------------------
  // str.strip()
  // ------------------------------------------------------------------

  /** The characters that `str.strip()` removes. */
  predicate IsSpace(c: char) {
    var n := c as int;
    || 9 <= n <= 13 || 28 <= n <= 32 || n == 0x85 || n == 0xA0 || n == 0x1680
    || 0x2000 <= n <= 0x200A || n == 0x2028 || n == 0x2029 || n == 0x202F
    || n == 0x205F || n == 0x3000
  }

  /** They are the white space of Unicode as Python has it. */
  const WHITE_SPACE :=
    "\t\n\U{000B}\U{000C}\r\U{001C}\U{001D}\U{001E}\U{001F} \U{0085}\U{00A0}\U{1680}"
    + "\U{2000}\U{2001}\U{2002}\U{2003}\U{2004}\U{2005}\U{2006}\U{2007}\U{2008}\U{2009}\U{200A}"
    + "\U{2028}\U{2029}\U{202F}\U{205F}\U{3000}"

  lemma WhiteSpaceIs(c: char)
    ensures IsSpace(c) <==> c in WHITE_SPACE
  {
    assert forall i: int | 0 <= i < 13 :: IsSpace(WHITE_SPACE[i]);
  }

  function LStrip(s: string): string {
    if s != "" && IsSpace(s[0]) then LStrip(s[1..]) else s
  }

  function RStrip(s: string): string {
    if s != "" && IsSpace(s[|s| - 1]) then RStrip(s[..|s| - 1]) else s
  }

  function Strip(s: string): string {
    RStrip(LStrip(s))
  }

  predicate Blank(s: string) {
    forall c <- s :: IsSpace(c)
  }

  /** Neither end is white space. */
  predicate Trimmed(s: string) {
    s == "" || (!IsSpace(s[0]) && !IsSpace(s[|s| - 1]))
  }

  lemma {:induction false} LStripParts(s: string) returns (lead: string)
    ensures s == lead + LStrip(s) && Blank(lead)
    ensures LStrip(s) == "" || !IsSpace(LStrip(s)[0])
  {
    lead := "";
    if s != "" && IsSpace(s[0]) {
      var rest := LStripParts(s[1..]);
      lead := [s[0]] + rest;
    }
  }

  lemma {:induction false} RStripParts(s: string) returns (trail: string)
    ensures s == RStrip(s) + trail && Blank(trail)
    ensures RStrip(s) == "" || !IsSpace(RStrip(s)[|RStrip(s)| - 1])
  {
    trail := "";
    if s != "" && IsSpace(s[|s| - 1]) {
      var init, last := s[..|s| - 1], [s[|s| - 1]];
      var rest := RStripParts(init);
      trail := rest + last;
      assert s == init + last;
      Associative(RStrip(init), rest, last);
      hide IsSpace;
    }
  }

  /** `strip()` cuts off blank ends and nothing else, and what is left is trimmed. */
  lemma StripParts(s: string) returns (lead: string, trail: string)
    ensures s == lead + Strip(s) + trail && Blank(lead) && Blank(trail) && Trimmed(Strip(s))
  {
    lead := LStripParts(s);
    trail := RStripParts(LStrip(s));
    assert Strip(s) != "" ==> Strip(s)[0] == LStrip(s)[0];
  }

  /** A trimmed text survives `strip()`, with or without a trailing newline. */
  lemma StripTrimmed(s: string)
    requires Trimmed(s)
    ensures Strip(s) == s && Strip(s + "\n") == s
  {
    if s != "" {
      assert (s + "\n")[0] == s[0];
      assert (s + "\n")[..|s|] == s;
    } else {
      assert s + "\n" == "\n";
      assert "\n"[1..] == "";
    }
  }

  lemma RStripNewline(s: string)
    requires s != "" && Trimmed(s)
    ensures RStrip(s + "\n") == s
  {
    assert (s + "\n")[..|s|] == s;
  }

  /** Leading text that does not begin with a space shields the rest from `lstrip()`. */
  lemma {:induction false} LStripAppend(a: string, b: string)
    ensures !Blank(a) ==> LStrip(a) != "" && LStrip(a + b) == LStrip(a) + b
    ensures Blank(a) ==> LStrip(a + b) == LStrip(b) && LStrip(a) == ""
  {
    if a == "" {
      assert a + b == b;
    } else if IsSpace(a[0]) {
      LStripAppend(a[1..], b);
      assert (a + b)[1..] == a[1..] + b;
      assert a == [a[0]] + a[1..];
    }
  }

  // ------------------------------------------------------------------
  // str.upper(), restricted to ASCII letters
  // ------------------------------------------------------------------

  function UpperChar(c: char): char {
    if 'a' <= c <= 'z' then (c as int - 32) as char else c
  }

  function Upper(s: string): (u: string)
    ensures |u| == |s|
  {
    seq(|s|, i requires 0 <= i < |s| => UpperChar(s[i]))
  }

  // ------------------------------------------------------------------
  // str.split("=") around the first "="
  // ------------------------------------------------------------------

  function Before(s: string): string {
    if s == "" || s[0] == '=' then "" else [s[0]] + Before(s[1..])
  }

  /** What follows the first "=", or nothing when there is none. */
  function After(s: string): string {
    if s == "" then "" else if s[0] == '=' then s[1..] else After(s[1..])
  }

  lemma {:induction false} SplitAtEquals(k: string, v: string)
    requires '=' !in k
    ensures Before(k + "=" + v) == k && After(k + "=" + v) == v
  {
    var s := k + "=" + v;
    if k == "" {
      assert s[1..] == v;
    } else {
      SplitAtEquals(k[1..], v);
      assert s[1..] == k[1..] + "=" + v;
      assert k == [k[0]] + k[1..];
    }
  }

  lemma {:induction false} SplitRejoins(s: string)
    requires '=' in s
    ensures s == Before(s) + "=" + After(s) && '=' !in Before(s)
  {
    if s[0] != '=' {
      assert s == [s[0]] + s[1..];
      SplitRejoins(s[1..]);
    }
  }

  // ------------------------------------------------------------------
  // readlines() and writelines()
  // ------------------------------------------------------------------

  /** The text up to and including its first newline. */
  function FirstLine(t: string): (l: string)
    ensures |l| <= |t| && l == t[..|l|] && (t != "" ==> l != "")
  {
    if t == "" then ""
    else if t[0] == '\n' then "\n"
    else [t[0]] + FirstLine(t[1..])
  }

  function Lines(t: string): seq<string> {
    if t == "" then [] else [FirstLine(t)] + Lines(t[|FirstLine(t)|..])
  }

  function Text(ls: seq<string>): string {
    if ls == [] then "" else ls[0] + Text(ls[1..])
  }

  /** One complete line: a newline at its end and nowhere else. */
  predicate IsLine(l: string) {
    l != "" && l[|l| - 1] == '\n' && forall i | 0 <= i < |l| - 1 :: l[i] != '\n'
  }

  predicate AllLines(ls: seq<string>) {
    forall l <- ls :: IsLine(l)
  }

  /** A text whose last line, if any, is terminated. */
  predicate Terminated(t: string) {
    t == "" || t[|t| - 1] == '\n'
  }

  lemma {:induction false} TextAppend(a: seq<string>, b: seq<string>)
    ensures Text(a + b) == Text(a) + Text(b)
  {
    if a == [] {
      assert a + b == b;
    } else {
      TextAppend(a[1..], b);
      Associative(a[0], Text(a[1..]), Text(b));
      HeadAndTail(a, b);
    }
  }

  lemma TextOne(l: string)
    ensures Text([l]) == l
  {
    var none: seq<string> := [];
    assert [l][1..] == none;
    assert Text(none) == "";
  }

  lemma {:induction false} FirstLineOf(l: string, rest: string)
    requires IsLine(l)
    ensures FirstLine(l + rest) == l
  {
    assert l == [l[0]] + l[1..];
    if l[0] != '\n' {
      FirstLineOf(l[1..], rest);
      assert (l + rest)[1..] == l[1..] + rest;
    }
  }

  lemma {:induction false} FirstLineWithout(t: string)
    requires '\n' !in t
    ensures FirstLine(t) == t
  {
    if t != "" {
      assert t == [t[0]] + t[1..];
      FirstLineWithout(t[1..]);
    }
  }

  /** Reading back what was written: complete lines come back as they were, and an
      unterminated tail comes back as one more line. */
  lemma {:induction false} LinesOfText(ls: seq<string>, tail: string)
    requires AllLines(ls) && '\n' !in tail
    ensures Lines(Text(ls) + tail) == ls + (if tail == "" then [] else [tail])
  {
    if ls == [] {
      assert Text(ls) + tail == tail;
      FirstLineWithout(tail);
    } else {
      var rest := Text(ls[1..]) + tail;
      FirstLineOf(ls[0], rest);
      LinesOfText(ls[1..], tail);
      Associative(ls[0], Text(ls[1..]), tail);
      DropPrefix(ls[0], rest);
      Associative([ls[0]], ls[1..], if tail == "" then [] else [tail]);
      hide FirstLine, IsLine;
    }
  }

  lemma {:induction false} FirstLineShape(t: string)
    requires t != ""
    ensures IsLine(FirstLine(t)) || (FirstLine(t) == t && '\n' !in t)
  {
    if t[0] != '\n' && |t| > 1 {
      assert t == [t[0]] + t[1..];
      FirstLineShape(t[1..]);
    }
  }

  lemma {:induction false} LinesEndTerminated(ls: seq<string>)
    requires AllLines(ls)
    ensures Terminated(Text(ls))
  {
    if ls != [] {
      LinesEndTerminated(ls[1..]);
      assert IsLine(ls[0]);
      var rest := Text(ls[1..]);
      assert Text(ls)[|ls[0] + rest| - 1] == if rest == "" then ls[0][|ls[0]| - 1] else rest[|rest| - 1];
    }
  }

  /** Every text is complete lines followed by an unterminated tail, which is what
      `readlines()` finds in it. */
  lemma {:induction false} SplitText(t: string) returns (ls: seq<string>, tail: string)
    ensures AllLines(ls) && '\n' !in tail && t == Text(ls) + tail
    ensures Lines(t) == ls + (if tail == "" then [] else [tail])
    ensures Terminated(t) <==> tail == ""
  {
    ls, tail := SplitParts(t);
    LinesOfText(ls, tail);
    LinesEndTerminated(ls);
    if tail != "" {
      assert t[|t| - 1] == tail[|tail| - 1];
    } else {
      assert t == Text(ls);
    }
  }

  lemma {:induction false} SplitParts(t: string) returns (ls: seq<string>, tail: string)
    ensures AllLines(ls) && '\n' !in tail && t == Text(ls) + tail
  {
    if t == "" {
      ls, tail := [], "";
      return;
    }
    FirstLineShape(t);
    var f := FirstLine(t);
    if IsLine(f) {
      var rest, end := SplitParts(t[|f|..]);
      ls, tail := [f] + rest, end;
      assert t == f + t[|f|..];
      assert ls[1..] == rest;
    } else {
      ls, tail := [], t;
    }
  }

  /** `writelines(readlines())` reproduces the file. */
  lemma TextOfLines(t: string)
    ensures Text(Lines(t)) == t
  {
    var ls, tail := SplitText(t);
    if tail != "" {
      TextAppend(ls, [tail]);
      assert Text([tail]) == tail + Text([]);
    }
  }
}
