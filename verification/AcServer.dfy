/** Port allocation of the AC server manager: the least free offset, over every run of starts and
    stops. */
module AcServer {
  import opened PyText

  const BASE_UDP_PORT := 9600
  const BASE_TCP_PORT := 9600
  const BASE_HTTP_PORT := 8080

  /** A registered server; its TCP port is not stored, it has the offset of the other two. */
  datatype Server = Server(port: int, httpPort: int)

  type Servers = map<string, Server>

  /** How a start goes: no executable, a failure on the way to a live process (no valid cars, a
      copy error, a crash in the first three seconds), or a live server. */
  datatype Outcome = ExeMissing | Failed | Alive

  datatype Op = Start(group: string, outcome: Outcome) | Stop(group: string) | StopAll

  function UsedOffsets(s: Servers): set<int> {
    set g | g in s :: s[g].port - BASE_UDP_PORT
  }

  /** `n` is the least natural number outside `used`. */
  ghost predicate LeastFree(used: set<int>, n: nat) {
    n !in used && forall i | 0 <= i < n :: i in used
  }

  /** The search from `n` on. Leaving out the numbers already passed makes it terminate. */
  function FirstFree(used: set<int>, n: nat): nat
    decreases |used|
  {
    if n in used then FirstFree(used - {n}, n + 1) else n
  }

  lemma {:induction false} FirstFreeIsLeast(used: set<int>, n: nat)
    ensures FirstFree(used, n) >= n && FirstFree(used, n) !in used
    ensures forall i | n <= i < FirstFree(used, n) :: i in used
    ensures FirstFree(used, n) <= n + |used|
    decreases |used|
  {
    if n in used {
      var rest := used - {n};
      FirstFreeIsLeast(rest, n + 1);
      var f := FirstFree(rest, n + 1);
      assert FirstFree(used, n) == f;
      forall i | n <= i < f ensures i in used {
        assert i == n || i in rest;
      }
    }
  }

  function ServerAt(offset: nat): Server {
    Server(BASE_UDP_PORT + offset, BASE_HTTP_PORT + offset)
  }

  function Started(s: Servers, group: string, outcome: Outcome): Servers {
    var others := s - {group};
    if outcome == Alive then others[group := ServerAt(FirstFree(UsedOffsets(others), 0))] else others
  }

  function Step(s: Servers, op: Op): Servers {
    match op
    case Start(g, o) => Started(s, g, o)
    case Stop(g) => s - {g}
    case StopAll => map[]
  }

  function Run(s: Servers, ops: seq<Op>): Servers {
    if ops == [] then s else Step(Run(s, ops[..|ops| - 1]), ops[|ops| - 1])
  }

  class ACServerManager {
    var servers: Servers

    constructor ()
      ensures servers == map[]
    {
      servers := map[];
    }

    method StopServer(group: string) returns (found: bool)
      modifies this
      ensures servers == Step(old(servers), Stop(group))
      ensures found <==> group in old(servers)
    {
      found := group in servers;
      servers := servers - {group};
    }

    /** `start_server`; `outcome` is what the file system and the process make of it. */
    method StartServer(group: string, outcome: Outcome) returns (ok: bool)
      modifies this
      ensures servers == Step(old(servers), Start(group, outcome))
      ensures ok <==> outcome == Alive
      ensures ok ==>
                && group in servers
                && exists n: nat :: servers[group] == ServerAt(n) && LeastFree(UsedOffsets(old(servers) - {group}), n)
    {
      if group in servers {
        var _ := StopServer(group);
      }
      assert servers == old(servers) - {group};
      if outcome == ExeMissing {
        return false;
      }
      var usedOffsets := UsedOffsets(servers);
      FirstFreeIsLeast(usedOffsets, 0);
      var portOffset := 0;
      while portOffset in usedOffsets
        invariant 0 <= portOffset <= FirstFree(usedOffsets, 0)
        decreases FirstFree(usedOffsets, 0) - portOffset
      {
        portOffset := portOffset + 1;
      }
      assert portOffset == FirstFree(usedOffsets, 0);
      if outcome == Failed {
        return false;
      }
      servers := servers[group := Server(BASE_UDP_PORT + portOffset, BASE_HTTP_PORT + portOffset)];
      assert servers[group] == ServerAt(portOffset);
      ok := true;
    }

    method StopAllServers()
      modifies this
      ensures servers == Step(old(servers), StopAll)
    {
      var groups := servers.Keys;
      while groups != {}
        invariant servers.Keys == groups
        decreases groups
      {
        var g :| g in groups;
        var _ := StopServer(g);
        groups := groups - {g};
      }
    }
  }

  // ------------------------------------------------------------------
  // Every run
  // ------------------------------------------------------------------

  /** The most servers ever registered at once. */
  function PeakOf(s: Servers, ops: seq<Op>): nat {
    if ops == [] then |s|
    else
      var before := PeakOf(s, ops[..|ops| - 1]);
      if |Run(s, ops)| > before then |Run(s, ops)| else before
  }

  function Offset(s: Server): int {
    s.port - BASE_UDP_PORT
  }

  /** Registered servers have distinct offsets below `peak`, shared by their ports. */
  ghost predicate Allocated(s: Servers, peak: nat) {
    && (forall g <- s :: 0 <= Offset(s[g]) < peak && s[g].httpPort == BASE_HTTP_PORT + Offset(s[g]))
    && (forall g, h | g in s && h in s && Offset(s[g]) == Offset(s[h]) :: g == h)
  }

  lemma OffsetsWith(s: Servers, group: string, server: Server)
    requires group !in s
    ensures UsedOffsets(s[group := server]) == UsedOffsets(s) + {Offset(server)}
  {
    var more := s[group := server];
    assert forall g <- s :: g in more && more[g] == s[g];
    assert group in more;
  }

  lemma Without(s: Servers, g: string)
    requires g in s
    ensures s == (s - {g})[g := s[g]] && |s - {g}| == |s| - 1
  {
    OneMoreServer(s - {g}, g, s[g]);
    assert s == (s - {g})[g := s[g]];
  }

  lemma {:induction false} FewOffsets(s: Servers)
    ensures |UsedOffsets(s)| <= |s|
    decreases |s|
  {
    if s == map[] {
      assert UsedOffsets(s) == {};
    } else {
      var g :| g in s;
      Without(s, g);
      FewOffsets(s - {g});
      OffsetsWith(s - {g}, g, s[g]);
      hide UsedOffsets;
    }
  }

  lemma StopKeeps(s: Servers, group: string, peak: nat)
    requires Allocated(s, peak)
    ensures Allocated(s - {group}, peak)
  {
    assert forall g <- s - {group} :: g in s && (s - {group})[g] == s[g];
  }

  lemma AddKeeps(s: Servers, group: string, n: nat, peak: nat)
    requires Allocated(s, peak) && n < peak && n !in UsedOffsets(s)
    ensures Allocated(s[group := ServerAt(n)], peak)
  {
    forall g | g in s ensures Offset(s[g]) != n {
      assert Offset(s[g]) in UsedOffsets(s);
    }
    hide UsedOffsets;
  }

  lemma StartKeeps(s: Servers, group: string, outcome: Outcome, peak: nat)
    requires Allocated(s, peak) && |Started(s, group, outcome)| <= peak
    ensures Allocated(Started(s, group, outcome), peak)
  {
    var others := s - {group};
    StopKeeps(s, group, peak);
    if outcome == Alive {
      var n := FirstFree(UsedOffsets(others), 0);
      FirstFreeIsLeast(UsedOffsets(others), 0);
      FewOffsets(others);
      OneMoreServer(others, group, ServerAt(n));
      AddKeeps(others, group, n, peak);
    }
    hide FirstFree, UsedOffsets, Allocated;
  }

  lemma OneMoreServer(s: Servers, group: string, server: Server)
    requires group !in s
    ensures |s[group := server]| == |s| + 1
  {
    assert s[group := server].Keys == s.Keys + {group};
    assert |s[group := server]| == |s[group := server].Keys| && |s| == |s.Keys|;
  }

  /** The offsets in use are distinct and below the most servers ever registered at once. */
  lemma {:induction false} OffsetsStayBelowPeak(ops: seq<Op>)
    ensures Allocated(Run(map[], ops), PeakOf(map[], ops))
  {
    if ops != [] {
      var n := |ops| - 1;
      OffsetsStayBelowPeak(ops[..n]);
      var before, peak := Run(map[], ops[..n]), PeakOf(map[], ops);
      assert Allocated(before, peak);
      assert Run(map[], ops) == Step(before, ops[n]);
      match ops[n]
      case Start(g, o) => StartKeeps(before, g, o, peak);
      case _ =>
    }
  }

  /** With at most six servers at a time every port is inside the firewall ranges; with at most
      1520 no server's TCP port is another's HTTP port. */
  lemma PortsAreOpenAndDistinct(ops: seq<Op>, g: string, h: string)
    requires g in Run(map[], ops) && h in Run(map[], ops)
    ensures var s := Run(map[], ops);
            && (g != h ==> s[g].port != s[h].port && s[g].httpPort != s[h].httpPort)
            && (PeakOf(map[], ops) <= 6 ==> 9600 <= s[g].port <= 9605 && 8080 <= s[g].httpPort <= 8085)
            && (PeakOf(map[], ops) <= 1520 ==> BASE_TCP_PORT + Offset(s[g]) != s[h].httpPort)
  {
    OffsetsStayBelowPeak(ops);
  }

  /** The last start or stop that concerned the group was a start that succeeded. */
  predicate LastStarted(ops: seq<Op>, group: string) {
    ops != [] &&
    var n := |ops| - 1;
    match ops[n]
    case Start(g, o) => if g == group then o == Alive else LastStarted(ops[..n], group)
    case Stop(g) => g != group && LastStarted(ops[..n], group)
    case StopAll => false
  }

  /** After every run a group has a server exactly when it was last started with success; starts and
      stops of other groups leave its server and its ports alone. */
  lemma {:induction false} RegisteredIff(ops: seq<Op>, group: string)
    ensures group in Run(map[], ops) <==> LastStarted(ops, group)
    ensures ops != [] && !ops[|ops| - 1].StopAll? && ops[|ops| - 1].group != group && LastStarted(ops, group) ==>
              && group in Run(map[], ops[..|ops| - 1])
              && Run(map[], ops)[group] == Run(map[], ops[..|ops| - 1])[group]
  {
    hide FirstFree, UsedOffsets;
    if ops != [] {
      RegisteredIff(ops[..|ops| - 1], group);
    }
  }

  // ------------------------------------------------------------------
  // Exactly when the ports are in order
  // ------------------------------------------------------------------

  /** Every port is inside the firewall ranges. */
  ghost predicate AllOpen(s: Servers) {
    forall g <- s :: 9600 <= s[g].port <= 9605 && 8080 <= s[g].httpPort <= 8085
  }

  /** No server's TCP port is a server's HTTP port. */
  ghost predicate NoClash(s: Servers) {
    forall g, h | g in s && h in s :: BASE_TCP_PORT + Offset(s[g]) != s[h].httpPort
  }

  lemma {:induction false} PeakAttained(ops: seq<Op>) returns (k: nat)
    ensures k <= |ops| && |Run(map[], ops[..k])| == PeakOf(map[], ops[..k]) == PeakOf(map[], ops)
  {
    hide Step;
    if ops != [] && |Run(map[], ops)| <= PeakOf(map[], ops[..|ops| - 1]) {
      k := PeakAttained(ops[..|ops| - 1]);
      assert ops[..|ops| - 1][..k] == ops[..k];
    } else {
      k := |ops|;
      assert ops[..k] == ops;
    }
  }

  lemma {:induction false} PeakGrows(ops: seq<Op>, k: nat)
    requires k <= |ops|
    ensures PeakOf(map[], ops[..k]) <= PeakOf(map[], ops)
  {
    hide Run;
    if k < |ops| {
      PeakGrows(ops[..|ops| - 1], k);
      assert ops[..|ops| - 1][..k] == ops[..k];
    } else {
      assert ops[..k] == ops;
    }
  }

  function Range(n: nat): set<int> {
    if n == 0 then {} else Range(n - 1) + {n - 1}
  }

  lemma {:induction false} RangeIs(n: nat)
    ensures |Range(n)| == n && forall i :: i in Range(n) <==> 0 <= i < n
  {
    if n > 0 {
      RangeIs(n - 1);
    }
  }

  lemma {:induction false} AsManyOffsets(s: Servers, peak: nat)
    requires Allocated(s, peak)
    ensures |UsedOffsets(s)| == |s|
    decreases |s|
  {
    if s == map[] {
      assert UsedOffsets(s) == {};
    } else {
      var g :| g in s;
      var rest := s - {g};
      Without(s, g);
      StopKeeps(s, g, peak);
      AsManyOffsets(rest, peak);
      OffsetsWith(rest, g, s[g]);
      OffsetIsNew(s, g, peak);
      hide UsedOffsets, Allocated;
    }
  }

  lemma OffsetIsNew(s: Servers, g: string, peak: nat)
    requires Allocated(s, peak) && g in s
    ensures Offset(s[g]) !in UsedOffsets(s - {g})
  {}

  /** As many servers as offsets below the peak: every such offset is in use. */
  lemma AllOffsetsUsed(s: Servers, i: nat) returns (g: string)
    requires Allocated(s, |s|) && i < |s|
    ensures g in s && Offset(s[g]) == i
  {
    var used, range := UsedOffsets(s), Range(|s|);
    AsManyOffsets(s, |s|);
    RangeIs(|s|);
    assert used <= range;
    if i !in used {
      SubsetSize(used, range - {i});
      assert false;
    }
    g :| g in s && s[g].port - BASE_UDP_PORT == i;
  }

  lemma SubsetSize(a: set<int>, b: set<int>)
    requires a <= b
    ensures |a| <= |b|
  {
    assert b == a + (b - a);
  }

  /** All along a run every port is inside the firewall ranges if and only if there are never more
      than six servers. */
  lemma PortsAreOpenIff(ops: seq<Op>)
    ensures (forall k | 0 <= k <= |ops| :: AllOpen(Run(map[], ops[..k]))) <==> PeakOf(map[], ops) <= 6
  {
    hide Run, PeakOf;
    if PeakOf(map[], ops) <= 6 {
      forall k | 0 <= k <= |ops| ensures AllOpen(Run(map[], ops[..k])) {
        PeakGrows(ops, k);
        OffsetsStayBelowPeak(ops[..k]);
      }
    } else {
      var k := PeakAttained(ops);
      OffsetsStayBelowPeak(ops[..k]);
      var g := AllOffsetsUsed(Run(map[], ops[..k]), 6);
    }
  }

  /** All along a run no TCP port is an HTTP port if and only if there are never more than 1520
      servers. */
  lemma PortsAreDistinctIff(ops: seq<Op>)
    ensures (forall k | 0 <= k <= |ops| :: NoClash(Run(map[], ops[..k]))) <==> PeakOf(map[], ops) <= 1520
  {
    hide Run, PeakOf;
    if PeakOf(map[], ops) <= 1520 {
      forall k | 0 <= k <= |ops| ensures NoClash(Run(map[], ops[..k])) {
        PeakGrows(ops, k);
        OffsetsStayBelowPeak(ops[..k]);
      }
    } else {
      var k := PeakAttained(ops);
      OffsetsStayBelowPeak(ops[..k]);
      var g := AllOffsetsUsed(Run(map[], ops[..k]), 0);
      var h := AllOffsetsUsed(Run(map[], ops[..k]), 1520);
    }
  }

  // ------------------------------------------------------------------
  // The bounds are sharp
  // ------------------------------------------------------------------

  /** The servers `names` started one after the other. */
  function Starts(names: seq<string>): seq<Op> {
    seq(|names|, i requires 0 <= i < |names| => Start(names[i], Alive))
  }

  /** Servers started in turn get offsets 0, 1, 2, ... */
  lemma {:induction false} StartsFillUp(names: seq<string>)
    requires NoRepeats(names)
    ensures var s := Run(map[], Starts(names));
            && s.Keys == (set n <- names)
            && forall i | 0 <= i < |names| :: s[names[i]] == ServerAt(i)
  {
    hide UsedOffsets, FirstFree, LeastFree, Run, Starts, Started;
    LastStart(names);
    if names != [] {
      var n := |names| - 1;
      var init := names[..n];
      assert forall i | 0 <= i < n :: names[i] == init[i];
      assert names == init + [names[n]];
      StartsFillUp(init);
      var b := Run(map[], Starts(init));
      assert names[n] !in init;
      FilledOffsets(b, init);
      StartedNext(b, names[n], n);
      assert forall i | 0 <= i < n :: init[i] in init;
    }
  }

  lemma LastStart(names: seq<string>)
    ensures names == [] ==> Run(map[], Starts(names)) == map[]
    ensures names != [] ==>
              var n := |names| - 1;
              Run(map[], Starts(names)) == Started(Run(map[], Starts(names[..n])), names[n], Alive)
  {
    if names != [] {
      assert Starts(names)[..|names| - 1] == Starts(names[..|names| - 1]);
    }
    hide Started;
  }

  lemma StartedNext(s: Servers, name: string, n: nat)
    requires name !in s && FirstFree(UsedOffsets(s), 0) == n
    ensures Started(s, name, Alive) == s[name := ServerAt(n)]
  {
    assert s - {name} == s;
    hide UsedOffsets, FirstFree;
  }

  lemma FilledOffsets(s: Servers, names: seq<string>)
    requires NoRepeats(names) && s.Keys == (set n <- names)
    requires forall i | 0 <= i < |names| :: s[names[i]] == ServerAt(i)
    ensures FirstFree(UsedOffsets(s), 0) == |names|
  {
    var used := UsedOffsets(s);
    forall i | 0 <= i < |names| ensures i in used {
      assert names[i] in s && s[names[i]].port - BASE_UDP_PORT == i;
    }
    forall x | x in used ensures 0 <= x < |names| {
      var g :| g in s && x == s[g].port - BASE_UDP_PORT;
      var i :| 0 <= i < |names| && names[i] == g;
    }
    FirstFreeIsLeast(used, 0);
    assert |names| !in used;
    var f := FirstFree(used, 0);
    assert f < |names| ==> f in used;
  }

  /** A seventh server at a time is outside the firewall ranges, and a 1521st takes the first
      one's TCP port for its HTTP port. */
  lemma BoundsAreSharp(names: seq<string>)
    requires NoRepeats(names)
    ensures |names| == 7 ==>
              var s := Run(map[], Starts(names));
              names[6] in s && s[names[6]].port == 9606 && s[names[6]].httpPort == 8086
    ensures |names| == 1521 ==>
              var s := Run(map[], Starts(names));
              names[0] in s && names[1520] in s && BASE_TCP_PORT + Offset(s[names[0]]) == s[names[1520]].httpPort
  {
    StartsFillUp(names);
    hide Run, Starts;
  }
}
