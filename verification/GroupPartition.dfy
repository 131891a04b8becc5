/** Group membership: a rig is in at most one group, so the first group found for it is the only
    one, in whatever order the groups are searched. */
module GroupPartition {
  import opened PyText
  import opened Orchestrator

  /** Group ids are distinct, and no rig is listed twice, within a group or across groups. */
  ghost predicate Partition(groups: seq<Group>) {
    && (forall i, j | 0 <= i < j < |groups| :: groups[i].id != groups[j].id)
    && (forall i | 0 <= i < |groups| :: NoRepeats(groups[i].rigIds))
    && (forall i, j, r | 0 <= i < |groups| && 0 <= j < |groups| && r in groups[i].rigIds && r in groups[j].rigIds ::
          i == j)
  }

  /** A rig that names a group is listed in it. */
  ghost predicate Listed(h: Hub) {
    forall r <- h.rigs | h.rigs[r].groupId.Some? ::
      exists i | 0 <= i < |h.groups| :: h.groups[i].id == h.rigs[r].groupId.value && r in h.groups[i].rigIds
  }

  ghost predicate Sound(h: Hub) {
    Partition(h.groups) && Listed(h)
  }

  // ------------------------------------------------------------------
  // The list operations, position by position
  // ------------------------------------------------------------------

  lemma {:induction false} RemoveFirstMembers(ids: seq<string>, rid: string)
    requires NoRepeats(ids)
    ensures NoRepeats(RemoveFirst(ids, rid))
    ensures forall r :: r in RemoveFirst(ids, rid) <==> r in ids && r != rid
  {
    if ids != [] {
      assert ids == [ids[0]] + ids[1..];
      assert forall i | 0 <= i < |ids[1..]| :: ids[1..][i] == ids[i + 1];
      assert ids[0] !in ids[1..];
      RemoveFirstMembers(ids[1..], rid);
    }
  }

  lemma {:induction false} FindAt(groups: seq<Group>, gid: string) returns (i: nat)
    requires Find(groups, gid).Some?
    ensures i < |groups| && groups[i].id == gid && Find(groups, gid).value == groups[i]
    ensures forall j | 0 <= j < i :: groups[j].id != gid
  {
    if groups[0].id == gid {
      i := 0;
    } else {
      var k := FindAt(groups[1..], gid);
      i := k + 1;
      assert forall j | 0 < j < i :: groups[j] == groups[1..][j - 1];
    }
  }

  lemma {:induction false} FindNone(groups: seq<Group>, gid: string)
    ensures Find(groups, gid) == None <==> forall i | 0 <= i < |groups| :: groups[i].id != gid
  {
    if groups != [] {
      FindNone(groups[1..], gid);
      assert forall i | 0 < i < |groups| :: groups[i] == groups[1..][i - 1];
    }
  }

  lemma {:induction false} MovedAt(groups: seq<Group>, gid: string, rid: string)
    ensures |Moved(groups, gid, rid)| == |groups|
    ensures forall i | 0 <= i < |groups| ::
              Moved(groups, gid, rid)[i] ==
              var g := WithoutRig(groups[i], rid);
              if g.id == gid then g.(rigIds := g.rigIds + [rid]) else g
  {
    if groups != [] {
      MovedAt(groups[1..], gid, rid);
    }
  }

  lemma {:induction false} StoreAt(groups: seq<Group>, g: Group)
    ensures Find(groups, g.id) == None ==> Store(groups, g) == groups + [g]
    ensures Find(groups, g.id).Some? ==>
              exists i | 0 <= i < |groups| ::
                groups[i] == Find(groups, g.id).value && Store(groups, g) == groups[i := g]
  {
    if groups != [] && groups[0].id != g.id {
      StoreAt(groups[1..], g);
      if Find(groups, g.id).Some? {
        var rest := groups[1..];
        var i :| 0 <= i < |rest| && rest[i] == Find(rest, g.id).value && Store(rest, g) == rest[i := g];
        assert groups[i + 1] == rest[i];
        assert Store(groups, g) == groups[i + 1 := g];
      }
    } else if groups != [] {
      assert Store(groups, g) == groups[0 := g];
    }
  }

  lemma {:induction false} DropAt(groups: seq<Group>, gid: string) returns (i: nat)
    requires Find(groups, gid).Some?
    ensures i < |groups| && groups[i] == Find(groups, gid).value && groups[i].id == gid
    ensures Drop(groups, gid) == groups[..i] + groups[i + 1..]
  {
    if groups[0].id == gid {
      i := 0;
    } else {
      var k := DropAt(groups[1..], gid);
      i := k + 1;
      assert groups[..i] == [groups[0]] + groups[1..][..k];
      assert groups[1..][k + 1..] == groups[i + 1..];
    }
  }

  // ------------------------------------------------------------------
  // Each event keeps the partition
  // ------------------------------------------------------------------

  lemma MoveKeeps(groups: seq<Group>, gid: string, rid: string)
    requires Partition(groups)
    ensures |Moved(groups, gid, rid)| == |groups| && Partition(Moved(groups, gid, rid))
    ensures forall i, r | 0 <= i < |groups| ::
              r in Moved(groups, gid, rid)[i].rigIds <==>
              if r == rid then groups[i].id == gid else r in groups[i].rigIds
  {
    var m := Moved(groups, gid, rid);
    MovedAt(groups, gid, rid);
    forall i | 0 <= i < |groups|
      ensures NoRepeats(m[i].rigIds) && m[i].id == groups[i].id
      ensures forall r :: r in m[i].rigIds <==> if r == rid then groups[i].id == gid else r in groups[i].rigIds
    {
      RemoveFirstMembers(groups[i].rigIds, rid);
      var kept := RemoveFirst(groups[i].rigIds, rid);
      assert forall a | 0 <= a < |kept| :: kept[a] in kept;
    }
  }

  lemma AddKeeps(h: Hub, gid: string, rid: string, now: real)
    requires Sound(h)
    ensures Sound(Next(h, AddRigToGroup(gid, rid), now))
  {
    var n := Next(h, AddRigToGroup(gid, rid), now);
    if Find(h.groups, gid).Some? {
      MoveKeeps(h.groups, gid, rid);
      MovedAt(h.groups, gid, rid);
      var at := FindAt(h.groups, gid);
      forall r <- n.rigs | n.rigs[r].groupId.Some?
        ensures exists i | 0 <= i < |n.groups| :: n.groups[i].id == n.rigs[r].groupId.value && r in n.groups[i].rigIds
      {
        if r == rid {
          assert n.groups[at].id == gid && rid in n.groups[at].rigIds;
        } else {
          var i :| 0 <= i < |h.groups| && h.groups[i].id == h.rigs[r].groupId.value && r in h.groups[i].rigIds;
          assert n.groups[i].id == h.groups[i].id && r in n.groups[i].rigIds;
        }
      }
    }
  }

  /** Taking a rig out of the group at `i`. */
  lemma ShrinkKeeps(groups: seq<Group>, i: nat, rid: string)
    requires Partition(groups) && i < |groups|
    ensures Partition(groups[i := WithoutRig(groups[i], rid)])
    ensures forall r :: r in WithoutRig(groups[i], rid).rigIds <==> r in groups[i].rigIds && r != rid
  {
    RemoveFirstMembers(groups[i].rigIds, rid);
  }

  lemma RemoveKeeps(h: Hub, gid: string, rid: string, now: real)
    requires Sound(h)
    ensures Sound(Next(h, RemoveRigFromGroup(gid, rid), now))
  {
    hide Partition, NoRepeats, RemoveFirst, OnPost, Moved, Drop;
    var n := Next(h, RemoveRigFromGroup(gid, rid), now);
    if rid in Members(h.groups, gid) {
      var g := WithoutRig(Find(h.groups, gid).value, rid);
      var at := FindAt(h.groups, gid);
      StoreAt(h.groups, g);
      var i :| 0 <= i < |h.groups| && h.groups[i] == Find(h.groups, g.id).value && n.groups == h.groups[i := g];
      ShrinkKeeps(h.groups, i, rid);
      forall r <- n.rigs | n.rigs[r].groupId.Some?
        ensures exists j | 0 <= j < |n.groups| :: n.groups[j].id == n.rigs[r].groupId.value && r in n.groups[j].rigIds
      {
        var j :| 0 <= j < |h.groups| && h.groups[j].id == h.rigs[r].groupId.value && r in h.groups[j].rigIds;
        assert n.groups[j].id == h.groups[j].id && r in n.groups[j].rigIds;
      }
    }
  }

  lemma DeleteKeeps(h: Hub, gid: string, now: real)
    requires Sound(h)
    ensures Sound(Next(h, DeleteGroup(gid), now))
  {
    hide Partition, OnPost, Moved;
    var n := Next(h, DeleteGroup(gid), now);
    if Find(h.groups, gid) == None {
      DropAbsent(h.groups, gid);
      assert n.rigs == h.rigs;
    } else {
      var i := DropAt(h.groups, gid);
      DropKeepsPartition(h.groups, i);
      assert n.rigs == Unassigned(h.rigs, (set r <- h.groups[i].rigIds));
      forall r <- n.rigs | n.rigs[r].groupId.Some?
        ensures exists j | 0 <= j < |n.groups| :: n.groups[j].id == n.rigs[r].groupId.value && r in n.groups[j].rigIds
      {
        assert r !in h.groups[i].rigIds && n.rigs[r] == h.rigs[r];
        var j :| 0 <= j < |h.groups| && h.groups[j].id == h.rigs[r].groupId.value && r in h.groups[j].rigIds;
        assert n.groups[if j < i then j else j - 1] == h.groups[j];
      }
    }
  }

  lemma DropKeepsPartition(groups: seq<Group>, i: nat)
    requires Partition(groups) && i < |groups|
    ensures Partition(groups[..i] + groups[i + 1..])
  {
    var d := groups[..i] + groups[i + 1..];
    assert forall j | 0 <= j < |d| :: d[j] == groups[if j < i then j else j + 1];
  }

  lemma CreateKeeps(h: Hub, gid: string, name: string, now: real)
    requires Sound(h) && Find(h.groups, gid) == None
    ensures Sound(Next(h, CreateGroup(gid, name), now))
  {
    hide OnPost, OnLap, PostedRig, Broadcast, Moved, Drop, GroupOf, Stale, Members;
    var n := Next(h, CreateGroup(gid, name), now);
    FindNone(h.groups, gid);
    StoreAt(h.groups, Group(gid, name, "monza", []));
    forall r <- n.rigs | n.rigs[r].groupId.Some?
      ensures exists j | 0 <= j < |n.groups| :: n.groups[j].id == n.rigs[r].groupId.value && r in n.groups[j].rigIds
    {
      var j :| 0 <= j < |h.groups| && h.groups[j].id == h.rigs[r].groupId.value && r in h.groups[j].rigIds;
      assert n.groups[j] == h.groups[j];
    }
  }

  /** A new name or track leaves the members as they are. */
  lemma UpdateKeeps(h: Hub, gid: string, name: Option<string>, track: Option<string>, now: real)
    requires Sound(h)
    ensures Sound(Next(h, UpdateGroup(gid, name, track), now))
  {
    hide Next, Find, Served, Store, NoRepeats;
    var e := UpdateGroup(gid, name, track);
    var n := Next(h, e, now);
    GroupsStep(h, e, now);
    if Find(h.groups, gid).Some? {
      var i := RenameAt(h.groups, gid, name, track);
    }
    SameMembersKeep(h, e, now);
  }

  /** An event that changes neither members nor ids, and makes no rig name a group. */
  lemma SameMembersKeep(h: Hub, e: Event, now: real)
    requires Sound(h)
    requires !e.AddRigToGroup? && !e.RemoveRigFromGroup? && !e.DeleteGroup?
    requires var g := Next(h, e, now).groups;
             && |g| == |h.groups|
             && forall i | 0 <= i < |g| :: g[i].id == h.groups[i].id && g[i].rigIds == h.groups[i].rigIds
    ensures Sound(Next(h, e, now))
  {
    hide Next, Served, Find, NoRepeats, RigPosted, Commanded, Broadcast, Marked;
    var n := Next(h, e, now);
    forall r <- n.rigs | n.rigs[r].groupId.Some?
      ensures exists j | 0 <= j < |n.groups| :: n.groups[j].id == n.rigs[r].groupId.value && r in n.groups[j].rigIds
    {
      RecordStep(h, e, now, r);
      GroupIdKept(h, e, now, r);
      var j :| 0 <= j < |h.groups| && h.groups[j].id == h.rigs[r].groupId.value && r in h.groups[j].rigIds;
      assert n.groups[j].id == h.groups[j].id && n.groups[j].rigIds == h.groups[j].rigIds;
    }
  }

  lemma GroupIdKept(h: Hub, e: Event, now: real, rid: string)
    requires !e.AddRigToGroup? && !e.RemoveRigFromGroup? && !e.DeleteGroup?
    ensures var after := RigAfter(h, e, now, rid);
            after.Some? ==>
              after.value.groupId == if rid in h.rigs then h.rigs[rid].groupId else None
  {
    hide Served, Find, Next;
  }

  lemma RenameAt(groups: seq<Group>, gid: string, name: Option<string>, track: Option<string>) returns (i: nat)
    requires Find(groups, gid).Some?
    ensures i < |groups| && Store(groups, Updated(Find(groups, gid).value, name, track)) ==
                            groups[i := Updated(groups[i], name, track)]
  {
    var at := FindAt(groups, gid);
    var g := Updated(Find(groups, gid).value, name, track);
    StoreAt(groups, g);
    i :| 0 <= i < |groups| && groups[i] == Find(groups, gid).value && Store(groups, g) == groups[i := g];
  }

  /** Heartbeats, commands, modes, names, updates and the reaper leave the groups as they are, and
      make no rig name a group. */
  lemma RigEventKeeps(h: Hub, e: Event, now: real)
    requires Sound(h)
    requires !e.AddRigToGroup? && !e.RemoveRigFromGroup? && !e.DeleteGroup? && !e.CreateGroup? && !e.UpdateGroup?
    ensures Sound(Next(h, e, now))
  {
    hide Next, Sound, GroupOf;
    GroupsStep(h, e, now);
    SameMembersKeep(h, e, now);
  }

  /** New groups get ids no group has. */
  predicate FreshIds(h: Hub, es: seq<Stamped>) {
    es == [] ||
    var n := |es| - 1;
    && FreshIds(h, es[..n])
    && (es[n].0.CreateGroup? ==> Find(Run(h, es[..n]).groups, es[n].0.gid) == None)
  }

  /** In every reachable state no rig is listed twice, and a rig that names a group is in it. */
  lemma {:induction false} GroupsStaySound(h: Hub, es: seq<Stamped>)
    requires Sound(h) && FreshIds(h, es)
    ensures Sound(Run(h, es))
  {
    if es != [] {
      var n := |es| - 1;
      GroupsStaySound(h, es[..n]);
      var s, now := Run(h, es[..n]), es[n].1;
      hide Sound, Next;
      match es[n].0
      case AddRigToGroup(gid, rid) => AddKeeps(s, gid, rid, now);
      case RemoveRigFromGroup(gid, rid) => RemoveKeeps(s, gid, rid, now);
      case DeleteGroup(gid) => DeleteKeeps(s, gid, now);
      case CreateGroup(gid, name) => CreateKeeps(s, gid, name, now);
      case UpdateGroup(gid, name, track) => UpdateKeeps(s, gid, name, track, now);
      case e => RigEventKeeps(s, e, now);
    }
  }

  // ------------------------------------------------------------------
  // The group of a rig
  // ------------------------------------------------------------------

  lemma {:induction false} GroupOfAt(groups: seq<Group>, rid: string)
    ensures GroupOf(groups, rid).Some? ==>
              GroupOf(groups, rid).value in groups && rid in GroupOf(groups, rid).value.rigIds
    ensures GroupOf(groups, rid) == None <==> forall g <- groups :: rid !in g.rigIds
  {
    if groups != [] {
      GroupOfAt(groups[1..], rid);
      assert groups == [groups[0]] + groups[1..];
    }
  }

  lemma OnlyGroup(groups: seq<Group>, rid: string, g: Group)
    requires Partition(groups) && g in groups && rid in g.rigIds
    ensures GroupOf(groups, rid) == Some(g)
  {
    GroupOfAt(groups, rid);
    var f := GroupOf(groups, rid).value;
    var i :| 0 <= i < |groups| && groups[i] == f;
    var j :| 0 <= j < |groups| && groups[j] == g;
  }

  /** The first group listing a rig is the same in any order of the groups, and it is the group the
      rig's record names, if it names one. */
  lemma GroupLookupIgnoresOrder(h: Hub, others: seq<Group>, rid: string)
    requires Sound(h) && Partition(others) && multiset(others) == multiset(h.groups)
    ensures GroupOf(others, rid) == GroupOf(h.groups, rid)
    ensures rid in h.rigs && h.rigs[rid].groupId.Some? ==>
              GroupOf(h.groups, rid).Some? && GroupOf(h.groups, rid).value.id == h.rigs[rid].groupId.value
  {
    assert forall g :: g in others <==> g in multiset(others);
    assert forall g :: g in h.groups <==> g in multiset(h.groups);
    GroupOfAt(others, rid);
    GroupOfAt(h.groups, rid);
    if GroupOf(h.groups, rid).Some? {
      OnlyGroup(others, rid, GroupOf(h.groups, rid).value);
    }
    if rid in h.rigs && h.rigs[rid].groupId.Some? {
      var i :| 0 <= i < |h.groups| && h.groups[i].id == h.rigs[rid].groupId.value && rid in h.groups[i].rigIds;
      OnlyGroup(h.groups, rid, h.groups[i]);
    }
  }

  // ------------------------------------------------------------------
  // Name and track of a group
  // ------------------------------------------------------------------

  /** The name and the track of a group, if there is such a group. */
  function TitleOf(groups: seq<Group>, gid: string): Option<(string, string)> {
    match Find(groups, gid) case Some(g) => Some((g.name, g.track)) case None => None
  }

  /** What a run makes of the name and the track: a new group is at Monza, and an update changes
      what it gives. */
  function TitleAfter(start: Option<(string, string)>, es: seq<Stamped>, gid: string): Option<(string, string)> {
    if es == [] then start
    else
      var n := |es| - 1;
      var before := TitleAfter(start, es[..n], gid);
      match es[n].0
      case CreateGroup(g, name) => if g == gid then Some((name, "monza")) else before
      case DeleteGroup(g) => if g == gid then None else before
      case UpdateGroup(g, name, track) =>
        if g != gid || before == None then before
        else
          Some((if name.Some? then name.value else before.value.0, if track.Some? then track.value else before.value.1))
      case _ => before
  }

  lemma {:induction false} FindStored(groups: seq<Group>, g: Group, gid: string)
    ensures Find(Store(groups, g), gid) == if g.id == gid then Some(g) else Find(groups, gid)
  {
    if groups != [] && groups[0].id != g.id {
      FindStored(groups[1..], g, gid);
    }
  }

  lemma {:induction false} FindDropped(groups: seq<Group>, dropped: string, gid: string)
    requires Partition(groups)
    ensures Find(Drop(groups, dropped), gid) == if dropped == gid then None else Find(groups, gid)
  {
    if groups != [] {
      var rest := groups[1..];
      assert forall i | 0 <= i < |rest| :: rest[i] == groups[i + 1];
      if groups[0].id != dropped {
        FindDropped(rest, dropped, gid);
      } else {
        FindNone(rest, dropped);
      }
    }
  }

  lemma {:induction false} FindMoved(groups: seq<Group>, to: string, rid: string, gid: string)
    ensures TitleOf(Moved(groups, to, rid), gid) == TitleOf(groups, gid)
  {
    if groups != [] {
      FindMoved(groups[1..], to, rid, gid);
    }
  }

  lemma TitleStep(groups: seq<Group>, e: Event, gid: string)
    requires Partition(groups)
    ensures TitleOf(GroupsAfter(groups, e), gid) ==
            match e
            case CreateGroup(g, name) => if g == gid then Some((name, "monza")) else TitleOf(groups, gid)
            case DeleteGroup(g) => if g == gid then None else TitleOf(groups, gid)
            case UpdateGroup(g, name, track) =>
              var before := TitleOf(groups, gid);
              if g != gid || before == None then before
              else
                Some((if name.Some? then name.value else before.value.0,
                      if track.Some? then track.value else before.value.1))
            case _ => TitleOf(groups, gid)
  {
    hide Store, Drop, Moved, Partition;
    match e
    case CreateGroup(g, name) => FindStored(groups, Group(g, name, "monza", []), gid);
    case DeleteGroup(g) => FindDropped(groups, g, gid);
    case UpdateGroup(g, name, track) =>
      if Find(groups, g).Some? {
        var at := FindAt(groups, g);
        FindStored(groups, Updated(Find(groups, g).value, name, track), gid);
      }
    case AddRigToGroup(g, r) => FindMoved(groups, g, r, gid);
    case RemoveRigFromGroup(g, r) =>
      if r in Members(groups, g) {
        var at := FindAt(groups, g);
        FindStored(groups, WithoutRig(Find(groups, g).value, r), gid);
      }
    case _ =>
  }

  /** After every run a group has the name it was made or last updated with, and the track it was
      last updated with or, before that, Monza. */
  lemma {:induction false} TitleIsLatest(h: Hub, es: seq<Stamped>, gid: string)
    requires Sound(h) && FreshIds(h, es)
    ensures TitleOf(Run(h, es).groups, gid) == TitleAfter(TitleOf(h.groups, gid), es, gid)
  {
    hide Next, Sound, TitleOf, GroupsAfter;
    if es != [] {
      var n := |es| - 1;
      TitleIsLatest(h, es[..n], gid);
      GroupsStaySound(h, es[..n]);
      SoundIsPartition(Run(h, es[..n]));
      GroupsStep(Run(h, es[..n]), es[n].0, es[n].1);
      TitleStep(Run(h, es[..n]).groups, es[n].0, gid);
    }
  }

  // ------------------------------------------------------------------
  // Listed rigs whose record names no group
  // ------------------------------------------------------------------

  /** A group lists the rig. */
  ghost predicate InSomeGroup(groups: seq<Group>, rid: string) {
    exists i | 0 <= i < |groups| :: rid in groups[i].rigIds
  }

  ghost predicate NamesGroup(h: Hub, rid: string) {
    rid in h.rigs && h.rigs[rid].groupId.Some?
  }

  /** The rig is put into a group that exists. */
  predicate Joins(h: Hub, e: Event, rid: string) {
    e.AddRigToGroup? && e.rid == rid && Find(h.groups, e.gid).Some?
  }

  /** The rig had a record when it was last put into a group, and the reaper has not taken that
      record since. */
  ghost predicate Attached(h: Hub, es: seq<Stamped>, rid: string) {
    if es == [] then NamesGroup(h, rid)
    else
      var n := |es| - 1;
      var before := Run(h, es[..n]);
      if Joins(before, es[n].0, rid) then rid in before.rigs
      else Attached(h, es[..n], rid) && !Reaped(before, es[n].0, es[n].1, rid)
  }

  /** A rig comes to be listed only by joining; until it leaves, only the reaper makes its record
      lose the group's name. */
  lemma ListedStep(h: Hub, e: Event, now: real, rid: string)
    requires Partition(h.groups) && (e.CreateGroup? ==> Find(h.groups, e.gid) == None)
    requires InSomeGroup(Next(h, e, now).groups, rid) && !Joins(h, e, rid)
    ensures InSomeGroup(h.groups, rid)
    ensures NamesGroup(Next(h, e, now), rid) <==> NamesGroup(h, rid) && !Reaped(h, e, now, rid)
  {
    hide Next, Partition, InSomeGroup, Moved, Store, Drop, Served;
    GroupsStep(h, e, now);
    RecordStep(h, e, now, rid);
    match e
    case AddRigToGroup(gid, r) =>
      if Find(h.groups, gid).Some? {
        MoveLists(h.groups, gid, r, rid);
      }
    case RemoveRigFromGroup(gid, r) => RemoveUnlists(h, gid, r, now, rid);
    case DeleteGroup(gid) => DeleteUnlists(h, gid, now, rid);
    case CreateGroup(gid, name) => NewListsNone(h.groups, Group(gid, name, "monza", []), rid);
    case UpdateGroup(gid, name, track) =>
      if Find(h.groups, gid).Some? {
        RenameLists(h.groups, gid, name, track, rid);
      }
    case _ =>
  }

  lemma MoveLists(groups: seq<Group>, gid: string, r: string, rid: string)
    requires Partition(groups) && InSomeGroup(Moved(groups, gid, r), rid) && r != rid
    ensures InSomeGroup(groups, rid)
  {
    MoveKeeps(groups, gid, r);
  }

  lemma RenameLists(groups: seq<Group>, gid: string, name: Option<string>, track: Option<string>, rid: string)
    requires Find(groups, gid).Some?
    requires InSomeGroup(Store(groups, Updated(Find(groups, gid).value, name, track)), rid)
    ensures InSomeGroup(groups, rid)
  {
    var i := RenameAt(groups, gid, name, track);
  }

  lemma NewListsNone(groups: seq<Group>, g: Group, rid: string)
    requires Find(groups, g.id) == None && g.rigIds == [] && InSomeGroup(Store(groups, g), rid)
    ensures InSomeGroup(groups, rid)
  {
    StoreAt(groups, g);
  }

  lemma RemoveUnlists(h: Hub, gid: string, r: string, now: real, rid: string)
    requires Partition(h.groups)
    requires var n := Next(h, RemoveRigFromGroup(gid, r), now); InSomeGroup(n.groups, rid)
    ensures InSomeGroup(h.groups, rid)
    ensures NamesGroup(Next(h, RemoveRigFromGroup(gid, r), now), rid) <==> NamesGroup(h, rid)
  {
    var n := Next(h, RemoveRigFromGroup(gid, r), now);
    if r in Members(h.groups, gid) {
      var g := WithoutRig(Find(h.groups, gid).value, r);
      var at := FindAt(h.groups, gid);
      StoreAt(h.groups, g);
      var i :| 0 <= i < |h.groups| && h.groups[i] == Find(h.groups, g.id).value && n.groups == h.groups[i := g];
      ShrinkKeeps(h.groups, i, r);
      var j :| 0 <= j < |n.groups| && rid in n.groups[j].rigIds;
      assert rid in h.groups[j].rigIds;
    }
  }

  lemma DeleteUnlists(h: Hub, gid: string, now: real, rid: string)
    requires Partition(h.groups)
    requires InSomeGroup(Next(h, DeleteGroup(gid), now).groups, rid)
    ensures InSomeGroup(h.groups, rid)
    ensures NamesGroup(Next(h, DeleteGroup(gid), now), rid) <==> NamesGroup(h, rid)
  {
    DropUnlists(h.groups, gid, rid);
    hide InSomeGroup, Partition, Members, OnPost, Moved, Drop;
  }

  /** A rig listed after a group is dropped was listed before, and not in that group. */
  lemma DropUnlists(groups: seq<Group>, gid: string, rid: string)
    requires Partition(groups) && InSomeGroup(Drop(groups, gid), rid)
    ensures InSomeGroup(groups, rid) && rid !in Members(groups, gid)
  {
    hide Find, Drop, NoRepeats;
    if Find(groups, gid) == None {
      DropAbsent(groups, gid);
    } else {
      var i := DropAt(groups, gid);
      var d := Drop(groups, gid);
      var j :| 0 <= j < |d| && rid in d[j].rigIds;
      var k := if j < i then j else j + 1;
      assert d[j] == groups[k] && k != i;
    }
  }

  lemma JoinNames(h: Hub, e: Event, now: real, rid: string)
    requires Joins(h, e, rid)
    ensures NamesGroup(Next(h, e, now), rid) <==> rid in h.rigs
  {}

  lemma {:induction false} NamesGroupIff(h: Hub, es: seq<Stamped>, rid: string)
    requires Sound(h) && FreshIds(h, es)
    requires InSomeGroup(Run(h, es).groups, rid)
    ensures NamesGroup(Run(h, es), rid) <==> Attached(h, es, rid)
  {
    hide Next, Sound, Joins, Reaped, InSomeGroup, NamesGroup;
    if es != [] {
      var n := |es| - 1;
      var s, e, now := Run(h, es[..n]), es[n].0, es[n].1;
      GroupsStaySound(h, es[..n]);
      if Joins(s, e, rid) {
        JoinNames(s, e, now, rid);
      } else {
        assert Partition(s.groups) by { SoundIsPartition(s); }
        ListedStep(s, e, now, rid);
        NamesGroupIff(h, es[..n], rid);
      }
    }
  }

  lemma SoundIsPartition(h: Hub)
    requires Sound(h)
    ensures Partition(h.groups)
  {}

  /** In every reachable state a rig that a group lists has a record that names this very group
      exactly when it had a record as it was put there, and has not been reaped since. */
  lemma ListedRigNamesItsGroupIff(h: Hub, es: seq<Stamped>, rid: string)
    requires Sound(h) && FreshIds(h, es) && GroupOf(Run(h, es).groups, rid).Some?
    ensures var s := Run(h, es);
            rid in s.rigs && s.rigs[rid].groupId == Some(GroupOf(s.groups, rid).value.id) <==> Attached(h, es, rid)
  {
    var s := Run(h, es);
    GroupsStaySound(h, es);
    GroupOfAt(s.groups, rid);
    var g := GroupOf(s.groups, rid).value;
    var i :| 0 <= i < |s.groups| && s.groups[i] == g;
    NamesGroupIff(h, es, rid);
    GroupLookupIgnoresOrder(s, s.groups, rid);
    hide Run, Attached, GroupOf, Sound;
  }

  /** One way to be listed without naming the group: to be reaped and heard from again. */
  lemma RediscoveredRigForgetsGroup(h: Hub, rid: string, ip: string, now: real)
    requires rid in h.rigs && Stale(h.rigs[rid], now) && GroupOf(h.groups, rid).Some?
    ensures var n := Next(Next(h, Reap, now), Post(rid, StatusUpdate(None, ip, None, true, None)), now);
            rid in n.rigs && n.rigs[rid].groupId == None && GroupOf(n.groups, rid).Some?
  {}

  /** The other: to be put into a group before the first heartbeat. */
  lemma EarlyRigNamesNoGroup(h: Hub, gid: string, rid: string, ip: string, now: real)
    requires Partition(h.groups) && rid !in h.rigs && Find(h.groups, gid).Some?
    ensures var joined := Next(h, AddRigToGroup(gid, rid), now);
            var n := Next(joined, Post(rid, StatusUpdate(None, ip, None, true, None)), now);
            rid in n.rigs && n.rigs[rid].groupId == None && GroupOf(n.groups, rid).Some?
  {
    MovedIsListed(h.groups, gid, rid);
    hide Moved, Partition, GroupOf;
  }

  lemma MovedIsListed(groups: seq<Group>, gid: string, rid: string)
    requires Partition(groups) && Find(groups, gid).Some?
    ensures GroupOf(Moved(groups, gid, rid), rid).Some?
  {
    MoveKeeps(groups, gid, rid);
    var at := FindAt(groups, gid);
    var m := Moved(groups, gid, rid);
    GroupOfAt(m, rid);
    assert m[at] in m;
  }
}
