/** The exporter over whole histories of messages. */
module ExporterRuns {
  import opened Base
  import opened Keys
  import opened Exporter

  ghost function LastOf(rooms: seq<Room>, id: int64): Option<Room> {
    if rooms == [] then None
    else if rooms[|rooms| - 1].id == id then Some(rooms[|rooms| - 1])
    else LastOf(rooms[..|rooms| - 1], id)
  }

  /** What a family should say about a room after a message. */
  ghost function Snapshot(f: Family, rooms: seq<Room>, id: int64): Option<real> {
    match LastOf(rooms, id)
    case None => None
    case Some(room) => Some(Value(f, room))
  }

  ghost function At(g: Series, node: string, id: int64): Option<real> {
    if (node, Itoa(id)) in g then Some(g[(node, Itoa(id))]) else None
  }

  lemma {:induction false} CreatedAt(g: Series, f: Family, node: string, rooms: seq<Room>, n: string, id: int64)
    ensures At(Created(g, f, node, rooms), n, id) ==
            if n == node && LastOf(rooms, id) != None then Snapshot(f, rooms, id) else At(g, n, id)
  {
    if rooms == [] {
    } else {
      CreatedAt(g, f, node, rooms[..|rooms| - 1], n, id);
      ItoaInjective(rooms[|rooms| - 1].id, id);
    }
  }

  lemma {:induction false} StampedAt(v: Versions, rooms: seq<Room>, now: int, id: int64)
    ensures id in Stamped(v, rooms, now) <==> id in v || LastOf(rooms, id) != None
    ensures id in Stamped(v, rooms, now) ==>
              Stamped(v, rooms, now)[id] == if LastOf(rooms, id) != None then now else v[id]
  {
    if rooms == [] {
    } else {
      StampedAt(v, rooms[..|rooms| - 1], now, id);
    }
  }

  lemma SweptAt(g: Series, node: string, ids: set<int64>, n: string, id: int64)
    ensures At(g - PairsOf(node, ids), n, id) == if n == node && id in ids then None else At(g, n, id)
  {
    if (n, Itoa(id)) in PairsOf(node, ids) {
      var r :| r in ids && (n, Itoa(id)) == (node, Itoa(r));
      ItoaInjective(r, id);
    }
    if n == node && id in ids {
      assert (node, Itoa(id)) in PairsOf(node, ids);
    }
  }

  /** Where one message puts each series of each node. */
  lemma StepAt(s: Gauges, m: Message, now: int, f: Family, n: string, id: int64)
    requires m.node in s.versions && Complete(s.families)
    ensures At(Step(s, m, now).families[f], n, id) ==
            if n != m.node then At(s.families[f], n, id)
            else if LastOf(m.rooms, id) != None then Snapshot(f, m.rooms, id)
            else if id in s.versions[n] && s.versions[n][id] != now then None
            else At(s.families[f], n, id)
    ensures n in s.versions && n != m.node ==> Step(s, m, now).versions[n] == s.versions[n]
  {
    var stamped := Stamped(s.versions[m.node], m.rooms, now);
    CreatedAt(s.families[f], f, m.node, m.rooms, n, id);
    StampedAt(s.versions[m.node], m.rooms, now, id);
    SweptAt(Created(s.families[f], f, m.node, m.rooms), m.node, Expired(stamped, now), n, id);
  }

  ghost predicate TrackedAt(s: Gauges, f: Family, n: string, id: int64)
    requires f in s.families
  {
    At(s.families[f], n, id) != None <==> n in s.versions && id in s.versions[n]
  }

  /** A node's version table lists exactly the rooms that have series, in every family. */
  ghost predicate Tracked(s: Gauges) {
    Complete(s.families) && forall f: Family, n: string, id: int64 :: TrackedAt(s, f, n, id)
  }

  lemma StepTracked(s: Gauges, m: Message, now: int)
    requires Tracked(s) && m.node in s.versions
    ensures Tracked(Step(s, m, now))
  {
    forall f: Family, n: string, id: int64 ensures TrackedAt(Step(s, m, now), f, n, id) {
      StepAt(s, m, now, f, n, id);
      StampedAt(s.versions[m.node], m.rooms, now, id);
      assert TrackedAt(s, f, n, id);
    }
  }

  /** A room that is not in the message although its stamp is the message's own. */
  ghost predicate Survives(v: Versions, m: Message, now: int, id: int64) {
    id in v && v[id] == now && LastOf(m.rooms, id) == None
  }

  lemma SnapshotAt(s: Gauges, m: Message, now: int, f: Family, id: int64)
    requires Tracked(s) && m.node in s.versions
    ensures At(Step(s, m, now).families[f], m.node, id) == Snapshot(f, m.rooms, id)
            <==> !Survives(s.versions[m.node], m, now, id)
  {
    StepAt(s, m, now, f, m.node, id);
    assert TrackedAt(s, f, m.node, id);
  }

  /** After a message its node's series are exactly the message's rooms, in every family,
      unless a room that left the message carries the very stamp of this message. */
  lemma SnapshotIff(s: Gauges, m: Message, now: int)
    requires Tracked(s) && m.node in s.versions
    ensures (forall f: Family, id: int64 :: At(Step(s, m, now).families[f], m.node, id) == Snapshot(f, m.rooms, id))
            <==> forall id: int64 :: !Survives(s.versions[m.node], m, now, id)
  {
    forall f: Family, id: int64
      ensures At(Step(s, m, now).families[f], m.node, id) == Snapshot(f, m.rooms, id)
              <==> !Survives(s.versions[m.node], m, now, id)
    {
      SnapshotAt(s, m, now, f, id);
    }
    if id: int64 :| Survives(s.versions[m.node], m, now, id) {
      assert At(Step(s, m, now).families[AutoRecord], m.node, id) != Snapshot(AutoRecord, m.rooms, id);
    }
  }

  // ---- histories ------------------------------------------------------------------

  /** Every message is handled later than the ones before it. */
  ghost predicate Increasing(h: seq<Tick>) {
    forall i, j :: 0 <= i < j < |h| ==> h[i].now < h[j].now
  }

  ghost function LastMessage(h: seq<Tick>, node: string): Option<Message> {
    if h == [] then None
    else if h[|h| - 1].m.node == node then Some(h[|h| - 1].m)
    else LastMessage(h[..|h| - 1], node)
  }

  lemma {:induction false} RunTracked(nodes: set<string>, h: seq<Tick>)
    requires FromNodes(nodes, h)
    ensures Tracked(Run(nodes, h))
  {
    if h == [] {
      AllCollected();
      assert forall f: Family, n: string, id: int64 :: At(Run(nodes, h).families[f], n, id) == None;
    } else {
      RunTracked(nodes, h[..|h| - 1]);
      StepTracked(Run(nodes, h[..|h| - 1]), h[|h| - 1].m, h[|h| - 1].now);
    }
  }

  /** A stored stamp is the time of one of the messages. */
  lemma {:induction false} StampsFromHistory(nodes: set<string>, h: seq<Tick>, n: string, id: int64)
    requires FromNodes(nodes, h) && n in nodes && id in Run(nodes, h).versions[n]
    ensures exists i :: 0 <= i < |h| && h[i].now == Run(nodes, h).versions[n][id]
  {
    if h == [] {
      assert false;
    } else {
      var last := |h| - 1;
      var before := Run(nodes, h[..last]);
      StampedAt(before.versions[h[last].m.node], h[last].m.rooms, h[last].now, id);
      if Run(nodes, h).versions[n][id] != h[last].now {
        StampsFromHistory(nodes, h[..last], n, id);
        var i :| 0 <= i < last && h[..last][i].now == before.versions[n][id];
        assert h[i].now == before.versions[n][id];
      }
    }
  }

  lemma NoSurvivor(nodes: set<string>, h: seq<Tick>, id: int64)
    requires h != [] && FromNodes(nodes, h) && Increasing(h)
    ensures var last := |h| - 1;
            !Survives(Run(nodes, h[..last]).versions[h[last].m.node], h[last].m, h[last].now, id)
  {
    var last := |h| - 1;
    var v := Run(nodes, h[..last]).versions[h[last].m.node];
    if id in v {
      StampsFromHistory(nodes, h[..last], h[last].m.node, id);
      var i :| 0 <= i < last && h[..last][i].now == v[id];
      assert h[i].now < h[last].now;
    }
  }

  /** With increasing times every family shows, for every node, exactly the rooms of that
      node's last message with the values of each room's last occurrence in it. */
  lemma {:induction false} SnapshotMirror(nodes: set<string>, h: seq<Tick>, f: Family, n: string, id: int64)
    requires FromNodes(nodes, h) && Increasing(h)
    ensures At(Run(nodes, h).families[f], n, id) ==
            match LastMessage(h, n)
            case None => None
            case Some(m) => Snapshot(f, m.rooms, id)
  {
    if h == [] {
      AllCollected();
    } else {
      var last := |h| - 1;
      var before, m, now := Run(nodes, h[..last]), h[last].m, h[last].now;
      if n == m.node {
        RunTracked(nodes, h[..last]);
        SnapshotAt(before, m, now, f, id);
        NoSurvivor(nodes, h, id);
      } else {
        SnapshotMirror(nodes, h[..last], f, n, id);
        StepAt(before, m, now, f, n, id);
      }
    }
  }

  ghost function LastRoom(h: seq<Tick>, n: string, id: int64): Option<Room> {
    match LastMessage(h, n)
    case None => None
    case Some(m) => LastOf(m.rooms, id)
  }

  /** The mirror family by family and field by field: a room of its node's last message is shown by
      each family with the field of that name of its last occurrence, flags as 1 and 0 and a
      missing disk rate as 0; a room that is not in it is shown by none. */
  lemma {:induction false} FamiliesByName(nodes: set<string>, h: seq<Tick>, n: string, id: int64)
    requires FromNodes(nodes, h) && Increasing(h)
    ensures LastRoom(h, n, id) == None ==> forall f: Family :: At(Run(nodes, h).families[f], n, id) == None
    ensures LastRoom(h, n, id) != None ==>
              var room, families := LastRoom(h, n, id).value, Run(nodes, h).families;
              && At(families[AutoRecord], n, id) == Some(if room.autoRecord then 1.0 else 0.0)
              && At(families[Recording], n, id) == Some(if room.recording then 1.0 else 0.0)
              && At(families[Streaming], n, id) == Some(if room.streaming then 1.0 else 0.0)
              && At(families[DanmakuConnected], n, id) == Some(if room.danmakuConnected then 1.0 else 0.0)
              && At(families[SessionDuration], n, id) == Some(room.sessionDuration)
              && At(families[TotalInputBytes], n, id) == Some(room.totalInputBytes as real)
              && At(families[CurrentFileSize], n, id) == Some(room.currentFileSize as real)
              && At(families[SessionMaxTimestamp], n, id) == Some(room.sessionMaxTimestamp as real)
              && At(families[FileMaxTimestamp], n, id) == Some(room.fileMaxTimestamp as real)
              && At(families[NetworkBytesDownloaded], n, id) == Some(room.networkBytesDownloaded as real)
              && At(families[DiskBytesWritten], n, id) == Some(room.diskBytesWritten as real)
              && At(families[NetworkMbps], n, id) == Some(room.networkMbps)
              && At(families[DiskMBps], n, id) == Some(if room.diskMBps.Some? then room.diskMBps.value else 0.0)
  {
    forall f: Family
      ensures LastRoom(h, n, id) == None ==> At(Run(nodes, h).families[f], n, id) == None
      ensures LastRoom(h, n, id) != None ==>
                At(Run(nodes, h).families[f], n, id) == Some(Value(f, LastRoom(h, n, id).value))
    {
      SnapshotMirror(nodes, h, f, n, id);
    }
    if LastRoom(h, n, id) != None {
      ValuesByName(LastRoom(h, n, id).value);
    }
  }

  lemma {:induction false} CreatedKeys(g: Series, f: Family, node: string, rooms: seq<Room>, k: (string, string))
    requires k in Created(g, f, node, rooms)
    ensures k in g || (k.0 == node && exists id: int64 :: k.1 == Itoa(id))
  {
    if rooms != [] && k != (node, Itoa(rooms[|rooms| - 1].id)) {
      CreatedKeys(g, f, node, rooms[..|rooms| - 1], k);
    }
  }

  /** No family has a series other than those of configured nodes and rooms. */
  lemma {:induction false} OnlyRoomSeries(nodes: set<string>, h: seq<Tick>, f: Family, k: (string, string))
    requires FromNodes(nodes, h)
    ensures k in Run(nodes, h).families[f] ==> k.0 in nodes && exists id: int64 :: k.1 == Itoa(id)
  {
    AllCollected();
    if h == [] {
    } else {
      var last := |h| - 1;
      var before := Run(nodes, h[..last]);
      OnlyRoomSeries(nodes, h[..last], f, k);
      if k in Run(nodes, h).families[f] {
        CreatedKeys(before.families[f], f, h[last].m.node, h[last].m.rooms, k);
      }
    }
  }

  // ---- room info ------------------------------------------------------------------

  /** What is remembered of one node and room, and whether its series is exported. */
  datatype Cell = Cell(remembered: Option<Labels>, shown: bool)

  ghost function CellOf(i: Info, n: string, id: int64): Cell {
    if n in i.labels && id in i.labels[n] then Cell(Some(i.labels[n][id]), i.labels[n][id] in i.shown)
    else Cell(None, false)
  }

  /** Remembered labels carry their own node and room; exported labels are remembered ones. */
  ghost predicate Owned(i: Info) {
    && (forall n, id :: n in i.labels && id in i.labels[n] ==> OwnLabels(i.labels[n][id], n, id))
    && (forall l :: l in i.shown ==> exists n: string, id: int64 :: CellOf(i, n, id).remembered == Some(l))
  }

  ghost predicate OwnLabels(l: Labels, n: string, id: int64) {
    |l| == 11 && l[0] == n && l[1] == Itoa(id)
  }

  ghost function ObservedCell(c: Cell, l: Labels): Cell {
    if c.remembered == Some(l) then c else Cell(Some(l), true)
  }

  lemma ObserveCell(i: Info, node: string, room: Room, n: string, id: int64)
    requires Owned(i) && node in i.labels
    ensures CellOf(Observe(i, node, room), n, id) ==
            if n == node && id == room.id then ObservedCell(CellOf(i, n, id), LabelsOf(node, room))
            else CellOf(i, n, id)
  {
    if n == node && id == room.id {
      ObserveOwnCell(i, node, room);
    } else {
      ObserveOtherCell(i, node, room, n, id);
    }
  }

  lemma ObserveOwnCell(i: Info, node: string, room: Room)
    requires Owned(i) && node in i.labels
    ensures CellOf(Observe(i, node, room), node, room.id) ==
            ObservedCell(CellOf(i, node, room.id), LabelsOf(node, room))
  {
  }

  lemma ObserveOtherCell(i: Info, node: string, room: Room, n: string, id: int64)
    requires Owned(i) && node in i.labels && !(n == node && id == room.id)
    ensures CellOf(Observe(i, node, room), n, id) == CellOf(i, n, id)
  {
    var o := Observe(i, node, room);
    assert n in i.labels ==> (id in i.labels[n] <==> id in o.labels[n]);
    if n in i.labels && id in i.labels[n] {
      var l := i.labels[n][id];
      assert o.labels[n][id] == l;
      LabelsApart(l, n, id, LabelsOf(node, room), node, room.id);
      if room.id in i.labels[node] {
        LabelsApart(l, n, id, i.labels[node][room.id], node, room.id);
      }
    }
  }

  lemma LabelsApart(l: Labels, n: string, id: int64, other: Labels, node: string, otherId: int64)
    requires OwnLabels(l, n, id) && OwnLabels(other, node, otherId) && !(n == node && id == otherId)
    ensures l != other
  {
    ItoaInjective(id, otherId);
  }

  lemma ObserveOwned(i: Info, node: string, room: Room)
    requires Owned(i) && node in i.labels
    ensures Owned(Observe(i, node, room))
  {
    var o := Observe(i, node, room);
    forall l | l in o.shown ensures exists n: string, id: int64 :: CellOf(o, n, id).remembered == Some(l) {
      if l == LabelsOf(node, room) {
        assert CellOf(o, node, room.id).remembered == Some(l);
      } else {
        assert l in i.shown;
        var n: string, id: int64 :| CellOf(i, n, id).remembered == Some(l);
        ObserveCell(i, node, room, n, id);
        assert !(n == node && id == room.id);
        assert CellOf(o, n, id).remembered == Some(l);
      }
    }
  }

  lemma ClearCell(i: Info, node: string, n: string, id: int64)
    requires Owned(i) && node in i.labels
    ensures CellOf(i.(shown := i.shown - i.labels[node].Values), n, id) ==
            if n == node then CellOf(i, n, id).(shown := false) else CellOf(i, n, id)
  {
    if n in i.labels && id in i.labels[n] {
      var l := i.labels[n][id];
      assert OwnLabels(l, n, id);
      forall r | r in i.labels[node] ensures i.labels[node][r][0] == node {
        assert OwnLabels(i.labels[node][r], node, r);
      }
      assert n != node ==> l !in i.labels[node].Values;
    }
  }

  /** What a history says about one node and room: the labels of each occurrence, and None for
      each empty message of the node. */
  ghost function Seen(rooms: seq<Room>, node: string, id: int64): seq<Option<Labels>> {
    if rooms == [] then []
    else
      var room := rooms[|rooms| - 1];
      Seen(rooms[..|rooms| - 1], node, id) + if room.id == id then [Some(LabelsOf(node, room))] else []
  }

  ghost function Occurrences(h: seq<Tick>, n: string, id: int64): seq<Option<Labels>> {
    if h == [] then []
    else
      var m := h[|h| - 1].m;
      Occurrences(h[..|h| - 1], n, id) +
      if m.node != n then [] else if m.rooms == [] then [None] else Seen(m.rooms, n, id)
  }

  /** The labels of the last occurrence. */
  ghost function Remembered(occ: seq<Option<Labels>>): Option<Labels> {
    if occ == [] then None
    else if occ[|occ| - 1] != None then occ[|occ| - 1]
    else Remembered(occ[..|occ| - 1])
  }

  /** Some occurrence brought labels other than the remembered ones, and no empty message came after it. */
  ghost predicate Shown(occ: seq<Option<Labels>>) {
    exists k :: 0 <= k < |occ| && Renewed(occ, k)
  }

  ghost predicate Renewed(occ: seq<Option<Labels>>, k: nat)
    requires k < |occ|
  {
    occ[k] != Remembered(occ[..k]) && forall j :: k <= j < |occ| ==> occ[j] != None
  }

  lemma ShownAppend(occ: seq<Option<Labels>>, o: Option<Labels>)
    ensures Shown(occ + [o]) <==> o != None && (Shown(occ) || o != Remembered(occ))
  {
    var all := occ + [o];
    assert all[..|occ|] == occ;
    forall k | 0 <= k < |occ| ensures Renewed(all, k) <==> o != None && Renewed(occ, k) {
      assert all[..k] == occ[..k];
      assert all[|occ|] == o;
      if o != None && Renewed(occ, k) {
        assert forall j :: k <= j < |all| ==> all[j] == if j < |occ| then occ[j] else o;
      }
      if Renewed(all, k) {
        assert forall j :: k <= j < |occ| ==> occ[j] == all[j];
      }
    }
    assert Renewed(all, |occ|) <==> o != None && o != Remembered(occ);
  }

  lemma RememberedAppend(occ: seq<Option<Labels>>, o: Option<Labels>)
    ensures Remembered(occ + [o]) == if o != None then o else Remembered(occ)
  {
    assert (occ + [o])[..|occ|] == occ;
  }

  ghost predicate Agrees(c: Cell, occ: seq<Option<Labels>>) {
    c == Cell(Remembered(occ), Shown(occ))
  }

  lemma {:induction false} ObserveAllCell(i: Info, node: string, rooms: seq<Room>, n: string, id: int64,
      occ: seq<Option<Labels>>)
    requires Owned(i) && node in i.labels && Agrees(CellOf(i, n, id), occ)
    ensures Owned(ObserveAll(i, node, rooms))
    ensures Agrees(CellOf(ObserveAll(i, node, rooms), n, id), occ + if n == node then Seen(rooms, n, id) else [])
  {
    var seen := if n == node then Seen(rooms, n, id) else [];
    if rooms == [] {
      assert occ + seen == occ;
    } else {
      var before, room := rooms[..|rooms| - 1], rooms[|rooms| - 1];
      ObserveAllCell(i, node, before, n, id, occ);
      var o := ObserveAll(i, node, before);
      ObserveOwned(o, node, room);
      ObserveCell(o, node, room, n, id);
      var seen0 := if n == node then Seen(before, n, id) else [];
      if n == node && room.id == id {
        var l := Some(LabelsOf(node, room));
        assert occ + seen == (occ + seen0) + [l];
        ShownAppend(occ + seen0, l);
        RememberedAppend(occ + seen0, l);
      } else {
        assert seen == seen0;
      }
    }
  }

  /** A room's info series is exported exactly when its labels last changed after the node's
      last empty message: after an empty message unchanged labels stay hidden. */
  lemma {:induction false} InfoShownIff(nodes: set<string>, h: seq<Tick>, n: string, id: int64)
    requires FromNodes(nodes, h) && n in nodes
    ensures Owned(RunInfo(nodes, h))
    ensures CellOf(RunInfo(nodes, h), n, id) == Cell(Remembered(Occurrences(h, n, id)), Shown(Occurrences(h, n, id)))
  {
    if h == [] {
    } else {
      var last := |h| - 1;
      var m, i := h[last].m, RunInfo(nodes, h[..last]);
      var occ := Occurrences(h[..last], n, id);
      InfoShownIff(nodes, h[..last], n, id);
      if m.rooms == [] {
        ClearCell(i, m.node, n, id);
        ClearOwned(i, m.node);
        if m.node == n {
          ShownAppend(occ, None);
          RememberedAppend(occ, None);
        } else {
          assert Occurrences(h, n, id) == occ;
        }
      } else {
        ObserveAllCell(i, m.node, m.rooms, n, id, occ);
      }
    }
  }

  lemma ClearOwned(i: Info, node: string)
    requires Owned(i) && node in i.labels
    ensures Owned(i.(shown := i.shown - i.labels[node].Values))
  {
    var o := i.(shown := i.shown - i.labels[node].Values);
    forall l | l in o.shown ensures exists n: string, id: int64 :: CellOf(o, n, id).remembered == Some(l) {
      var n: string, id: int64 :| CellOf(i, n, id).remembered == Some(l);
      assert CellOf(o, n, id).remembered == Some(l);
    }
  }

  /** Every exported info series is the remembered label list of its own node and room, so a
      pair has at most one. */
  lemma InfoUnique(nodes: set<string>, h: seq<Tick>, l: Labels, l': Labels)
    requires FromNodes(nodes, h)
    requires l in RunInfo(nodes, h).shown && l' in RunInfo(nodes, h).shown
    ensures exists n: string, id: int64 :: CellOf(RunInfo(nodes, h), n, id).remembered == Some(l) && OwnLabels(l, n, id)
    ensures |l| == |l'| == 11 && (l[0] == l'[0] && l[1] == l'[1] ==> l == l')
  {
    var i := RunInfo(nodes, h);
    RunInfoOwned(nodes, h);
    var n: string, id: int64 :| CellOf(i, n, id).remembered == Some(l);
    var n': string, id': int64 :| CellOf(i, n', id').remembered == Some(l');
    assert OwnLabels(l, n, id) && OwnLabels(l', n', id');
    ItoaInjective(id, id');
  }

  lemma RunInfoOwned(nodes: set<string>, h: seq<Tick>)
    requires FromNodes(nodes, h)
    ensures Owned(RunInfo(nodes, h))
  {
    if h != [] {
      InfoShownIff(nodes, h, h[0].m.node, 0);
    }
  }

  lemma {:induction false} SomeOnly(occ: seq<Option<Labels>>)
    requires occ != [] && forall j :: 0 <= j < |occ| ==> occ[j] != None
    ensures Shown(occ) && Remembered(occ) == occ[|occ| - 1]
  {
    assert occ[..0] == [];
    assert Renewed(occ, 0);
  }

  lemma {:induction false} NoEmptyNoGap(h: seq<Tick>, n: string, id: int64)
    requires forall i :: 0 <= i < |h| && h[i].m.node == n ==> h[i].m.rooms != []
    ensures forall j :: 0 <= j < |Occurrences(h, n, id)| ==> Occurrences(h, n, id)[j] != None
  {
    if h == [] {
    } else {
      NoEmptyNoGap(h[..|h| - 1], n, id);
      SeenSome(h[|h| - 1].m.rooms, n, id);
    }
  }

  lemma {:induction false} SeenSome(rooms: seq<Room>, node: string, id: int64)
    ensures forall j :: 0 <= j < |Seen(rooms, node, id)| ==> Seen(rooms, node, id)[j] != None
  {
    if rooms == [] {
    } else {
      SeenSome(rooms[..|rooms| - 1], node, id);
    }
  }

  /** While a node has sent no empty message every room it ever reported has its info series,
      with the labels it was last reported with. */
  lemma InfoComplete(nodes: set<string>, h: seq<Tick>, n: string, id: int64)
    requires FromNodes(nodes, h) && n in nodes
    requires forall i :: 0 <= i < |h| && h[i].m.node == n ==> h[i].m.rooms != []
    requires Occurrences(h, n, id) != []
    ensures var occ := Occurrences(h, n, id);
            CellOf(RunInfo(nodes, h), n, id) == Cell(occ[|occ| - 1], true)
  {
    InfoShownIff(nodes, h, n, id);
    NoEmptyNoGap(h, n, id);
    SomeOnly(Occurrences(h, n, id));
  }

  /** Room i of message k, as an information series is to show it. */
  ghost predicate ShownAs(l: Labels, node: string, room: Room) {
    && |l| == 11 && l[0] == node && l[1] == Itoa(room.id)
    && l[2] == room.name && l[3] == room.title && l[4] == room.areaParent && l[5] == room.areaChild
    && l[6] == room.streamHost && l[7] == room.hostLookup
    && l[8] == (if room.recording then "1" else "0") && l[9] == (if room.streaming then "1" else "0")
    && l[10] == (if room.danmakuConnected then "1" else "0")
  }

  ghost predicate Reported(h: seq<Tick>, l: Labels) {
    exists k, i :: 0 <= k < |h| && 0 <= i < |h[k].m.rooms| && ShownAs(l, h[k].m.node, h[k].m.rooms[i])
  }

  lemma {:induction false} SeenReported(rooms: seq<Room>, node: string, id: int64, l: Labels)
    requires Some(l) in Seen(rooms, node, id)
    ensures exists i :: 0 <= i < |rooms| && ShownAs(l, node, rooms[i])
  {
    var n := |rooms| - 1;
    LabelsByName(node, rooms[n]);
    if Some(l) in Seen(rooms[..n], node, id) {
      SeenReported(rooms[..n], node, id, l);
      var i :| 0 <= i < n && ShownAs(l, node, rooms[..n][i]);
      assert ShownAs(l, node, rooms[i]);
    } else {
      assert ShownAs(l, node, rooms[n]);
    }
  }

  lemma {:induction false} OccurrenceReported(h: seq<Tick>, n: string, id: int64, l: Labels)
    requires Some(l) in Occurrences(h, n, id)
    ensures Reported(h, l)
  {
    var last := |h| - 1;
    if Some(l) in Occurrences(h[..last], n, id) {
      OccurrenceReported(h[..last], n, id, l);
      var k, i :| 0 <= k < last && 0 <= i < |h[..last][k].m.rooms| &&
                  ShownAs(l, h[..last][k].m.node, h[..last][k].m.rooms[i]);
      assert ShownAs(l, h[k].m.node, h[k].m.rooms[i]);
    } else {
      SeenReported(h[last].m.rooms, n, id, l);
      var i :| 0 <= i < |h[last].m.rooms| && ShownAs(l, n, h[last].m.rooms[i]);
      assert ShownAs(l, h[last].m.node, h[last].m.rooms[i]);
    }
  }

  lemma {:induction false} RememberedOccurs(occ: seq<Option<Labels>>)
    ensures Remembered(occ) != None ==> Remembered(occ) in occ
  {
    if occ == [] {
    } else {
      RememberedOccurs(occ[..|occ| - 1]);
    }
  }

  /** Every exported info series shows, field by field, a room that its node has reported. */
  lemma {:induction false} InfoByName(nodes: set<string>, h: seq<Tick>, l: Labels)
    requires FromNodes(nodes, h) && l in RunInfo(nodes, h).shown
    ensures Reported(h, l)
  {
    RunInfoOwned(nodes, h);
    var n: string, id: int64 :| CellOf(RunInfo(nodes, h), n, id).remembered == Some(l);
    InfoShownIff(nodes, h, n, id);
    RememberedOccurs(Occurrences(h, n, id));
    OccurrenceReported(h, n, id, l);
  }

  // ---- histories that go wrong ---------------------------------------------------

  /** A room that is back after an empty message with the labels it had before stays without its
      info series. */
  lemma InfoStaysHidden(node: string, room: Room)
    ensures var h := [Tick(Message(node, 0, [room]), 1), Tick(Message(node, 0, []), 2),
            Tick(Message(node, 0, [room]), 3)];
            CellOf(RunInfo({node}, h), node, room.id) == Cell(Some(LabelsOf(node, room)), false)
  {
    var first, empty := Tick(Message(node, 0, [room]), 1), Tick(Message(node, 0, []), 2);
    var again := Tick(Message(node, 0, [room]), 3);
    var h := [first, empty, again];
    assert h[..2] == [first, empty] && [first, empty][..1] == [first] && [first][..0] == [];
    var l := Some(LabelsOf(node, room));
    assert [room][..0] == [];
    assert Seen([room], node, room.id) == [l];
    assert Occurrences([first], node, room.id) == [l];
    assert Occurrences([first, empty], node, room.id) == [l, None];
    assert Occurrences(h, node, room.id) == [l, None] + [l];
    ShownAppend([l, None], l);
    RememberedAppend([l, None], l);
    RememberedAppend([l], None);
    RememberedAppend([], l);
    ShownAppend([l], None);
    assert [] + [l] == [l] && [l] + [None] == [l, None];
    InfoShownIff({node}, h, node, room.id);
  }

  /** Two messages with one stamp: a room that left the second one keeps its series. */
  lemma SameStampKeeps(node: string, room: Room, now: int)
    ensures var h := [Tick(Message(node, 0, [room]), now), Tick(Message(node, 0, []), now)];
            At(Run({node}, h).families[AutoRecord], node, room.id) == Some(Value(AutoRecord, room))
  {
    var first, second := Tick(Message(node, 0, [room]), now), Tick(Message(node, 0, []), now);
    var h := [first, second];
    assert h[..1] == [first] && [first][..0] == [] && [room][..0] == [];
    AllCollected();
    var s0 := Run({node}, []);
    var s1 := Run({node}, [first]);
    assert s1 == Step(s0, first.m, now) && Run({node}, h) == Step(s1, second.m, now);
    assert LastOf([room], room.id) == Some(room);
    StepAt(s0, first.m, now, AutoRecord, node, room.id);
    StampedAt(s0.versions[node], [room], now, room.id);
    StepAt(s1, second.m, now, AutoRecord, node, room.id);
  }
}
