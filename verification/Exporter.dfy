/**
 The recorder's metrics exporter: series are created and updated from a node's message and
 swept by version stamp, so that every family mirrors the last message of each node.
 */
module Exporter {
  import opened Base
  import opened Keys

  datatype Room = Room(
    id: int64, name: string, title: string, areaParent: string, areaChild: string,
    streamHost: string, hostLookup: string,
    autoRecord: bool, recording: bool, streaming: bool, danmakuConnected: bool,
    sessionDuration: real, totalInputBytes: int, currentFileSize: int,
    sessionMaxTimestamp: int, fileMaxTimestamp: int,
    networkBytesDownloaded: int, diskBytesWritten: int, networkMbps: real,
    diskMBps: Option<real>)                      // None when the node reports something other than a number

  datatype Message = Message(node: string, requestMs: int, rooms: seq<Room>)

  /** The thirteen families kept per room. */
  datatype Family =
    | AutoRecord | Recording | Streaming | DanmakuConnected | SessionDuration
    | TotalInputBytes | CurrentFileSize | SessionMaxTimestamp | FileMaxTimestamp
    | NetworkBytesDownloaded | DiskBytesWritten | NetworkMbps | DiskMBps

  const COLLECTOR: seq<Family> := [
    AutoRecord, Recording, Streaming, DanmakuConnected, SessionDuration,
    TotalInputBytes, CurrentFileSize, SessionMaxTimestamp, FileMaxTimestamp,
    NetworkBytesDownloaded, DiskBytesWritten, NetworkMbps, DiskMBps]

  function Flag(b: bool): real {
    if b then 1.0 else 0.0
  }

  function Value(f: Family, room: Room): real {
    match f
    case AutoRecord => Flag(room.autoRecord)
    case Recording => Flag(room.recording)
    case Streaming => Flag(room.streaming)
    case DanmakuConnected => Flag(room.danmakuConnected)
    case SessionDuration => room.sessionDuration
    case TotalInputBytes => room.totalInputBytes as real
    case CurrentFileSize => room.currentFileSize as real
    case SessionMaxTimestamp => room.sessionMaxTimestamp as real
    case FileMaxTimestamp => room.fileMaxTimestamp as real
    case NetworkBytesDownloaded => room.networkBytesDownloaded as real
    case DiskBytesWritten => room.diskBytesWritten as real
    case NetworkMbps => room.networkMbps
    case DiskMBps => if room.diskMBps == None then 0.0 else room.diskMBps.value
  }

  /** One family: values by (node_id, room_id) label pair. */
  type Series = map<(string, string), real>
  type Versions = map<int64, int>

  ghost predicate HasValues(families: map<Family, Series>, node: string, room: Room) {
    forall f: Family :: f in families && (node, Itoa(room.id)) in families[f] &&
                        families[f][(node, Itoa(room.id))] == Value(f, room)
  }

  /** A room shown by every family, each with its own field. */
  ghost predicate ShownBy(families: map<Family, Series>, node: string, room: Room) {
    var key := (node, Itoa(room.id));
    && (forall f: Family :: f in families && key in families[f])
    && families[AutoRecord][key] == (if room.autoRecord then 1.0 else 0.0)
    && families[Recording][key] == (if room.recording then 1.0 else 0.0)
    && families[Streaming][key] == (if room.streaming then 1.0 else 0.0)
    && families[DanmakuConnected][key] == (if room.danmakuConnected then 1.0 else 0.0)
    && families[SessionDuration][key] == room.sessionDuration
    && families[TotalInputBytes][key] == room.totalInputBytes as real
    && families[CurrentFileSize][key] == room.currentFileSize as real
    && families[SessionMaxTimestamp][key] == room.sessionMaxTimestamp as real
    && families[FileMaxTimestamp][key] == room.fileMaxTimestamp as real
    && families[NetworkBytesDownloaded][key] == room.networkBytesDownloaded as real
    && families[DiskBytesWritten][key] == room.diskBytesWritten as real
    && families[NetworkMbps][key] == room.networkMbps
    && families[DiskMBps][key] == (if room.diskMBps.Some? then room.diskMBps.value else 0.0)
  }

  lemma ValuesShown(families: map<Family, Series>, node: string, room: Room)
    requires HasValues(families, node, room)
    ensures ShownBy(families, node, room)
  {
    ValuesByName(room);
  }

  lemma ValuesByName(room: Room)
    ensures Value(AutoRecord, room) == (if room.autoRecord then 1.0 else 0.0)
    ensures Value(Recording, room) == (if room.recording then 1.0 else 0.0)
    ensures Value(Streaming, room) == (if room.streaming then 1.0 else 0.0)
    ensures Value(DanmakuConnected, room) == (if room.danmakuConnected then 1.0 else 0.0)
    ensures Value(SessionDuration, room) == room.sessionDuration
    ensures Value(TotalInputBytes, room) == room.totalInputBytes as real
    ensures Value(CurrentFileSize, room) == room.currentFileSize as real
    ensures Value(SessionMaxTimestamp, room) == room.sessionMaxTimestamp as real
    ensures Value(FileMaxTimestamp, room) == room.fileMaxTimestamp as real
    ensures Value(NetworkBytesDownloaded, room) == room.networkBytesDownloaded as real
    ensures Value(DiskBytesWritten, room) == room.diskBytesWritten as real
    ensures Value(NetworkMbps, room) == room.networkMbps
    ensures Value(DiskMBps, room) == (if room.diskMBps.Some? then room.diskMBps.value else 0.0)
  {
  }

  // ---- specification of the room families -------------------------------------

  datatype Gauges = Gauges(versions: map<string, Versions>, families: map<Family, Series>)

  ghost predicate Complete(families: map<Family, Series>) {
    forall f: Family :: f in families
  }

  ghost function Created(g: Series, f: Family, node: string, rooms: seq<Room>): Series {
    if rooms == [] then g
    else
      var room := rooms[|rooms| - 1];
      Created(g, f, node, rooms[..|rooms| - 1])[(node, Itoa(room.id)) := Value(f, room)]
  }

  function Stamp(v: Versions, id: int64, now: int): Versions {
    v[id := now]
  }

  ghost function Stamped(v: Versions, rooms: seq<Room>, now: int): Versions {
    if rooms == [] then v else Stamp(Stamped(v, rooms[..|rooms| - 1], now), rooms[|rooms| - 1].id, now)
  }

  ghost function Expired(v: Versions, now: int): set<int64> {
    set r | r in v && v[r] != now
  }

  ghost function PairsOf(node: string, ids: set<int64>): set<(string, string)> {
    set r | r in ids :: (node, Itoa(r))
  }

  ghost function Step(s: Gauges, m: Message, now: int): (s': Gauges)
    requires m.node in s.versions && Complete(s.families)
    ensures Complete(s'.families) && s'.versions.Keys == s.versions.Keys
  {
    var stamped := Stamped(s.versions[m.node], m.rooms, now);
    Swept(Gauges(s.versions[m.node := stamped],
                 map f: Family | f in s.families :: Created(s.families[f], f, m.node, m.rooms)), m.node, now)
  }

  /** The sweep: rooms of the node whose stamp is not now leave every family. */
  ghost function Swept(s: Gauges, node: string, now: int): (s': Gauges)
    requires node in s.versions && Complete(s.families)
    ensures Complete(s'.families) && s'.versions.Keys == s.versions.Keys
  {
    var expired := Expired(s.versions[node], now);
    Gauges(s.versions[node := s.versions[node] - expired],
           map f: Family | f in s.families :: s.families[f] - PairsOf(node, expired))
  }

  // ---- specification of the room info series ------------------------------------

  type Labels = seq<string>

  /** RoomMetricsLabel.Values: the eleven label values in field order. */
  function LabelsOf(node: string, room: Room): (l: Labels)
    ensures |l| == 11 && l[0] == node && l[1] == Itoa(room.id)
  {
    [node, Itoa(room.id), room.name, room.title, room.areaParent, room.areaChild, room.streamHost, room.hostLookup,
     if room.recording then "1" else "0",
     if room.streaming then "1" else "0",
     if room.danmakuConnected then "1" else "0"]
  }

  datatype Info = Info(labels: map<string, map<int64, Labels>>, shown: set<Labels>)

  function Remember(known: map<int64, Labels>, id: int64, values: Labels): map<int64, Labels> {
    known[id := values]
  }

  ghost function Observe(i: Info, node: string, room: Room): Info
    requires node in i.labels
  {
    var values := LabelsOf(node, room);
    var known: map<int64, Labels> := i.labels[node];
    if room.id in known && known[room.id] == values then i
    else Info(i.labels[node := Remember(known, room.id, values)],
        (if room.id in known then i.shown - {known[room.id]} else i.shown) + {values})
  }

  ghost function ObserveAll(i: Info, node: string, rooms: seq<Room>): (o: Info)
    requires node in i.labels
    ensures o.labels.Keys == i.labels.Keys
  {
    if rooms == [] then i else Observe(ObserveAll(i, node, rooms[..|rooms| - 1]), node, rooms[|rooms| - 1])
  }

  ghost function UpdateInfo(i: Info, m: Message): (o: Info)
    requires m.node in i.labels
    ensures o.labels.Keys == i.labels.Keys
  {
    if m.rooms == [] then i.(shown := i.shown - i.labels[m.node].Values) else ObserveAll(i, m.node, m.rooms)
  }

  /** Label lists are equal exactly when all eleven labels are. */
  lemma LabelsEqualIff(node: string, room: Room, node': string, room': Room)
    ensures LabelsOf(node, room) == LabelsOf(node', room') <==>
            && node == node' && room.id == room'.id && room.name == room'.name && room.title == room'.title
            && room.areaParent == room'.areaParent && room.areaChild == room'.areaChild
            && room.streamHost == room'.streamHost && room.hostLookup == room'.hostLookup
            && room.recording == room'.recording && room.streaming == room'.streaming
            && room.danmakuConnected == room'.danmakuConnected
  {
    var l, l' := LabelsOf(node, room), LabelsOf(node', room');
    ItoaInjective(room.id, room'.id);
    assert l == l' ==> l[2] == l'[2] && l[3] == l'[3] && l[4] == l'[4] && l[5] == l'[5];
    assert l == l' ==> l[6] == l'[6] && l[7] == l'[7];
    assert l == l' ==> l[8] == l'[8] && l[9] == l'[9] && l[10] == l'[10];
    assert "1"[0] != "0"[0];
  }

  /** The eleven labels in the order of their declaration, flags as "1" and "0". */
  lemma LabelsByName(node: string, room: Room)
    ensures LabelsOf(node, room) ==
            [node, Itoa(room.id)] + [room.name, room.title] + [room.areaParent, room.areaChild] +
            [room.streamHost, room.hostLookup] +
            [if room.recording then "1" else "0"] + [if room.streaming then "1" else "0"] +
            [if room.danmakuConnected then "1" else "0"]
  {
  }

  // ---- histories ------------------------------------------------------------------

  /** A message and the time it is handled at. */
  datatype Tick = Tick(m: Message, now: int)

  ghost predicate FromNodes(nodes: set<string>, h: seq<Tick>) {
    forall i :: 0 <= i < |h| ==> h[i].m.node in nodes
  }

  ghost function Run(nodes: set<string>, h: seq<Tick>): (s: Gauges)
    requires FromNodes(nodes, h)
    ensures Complete(s.families) && s.versions.Keys == nodes
  {
    if h == [] then AllCollected(); Started(nodes)
    else Step(Run(nodes, h[..|h| - 1]), h[|h| - 1].m, h[|h| - 1].now)
  }

  ghost function RunInfo(nodes: set<string>, h: seq<Tick>): (i: Info)
    requires FromNodes(nodes, h)
    ensures i.labels.Keys == nodes
  {
    if h == [] then Unseen(nodes) else UpdateInfo(RunInfo(nodes, h[..|h| - 1]), h[|h| - 1].m)
  }

  // ---- the exporter ---------------------------------------------------------------

  class MetricsExporter {
    var roomVersions: map<string, Versions>
    var roomLabels: map<string, map<int64, Labels>>
    var roomInfo: set<Labels>
    var families: map<Family, Series>
    var requestDuration: seq<(string, int)>      // what the histogram of a node was given

    constructor (nodes: set<string>)
      ensures Complete(families) && roomVersions.Keys == roomLabels.Keys == nodes
      ensures Gauges(roomVersions, families) == Started(nodes) && Info(roomLabels, roomInfo) == Unseen(nodes)
      ensures requestDuration == []
    {
      roomVersions := map n | n in nodes :: map[];
      roomLabels := map n | n in nodes :: map[];
      roomInfo, requestDuration := {}, [];
      families := map f | f in COLLECTOR :: map[];
      new;
      AllCollected();
    }

    method UpdateRoomInfo(node: string, room: Room)
      requires node in roomLabels
      modifies this`roomLabels, this`roomInfo
      ensures Info(roomLabels, roomInfo) == Observe(Info(old(roomLabels), old(roomInfo)), node, room)
    {
      var values := LabelsOf(node, room);
      var ok := room.id in roomLabels[node];
      if !ok || values != roomLabels[node][room.id] {
        if ok {
          roomInfo := roomInfo - {roomLabels[node][room.id]};
        }
        roomInfo := roomInfo + {values};
        roomLabels := roomLabels[node := Remember(roomLabels[node], room.id, values)];
      }
    }

    method SetRoom(node: string, room: Room)
      requires Complete(families)
      modifies this`families
      ensures Complete(families)
      ensures forall f :: families[f] == old(families)[f][(node, Itoa(room.id)) := Value(f, room)]
      ensures ShownBy(families, node, room)
    {
      var key := (node, Itoa(room.id));
      AllCollected();
      for i := 0 to |COLLECTOR|
        invariant Complete(families)
        invariant forall f :: families[f] ==
                    if f in COLLECTOR[..i] then old(families)[f][key := Value(f, room)] else old(families)[f]
      {
        var f := COLLECTOR[i];
        families := families[f := families[f][key := Value(f, room)]];
      }
      ValuesShown(families, node, room);
    }

    method DeleteRoom(node: string, id: int64)
      requires Complete(families)
      modifies this`families
      ensures Complete(families)
      ensures forall f :: families[f] == old(families)[f] - {(node, Itoa(id))}
    {
      var key := (node, Itoa(id));
      AllCollected();
      for i := 0 to |COLLECTOR|
        invariant Complete(families)
        invariant forall f :: families[f] ==
                    if f in COLLECTOR[..i] then old(families)[f] - {key} else old(families)[f]
      {
        var f := COLLECTOR[i];
        families := families[f := families[f] - {key}];
      }
    }

    /** Ranges over a node's versions and deletes the rooms whose stamp is not now. */
    method Sweep(node: string, versions: Versions, now: int)
      requires Complete(families) && node in roomVersions && versions == roomVersions[node]
      modifies this`families, this`roomVersions
      ensures Complete(families)
      ensures roomVersions == old(roomVersions)[node := versions - Expired(versions, now)]
      ensures forall f :: families[f] == old(families)[f] - PairsOf(node, Expired(versions, now))
    {
      var todo := versions.Keys;
      ghost var gone: set<int64> := {};
      assert PairsOf(node, gone) == {} && versions - gone == versions;
      while todo != {}
        invariant Complete(families) && node in roomVersions && todo <= versions.Keys
        invariant gone == set r | r in versions && r !in todo && versions[r] != now
        invariant roomVersions[node] == versions - gone && roomVersions == old(roomVersions)[node := roomVersions[node]]
        invariant forall f :: families[f] == old(families)[f] - PairsOf(node, gone)
      {
        var id :| id in todo;
        if versions[id] != now {
          DeleteRoom(node, id);
          assert PairsOf(node, gone + {id}) == PairsOf(node, gone) + {(node, Itoa(id))};
          assert versions - gone - {id} == versions - (gone + {id});
          roomVersions := roomVersions[node := roomVersions[node] - {id}];
          gone := gone + {id};
        }
        todo := todo - {id};
      }
      assert gone == Expired(versions, now);
    }

    /** Ranges over a node's remembered labels and deletes their info series. */
    method ClearInfo(labels: map<int64, Labels>)
      modifies this`roomInfo
      ensures roomInfo == old(roomInfo) - labels.Values
    {
      var todo := labels.Keys;
      while todo != {}
        invariant todo <= labels.Keys
        invariant roomInfo == old(roomInfo) - set r | r in labels && r !in todo :: labels[r]
      {
        var id :| id in todo;
        roomInfo := roomInfo - {labels[id]};
        todo := todo - {id};
      }
      forall l | l in labels.Values ensures l in set r | r in labels && r !in todo :: labels[r] {
        var r :| r in labels && labels[r] == l;
      }
    }

    method CreateRoom(node: string, room: Room, now: int)
      requires Complete(families) && node in roomVersions && node in roomLabels
      modifies this`roomVersions, this`roomLabels, this`roomInfo, this`families
      ensures Complete(families)
      ensures roomVersions == old(roomVersions)[node := Stamp(old(roomVersions)[node], room.id, now)]
      ensures Info(roomLabels, roomInfo) == Observe(Info(old(roomLabels), old(roomInfo)), node, room)
      ensures forall f :: families[f] == old(families)[f][(node, Itoa(room.id)) := Value(f, room)]
    {
      UpdateRoomInfo(node, room);
      SetRoom(node, room);
      roomVersions := roomVersions[node := Stamp(roomVersions[node], room.id, now)];
    }

    method Create(m: Message, now: int)
      requires Complete(families) && m.node in roomVersions && m.node in roomLabels
      modifies this`roomVersions, this`roomLabels, this`roomInfo, this`families
      ensures Complete(families)
      ensures roomVersions == old(roomVersions)[m.node := Stamped(old(roomVersions)[m.node], m.rooms, now)]
      ensures Info(roomLabels, roomInfo) == ObserveAll(Info(old(roomLabels), old(roomInfo)), m.node, m.rooms)
      ensures AllCreated(families, old(families), m.node, m.rooms)
    {
      ghost var first := Whole(roomVersions, Info(roomLabels, roomInfo), families);
      for i := 0 to |m.rooms|
        invariant Recorded(first, Whole(roomVersions, Info(roomLabels, roomInfo), families), m.node, m.rooms[..i], now)
      {
        ghost var before := Whole(roomVersions, Info(roomLabels, roomInfo), families);
        CreateRoom(m.node, m.rooms[i], now);
        RecordedStep(first, before, Whole(roomVersions, Info(roomLabels, roomInfo), families), m.node, m.rooms[..i],
            m.rooms[i], now);
        assert m.rooms[..i] + [m.rooms[i]] == m.rooms[..i + 1];
      }
      assert m.rooms[..|m.rooms|] == m.rooms;
    }

    /** One message of UpdateChan, received at time now. */
    method UpdateMetrics(m: Message, now: int)
      requires Complete(families) && m.node in roomVersions && m.node in roomLabels
      modifies this
      ensures requestDuration == old(requestDuration) + [(m.node, m.requestMs)]
      ensures Complete(families)
      ensures Gauges(roomVersions, families) == Step(Gauges(old(roomVersions), old(families)), m, now)
      ensures Info(roomLabels, roomInfo) == UpdateInfo(Info(old(roomLabels), old(roomInfo)), m)
    {
      requestDuration := requestDuration + [(m.node, m.requestMs)];
      Create(m, now);
      ghost var created := Gauges(roomVersions, families);
      assert created.families == map f: Family | f in old(families) :: Created(old(families)[f], f, m.node, m.rooms);
      if |m.rooms| == 0 {
        ClearInfo(roomLabels[m.node]);
      }
      Sweep(m.node, roomVersions[m.node], now);
      IsSwept(created, m.node, now, families);
    }

    /** A stretch of the endless loop over UpdateChan. */
    method UpdateAll(nodes: set<string>, h: seq<Tick>)
      requires FromNodes(nodes, h) && requestDuration == []
      requires Gauges(roomVersions, families) == Started(nodes) && Info(roomLabels, roomInfo) == Unseen(nodes)
      modifies this
      ensures Served(Gauges(roomVersions, families), Info(roomLabels, roomInfo), requestDuration, nodes, h)
    {
      AllCollected();
      for i := 0 to |h|
        invariant Served(Gauges(roomVersions, families), Info(roomLabels, roomInfo), requestDuration, nodes, h[..i])
      {
        ServedStep(Gauges(roomVersions, families), Info(roomLabels, roomInfo), requestDuration, nodes, h, i);
        UpdateMetrics(h[i].m, h[i].now);
      }
      assert h[..|h|] == h;
    }
  }

  ghost function Requests(h: seq<Tick>): seq<(string, int)> {
    if h == [] then [] else Requests(h[..|h| - 1]) + [(h[|h| - 1].m.node, h[|h| - 1].m.requestMs)]
  }

  /** Everything the exporter holds is what the history says. */
  ghost predicate Served(g: Gauges, i: Info, requests: seq<(string, int)>, nodes: set<string>, h: seq<Tick>) {
    FromNodes(nodes, h) && g == Run(nodes, h) && i == RunInfo(nodes, h) && requests == Requests(h)
  }

  lemma ServedStep(g: Gauges, i: Info, requests: seq<(string, int)>, nodes: set<string>, h: seq<Tick>, k: nat)
    requires FromNodes(nodes, h) && k < |h| && Served(g, i, requests, nodes, h[..k])
    ensures h[k].m.node in g.versions && h[k].m.node in i.labels && Complete(g.families)
    ensures var m := h[k].m;
            Served(Step(g, m, h[k].now), UpdateInfo(i, m), requests + [(m.node, m.requestMs)], nodes, h[..k + 1])
  {
    assert h[..k + 1][..k] == h[..k];
  }

  ghost predicate AllCreated(families: map<Family, Series>, first: map<Family, Series>, node: string,
      rooms: seq<Room>)
  {
    Complete(families) && Complete(first) && forall f :: families[f] == Created(first[f], f, node, rooms)
  }

  datatype Whole = Whole(versions: map<string, Versions>, info: Info, families: map<Family, Series>)

  ghost predicate Recorded(first: Whole, w: Whole, node: string, rooms: seq<Room>, now: int) {
    && node in first.versions && node in first.info.labels
    && w.versions == first.versions[node := Stamped(first.versions[node], rooms, now)]
    && w.info == ObserveAll(first.info, node, rooms)
    && AllCreated(w.families, first.families, node, rooms)
  }

  lemma RecordedStep(first: Whole, before: Whole, w: Whole, node: string, rooms: seq<Room>, room: Room, now: int)
    requires Recorded(first, before, node, rooms, now) && Complete(w.families)
    requires w.versions == before.versions[node := Stamp(before.versions[node], room.id, now)]
    requires w.info == Observe(before.info, node, room)
    requires forall f :: w.families[f] == before.families[f][(node, Itoa(room.id)) := Value(f, room)]
    ensures Recorded(first, w, node, rooms + [room], now)
  {
    assert (rooms + [room])[..|rooms|] == rooms;
    assert AllCreated(w.families, first.families, node, rooms + [room]);
  }

  lemma IsSwept(s: Gauges, node: string, now: int, families: map<Family, Series>)
    requires node in s.versions && Complete(s.families) && Complete(families)
    requires forall f :: families[f] == s.families[f] - PairsOf(node, Expired(s.versions[node], now))
    ensures families == Swept(s, node, now).families
  {
  }

  lemma AllCollected()
    ensures forall f: Family :: f in COLLECTOR
    ensures COLLECTOR[..|COLLECTOR|] == COLLECTOR
  {
    forall f: Family ensures f in COLLECTOR {
      var i := match f
        case AutoRecord => 0
        case Recording => 1
        case Streaming => 2
        case DanmakuConnected => 3
        case SessionDuration => 4
        case TotalInputBytes => 5
        case CurrentFileSize => 6
        case SessionMaxTimestamp => 7
        case FileMaxTimestamp => 8
        case NetworkBytesDownloaded => 9
        case DiskBytesWritten => 10
        case NetworkMbps => 11
        case DiskMBps => 12;
      assert COLLECTOR[i] == f;
    }
  }

  ghost function Started(nodes: set<string>): Gauges {
    Gauges(map n | n in nodes :: map[], map f: Family | f in COLLECTOR :: map[])
  }

  ghost function Unseen(nodes: set<string>): Info {
    Info(map n | n in nodes :: map[], {})
  }
}
