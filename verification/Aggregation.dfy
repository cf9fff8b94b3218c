/**
 What the controller's worker makes of the agents' streams: the effect of one message, and of
 whole histories of messages, expiries, registrations and master changes.
 */
module Aggregation {
  import opened Base
  import opened Keys
  import AgentMasks
  import Custody
  import Dedup
  import Medals
  import UserMeta

  datatype Fields<T> = Fields(agent: string, data: T)

  /** A decoded message by subject; None is a payload that does not unmarshal. */
  datatype StreamMsg =
    | FansMedal(medal: Option<Medals.Medal>)
    | UserInfoMeta(user: Option<UserMeta.UserInfo>)
    | Damaku(damaku: Option<Fields<(Option<uint64>, uint64, uint64)>>)   // room, uid, time
    | Gift(gift: Option<Fields<uint64>>)                                 // tid
    | Guard(guard: Option<Fields<(uint64, uint64)>>)                     // uid, time
    | SuperChat(superChat: Option<Fields<(uint64, uint64)>>)             // uid, time
    | Online(online: Option<string>)                                     // agent
    | OnlineV2(onlineV2: Option<string>)                                 // agent

  datatype Payload =
    | MedalEvent(medal: Medals.Medal)
    | UserEvent(user: UserMeta.UserInfo)
    | StandardEvent(identity: Identity)
    | OnlineEvent(agent: string)

  /** What goes wrong around the caches while a message is handled: the lookup fails for another
      reason than a missing entry, the entry does not unmarshal, the write fails. */
  datatype Faults = Faults(lookup: bool, unreadable: bool, write: bool)

  function KindOf(msg: StreamMsg): Custody.Kind {
    match msg
    case FansMedal(_) => Custody.FansMedal
    case UserInfoMeta(_) => Custody.UserInfoMeta
    case Damaku(_) => Custody.Damaku
    case Gift(_) => Custody.Gift
    case Guard(_) => Custody.Guard
    case SuperChat(_) => Custody.SuperChat
    case Online(_) => Custody.Online
    case OnlineV2(_) => Custody.OnlineV2
  }

  /** Agent and identity of a message that takes part in duplicate filtering. */
  function StandardOf(msg: StreamMsg): Option<Fields<Identity>> {
    match msg
    case Damaku(Some(f)) =>
      if f.data.0 == None then None
      else Some(Fields(f.agent, Identity.Damaku(f.data.0.value, f.data.1, f.data.2)))
    case Gift(Some(f)) => Some(Fields(f.agent, Identity.Gift(f.data)))
    case Guard(Some(f)) => Some(Fields(f.agent, Identity.Guard(f.data.0, f.data.1)))
    case SuperChat(Some(f)) => Some(Fields(f.agent, Identity.SuperChat(f.data.0, f.data.1)))
    case _ => None
  }

  /** The agent of a decoded message that takes part in duplicate filtering. */
  function AgentOf(msg: StreamMsg): Option<string> {
    match msg
    case Damaku(Some(f)) => Some(f.agent)
    case Gift(Some(f)) => Some(f.agent)
    case Guard(Some(f)) => Some(f.agent)
    case SuperChat(Some(f)) => Some(f.agent)
    case _ => None
  }

  function OnlineOf(msg: StreamMsg): Option<string> {
    match msg
    case Online(agent) => agent
    case OnlineV2(agent) => agent
    case _ => None
  }

  // ---- one message -------------------------------------------------------------------

  /** Whether a user record can be compared with the cache at all. */
  predicate UserCompared(cache: UserMeta.UserCache, user: UserMeta.UserInfo, faults: Faults) {
    !faults.lookup && !(faults.unreadable && FormatUint(user.uid) in cache)
  }

  function UserEvents(cache: UserMeta.UserCache, user: Option<UserMeta.UserInfo>,
      faults: Faults): seq<UserMeta.UserInfo>
  {
    if user == None || !UserCompared(cache, user.value, faults) then [] else UserMeta.Push(cache, user.value)
  }

  function NewUsers(cache: UserMeta.UserCache, user: Option<UserMeta.UserInfo>, faults: Faults): UserMeta.UserCache {
    if UserEvents(cache, user, faults) == [] || faults.write then cache else UserMeta.Store(cache, user.value)
  }

  predicate MedalCompared(cache: Medals.MedalCache, medal: Medals.Medal, faults: Faults) {
    !faults.lookup && !(faults.unreadable && Medals.KeyOf(medal) in cache)
  }

  predicate MedalPasses(cache: Medals.MedalCache, medal: Option<Medals.Medal>, faults: Faults) {
    medal.Some? && MedalCompared(cache, medal.value, faults) && Medals.Passes(cache, medal.value)
  }

  function NewMedals(cache: Medals.MedalCache, medal: Option<Medals.Medal>, faults: Faults): Medals.MedalCache {
    if MedalPasses(cache, medal, faults) && !faults.write then cache[Medals.KeyOf(medal.value) := medal.value]
    else cache
  }

  type Agents = map<string, AgentMasks.AgentStatus>
  type DupCache = map<string, seq<AgentMasks.byte>>

  /** What the duplicate filter decides on a message of a known agent. */
  function Verdict(reading: Dedup.Reading, managed: Agents, dup: DupCache, msg: StreamMsg,
      faults: Faults): Dedup.Verdict
  {
    var body := StandardOf(msg);
    if body == None || body.value.agent !in managed then Dedup.Verdict(false, false)
    else Dedup.Filter(reading, Dedup.Find(dup, DedupKey(body.value.data), faults.lookup))
  }

  function NewDup(reading: Dedup.Reading, managed: Agents, dup: DupCache, msg: StreamMsg, faults: Faults): DupCache {
    if Verdict(reading, managed, dup, msg, faults).append && !faults.write then
      var body := StandardOf(msg).value;
      Dedup.Append(dup, DedupKey(body.data), AgentMasks.EncodeMask(managed[body.agent].mask))
    else dup
  }

  lemma StandardAgent(msg: StreamMsg)
    requires AgentOf(msg) != None && !(msg.Damaku? && msg.damaku.value.data.0 == None)
    ensures StandardOf(msg) != None && Some(StandardOf(msg).value.agent) == AgentOf(msg)
  {
  }

  lemma Undecodable(reading: Dedup.Reading, managed: Agents, dup: DupCache, msg: StreamMsg, faults: Faults)
    requires AgentOf(msg) == None
    ensures !Verdict(reading, managed, dup, msg, faults).send && NewDup(reading, managed, dup, msg, faults) == dup
  {
  }

  lemma PutBack(reading: Dedup.Reading, managed: Agents, dup: DupCache, msg: StreamMsg, faults: Faults)
    requires AgentOf(msg) != None
    requires AgentOf(msg).value !in managed || (msg.Damaku? && msg.damaku.value.data.0 == None)
    ensures !Verdict(reading, managed, dup, msg, faults).send && NewDup(reading, managed, dup, msg, faults) == dup
  {
  }

  // ---- histories ---------------------------------------------------------------------

  /** What the worker, the caches' clocks and the agent manager do, in the order it happens. */
  datatype Input =
    | Stream(msg: StreamMsg, faults: Faults)
    | ExpireDup(key: string)
    | ExpireUser(uid: uint64)
    | ExpireMedal(uid: uint64, roomUid: uint64)
    | Join(agent: string)
    | Elect(master: string)

  datatype View = View(
    managed: Agents, latestMask: uint16, dup: DupCache, users: UserMeta.UserCache, medals: Medals.MedalCache,
    master: string, events: seq<Payload>)

  const EMPTY := View(map[], 0, map[], map[], map[], "", [])

  /** What the second user tier gets to compare. */
  ghost function Arrivals(inputs: seq<Input>): seq<UserMeta.Arrival> {
    if inputs == [] then []
    else
      var before := Arrivals(inputs[..|inputs| - 1]);
      match inputs[|inputs| - 1]
      case Stream(UserInfoMeta(Some(user)), faults) =>
        if UserCompared(UserMeta.ControllerCache(before), user, faults)
        then before + [UserMeta.Message(user, !faults.write)]
        else before
      case ExpireUser(uid) => before + [UserMeta.Expire(uid)]
      case _ => before
  }

  /** What the second medal tier gets to compare. */
  ghost function MedalInputs(inputs: seq<Input>): seq<Medals.Input> {
    if inputs == [] then []
    else
      var before := MedalInputs(inputs[..|inputs| - 1]);
      match inputs[|inputs| - 1]
      case Stream(FansMedal(Some(medal)), faults) =>
        if MedalCompared(Medals.TierCache(before), medal, faults) then before + [Medals.See(medal, !faults.write)]
        else before
      case ExpireMedal(uid, roomUid) => before + [Medals.Expire(uid, roomUid)]
      case _ => before
  }

  /** The duplicate filter's operation in an input. */
  function OpOf(input: Input): Option<Dedup.Op> {
    match input
    case Stream(msg, faults) =>
      (match StandardOf(msg)
       case None => None
       case Some(body) => Some(Dedup.Report(body.agent, body.data, faults.lookup, faults.write)))
    case ExpireDup(key) => Some(Dedup.Evict(key))
    case Join(agent) => Some(Dedup.Register(agent))
    case _ => None
  }

  /** What happens to the duplicate filter. */
  ghost function Ops(inputs: seq<Input>): seq<Dedup.Op> {
    if inputs == [] then []
    else
      var op := OpOf(inputs[|inputs| - 1]);
      Ops(inputs[..|inputs| - 1]) + if op == None then [] else [op.value]
  }

  /** The last master chosen, "" before any. */
  ghost function MasterOf(inputs: seq<Input>): string {
    if inputs == [] then ""
    else match inputs[|inputs| - 1]
      case Elect(master) => master
      case _ => MasterOf(inputs[..|inputs| - 1])
  }

  /** The agents of the single-stream messages that came from the master of their moment. */
  ghost function Followed(inputs: seq<Input>): seq<string> {
    if inputs == [] then []
    else
      var before, last := inputs[..|inputs| - 1], inputs[|inputs| - 1];
      Followed(before) +
      if last.Stream? && OnlineOf(last.msg) == Some(MasterOf(before)) then [MasterOf(before)] else []
  }

  /** The messages of the operations at the given positions. */
  ghost function MessagesAt(ops: seq<Dedup.Op>, positions: seq<nat>): seq<Identity> {
    if positions == [] then []
    else
      var p := positions[|positions| - 1];
      MessagesAt(ops, positions[..|positions| - 1]) + if p < |ops| && ops[p].Report? then [ops[p].msg] else []
  }

  ghost function UsersIn(events: seq<Payload>): seq<UserMeta.UserInfo> {
    if events == [] then []
    else
      var last := events[|events| - 1];
      UsersIn(events[..|events| - 1]) + if last.UserEvent? then [last.user] else []
  }

  ghost function MedalsIn(events: seq<Payload>): seq<Medals.Medal> {
    if events == [] then []
    else
      var last := events[|events| - 1];
      MedalsIn(events[..|events| - 1]) + if last.MedalEvent? then [last.medal] else []
  }

  ghost function StandardIn(events: seq<Payload>): seq<Identity> {
    if events == [] then []
    else
      var last := events[|events| - 1];
      StandardIn(events[..|events| - 1]) + if last.StandardEvent? then [last.identity] else []
  }

  ghost function OnlineIn(events: seq<Payload>): seq<string> {
    if events == [] then []
    else
      var last := events[|events| - 1];
      OnlineIn(events[..|events| - 1]) + if last.OnlineEvent? then [last.agent] else []
  }

  /** The worker's state is what the history says, tier by tier. */
  ghost predicate Served(reading: Dedup.Reading, v: View, inputs: seq<Input>) {
    && UsersServed(v, inputs) && MedalsServed(v, inputs) && FilterServed(reading, v, inputs)
    && v.master == MasterOf(inputs) && OnlineIn(v.events) == Followed(inputs)
  }

  ghost predicate UsersServed(v: View, inputs: seq<Input>) {
    v.users == UserMeta.ControllerCache(Arrivals(inputs)) && UsersIn(v.events) == UserMeta.Events(Arrivals(inputs))
  }

  ghost predicate MedalsServed(v: View, inputs: seq<Input>) {
    v.medals == Medals.TierCache(MedalInputs(inputs)) && MedalsIn(v.events) == Medals.TierStream(MedalInputs(inputs))
  }

  ghost predicate FilterServed(reading: Dedup.Reading, v: View, inputs: seq<Input>) {
    var c := Dedup.Run(reading, Ops(inputs));
    && v.managed == c.managed && v.latestMask == c.latestMask && v.dup == c.dup
    && StandardIn(v.events) == MessagesAt(Ops(inputs), c.pushed)
  }

  /** The event one input leads to, if any. */
  function NewEvents(reading: Dedup.Reading, v: View, input: Input): seq<Payload> {
    match input
    case Stream(FansMedal(medal), faults) =>
      if MedalPasses(v.medals, medal, faults) then [MedalEvent(medal.value)] else []
    case Stream(UserInfoMeta(user), faults) =>
      var out := UserEvents(v.users, user, faults);
      if out == [] then [] else [UserEvent(out[0])]
    case Stream(Online(agent), _) => if agent == Some(v.master) then [OnlineEvent(v.master)] else []
    case Stream(OnlineV2(agent), _) => if agent == Some(v.master) then [OnlineEvent(v.master)] else []
    case Stream(msg, faults) =>
      if Verdict(reading, v.managed, v.dup, msg, faults).send then [StandardEvent(StandardOf(msg).value.data)] else []
    case _ => []
  }

  function UsersAfter(users: UserMeta.UserCache, input: Input): UserMeta.UserCache {
    match input
    case Stream(UserInfoMeta(user), faults) => NewUsers(users, user, faults)
    case ExpireUser(uid) => users - {FormatUint(uid)}
    case _ => users
  }

  function MedalsAfter(medals: Medals.MedalCache, input: Input): Medals.MedalCache {
    match input
    case Stream(FansMedal(medal), faults) => NewMedals(medals, medal, faults)
    case ExpireMedal(uid, roomUid) => medals - {MedalKey(uid, roomUid)}
    case _ => medals
  }

  function DupAfter(reading: Dedup.Reading, managed: Agents, dup: DupCache, input: Input): DupCache {
    match input
    case Stream(msg, faults) => NewDup(reading, managed, dup, msg, faults)
    case ExpireDup(key) => dup - {key}
    case _ => dup
  }

  function ManagedAfter(v: View, input: Input): Agents {
    match input
    case ExpireDup(key) => if key in v.dup then Dedup.Release(v.managed, key, v.dup[key]) else v.managed
    case Join(agent) => AgentMasks.Registered(v.managed, v.latestMask, agent)
    case _ => v.managed
  }

  /** The view after one input. */
  function After(reading: Dedup.Reading, v: View, input: Input): View {
    View(ManagedAfter(v, input),
         if input.Join? && input.agent !in v.managed then (v.latestMask + 1) % AgentMasks.MASKS else v.latestMask,
         DupAfter(reading, v.managed, v.dup, input),
         UsersAfter(v.users, input),
         MedalsAfter(v.medals, input),
         if input.Elect? then input.master else v.master,
         v.events + NewEvents(reading, v, input))
  }

  // ---- the steps -------------------------------------------------------------------------

  lemma UsersInAfter(events: seq<Payload>, more: seq<Payload>)
    requires |more| <= 1
    ensures UsersIn(events + more) ==
            UsersIn(events) + if more != [] && more[0].UserEvent? then [more[0].user] else []
  {
    if more == [] {
      assert events + more == events;
    } else {
      assert (events + more)[..|events|] == events;
    }
  }

  lemma MedalsInAfter(events: seq<Payload>, more: seq<Payload>)
    requires |more| <= 1
    ensures MedalsIn(events + more) ==
            MedalsIn(events) + if more != [] && more[0].MedalEvent? then [more[0].medal] else []
  {
    if more == [] {
      assert events + more == events;
    } else {
      assert (events + more)[..|events|] == events;
    }
  }

  lemma StandardInAfter(events: seq<Payload>, more: seq<Payload>)
    requires |more| <= 1
    ensures StandardIn(events + more) ==
            StandardIn(events) + if more != [] && more[0].StandardEvent? then [more[0].identity] else []
  {
    if more == [] {
      assert events + more == events;
    } else {
      assert (events + more)[..|events|] == events;
    }
  }

  lemma OnlineInAfter(events: seq<Payload>, more: seq<Payload>)
    requires |more| <= 1
    ensures OnlineIn(events + more) ==
            OnlineIn(events) + if more != [] && more[0].OnlineEvent? then [more[0].agent] else []
  {
    if more == [] {
      assert events + more == events;
    } else {
      assert (events + more)[..|events|] == events;
    }
  }

  predicate AboutUser(input: Input) {
    input.ExpireUser? || (input.Stream? && input.msg.UserInfoMeta? && input.msg.user.Some?)
  }

  lemma UserSeen(v: View, inputs: seq<Input>, user: UserMeta.UserInfo, faults: Faults)
    requires UsersServed(v, inputs)
    ensures var input := Stream(UserInfoMeta(Some(user)), faults);
            var out := UserEvents(v.users, Some(user), faults);
            && UserMeta.ControllerCache(Arrivals(inputs + [input])) == NewUsers(v.users, Some(user), faults)
            && UserMeta.Events(Arrivals(inputs + [input])) == UsersIn(v.events) + out
  {
    var input := Stream(UserInfoMeta(Some(user)), faults);
    assert (inputs + [input])[..|inputs|] == inputs;
    var before := Arrivals(inputs);
    if UserCompared(v.users, user, faults) {
      assert (before + [UserMeta.Message(user, !faults.write)])[..|before|] == before;
    } else {
      assert UsersIn(v.events) + [] == UsersIn(v.events);
    }
  }

  lemma UserExpired(inputs: seq<Input>, uid: uint64)
    ensures var after := Arrivals(inputs + [ExpireUser(uid)]);
            && UserMeta.ControllerCache(after) == UserMeta.ControllerCache(Arrivals(inputs)) - {FormatUint(uid)}
            && UserMeta.Events(after) == UserMeta.Events(Arrivals(inputs))
  {
    var before := Arrivals(inputs);
    assert (inputs + [ExpireUser(uid)])[..|inputs|] == inputs;
    assert (before + [UserMeta.Expire(uid)])[..|before|] == before;
  }

  lemma UsersStep(reading: Dedup.Reading, v: View, inputs: seq<Input>, input: Input)
    requires UsersServed(v, inputs)
    ensures UsersServed(After(reading, v, input), inputs + [input])
  {
    var more := NewEvents(reading, v, input);
    UsersInAfter(v.events, more);
    match input {
      case ExpireUser(uid) => UserExpired(inputs, uid);
      case Stream(UserInfoMeta(Some(user)), faults) => UserSeenStep(reading, v, inputs, user, faults);
      case _ => NoUser(reading, v, inputs, input);
    }
  }

  lemma UserSeenStep(reading: Dedup.Reading, v: View, inputs: seq<Input>, user: UserMeta.UserInfo, faults: Faults)
    requires UsersServed(v, inputs)
    ensures var input := Stream(UserInfoMeta(Some(user)), faults);
            UsersServed(After(reading, v, input), inputs + [input])
  {
    UserSeen(v, inputs, user, faults);
    UsersInAfter(v.events, NewEvents(reading, v, Stream(UserInfoMeta(Some(user)), faults)));
    AfterUser(reading, v, Some(user), faults);
  }

  lemma NoUser(reading: Dedup.Reading, v: View, inputs: seq<Input>, input: Input)
    requires !AboutUser(input)
    ensures Arrivals(inputs + [input]) == Arrivals(inputs) && UsersAfter(v.users, input) == v.users
    ensures NewEvents(reading, v, input) == [] || !NewEvents(reading, v, input)[0].UserEvent?
  {
    assert (inputs + [input])[..|inputs|] == inputs;
  }

  predicate AboutMedal(input: Input) {
    input.ExpireMedal? || (input.Stream? && input.msg.FansMedal? && input.msg.medal.Some?)
  }

  lemma MedalSeen(v: View, inputs: seq<Input>, medal: Medals.Medal, faults: Faults)
    requires MedalsServed(v, inputs)
    ensures var input := Stream(FansMedal(Some(medal)), faults);
            var passes := MedalPasses(v.medals, Some(medal), faults);
            && Medals.TierCache(MedalInputs(inputs + [input])) == NewMedals(v.medals, Some(medal), faults)
            && Medals.TierStream(MedalInputs(inputs + [input])) == MedalsIn(v.events) + if passes then [medal] else []
  {
    var input := Stream(FansMedal(Some(medal)), faults);
    assert (inputs + [input])[..|inputs|] == inputs;
    var before := MedalInputs(inputs);
    if MedalCompared(v.medals, medal, faults) {
      assert (before + [Medals.See(medal, !faults.write)])[..|before|] == before;
    } else {
      assert MedalsIn(v.events) + [] == MedalsIn(v.events);
    }
  }

  lemma MedalExpired(inputs: seq<Input>, uid: uint64, roomUid: uint64)
    ensures var after := MedalInputs(inputs + [ExpireMedal(uid, roomUid)]);
            && Medals.TierCache(after) == Medals.TierCache(MedalInputs(inputs)) - {MedalKey(uid, roomUid)}
            && Medals.TierStream(after) == Medals.TierStream(MedalInputs(inputs))
  {
    var before := MedalInputs(inputs);
    assert (inputs + [ExpireMedal(uid, roomUid)])[..|inputs|] == inputs;
    assert (before + [Medals.Expire(uid, roomUid)])[..|before|] == before;
  }

  lemma MedalsStep(reading: Dedup.Reading, v: View, inputs: seq<Input>, input: Input)
    requires MedalsServed(v, inputs)
    ensures MedalsServed(After(reading, v, input), inputs + [input])
  {
    MedalsInAfter(v.events, NewEvents(reading, v, input));
    if AboutMedal(input) {
      match input {
        case ExpireMedal(uid, roomUid) => MedalExpired(inputs, uid, roomUid);
        case Stream(FansMedal(Some(medal)), faults) => MedalSeen(v, inputs, medal, faults);
      }
    } else {
      NoMedal(reading, v, inputs, input);
    }
  }

  lemma NoMedal(reading: Dedup.Reading, v: View, inputs: seq<Input>, input: Input)
    requires !AboutMedal(input)
    ensures MedalInputs(inputs + [input]) == MedalInputs(inputs) && MedalsAfter(v.medals, input) == v.medals
    ensures NewEvents(reading, v, input) == [] || !NewEvents(reading, v, input)[0].MedalEvent?
  {
    assert (inputs + [input])[..|inputs|] == inputs;
  }

  predicate Follows(master: string, input: Input) {
    input.Stream? && OnlineOf(input.msg) == Some(master)
  }

  lemma FollowedStep(inputs: seq<Input>, input: Input)
    ensures MasterOf(inputs + [input]) == if input.Elect? then input.master else MasterOf(inputs)
    ensures Followed(inputs + [input]) ==
            Followed(inputs) + if Follows(MasterOf(inputs), input) then [MasterOf(inputs)] else []
  {
    assert (inputs + [input])[..|inputs|] == inputs;
  }

  lemma OnlineStep(reading: Dedup.Reading, v: View, inputs: seq<Input>, input: Input)
    requires v.master == MasterOf(inputs) && OnlineIn(v.events) == Followed(inputs)
    ensures MasterOf(inputs + [input]) == if input.Elect? then input.master else v.master
    ensures OnlineIn(v.events + NewEvents(reading, v, input)) == Followed(inputs + [input])
  {
    OnlineInAfter(v.events, NewEvents(reading, v, input));
    FollowedStep(inputs, input);
    WhichOnline(reading, v, input);
  }

  lemma WhichOnline(reading: Dedup.Reading, v: View, input: Input)
    ensures var more, follows := NewEvents(reading, v, input), Follows(v.master, input);
            && |more| <= 1
            && (follows ==> more == [OnlineEvent(v.master)])
            && (!follows ==> more == [] || !more[0].OnlineEvent?)
  {
  }

  lemma {:induction false} MessagesAtLonger(ops: seq<Dedup.Op>, op: Dedup.Op, positions: seq<nat>)
    requires forall p :: p in positions ==> p < |ops|
    ensures MessagesAt(ops + [op], positions) == MessagesAt(ops, positions)
  {
    if positions == [] {
    } else {
      var n := |positions| - 1;
      assert positions[n] in positions && forall p :: p in positions[..n] ==> p in positions;
      MessagesAtLonger(ops, op, positions[..n]);
    }
  }

  lemma FilterIdle(reading: Dedup.Reading, v: View, input: Input)
    requires OpOf(input) == None
    ensures var w := After(reading, v, input);
            w.managed == v.managed && w.latestMask == v.latestMask && w.dup == v.dup
    ensures NewEvents(reading, v, input) == [] || !NewEvents(reading, v, input)[0].StandardEvent?
  {
  }

  /** One input is one step of the duplicate filter. */
  lemma FilterWorks(reading: Dedup.Reading, v: View, c: Dedup.Center, input: Input, time: nat)
    requires OpOf(input) != None
    requires v.managed == c.managed && v.latestMask == c.latestMask && v.dup == c.dup
    ensures var w, d := After(reading, v, input), Dedup.Step(reading, c, OpOf(input).value, time);
            w.managed == d.managed && w.latestMask == d.latestMask && w.dup == d.dup
    ensures var more, d := NewEvents(reading, v, input), Dedup.Step(reading, c, OpOf(input).value, time);
            if more != [] && more[0].StandardEvent? then
              OpOf(input).value.Report? && more == [StandardEvent(OpOf(input).value.msg)] &&
                  d.pushed == c.pushed + [time]
            else d.pushed == c.pushed
  {
    if input.ExpireDup? && input.key !in v.dup {
      assert v.dup - {input.key} == v.dup;
    }
  }

  lemma FilterStep(reading: Dedup.Reading, v: View, inputs: seq<Input>, input: Input)
    requires FilterServed(reading, v, inputs)
    ensures FilterServed(reading, After(reading, v, input), inputs + [input])
  {
    if OpOf(input) == None {
      StandardInAfter(v.events, NewEvents(reading, v, input));
      OpsStep(reading, inputs, input);
      FilterIdle(reading, v, input);
    } else {
      FilterWorkStep(reading, v, inputs, input);
    }
  }

  lemma FilterWorkStep(reading: Dedup.Reading, v: View, inputs: seq<Input>, input: Input)
    requires FilterServed(reading, v, inputs) && OpOf(input) != None
    ensures FilterServed(reading, After(reading, v, input), inputs + [input])
  {
    var before, op, more := Ops(inputs), OpOf(input).value, NewEvents(reading, v, input);
    var c := Dedup.Run(reading, before);
    var d := Dedup.Step(reading, c, op, |before|);
    FilterWorks(reading, v, c, input, |before|);
    OpsStep(reading, inputs, input);
    PushedMessages(reading, before, op);
    MatchingEvents(v.events, more, before, c.pushed, d.pushed, op);
  }

  /** What the filter pushes is what the event channel gets. */
  lemma MatchingEvents(events: seq<Payload>, more: seq<Payload>, before: seq<Dedup.Op>, pushed: seq<nat>,
                       pushed': seq<nat>, op: Dedup.Op)
    requires StandardIn(events) == MessagesAt(before, pushed) && |more| <= 1
    requires if more != [] && more[0].StandardEvent? then
               op.Report? && more == [StandardEvent(op.msg)] && pushed' == pushed + [|before|]
             else pushed' == pushed
    requires pushed' == pushed ==> MessagesAt(before + [op], pushed') == MessagesAt(before, pushed)
    requires pushed' == pushed + [|before|] && op.Report? ==>
               MessagesAt(before + [op], pushed') == MessagesAt(before, pushed) + [op.msg]
    ensures StandardIn(events + more) == MessagesAt(before + [op], pushed')
  {
    StandardInAfter(events, more);
  }

  lemma OpsStep(reading: Dedup.Reading, inputs: seq<Input>, input: Input)
    ensures OpOf(input) == None ==> Ops(inputs + [input]) == Ops(inputs)
    ensures OpOf(input) != None ==>
              && Ops(inputs + [input]) == Ops(inputs) + [OpOf(input).value]
              && Dedup.Run(reading, Ops(inputs + [input])) ==
                 Dedup.Step(reading, Dedup.Run(reading, Ops(inputs)), OpOf(input).value, |Ops(inputs)|)
  {
    assert (inputs + [input])[..|inputs|] == inputs;
    if OpOf(input) != None {
      var all := Ops(inputs) + [OpOf(input).value];
      assert all[..|Ops(inputs)|] == Ops(inputs);
    }
  }

  lemma PushedMessages(reading: Dedup.Reading, before: seq<Dedup.Op>, op: Dedup.Op)
    ensures var c, d := Dedup.Run(reading, before), Dedup.Run(reading, before + [op]);
            && (d.pushed == c.pushed ==> MessagesAt(before + [op], d.pushed) == MessagesAt(before, c.pushed))
            && (d.pushed == c.pushed + [|before|] && op.Report? ==>
                  MessagesAt(before + [op], d.pushed) == MessagesAt(before, c.pushed) + [op.msg])
  {
    var c, d := Dedup.Run(reading, before), Dedup.Run(reading, before + [op]);
    Dedup.PushedInOrder(reading, before);
    forall p | p in c.pushed ensures p < |before| {
      var i :| 0 <= i < |c.pushed| && c.pushed[i] == p;
    }
    MessagesAtLonger(before, op, c.pushed);
    if d.pushed == c.pushed + [|before|] {
      assert d.pushed[..|c.pushed|] == c.pushed;
    }
  }

  lemma ServedStep(reading: Dedup.Reading, v: View, w: View, inputs: seq<Input>, input: Input)
    requires Served(reading, v, inputs) && w == After(reading, v, input)
    ensures Served(reading, w, inputs + [input])
  {
    UsersStep(reading, v, inputs, input);
    MedalsStep(reading, v, inputs, input);
    FilterStep(reading, v, inputs, input);
    OnlineStep(reading, v, inputs, input);
  }

  // ---- what the messages themselves say ------------------------------------------------------

  const HEALTHY := Faults(false, false, false)

  /** Every subject has its own pool. */
  lemma PoolOfSubject(msg: StreamMsg)
    ensures msg.FansMedal? <==> KindOf(msg) == Custody.FansMedal
    ensures msg.UserInfoMeta? <==> KindOf(msg) == Custody.UserInfoMeta
    ensures msg.Damaku? <==> KindOf(msg) == Custody.Damaku
    ensures msg.Gift? <==> KindOf(msg) == Custody.Gift
    ensures msg.Guard? <==> KindOf(msg) == Custody.Guard
    ensures msg.SuperChat? <==> KindOf(msg) == Custody.SuperChat
    ensures msg.Online? <==> KindOf(msg) == Custody.Online
    ensures msg.OnlineV2? <==> KindOf(msg) == Custody.OnlineV2
  {
  }

  /** A message that takes part in duplicate filtering: decoded, and for a danmaku with its room. */
  predicate Complete(msg: StreamMsg, sender: string) {
    match msg
    case Damaku(Some(f)) => f.agent == sender && f.data.0 != None
    case Gift(Some(f)) => f.agent == sender
    case Guard(Some(f)) => f.agent == sender
    case SuperChat(Some(f)) => f.agent == sender
    case _ => false
  }

  /** One subject, and the same room, user and time, or gift number, or user and time. */
  predicate SameMessage(a: StreamMsg, b: StreamMsg) {
    match (a, b)
    case (Damaku(Some(f)), Damaku(Some(g))) => f.data.0 == g.data.0 && f.data.1 == g.data.1 && f.data.2 == g.data.2
    case (Gift(Some(f)), Gift(Some(g))) => f.data == g.data
    case (Guard(Some(f)), Guard(Some(g))) => f.data.0 == g.data.0 && f.data.1 == g.data.1
    case (SuperChat(Some(f)), SuperChat(Some(g))) => f.data.0 == g.data.0 && f.data.1 == g.data.1
    case _ => false
  }

  /** An event that carries exactly the identifying fields of a message. */
  predicate Carries(event: Payload, msg: StreamMsg) {
    event.StandardEvent? &&
    match msg
    case Damaku(Some(f)) =>
      event.identity.Damaku? && Some(event.identity.room) == f.data.0 && event.identity.uid == f.data.1 &&
      event.identity.time == f.data.2
    case Gift(Some(f)) => event.identity.Gift? && event.identity.tid == f.data
    case Guard(Some(f)) => event.identity.Guard? && event.identity.uid == f.data.0 && event.identity.time == f.data.1
    case SuperChat(Some(f)) =>
      event.identity.SuperChat? && event.identity.uid == f.data.0 && event.identity.time == f.data.1
    case _ => false
  }

  /** The key of a message's entry, in the fields of the message. */
  ghost function EntryKey(msg: StreamMsg): string {
    match msg
    case Damaku(Some(f)) =>
      "damaku" + ":" + FormatUint(if f.data.0 == None then 0 else f.data.0.value) + ":" + FormatUint(f.data.1) + ":" +
      FormatUint(f.data.2)
    case Gift(Some(f)) => "gift" + ":" + FormatUint(f.data)
    case Guard(Some(f)) => "guard" + ":" + FormatUint(f.data.0) + ":" + FormatUint(f.data.1)
    case SuperChat(Some(f)) => "superChat" + ":" + FormatUint(f.data.0) + ":" + FormatUint(f.data.1)
    case _ => ""
  }

  /** A complete message is filtered under its sender and under the key its own fields spell. */
  lemma FilteredUnder(msg: StreamMsg, sender: string)
    requires Complete(msg, sender)
    ensures StandardOf(msg) != None && StandardOf(msg).value.agent == sender && AgentOf(msg) == Some(sender)
    ensures DedupKey(StandardOf(msg).value.data) == EntryKey(msg)
    ensures Carries(StandardEvent(StandardOf(msg).value.data), msg)
  {
    match msg {
      case Damaku(Some(f)) => DamakuKeyFormat(f.data.0.value, f.data.1, f.data.2);
      case Gift(Some(f)) => GiftKeyFormat(f.data);
      case Guard(Some(f)) => GuardKeyFormat(f.data.0, f.data.1);
      case SuperChat(Some(f)) => SuperChatKeyFormat(f.data.0, f.data.1);
    }
  }

  /** Two complete messages share an entry exactly when they are the same message. */
  lemma SameEntryIff(a: StreamMsg, senderA: string, b: StreamMsg, senderB: string)
    requires Complete(a, senderA) && Complete(b, senderB)
    ensures EntryKey(a) == EntryKey(b) <==> SameMessage(a, b)
  {
    FilteredUnder(a, senderA);
    FilteredUnder(b, senderB);
    DedupKeyInjective(StandardOf(a).value.data, StandardOf(b).value.data);
  }

  /** A complete message of a known agent, with a working cache: an event with exactly its fields
      if its entry is not there, else none; and its entry is there afterwards, with the agent's
      mask at the end, while no other entry has changed. */
  lemma StandardEffect(v: View, msg: StreamMsg, sender: string)
    requires Complete(msg, sender) && sender in v.managed
    ensures var w := After(Dedup.Meant, v, Stream(msg, HEALTHY));
            && (EntryKey(msg) in v.dup ==> w.events == v.events)
            && (EntryKey(msg) !in v.dup ==>
                  |w.events| == |v.events| + 1 && w.events[..|v.events|] == v.events &&
                  Carries(w.events[|v.events|], msg))
            && w.dup.Keys == v.dup.Keys + {EntryKey(msg)}
            && w.dup[EntryKey(msg)] == (if EntryKey(msg) in v.dup then v.dup[EntryKey(msg)] else []) +
                                       AgentMasks.EncodeMask(v.managed[sender].mask)
            && (forall k :: k in v.dup && k != EntryKey(msg) ==> w.dup[k] == v.dup[k])
            && w.managed == v.managed
  {
    FilteredUnder(msg, sender);
    AfterStandard(Dedup.Meant, v, msg, HEALTHY);
  }

  /** After a complete message of a known agent a second one is suppressed if it is the same, and
      otherwise treated as if the first had not been. */
  lemma SecondSuppressedIff(v: View, a: StreamMsg, senderA: string, b: StreamMsg, senderB: string)
    requires Complete(a, senderA) && Complete(b, senderB) && senderA in v.managed && senderB in v.managed
    ensures var w := After(Dedup.Meant, v, Stream(a, HEALTHY));
            var more := NewEvents(Dedup.Meant, w, Stream(b, HEALTHY));
            && (SameMessage(a, b) ==> more == [])
            && (!SameMessage(a, b) ==> more == NewEvents(Dedup.Meant, v, Stream(b, HEALTHY)))
            && (!SameMessage(a, b) && EntryKey(b) !in v.dup ==> |more| == 1 && Carries(more[0], b))
  {
    StandardEffect(v, a, senderA);
    SameEntryIff(a, senderA, b, senderB);
    FilteredUnder(b, senderB);
    var w := After(Dedup.Meant, v, Stream(a, HEALTHY));
    SentIff(w, b, senderB);
    SentIff(v, b, senderB);
  }

  lemma SentIff(v: View, msg: StreamMsg, sender: string)
    requires Complete(msg, sender) && sender in v.managed
    ensures NewEvents(Dedup.Meant, v, Stream(msg, HEALTHY)) ==
            if EntryKey(msg) in v.dup then [] else [StandardEvent(StandardOf(msg).value.data)]
  {
    FilteredUnder(msg, sender);
  }

  /** What the filter is told of a complete message: its sender, its fields and the faults. */
  lemma ReportedFields(msg: StreamMsg, sender: string, faults: Faults)
    requires Complete(msg, sender)
    ensures OpOf(Stream(msg, faults)) != None
    ensures var op := OpOf(Stream(msg, faults)).value;
            && op.Report? && op.id == sender && Carries(StandardEvent(op.msg), msg)
            && op.lookupFails == faults.lookup && op.appendFails == faults.write
  {
    FilteredUnder(msg, sender);
  }

  /** A decoded user record is compared unless the lookup fails, or finds an entry it cannot read. */
  lemma UserComparedIff(inputs: seq<Input>, user: UserMeta.UserInfo, faults: Faults)
    ensures var before, after := Arrivals(inputs), Arrivals(inputs + [Stream(UserInfoMeta(Some(user)), faults)]);
            && (!faults.lookup && !(faults.unreadable && UserMeta.Latest(before, user.uid) != None) ==>
                  after == before + [UserMeta.Message(user, !faults.write)])
            && (faults.lookup || (faults.unreadable && UserMeta.Latest(before, user.uid) != None) ==> after == before)
  {
    var input := Stream(UserInfoMeta(Some(user)), faults);
    assert (inputs + [input])[..|inputs|] == inputs;
    UserMeta.ControllerCacheIsLatest(Arrivals(inputs), user.uid);
  }

  /** The same for a medal of some room. */
  lemma MedalComparedIff(inputs: seq<Input>, medal: Medals.Medal, faults: Faults)
    requires medal.roomUid != 0
    ensures var before, after := MedalInputs(inputs), MedalInputs(inputs + [Stream(FansMedal(Some(medal)), faults)]);
            var known := Medals.Latest(before, medal.uid, medal.roomUid) != None;
            && (!faults.lookup && !(faults.unreadable && known) ==>
                  after == before + [Medals.See(medal, !faults.write)])
            && (faults.lookup || (faults.unreadable && known) ==> after == before)
  {
    var input := Stream(FansMedal(Some(medal)), faults);
    assert (inputs + [input])[..|inputs|] == inputs;
    Medals.CachedIsLatest(MedalInputs(inputs), medal.uid, medal.roomUid);
  }

  /** The single streams: an event exactly for a message of the current master. */
  lemma OnlineEffect(reading: Dedup.Reading, v: View, agent: string, faults: Faults)
    ensures NewEvents(reading, v, Stream(Online(Some(agent)), faults)) ==
            if agent == v.master then [OnlineEvent(agent)] else []
    ensures NewEvents(reading, v, Stream(OnlineV2(Some(agent)), faults)) ==
            if agent == v.master then [OnlineEvent(agent)] else []
    ensures Follows(v.master, Stream(Online(Some(agent)), faults)) <==> agent == v.master
    ensures Follows(v.master, Stream(OnlineV2(Some(agent)), faults)) <==> agent == v.master
  {
  }

  // ---- the effect of one message, subject by subject ---------------------------------------

  lemma AfterMedal(reading: Dedup.Reading, v: View, medal: Option<Medals.Medal>, faults: Faults)
    ensures After(reading, v, Stream(FansMedal(medal), faults)) ==
            v.(medals := NewMedals(v.medals, medal, faults),
               events := v.events + if MedalPasses(v.medals, medal, faults) then [MedalEvent(medal.value)] else [])
  {
  }

  lemma AfterUser(reading: Dedup.Reading, v: View, user: Option<UserMeta.UserInfo>, faults: Faults)
    ensures var out := UserEvents(v.users, user, faults);
            After(reading, v, Stream(UserInfoMeta(user), faults)) ==
            v.(users := NewUsers(v.users, user, faults),
               events := v.events + if out == [] then [] else [UserEvent(out[0])])
  {
  }

  lemma AfterOnline(reading: Dedup.Reading, v: View, msg: StreamMsg, faults: Faults)
    requires msg.Online? || msg.OnlineV2?
    ensures After(reading, v, Stream(msg, faults)) ==
            v.(events := v.events + if OnlineOf(msg) == Some(v.master) then [OnlineEvent(v.master)] else [])
  {
  }

  lemma AfterStandard(reading: Dedup.Reading, v: View, msg: StreamMsg, faults: Faults)
    requires msg.Damaku? || msg.Gift? || msg.Guard? || msg.SuperChat?
    ensures var verdict := Verdict(reading, v.managed, v.dup, msg, faults);
            After(reading, v, Stream(msg, faults)) ==
            v.(dup := NewDup(reading, v.managed, v.dup, msg, faults),
               events := v.events + if verdict.send then [StandardEvent(StandardOf(msg).value.data)] else [])
  {
  }

  // ---- whole histories ---------------------------------------------------------------------

  ghost function AfterAll(reading: Dedup.Reading, inputs: seq<Input>): View {
    if inputs == [] then EMPTY
    else After(reading, AfterAll(reading, inputs[..|inputs| - 1]), inputs[|inputs| - 1])
  }

  /** In every history the user events are those of the second user tier, the medal events those
      of the second medal tier, the standard events the reports the duplicate filter pushes and
      the online events the followed messages, each in order; caches and counters agree too. */
  lemma {:induction false} AllServed(reading: Dedup.Reading, inputs: seq<Input>)
    ensures Served(reading, AfterAll(reading, inputs), inputs)
  {
    if inputs == [] {
      ServedStart(reading);
    } else {
      var n := |inputs| - 1;
      var before := AfterAll(reading, inputs[..n]);
      AllServed(reading, inputs[..n]);
      ServedStep(reading, before, AfterAll(reading, inputs), inputs[..n], inputs[n]);
      assert inputs[..n] + [inputs[n]] == inputs;
    }
  }

  lemma ServedStart(reading: Dedup.Reading)
    ensures Served(reading, EMPTY, [])
  {
  }
}
