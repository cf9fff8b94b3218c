/**
 The center's controller: the worker that takes one message of the agents' streams from pool to
 event channel or back to the pool, on every error path, and the recycler.
 */
module Controller {
  import opened Base
  import opened Keys
  import opened Aggregation
  import AgentMasks
  import Custody
  import Dedup
  import Medals
  import UserMeta

  class DamakuController {
    const reading: Dedup.Reading
    const agent: AgentMasks.AgentManager
    var master: string               // "" while there is none
    var dupCache: map<string, seq<AgentMasks.byte>>
    var userMetaCache: UserMeta.UserCache
    var medalMetaCache: Medals.MedalCache
    var eventChan: seq<Payload>
    var custody: Custody.State

    constructor (reading: Dedup.Reading, agent: AgentMasks.AgentManager)
      requires agent.managed == map[] && agent.latestMask == 0
      ensures this.reading == reading && this.agent == agent
      ensures ViewOf() == EMPTY && custody == Custody.EMPTY
    {
      this.reading, this.agent := reading, agent;
      master, eventChan, custody := "", [], Custody.EMPTY;
      dupCache, userMetaCache, medalMetaCache := map[], map[], map[];
    }

    ghost function ViewOf(): View
      reads this, agent
    {
      View(agent.managed, agent.latestMask, dupCache, userMetaCache, medalMetaCache, master, eventChan)
    }

    method Get(obj: Custody.Obj)
      requires Custody.Enabled(custody, Custody.Get(obj.kind, obj))
      modifies this`custody
      ensures custody == Custody.Next(old(custody), Custody.Get(obj.kind, obj))
    {
      custody := Custody.Next(custody, Custody.Get(obj.kind, obj));
    }

    method Put(kind: Custody.Kind)
      requires Custody.Enabled(custody, Custody.Put(kind))
      modifies this`custody
      ensures custody == Custody.Next(old(custody), Custody.Put(kind))
    {
      custody := Custody.Next(custody, Custody.Put(kind));
    }

    method Send(event: Payload)
      requires Custody.Enabled(custody, Custody.Send)
      modifies this`eventChan, this`custody
      ensures custody == Custody.Next(old(custody), Custody.Send)
      ensures eventChan == old(eventChan) + [event]
    {
      custody := Custody.Next(custody, Custody.Send);
      eventChan := eventChan + [event];
    }

    /** The recycler: the pool is chosen by the dynamic type of the object. */
    method Recycle(msg: Custody.Obj)
      requires Custody.SingleOwner(custody) && msg in custody.recycle
      modifies this`custody
      ensures Custody.SingleOwner(custody) && (msg.kind, msg) in custody.pooled
    {
      Custody.StepKeepsOwner(custody, Custody.RecyclerPut(msg));
      custody := Custody.Next(custody, Custody.RecyclerPut(msg));
    }

    /** The medal in hand against the cache. */
    method CompareMedal(meta: Medals.Medal, faults: Faults)
      requires meta.roomUid != 0 && Custody.Enabled(custody, Custody.Put(Custody.FansMedal))
      modifies this`custody, this`eventChan, this`medalMetaCache
      ensures var pass := MedalPasses(old(medalMetaCache), Some(meta), faults);
              && custody == Custody.Next(old(custody), if pass then Custody.Send else Custody.Put(Custody.FansMedal))
              && eventChan == old(eventChan) + (if pass then [MedalEvent(meta)] else [])
              && medalMetaCache == NewMedals(old(medalMetaCache), Some(meta), faults)
    {
      var medalKey := MedalKey(meta.uid, meta.roomUid);
      if faults.lookup {
        Put(Custody.FansMedal);
        return;
      }
      if medalKey in medalMetaCache {
        var cached := medalMetaCache[medalKey];
        if faults.unreadable {
          Put(Custody.FansMedal);
          return;
        }
        if meta.roomUid == cached.roomUid && meta.name == cached.name && meta.level == cached.level &&
           meta.light == cached.light && meta.guardLevel == cached.guardLevel {
          Put(Custody.FansMedal);
          return;
        }
      }
      if !faults.write {
        medalMetaCache := medalMetaCache[medalKey := meta];
      }
      Send(MedalEvent(meta));
    }

    /** Case "fansMedal". */
    method FansMedalCase(medal: Option<Medals.Medal>, obj: Custody.Obj, faults: Faults)
      requires obj.kind == Custody.FansMedal && Custody.Enabled(custody, Custody.Get(obj.kind, obj))
      modifies this`custody, this`eventChan, this`medalMetaCache
      ensures var pass := MedalPasses(old(medalMetaCache), medal, faults);
              && custody == Custody.Handled(old(custody), obj, pass)
              && eventChan == old(eventChan) + (if pass then [MedalEvent(medal.value)] else [])
              && medalMetaCache == NewMedals(old(medalMetaCache), medal, faults)
    {
      Get(obj);
      if medal == None || medal.value.roomUid == 0 {
        Put(Custody.FansMedal);
      } else {
        CompareMedal(medal.value, faults);
      }
    }

    /** The user record in hand against the cache; the stored data is the message as it came. */
    method CompareUser(data: UserMeta.UserInfo, faults: Faults)
      requires Custody.Enabled(custody, Custody.Put(Custody.UserInfoMeta))
      modifies this`custody, this`eventChan, this`userMetaCache
      ensures var events := UserEvents(old(userMetaCache), Some(data), faults);
              && custody == Custody.Next(old(custody),
                                         if events != [] then Custody.Send else Custody.Put(Custody.UserInfoMeta))
              && eventChan == old(eventChan) + (if events == [] then [] else [UserEvent(events[0])])
              && userMetaCache == NewUsers(old(userMetaCache), Some(data), faults)
    {
      var meta := data;
      var userKey := FormatUint(meta.uid);
      if faults.lookup {
        Put(Custody.UserInfoMeta);
        return;
      }
      if userKey in userMetaCache {
        if faults.unreadable {
          Put(Custody.UserInfoMeta);
          return;
        }
        var cached := userMetaCache[userKey];
        if meta.name == cached.name && meta.face == cached.face && meta.level == cached.level &&
           meta.wealth == cached.wealth {
          Put(Custody.UserInfoMeta);
          return;
        }
        if meta.face == None && cached.face != None {
          meta := meta.(face := cached.face);
        }
        if meta.level == None && cached.level != None {
          meta := meta.(level := cached.level);
        }
        if meta.wealth == None && cached.wealth != None {
          meta := meta.(wealth := cached.wealth);
        }
        assert meta == UserMeta.Fill(data, cached);
      }
      if !faults.write {
        userMetaCache := userMetaCache[userKey := data];
      }
      Send(UserEvent(meta));
    }

    /** Case "userInfoMeta". */
    method UserInfoMetaCase(user: Option<UserMeta.UserInfo>, obj: Custody.Obj, faults: Faults)
      requires obj.kind == Custody.UserInfoMeta && Custody.Enabled(custody, Custody.Get(obj.kind, obj))
      modifies this`custody, this`eventChan, this`userMetaCache
      ensures var events := UserEvents(old(userMetaCache), user, faults);
              && custody == Custody.Handled(old(custody), obj, events != [])
              && eventChan == old(eventChan) + (if events == [] then [] else [UserEvent(events[0])])
              && userMetaCache == NewUsers(old(userMetaCache), user, faults)
    {
      Get(obj);
      if user == None {
        Put(Custody.UserInfoMeta);
        return;
      }
      CompareUser(user.value, faults);
    }

    /** The lookup and what it decides; go tells whether the mask is still to be appended. */
    method LookUp(key: string, msg: Identity, pool: Custody.Kind, faults: Faults) returns (go: bool)
      requires Custody.Enabled(custody, Custody.Put(pool))
      modifies this`custody, this`eventChan
      ensures var v := Dedup.Filter(reading, Dedup.Find(dupCache, key, faults.lookup));
              && go == v.append
              && custody == Custody.Next(old(custody), if v.send then Custody.Send else Custody.Put(pool))
              && eventChan == old(eventChan) + (if v.send then [StandardEvent(msg)] else [])
    {
      var notFound := !faults.lookup && key !in dupCache;
      var errNil := !faults.lookup && !notFound;
      go := true;
      if if reading.Written? then errNil else !errNil {
        Send(StandardEvent(msg));
        if !notFound {
          go := false; // the method returns with the lookup's error
        }
      } else {
        Put(pool);
      }
    }

    method MsgDuplicateFilter(key: string, msg: Identity, mask: seq<AgentMasks.byte>, pool: Custody.Kind,
        faults: Faults)
      requires Custody.Enabled(custody, Custody.Put(pool))
      modifies this`custody, this`eventChan, this`dupCache
      ensures var v := Dedup.Filter(reading, Dedup.Find(old(dupCache), key, faults.lookup));
              && custody == Custody.Next(old(custody), if v.send then Custody.Send else Custody.Put(pool))
              && eventChan == old(eventChan) + (if v.send then [StandardEvent(msg)] else [])
              && dupCache == if v.append && !faults.write then Dedup.Append(old(dupCache), key, mask) else old(dupCache)
    {
      var go := LookUp(key, msg, pool, faults);
      if !go || faults.write {
        return;
      }
      dupCache := dupCache[key := (if key in dupCache then dupCache[key] else []) + mask];
    }

    /** A decoded message of the four subjects: unknown agents and missing rooms are put back. */
    method FilterDecoded(msg: StreamMsg, faults: Faults)
      requires AgentOf(msg) != None && Custody.Enabled(custody, Custody.Put(KindOf(msg)))
      modifies this`custody, this`eventChan, this`dupCache
      ensures var v := Verdict(reading, agent.managed, old(dupCache), msg, faults);
              && custody == Custody.Next(old(custody), if v.send then Custody.Send else Custody.Put(KindOf(msg)))
              && eventChan == old(eventChan) + (if v.send then [StandardEvent(StandardOf(msg).value.data)] else [])
              && dupCache == NewDup(reading, agent.managed, old(dupCache), msg, faults)
    {
      var mask := agent.AgentMask(AgentOf(msg).value);
      if mask == None || (msg.Damaku? && msg.damaku.value.data.0 == None) {
        PutBack(reading, agent.managed, dupCache, msg, faults);
        Put(KindOf(msg));
        return;
      }
      StandardAgent(msg);
      FilterComplete(msg, mask.value, faults);
    }

    method FilterComplete(msg: StreamMsg, mask: seq<AgentMasks.byte>, faults: Faults)
      requires StandardOf(msg) != None && Custody.Enabled(custody, Custody.Put(KindOf(msg)))
      requires var sender := StandardOf(msg).value.agent;
               sender in agent.managed && mask == AgentMasks.EncodeMask(agent.managed[sender].mask)
      modifies this`custody, this`eventChan, this`dupCache
      ensures var v := Verdict(reading, agent.managed, old(dupCache), msg, faults);
              && custody == Custody.Next(old(custody), if v.send then Custody.Send else Custody.Put(KindOf(msg)))
              && eventChan == old(eventChan) + (if v.send then [StandardEvent(StandardOf(msg).value.data)] else [])
              && dupCache == NewDup(reading, agent.managed, old(dupCache), msg, faults)
    {
      var identity := StandardOf(msg).value.data;
      MsgDuplicateFilter(DedupKey(identity), identity, mask, KindOf(msg), faults);
    }

    /** Cases "damaku", "gift", "guard" and "superChat". */
    method StandardCase(msg: StreamMsg, obj: Custody.Obj, faults: Faults)
      requires msg.Damaku? || msg.Gift? || msg.Guard? || msg.SuperChat?
      requires obj.kind == KindOf(msg) && Custody.Enabled(custody, Custody.Get(obj.kind, obj))
      modifies this`custody, this`eventChan, this`dupCache
      ensures var v := Verdict(reading, agent.managed, old(dupCache), msg, faults);
              && custody == Custody.Handled(old(custody), obj, v.send)
              && eventChan == old(eventChan) + (if v.send then [StandardEvent(StandardOf(msg).value.data)] else [])
              && dupCache == NewDup(reading, agent.managed, old(dupCache), msg, faults)
    {
      Get(obj);
      if AgentOf(msg) == None {
        Undecodable(reading, agent.managed, dupCache, msg, faults);
        Put(KindOf(msg));
      } else {
        FilterDecoded(msg, faults);
      }
    }

    method FollowMaster(agent: string, pool: Custody.Kind)
      requires Custody.Enabled(custody, Custody.Put(pool))
      modifies this`custody, this`eventChan
      ensures custody == Custody.Next(old(custody), if agent == master then Custody.Send else Custody.Put(pool))
      ensures eventChan == old(eventChan) + (if agent == master then [OnlineEvent(master)] else [])
    {
      if agent != master {
        Put(pool);
        return;
      }
      Send(OnlineEvent(agent));
    }

    /** Cases "online" and "onlineV2": only the master agent's stream is followed. */
    method OnlineCase(msg: StreamMsg, obj: Custody.Obj)
      requires msg.Online? || msg.OnlineV2?
      requires obj.kind == KindOf(msg) && Custody.Enabled(custody, Custody.Get(obj.kind, obj))
      modifies this`custody, this`eventChan
      ensures var follow := (if msg.Online? then msg.online else msg.onlineV2) == Some(master);
              && custody == Custody.Handled(old(custody), obj, follow)
              && eventChan == old(eventChan) + (if follow then [OnlineEvent(master)] else [])
    {
      var pool := KindOf(msg);
      Get(obj);
      var agent := if msg.Online? then msg.online else msg.onlineV2;
      if agent == None {
        Put(pool);
        return;
      }
      FollowMaster(agent.value, pool);
    }

    /** The switch on the subject. */
    method Dispatch(msg: StreamMsg, obj: Custody.Obj, faults: Faults)
      requires obj.kind == KindOf(msg) && Custody.Enabled(custody, Custody.Get(obj.kind, obj))
      modifies this`custody, this`eventChan, this`dupCache, this`userMetaCache, this`medalMetaCache
      ensures ViewOf() == After(reading, old(ViewOf()), Stream(msg, faults))
      ensures custody == Custody.Handled(old(custody), obj, |eventChan| > |old(eventChan)|)
    {
      ghost var v := ViewOf();
      match msg {
        case FansMedal(medal) =>
          FansMedalCase(medal, obj, faults);
          AfterMedal(reading, v, medal, faults);
        case UserInfoMeta(user) =>
          UserInfoMetaCase(user, obj, faults);
          AfterUser(reading, v, user, faults);
        case Online(_) =>
          OnlineCase(msg, obj);
          AfterOnline(reading, v, msg, faults);
        case OnlineV2(_) =>
          OnlineCase(msg, obj);
          AfterOnline(reading, v, msg, faults);
        case _ =>
          StandardCase(msg, obj, faults);
          AfterStandard(reading, v, msg, faults);
      }
    }

    /** One message of streamChan: whatever goes wrong, the object it is decoded into is sent
        on once or put back once, and sent on exactly when one event appears. */
    method AggregateWindow(msg: StreamMsg, obj: Custody.Obj, faults: Faults)
      requires obj.kind == KindOf(msg) && Custody.Enabled(custody, Custody.Get(obj.kind, obj))
      modifies this`custody, this`eventChan, this`dupCache, this`userMetaCache, this`medalMetaCache
      ensures ViewOf() == After(reading, old(ViewOf()), Stream(msg, faults))
      ensures custody == Custody.Handled(old(custody), obj, |eventChan| > |old(eventChan)|)
      ensures Custody.SingleOwner(old(custody)) ==> Custody.SingleOwner(custody)
    {
      ghost var before, owned := eventChan, custody;
      Dispatch(msg, obj, faults);
      if Custody.SingleOwner(owned) {
        Custody.HandledKeepsOwner(owned, obj, |eventChan| > |before|);
      }
    }

    /** What happens when an entry of the duplicate cache expires. */
    method DupCacheRelease(key: string, entry: seq<AgentMasks.byte>)
      modifies agent
      ensures agent.managed == Dedup.Release(old(agent.managed), key, entry) &&
              agent.latestMask == old(agent.latestMask)
    {
      var m := Split(key, ':');
      if |m| < 2 {
        return;
      }
      agent.AddAgentHitMask(entry, m[0]);
    }

    /** An object from a pool, or a new one. */
    method Take(kind: Custody.Kind, reuse: bool) returns (obj: Custody.Obj)
      requires custody.hand == None
      ensures obj.kind == kind && Custody.Enabled(custody, Custody.Get(kind, obj))
    {
      if reuse {
        if p :| p in custody.pooled && p.0 == kind && p.1.kind == kind {
          return p.1;
        }
      }
      var id := 0;
      ghost var tried: set<Custody.Obj> := {};
      while Custody.Obj(kind, id) in custody.created
        invariant tried <= custody.created && forall o :: o in tried ==> o.id < id
        decreases custody.created - tried
      {
        tried := tried + {Custody.Obj(kind, id)};
        id := id + 1;
      }
      return Custody.Obj(kind, id);
    }

    /** One thing that happens: a message, an expiry, a registration or a change of master. */
    method Handle(input: Input, reuse: bool)
      requires custody.hand == None && Custody.SingleOwner(custody)
      modifies this, agent
      ensures ViewOf() == After(reading, old(ViewOf()), input)
      ensures custody.hand == None && Custody.SingleOwner(custody)
    {
      match input
      case Stream(msg, faults) =>
        var obj := Take(KindOf(msg), reuse);
        AggregateWindow(msg, obj, faults);
      case ExpireDup(key) =>
        if key in dupCache {
          DupCacheRelease(key, dupCache[key]);
        }
        dupCache := dupCache - {key};
      case ExpireUser(uid) => userMetaCache := userMetaCache - {FormatUint(uid)};
      case ExpireMedal(uid, roomUid) => medalMetaCache := medalMetaCache - {MedalKey(uid, roomUid)};
      case Join(id) => agent.Register(id);
      case Elect(id) => master := id;
    }

    /** A whole history from the start: caches, hit counters and the event channel, split by kind,
        are what the tiers and the duplicate filter say, and every object has one owner. */
    method Serve(inputs: seq<Input>, reuse: bool)
      requires ViewOf() == EMPTY && custody == Custody.EMPTY
      modifies this, agent
      ensures Served(reading, ViewOf(), inputs) && Custody.SingleOwner(custody)
    {
      Custody.OwnerOverRun([]);
      for i := 0 to |inputs|
        invariant ViewOf() == AfterAll(reading, inputs[..i])
        invariant custody.hand == None && Custody.SingleOwner(custody)
      {
        assert inputs[..i + 1][..i] == inputs[..i];
        Handle(inputs[i], reuse);
      }
      assert inputs[..|inputs|] == inputs;
      AllServed(reading, inputs);
    }
  }
}
