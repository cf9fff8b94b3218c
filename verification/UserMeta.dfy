/**
 User records in two tiers: an agent merges partial observations and publishes the
 differences, the controller caches what it receives and merges again.
 */
module UserMeta {
  import opened Base
  import opened Keys
  import opened Sequences

  datatype UserInfo = UserInfo(uid: uint64, name: string, face: Option<string>, level: Option<nat>, wealth: Option<nat>)

  datatype Published = Published(subject: string, meta: UserInfo)

  predicate Same(a: UserInfo, b: UserInfo) {
    a.name == b.name && a.face == b.face && a.level == b.level && a.wealth == b.wealth
  }

  /** The optional fields a message leaves out, taken from the cached record. */
  function Fill(meta: UserInfo, cached: UserInfo): UserInfo {
    meta.(face := if meta.face == None then cached.face else meta.face,
          level := if meta.level == None then cached.level else meta.level,
          wealth := if meta.wealth == None then cached.wealth else meta.wealth)
  }

  // ---- first tier: the agent -----------------------------------------------

  const FIRST_SUBJECT := "userInfo"
  const UPDATE_SUBJECT := "userInfoMeta"

  type UserCache = map<string, UserInfo>

  /** The messages one observation leads to; the last one is also what gets cached. */
  function Publish(cache: UserCache, meta: UserInfo): seq<Published> {
    var key := FormatUint(meta.uid);
    if key !in cache then [Published(FIRST_SUBJECT, meta)]
    else if Same(meta, cache[key]) then []
    else [Published(UPDATE_SUBJECT, Fill(meta, cache[key]))]
  }

  function Cache(cache: UserCache, meta: UserInfo): UserCache {
    var out := Publish(cache, meta);
    if out == [] then cache else cache[FormatUint(meta.uid) := out[0].meta]
  }

  class MetaIndexer {
    var userMetaCache: UserCache
    var published: seq<Published>

    /** Publishing and caching can fail independently of each other. */
    method SyncMeta(key: string, subject: string, meta: UserInfo, publishes: bool, stores: bool)
      modifies this
      ensures published == old(published) + if publishes then [Published(subject, meta)] else []
      ensures userMetaCache == if stores then old(userMetaCache)[key := meta] else old(userMetaCache)
    {
      if publishes {
        published := published + [Published(subject, meta)];
      }
      if stores {
        userMetaCache := userMetaCache[key := meta];
      }
    }

    /** One message taken from userMetaChan. */
    method Index(observed: UserInfo, publishes: bool, stores: bool)
      modifies this
      ensures published == old(published) + if publishes then Publish(old(userMetaCache), observed) else []
      ensures userMetaCache == if stores then Cache(old(userMetaCache), observed) else old(userMetaCache)
    {
      var meta := observed;
      var key := FormatUint(meta.uid);
      if key !in userMetaCache {
        SyncMeta(key, FIRST_SUBJECT, meta, publishes, stores);
        return;
      }
      var cached := userMetaCache[key];
      if meta.name == cached.name && meta.face == cached.face && meta.level == cached.level &&
         meta.wealth == cached.wealth {
        return;
      }
      if meta.face == None && cached.face != None {
        meta := meta.(face := cached.face);
      }
      if meta.level == None && cached.level != None {
        meta := meta.(level := cached.level);
      }
      if meta.wealth == None && cached.wealth != None {
        meta := meta.(wealth := cached.wealth);
      }
      SyncMeta(key, UPDATE_SUBJECT, meta, publishes, stores);
    }

    /** A stretch of the endless loop, from an empty cache; publications may be lost. */
    method IndexAll(obs: seq<UserInfo>, publishes: seq<bool>)
      requires |publishes| == |obs| && userMetaCache == map[] && published == []
      modifies this
      ensures userMetaCache == AgentCache(obs) && Arrived(published, AgentStream(obs), publishes)
    {
      for i := 0 to |obs|
        invariant Indexed(userMetaCache, published, obs, publishes, i)
      {
        IndexedStep(userMetaCache, published, obs, publishes, i);
        Index(obs[i], publishes[i], true);
      }
      assert obs[..|obs|] == obs && publishes[..|obs|] == publishes;
    }
  }

  /** Where the loop stands after i observations. */
  ghost predicate Indexed(cache: UserCache, published: seq<Published>, obs: seq<UserInfo>, publishes: seq<bool>,
      i: nat)
  {
    && i <= |obs| == |publishes|
    && cache == AgentCache(obs[..i]) && Arrived(published, AgentStream(obs[..i]), publishes[..i])
  }

  lemma IndexedStep(cache: UserCache, published: seq<Published>, obs: seq<UserInfo>, publishes: seq<bool>, i: nat)
    requires Indexed(cache, published, obs, publishes, i) && i < |obs|
    ensures var more := if publishes[i] then Publish(cache, obs[i]) else [];
            Indexed(Cache(cache, obs[i]), published + more, obs, publishes, i + 1)
  {
    AgentStep(obs, i);
    assert publishes[..i] + [publishes[i]] == publishes[..i + 1];
    ArrivedStep(published, AgentStream(obs[..i]), publishes[..i], Publish(cache, obs[i]), publishes[i]);
  }

  lemma AgentStep(obs: seq<UserInfo>, i: nat)
    requires i < |obs|
    ensures AgentCache(obs[..i + 1]) == Cache(AgentCache(obs[..i]), obs[i])
    ensures AgentStream(obs[..i + 1]) == AgentStream(obs[..i]) + Publish(AgentCache(obs[..i]), obs[i])
  {
    assert obs[..i + 1][..i] == obs[..i];
  }

  /** What is left of a stream when some publications fail. */
  ghost predicate Arrived(published: seq<Published>, stream: seq<Published>, publishes: seq<bool>) {
    Subsequence(published, stream) && (false !in publishes ==> published == stream)
  }

  lemma ArrivedStep(published: seq<Published>, stream: seq<Published>, publishes: seq<bool>,
                    more: seq<Published>, publish: bool)
    requires Arrived(published, stream, publishes) && |more| <= 1
    ensures Arrived(published + if publish then more else [], stream + more, publishes + [publish])
  {
    SubsequenceGrows(published, stream, more);
    assert published + [] == published;
  }

  /** Cache and published stream after a sequence of observations without eviction. */
  function AgentCache(obs: seq<UserInfo>): UserCache {
    if obs == [] then map[] else Cache(AgentCache(obs[..|obs| - 1]), obs[|obs| - 1])
  }

  function AgentStream(obs: seq<UserInfo>): seq<Published> {
    if obs == [] then [] else
      AgentStream(obs[..|obs| - 1]) + Publish(AgentCache(obs[..|obs| - 1]), obs[|obs| - 1])
  }

  /** The last value an optional field had among the observations of one user. */
  ghost function LastSome<T>(obs: seq<UserInfo>, uid: uint64, field: UserInfo -> Option<T>): Option<T> {
    if obs == [] then None
    else if obs[|obs| - 1].uid == uid && field(obs[|obs| - 1]) != None then field(obs[|obs| - 1])
    else LastSome(obs[..|obs| - 1], uid, field)
  }

  function NameOf(u: UserInfo): Option<string> { Some(u.name) }
  function FaceOf(u: UserInfo): Option<string> { u.face }
  function LevelOf(u: UserInfo): Option<nat> { u.level }
  function WealthOf(u: UserInfo): Option<nat> { u.wealth }

  /** The right-biased fold of a user's observations, field by field. */
  ghost function Folded(obs: seq<UserInfo>, uid: uint64): Option<UserInfo> {
    match LastSome(obs, uid, NameOf)
    case None => None
    case Some(name) =>
      Some(UserInfo(uid, name, LastSome(obs, uid, FaceOf), LastSome(obs, uid, LevelOf), LastSome(obs, uid, WealthOf)))
  }

  function Lookup(cache: UserCache, uid: uint64): Option<UserInfo> {
    if FormatUint(uid) in cache then Some(cache[FormatUint(uid)]) else None
  }

  lemma LookupOther(cache: UserCache, meta: UserInfo, uid: uint64)
    ensures Lookup(cache[FormatUint(meta.uid) := meta], uid) ==
            if uid == meta.uid then Some(meta) else Lookup(cache, uid)
  {
    FormatUintInjective(meta.uid, uid);
  }

  lemma {:induction false} NothingSeen<T>(obs: seq<UserInfo>, uid: uint64, field: UserInfo -> Option<T>)
    requires LastSome(obs, uid, NameOf) == None
    ensures LastSome(obs, uid, field) == None
  {
    if obs == [] {
    } else {
      NothingSeen(obs[..|obs| - 1], uid, field);
    }
  }

  /** The cached record of a user is the per-field fold of everything observed for that user. */
  lemma {:induction false} AgentCacheIsFold(obs: seq<UserInfo>, uid: uint64)
    ensures Lookup(AgentCache(obs), uid) == Folded(obs, uid)
  {
    if obs == [] {
    } else {
      var before, m := obs[..|obs| - 1], obs[|obs| - 1];
      AgentCacheIsFold(before, uid);
      AgentCacheIsFold(before, m.uid);
      if Folded(before, uid) == None {
        NothingSeen(before, uid, FaceOf);
        NothingSeen(before, uid, LevelOf);
        NothingSeen(before, uid, WealthOf);
      }
      var out := Publish(AgentCache(before), m);
      if out != [] {
        LookupOther(AgentCache(before), out[0].meta, uid);
      }
    }
  }

  ghost predicate PublishedBefore(stream: seq<Published>, uid: uint64) {
    exists q :: 0 <= q < |stream| && stream[q].meta.uid == uid
  }

  lemma {:induction false} KnownIffPublished(obs: seq<UserInfo>, uid: uint64)
    ensures FormatUint(uid) in AgentCache(obs) <==> PublishedBefore(AgentStream(obs), uid)
  {
    if obs == [] {
    } else {
      var n := |obs| - 1;
      KnownIffPublished(obs[..n], uid);
      FormatUintInjective(obs[n].uid, uid);
      var before, more := AgentStream(obs[..n]), Publish(AgentCache(obs[..n]), obs[n]);
      PublishedAppend(before, more, uid);
    }
  }

  lemma PublishedAppend(before: seq<Published>, more: seq<Published>, uid: uint64)
    ensures PublishedBefore(before + more, uid) <==> PublishedBefore(before, uid) || PublishedBefore(more, uid)
  {
    var all := before + more;
    if q :| 0 <= q < |before| && before[q].meta.uid == uid {
      assert all[q].meta.uid == uid;
    }
    if q :| 0 <= q < |more| && more[q].meta.uid == uid {
      assert all[|before| + q].meta.uid == uid;
    }
  }

  /** The first record published of a user goes to one subject, all later ones to another. */
  lemma {:induction false} Subjects(obs: seq<UserInfo>, p: nat)
    requires p < |AgentStream(obs)|
    ensures var stream := AgentStream(obs);
            stream[p].subject == if PublishedBefore(stream[..p], stream[p].meta.uid) then "userInfoMeta" else "userInfo"
  {
    var n := |obs| - 1;
    var before := AgentStream(obs[..n]);
    if p < |before| {
      Subjects(obs[..n], p);
      assert AgentStream(obs)[..p] == before[..p];
    } else {
      KnownIffPublished(obs[..n], obs[n].uid);
      assert AgentStream(obs)[..p] == before;
    }
  }

  // ---- second tier: the controller -----------------------------------------

  /** What reaches the controller's cache: a message, which is stored unless the cache write
      fails, or the expiry of an entry. */
  datatype Arrival = Message(meta: UserInfo, stored: bool) | Expire(uid: uint64)

  function Push(cache: UserCache, meta: UserInfo): seq<UserInfo> {
    var key := FormatUint(meta.uid);
    if key !in cache then [meta]
    else if Same(meta, cache[key]) then []
    else [Fill(meta, cache[key])]
  }

  /** The received message is stored as it came, not the merged record. */
  function Store(cache: UserCache, meta: UserInfo): UserCache {
    if Push(cache, meta) == [] then cache else cache[FormatUint(meta.uid) := meta]
  }

  ghost function ControllerCache(arrivals: seq<Arrival>): UserCache {
    if arrivals == [] then map[]
    else
      var before := ControllerCache(arrivals[..|arrivals| - 1]);
      match arrivals[|arrivals| - 1]
      case Message(m, stored) => if stored then Store(before, m) else before
      case Expire(uid) => before - {FormatUint(uid)}
  }

  ghost function Events(arrivals: seq<Arrival>): seq<UserInfo> {
    if arrivals == [] then []
    else
      Events(arrivals[..|arrivals| - 1]) +
      match arrivals[|arrivals| - 1]
      case Message(m, _) => Push(ControllerCache(arrivals[..|arrivals| - 1]), m)
      case Expire(_) => []
  }

  /** The last stored message of a user, unless its entry has expired since. */
  ghost function Latest(arrivals: seq<Arrival>, uid: uint64): Option<UserInfo> {
    if arrivals == [] then None
    else
      var before := arrivals[..|arrivals| - 1];
      match arrivals[|arrivals| - 1]
      case Message(m, stored) => if m.uid == uid && stored then Some(m) else Latest(before, uid)
      case Expire(u) => if u == uid then None else Latest(before, uid)
  }

  /** The messages that differ from the latest stored one of their user, untouched and in order. */
  ghost function Changes(arrivals: seq<Arrival>): seq<UserInfo> {
    if arrivals == [] then []
    else
      var before := arrivals[..|arrivals| - 1];
      Changes(before) +
      match arrivals[|arrivals| - 1]
      case Message(m, _) => if Latest(before, m.uid) == Some(m) then [] else [m]
      case Expire(_) => []
  }

  /** m has every optional field that p has. */
  predicate Carries(m: UserInfo, p: UserInfo) {
    && (p.face != None ==> m.face != None)
    && (p.level != None ==> m.level != None)
    && (p.wealth != None ==> m.wealth != None)
  }

  /** No message leaves out a field that the latest stored one of its user had. */
  ghost predicate Growing(arrivals: seq<Arrival>) {
    forall i :: 0 <= i < |arrivals| && arrivals[i].Message? ==>
      var p := Latest(arrivals[..i], arrivals[i].meta.uid);
      p != None ==> Carries(arrivals[i].meta, p.value)
  }

  lemma {:induction false} ControllerCacheIsLatest(arrivals: seq<Arrival>, uid: uint64)
    ensures Lookup(ControllerCache(arrivals), uid) == Latest(arrivals, uid)
    ensures Latest(arrivals, uid) != None ==> Latest(arrivals, uid).value.uid == uid
  {
    if arrivals == [] {
    } else {
      var before := arrivals[..|arrivals| - 1];
      ControllerCacheIsLatest(before, uid);
      match arrivals[|arrivals| - 1] {
        case Message(m, _) => LookupOther(ControllerCache(before), m, uid);
        case Expire(u) => FormatUintInjective(u, uid);
      }
    }
  }

  /** Field by field, over every sequence of arrivals: a message equal to the latest stored one of
      its user leads to no event, any other to one event with its own id and name, and with each
      optional field of the message if present, else of the latest stored one. */
  lemma {:induction false} EventFields(arrivals: seq<Arrival>, i: nat)
    requires i < |arrivals| && arrivals[i].Message?
    ensures var m, known := arrivals[i].meta, Latest(arrivals[..i], arrivals[i].meta.uid);
            var before, after := Events(arrivals[..i]), Events(arrivals[..i + 1]);
            if known == Some(m) then after == before
            else
              && |after| == |before| + 1 && after[..|before|] == before
              && (var e := after[|before|];
                  && e.uid == m.uid && e.name == m.name
                  && (m.face != None ==> e.face == m.face)
                  && (m.face == None ==> e.face == if known == None then None else known.value.face)
                  && (m.level != None ==> e.level == m.level)
                  && (m.level == None ==> e.level == if known == None then None else known.value.level)
                  && (m.wealth != None ==> e.wealth == m.wealth)
                  && (m.wealth == None ==> e.wealth == if known == None then None else known.value.wealth))
  {
    var m := arrivals[i].meta;
    assert arrivals[..i + 1][..i] == arrivals[..i];
    ControllerCacheIsLatest(arrivals[..i], m.uid);
  }

  lemma GrowingStep(arrivals: seq<Arrival>)
    requires arrivals != []
    ensures var before, last := arrivals[..|arrivals| - 1], arrivals[|arrivals| - 1];
            Growing(arrivals) <==> Growing(before) && (last.Message? ==>
              var p := Latest(before, last.meta.uid); p != None ==> Carries(last.meta, p.value))
  {
    var n := |arrivals| - 1;
    assert forall i :: 0 <= i < n ==> arrivals[..n][..i] == arrivals[..i];
  }

  /** The controller passes every changed message on untouched exactly when no message of a
      user drops a field its predecessor had. */
  lemma {:induction false} TransparentIff(arrivals: seq<Arrival>)
    ensures |Events(arrivals)| == |Changes(arrivals)|
    ensures Events(arrivals) == Changes(arrivals) <==> Growing(arrivals)
  {
    if arrivals == [] {
    } else {
      var n := |arrivals| - 1;
      var before := arrivals[..n];
      TransparentIff(before);
      if arrivals[n].Message? {
        ControllerCacheIsLatest(before, arrivals[n].meta.uid);
      }
      GrowingStep(arrivals);
      var e, c := Events(before), Changes(before);
      assert Events(arrivals)[..|e|] == e && Changes(arrivals)[..|c|] == c;
    }
  }
}
