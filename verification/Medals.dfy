/**
 Medal records. They are always complete, so both tiers only suppress a record equal to
 the cached one; the agent and the controller run the same comparison.
 */
module Medals {
  import opened Base
  import opened Keys

  datatype Medal = Medal(uid: uint64, roomUid: uint64, name: string, level: nat, light: bool, guardLevel: int)

  type MedalCache = map<string, Medal>

  function KeyOf(m: Medal): string {
    MedalKey(m.uid, m.roomUid)
  }

  /** The fields the code compares; the user id is not among them. */
  predicate Same(a: Medal, b: Medal) {
    a.roomUid == b.roomUid && a.name == b.name && a.level == b.level && a.light == b.light &&
        a.guardLevel == b.guardLevel
  }

  /** A record is passed on when it is a medal at all and differs from the cached one. */
  predicate Passes(cache: MedalCache, m: Medal) {
    m.roomUid != 0 && (KeyOf(m) !in cache || !Same(m, cache[KeyOf(m)]))
  }

  /** What reaches a tier: a record, which is stored unless the cache write fails, or the expiry
      of an entry. */
  datatype Input = See(medal: Medal, stored: bool) | Expire(uid: uint64, roomUid: uint64)

  function Stored(cache: MedalCache, m: Medal, stored: bool): MedalCache {
    if Passes(cache, m) && stored then cache[KeyOf(m) := m] else cache
  }

  class MedalTier {
    var medalMetaCache: MedalCache
    var published: seq<Medal>

    method Index(meta: Medal, publishes: bool, stores: bool)
      modifies this
      ensures published == old(published) + if Passes(old(medalMetaCache), meta) && publishes then [meta] else []
      ensures medalMetaCache == Stored(old(medalMetaCache), meta, stores)
    {
      if meta.roomUid == 0 {
        return;
      }
      var key := KeyOf(meta);
      if key in medalMetaCache {
        var cached := medalMetaCache[key];
        if meta.roomUid == cached.roomUid && meta.name == cached.name && meta.level == cached.level &&
           meta.light == cached.light && meta.guardLevel == cached.guardLevel {
          return;
        }
      }
      if publishes {
        published := published + [meta];
      }
      if stores {
        medalMetaCache := medalMetaCache[key := meta];
      }
    }

    /** A stretch of the endless loop, from an empty cache, entries expiring in between. */
    method IndexAll(inputs: seq<Input>)
      requires medalMetaCache == map[] && published == []
      modifies this
      ensures medalMetaCache == TierCache(inputs) && published == TierStream(inputs)
    {
      for i := 0 to |inputs|
        invariant medalMetaCache == TierCache(inputs[..i]) && published == TierStream(inputs[..i])
      {
        assert inputs[..i + 1][..i] == inputs[..i];
        match inputs[i] {
          case See(m, stored) => Index(m, true, stored);
          case Expire(uid, roomUid) => medalMetaCache := medalMetaCache - {MedalKey(uid, roomUid)};
        }
      }
      assert inputs[..|inputs|] == inputs;
    }
  }

  function TierCache(inputs: seq<Input>): MedalCache {
    if inputs == [] then map[]
    else
      var before := TierCache(inputs[..|inputs| - 1]);
      match inputs[|inputs| - 1]
      case See(m, stored) => Stored(before, m, stored)
      case Expire(uid, roomUid) => before - {MedalKey(uid, roomUid)}
  }

  function TierStream(inputs: seq<Input>): seq<Medal> {
    if inputs == [] then []
    else
      var before, last := inputs[..|inputs| - 1], inputs[|inputs| - 1];
      TierStream(before) + if last.See? && Passes(TierCache(before), last.medal) then [last.medal] else []
  }

  /** The records a tier gets to see. */
  ghost function Seen(inputs: seq<Input>): seq<Medal> {
    if inputs == [] then []
    else
      var last := inputs[|inputs| - 1];
      Seen(inputs[..|inputs| - 1]) + if last.See? then [last.medal] else []
  }

  /** The records of one user and room. */
  ghost function Of(xs: seq<Medal>, uid: uint64, roomUid: uint64): seq<Medal> {
    if xs == [] then []
    else
      var x := xs[|xs| - 1];
      Of(xs[..|xs| - 1], uid, roomUid) + if x.uid == uid && x.roomUid == roomUid then [x] else []
  }

  /** Equal neighbours collapsed into one. */
  ghost function Collapsed(xs: seq<Medal>): seq<Medal> {
    if |xs| <= 1 then xs
    else
      var rest := Collapsed(xs[..|xs| - 1]);
      if xs[|xs| - 1] == xs[|xs| - 2] then rest else rest + [xs[|xs| - 1]]
  }

  ghost function Last(xs: seq<Medal>): Option<Medal> {
    if xs == [] then None else Some(xs[|xs| - 1])
  }

  lemma {:induction false} CollapsedLast(xs: seq<Medal>)
    ensures Last(Collapsed(xs)) == Last(xs)
  {
    if |xs| <= 1 {
    } else {
      CollapsedLast(xs[..|xs| - 1]);
    }
  }

  lemma CollapsedAppend(xs: seq<Medal>, x: Medal)
    ensures Collapsed(xs + [x]) == Collapsed(xs) + if Last(xs) == Some(x) then [] else [x]
  {
    assert (xs + [x])[..|xs|] == xs;
  }

  lemma OfAppend(xs: seq<Medal>, x: Medal, uid: uint64, roomUid: uint64)
    ensures Of(xs + [x], uid, roomUid) ==
            Of(xs, uid, roomUid) + if x.uid == uid && x.roomUid == roomUid then [x] else []
  {
    assert (xs + [x])[..|xs|] == xs;
  }

  function Lookup(cache: MedalCache, uid: uint64, roomUid: uint64): Option<Medal> {
    if MedalKey(uid, roomUid) in cache then Some(cache[MedalKey(uid, roomUid)]) else None
  }

  ghost predicate IsOf(m: Medal, uid: uint64, roomUid: uint64) {
    m.uid == uid && m.roomUid == roomUid
  }

  /** The last stored record of a user and room, unless it has expired since. */
  ghost function Latest(inputs: seq<Input>, uid: uint64, roomUid: uint64): Option<Medal> {
    if inputs == [] then None
    else
      var before := inputs[..|inputs| - 1];
      match inputs[|inputs| - 1]
      case See(m, stored) => if IsOf(m, uid, roomUid) && stored then Some(m) else Latest(before, uid, roomUid)
      case Expire(u, r) => if u == uid && r == roomUid then None else Latest(before, uid, roomUid)
  }

  /** The records of a user and room that differ from the latest stored one, in order. */
  ghost function News(inputs: seq<Input>, uid: uint64, roomUid: uint64): seq<Medal> {
    if inputs == [] then []
    else
      var before, last := inputs[..|inputs| - 1], inputs[|inputs| - 1];
      News(before, uid, roomUid) +
      if last.See? && IsOf(last.medal, uid, roomUid) && Latest(before, uid, roomUid) != Some(last.medal)
      then [last.medal] else []
  }

  /** What a tier remembers of a user and room is the last record stored and not expired. */
  lemma {:induction false} CachedIsLatest(inputs: seq<Input>, uid: uint64, roomUid: uint64)
    requires roomUid != 0
    ensures Lookup(TierCache(inputs), uid, roomUid) == Latest(inputs, uid, roomUid)
    ensures Latest(inputs, uid, roomUid) != None ==> IsOf(Latest(inputs, uid, roomUid).value, uid, roomUid)
  {
    if inputs == [] {
    } else {
      CachedIsLatest(inputs[..|inputs| - 1], uid, roomUid);
      match inputs[|inputs| - 1] {
        case See(m, _) => MedalKeyInjective(m.uid, m.roomUid, uid, roomUid);
        case Expire(u, r) => MedalKeyInjective(u, r, uid, roomUid);
      }
    }
  }

  lemma PassesIff(inputs: seq<Input>, m: Medal)
    requires m.roomUid != 0
    ensures Passes(TierCache(inputs), m) <==> Latest(inputs, m.uid, m.roomUid) != Some(m)
  {
    CachedIsLatest(inputs, m.uid, m.roomUid);
  }

  /** With any expiries and failed writes a tier passes on, per user and room, exactly the
      records that differ from the latest one it has stored. */
  lemma {:induction false} StreamIsNews(inputs: seq<Input>, uid: uint64, roomUid: uint64)
    requires roomUid != 0
    ensures Of(TierStream(inputs), uid, roomUid) == News(inputs, uid, roomUid)
  {
    if inputs == [] {
    } else {
      var before, last := inputs[..|inputs| - 1], inputs[|inputs| - 1];
      var sent := TierStream(before);
      StreamIsNews(before, uid, roomUid);
      assert sent + [] == sent;
      if last.See? {
        OfAppend(sent, last.medal, uid, roomUid);
        if IsOf(last.medal, uid, roomUid) {
          PassesIff(before, last.medal);
        }
      }
    }
  }

  /** Nothing of this user and room expires or fails to be stored. */
  ghost predicate Plain(inputs: seq<Input>, uid: uint64, roomUid: uint64) {
    forall i :: 0 <= i < |inputs| ==>
      inputs[i] != Expire(uid, roomUid) && (inputs[i].See? && IsOf(inputs[i].medal, uid, roomUid) ==> inputs[i].stored)
  }

  /** What the last input adds to the records seen of a user and room. */
  ghost function Added(last: Input, uid: uint64, roomUid: uint64): seq<Medal> {
    if last.See? && IsOf(last.medal, uid, roomUid) then [last.medal] else []
  }

  lemma SeenStep(inputs: seq<Input>, uid: uint64, roomUid: uint64)
    requires inputs != []
    ensures var before, last := inputs[..|inputs| - 1], inputs[|inputs| - 1];
            && Of(Seen(inputs), uid, roomUid) == Of(Seen(before), uid, roomUid) + Added(last, uid, roomUid)
            && News(inputs, uid, roomUid) == News(before, uid, roomUid) +
               if last.See? && Latest(before, uid, roomUid) == Some(last.medal) then [] else Added(last, uid, roomUid)
  {
    var before, last := inputs[..|inputs| - 1], inputs[|inputs| - 1];
    assert Seen(before) + [] == Seen(before);
    if last.See? {
      OfAppend(Seen(before), last.medal, uid, roomUid);
    }
  }

  lemma {:induction false} PlainLatest(inputs: seq<Input>, uid: uint64, roomUid: uint64)
    requires Plain(inputs, uid, roomUid)
    ensures Latest(inputs, uid, roomUid) == Last(Of(Seen(inputs), uid, roomUid))
  {
    if inputs == [] {
    } else {
      var before, last := inputs[..|inputs| - 1], inputs[|inputs| - 1];
      PlainLatest(before, uid, roomUid);
      SeenStep(inputs, uid, roomUid);
    }
  }

  lemma {:induction false} NewsIsCollapsed(inputs: seq<Input>, uid: uint64, roomUid: uint64)
    requires Plain(inputs, uid, roomUid)
    ensures News(inputs, uid, roomUid) == Collapsed(Of(Seen(inputs), uid, roomUid))
  {
    if inputs == [] {
    } else {
      var before, last := inputs[..|inputs| - 1], inputs[|inputs| - 1];
      NewsIsCollapsed(before, uid, roomUid);
      PlainLatest(before, uid, roomUid);
      SeenStep(inputs, uid, roomUid);
      var seen, news := Of(Seen(before), uid, roomUid), News(before, uid, roomUid);
      if Added(last, uid, roomUid) == [] {
        assert seen + [] == seen && news + [] == news;
      } else {
        CollapsedAppend(seen, last.medal);
      }
    }
  }

  /** Where nothing expires, what is published for a user and room is what was observed with
      equal neighbours collapsed, and its last record is the cached one. */
  lemma {:induction false} PublishedIsCollapsed(inputs: seq<Input>, uid: uint64, roomUid: uint64)
    requires roomUid != 0 && Plain(inputs, uid, roomUid)
    ensures Of(TierStream(inputs), uid, roomUid) == Collapsed(Of(Seen(inputs), uid, roomUid))
    ensures Lookup(TierCache(inputs), uid, roomUid) == Last(Of(TierStream(inputs), uid, roomUid))
  {
    StreamIsNews(inputs, uid, roomUid);
    NewsIsCollapsed(inputs, uid, roomUid);
    CachedIsLatest(inputs, uid, roomUid);
    PlainLatest(inputs, uid, roomUid);
    CollapsedLast(Of(Seen(inputs), uid, roomUid));
  }

  // ---- the second tier ---------------------------------------------------------------

  /** A record that is none, or repeats the latest stored one. */
  ghost predicate Repeats(inputs: seq<Input>, i: nat)
    requires i < |inputs|
  {
    inputs[i].See? &&
    (inputs[i].medal.roomUid == 0 ||
     Latest(inputs[..i], inputs[i].medal.uid, inputs[i].medal.roomUid) == Some(inputs[i].medal))
  }

  lemma PassedStep(inputs: seq<Input>)
    requires inputs != []
    ensures var n := |inputs| - 1;
            var more := if inputs[n].See? then [inputs[n].medal] else [];
            && Seen(inputs) == Seen(inputs[..n]) + more
            && TierStream(inputs) == TierStream(inputs[..n]) + if Repeats(inputs, n) then [] else more
  {
    var n := |inputs| - 1;
    if inputs[n].See? && inputs[n].medal.roomUid != 0 {
      PassesIff(inputs[..n], inputs[n].medal);
    }
  }

  /** A tier passes on everything it sees, in order, exactly when no record repeats the latest
      stored one of its user and room. */
  lemma {:induction false} SecondTierIff(inputs: seq<Input>)
    ensures |TierStream(inputs)| <= |Seen(inputs)|
    ensures TierStream(inputs) == Seen(inputs) <==> forall i :: 0 <= i < |inputs| ==> !Repeats(inputs, i)
  {
    if inputs == [] {
    } else {
      var n := |inputs| - 1;
      var before := inputs[..n];
      SecondTierIff(before);
      forall i | 0 <= i < n ensures Repeats(before, i) <==> Repeats(inputs, i) {
        assert before[..i] == inputs[..i];
      }
      PassedStep(inputs);
      var sent, seen := TierStream(before), Seen(before);
      assert TierStream(inputs)[..|sent|] == sent && Seen(inputs)[..|seen|] == seen;
    }
  }

  /** No record equals the one before it of the same user and room. */
  ghost predicate NoNeighbours(xs: seq<Medal>) {
    forall p :: 0 <= p < |xs| ==> xs[p].roomUid != 0 && Last(Of(xs[..p], xs[p].uid, xs[p].roomUid)) != Some(xs[p])
  }

  lemma NoNeighboursAppend(xs: seq<Medal>, x: Medal)
    requires NoNeighbours(xs) && x.roomUid != 0 && Last(Of(xs, x.uid, x.roomUid)) != Some(x)
    ensures NoNeighbours(xs + [x])
  {
    var all := xs + [x];
    forall p | 0 <= p < |all|
      ensures all[p].roomUid != 0 && Last(Of(all[..p], all[p].uid, all[p].roomUid)) != Some(all[p])
    {
      assert all[..p] == xs[..p] && xs[..|xs|] == xs;
    }
  }

  ghost predicate AllStored(inputs: seq<Input>) {
    forall i :: 0 <= i < |inputs| && inputs[i].See? ==> inputs[i].stored
  }

  ghost predicate NothingExpires(inputs: seq<Input>) {
    forall i :: 0 <= i < |inputs| ==> inputs[i].See?
  }

  lemma {:induction false} FirstTierApart(inputs: seq<Input>)
    requires AllStored(inputs) && NothingExpires(inputs)
    ensures NoNeighbours(TierStream(inputs))
  {
    if inputs == [] {
    } else {
      var before, m := inputs[..|inputs| - 1], inputs[|inputs| - 1].medal;
      FirstTierApart(before);
      if Passes(TierCache(before), m) {
        PublishedIsCollapsed(before, m.uid, m.roomUid);
        PassesIff(before, m);
        CachedIsLatest(before, m.uid, m.roomUid);
        NoNeighboursAppend(TierStream(before), m);
      } else {
        assert TierStream(before) + [] == TierStream(before);
      }
    }
  }

  /** When every write succeeds a tier remembers nothing older than the last record it saw. */
  lemma {:induction false} LatestOrNone(inputs: seq<Input>, uid: uint64, roomUid: uint64)
    requires AllStored(inputs)
    ensures Latest(inputs, uid, roomUid) == None || Latest(inputs, uid, roomUid) == Last(Of(Seen(inputs), uid, roomUid))
  {
    if inputs == [] {
    } else {
      var before, last := inputs[..|inputs| - 1], inputs[|inputs| - 1];
      LatestOrNone(before, uid, roomUid);
      SeenStep(inputs, uid, roomUid);
    }
  }

  lemma {:induction false} SeenPrefix(inputs: seq<Input>, i: nat)
    requires i <= |inputs|
    ensures Seen(inputs[..i]) <= Seen(inputs)
    ensures i < |inputs| && inputs[i].See? ==>
              |Seen(inputs[..i])| < |Seen(inputs)| && Seen(inputs)[|Seen(inputs[..i])|] == inputs[i].medal
    decreases |inputs| - i
  {
    if i == |inputs| {
      assert inputs[..i] == inputs;
    } else {
      SeenPrefix(inputs, i + 1);
      assert inputs[..i + 1][..i] == inputs[..i];
    }
  }

  /** The second tier passes on exactly what a first tier that does not forget has published,
      whatever expires at the second one. */
  lemma {:induction false} SecondTierIdentity(first: seq<Input>, second: seq<Input>)
    requires AllStored(first) && NothingExpires(first)
    requires AllStored(second) && Seen(second) == TierStream(first)
    ensures TierStream(second) == TierStream(first)
  {
    FirstTierApart(first);
    forall i | 0 <= i < |second| ensures !Repeats(second, i) {
      if second[i].See? {
        var m, seen := second[i].medal, Seen(second[..i]);
        SeenPrefix(second, i);
        assert Seen(second)[..|seen|] == seen;
        LatestOrNone(second[..i], m.uid, m.roomUid);
      }
    }
    SecondTierIff(second);
  }

  lemma {:induction false} LastNews(inputs: seq<Input>, uid: uint64, roomUid: uint64)
    requires AllStored(inputs)
    ensures Last(News(inputs, uid, roomUid)) == Last(Of(Seen(inputs), uid, roomUid))
  {
    if inputs == [] {
    } else {
      var before, last := inputs[..|inputs| - 1], inputs[|inputs| - 1];
      LastNews(before, uid, roomUid);
      LatestOrNone(before, uid, roomUid);
      SeenStep(inputs, uid, roomUid);
    }
  }

  /** Whatever expires at either tier, the last record passed on for a user and room is the last
      one observed; only repetitions in between can differ. */
  lemma {:induction false} LastPassedIsLastSeen(first: seq<Input>, second: seq<Input>, uid: uint64, roomUid: uint64)
    requires roomUid != 0
    requires AllStored(first) && AllStored(second) && Seen(second) == TierStream(first)
    ensures Last(Of(TierStream(second), uid, roomUid)) == Last(Of(Seen(first), uid, roomUid))
  {
    StreamIsNews(first, uid, roomUid);
    StreamIsNews(second, uid, roomUid);
    LastNews(first, uid, roomUid);
    LastNews(second, uid, roomUid);
  }

  /** An expiry at the first tier alone publishes a record again, which the second one suppresses;
      expired at both, it is passed on twice. */
  lemma ExpiryRepeats(m: Medal)
    requires m.roomUid != 0
    ensures var first := [See(m, true), Expire(m.uid, m.roomUid), See(m, true)];
            && TierStream(first) == [m, m]
            && TierStream([See(m, true), See(m, true)]) == [m]
            && TierStream([See(m, true), Expire(m.uid, m.roomUid), See(m, true)]) == [m, m]
  {
    var none: seq<Input>, one := [], [See(m, true)];
    var two := [See(m, true), Expire(m.uid, m.roomUid)];
    assert one[..0] == none && two[..1] == one && [See(m, true), See(m, true)][..1] == one;
    assert [See(m, true), Expire(m.uid, m.roomUid), See(m, true)][..2] == two;
    assert TierStream(one) == [m] && TierCache(one) == map[KeyOf(m) := m];
    assert TierStream(two) == [m] && TierCache(two) == map[];
  }
}
