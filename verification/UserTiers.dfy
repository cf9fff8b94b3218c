/**
 The two tiers of user records together: what the controller makes of an agent's stream when
 publications are lost, entries expire and cache writes fail.
 */
module UserTiers {
  import opened Base
  import opened Keys
  import opened Sequences
  import opened UserMeta

  /** The part of the agent's stream that the controller listens to. */
  ghost function Updates(stream: seq<Published>): seq<UserInfo> {
    if stream == [] then []
    else
      Updates(stream[..|stream| - 1]) +
      if stream[|stream| - 1].subject == "userInfoMeta" then [stream[|stream| - 1].meta] else []
  }

  ghost function Messages(arrivals: seq<Arrival>): seq<UserInfo> {
    if arrivals == [] then []
    else
      Messages(arrivals[..|arrivals| - 1]) +
      if arrivals[|arrivals| - 1].Message? then [arrivals[|arrivals| - 1].meta] else []
  }

  /** The merged records the agent has reason to send after its observations. */
  ghost function Sent(obs: seq<UserInfo>): seq<UserInfo> {
    if obs == [] then []
    else
      var before, m := obs[..|obs| - 1], obs[|obs| - 1];
      var known := Folded(before, m.uid);
      Sent(before) + if known == None || Same(m, known.value) then [] else [Fill(m, known.value)]
  }

  lemma {:induction false} SentIsUpdates(obs: seq<UserInfo>)
    ensures Updates(AgentStream(obs)) == Sent(obs)
  {
    if obs == [] {
    } else {
      var before, m := obs[..|obs| - 1], obs[|obs| - 1];
      SentIsUpdates(before);
      AgentCacheIsFold(before, m.uid);
      var out := Publish(AgentCache(before), m);
      if out == [] {
        assert AgentStream(obs) == AgentStream(before);
      } else {
        assert AgentStream(obs)[..|AgentStream(obs)| - 1] == AgentStream(before);
      }
    }
  }

  lemma FoldStep(before: seq<UserInfo>, m: UserInfo, uid: uint64)
    ensures var known := Folded(before, uid);
            Folded(before + [m], uid) ==
              if uid != m.uid then known else if known == None then Some(m) else Some(Fill(m, known.value))
  {
    assert (before + [m])[..|before|] == before;
    if Folded(before, uid) == None {
      NothingSeen(before, uid, FaceOf);
      NothingSeen(before, uid, LevelOf);
      NothingSeen(before, uid, WealthOf);
    }
  }

  /** A message is everything known of its user after some of the observations. */
  ghost predicate FoldedAtSomePoint(obs: seq<UserInfo>, m: UserInfo) {
    exists k :: 0 <= k <= |obs| && Folded(obs[..k], m.uid) == Some(m)
  }

  lemma FoldedLater(before: seq<UserInfo>, obs: seq<UserInfo>, m: UserInfo)
    requires before <= obs && FoldedAtSomePoint(before, m)
    ensures FoldedAtSomePoint(obs, m)
  {
    var k :| 0 <= k <= |before| && Folded(before[..k], m.uid) == Some(m);
    assert before[..k] == obs[..k];
  }

  ghost predicate CarriedBy(xs: seq<UserInfo>, m: UserInfo) {
    forall x :: x in xs && x.uid == m.uid ==> Carries(m, x)
  }

  ghost predicate Chain(xs: seq<UserInfo>) {
    forall j :: 0 <= j < |xs| ==> CarriedBy(xs[..j], xs[j])
  }

  lemma ChainAppend(xs: seq<UserInfo>, m: UserInfo)
    requires Chain(xs) && CarriedBy(xs, m)
    ensures Chain(xs + [m])
  {
    forall j | 0 <= j < |xs + [m]| ensures CarriedBy((xs + [m])[..j], (xs + [m])[j]) {
      assert (xs + [m])[..j] == xs[..j];
      assert xs[..|xs|] == xs;
    }
  }

  /** What is sent for a user carries all that was sent before, as does what the agent then
      knows, and each message is the fold of the observations up to some point. */
  lemma {:induction false} SentGrows(obs: seq<UserInfo>)
    ensures Chain(Sent(obs))
    ensures forall x :: x in Sent(obs) ==> Folded(obs, x.uid) != None && Carries(Folded(obs, x.uid).value, x)
    ensures forall x :: x in Sent(obs) ==> FoldedAtSomePoint(obs, x)
  {
    if obs == [] {
    } else {
      var before, m := obs[..|obs| - 1], obs[|obs| - 1];
      assert obs == before + [m];
      SentGrows(before);
      FoldStep(before, m, m.uid);
      var known := Folded(before, m.uid);
      assert obs[..|obs|] == obs;
      forall x | x in Sent(before)
        ensures Folded(obs, x.uid) != None && Carries(Folded(obs, x.uid).value, x)
        ensures FoldedAtSomePoint(obs, x)
      {
        FoldStep(before, m, x.uid);
        FoldedLater(before, obs, x);
      }
      if known != None && !Same(m, known.value) {
        ChainAppend(Sent(before), Fill(m, known.value));
      }
    }
  }

  lemma {:induction false} LatestIsMessage(arrivals: seq<Arrival>, uid: uint64)
    ensures Latest(arrivals, uid) != None ==> Latest(arrivals, uid).value in Messages(arrivals)
    ensures Latest(arrivals, uid) != None ==> Latest(arrivals, uid).value.uid == uid
  {
    if arrivals == [] {
    } else {
      LatestIsMessage(arrivals[..|arrivals| - 1], uid);
    }
  }

  lemma {:induction false} MessagesPrefix(arrivals: seq<Arrival>, n: nat)
    requires n <= |arrivals|
    ensures Messages(arrivals[..n]) <= Messages(arrivals)
    ensures n < |arrivals| && arrivals[n].Message? ==>
              |Messages(arrivals[..n])| < |Messages(arrivals)| &&
                  Messages(arrivals)[|Messages(arrivals[..n])|] == arrivals[n].meta
    decreases |arrivals| - n
  {
    if n == |arrivals| {
      assert arrivals[..n] == arrivals;
    } else {
      MessagesPrefix(arrivals, n + 1);
      assert arrivals[..n + 1][..n] == arrivals[..n];
    }
  }

  lemma ChainFront(xs: seq<UserInfo>)
    requires Chain(xs) && xs != []
    ensures Chain(xs[..|xs| - 1]) && CarriedBy(xs[..|xs| - 1], xs[|xs| - 1])
  {
    assert forall j :: 0 <= j < |xs| - 1 ==> xs[..|xs| - 1][..j] == xs[..j];
  }

  lemma CarriedByFewer(xs: seq<UserInfo>, ys: seq<UserInfo>, m: UserInfo)
    requires CarriedBy(ys, m) && Subsequence(xs, ys)
    ensures CarriedBy(xs, m)
  {
    forall x | x in xs && x.uid == m.uid ensures Carries(m, x) {
      SubsequenceMembers(xs, ys, x);
    }
  }

  lemma {:induction false} ChainOfSubsequence(xs: seq<UserInfo>, ys: seq<UserInfo>)
    requires Chain(ys) && Subsequence(xs, ys)
    ensures Chain(xs)
  {
    if xs == [] {
    } else {
      var m, n := |xs| - 1, |ys| - 1;
      ChainFront(ys);
      if Subsequence(xs, ys[..n]) {
        ChainOfSubsequence(xs, ys[..n]);
      } else {
        ChainOfSubsequence(xs[..m], ys[..n]);
        CarriedByFewer(xs[..m], ys[..n], ys[n]);
        ChainAppend(xs[..m], xs[m]);
        assert xs[..m] + [xs[m]] == xs;
      }
    }
  }

  /** The controller receives what the agent publishes as updates, in order; some may be lost. */
  ghost predicate Delivered(obs: seq<UserInfo>, arrivals: seq<Arrival>) {
    Subsequence(Messages(arrivals), Updates(AgentStream(obs)))
  }

  /** One agent that does not forget, messages in order, and any losses between the tiers,
      expiries and failed writes at the controller: every event is the agent's merged record as
      it was sent, the events are exactly the messages that differ from what the controller
      remembers, and it remembers the last stored message of each user that has not expired. */
  lemma {:induction false} TwoTiersTransparent(obs: seq<UserInfo>, arrivals: seq<Arrival>)
    requires Delivered(obs, arrivals)
    ensures Events(arrivals) == Changes(arrivals)
    ensures forall e :: e in Events(arrivals) ==> FoldedAtSomePoint(obs, e)
    ensures forall uid :: Lookup(ControllerCache(arrivals), uid) == Latest(arrivals, uid)
  {
    SentIsUpdates(obs);
    SentGrows(obs);
    ChainOfSubsequence(Messages(arrivals), Sent(obs));
    ChainGrows(arrivals);
    TransparentIff(arrivals);
    ChangesAreMessages(arrivals);
    forall e | e in Events(arrivals) ensures FoldedAtSomePoint(obs, e) {
      SubsequenceMembers(Messages(arrivals), Sent(obs), e);
    }
    forall uid ensures Lookup(ControllerCache(arrivals), uid) == Latest(arrivals, uid) {
      ControllerCacheIsLatest(arrivals, uid);
    }
  }

  lemma ChainGrows(arrivals: seq<Arrival>)
    requires Chain(Messages(arrivals))
    ensures Growing(arrivals)
  {
    forall i | 0 <= i < |arrivals| && arrivals[i].Message?
      ensures var p := Latest(arrivals[..i], arrivals[i].meta.uid); p != None ==> Carries(arrivals[i].meta, p.value)
    {
      LatestIsMessage(arrivals[..i], arrivals[i].meta.uid);
      MessagesPrefix(arrivals, i);
      var sent, n := Messages(arrivals), |Messages(arrivals[..i])|;
      assert CarriedBy(sent[..n], sent[n]);
    }
  }

  lemma {:induction false} ChangesAreMessages(arrivals: seq<Arrival>)
    ensures forall e :: e in Changes(arrivals) ==> e in Messages(arrivals)
  {
    if arrivals == [] {
    } else {
      ChangesAreMessages(arrivals[..|arrivals| - 1]);
    }
  }

  ghost function LastOf(xs: seq<UserInfo>, uid: uint64): Option<UserInfo> {
    if xs == [] then None
    else if xs[|xs| - 1].uid == uid then Some(xs[|xs| - 1])
    else LastOf(xs[..|xs| - 1], uid)
  }

  lemma LastOfAppend(xs: seq<UserInfo>, x: UserInfo, uid: uint64)
    ensures LastOf(xs + [x], uid) == if x.uid == uid then Some(x) else LastOf(xs, uid)
  {
    assert (xs + [x])[..|xs|] == xs;
  }

  // ---- changes lost to failed writes ---------------------------------------------

  /** The last message of a user, stored or not, unless its entry has expired since. */
  ghost function Received(arrivals: seq<Arrival>, uid: uint64): Option<UserInfo> {
    if arrivals == [] then None
    else
      var before := arrivals[..|arrivals| - 1];
      match arrivals[|arrivals| - 1]
      case Message(m, _) => if m.uid == uid then Some(m) else Received(before, uid)
      case Expire(u) => if u == uid then None else Received(before, uid)
  }

  ghost predicate IsFrom(arrival: Arrival, uid: uint64) {
    arrival.Message? && arrival.meta.uid == uid
  }

  /** A message that differs from the one before it and yet is no event. */
  ghost predicate LostChange(arrivals: seq<Arrival>, k: nat)
    requires k < |arrivals|
  {
    && arrivals[k].Message?
    && Received(arrivals[..k], arrivals[k].meta.uid) != Some(arrivals[k].meta)
    && Push(ControllerCache(arrivals[..k]), arrivals[k].meta) == []
  }

  /** Nothing between j and k replaces what j stored. */
  ghost predicate Undisturbed(arrivals: seq<Arrival>, j: nat, k: nat, m: UserInfo)
    requires k <= |arrivals|
  {
    forall i :: j < i < k ==>
      arrivals[i] != Expire(m.uid) && (IsFrom(arrivals[i], m.uid) && arrivals[i].stored ==> arrivals[i].meta == m)
  }

  /** A record is stored at j, another one of the user arrives at b without being stored, and the
      first one comes again at k, the entry of j being there all the time. */
  ghost predicate Relapse(arrivals: seq<Arrival>, j: nat, b: nat, k: nat) {
    && j < b < k < |arrivals|
    && arrivals[j].Message? && arrivals[j].stored
    && arrivals[k].Message? && arrivals[k].meta == arrivals[j].meta
    && IsFrom(arrivals[b], arrivals[j].meta.uid) && arrivals[b].meta != arrivals[j].meta
    && Undisturbed(arrivals, j, k, arrivals[j].meta)
  }

  lemma {:induction false} LatestAt(arrivals: seq<Arrival>, uid: uint64) returns (j: nat)
    requires Latest(arrivals, uid) != None
    ensures j < |arrivals| && IsFrom(arrivals[j], uid) && arrivals[j] == Message(Latest(arrivals, uid).value, true)
    ensures Undisturbed(arrivals, j, |arrivals|, arrivals[j].meta)
  {
    var n := |arrivals| - 1;
    if IsFrom(arrivals[n], uid) && arrivals[n].stored {
      j := n;
    } else {
      j := LatestAt(arrivals[..n], uid);
    }
  }

  lemma {:induction false} ReceivedAt(arrivals: seq<Arrival>, uid: uint64, j: nat) returns (b: nat)
    requires j < |arrivals| && IsFrom(arrivals[j], uid)
    requires forall i :: j < i < |arrivals| ==> arrivals[i] != Expire(uid)
    ensures j <= b < |arrivals| && IsFrom(arrivals[b], uid) && Received(arrivals, uid) == Some(arrivals[b].meta)
    ensures forall i :: b < i < |arrivals| ==> !IsFrom(arrivals[i], uid)
  {
    var n := |arrivals| - 1;
    if IsFrom(arrivals[n], uid) {
      b := n;
    } else {
      b := ReceivedAt(arrivals[..n], uid, j);
    }
  }

  lemma {:induction false} LatestKept(arrivals: seq<Arrival>, j: nat)
    requires j < |arrivals| && arrivals[j].Message? && arrivals[j].stored
    requires Undisturbed(arrivals, j, |arrivals|, arrivals[j].meta)
    ensures Latest(arrivals, arrivals[j].meta.uid) == Some(arrivals[j].meta)
  {
    var n := |arrivals| - 1;
    if j == n {
    } else {
      LatestKept(arrivals[..n], j);
    }
  }

  lemma SuppressedIff(arrivals: seq<Arrival>, m: UserInfo)
    ensures Push(ControllerCache(arrivals), m) == [] <==> Latest(arrivals, m.uid) == Some(m)
  {
    ControllerCacheIsLatest(arrivals, m.uid);
  }

  /** The first relapse in a stretch loses a change. */
  lemma {:induction false} RelapseLoses(arrivals: seq<Arrival>, j: nat, b: nat, k: nat) returns (lost: nat)
    requires Relapse(arrivals, j, b, k)
    ensures lost < |arrivals| && LostChange(arrivals, lost)
    decreases k
  {
    var m, before := arrivals[j].meta, arrivals[..k];
    assert forall i :: j < i < k ==> before[i] == arrivals[i];
    LatestKept(before, j);
    SuppressedIff(before, m);
    var last := ReceivedAt(before, m.uid, j);
    if arrivals[last].meta != m {
      lost := k;
    } else {
      assert last > b;
      lost := RelapseLoses(arrivals, j, b, last);
    }
  }

  lemma LossRelapses(arrivals: seq<Arrival>, k: nat) returns (j: nat, b: nat)
    requires k < |arrivals| && LostChange(arrivals, k)
    ensures Relapse(arrivals, j, b, k)
  {
    var m, before := arrivals[k].meta, arrivals[..k];
    SuppressedIff(before, m);
    j := LatestAt(before, m.uid);
    b := ReceivedAt(before, m.uid, j);
    assert forall i :: j < i < k ==> before[i] == arrivals[i];
  }

  /** No change is lost exactly when no user's record comes back to a stored one after another
      one could not be stored. */
  lemma NoChangeLostIff(arrivals: seq<Arrival>)
    ensures (forall k :: 0 <= k < |arrivals| ==> !LostChange(arrivals, k))
            <==> !exists j, b, k :: Relapse(arrivals, j, b, k)
  {
    if j, b, k :| Relapse(arrivals, j, b, k) {
      var lost := RelapseLoses(arrivals, j, b, k);
    }
    if k :| 0 <= k < |arrivals| && LostChange(arrivals, k) {
      var j, b := LossRelapses(arrivals, k);
    }
  }

  /** A concrete loss: the second write fails, and the return to the first record is no event. */
  lemma FailedWriteLoses(a: UserInfo, b: UserInfo)
    requires a.uid == b.uid && a != b && Carries(b, a)
    ensures var arrivals := [Message(a, true), Message(b, false), Message(a, true)];
            Events(arrivals) == [a, b] && LostChange(arrivals, 2)
  {
    var one := [Message(a, true)];
    var two := one + [Message(b, false)];
    var all := two + [Message(a, true)];
    EventsStep([], Message(a, true));
    assert [] + [Message(a, true)] == one;
    EventsStep(one, Message(b, false));
    EventsStep(two, Message(a, true));
    assert all == [Message(a, true), Message(b, false), Message(a, true)] && all[..2] == two;
    SuppressedIff(two, a);
  }

  lemma EventsStep(before: seq<Arrival>, last: Arrival)
    requires last.Message?
    ensures Events(before + [last]) == Events(before) + Push(ControllerCache(before), last.meta)
    ensures ControllerCache(before + [last]) ==
            if last.stored then Store(ControllerCache(before), last.meta) else ControllerCache(before)
    ensures Received(before + [last], last.meta.uid) == Some(last.meta)
    ensures Latest(before + [last], last.meta.uid) ==
            if last.stored then Some(last.meta) else Latest(before, last.meta.uid)
  {
    assert (before + [last])[..|before|] == before;
  }

  // ---- the last event of a user ------------------------------------------------------

  /** The message at k is the user's last one and a relapse. */
  ghost predicate EndsInRelapse(arrivals: seq<Arrival>, uid: uint64) {
    exists j, b, k :: Relapse(arrivals, j, b, k) && IsLastOf(arrivals, uid, k)
  }

  ghost predicate IsLastOf(arrivals: seq<Arrival>, uid: uint64, k: nat) {
    k < |arrivals| && IsFrom(arrivals[k], uid) && forall i :: k < i < |arrivals| ==> !IsFrom(arrivals[i], uid)
  }

  lemma {:induction false} LastMessageAt(arrivals: seq<Arrival>, uid: uint64) returns (k: nat)
    ensures LastOf(Messages(arrivals), uid) == None ==> forall i :: 0 <= i < |arrivals| ==> !IsFrom(arrivals[i], uid)
    ensures LastOf(Messages(arrivals), uid) != None ==>
              IsLastOf(arrivals, uid, k) && LastOf(Messages(arrivals), uid) == Some(arrivals[k].meta)
  {
    k := 0;
    if arrivals == [] {
    } else {
      var n := |arrivals| - 1;
      if arrivals[n].Message? {
        LastOfAppend(Messages(arrivals[..n]), arrivals[n].meta, uid);
      }
      if IsFrom(arrivals[n], uid) {
        k := n;
      } else {
        assert Messages(arrivals[..n]) + [] == Messages(arrivals[..n]);
        k := LastMessageAt(arrivals[..n], uid);
      }
    }
  }

  /** Index b holds the user's last change: an event, and everything after it repeats what is
      remembered. */
  ghost predicate IsLastChange(arrivals: seq<Arrival>, uid: uint64, b: nat) {
    && b < |arrivals| && IsFrom(arrivals[b], uid) && Latest(arrivals[..b], uid) != Some(arrivals[b].meta)
    && forall i :: b < i < |arrivals| && IsFrom(arrivals[i], uid) ==>
         Latest(arrivals[..i], uid) == Some(arrivals[i].meta)
  }

  lemma LastChangeStays(arrivals: seq<Arrival>, uid: uint64, b: nat)
    requires arrivals != []
    requires var before, last := arrivals[..|arrivals| - 1], arrivals[|arrivals| - 1];
             IsLastChange(before, uid, b) && (IsFrom(last, uid) ==> Latest(before, uid) == Some(last.meta))
    ensures IsLastChange(arrivals, uid, b)
  {
    var n := |arrivals| - 1;
    assert forall i :: 0 <= i <= n ==> arrivals[..n][..i] == arrivals[..i];
    assert forall i :: 0 <= i < n ==> arrivals[..n][i] == arrivals[i];
  }

  lemma ChangesStep(arrivals: seq<Arrival>, uid: uint64)
    requires arrivals != []
    ensures var before, last := arrivals[..|arrivals| - 1], arrivals[|arrivals| - 1];
            LastOf(Changes(arrivals), uid) ==
            if IsFrom(last, uid) && Latest(before, uid) != Some(last.meta) then Some(last.meta)
            else LastOf(Changes(before), uid)
  {
    var before, last := arrivals[..|arrivals| - 1], arrivals[|arrivals| - 1];
    assert Changes(before) + [] == Changes(before);
    if last.Message? {
      LastOfAppend(Changes(before), last.meta, uid);
    }
  }

  lemma {:induction false} LastChangeAt(arrivals: seq<Arrival>, uid: uint64) returns (b: nat)
    ensures LastOf(Changes(arrivals), uid) != None ==>
              IsLastChange(arrivals, uid, b) && LastOf(Changes(arrivals), uid) == Some(arrivals[b].meta)
    ensures LastOf(Changes(arrivals), uid) == None ==> forall i :: 0 <= i < |arrivals| ==> !IsFrom(arrivals[i], uid)
  {
    b := 0;
    if arrivals == [] {
    } else {
      var n := |arrivals| - 1;
      var before := arrivals[..n];
      ChangesStep(arrivals, uid);
      if IsFrom(arrivals[n], uid) && Latest(before, uid) != Some(arrivals[n].meta) {
        b := n;
      } else {
        b := LastChangeAt(before, uid);
        if IsFrom(arrivals[n], uid) {
          var j := LatestAt(before, uid);
        }
        if LastOf(Changes(before), uid) != None {
          LastChangeStays(arrivals, uid, b);
        }
      }
    }
  }

  /** After the last change nothing alters what is remembered. */
  lemma {:induction false} RememberedSince(arrivals: seq<Arrival>, uid: uint64, b: nat, k: nat)
    requires IsLastChange(arrivals, uid, b) && b < k < |arrivals| && IsFrom(arrivals[k], uid)
    ensures Latest(arrivals[..b + 1], uid) == Some(arrivals[k].meta)
    ensures Undisturbed(arrivals, b, k, arrivals[k].meta)
    decreases k
  {
    var m := arrivals[k].meta;
    var j := LatestAt(arrivals[..k], uid);
    assert arrivals[..k][j] == arrivals[j];
    assert forall i :: j < i < k ==> arrivals[..k][i] == arrivals[i];
    if j > b {
      RememberedSince(arrivals, uid, b, j);
    } else {
      assert Undisturbed(arrivals[..b + 1], j, b + 1, m);
      LatestKept(arrivals[..b + 1], j);
    }
  }

  /** The last event of a user is the last message received, unless that one is a relapse. */
  lemma LastChangeIff(arrivals: seq<Arrival>, uid: uint64)
    ensures LastOf(Changes(arrivals), uid) == LastOf(Messages(arrivals), uid) <==> !EndsInRelapse(arrivals, uid)
    ensures LastOf(Changes(arrivals), uid) == None <==> LastOf(Messages(arrivals), uid) == None
  {
    var k := LastMessageAt(arrivals, uid);
    var b := LastChangeAt(arrivals, uid);
    if LastOf(Messages(arrivals), uid) != None {
      assert IsFrom(arrivals[k], uid) && IsFrom(arrivals[b], uid) && b <= k;
      if arrivals[b].meta != arrivals[k].meta {
        ChangedMind(arrivals, uid, b, k);
      }
      if j, c, l :| Relapse(arrivals, j, c, l) && IsLastOf(arrivals, uid, l) {
        assert l == k;
        RelapseHides(arrivals, uid, b, j, c, l);
      }
    }
  }

  lemma ChangedMind(arrivals: seq<Arrival>, uid: uint64, b: nat, k: nat)
    requires IsLastChange(arrivals, uid, b) && IsLastOf(arrivals, uid, k) && b < k
    requires arrivals[b].meta != arrivals[k].meta
    ensures EndsInRelapse(arrivals, uid)
  {
    var m := arrivals[k].meta;
    RememberedSince(arrivals, uid, b, k);
    assert arrivals[..b + 1][..b] == arrivals[..b];
    assert Latest(arrivals[..b], uid) == Some(m);
    var j := LatestAt(arrivals[..b], uid);
    assert forall i :: j <= i < b ==> arrivals[..b][i] == arrivals[i];
    assert Undisturbed(arrivals, j, k, m);
    assert Relapse(arrivals, j, b, k);
  }

  lemma RelapseHides(arrivals: seq<Arrival>, uid: uint64, b: nat, j: nat, c: nat, k: nat)
    requires Relapse(arrivals, j, c, k) && IsLastOf(arrivals, uid, k) && IsLastChange(arrivals, uid, b)
    ensures arrivals[b].meta != arrivals[k].meta
  {
    var m := arrivals[j].meta;
    forall i | j < i <= k ensures Latest(arrivals[..i], uid) == Some(m) {
      assert forall l :: j <= l < i ==> arrivals[..i][l] == arrivals[l];
      LatestKept(arrivals[..i], j);
    }
    assert c <= b;
  }

  /** Observation i of a user differs from what was known of the user before it. */
  ghost predicate Differs(obs: seq<UserInfo>, uid: uint64, i: nat)
    requires i < |obs|
  {
    && obs[i].uid == uid
    && Folded(obs[..i], uid) != None
    && !Same(obs[i], Folded(obs[..i], uid).value)
  }

  lemma DiffersStep(before: seq<UserInfo>, m: UserInfo, uid: uint64)
    ensures var obs := before + [m];
            (exists i :: 0 <= i < |obs| && Differs(obs, uid, i)) <==>
            (exists i :: 0 <= i < |before| && Differs(before, uid, i)) || Differs(obs, uid, |before|)
  {
    var obs := before + [m];
    forall i | 0 <= i < |before| ensures Differs(obs, uid, i) <==> Differs(before, uid, i) {
      assert obs[..i] == before[..i];
    }
  }

  lemma LastSentStep(before: seq<UserInfo>, m: UserInfo, uid: uint64)
    ensures var obs := before + [m];
            LastOf(Sent(obs), uid) ==
            if Differs(obs, uid, |before|) then Folded(obs, uid) else LastOf(Sent(before), uid)
  {
    var obs := before + [m];
    assert obs[..|before|] == before;
    FoldStep(before, m, uid);
    var known := Folded(before, m.uid);
    if known != None && !Same(m, known.value) {
      LastOfAppend(Sent(before), Fill(m, known.value), uid);
    } else {
      assert Sent(obs) == Sent(before);
    }
  }

  lemma KnownStays(before: seq<UserInfo>, m: UserInfo, uid: uint64)
    ensures var obs := before + [m];
            !Differs(obs, uid, |before|) && Folded(before, uid) != None ==> Folded(obs, uid) == Folded(before, uid)
  {
    var obs := before + [m];
    assert obs[..|before|] == before;
    FoldStep(before, m, uid);
    FoldedIsOwn(before, uid);
  }

  lemma FoldedIsOwn(obs: seq<UserInfo>, uid: uint64)
    ensures Folded(obs, uid) != None ==> Folded(obs, uid).value.uid == uid
  {
  }

  lemma {:induction false} LastSentIsKnown(obs: seq<UserInfo>, uid: uint64)
    ensures LastOf(Sent(obs), uid) != None ==> LastOf(Sent(obs), uid) == Folded(obs, uid)
    ensures LastOf(Sent(obs), uid) != None <==> exists i :: 0 <= i < |obs| && Differs(obs, uid, i)
  {
    if obs == [] {
    } else {
      var n := |obs| - 1;
      var before, m := obs[..n], obs[n];
      assert obs == before + [m];
      LastSentIsKnown(before, uid);
      DiffersStep(before, m, uid);
      LastSentStep(before, m, uid);
      KnownStays(before, m, uid);
    }
  }

  /** With every update delivered, a user has events exactly when some observation differed from
      the ones before (the first record of a user is published on a subject the controller does
      not take up), and then the last event is the agent's final record exactly unless the last
      message is a relapse to a stored record. */
  lemma {:induction false} FinalRecordIff(obs: seq<UserInfo>, arrivals: seq<Arrival>, uid: uint64)
    requires Messages(arrivals) == Updates(AgentStream(obs))
    ensures LastOf(Events(arrivals), uid) != None <==> exists i :: 0 <= i < |obs| && Differs(obs, uid, i)
    ensures LastOf(Events(arrivals), uid) != None ==>
              (LastOf(Events(arrivals), uid) == Folded(obs, uid) <==> !EndsInRelapse(arrivals, uid))
  {
    SubsequenceOfSelf(Messages(arrivals));
    TwoTiersTransparent(obs, arrivals);
    LastChangeIff(arrivals, uid);
    SentIsUpdates(obs);
    LastSentIsKnown(obs, uid);
  }

  /** A user seen once is known to the agent and never becomes an event. */
  lemma FirstRecordSilent(u: UserInfo, arrivals: seq<Arrival>)
    requires Delivered([u], arrivals)
    ensures Folded([u], u.uid) == Some(u) && AgentStream([u]) == [Published(FIRST_SUBJECT, u)]
    ensures Events(arrivals) == []
  {
    assert [u][..0] == [] && [] + [u] == [u];
    FoldStep([], u, u.uid);
    assert AgentCache([]) == map[] && AgentStream([]) == [];
    assert FIRST_SUBJECT != UPDATE_SUBJECT by {
      assert |FIRST_SUBJECT| != |UPDATE_SUBJECT|;
    }
    var stream := AgentStream([u]);
    assert stream == [Published(FIRST_SUBJECT, u)] && stream[..0] == [];
    assert Updates(stream) == [];
    NoMessagesNoEvents(arrivals);
  }

  lemma {:induction false} NoMessagesNoEvents(arrivals: seq<Arrival>)
    requires Messages(arrivals) == []
    ensures Events(arrivals) == []
  {
    if arrivals == [] {
    } else {
      NoMessagesNoEvents(arrivals[..|arrivals| - 1]);
    }
  }

  /** When the agent's own entry expires between observations the second merge is no longer
      the identity: the controller adds a field the agent no longer knows. */
  lemma AgentExpiryBreaks()
    ensures var u := (name: string, face: Option<string>) => UserInfo(7, name, face, None, None);
            var seen := AgentCache([u("a", Some("f")), u("b", Some("f"))]);
            var forgotten := Cache(seen - {FormatUint(7)}, u("c", None));
            var sent := Publish(forgotten, u("d", None));
            && Publish(seen - {FormatUint(7)}, u("c", None))[0].subject == FIRST_SUBJECT
            && sent == [Published(UPDATE_SUBJECT, u("d", None))]
            && Push(ControllerCache([Message(seen[FormatUint(7)], true)]), sent[0].meta) == [u("d", Some("f"))]
  {
    var u := (name: string, face: Option<string>) => UserInfo(7, name, face, None, None);
    var o1, o2 := u("a", Some("f")), u("b", Some("f"));
    assert [o1, o2][..1] == [o1] && [o1][..0] == [];
    assert AgentCache([o1]) == map[FormatUint(7) := o1];
    assert AgentCache([o1, o2]) == map[FormatUint(7) := o2];
    assert o1.name[0] != o2.name[0];
    var seen := AgentCache([o1, o2]);
    var c, d := u("c", None), u("d", None);
    assert c.name[0] != d.name[0] && d.name[0] != o2.name[0];
    var forgotten := Cache(seen - {FormatUint(7)}, c);
    assert forgotten[FormatUint(7)] == c;
    var arr := [Message(o2, true)];
    assert arr[..0] == [];
    assert ControllerCache(arr) == map[FormatUint(7) := o2];
  }
}
