/**
 The duplicate filter over whole runs: agents register, report messages, and cache entries
 expire. The entry of a key collects the masks of its reporters and is turned into hit
 counters when it expires.

 The cache lookup is tested with `err == nil` where its branches handle `err != nil`; both
 readings are modelled.
 */
module Dedup {
  import opened Base
  import opened Keys
  import opened AgentMasks

  datatype Reading = Written | Meant

  datatype Found = Hit | Miss | Failed

  /** Whether a message goes to the event channel (else back to its pool), and whether its mask is appended. */
  datatype Verdict = Verdict(send: bool, append: bool)

  function Filter(reading: Reading, found: Found): Verdict {
    match reading
    case Meant =>
      (match found
       case Hit => Verdict(false, true)
       case Miss => Verdict(true, true)
       case Failed => Verdict(true, false))
    case Written =>
      if found.Hit? then Verdict(true, false) else Verdict(false, true)
  }

  /** What happens to the center. The cache can fail on either access of a report. */
  datatype Op =
    | Register(id: string)
    | Report(id: string, msg: Identity, lookupFails: bool, appendFails: bool)
    | Evict(key: string)

  datatype Center = Center(
    managed: map<string, AgentStatus>,
    latestMask: uint16,
    dup: map<string, seq<byte>>,
    pushed: seq<nat>)            // positions of the reports that reached the event channel

  function Append(dup: map<string, seq<byte>>, key: string, mask: seq<byte>): map<string, seq<byte>> {
    dup[key := (if key in dup then dup[key] else []) + mask]
  }

  /** dupCacheRelease: an expired entry is counted under the first part of its key. */
  function Release(managed: map<string, AgentStatus>, key: string, entry: seq<byte>): map<string, AgentStatus> {
    match KeyCategory(key)
    case None => managed
    case Some(category) => Released(managed, entry, category)
  }

  function Find(dup: map<string, seq<byte>>, key: string, lookupFails: bool): Found {
    if lookupFails then Failed else if key in dup then Hit else Miss
  }

  function Step(reading: Reading, c: Center, op: Op, time: nat): Center {
    match op
    case Register(id) =>
      c.(managed := Registered(c.managed, c.latestMask, id),
         latestMask := if id in c.managed then c.latestMask else (c.latestMask + 1) % MASKS)
    case Report(id, msg, lookupFails, appendFails) =>
      if id !in c.managed then c
      else
        var key := DedupKey(msg);
        var v := Filter(reading, Find(c.dup, key, lookupFails));
        c.(pushed := if v.send then c.pushed + [time] else c.pushed,
           dup := if v.append && !appendFails then Append(c.dup, key, EncodeMask(c.managed[id].mask)) else c.dup)
    case Evict(key) =>
      if key !in c.dup then c
      else c.(dup := c.dup - {key}, managed := Release(c.managed, key, c.dup[key]))
  }

  function Run(reading: Reading, ops: seq<Op>): Center {
    if ops == [] then Center(map[], 0, map[], [])
    else Step(reading, Run(reading, ops[..|ops| - 1]), ops[|ops| - 1], |ops| - 1)
  }

  // ---- what a history says by itself ----------------------------------------

  ghost predicate Known(ops: seq<Op>, id: string) {
    Register(id) in ops
  }

  /** A report counts when its agent had registered before. */
  ghost predicate Accepted(ops: seq<Op>, i: nat)
    requires i < |ops|
  {
    ops[i].Report? && Known(ops[..i], ops[i].id)
  }

  ghost predicate ExpiredBetween(ops: seq<Op>, key: string, j: nat, i: nat)
    requires i <= |ops|
  {
    exists k :: j < k < i && ops[k] == Evict(key)
  }

  /** A report after which its key is in the cache. */
  ghost predicate Settles(reading: Reading, op: Op) {
    op.Report? && !op.appendFails && (op.lookupFails ==> reading.Written?)
  }

  /** Every earlier accepted report that put the same key into the cache was followed by an
      expiry of the key. */
  ghost predicate FirstOfLife(reading: Reading, ops: seq<Op>, i: nat)
    requires i < |ops| && ops[i].Report?
  {
    AllExpired(reading, ops, DedupKey(ops[i].msg), i)
  }

  ghost predicate PutIn(reading: Reading, ops: seq<Op>, key: string, j: nat)
    requires j < |ops|
  {
    Accepted(ops, j) && Settles(reading, ops[j]) && DedupKey(ops[j].msg) == key
  }

  ghost predicate AllExpired(reading: Reading, ops: seq<Op>, key: string, n: nat)
    requires n <= |ops|
  {
    forall j :: 0 <= j < n && PutIn(reading, ops, key, j) ==> ExpiredBetween(ops, key, j, n)
  }

  /** A report leaves its agent's mask: with the meant test whenever the cache works, as written
      only when the key is not found. */
  ghost predicate LeavesMask(reading: Reading, op: Op, live: bool)
    requires op.Report?
  {
    !op.appendFails && if reading.Meant? then !op.lookupFails else op.lookupFails || !live
  }

  /** The agents whose reports of a key left a mask since it last expired, in order. */
  ghost function Reporters(reading: Reading, ops: seq<Op>, key: string): seq<string> {
    if ops == [] then []
    else
      var n := |ops| - 1;
      var ids := Reporters(reading, ops[..n], key);
      match ops[n]
      case Evict(k) => if k == key then [] else ids
      case Report(id, msg, _, _) =>
        if Accepted(ops, n) && DedupKey(msg) == key && LeavesMask(reading, ops[n], ids != []) then ids + [id] else ids
      case Register(_) => ids
  }

  /** How often a key has expired: the number of its current window. */
  ghost function Window(ops: seq<Op>, key: string): nat {
    if ops == [] then 0
    else Window(ops[..|ops| - 1], key) + if ops[|ops| - 1] == Evict(key) then 1 else 0
  }

  /** The distinct keys an agent reported to a working cache, each with the window it was
      reported in. */
  ghost function Pairs(ops: seq<Op>, id: string): set<(string, nat)> {
    if ops == [] then {}
    else
      var before, n := ops[..|ops| - 1], |ops| - 1;
      Pairs(before, id) +
      if ops[n].Report? && ops[n].id == id && Accepted(ops, n) && Settles(Meant, ops[n])
      then {(DedupKey(ops[n].msg), Window(before, DedupKey(ops[n].msg)))} else {}
  }

  // ---- masks ----------------------------------------------------------------

  ghost function OrderNext(order: seq<string>, op: Op): seq<string> {
    if op.Register? && op.id !in order then order + [op.id] else order
  }

  /** Agents in the order of their first registration. */
  ghost function Order(ops: seq<Op>): seq<string> {
    if ops == [] then [] else OrderNext(Order(ops[..|ops| - 1]), ops[|ops| - 1])
  }

  ghost function MaskOf(managed: map<string, AgentStatus>, id: string): uint16 {
    if id in managed then managed[id].mask else 0
  }

  lemma ReleaseKeepsMasks(managed: map<string, AgentStatus>, key: string, entry: seq<byte>)
    ensures Release(managed, key, entry).Keys == managed.Keys
    ensures forall id :: id in managed ==> Release(managed, key, entry)[id].mask == managed[id].mask
  {
  }

  lemma {:induction false} OrderIsKnown(ops: seq<Op>)
    ensures forall i, j :: 0 <= i < j < |Order(ops)| ==> Order(ops)[i] != Order(ops)[j]
    ensures forall id :: id in Order(ops) <==> Known(ops, id)
  {
    if ops == [] {
    } else {
      var before, op := ops[..|ops| - 1], ops[|ops| - 1];
      OrderIsKnown(before);
      assert ops == before + [op];
    }
  }

  ghost predicate MasksFollow(c: Center, order: seq<string>) {
    && (forall id :: id in c.managed <==> id in order)
    && (forall i :: 0 <= i < |order| ==> order[i] in c.managed && c.managed[order[i]].mask == i % 65536)
    && c.latestMask == |order| % MASKS
  }

  lemma MasksStep(reading: Reading, c: Center, order: seq<string>, op: Op, time: nat)
    requires MasksFollow(c, order)
    ensures MasksFollow(Step(reading, c, op, time), OrderNext(order, op))
  {
    match op {
      case Register(id) => RegisterFollows(reading, c, order, id, time);
      case Report(_, _, _, _) =>
      case Evict(key) =>
        if key in c.dup {
          ReleaseKeepsMasks(c.managed, key, c.dup[key]);
        }
    }
  }

  lemma RegisterFollows(reading: Reading, c: Center, order: seq<string>, id: string, time: nat)
    requires MasksFollow(c, order)
    ensures MasksFollow(Step(reading, c, Register(id), time), OrderNext(order, Register(id)))
  {
    if id !in order {
      NewFollows(c, order, id);
      assert Registered(c.managed, c.latestMask, id) == c.managed[id := AgentStatus(c.latestMask, map[])];
    }
  }

  lemma NewFollows(c: Center, order: seq<string>, id: string)
    requires MasksFollow(c, order) && id !in order
    ensures MasksFollow(c.(managed := c.managed[id := AgentStatus(c.latestMask, map[])],
                           latestMask := (c.latestMask + 1) % MASKS), order + [id])
  {
    NextMask(|order|);
    forall i | 0 <= i < |order| ensures (order + [id])[i] == order[i] && order[i] != id {
      assert order[i] in order;
    }
  }

  lemma NextMask(n: nat)
    ensures (n % MASKS + 1) % MASKS == (n + 1) % MASKS
  {
  }

  /** The i-th agent to register has mask i modulo 65536. */
  lemma {:induction false} MasksByOrder(reading: Reading, ops: seq<Op>)
    ensures MasksFollow(Run(reading, ops), Order(ops))
  {
    if ops == [] {
    } else {
      var n := |ops| - 1;
      MasksByOrder(reading, ops[..n]);
      MasksStep(reading, Run(reading, ops[..n]), Order(ops[..n]), ops[n], n);
    }
  }

  lemma ManagedIffKnown(reading: Reading, ops: seq<Op>, id: string)
    ensures id in Run(reading, ops).managed <==> Known(ops, id)
  {
    MasksByOrder(reading, ops);
    OrderIsKnown(ops);
  }

  lemma MaskAt(reading: Reading, ops: seq<Op>, i: nat)
    requires i < |Order(ops)|
    ensures Known(ops, Order(ops)[i]) && MaskOf(Run(reading, ops).managed, Order(ops)[i]) == i % MASKS
  {
    MasksByOrder(reading, ops);
    OrderIsKnown(ops);
    assert Order(ops)[i] in Order(ops);
  }

  lemma PlaceOf(reading: Reading, ops: seq<Op>, id: string) returns (i: nat)
    requires Known(ops, id)
    ensures i < |Order(ops)| && Order(ops)[i] == id && MaskOf(Run(reading, ops).managed, id) == i % MASKS
  {
    OrderIsKnown(ops);
    assert id in Order(ops);
    i :| 0 <= i < |Order(ops)| && Order(ops)[i] == id;
    MaskAt(reading, ops, i);
  }

  lemma MasksDiffer(reading: Reading, ops: seq<Op>, a: string, b: string)
    requires |Order(ops)| <= MASKS
    requires Known(ops, a) && Known(ops, b) && a != b
    ensures MaskOf(Run(reading, ops).managed, a) != MaskOf(Run(reading, ops).managed, b)
  {
    var i := PlaceOf(reading, ops, a);
    var j := PlaceOf(reading, ops, b);
    assert i % MASKS == i && j % MASKS == j;
  }

  /** Masks tell all agents apart. */
  ghost predicate Distinct(reading: Reading, ops: seq<Op>) {
    forall a, b :: Known(ops, a) && Known(ops, b) && a != b ==>
      MaskOf(Run(reading, ops).managed, a) != MaskOf(Run(reading, ops).managed, b)
  }

  /** Masks tell all agents apart exactly while no more than 65536 have registered. */
  lemma MasksDistinctIff(reading: Reading, ops: seq<Op>)
    ensures Distinct(reading, ops) <==> |Order(ops)| <= 65536
  {
    if |Order(ops)| <= MASKS {
      forall a, b | Known(ops, a) && Known(ops, b) && a != b
        ensures MaskOf(Run(reading, ops).managed, a) != MaskOf(Run(reading, ops).managed, b)
      {
        MasksDiffer(reading, ops, a, b);
      }
    } else {
      MaskAt(reading, ops, 0);
      MaskAt(reading, ops, MASKS);
      OrderIsKnown(ops);
    }
  }

  /** A mask, once given, never changes. */
  lemma MaskKept(reading: Reading, ops: seq<Op>, op: Op, id: string)
    requires Known(ops, id)
    ensures MaskOf(Run(reading, ops + [op]).managed, id) == MaskOf(Run(reading, ops).managed, id)
  {
    ManagedIffKnown(reading, ops, id);
    assert (ops + [op])[..|ops|] == ops;
    var c := Run(reading, ops);
    if op.Evict? && op.key in c.dup {
      ReleaseKeepsMasks(c.managed, op.key, c.dup[op.key]);
    }
  }

  // ---- entries and exactly-once -----------------------------------------------

  ghost function MasksOf(managed: map<string, AgentStatus>, ids: seq<string>): seq<uint16> {
    seq(|ids|, i requires 0 <= i < |ids| => MaskOf(managed, ids[i]))
  }

  lemma {:induction false} ReportersKnown(reading: Reading, ops: seq<Op>, key: string)
    ensures forall id :: id in Reporters(reading, ops, key) ==> Known(ops, id)
  {
    if ops == [] {
    } else {
      var n := |ops| - 1;
      ReportersKnown(reading, ops[..n], key);
      assert ops == ops[..n] + [ops[n]];
    }
  }

  lemma {:induction false} LiveIffReported(reading: Reading, ops: seq<Op>, key: string)
    ensures key in Run(reading, ops).dup <==> Reporters(reading, ops, key) != []
  {
    if ops == [] {
    } else {
      var n := |ops| - 1;
      LiveIffReported(reading, ops[..n], key);
      if ops[n].Report? {
        ManagedIffKnown(reading, ops[..n], ops[n].id);
      }
    }
  }

  lemma SameMasks(reading: Reading, before: seq<Op>, op: Op, ids: seq<string>)
    requires forall id :: id in ids ==> Known(before, id)
    ensures MasksOf(Run(reading, before + [op]).managed, ids) == MasksOf(Run(reading, before).managed, ids)
  {
    forall i | 0 <= i < |ids|
      ensures MaskOf(Run(reading, before + [op]).managed, ids[i]) == MaskOf(Run(reading, before).managed, ids[i])
    {
      MaskKept(reading, before, op, ids[i]);
    }
  }

  lemma AppendedEntry(managed: map<string, AgentStatus>, ids: seq<string>, id: string)
    ensures EncodeMasks(MasksOf(managed, ids + [id])) ==
            EncodeMasks(MasksOf(managed, ids)) + EncodeMask(MaskOf(managed, id))
  {
    assert MasksOf(managed, ids + [id]) == MasksOf(managed, ids) + [MaskOf(managed, id)];
    EncodeAppend(MasksOf(managed, ids), MaskOf(managed, id));
  }

  ghost predicate EntryHolds(c: Center, key: string, ids: seq<string>) {
    key in c.dup ==> c.dup[key] == EncodeMasks(MasksOf(c.managed, ids))
  }

  lemma EntryAfterReport(reading: Reading, c: Center, op: Op, ids: seq<string>, time: nat)
    requires op.Report? && op.id in c.managed && EntryHolds(c, DedupKey(op.msg), ids)
    requires DedupKey(op.msg) in c.dup <==> ids != []
    ensures EntryHolds(Step(reading, c, op, time), DedupKey(op.msg),
                       if LeavesMask(reading, op, ids != []) then ids + [op.id] else ids)
  {
    AppendedEntry(c.managed, ids, op.id);
    if ids == [] {
      assert EncodeMasks(MasksOf(c.managed, ids)) == [];
    }
  }

  /** The entry of a key is the concatenation of its reporters' masks, in order. */
  lemma {:induction false} EntryIsReporters(reading: Reading, ops: seq<Op>, key: string)
    ensures EntryHolds(Run(reading, ops), key, Reporters(reading, ops, key))
  {
    if ops == [] {
    } else {
      var n := |ops| - 1;
      var before, op := ops[..n], ops[n];
      EntryIsReporters(reading, before, key);
      assert ops == before + [op];
      if op.Report? && DedupKey(op.msg) == key {
        EntryReported(reading, before, op);
      } else {
        ReportersKnown(reading, before, key);
        EntryKept(reading, before, op, key, Reporters(reading, before, key));
      }
    }
  }

  lemma EntryReported(reading: Reading, before: seq<Op>, op: Op)
    requires op.Report?
    requires EntryHolds(Run(reading, before), DedupKey(op.msg), Reporters(reading, before, DedupKey(op.msg)))
    ensures EntryHolds(Run(reading, before + [op]), DedupKey(op.msg),
                       Reporters(reading, before + [op], DedupKey(op.msg)))
  {
    var ops, n, key := before + [op], |before|, DedupKey(op.msg);
    assert ops[..n] == before && ops[n] == op;
    var c, ids := Run(reading, before), Reporters(reading, before, key);
    ManagedIffKnown(reading, before, op.id);
    if op.id in c.managed {
      LiveIffReported(reading, before, key);
      EntryAfterReport(reading, c, op, ids, n);
    }
  }

  lemma EntryKept(reading: Reading, before: seq<Op>, op: Op, key: string, ids: seq<string>)
    requires EntryHolds(Run(reading, before), key, ids) && !(op.Report? && DedupKey(op.msg) == key)
    requires forall id :: id in ids ==> Known(before, id)
    ensures EntryHolds(Run(reading, before + [op]), key, ids)
  {
    SameMasks(reading, before, op, ids);
    assert (before + [op])[..|before|] == before;
  }

  lemma EncodeAppend(masks: seq<uint16>, mask: uint16)
    ensures EncodeMasks(masks + [mask]) == EncodeMasks(masks) + EncodeMask(mask)
  {
    assert (masks + [mask])[..|masks|] == masks;
  }

  lemma AllExpiredStep(reading: Reading, ops: seq<Op>, key: string, m: nat)
    requires m < |ops|
    ensures AllExpired(reading, ops, key, m + 1) <==>
            ops[m] == Evict(key) || (AllExpired(reading, ops, key, m) && !PutIn(reading, ops, key, m))
  {
    var n := m + 1;
    if ops[m] == Evict(key) {
      forall j | 0 <= j < m ensures ExpiredBetween(ops, key, j, n) {
        assert ops[m] == Evict(key);
      }
    } else {
      forall j | 0 <= j < m ensures ExpiredBetween(ops, key, j, n) <==> ExpiredBetween(ops, key, j, m) {
      }
      assert !ExpiredBetween(ops, key, m, n);
    }
  }

  lemma {:induction false} ReportersEmptyIff(reading: Reading, ops: seq<Op>, n: nat, key: string)
    requires n <= |ops|
    ensures Reporters(reading, ops[..n], key) == [] <==> AllExpired(reading, ops, key, n)
  {
    if n == 0 {
    } else {
      var m := n - 1;
      ReportersEmptyIff(reading, ops, m, key);
      AllExpiredStep(reading, ops, key, m);
      ReportersStep(reading, ops, m, key);
    }
  }

  lemma ReportersStep(reading: Reading, ops: seq<Op>, m: nat, key: string)
    requires m < |ops|
    ensures Reporters(reading, ops[..m + 1], key) == [] <==>
            ops[m] == Evict(key) || (Reporters(reading, ops[..m], key) == [] && !PutIn(reading, ops, key, m))
  {
    var upto := ops[..m + 1];
    assert upto[..m] == ops[..m] && upto[m] == ops[m];
    assert ops[m].Report? ==> (Accepted(upto, m) <==> Accepted(ops, m));
  }

  ghost predicate IncreasingBelow(xs: seq<nat>, bound: nat) {
    (forall i :: 0 <= i < |xs| ==> xs[i] < bound) && (forall i, j :: 0 <= i < j < |xs| ==> xs[i] < xs[j])
  }

  /** The event channel gets the reports in the order they were made, none of them twice. */
  lemma {:induction false} PushedInOrder(reading: Reading, ops: seq<Op>)
    ensures IncreasingBelow(Run(reading, ops).pushed, |ops|)
  {
    if ops == [] {
    } else {
      PushedInOrder(reading, ops[..|ops| - 1]);
    }
  }

  /** Whether an accepted report is sent, given whether its key is in the cache. */
  ghost predicate Sends(reading: Reading, op: Op, live: bool)
    requires op.Report?
  {
    if reading.Meant? then op.lookupFails || !live else !op.lookupFails && live
  }

  lemma {:induction false} PushedIff(reading: Reading, ops: seq<Op>, i: nat)
    requires i < |ops|
    ensures i in Run(reading, ops).pushed <==>
            Accepted(ops, i) && Sends(reading, ops[i], Reporters(reading, ops[..i], DedupKey(ops[i].msg)) != [])
    decreases |ops|
  {
    var n := |ops| - 1;
    var before := ops[..n];
    PushedInOrder(reading, before);
    if i < n {
      PushedIff(reading, before, i);
      assert before[..i] == ops[..i];
      PushedStep(reading, Run(reading, before), ops[n], n);
    } else {
      PushedNow(reading, Run(reading, before), ops[n], n);
      if ops[n].Report? {
        ManagedIffKnown(reading, before, ops[n].id);
        LiveIffReported(reading, before, DedupKey(ops[n].msg));
      }
    }
  }

  lemma PushedNow(reading: Reading, c: Center, op: Op, time: nat)
    requires time !in c.pushed
    ensures time in Step(reading, c, op, time).pushed <==>
            op.Report? && op.id in c.managed && Sends(reading, op, DedupKey(op.msg) in c.dup)
  {
  }

  lemma PushedStep(reading: Reading, c: Center, op: Op, time: nat)
    ensures forall i :: i != time ==> (i in Step(reading, c, op, time).pushed <==> i in c.pushed)
  {
  }

  /** With the meant test a report reaches the event channel exactly when the lookup fails or it
      is the first of its entry's life; with the test as written exactly when the lookup works
      and it is not the first. */
  lemma {:induction false} ExactlyOnce(reading: Reading, ops: seq<Op>, i: nat)
    requires i < |ops|
    ensures i in Run(reading, ops).pushed <==>
            Accepted(ops, i) &&
            match reading
            case Meant => ops[i].lookupFails || FirstOfLife(Meant, ops, i)
            case Written => !ops[i].lookupFails && !FirstOfLife(Written, ops, i)
  {
    PushedIff(reading, ops, i);
    if ops[i].Report? {
      ReportersEmptyIff(reading, ops, i, DedupKey(ops[i].msg));
    }
  }

  // ---- hit accounting -----------------------------------------------------------

  ghost predicate InCategory(key: string, category: string) {
    KeyCategory(key) == Some(category)
  }

  /** An agent's distinct (key, window) pairs of one category. */
  ghost function PairsOf(ops: seq<Op>, id: string, category: string): set<(string, nat)> {
    set p | p in Pairs(ops, id) && InCategory(p.0, category)
  }

  /** The pairs whose window is over. */
  ghost function ClosedPairs(ops: seq<Op>, id: string, category: string): set<(string, nat)> {
    set p | p in Pairs(ops, id) && InCategory(p.0, category) && p.1 < Window(ops, p.0)
  }

  /** The live entries of a category that contain the agent's mask. */
  ghost function LiveKeys(c: Center, id: string, category: string): set<string> {
    set key | key in c.dup && InCategory(key, category) &&
      DecodeMasks(c.dup[key]).Some? && MaskOf(c.managed, id) in DecodeMasks(c.dup[key]).value
  }

  lemma {:induction false} PairsSoFar(ops: seq<Op>, id: string)
    ensures forall p :: p in Pairs(ops, id) ==> p.1 <= Window(ops, p.0) && Known(ops, id)
  {
    if ops == [] {
    } else {
      var n := |ops| - 1;
      PairsSoFar(ops[..n], id);
      assert ops == ops[..n] + [ops[n]];
    }
  }

  lemma {:induction false} ReportersArePairs(ops: seq<Op>, id: string, key: string)
    ensures id in Reporters(Meant, ops, key) <==> (key, Window(ops, key)) in Pairs(ops, id)
  {
    if ops == [] {
    } else {
      var n := |ops| - 1;
      ReportersArePairs(ops[..n], id, key);
      PairsSoFar(ops[..n], id);
    }
  }

  /** With distinct masks an agent's mask is in the live entry of a key exactly when the agent
      reported the key in its current window. */
  lemma MaskInEntryIff(ops: seq<Op>, id: string, key: string)
    requires |Order(ops)| <= MASKS && Known(ops, id)
    ensures var c := Run(Meant, ops);
            key in c.dup ==>
              DecodeMasks(c.dup[key]).Some? &&
              (MaskOf(c.managed, id) in DecodeMasks(c.dup[key]).value <==> (key, Window(ops, key)) in Pairs(ops, id))
    ensures (key, Window(ops, key)) in Pairs(ops, id) ==> key in Run(Meant, ops).dup
  {
    var c, ids := Run(Meant, ops), Reporters(Meant, ops, key);
    ReportersArePairs(ops, id, key);
    LiveIffReported(Meant, ops, key);
    if key in c.dup {
      EntryIsReporters(Meant, ops, key);
      var masks := MasksOf(c.managed, ids);
      DecodeEncode(masks);
      ReportersKnown(Meant, ops, key);
      if id in ids {
        var i :| 0 <= i < |ids| && ids[i] == id;
        assert masks[i] == MaskOf(c.managed, id);
      } else if MaskOf(c.managed, id) in masks {
        var i :| 0 <= i < |masks| && masks[i] == MaskOf(c.managed, id);
        assert ids[i] in ids;
        MasksDiffer(Meant, ops, ids[i], id);
      }
    }
  }

  ghost function OpenPairs(c: Center, ops: seq<Op>, id: string, category: string): set<(string, nat)> {
    set key | key in LiveKeys(c, id, category) :: (key, Window(ops, key))
  }

  lemma LiveKeyIff(ops: seq<Op>, id: string, category: string, key: string)
    requires |Order(ops)| <= MASKS && Known(ops, id)
    ensures key in LiveKeys(Run(Meant, ops), id, category) <==>
            InCategory(key, category) && (key, Window(ops, key)) in Pairs(ops, id)
  {
    MaskInEntryIff(ops, id, key);
  }

  lemma OpenIff(ops: seq<Op>, id: string, category: string, p: (string, nat))
    requires |Order(ops)| <= MASKS && Known(ops, id)
    ensures p in OpenPairs(Run(Meant, ops), ops, id, category) <==>
            p in PairsOf(ops, id, category) && p !in ClosedPairs(ops, id, category)
  {
    PairsSoFar(ops, id);
    LiveKeyIff(ops, id, category, p.0);
  }

  lemma OpenOrClosed(ops: seq<Op>, id: string, category: string)
    requires |Order(ops)| <= MASKS && Known(ops, id)
    ensures var open := OpenPairs(Run(Meant, ops), ops, id, category);
            && open + ClosedPairs(ops, id, category) == PairsOf(ops, id, category)
            && open !! ClosedPairs(ops, id, category)
  {
    var c := Run(Meant, ops);
    var open, closed, all := OpenPairs(c, ops, id, category), ClosedPairs(ops, id, category),
        PairsOf(ops, id, category);
    forall p ensures p in open <==> p in all && p !in closed {
      OpenIff(ops, id, category, p);
    }
  }

  /** Entries that contain the mask correspond one to one to pairs whose window is still open. */
  lemma {:induction false} LiveKeysAreOpen(ops: seq<Op>, id: string, category: string)
    requires |Order(ops)| <= MASKS && Known(ops, id)
    ensures |LiveKeys(Run(Meant, ops), id, category)| + |ClosedPairs(ops, id, category)| == |PairsOf(ops, id, category)|
  {
    var c := Run(Meant, ops);
    OpenOrClosed(ops, id, category);
    TagSize(LiveKeys(c, id, category), OpenPairs(c, ops, id, category), ops);
  }

  lemma {:induction false} TagSize(keys: set<string>, tagged: set<(string, nat)>, ops: seq<Op>)
    requires tagged == set key | key in keys :: (key, Window(ops, key))
    ensures |tagged| == |keys|
    decreases keys
  {
    if keys == {} {
    } else {
      var k :| k in keys;
      var fewer := set key | key in keys - {k} :: (key, Window(ops, key));
      assert tagged == fewer + {(k, Window(ops, k))};
      TagSize(keys - {k}, fewer, ops);
    }
  }

  ghost function HitsOf(c: Center, id: string, category: string): nat {
    if id in c.managed then Hits(c.managed[id], category) else 0
  }

  lemma {:induction false} OrderGrows(ops: seq<Op>, n: nat)
    requires n <= |ops|
    ensures |Order(ops[..n])| <= |Order(ops)|
    decreases |ops| - n
  {
    if n < |ops| {
      OrderGrows(ops, n + 1);
      assert ops[..n + 1][..n] == ops[..n];
    } else {
      assert ops[..n] == ops;
    }
  }

  lemma EvictedPairs(ops: seq<Op>, key: string, id: string, category: string)
    ensures var after := ops + [Evict(key)];
            ClosedPairs(after, id, category) ==
            ClosedPairs(ops, id, category) +
            if InCategory(key, category) && (key, Window(ops, key)) in Pairs(ops, id)
            then {(key, Window(ops, key))} else {}
  {
    var after, pair := ops + [Evict(key)], (key, Window(ops, key));
    var added := if InCategory(key, category) && pair in Pairs(ops, id) then {pair} else {};
    forall p ensures p in ClosedPairs(after, id, category) <==> p in ClosedPairs(ops, id, category) || p in added {
      EvictedPair(ops, key, id, category, p);
    }
  }

  lemma EvictedPair(ops: seq<Op>, key: string, id: string, category: string, p: (string, nat))
    ensures p in ClosedPairs(ops + [Evict(key)], id, category) <==>
            p in ClosedPairs(ops, id, category) ||
            (p == (key, Window(ops, key)) && InCategory(key, category) && p in Pairs(ops, id))
  {
    var after := ops + [Evict(key)];
    assert after[..|ops|] == ops;
    PairsSoFar(ops, id);
    assert Pairs(after, id) == Pairs(ops, id);
    assert Window(after, p.0) == Window(ops, p.0) + if p.0 == key then 1 else 0;
  }

  lemma EvictedCount(ops: seq<Op>, key: string, id: string, category: string)
    ensures |ClosedPairs(ops + [Evict(key)], id, category)| == |ClosedPairs(ops, id, category)| +
            if InCategory(key, category) && (key, Window(ops, key)) in Pairs(ops, id) then 1 else 0
  {
    EvictedPairs(ops, key, id, category);
    var closed, pair := ClosedPairs(ops, id, category), (key, Window(ops, key));
    assert pair !in closed;
    assert |closed + {pair}| == |closed| + 1;
    assert closed + {} == closed;
  }

  lemma WrappedSum(n: nat)
    ensures (n % COUNTERS + 1) % COUNTERS == (n + 1) % COUNTERS
  {
  }

  lemma OtherPairs(ops: seq<Op>, op: Op, id: string, category: string)
    requires !op.Evict?
    ensures ClosedPairs(ops + [op], id, category) == ClosedPairs(ops, id, category)
  {
    var after := ops + [op];
    assert after[..|ops|] == ops;
    PairsSoFar(ops, id);
  }

  lemma EvictedHits(c: Center, key: string, id: string, category: string, time: nat)
    requires id in c.managed
    ensures HitsOf(Step(Meant, c, Evict(key), time), id, category) ==
            if key in LiveKeys(c, id, category) then (HitsOf(c, id, category) + 1) % COUNTERS
            else HitsOf(c, id, category)
  {
  }

  lemma OtherHits(c: Center, op: Op, id: string, category: string, time: nat)
    requires !op.Evict?
    ensures HitsOf(Step(Meant, c, op, time), id, category) == HitsOf(c, id, category)
  {
  }

  lemma HitsAfterEvict(ops: seq<Op>, key: string, id: string, category: string)
    requires |Order(ops)| <= MASKS
    requires HitsOf(Run(Meant, ops), id, category) == |ClosedPairs(ops, id, category)| % COUNTERS
    ensures HitsOf(Step(Meant, Run(Meant, ops), Evict(key), |ops|), id, category) ==
            |ClosedPairs(ops + [Evict(key)], id, category)| % COUNTERS
  {
    var c := Run(Meant, ops);
    ManagedIffKnown(Meant, ops, id);
    EvictedCount(ops, key, id, category);
    if Known(ops, id) {
      LiveKeyIff(ops, id, category, key);
      EvictedHits(c, key, id, category, |ops|);
      WrappedSum(|ClosedPairs(ops, id, category)|);
    } else {
      PairsSoFar(ops, id);
      EvictKeepsManaged(c, key, |ops|);
    }
  }

  lemma EvictKeepsManaged(c: Center, key: string, time: nat)
    ensures Step(Meant, c, Evict(key), time).managed.Keys == c.managed.Keys
  {
    if key in c.dup {
      ReleaseKeepsMasks(c.managed, key, c.dup[key]);
    }
  }

  /** A counter holds the number of pairs whose window is over, modulo 2^32. */
  lemma {:induction false} HitsAreClosedPairs(ops: seq<Op>, id: string, category: string)
    requires |Order(ops)| <= MASKS
    ensures HitsOf(Run(Meant, ops), id, category) == |ClosedPairs(ops, id, category)| % COUNTERS
  {
    if ops == [] {
    } else {
      var n := |ops| - 1;
      var before, op := ops[..n], ops[n];
      assert ops == before + [op];
      OrderGrows(ops, n);
      HitsAreClosedPairs(before, id, category);
      if op.Evict? {
        HitsAfterEvict(before, op.key, id, category);
      } else {
        OtherPairs(before, op, id, category);
        OtherHits(Run(Meant, before), op, id, category, n);
      }
    }
  }

  /** Counter plus live entries with the agent's mask give the number of distinct (key, window)
      pairs it reported, modulo 2^32, however often it repeated a report. */
  lemma {:induction false} HitAccounting(ops: seq<Op>, id: string, category: string)
    requires |Order(ops)| <= 65536 && Known(ops, id)
    ensures var c := Run(Meant, ops);
            var live, pairs := |LiveKeys(c, id, category)|, |PairsOf(ops, id, category)|;
            live <= pairs && HitsOf(c, id, category) == (pairs - live) % 4294967296
  {
    HitsAreClosedPairs(ops, id, category);
    LiveKeysAreOpen(ops, id, category);
  }

  // ---- the same by kind of message -------------------------------------------------

  /** The distinct messages an agent reported to a working cache, each with the window of its key. */
  ghost function MessagePairs(ops: seq<Op>, id: string): set<(Identity, nat)> {
    if ops == [] then {}
    else
      var before, n := ops[..|ops| - 1], |ops| - 1;
      MessagePairs(before, id) +
      if ops[n].Report? && ops[n].id == id && Known(before, id) && !ops[n].lookupFails && !ops[n].appendFails
      then {(ops[n].msg, Window(before, DedupKey(ops[n].msg)))} else {}
  }

  ghost function MessagesOf(ops: seq<Op>, id: string, kind: Identity -> bool): set<(Identity, nat)> {
    set p | p in MessagePairs(ops, id) && kind(p.0)
  }

  /** Those whose window is over. */
  ghost function ClosedMessages(ops: seq<Op>, id: string, kind: Identity -> bool): set<(Identity, nat)> {
    set p | p in MessagePairs(ops, id) && kind(p.0) && p.1 < Window(ops, DedupKey(p.0))
  }

  ghost function Keyed(ms: set<(Identity, nat)>): set<(string, nat)> {
    set p | p in ms :: (DedupKey(p.0), p.1)
  }

  lemma {:induction false} PairsAreKeyed(ops: seq<Op>, id: string)
    ensures Pairs(ops, id) == Keyed(MessagePairs(ops, id))
  {
    if ops == [] {
    } else {
      var n := |ops| - 1;
      PairsAreKeyed(ops[..n], id);
    }
  }

  lemma {:induction false} KeyedSize(ms: set<(Identity, nat)>)
    ensures |Keyed(ms)| == |ms|
    decreases ms
  {
    if ms == {} {
    } else {
      var p :| p in ms;
      var fewer := ms - {p};
      KeyedSize(fewer);
      forall q | q in fewer ensures (DedupKey(q.0), q.1) != (DedupKey(p.0), p.1) {
        DedupKeyInjective(q.0, p.0);
      }
      assert Keyed(ms) == Keyed(fewer) + {(DedupKey(p.0), p.1)};
    }
  }

  /** A category stands for a kind of message. */
  ghost predicate StandsFor(category: string, kind: Identity -> bool) {
    forall m :: kind(m) <==> KeyCategory(DedupKey(m)) == Some(category)
  }

  lemma CategorySizes(ops: seq<Op>, id: string, category: string, kind: Identity -> bool)
    requires StandsFor(category, kind)
    ensures |ClosedPairs(ops, id, category)| == |ClosedMessages(ops, id, kind)|
    ensures |PairsOf(ops, id, category)| == |MessagesOf(ops, id, kind)|
  {
    PairsAreKeyed(ops, id);
    KeyedSize(ClosedMessages(ops, id, kind));
    KeyedSize(MessagesOf(ops, id, kind));
    assert PairsOf(ops, id, category) == Keyed(MessagesOf(ops, id, kind));
    assert ClosedPairs(ops, id, category) == Keyed(ClosedMessages(ops, id, kind));
  }

  predicate IsDamaku(m: Identity) {
    m.Damaku?
  }

  predicate IsGift(m: Identity) {
    m.Gift?
  }

  predicate IsGuard(m: Identity) {
    m.Guard?
  }

  predicate IsSuperChat(m: Identity) {
    m.SuperChat?
  }

  /** An agent's counter for a kind of message is the number of distinct messages of that kind it
      reported whose window is over, modulo 2^32; with the live entries that contain its mask it
      is the number of all of them. */
  ghost predicate CountsKind(ops: seq<Op>, id: string, category: string, kind: Identity -> bool) {
    var c, live := Run(Meant, ops), |LiveKeys(Run(Meant, ops), id, category)|;
    && HitsOf(c, id, category) == |ClosedMessages(ops, id, kind)| % 4294967296
    && live + |ClosedMessages(ops, id, kind)| == |MessagesOf(ops, id, kind)|
  }

  lemma {:induction false} KindCounted(ops: seq<Op>, id: string, category: string, kind: Identity -> bool)
    requires |Order(ops)| <= 65536 && Known(ops, id) && StandsFor(category, kind)
    ensures CountsKind(ops, id, category, kind)
  {
    HitsAreClosedPairs(ops, id, category);
    LiveKeysAreOpen(ops, id, category);
    CategorySizes(ops, id, category, kind);
  }

  /** Danmaku are counted under "damaku", gifts under "gift", guards under "guard" and super chats
      under "superChat". */
  lemma {:induction false} HitsByKind(ops: seq<Op>, id: string)
    requires |Order(ops)| <= 65536 && Known(ops, id)
    ensures CountsKind(ops, id, "damaku", IsDamaku) && CountsKind(ops, id, "gift", IsGift)
    ensures CountsKind(ops, id, "guard", IsGuard) && CountsKind(ops, id, "superChat", IsSuperChat)
  {
    forall m {
      Categories(m);
    }
    KindCounted(ops, id, "damaku", IsDamaku);
    KindCounted(ops, id, "gift", IsGift);
    KindCounted(ops, id, "guard", IsGuard);
    KindCounted(ops, id, "superChat", IsSuperChat);
  }
}
