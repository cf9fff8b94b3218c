/**
 One pass of room reconciliation: the center compares the desired rooms with the
 rooms an agent last reported, sends the differences as controls and updates the
 report without waiting for a new one.
 */
module Rooms {
  import opened Base
  import opened Sequences

  type Room = uint64

  datatype Control = Add(room: Room) | Del(room: Room)

  /** What becomes of one control request: never applied, applied and answered, or applied with the answer lost. */
  datatype Outcome = Lost | Answered | AnswerLost

  datatype Condition = Condition(initialized: bool, ready: bool, synced: bool) {
    predicate IsReady() {
      initialized && ready
    }
  }

  // ---- specification -------------------------------------------------------

  /** The elements of xs that are not in drop, in order. */
  ghost function Without(xs: seq<Room>, drop: set<Room>): seq<Room> {
    if xs == [] then []
    else Without(xs[..|xs| - 1], drop) + if xs[|xs| - 1] in drop then [] else [xs[|xs| - 1]]
  }

  ghost function Adds(rooms: seq<Room>): seq<Control> {
    seq(|rooms|, i requires 0 <= i < |rooms| => Add(rooms[i]))
  }

  ghost function Dels(rooms: seq<Room>): seq<Control> {
    seq(|rooms|, i requires 0 <= i < |rooms| => Del(rooms[i]))
  }

  ghost function NeedAdd(order: seq<Room>, cached: seq<Room>): seq<Room> {
    Without(order, Elems(cached))
  }

  ghost function NeedDel(cached: seq<Room>, desired: set<Room>): seq<Room> {
    Without(cached, desired)
  }

  ghost function Plan(order: seq<Room>, cached: seq<Room>, desired: set<Room>): seq<Control> {
    Adds(NeedAdd(order, cached)) + Dels(NeedDel(cached, desired))
  }

  /** The optimistic update at the end of a pass. */
  ghost function Updated(cached: seq<Room>, needAdd: seq<Room>, needDel: seq<Room>): seq<Room> {
    Without(cached, Elems(needDel)) + needAdd
  }

  function Apply(actual: set<Room>, c: Control): set<Room> {
    match c
    case Add(r) => actual + {r}
    case Del(r) => actual - {r}
  }

  /** The agent's rooms after the controls that reached it. */
  ghost function Deliver(actual: set<Room>, plan: seq<Control>, net: seq<Outcome>): set<Room>
    requires |plan| <= |net|
  {
    if plan == [] then actual
    else
      var n := |plan| - 1;
      var before := Deliver(actual, plan[..n], net);
      if net[n] == Lost then before else Apply(before, plan[n])
  }

  /** Rooms on which the agent disagrees with what is desired. */
  ghost function Drift(desired: set<Room>, actual: set<Room>): set<Room> {
    (desired - actual) + (actual - desired)
  }

  // ---- the pass as the center and the agent run it -------------------------

  class Agent {
    var watchingRooms: set<Room>

    method Action(c: Control)
      modifies this
      ensures watchingRooms == Apply(old(watchingRooms), c)
    {
      match c {
        case Add(r) => watchingRooms := watchingRooms + {r};
        case Del(r) => watchingRooms := watchingRooms - {r};
      }
    }

    /** The watching part of a status message: every room once, in whatever order the range takes. */
    method Report() returns (watching: seq<Room>)
      ensures Enumerates(watching, watchingRooms)
    {
      watching := [];
      var left := watchingRooms;
      while left != {}
        invariant left <= watchingRooms && Enumerates(watching, watchingRooms - left)
        decreases |left|
      {
        var room :| room in left;
        assert Elems(watching + [room]) == Elems(watching) + {room};
        assert room !in Elems(watching);
        assert watchingRooms - (left - {room}) == (watchingRooms - left) + {room};
        watching := watching + [room];
        left := left - {room};
      }
    }
  }

  class AgentStatus {
    const id: string
    var condition: Condition
    var updateTime: int
    var watching: seq<Room>
  }

  class AgentManager {
    var watchedRoom: set<Room>
    var master: AgentStatus?

    /** The agent whose single streams are followed, "" while there is none. */
    method MasterAgent() returns (id: string)
      ensures id == if master == null then "" else master.id
    {
      id := "";
      if master != null {
        id := master.id;
      }
    }

    /** One request over the message queue; only an answered one counts as success. */
    method Request(agent: Agent, c: Control, outcome: Outcome) returns (ok: bool)
      modifies agent
      ensures ok <==> outcome == Answered
      ensures agent.watchingRooms ==
              if outcome == Lost then old(agent.watchingRooms) else Apply(old(agent.watchingRooms), c)
    {
      if outcome != Lost {
        agent.Action(c);
      }
      ok := outcome == Answered;
    }

    /** An info message of a known agent: it has started again. */
    method OnInfo(status: AgentStatus, now: int)
      modifies status
      ensures status.condition == Condition(false, false, false) && status.watching == old(status.watching)
      ensures status.updateTime == now
    {
      status.condition := Condition(false, false, false);
      status.updateTime := now;
    }

    /** A status message: the report is replaced whole and the agent counts as ready. */
    method OnStatus(status: AgentStatus, watching: seq<Room>, now: int)
      modifies status
      ensures status.watching == watching && status.updateTime == now
      ensures status.condition == Condition(true, true, old(status.condition.synced))
    {
      status.watching := watching;
      status.condition := status.condition.(initialized := true, ready := true);
      status.updateTime := now;
    }

    method Diff(status: AgentStatus, order: seq<Room>) returns (needAdd: seq<Room>, needDel: seq<Room>)
      ensures needAdd == NeedAdd(order, status.watching)
      ensures needDel == NeedDel(status.watching, watchedRoom)
    {
      needAdd, needDel := [], [];
      for i := 0 to |order|
        invariant needAdd == NeedAdd(order[..i], status.watching)
      {
        assert order[..i + 1][..i] == order[..i];
        if order[i] !in status.watching {
          needAdd := needAdd + [order[i]];
        }
      }
      assert order[..|order|] == order;
      for i := 0 to |status.watching|
        invariant needDel == NeedDel(status.watching[..i], watchedRoom)
      {
        assert status.watching[..i + 1][..i] == status.watching[..i];
        if status.watching[i] !in watchedRoom {
          needDel := needDel + [status.watching[i]];
        }
      }
      assert status.watching[..|status.watching|] == status.watching;
    }

    method SendAll(agent: Agent, plan: seq<Control>, net: seq<Outcome>)
      requires |plan| <= |net|
      modifies agent
      ensures agent.watchingRooms == Deliver(old(agent.watchingRooms), plan, net)
    {
      for i := 0 to |plan|
        invariant agent.watchingRooms == Deliver(old(agent.watchingRooms), plan[..i], net)
      {
        assert plan[..i + 1][..i] == plan[..i];
        var ok := Request(agent, plan[i], net[i]); // a failed request is only logged
      }
      assert plan[..|plan|] == plan;
    }

    /** One uninterrupted tick of syncAgent for one agent. */
    method SyncAgent(status: AgentStatus, agent: Agent, order: seq<Room>, net: seq<Outcome>, now: int)
      returns (sent: seq<Control>)
      requires Enumerates(order, watchedRoom)
      requires |order| + |status.watching| <= |net|
      modifies this`master, status, agent
      ensures var c := old(status.condition);
              sent == if c.initialized && c.ready then Plan(order, old(status.watching), watchedRoom) else []
      ensures |sent| <= |net| && agent.watchingRooms == Deliver(old(agent.watchingRooms), sent, net)
      ensures old(status.condition.initialized && status.condition.ready) ==>
                && status.updateTime == now
                && (master == if old(master == null || !master.condition.ready) then status else old(master))
                && status.condition == old(status.condition).(synced := true)
                && status.watching == Updated(old(status.watching), NeedAdd(order, old(status.watching)),
                                              NeedDel(old(status.watching), watchedRoom))
      ensures !old(status.condition.initialized && status.condition.ready) ==>
                && master == old(master)
                && status.watching == old(status.watching)
                && (var planned := Plan(order, old(status.watching), watchedRoom) != [];
                    && status.condition ==
                       (if planned then old(status.condition).(synced := false) else old(status.condition))
                    && status.updateTime ==
                       if planned && old(status.condition.synced) then now else old(status.updateTime))
    {
      sent := [];
      var needAdd, needDel := Diff(status, order);
      WithoutLength(order, Elems(status.watching));
      WithoutLength(status.watching, watchedRoom);
      var canSync := status.condition.IsReady();
      if status.condition.synced && (|needAdd| > 0 || |needDel| > 0) {
        status.condition := status.condition.(synced := !status.condition.synced);
        status.updateTime := now;
        canSync := status.condition.IsReady();
      }
      if !canSync {
        return;
      }
      var n := |needAdd|;
      sent := seq(n, i requires 0 <= i < n => Add(needAdd[i])) +
              seq(|needDel|, i requires 0 <= i < |needDel| => Del(needDel[i]));
      assert sent == Plan(order, status.watching, watchedRoom);
      SendAll(agent, sent, net);
      var kept := [];
      for i := 0 to |status.watching|
        invariant kept == Without(status.watching[..i], Elems(needDel))
      {
        assert status.watching[..i + 1][..i] == status.watching[..i];
        if status.watching[i] !in needDel {
          kept := kept + [status.watching[i]];
        }
      }
      assert status.watching[..|status.watching|] == status.watching;
      status.watching := kept + needAdd;
      status.condition := status.condition.(synced := true);
      status.updateTime := now;
      if master == null || !master.condition.ready {
        master := status;
      }
    }
  }

  // ---- what a pass achieves ------------------------------------------------

  lemma {:induction false} WithoutLength(xs: seq<Room>, drop: set<Room>)
    ensures |Without(xs, drop)| <= |xs|
  {
    if xs == [] {
    } else {
      WithoutLength(xs[..|xs| - 1], drop);
    }
  }

  lemma {:induction false} WithoutMembers(xs: seq<Room>, drop: set<Room>)
    ensures forall x :: x in Without(xs, drop) <==> x in xs && x !in drop
  {
    if xs == [] {
    } else {
      WithoutMembers(xs[..|xs| - 1], drop);
      assert xs == xs[..|xs| - 1] + [xs[|xs| - 1]];
    }
  }

  lemma {:induction false} WithoutNoDup(xs: seq<Room>, drop: set<Room>)
    requires NoDup(xs)
    ensures NoDup(Without(xs, drop))
  {
    if xs == [] {
    } else {
      var init, x := xs[..|xs| - 1], xs[|xs| - 1];
      WithoutNoDup(init, drop);
      WithoutMembers(init, drop);
      assert x !in init;
    }
  }

  /** Dropping elements leaves exactly the others, without new duplicates. */
  lemma WithoutElems(xs: seq<Room>, drop: set<Room>)
    ensures Elems(Without(xs, drop)) == Elems(xs) - drop
    ensures NoDup(xs) ==> NoDup(Without(xs, drop))
  {
    WithoutMembers(xs, drop);
    if NoDup(xs) {
      WithoutNoDup(xs, drop);
    }
  }

  lemma PlanParts(order: seq<Room>, cached: seq<Room>, desired: set<Room>)
    requires Enumerates(order, desired)
    ensures Elems(NeedAdd(order, cached)) == desired - Elems(cached) && NoDup(NeedAdd(order, cached))
    ensures Elems(NeedDel(cached, desired)) == Elems(cached) - desired
    ensures NoDup(cached) ==> NoDup(NeedDel(cached, desired))
  {
    WithoutElems(order, Elems(cached));
    WithoutElems(cached, desired);
  }

  lemma PlanMembers(add: seq<Room>, del: seq<Room>)
    ensures forall r :: Add(r) in Adds(add) + Dels(del) <==> r in add
    ensures forall r :: Del(r) in Adds(add) + Dels(del) <==> r in del
  {
    var plan := Adds(add) + Dels(del);
    forall r ensures Add(r) in plan <==> r in add {
      if r in add {
        var i :| 0 <= i < |add| && add[i] == r;
        assert plan[i] == Add(r);
      }
    }
    forall r ensures Del(r) in plan <==> r in del {
      if r in del {
        var i :| 0 <= i < |del| && del[i] == r;
        assert plan[|add| + i] == Del(r);
      }
    }
  }

  lemma NoDupConcat<T>(a: seq<T>, b: seq<T>)
    requires NoDup(a) && NoDup(b)
    ensures NoDup(a + b) <==> Elems(a) !! Elems(b)
  {
    if x :| x in a && x in b {
      var i :| 0 <= i < |a| && a[i] == x;
      var j :| 0 <= j < |b| && b[j] == x;
      assert (a + b)[i] == (a + b)[|a| + j];
      assert x in Elems(a) * Elems(b);
    } else {
      forall i, j | 0 <= i < j < |a + b| ensures (a + b)[i] != (a + b)[j] {
        assert i < |a| <= j ==> a[i] in a && b[j - |a|] in b;
      }
    }
  }

  /** The controls of one pass: what is missing, what is too much, no room twice. */
  lemma OnePassPlan(order: seq<Room>, cached: seq<Room>, desired: set<Room>)
    requires Enumerates(order, desired)
    ensures forall r :: Add(r) in Plan(order, cached, desired) <==> r in desired && r !in cached
    ensures forall r :: Del(r) in Plan(order, cached, desired) <==> r in cached && r !in desired
    ensures NoDup(cached) ==>
              forall i, j :: 0 <= i < j < |Plan(order, cached, desired)| ==>
                Plan(order, cached, desired)[i].room != Plan(order, cached, desired)[j].room
  {
    var add, del := NeedAdd(order, cached), NeedDel(cached, desired);
    PlanParts(order, cached, desired);
    PlanMembers(add, del);
    forall r ensures (r in add <==> r in desired && r !in cached) && (r in del <==> r in cached && r !in desired) {
      assert (r in add <==> r in Elems(add)) && (r in del <==> r in Elems(del)) &&
             (r in cached <==> r in Elems(cached));
    }
    if NoDup(cached) {
      var plan := Plan(order, cached, desired);
      NoDupConcat(add, del);
      forall i | 0 <= i < |plan| ensures plan[i].room == (add + del)[i] {}
    }
  }

  /** The report a pass leaves behind lists the desired rooms, each once if it did so before. */
  lemma UpdatedReport(order: seq<Room>, cached: seq<Room>, desired: set<Room>)
    requires Enumerates(order, desired)
    ensures Elems(Updated(cached, NeedAdd(order, cached), NeedDel(cached, desired))) == desired
    ensures NoDup(cached) ==> NoDup(Updated(cached, NeedAdd(order, cached), NeedDel(cached, desired)))
  {
    var add, del := NeedAdd(order, cached), NeedDel(cached, desired);
    PlanParts(order, cached, desired);
    WithoutElems(cached, Elems(del));
    var kept := Without(cached, Elems(del));
    assert Elems(kept + add) == Elems(kept) + Elems(add);
    if NoDup(cached) {
      NoDupConcat(kept, add);
    }
  }

  /** When another report arrives between the diff and the update, duplicates appear exactly
      for rooms of that report that were just added. */
  lemma InterruptedUpdateDupFreeIff(order: seq<Room>, cached: seq<Room>, desired: set<Room>, arrived: seq<Room>)
    requires Enumerates(order, desired) && NoDup(arrived)
    ensures NoDup(Updated(arrived, NeedAdd(order, cached), NeedDel(cached, desired)))
            <==> forall r :: r in desired && r in arrived ==> r in cached
  {
    var add, del := NeedAdd(order, cached), NeedDel(cached, desired);
    PlanParts(order, cached, desired);
    WithoutElems(arrived, Elems(del));
    var kept := Without(arrived, Elems(del));
    NoDupConcat(kept, add);
    forall r ensures r in Elems(kept) && r in Elems(add) <==> r in desired && r in arrived && r !in cached {
      assert r in arrived <==> r in Elems(arrived);
    }
  }

  /** A control that moves its room towards the desired set. */
  ghost predicate Toward(c: Control, desired: set<Room>) {
    match c
    case Add(r) => r in desired
    case Del(r) => r !in desired
  }

  ghost function Targets(plan: seq<Control>): set<Room> {
    set c | c in plan :: c.room
  }

  ghost function LostRooms(plan: seq<Control>, net: seq<Outcome>): set<Room>
    requires |plan| <= |net|
  {
    set i | 0 <= i < |plan| && net[i] == Lost :: plan[i].room
  }

  ghost function ReachedRooms(plan: seq<Control>, net: seq<Outcome>): set<Room>
    requires |plan| <= |net|
  {
    set i | 0 <= i < |plan| && net[i] != Lost :: plan[i].room
  }

  /** Controls that agree with the desired set take exactly the rooms they reach out of the drift. */
  lemma {:induction false} DeliverDrift(desired: set<Room>, actual: set<Room>, plan: seq<Control>, net: seq<Outcome>)
    requires |plan| <= |net|
    requires forall c :: c in plan ==> Toward(c, desired)
    ensures Drift(desired, Deliver(actual, plan, net)) ==
            Drift(desired, actual) - ReachedRooms(plan, net)
  {
    if plan == [] {
    } else {
      var n := |plan| - 1;
      DeliverDrift(desired, actual, plan[..n], net);
      var before := Deliver(actual, plan[..n], net);
      var hit, hit' := ReachedRooms(plan[..n], net), ReachedRooms(plan, net);
      forall r ensures r in hit' <==> r in hit || (net[n] != Lost && r == plan[n].room) {
        if r in hit {
          var i :| 0 <= i < n && net[i] != Lost && plan[..n][i].room == r;
          assert plan[i].room == r;
        }
        if r in hit' && !(net[n] != Lost && r == plan[n].room) {
          var i :| 0 <= i < |plan| && net[i] != Lost && plan[i].room == r;
          assert plan[..n][i].room == r;
        }
      }
      assert plan[n] in plan;
      assert Drift(desired, Apply(before, plan[n])) == Drift(desired, before) - {plan[n].room};
    }
  }

  lemma PlanIsToward(order: seq<Room>, cached: seq<Room>, desired: set<Room>)
    requires Enumerates(order, desired)
    ensures forall c :: c in Plan(order, cached, desired) ==> Toward(c, desired)
    ensures Drift(desired, Elems(cached)) == Targets(Plan(order, cached, desired))
  {
    OnePassPlan(order, cached, desired);
    var rooms := Targets(Plan(order, cached, desired));
    forall r | r in Drift(desired, Elems(cached)) ensures r in rooms {
      assert Add(r) in Plan(order, cached, desired) || Del(r) in Plan(order, cached, desired);
    }
    forall c | c in Plan(order, cached, desired) ensures Toward(c, desired) && c.room in Drift(desired, Elems(cached)) {
      match c {
        case Add(r) =>
        case Del(r) =>
      }
    }
  }

  lemma {:induction false} LostOrReached(plan: seq<Control>, net: seq<Outcome>)
    requires |plan| <= |net|
    ensures Targets(plan) == LostRooms(plan, net) + ReachedRooms(plan, net)
    ensures (forall i, j :: 0 <= i < j < |plan| ==> plan[i].room != plan[j].room)
            ==> LostRooms(plan, net) !! ReachedRooms(plan, net)
  {
    forall r ensures r in Targets(plan) <==> r in LostRooms(plan, net) + ReachedRooms(plan, net) {
      if r in Targets(plan) {
        var c :| c in plan && c.room == r;
        var i :| 0 <= i < |plan| && plan[i] == c;
        assert net[i] == Lost || net[i] != Lost;
      }
      if r in LostRooms(plan, net) + ReachedRooms(plan, net) {
        var i :| 0 <= i < |plan| && plan[i].room == r;
        assert plan[i] in plan;
      }
    }
  }

  /** After a pass over an up-to-date report the agent is wrong exactly on the rooms whose control was lost. */
  lemma FreshPassDrift(order: seq<Room>, cached: seq<Room>, desired: set<Room>, actual: set<Room>, net: seq<Outcome>)
    requires Enumerates(order, desired) && Enumerates(cached, actual)
    requires |Plan(order, cached, desired)| <= |net|
    ensures var plan := Plan(order, cached, desired);
            Drift(desired, Deliver(actual, plan, net)) == LostRooms(plan, net)
  {
    var plan := Plan(order, cached, desired);
    OnePassPlan(order, cached, desired);
    PlanIsToward(order, cached, desired);
    DeliverDrift(desired, actual, plan, net);
    LostOrReached(plan, net);
  }

  /** With nothing lost a pass converges exactly when the report does not hide a wrong room. */
  lemma FullPassConvergesIff(order: seq<Room>, cached: seq<Room>, desired: set<Room>, actual: set<Room>,
      net: seq<Outcome>)
    requires Enumerates(order, desired)
    requires |Plan(order, cached, desired)| <= |net|
    requires forall i :: 0 <= i < |net| ==> net[i] != Lost
    ensures Deliver(actual, Plan(order, cached, desired), net) == desired
            <==> Drift(desired, actual) <= Drift(desired, Elems(cached))
  {
    var plan := Plan(order, cached, desired);
    PlanIsToward(order, cached, desired);
    DeliverDrift(desired, actual, plan, net);
    LostOrReached(plan, net);
    var after := Deliver(actual, plan, net);
    assert after == desired <==> Drift(desired, after) == {};
  }
}
