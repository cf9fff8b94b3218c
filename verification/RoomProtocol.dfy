/**
 Reconciliation as a protocol: the desired rooms, the cached report, a pass in progress,
 controls and reports still travelling, and the rooms the agent really watches, in any
 interleaving. A control may be lost or applied long after its request timed out; a
 report may be lost or arrive late.
 */
module RoomProtocol {
  import opened Base
  import opened Sequences
  import opened Rooms

  datatype Pass = Idle | Sending(todo: seq<Control>, needAdd: seq<Room>, needDel: seq<Room>)

  datatype State = State(
    desired: set<Room>,
    cached: seq<Room>,
    condition: Condition,
    pass: Pass,
    controls: seq<Control>,      // requested, neither applied nor lost yet
    reports: seq<seq<Room>>,     // published, neither received nor lost yet
    actual: set<Room>)

  datatype Step =
    // environment: the desired set changes, or the agent process starts again with no rooms
    | Provide(room: Room) | Revoke(room: Room) | Restart
    // center
    | StartPass(order: seq<Room>) | Send | FinishPass
    | ReceiveReport(at: nat) | ReceiveInfo | Initialize | ExpireReady
    // agent and network
    | ApplyControl(at: nat) | LoseControl(at: nat)
    | PublishReport(order: seq<Room>) | LoseReport(at: nat)

  predicate Environment(step: Step) {
    step.Provide? || step.Revoke? || step.Restart?
  }

  function Remove<T>(xs: seq<T>, i: nat): seq<T>
    requires i < |xs|
  {
    xs[..i] + xs[i + 1..]
  }

  ghost predicate Enabled(s: State, step: Step) {
    match step
    case StartPass(order) => s.pass.Idle? && s.condition.IsReady() && Enumerates(order, s.desired)
    case Send => s.pass.Sending? && s.pass.todo != []
    case FinishPass => s.pass.Sending? && s.pass.todo == []
    case ReceiveReport(i) => i < |s.reports|
    case LoseReport(i) => i < |s.reports|
    case ApplyControl(i) => i < |s.controls|
    case LoseControl(i) => i < |s.controls|
    case PublishReport(order) => Enumerates(order, s.actual)
    case _ => true
  }

  ghost function Next(s: State, step: Step): State
    requires Enabled(s, step)
  {
    match step
    case Provide(r) => s.(desired := s.desired + {r})
    case Revoke(r) => s.(desired := s.desired - {r})
    case Restart => s.(actual := {})
    case StartPass(order) =>
      var plan := Plan(order, s.cached, s.desired);
      s.(pass := Sending(plan, NeedAdd(order, s.cached), NeedDel(s.cached, s.desired)),
         condition := if plan == [] then s.condition else s.condition.(synced := false))
    case Send => s.(pass := s.pass.(todo := s.pass.todo[1..]), controls := s.controls + [s.pass.todo[0]])
    case FinishPass =>
      s.(pass := Idle, cached := Updated(s.cached, s.pass.needAdd, s.pass.needDel),
         condition := s.condition.(synced := true))
    case ReceiveReport(i) =>
      s.(cached := s.reports[i], reports := Remove(s.reports, i),
         condition := s.condition.(initialized := true, ready := true))
    case ReceiveInfo => s.(condition := Condition(false, false, false))
    case Initialize => s.(condition := s.condition.(initialized := true))
    case ExpireReady => s.(condition := s.condition.(ready := false))
    case ApplyControl(i) => s.(actual := Apply(s.actual, s.controls[i]), controls := Remove(s.controls, i))
    case LoseControl(i) => s.(controls := Remove(s.controls, i))
    case PublishReport(order) => s.(reports := s.reports + [order])
    case LoseReport(i) => s.(reports := Remove(s.reports, i))
  }

  ghost predicate ValidRun(s: State, run: seq<Step>)
    decreases |run|
  {
    run == [] || (Enabled(s, run[0]) && ValidRun(Next(s, run[0]), run[1..]))
  }

  ghost function After(s: State, run: seq<Step>): State
    requires ValidRun(s, run)
    decreases |run|
  {
    if run == [] then s else After(Next(s, run[0]), run[1..])
  }

  /** A run during which the desired set is fixed and the agent does not restart. */
  ghost predicate Quiet(run: seq<Step>) {
    forall step :: step in run ==> !Environment(step)
  }

  lemma {:induction false} RunConcat(s: State, a: seq<Step>, b: seq<Step>)
    requires ValidRun(s, a) && ValidRun(After(s, a), b)
    ensures ValidRun(s, a + b) && After(s, a + b) == After(After(s, a), b)
    decreases |a|
  {
    if a == [] {
      assert a + b == b;
    } else {
      RunConcat(Next(s, a[0]), a[1..], b);
      assert (a + b)[1..] == a[1..] + b;
    }
  }

  lemma Then(s: State, run: seq<Step>, step: Step)
    requires ValidRun(s, run) && Enabled(After(s, run), step)
    ensures ValidRun(s, run + [step]) && After(s, run + [step]) == Next(After(s, run), step)
  {
    var e := After(s, run);
    assert [step][1..] == [];
    assert ValidRun(Next(e, step), []) && ValidRun(e, [step]);
    assert After(e, [step]) == After(Next(e, step), []) == Next(e, step);
    RunConcat(s, run, [step]);
  }

  // ---- who gets controls at all -------------------------------------------------

  /** The ready bit is set by a status and lost to an info message or to silence. */
  predicate SetsReady(step: Step) {
    step.ReceiveReport? || step.ReceiveInfo? || step.ExpireReady?
  }

  predicate SetsInitialized(step: Step) {
    step.ReceiveReport? || step.ReceiveInfo? || step.Initialize?
  }

  /** Index i holds the last step of a kind. */
  ghost predicate IsLast(run: seq<Step>, kind: Step -> bool, i: int) {
    0 <= i < |run| && kind(run[i]) && forall j :: i < j < |run| ==> !kind(run[j])
  }

  ghost predicate Never(run: seq<Step>, kind: Step -> bool) {
    forall j :: 0 <= j < |run| ==> !kind(run[j])
  }

  lemma {:induction false} ConditionOverRun(s: State, run: seq<Step>)
    requires ValidRun(s, run)
    ensures var c := After(s, run).condition;
            && (Never(run, SetsReady) ==> c.ready == s.condition.ready)
            && (Never(run, SetsInitialized) ==> c.initialized == s.condition.initialized)
            && (forall i :: IsLast(run, SetsReady, i) ==> (c.ready <==> run[i].ReceiveReport?))
            && (forall i :: IsLast(run, SetsInitialized, i) ==> (c.initialized <==> !run[i].ReceiveInfo?))
    decreases |run|
  {
    if run == [] {
    } else {
      var rest := run[1..];
      ConditionOverRun(Next(s, run[0]), rest);
      TailOf(run, SetsReady);
      TailOf(run, SetsInitialized);
    }
  }

  lemma TailOf(run: seq<Step>, kind: Step -> bool)
    requires run != []
    ensures Never(run, kind) || IsLast(run, kind, 0) ==> Never(run[1..], kind)
    ensures forall i :: IsLast(run, kind, i) && i > 0 ==> IsLast(run[1..], kind, i - 1)
  {
    assert forall j :: 0 <= j < |run[1..]| ==> run[1..][j] == run[j + 1];
  }

  lemma {:induction false} NotReadyBlocks(s: State, run: seq<Step>, j: nat)
    requires ValidRun(s, run) && j < |run| && run[j].StartPass? && !s.condition.ready
    ensures exists k :: 0 <= k < j && run[k].ReceiveReport?
    decreases |run|
  {
    if j == 0 {
      assert false;
    } else if run[0].ReceiveReport? {
    } else {
      NotReadyBlocks(Next(s, run[0]), run[1..], j - 1);
      var k :| 0 <= k < j - 1 && run[1..][k].ReceiveReport?;
      assert run[k + 1].ReceiveReport?;
    }
  }

  /** Once an info message has come or the agent has been silent too long, no pass starts, and so
      no control is planned, before a new status has been received. */
  lemma {:induction false} NoPassBeforeReport(s: State, run: seq<Step>, i: nat, j: nat)
    requires ValidRun(s, run) && i < j < |run|
    requires (run[i].ReceiveInfo? || run[i].ExpireReady?) && run[j].StartPass?
    ensures exists k :: i < k < j && run[k].ReceiveReport?
    decreases |run|
  {
    var k;
    if i == 0 {
      NotReadyBlocks(Next(s, run[0]), run[1..], j - 1);
      k :| 0 <= k < j - 1 && run[1..][k].ReceiveReport?;
    } else {
      NoPassBeforeReport(Next(s, run[0]), run[1..], i - 1, j - 1);
      k :| i - 1 < k < j - 1 && run[1..][k].ReceiveReport?;
    }
    assert run[k + 1].ReceiveReport?;
  }

  /** From the start every pass is preceded by a status; the agent's initialization alone does not
      make it a target of controls. */
  lemma {:induction false} FirstPassNeedsReport(run: seq<Step>, j: nat)
    requires ValidRun(FRESH, run) && j < |run| && run[j].StartPass?
    ensures exists k :: 0 <= k < j && run[k].ReceiveReport?
  {
    NotReadyBlocks(FRESH, run, j);
  }

  /** An agent counts as synced from the end of a pass until it starts again or a pass finds its
      report to differ from the desired rooms. */
  lemma SyncedStepIff(s: State, step: Step)
    requires Enabled(s, step)
    ensures Next(s, step).condition.synced <==>
            step.FinishPass? ||
            (s.condition.synced && !step.ReceiveInfo? && !(step.StartPass? && Elems(s.cached) != s.desired))
  {
    if step.StartPass? {
      var plan := Plan(step.order, s.cached, s.desired);
      PlanIsToward(step.order, s.cached, s.desired);
      NoDrift(s.desired, Elems(s.cached));
      if plan == [] {
        assert Targets(plan) == {};
      } else {
        assert plan[0].room in Targets(plan);
      }
    }
  }

  // ---- safety: drift never grows beyond the outdated controls ---------------

  /** How many of the controls point away from the desired set. */
  ghost function Outdated(cs: seq<Control>, desired: set<Room>): nat {
    if cs == [] then 0
    else Outdated(cs[1..], desired) + if Toward(cs[0], desired) then 0 else 1
  }

  ghost function Pending(s: State): seq<Control> {
    s.controls + if s.pass.Sending? then s.pass.todo else []
  }

  /** Wrong rooms plus outdated controls that may still be applied. */
  ghost function Potential(s: State): nat {
    |Drift(s.desired, s.actual)| + Outdated(Pending(s), s.desired)
  }

  lemma {:induction false} OutdatedConcat(a: seq<Control>, b: seq<Control>, desired: set<Room>)
    ensures Outdated(a + b, desired) == Outdated(a, desired) + Outdated(b, desired)
  {
    if a == [] {
      assert a + b == b;
    } else {
      assert (a + b)[1..] == a[1..] + b;
      OutdatedConcat(a[1..], b, desired);
    }
  }

  lemma {:induction false} OutdatedZero(cs: seq<Control>, desired: set<Room>)
    ensures Outdated(cs, desired) == 0 <==> forall c :: c in cs ==> Toward(c, desired)
  {
    if cs == [] {
    } else {
      OutdatedZero(cs[1..], desired);
      assert cs == [cs[0]] + cs[1..];
    }
  }

  lemma OutdatedRemove(cs: seq<Control>, i: nat, desired: set<Room>)
    requires i < |cs|
    ensures Outdated(cs, desired) == Outdated(Remove(cs, i), desired) + if Toward(cs[i], desired) then 0 else 1
  {
    assert cs == cs[..i] + ([cs[i]] + cs[i + 1..]);
    OutdatedConcat(cs[..i], [cs[i]] + cs[i + 1..], desired);
    OutdatedConcat(cs[..i], cs[i + 1..], desired);
    assert ([cs[i]] + cs[i + 1..])[1..] == cs[i + 1..];
  }

  lemma ApplyDrift(desired: set<Room>, actual: set<Room>, c: Control)
    ensures Toward(c, desired) ==> Drift(desired, Apply(actual, c)) == Drift(desired, actual) - {c.room}
    ensures !Toward(c, desired) ==> Drift(desired, Apply(actual, c)) == Drift(desired, actual) + {c.room}
  {
  }

  lemma SubsetSize<T>(a: set<T>, b: set<T>)
    requires a <= b
    ensures |a| <= |b|
  {
    assert b == a + (b - a);
  }

  /** No step of the center, the agent or the network raises the potential. */
  lemma PotentialNeverGrows(s: State, step: Step)
    requires Enabled(s, step) && !Environment(step)
    ensures Potential(Next(s, step)) <= Potential(s)
    ensures Outdated(Pending(Next(s, step)), s.desired) <= Outdated(Pending(s), s.desired)
  {
    var s' := Next(s, step);
    var todo := if s.pass.Sending? then s.pass.todo else [];
    OutdatedConcat(s.controls, todo, s.desired);
    match step {
      case StartPass(order) =>
        PlanIsToward(order, s.cached, s.desired);
        OutdatedZero(s'.pass.todo, s.desired);
        OutdatedConcat(s'.controls, s'.pass.todo, s.desired);
      case Send =>
        assert Pending(s') == Pending(s);
      case FinishPass =>
        assert Pending(s') == Pending(s);
      case ApplyControl(i) =>
        OutdatedRemove(s.controls, i, s.desired);
        OutdatedConcat(s'.controls, todo, s.desired);
        ApplyDrift(s.desired, s.actual, s.controls[i]);
        SubsetSize(Drift(s.desired, s.actual) - {s.controls[i].room}, Drift(s.desired, s.actual));
      case LoseControl(i) =>
        OutdatedRemove(s.controls, i, s.desired);
        OutdatedConcat(s'.controls, todo, s.desired);
      case _ =>
    }
  }

  lemma {:induction false} PotentialOverRun(s: State, run: seq<Step>)
    requires ValidRun(s, run) && Quiet(run)
    ensures Potential(After(s, run)) <= Potential(s)
    decreases |run|
  {
    if run == [] {
    } else {
      PotentialNeverGrows(s, run[0]);
      assert forall step :: step in run[1..] ==> step in run;
      PotentialOverRun(Next(s, run[0]), run[1..]);
    }
  }

  /** Without outdated controls the set of wrong rooms itself only shrinks, in every interleaving. */
  lemma {:induction false} DriftOverRun(s: State, run: seq<Step>)
    requires ValidRun(s, run) && Quiet(run)
    requires Outdated(Pending(s), s.desired) == 0
    ensures After(s, run).desired == s.desired
    ensures Outdated(Pending(After(s, run)), s.desired) == 0
    ensures Drift(s.desired, After(s, run).actual) <= Drift(s.desired, s.actual)
    decreases |run|
  {
    if run == [] {
    } else {
      var step, s' := run[0], Next(s, run[0]);
      PotentialNeverGrows(s, step);
      if step.ApplyControl? {
        OutdatedZero(Pending(s), s.desired);
        assert s.controls[step.at] in Pending(s);
        ApplyDrift(s.desired, s.actual, s.controls[step.at]);
      }
      assert forall step :: step in run[1..] ==> step in run;
      DriftOverRun(s', run[1..]);
    }
  }

  // ---- stability -----------------------------------------------------------

  lemma {:induction false} SendMany(s: State, k: nat) returns (run: seq<Step>)
    requires s.pass.Sending? && k <= |s.pass.todo|
    ensures |run| == k && ValidRun(s, run) && Quiet(run)
    ensures After(s, run) == s.(pass := s.pass.(todo := s.pass.todo[k..]), controls := s.controls + s.pass.todo[..k])
    decreases k
  {
    if k == 0 {
      run := [];
      assert s.controls + s.pass.todo[..0] == s.controls;
    } else {
      var rest := SendMany(Next(s, Send), k - 1);
      run := [Send] + rest;
      assert s.controls + s.pass.todo[..k] == Next(s, Send).controls + s.pass.todo[1..][..k - 1];
      assert s.pass.todo[1..][k - 1..] == s.pass.todo[k..];
    }
  }

  /** Wrong rooms, and rooms an outdated control may still make wrong, all lie in an area. */
  ghost predicate Confined(s: State, area: set<Room>) {
    && Drift(s.desired, s.actual) <= area
    && forall c :: c in Pending(s) && !Toward(c, s.desired) ==> c.room in area
  }

  lemma ConfinedStep(s: State, step: Step, area: set<Room>)
    requires Enabled(s, step) && !Environment(step) && Confined(s, area)
    ensures Confined(Next(s, step), area) && Next(s, step).desired == s.desired
  {
    var s' := Next(s, step);
    match step {
      case StartPass(order) => PlanIsToward(order, s.cached, s.desired);
      case ApplyControl(i) =>
        assert s.controls[i] in Pending(s);
        ApplyDrift(s.desired, s.actual, s.controls[i]);
      case _ =>
    }
    assert forall c :: c in Pending(s') && !Toward(c, s.desired) ==> c in Pending(s);
  }

  lemma {:induction false} ConfinedOverRun(s: State, run: seq<Step>, area: set<Room>)
    requires ValidRun(s, run) && Quiet(run) && Confined(s, area)
    ensures Confined(After(s, run), area) && After(s, run).desired == s.desired
    decreases |run|
  {
    if run == [] {
    } else {
      ConfinedStep(s, run[0], area);
      assert forall step :: step in run[1..] ==> step in run;
      ConfinedOverRun(Next(s, run[0]), run[1..], area);
    }
  }

  /** A step of the center, the agent or the network makes more rooms wrong exactly when it
      applies an outdated control to a room that is right. */
  lemma StepGrowsIff(s: State, step: Step)
    requires Enabled(s, step) && !Environment(step)
    ensures |Drift(s.desired, Next(s, step).actual)| > |Drift(s.desired, s.actual)|
            <==> step.ApplyControl? && !Toward(s.controls[step.at], s.desired) &&
                 s.controls[step.at].room !in Drift(s.desired, s.actual)
  {
    if step.ApplyControl? {
      var c, drift := s.controls[step.at], Drift(s.desired, s.actual);
      ApplyDrift(s.desired, s.actual, c);
      SubsetSize(drift - {c.room}, drift);
      assert c.room in drift ==> drift + {c.room} == drift;
    }
  }

  /** Every outdated control concerns a room that is wrong already. */
  ghost predicate Harmless(s: State) {
    forall c :: c in Pending(s) && !Toward(c, s.desired) ==> c.room in Drift(s.desired, s.actual)
  }

  /** Sends planned controls until the i-th pending one travels. */
  lemma BringOut(s: State, i: nat) returns (run: seq<Step>)
    requires i < |Pending(s)|
    ensures ValidRun(s, run) && Quiet(run)
    ensures var e := After(s, run);
            e.desired == s.desired && e.actual == s.actual && i < |e.controls| && e.controls[i] == Pending(s)[i]
  {
    run := [];
    if i >= |s.controls| {
      run := SendMany(s, i - |s.controls| + 1);
    }
  }

  lemma GrowingRun(s: State) returns (run: seq<Step>)
    requires !Harmless(s)
    ensures ValidRun(s, run) && Quiet(run)
    ensures |Drift(s.desired, After(s, run).actual)| == |Drift(s.desired, s.actual)| + 1
  {
    var c :| c in Pending(s) && !Toward(c, s.desired) && c.room !in Drift(s.desired, s.actual);
    var i :| 0 <= i < |Pending(s)| && Pending(s)[i] == c;
    run := BringOut(s, i);
    Then(s, run, ApplyControl(i));
    run := run + [ApplyControl(i)];
    ApplyDrift(s.desired, s.actual, c);
  }

  /** While the desired set is fixed and the agent does not restart, no run makes more rooms
      wrong than there are now exactly when every outdated control concerns a room that is wrong
      already; and then no other room becomes wrong. */
  lemma {:induction false} DriftNeverGrowsIff(s: State)
    ensures Harmless(s) <==>
            forall run :: ValidRun(s, run) && Quiet(run) ==>
              |Drift(s.desired, After(s, run).actual)| <= |Drift(s.desired, s.actual)|
    ensures Harmless(s) <==>
            forall run :: ValidRun(s, run) && Quiet(run) ==>
              Drift(s.desired, After(s, run).actual) <= Drift(s.desired, s.actual)
  {
    var drift := Drift(s.desired, s.actual);
    if Harmless(s) {
      forall run | ValidRun(s, run) && Quiet(run)
        ensures Drift(s.desired, After(s, run).actual) <= drift
        ensures |Drift(s.desired, After(s, run).actual)| <= |drift|
      {
        ConfinedOverRun(s, run, drift);
        SubsetSize(Drift(s.desired, After(s, run).actual), drift);
      }
    } else {
      var run := GrowingRun(s);
      var grown := Drift(s.desired, After(s, run).actual);
      if grown <= drift {
        SubsetSize(grown, drift);
      }
    }
  }

  /** A converged agent stays converged in every quiet run exactly when no control still
      travelling or planned contradicts the desired set. */
  lemma StaysConvergedIff(s: State)
    requires s.actual == s.desired
    ensures Outdated(Pending(s), s.desired) == 0
            <==> forall run :: ValidRun(s, run) && Quiet(run) ==> After(s, run).actual == s.desired
  {
    OutdatedZero(Pending(s), s.desired);
    NoDrift(s.desired, s.actual);
    assert Outdated(Pending(s), s.desired) == 0 <==> Harmless(s);
    DriftNeverGrowsIff(s);
    forall run | ValidRun(s, run) && Quiet(run)
      ensures After(s, run).actual == s.desired <==>
              Drift(s.desired, After(s, run).actual) <= Drift(s.desired, s.actual)
    {
      NoDrift(s.desired, After(s, run).actual);
    }
  }

  // ---- convergence ---------------------------------------------------------

  /** The steps in which every planned control is sent and meets its outcome before the next is sent. */
  lemma {:induction false} PassSteps(s: State, net: seq<Outcome>) returns (run: seq<Step>)
    requires s.pass.Sending? && |s.pass.todo| <= |net|
    ensures ValidRun(s, run) && Quiet(run)
    ensures After(s, run) == s.(pass := s.pass.(todo := []), actual := Deliver(s.actual, s.pass.todo, net))
    decreases |s.pass.todo|
  {
    var todo := s.pass.todo;
    if todo == [] {
      run := [];
    } else {
      var sent := Next(s, Send);
      var n := |s.controls|;
      assert sent.controls[n] == todo[0];
      assert Remove(sent.controls, n) == s.controls;
      var step := if net[0] == Lost then LoseControl(n) else ApplyControl(n);
      var mid := Next(sent, step);
      var rest := PassSteps(mid, net[1..]);
      run := [Send, step] + rest;
      assert run[1..] == [step] + rest && run[1..][1..] == rest;
      assert ValidRun(sent, run[1..]) && After(sent, run[1..]) == After(mid, rest);
      DeliverFront(s.actual, todo, net);
    }
  }

  lemma {:induction false} DeliverFront(actual: set<Room>, plan: seq<Control>, net: seq<Outcome>)
    requires 0 < |plan| <= |net|
    ensures Deliver(actual, plan, net) ==
            Deliver(if net[0] == Lost then actual else Apply(actual, plan[0]), plan[1..], net[1..])
  {
    var n := |plan| - 1;
    if n == 0 {
      assert plan[..0] == [];
    } else {
      DeliverFront(actual, plan[..n], net);
      assert plan[..n][1..] == plan[1..][..n - 1];
    }
  }

  /** The pass that SyncAgent runs without interruption is one of the protocol's runs. */
  lemma {:induction false} PassIsARun(s: State, order: seq<Room>, net: seq<Outcome>) returns (run: seq<Step>)
    requires s.pass.Idle? && s.condition.IsReady() && Enumerates(order, s.desired)
    requires |Plan(order, s.cached, s.desired)| <= |net|
    ensures ValidRun(s, run) && Quiet(run)
    ensures After(s, run) == s.(
              actual := Deliver(s.actual, Plan(order, s.cached, s.desired), net),
              cached := Updated(s.cached, NeedAdd(order, s.cached), NeedDel(s.cached, s.desired)),
              condition := s.condition.(synced := true))
  {
    var started := Next(s, StartPass(order));
    var middle := PassSteps(started, net);
    var sent := After(started, middle);
    assert ValidRun(sent, [FinishPass]);
    assert After(sent, [FinishPass]) == After(Next(sent, FinishPass), []);
    RunConcat(started, middle, [FinishPass]);
    run := [StartPass(order)] + (middle + [FinishPass]);
    assert run[1..] == middle + [FinishPass];
  }

  /** From any state between passes, one report that arrives at once followed by one pass
      without losses makes the agent watch exactly the desired rooms. */
  lemma Converges(s: State, order: seq<Room>, report: seq<Room>) returns (run: seq<Step>)
    requires s.pass.Idle? && Enumerates(order, s.desired) && Enumerates(report, s.actual)
    ensures ValidRun(s, run) && Quiet(run)
    ensures After(s, run).actual == s.desired && Pending(After(s, run)) == Pending(s)
    ensures Elems(After(s, run).cached) == s.desired
  {
    var n := |s.reports|;
    var s1 := Next(s, PublishReport(report));
    assert s1.reports[n] == report;
    var s2 := Next(s1, ReceiveReport(n));
    var net := seq(|order| + |report|, _ => Answered);
    WithoutLength(order, Elems(report));
    WithoutLength(report, s.desired);
    FullPassConvergesIff(order, report, s.desired, s.actual, net);
    UpdatedReport(order, report, s.desired);
    var tail := PassIsARun(s2, order, net);
    run := [PublishReport(report), ReceiveReport(n)] + tail;
    assert run[1..] == [ReceiveReport(n)] + tail && run[1..][1..] == tail;
    assert ValidRun(s1, run[1..]) && After(s1, run[1..]) == After(s2, tail);
  }

  // ---- every interleaving of a pass ----------------------------------------

  /** The rooms whose controls a run loses. */
  ghost function LostIn(s: State, run: seq<Step>): set<Room>
    requires ValidRun(s, run)
    decreases |run|
  {
    if run == [] then {}
    else LostIn(Next(s, run[0]), run[1..]) + if run[0].LoseControl? then {s.controls[run[0].at].room} else {}
  }

  lemma TargetsRemove(a: seq<Control>, i: nat, b: seq<Control>)
    requires i < |a|
    ensures Targets(a + b) == Targets(Remove(a, i) + b) + {a[i].room}
  {
    var all, fewer := a + b, Remove(a, i) + b;
    forall c | c in all ensures c in fewer || c == a[i] {
      var j :| 0 <= j < |all| && all[j] == c;
      assert j < i ==> fewer[j] == c;
      assert j > i ==> fewer[j - 1] == c;
    }
    forall c | c in fewer ensures c in all {
      var j :| 0 <= j < |fewer| && fewer[j] == c;
      assert c == if j < i then all[j] else all[j + 1];
    }
    assert all[i] == a[i] && all[i] in all;
  }

  /** Wrong rooms for which no control is underway appear by losses only. */
  lemma CoveredStep(s: State, step: Step, lost: set<Room>)
    requires Enabled(s, step) && !Environment(step)
    requires Outdated(Pending(s), s.desired) == 0
    requires Drift(s.desired, s.actual) <= Targets(Pending(s)) + lost
    ensures var s' := Next(s, step);
            Drift(s'.desired, s'.actual) <=
            Targets(Pending(s')) + lost + if step.LoseControl? then {s.controls[step.at].room} else {}
  {
    var s' := Next(s, step);
    var todo := if s.pass.Sending? then s.pass.todo else [];
    match step {
      case ApplyControl(i) =>
        OutdatedZero(Pending(s), s.desired);
        assert s.controls[i] in Pending(s);
        ApplyDrift(s.desired, s.actual, s.controls[i]);
        TargetsRemove(s.controls, i, todo);
      case LoseControl(i) => TargetsRemove(s.controls, i, todo);
      case StartPass(order) =>
        assert forall c :: c in Pending(s) ==> c in Pending(s');
      case _ =>
    }
    if !(step.ApplyControl? || step.LoseControl? || step.StartPass?) {
      assert Pending(s') == Pending(s);
    }
  }

  lemma {:induction false} CoveredOverRun(s: State, run: seq<Step>, lost: set<Room>)
    requires ValidRun(s, run) && Quiet(run)
    requires Outdated(Pending(s), s.desired) == 0
    requires Drift(s.desired, s.actual) <= Targets(Pending(s)) + lost
    ensures var e := After(s, run);
            e.desired == s.desired && Drift(s.desired, e.actual) <= Targets(Pending(e)) + lost + LostIn(s, run)
    decreases |run|
  {
    if run == [] {
    } else {
      var step, s' := run[0], Next(s, run[0]);
      PotentialNeverGrows(s, step);
      CoveredStep(s, step, lost);
      assert forall step :: step in run[1..] ==> step in run;
      CoveredOverRun(s', run[1..], lost + if step.LoseControl? then {s.controls[step.at].room} else {});
    }
  }

  /** After a pass begins on an up-to-date report, and whatever then interleaves (late reports,
      info messages, further passes), the agent is wrong only on rooms
      whose control is still underway or was lost; so once nothing is underway and nothing was
      lost it watches exactly the desired rooms. */
  lemma EveryRunConverges(s: State, order: seq<Room>, run: seq<Step>)
    requires Enabled(s, StartPass(order)) && Enumerates(s.cached, s.actual)
    requires Outdated(Pending(s), s.desired) == 0
    requires ValidRun(Next(s, StartPass(order)), run) && Quiet(run)
    ensures var started := Next(s, StartPass(order));
            var e := After(started, run);
            && Drift(s.desired, e.actual) <= Targets(Pending(e)) + LostIn(started, run)
            && (Pending(e) == [] && LostIn(started, run) == {} ==> e.actual == s.desired)
  {
    var started := Next(s, StartPass(order));
    StartCovers(s, order);
    CoveredOverRun(started, run, {});
    var e := After(started, run);
    NoDrift(s.desired, e.actual);
    if Pending(e) == [] {
      assert Targets(Pending(e)) == {};
    }
  }

  lemma StartCovers(s: State, order: seq<Room>)
    requires Enabled(s, StartPass(order)) && Enumerates(s.cached, s.actual)
    requires Outdated(Pending(s), s.desired) == 0
    ensures var started := Next(s, StartPass(order));
            Outdated(Pending(started), s.desired) == 0 && Drift(s.desired, s.actual) <= Targets(Pending(started))
  {
    PotentialNeverGrows(s, StartPass(order));
    PlanIsToward(order, s.cached, s.desired);
    assert forall c :: c in Next(s, StartPass(order)).pass.todo ==> c in Pending(Next(s, StartPass(order)));
  }

  lemma NoDrift(desired: set<Room>, actual: set<Room>)
    ensures Drift(desired, actual) == {} <==> actual == desired
  {
    assert forall r :: r !in Drift(desired, actual) <==> (r in actual <==> r in desired);
  }

  // ---- runs that go wrong ----------------------------------------------------

  /** Nothing desired, an agent that has only announced itself. */
  const FRESH := State({}, [], Condition(false, false, false), Idle, [], [], {})

  /** The start of the runs below: room r is desired and the pass that adds it has sent its control. */
  lemma AddUnderway(r: Room) returns (run: seq<Step>)
    ensures ValidRun(FRESH, run)
    ensures After(FRESH, run) ==
            State({r}, [], Condition(true, true, false), Sending([], [r], []), [Add(r)], [], {})
  {
    run := [];
    Then(FRESH, run, Provide(r));
    run := run + [Provide(r)];
    Then(FRESH, run, PublishReport([]));
    run := run + [PublishReport([])];
    Then(FRESH, run, ReceiveReport(0));
    run := run + [ReceiveReport(0)];
    var ready := State({r}, [], Condition(true, true, false), Idle, [], [], {});
    assert After(FRESH, run) == ready;
    PlanForOne(r);
    Then(FRESH, run, StartPass([r]));
    run := run + [StartPass([r])];
    Then(FRESH, run, Send);
    run := run + [Send];
  }

  lemma PlanForOne(r: Room)
    ensures Enumerates([r], {r}) && NeedAdd([r], []) == [r] && NeedDel([], {r}) == []
    ensures Plan([r], [], {r}) == [Add(r)]
  {
    assert [r][..0] == [];
    assert Without([r], {}) == [r];
    assert Elems<Room>([]) == {};
  }

  /** Convergence is lost when a control requested for an older desired set arrives late: room r
      is provided and its add sent, r is revoked before the add arrives, and the agent, which
      agrees with the empty desired set, then gets it. */
  lemma LateControlBreaks(r: Room) returns (run: seq<Step>)
    ensures ValidRun(FRESH, run) && After(FRESH, run).actual == After(FRESH, run).desired == {}
    ensures Enabled(After(FRESH, run), ApplyControl(0))
    ensures Drift({}, Next(After(FRESH, run), ApplyControl(0)).actual) == {r}
  {
    run := AddUnderway(r);
    Then(FRESH, run, FinishPass);
    run := run + [FinishPass];
    Then(FRESH, run, Revoke(r));
    run := run + [Revoke(r)];
    assert After(FRESH, run).desired == {};
  }

  /** A pass whose control is applied and reported before the pass ends lists its room twice. */
  lemma ReportListsTwice(r: Room) returns (run: seq<Step>)
    ensures ValidRun(FRESH, run) && After(FRESH, run).cached == [r, r]
  {
    run := AddUnderway(r);
    Then(FRESH, run, ApplyControl(0));
    run := run + [ApplyControl(0)];
    assert After(FRESH, run).actual == {r};
    PlanForOne(r);
    Then(FRESH, run, PublishReport([r]));
    run := run + [PublishReport([r])];
    Then(FRESH, run, ReceiveReport(0));
    run := run + [ReceiveReport(0)];
    assert After(FRESH, run).cached == [r];
    Then(FRESH, run, FinishPass);
    run := run + [FinishPass];
    assert [r][..0] == [];
    assert Elems<Room>([]) == {} && Updated([r], [r], []) == [r] + [r];
  }

  /** A pass without losses over an outdated report does not converge: the agent restarts after
      its report, so the pass finds nothing to do while the agent has no room. */
  lemma OutdatedReportMisleads(r: Room) returns (run: seq<Step>)
    ensures ValidRun(FRESH, run)
    ensures var s := After(FRESH, run);
            && s.desired == {r} && s.cached == [r] && s.actual == {} && s.condition.IsReady() && s.pass.Idle?
            && Plan([r], s.cached, s.desired) == []
  {
    run := AddUnderway(r);
    Then(FRESH, run, ApplyControl(0));
    run := run + [ApplyControl(0)];
    Then(FRESH, run, FinishPass);
    run := run + [FinishPass];
    Then(FRESH, run, Restart);
    run := run + [Restart];
    assert [r][..0] == [];
    assert Elems<Room>([]) == {} && Elems([r]) == {r};
    assert Without([r], {r}) == [] && Updated([], [r], []) == [r];
  }
}
