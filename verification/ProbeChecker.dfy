/**
 The probe checker as interleaved steps: triggers, the launching goroutine of each round,
 the probe goroutines, scrapes and cancellation. Nothing in the steps forbids two rounds or
 too many probes; the invariant does.
 */
module ProbeChecker {
  import opened Base

  /** A configured host, by its place in the list of hosts. */
  type Host = nat

  /** How a dial ends: connected, timed out, or another error (refused, cancelled). */
  datatype Dial = Connected | TimedOut | OtherError

  /** A probe goroutine between its launch and wg.Done. */
  datatype Probe =
    | Dialing(host: Host)
    | Observed(host: Host, dial: Dial)   // duration recorded
    | Counted(host: Host, ok: bool)      // total incremented, window not yet
    | Finished                             // probeOnce returned, semaphore still held
    | Released                             // semaphore given back, wg.Done to come

  /** Where the launching goroutine of a round is. */
  datatype Stage =
    | NextTarget
    | Selecting(host: Host, addrs: nat)  // select on cancellation and semaphore
    | Acquired(host: Host, addrs: nat)   // semaphore taken
    | Added(host: Host, addrs: nat)      // wg.Add(1) done
    | Waiting                              // wg.Wait
    | Returned                             // runRound returned, flag still set

  datatype Round = Round(targets: seq<Host>, stage: Stage, sem: nat, wg: nat, probes: multiset<Probe>)

  /** A counter vector: how often each host was counted. */
  type Tally = multiset<Host>

  function Plus(t: Tally, host: Host, n: nat): Tally {
    t[host := t[host] + n]
  }

  datatype Ledger = Ledger(
    resolved: Tally,                       // addresses returned by the resolver
    skipped: Tally,                        // resolved but not launched because of cancellation
    durations: Tally,
    successTotal: Tally, failureTotal: Tally,
    windowSuccess: Tally, windowFailure: Tally,
    drainedSuccess: Tally, drainedFailure: Tally)

  datatype State = State(running: bool, cancelled: bool, rounds: seq<Round>, ledger: Ledger)

  datatype Step =
    | Trigger
    | Cancel
    | Scrape
    | Launcher(at: nat, act: Launch)
    | Prober(at: nat, probe: Probe, dial: Dial)

  datatype Launch =
    | Resolve(result: Option<nat>)         // None: lookup failed
    | NoMoreTargets
    | Acquire
    | SeeCancel
    | Add
    | Go
    | WaitOver
    | ClearFlag

  function NextStage(host: Host, addrs: nat): Stage {
    if addrs == 0 then NextTarget else Selecting(host, addrs)
  }

  ghost predicate LaunchEnabled(s: State, r: Round, maxConcurrency: nat, act: Launch) {
    match act
    case Resolve(_) => r.stage.NextTarget? && r.targets != []
    case NoMoreTargets => r.stage.NextTarget? && r.targets == []
    case Acquire => r.stage.Selecting? && r.sem < maxConcurrency
    case SeeCancel => r.stage.Selecting? && s.cancelled
    case Add => r.stage.Acquired?
    case Go => r.stage.Added? && r.stage.addrs > 0
    case WaitOver => r.stage.Waiting? && r.wg == 0
    case ClearFlag => r.stage.Returned?
  }

  ghost predicate Enabled(s: State, maxConcurrency: nat, step: Step) {
    match step
    case Launcher(i, act) => i < |s.rounds| && LaunchEnabled(s, s.rounds[i], maxConcurrency, act)
    case Prober(i, p, _) =>
      && i < |s.rounds| && p in s.rounds[i].probes
      && (p.Finished? ==> s.rounds[i].sem > 0) && (p.Released? ==> s.rounds[i].wg > 0)
    case _ => true
  }

  function AfterLaunch(r: Round, act: Launch): Round {
    match act
    case Resolve(result) =>
      if r.targets == [] then r
      else
        r.(targets := r.targets[1..],
           stage := if result == None then NextTarget else NextStage(r.targets[0], result.value))
    case NoMoreTargets => r.(stage := Waiting)
    case Acquire =>
      if r.stage.Selecting? then r.(sem := r.sem + 1, stage := Acquired(r.stage.host, r.stage.addrs)) else r
    case SeeCancel => r.(stage := Waiting)
    case Add => if r.stage.Acquired? then r.(wg := r.wg + 1, stage := Added(r.stage.host, r.stage.addrs)) else r
    case Go =>
      if r.stage.Added? && r.stage.addrs > 0
      then r.(probes := r.probes + multiset{Dialing(r.stage.host)}, stage := NextStage(r.stage.host, r.stage.addrs - 1))
      else r
    case WaitOver => r.(stage := Returned)
    case ClearFlag => r
  }

  function LaunchLedger(l: Ledger, r: Round, act: Launch): Ledger {
    match act
    case Resolve(Some(n)) => if r.targets == [] then l else l.(resolved := Plus(l.resolved, r.targets[0], n))
    case SeeCancel => if r.stage.Selecting? then l.(skipped := Plus(l.skipped, r.stage.host, r.stage.addrs)) else l
    case _ => l
  }

  /** probeOnce and the two deferred calls of the goroutine, one action at a time. */
  function Succ(p: Probe, dial: Dial): Option<Probe> {
    match p
    case Dialing(host) => Some(Observed(host, dial))
    case Observed(host, Connected) => Some(Counted(host, true))
    case Observed(host, TimedOut) => Some(Counted(host, false))
    case Observed(_, OtherError) => Some(Finished)
    case Counted(_, _) => Some(Finished)
    case Finished => Some(Released)
    case Released => None
  }

  function Replaced(probes: multiset<Probe>, p: Probe, next: Option<Probe>): multiset<Probe> {
    match next
    case None => probes - multiset{p}
    case Some(q) => probes - multiset{p} + multiset{q}
  }

  function AfterProbe(r: Round, p: Probe, dial: Dial): Round {
    r.(probes := Replaced(r.probes, p, Succ(p, dial)),
       sem := if p.Finished? && r.sem > 0 then r.sem - 1 else r.sem,
       wg := if p.Released? && r.wg > 0 then r.wg - 1 else r.wg)
  }

  function ProbeLedger(l: Ledger, p: Probe): Ledger {
    match p
    case Dialing(host) => l.(durations := Plus(l.durations, host, 1))
    case Observed(host, Connected) => l.(successTotal := Plus(l.successTotal, host, 1))
    case Observed(host, TimedOut) => l.(failureTotal := Plus(l.failureTotal, host, 1))
    case Counted(host, true) => l.(windowSuccess := Plus(l.windowSuccess, host, 1))
    case Counted(host, false) => l.(windowFailure := Plus(l.windowFailure, host, 1))
    case _ => l
  }

  ghost function Next(s: State, maxConcurrency: nat, targets: seq<Host>, step: Step): State
    requires Enabled(s, maxConcurrency, step)
  {
    match step
    case Trigger =>
      if s.running then s
      else s.(running := true, rounds := s.rounds + [Round(targets, NextTarget, 0, 0, multiset{})])
    case Cancel => s.(cancelled := true)
    case Scrape =>
      var l := s.ledger;
      s.(ledger := l.(drainedSuccess := l.drainedSuccess + l.windowSuccess,
                      drainedFailure := l.drainedFailure + l.windowFailure,
                      windowSuccess := multiset{}, windowFailure := multiset{}))
    case Launcher(i, ClearFlag) => s.(running := false, rounds := s.rounds[..i] + s.rounds[i + 1..])
    case Launcher(i, act) =>
      s.(rounds := s.rounds[i := AfterLaunch(s.rounds[i], act)], ledger := LaunchLedger(s.ledger, s.rounds[i], act))
    case Prober(i, p, dial) =>
      s.(rounds := s.rounds[i := AfterProbe(s.rounds[i], p, dial)], ledger := ProbeLedger(s.ledger, p))
  }

  const IDLE := State(false, false, [],
    Ledger(multiset{}, multiset{}, multiset{}, multiset{}, multiset{}, multiset{}, multiset{}, multiset{}, multiset{}))

  ghost predicate ValidRun(s: State, maxConcurrency: nat, targets: seq<Host>, run: seq<Step>)
    decreases |run|
  {
    run == [] ||
    (Enabled(s, maxConcurrency, run[0]) &&
     ValidRun(Next(s, maxConcurrency, targets, run[0]), maxConcurrency, targets, run[1..]))
  }

  ghost function After(s: State, maxConcurrency: nat, targets: seq<Host>, run: seq<Step>): State
    requires ValidRun(s, maxConcurrency, targets, run)
    decreases |run|
  {
    if run == [] then s else After(Next(s, maxConcurrency, targets, run[0]), maxConcurrency, targets, run[1..])
  }

  // ---- safety --------------------------------------------------------------------

  ghost predicate RoundSafe(r: Round, maxConcurrency: nat) {
    && r.sem <= maxConcurrency
    && r.sem + r.probes[Released] == |r.probes| + (if r.stage.Acquired? || r.stage.Added? then 1 else 0)
    && r.wg == |r.probes| + (if r.stage.Added? then 1 else 0)
    && (r.stage.Returned? ==> |r.probes| == 0)
    && (r.stage.Selecting? || r.stage.Acquired? || r.stage.Added? ==> r.stage.addrs > 0)
  }

  ghost predicate Safe(s: State, maxConcurrency: nat) {
    && |s.rounds| == (if s.running then 1 else 0)
    && forall r :: r in s.rounds ==> RoundSafe(r, maxConcurrency)
  }

  /** Probes that are inside probeOnce. */
  ghost function Busy(r: Round): int {
    |r.probes| - r.probes[Finished] - r.probes[Released]
  }

  ghost function InFlight(rounds: seq<Round>): int {
    if rounds == [] then 0 else Busy(rounds[0]) + InFlight(rounds[1..])
  }

  /** What replacing one goroutine's state does to the number of goroutines in state x. */
  lemma ReplacedCount(probes: multiset<Probe>, p: Probe, next: Option<Probe>, x: Probe)
    requires p in probes
    ensures Replaced(probes, p, next)[x] == probes[x] - (if p == x then 1 else 0) + (if next == Some(x) then 1 else 0)
    ensures |Replaced(probes, p, next)| == |probes| - (if next == None then 1 else 0)
  {
  }

  lemma TwoCounts<T>(m: multiset<T>, a: T, b: T)
    requires a != b
    ensures m[a] + m[b] <= |m|
  {
    var rest := m[a := 0];
    assert m == rest + multiset{a}[a := m[a]];
    assert |multiset{a}[a := m[a]]| == m[a];
    assert rest[b] == m[b] && rest[b := 0] + multiset{b}[b := m[b]] == rest;
    assert |multiset{b}[b := m[b]]| == m[b];
  }

  lemma ProbeKeepsRound(r: Round, maxConcurrency: nat, p: Probe, dial: Dial)
    requires RoundSafe(r, maxConcurrency) && p in r.probes
    ensures RoundSafe(AfterProbe(r, p, dial), maxConcurrency)
  {
    ReplacedCount(r.probes, p, Succ(p, dial), Released);
    if p.Finished? {
      TwoCounts(r.probes, Finished, Released);
    }
    SameCounts(r, AfterProbe(r, p, dial), p, dial, maxConcurrency);
  }

  lemma SameCounts(r: Round, r': Round, p: Probe, dial: Dial, maxConcurrency: nat)
    requires RoundSafe(r, maxConcurrency) && r.probes[p] > 0
    requires p.Finished? ==> r.probes[Finished] + r.probes[Released] <= |r.probes|
    requires |r.probes| > 0
    requires r' == r.(probes := r'.probes, sem := if p.Finished? && r.sem > 0 then r.sem - 1 else r.sem,
                      wg := if p.Released? && r.wg > 0 then r.wg - 1 else r.wg)
    requires r'.probes[Released] ==
             r.probes[Released] - (if p == Released then 1 else 0) + (if Succ(p, dial) == Some(Released) then 1 else 0)
    requires |r'.probes| == |r.probes| - (if Succ(p, dial) == None then 1 else 0)
    ensures RoundSafe(r', maxConcurrency)
  {
  }

  lemma LaunchKeepsRound(s: State, r: Round, maxConcurrency: nat, act: Launch)
    requires RoundSafe(r, maxConcurrency) && LaunchEnabled(s, r, maxConcurrency, act)
    ensures RoundSafe(AfterLaunch(r, act), maxConcurrency)
  {
  }

  lemma LauncherKeepsSafe(s: State, maxConcurrency: nat, targets: seq<Host>, i: nat, act: Launch)
    requires Safe(s, maxConcurrency) && Enabled(s, maxConcurrency, Launcher(i, act))
    ensures Safe(Next(s, maxConcurrency, targets, Launcher(i, act)), maxConcurrency)
  {
    var r := s.rounds[i];
    assert s.rounds == [r];
    LaunchKeepsRound(s, r, maxConcurrency, act);
    assert Next(s, maxConcurrency, targets, Launcher(i, act)).rounds ==
           if act.ClearFlag? then [] else [AfterLaunch(r, act)];
  }

  lemma ProberKeepsSafe(s: State, maxConcurrency: nat, targets: seq<Host>, i: nat, p: Probe, dial: Dial)
    requires Safe(s, maxConcurrency) && Enabled(s, maxConcurrency, Prober(i, p, dial))
    ensures Safe(Next(s, maxConcurrency, targets, Prober(i, p, dial)), maxConcurrency)
  {
    var r := s.rounds[i];
    assert s.rounds == [r];
    ProbeKeepsRound(r, maxConcurrency, p, dial);
    assert Next(s, maxConcurrency, targets, Prober(i, p, dial)).rounds == [AfterProbe(r, p, dial)];
  }

  lemma StepKeepsSafe(s: State, maxConcurrency: nat, targets: seq<Host>, step: Step)
    requires Safe(s, maxConcurrency) && Enabled(s, maxConcurrency, step)
    ensures Safe(Next(s, maxConcurrency, targets, step), maxConcurrency)
  {
    match step {
      case Launcher(i, act) => LauncherKeepsSafe(s, maxConcurrency, targets, i, act);
      case Prober(i, p, dial) => ProberKeepsSafe(s, maxConcurrency, targets, i, p, dial);
      case _ =>
    }
  }

  lemma {:induction false} RunKeepsSafe(s: State, maxConcurrency: nat, targets: seq<Host>, run: seq<Step>)
    requires Safe(s, maxConcurrency) && ValidRun(s, maxConcurrency, targets, run)
    ensures Safe(After(s, maxConcurrency, targets, run), maxConcurrency)
    decreases |run|
  {
    if run == [] {
    } else {
      StepKeepsSafe(s, maxConcurrency, targets, run[0]);
      RunKeepsSafe(Next(s, maxConcurrency, targets, run[0]), maxConcurrency, targets, run[1..]);
    }
  }

  /** In every interleaving at most one round is active, probes in flight never exceed the
      limit, and with the flag down nothing is in flight. */
  lemma CheckerSafety(maxConcurrency: nat, targets: seq<Host>, run: seq<Step>)
    requires ValidRun(IDLE, maxConcurrency, targets, run)
    ensures var s := After(IDLE, maxConcurrency, targets, run);
            && |s.rounds| <= 1
            && 0 <= InFlight(s.rounds) <= maxConcurrency
            && (!s.running ==> s.rounds == [])
  {
    RunKeepsSafe(IDLE, maxConcurrency, targets, run);
    var s := After(IDLE, maxConcurrency, targets, run);
    if s.rounds != [] {
      var r := s.rounds[0];
      assert RoundSafe(r, maxConcurrency);
      TwoCounts(r.probes, Finished, Released);
      assert s.rounds[1..] == [];
      assert InFlight(s.rounds) == Busy(r) + InFlight([]);
    }
  }

  /** A probe that is done never waits for its semaphore slot to be there, and wg.Done never
      takes the wait group below zero. */
  lemma ProbesNeverBlock(maxConcurrency: nat, targets: seq<Host>, run: seq<Step>, p: Probe)
    requires ValidRun(IDLE, maxConcurrency, targets, run)
    ensures forall r :: r in After(IDLE, maxConcurrency, targets, run).rounds && p in r.probes ==>
              r.wg > 0 && (p.Finished? ==> r.sem > 0)
  {
    RunKeepsSafe(IDLE, maxConcurrency, targets, run);
    forall r | r in After(IDLE, maxConcurrency, targets, run).rounds && p in r.probes
      ensures r.wg > 0 && (p.Finished? ==> r.sem > 0)
    {
      TwoCounts(r.probes, Finished, Released);
      TwoCounts(r.probes, p, if p == Released then Finished else Released);
    }
  }

  // ---- progress --------------------------------------------------------------------

  /** A run without cancellation in which lookups answer as resolve says. */
  ghost predicate Uncancelled(s: State, maxConcurrency: nat, targets: seq<Host>, resolve: Host -> Option<nat>,
      run: seq<Step>)
    decreases |run|
  {
    run == [] ||
    (&& Enabled(s, maxConcurrency, run[0]) && !run[0].Cancel? && StepAnswers(s, resolve, run[0])
     && Uncancelled(Next(s, maxConcurrency, targets, run[0]), maxConcurrency, targets, resolve, run[1..]))
  }

  ghost predicate StepAnswers(s: State, resolve: Host -> Option<nat>, step: Step) {
    step.Launcher? ==>
      && !step.act.SeeCancel?
      && (step.act.Resolve? && step.at < |s.rounds| && s.rounds[step.at].targets != [] ==>
            step.act.result == resolve(s.rounds[step.at].targets[0]))
  }

  /** The run takes s to e without cancellation. */
  ghost predicate Leads(s: State, maxConcurrency: nat, targets: seq<Host>, resolve: Host -> Option<nat>,
      run: seq<Step>, e: State)
  {
    && Uncancelled(s, maxConcurrency, targets, resolve, run)
    && ValidRun(s, maxConcurrency, targets, run) && After(s, maxConcurrency, targets, run) == e
  }

  lemma {:induction false} LeadsOn(s: State, maxConcurrency: nat, targets: seq<Host>, resolve: Host -> Option<nat>,
                                   a: seq<Step>, m: State, b: seq<Step>, e: State)
    requires Leads(s, maxConcurrency, targets, resolve, a, m) && Leads(m, maxConcurrency, targets, resolve, b, e)
    ensures Leads(s, maxConcurrency, targets, resolve, a + b, e)
    decreases |a|
  {
    if a == [] {
      assert a + b == b;
    } else {
      assert (a + b)[1..] == a[1..] + b;
      LeadsOn(Next(s, maxConcurrency, targets, a[0]), maxConcurrency, targets, resolve, a[1..], m, b, e);
    }
  }

  lemma OneStep(s: State, maxConcurrency: nat, targets: seq<Host>, resolve: Host -> Option<nat>, step: Step)
    requires Enabled(s, maxConcurrency, step) && !step.Cancel? && StepAnswers(s, resolve, step)
    ensures Leads(s, maxConcurrency, targets, resolve, [step], Next(s, maxConcurrency, targets, step))
  {
    var e := Next(s, maxConcurrency, targets, step);
    assert Leads(e, maxConcurrency, targets, resolve, [], e);
    assert [step][1..] == [];
  }

  function StepsLeft(p: Probe): nat {
    match p
    case Dialing(_) => 4
    case Observed(_, _) => 3
    case Counted(_, _) => 2
    case Finished => 1
    case Released => 0
  }

  /** One round, at the same place of its loop, with so many probes. */
  ghost predicate Stands(s: State, targets: seq<Host>, stage: Stage, probes: nat) {
    |s.rounds| == 1 && s.rounds[0].targets == targets && s.rounds[0].stage == stage && |s.rounds[0].probes| == probes
  }

  lemma ProbeStep(s: State, maxConcurrency: nat, targets: seq<Host>, p: Probe)
    requires Safe(s, maxConcurrency) && s.running && p in s.rounds[0].probes
    ensures Enabled(s, maxConcurrency, Prober(0, p, Connected))
    ensures var e, r := Next(s, maxConcurrency, targets, Prober(0, p, Connected)), s.rounds[0];
            var q := Succ(p, Connected);
            && Safe(e, maxConcurrency) && e.running
            && Stands(e, r.targets, r.stage, if q == None then |r.probes| - 1 else |r.probes|)
            && (q != None ==> q.value in e.rounds[0].probes)
  {
    var r := s.rounds[0];
    assert RoundSafe(r, maxConcurrency);
    TwoCounts(r.probes, p, if p == Released then Finished else Released);
    StepKeepsSafe(s, maxConcurrency, targets, Prober(0, p, Connected));
    ReplacedCount(r.probes, p, Succ(p, Connected), p);
  }

  /** A probe can run to its end. */
  lemma {:induction false} FinishProbe(s: State, maxConcurrency: nat, targets: seq<Host>,
      resolve: Host -> Option<nat>, p: Probe)
    returns (run: seq<Step>, e: State)
    requires Safe(s, maxConcurrency) && s.running && p in s.rounds[0].probes
    ensures Leads(s, maxConcurrency, targets, resolve, run, e) && Safe(e, maxConcurrency) && e.running
    ensures Stands(e, s.rounds[0].targets, s.rounds[0].stage, |s.rounds[0].probes| - 1)
    decreases StepsLeft(p)
  {
    var step := Prober(0, p, Connected);
    ProbeStep(s, maxConcurrency, targets, p);
    OneStep(s, maxConcurrency, targets, resolve, step);
    run, e := [step], Next(s, maxConcurrency, targets, step);
    if Succ(p, Connected) != None {
      var mid := e;
      var rest;
      rest, e := FinishProbe(mid, maxConcurrency, targets, resolve, Succ(p, Connected).value);
      LeadsOn(s, maxConcurrency, targets, resolve, run, mid, rest, e);
      run := run + rest;
    }
  }

  lemma {:induction false} FinishProbes(s: State, maxConcurrency: nat, targets: seq<Host>, resolve: Host -> Option<nat>)
    returns (run: seq<Step>, e: State)
    requires Safe(s, maxConcurrency) && s.running
    ensures Leads(s, maxConcurrency, targets, resolve, run, e) && Safe(e, maxConcurrency) && e.running
    ensures Stands(e, s.rounds[0].targets, s.rounds[0].stage, 0)
    decreases |s.rounds[0].probes|
  {
    if |s.rounds[0].probes| == 0 {
      run, e := [], s;
    } else {
      var p :| p in s.rounds[0].probes;
      var first, mid := FinishProbe(s, maxConcurrency, targets, resolve, p);
      var rest;
      rest, e := FinishProbes(mid, maxConcurrency, targets, resolve);
      LeadsOn(s, maxConcurrency, targets, resolve, first, mid, rest, e);
      run := first + rest;
    }
  }

  /** What the launching goroutine does next when it does not see cancellation. */
  function NextAct(r: Round, resolve: Host -> Option<nat>): Launch {
    match r.stage
    case NextTarget => if r.targets == [] then NoMoreTargets else Resolve(resolve(r.targets[0]))
    case Selecting(_, _) => Acquire
    case Acquired(_, _) => Add
    case Added(_, _) => Go
    case Waiting => WaitOver
    case Returned => ClearFlag
  }

  function AddrsLeft(stage: Stage): nat {
    match stage
    case Selecting(_, n) => n
    case Acquired(_, n) => n
    case Added(_, n) => n
    case _ => 0
  }

  function StagesLeft(stage: Stage): nat {
    match stage
    case Selecting(_, _) => 5
    case Acquired(_, _) => 4
    case Added(_, _) => 3
    case NextTarget => 2
    case Waiting => 1
    case Returned => 0
  }

  lemma LaunchOn(s: State, maxConcurrency: nat, resolve: Host -> Option<nat>)
    requires Safe(s, maxConcurrency) && s.running && maxConcurrency > 0 && |s.rounds[0].probes| == 0
    ensures LaunchEnabled(s, s.rounds[0], maxConcurrency, NextAct(s.rounds[0], resolve))
    ensures var r, act := s.rounds[0], NextAct(s.rounds[0], resolve);
            var r' := AfterLaunch(r, act);
            act.ClearFlag? || |r'.targets| < |r.targets| ||
            (r'.targets == r.targets &&
             (AddrsLeft(r'.stage) < AddrsLeft(r.stage) ||
              (AddrsLeft(r'.stage) == AddrsLeft(r.stage) && StagesLeft(r'.stage) < StagesLeft(r.stage))))
  {
    var r := s.rounds[0];
    assert RoundSafe(r, maxConcurrency);
    EmptyCounts(r.probes, Released);
  }

  lemma {:induction false} LowerFlag(s: State, maxConcurrency: nat, targets: seq<Host>, resolve: Host -> Option<nat>)
    returns (run: seq<Step>, e: State)
    requires Safe(s, maxConcurrency) && s.running && maxConcurrency > 0
    ensures Leads(s, maxConcurrency, targets, resolve, run, e) && !e.running
    decreases |s.rounds[0].targets|, AddrsLeft(s.rounds[0].stage), StagesLeft(s.rounds[0].stage)
  {
    var first, mid := FinishProbes(s, maxConcurrency, targets, resolve);
    LaunchOn(mid, maxConcurrency, resolve);
    var act := NextAct(mid.rounds[0], resolve);
    var step := Launcher(0, act);
    var next := Next(mid, maxConcurrency, targets, step);
    OneStep(mid, maxConcurrency, targets, resolve, step);
    StepKeepsSafe(mid, maxConcurrency, targets, step);
    LeadsOn(s, maxConcurrency, targets, resolve, first, mid, [step], next);
    run, e := first + [step], next;
    if !act.ClearFlag? {
      var rest;
      rest, e := LowerFlag(next, maxConcurrency, targets, resolve);
      LeadsOn(s, maxConcurrency, targets, resolve, run, next, rest, e);
      run := run + rest;
    }
  }

  /** With a positive limit a round can always come to its end: from every reachable state with
      the flag up, and whatever the lookups answer, some continuation without cancellation lowers
      it. */
  lemma {:induction false} RoundCanEnd(maxConcurrency: nat, targets: seq<Host>, resolve: Host -> Option<nat>,
      run: seq<Step>)
    returns (more: seq<Step>)
    requires maxConcurrency > 0 && ValidRun(IDLE, maxConcurrency, targets, run)
    ensures var s := After(IDLE, maxConcurrency, targets, run);
            && Uncancelled(s, maxConcurrency, targets, resolve, more)
            && ValidRun(s, maxConcurrency, targets, more)
            && !After(s, maxConcurrency, targets, more).running
  {
    var s := After(IDLE, maxConcurrency, targets, run);
    RunKeepsSafe(IDLE, maxConcurrency, targets, run);
    more := [];
    if s.running {
      var e;
      more, e := LowerFlag(s, maxConcurrency, targets, resolve);
    }
  }

  /** A round that waits for its semaphore. */
  ghost predicate Waits(s: State) {
    s.running && !s.cancelled && |s.rounds| == 1 && s.rounds[0].stage.Selecting?
  }

  lemma ZeroLimitStep(s: State, targets: seq<Host>, step: Step)
    requires Waits(s) && s.rounds[0].sem == 0 && Enabled(s, 0, step) && !step.Cancel?
    ensures Waits(Next(s, 0, targets, step)) && Next(s, 0, targets, step).rounds[0].sem == 0
  {
  }

  /** With limit zero a round that has an address to probe waits until it is cancelled: nobody
      can take the semaphore. */
  lemma {:induction false} ZeroLimitBlocks(s: State, targets: seq<Host>, run: seq<Step>)
    requires Waits(s) && s.rounds[0].sem == 0
    requires ValidRun(s, 0, targets, run) && forall step :: step in run ==> !step.Cancel?
    ensures Waits(After(s, 0, targets, run))
    decreases |run|
  {
    if run == [] {
    } else {
      ZeroLimitStep(s, targets, run[0]);
      assert forall step :: step in run[1..] ==> step in run;
      ZeroLimitBlocks(Next(s, 0, targets, run[0]), targets, run[1..]);
    }
  }

  // ---- conservation ------------------------------------------------------------------

  /** Addresses of a host that are resolved but neither dialled nor given up yet. */
  ghost function Outstanding(r: Round, host: Host): nat {
    r.probes[Dialing(host)] +
    match r.stage
    case Selecting(h, addrs) => if h == host then addrs else 0
    case Acquired(h, addrs) => if h == host then addrs else 0
    case Added(h, addrs) => if h == host then addrs else 0
    case _ => 0
  }

  ghost function OutstandingIn(rounds: seq<Round>, host: Host): nat {
    if rounds == [] then 0 else Outstanding(rounds[0], host) + OutstandingIn(rounds[1..], host)
  }

  /** Probes whose total is incremented but not yet their window. */
  ghost function Between(rounds: seq<Round>, host: Host, ok: bool): nat {
    if rounds == [] then 0 else rounds[0].probes[Counted(host, ok)] + Between(rounds[1..], host, ok)
  }

  ghost predicate Balanced(s: State, host: Host) {
    var l := s.ledger;
    && l.resolved[host] == l.durations[host] + l.skipped[host] + OutstandingIn(s.rounds, host)
    && l.successTotal[host] == l.drainedSuccess[host] + l.windowSuccess[host] + Between(s.rounds, host, true)
    && l.failureTotal[host] == l.drainedFailure[host] + l.windowFailure[host] + Between(s.rounds, host, false)
    && (!s.cancelled ==> l.skipped[host] == 0)
  }

  lemma OneRound(r: Round, host: Host)
    ensures OutstandingIn([r], host) == Outstanding(r, host)
    ensures Between([r], host, true) == r.probes[Counted(host, true)]
    ensures Between([r], host, false) == r.probes[Counted(host, false)]
  {
    assert [r][1..] == [];
  }

  /** resolved - durations - skipped - outstanding, which no step changes. */
  ghost function Slack(l: Ledger, r: Round, host: Host): int {
    l.resolved[host] - l.durations[host] - l.skipped[host] - Outstanding(r, host)
  }

  lemma LaunchSlack(s: State, r: Round, maxConcurrency: nat, act: Launch, host: Host)
    requires LaunchEnabled(s, r, maxConcurrency, act) && !act.ClearFlag?
    ensures Slack(LaunchLedger(s.ledger, r, act), AfterLaunch(r, act), host) == Slack(s.ledger, r, host)
  {
    if act.Go? {
      var p := Dialing(r.stage.host);
      assert (r.probes + multiset{p})[Dialing(host)] == r.probes[Dialing(host)] + if r.stage.host == host then 1 else 0;
    }
  }

  lemma LaunchRest(s: State, r: Round, maxConcurrency: nat, act: Launch, x: Probe)
    requires LaunchEnabled(s, r, maxConcurrency, act) && !x.Dialing?
    ensures AfterLaunch(r, act).probes[x] == r.probes[x]
    ensures var l := LaunchLedger(s.ledger, r, act);
            l == s.ledger.(resolved := l.resolved, skipped := l.skipped) &&
                (!act.SeeCancel? ==> l.skipped == s.ledger.skipped)
  {
  }

  /** r' differs from r as one action of probe p makes it differ. */
  ghost predicate Advanced(r: Round, r': Round, p: Probe, dial: Dial, x: Probe) {
    && r'.stage == r.stage
    && r'.probes[x] + (if p == x then 1 else 0) == r.probes[x] + (if Succ(p, dial) == Some(x) then 1 else 0)
  }

  lemma ProbeSlack(l: Ledger, r: Round, r': Round, p: Probe, dial: Dial, host: Host)
    requires Advanced(r, r', p, dial, Dialing(host))
    ensures Slack(ProbeLedger(l, p), r', host) == Slack(l, r, host)
  {
  }

  lemma ProbeTotals(l: Ledger, r: Round, r': Round, p: Probe, dial: Dial, host: Host)
    requires Advanced(r, r', p, dial, Counted(host, true)) && Advanced(r, r', p, dial, Counted(host, false))
    ensures var l' := ProbeLedger(l, p);
            && l'.successTotal[host] + l.windowSuccess[host] + r.probes[Counted(host, true)] ==
               l.successTotal[host] + l'.windowSuccess[host] + r'.probes[Counted(host, true)]
            && l'.failureTotal[host] + l.windowFailure[host] + r.probes[Counted(host, false)] ==
               l.failureTotal[host] + l'.windowFailure[host] + r'.probes[Counted(host, false)]
            && l'.skipped == l.skipped && l'.drainedSuccess == l.drainedSuccess && l'.drainedFailure == l.drainedFailure
  {
  }

  lemma LaunchBalanced(s: State, maxConcurrency: nat, targets: seq<Host>, i: nat, act: Launch, host: Host)
    requires Safe(s, maxConcurrency) && Enabled(s, maxConcurrency, Launcher(i, act)) && Balanced(s, host)
    ensures Balanced(Next(s, maxConcurrency, targets, Launcher(i, act)), host)
  {
    var s', r := Next(s, maxConcurrency, targets, Launcher(i, act)), s.rounds[i];
    assert s.rounds == [r];
    OneRound(r, host);
    if act.ClearFlag? {
      assert RoundSafe(r, maxConcurrency);
      EmptyCounts(r.probes, Dialing(host));
      EmptyCounts(r.probes, Counted(host, true));
      EmptyCounts(r.probes, Counted(host, false));
      assert s'.rounds == [];
    } else {
      LaunchSlack(s, r, maxConcurrency, act, host);
      LaunchRest(s, r, maxConcurrency, act, Counted(host, true));
      LaunchRest(s, r, maxConcurrency, act, Counted(host, false));
      OneRound(AfterLaunch(r, act), host);
      assert s'.rounds == [AfterLaunch(r, act)];
    }
  }

  lemma ProbeBalanced(s: State, maxConcurrency: nat, targets: seq<Host>, i: nat, p: Probe, dial: Dial, host: Host)
    requires Safe(s, maxConcurrency) && Enabled(s, maxConcurrency, Prober(i, p, dial)) && Balanced(s, host)
    ensures Balanced(Next(s, maxConcurrency, targets, Prober(i, p, dial)), host)
  {
    var s', r := Next(s, maxConcurrency, targets, Prober(i, p, dial)), s.rounds[i];
    var r' := AfterProbe(r, p, dial);
    assert s.rounds == [r];
    OneRound(r, host);
    ReplacedCount(r.probes, p, Succ(p, dial), Dialing(host));
    ReplacedCount(r.probes, p, Succ(p, dial), Counted(host, true));
    ReplacedCount(r.probes, p, Succ(p, dial), Counted(host, false));
    ProbeSlack(s.ledger, r, r', p, dial, host);
    ProbeTotals(s.ledger, r, r', p, dial, host);
    OneRound(r', host);
    assert s'.rounds == [r'];
  }

  lemma StepBalanced(s: State, maxConcurrency: nat, targets: seq<Host>, step: Step, host: Host)
    requires Safe(s, maxConcurrency) && Enabled(s, maxConcurrency, step) && Balanced(s, host)
    ensures Balanced(Next(s, maxConcurrency, targets, step), host)
  {
    match step {
      case Trigger => OneRound(Round(targets, NextTarget, 0, 0, multiset{}), host);
      case Launcher(i, act) => LaunchBalanced(s, maxConcurrency, targets, i, act, host);
      case Prober(i, p, dial) => ProbeBalanced(s, maxConcurrency, targets, i, p, dial, host);
      case _ =>
    }
  }

  lemma EmptyCounts<T>(m: multiset<T>, x: T)
    requires |m| == 0
    ensures m[x] == 0
  {
  }

  lemma {:induction false} RunBalanced(s: State, maxConcurrency: nat, targets: seq<Host>, run: seq<Step>, host: Host)
    requires Safe(s, maxConcurrency) && Balanced(s, host) && ValidRun(s, maxConcurrency, targets, run)
    ensures Balanced(After(s, maxConcurrency, targets, run), host)
    decreases |run|
  {
    if run == [] {
    } else {
      StepKeepsSafe(s, maxConcurrency, targets, run[0]);
      StepBalanced(s, maxConcurrency, targets, run[0], host);
      RunBalanced(Next(s, maxConcurrency, targets, run[0]), maxConcurrency, targets, run[1..], host);
    }
  }

  /** Between rounds every resolved address of a host has been dialled and its duration
      observed once, or was given up on cancellation; without cancellation all were dialled. */
  lemma DurationsConserved(maxConcurrency: nat, targets: seq<Host>, run: seq<Step>, host: Host)
    requires ValidRun(IDLE, maxConcurrency, targets, run)
    ensures var s := After(IDLE, maxConcurrency, targets, run);
            !s.running ==>
              && s.ledger.resolved[host] == s.ledger.durations[host] + s.ledger.skipped[host]
              && (!s.cancelled ==> s.ledger.resolved[host] == s.ledger.durations[host])
  {
    RunBalanced(IDLE, maxConcurrency, targets, run, host);
    CheckerSafety(maxConcurrency, targets, run);
  }

  /** At all times the success counter is what scrapes have drained, plus the current window,
      plus the calls between the two increments; the failure counter likewise. */
  lemma CountersConserved(maxConcurrency: nat, targets: seq<Host>, run: seq<Step>, host: Host)
    requires ValidRun(IDLE, maxConcurrency, targets, run)
    ensures var s := After(IDLE, maxConcurrency, targets, run);
            var l := s.ledger;
            && l.successTotal[host] ==
               l.drainedSuccess[host] + l.windowSuccess[host] + Between(s.rounds, host, true)
            && l.failureTotal[host] ==
               l.drainedFailure[host] + l.windowFailure[host] + Between(s.rounds, host, false)
  {
    RunBalanced(IDLE, maxConcurrency, targets, run, host);
  }

  // ---- what the run itself says ------------------------------------------------------

  function EndsDial(step: Step, host: Host, dial: Dial): nat {
    if step.Prober? && step.probe == Dialing(host) && step.dial == dial then 1 else 0
  }

  /** How often a run ended the dial of a host in a way. */
  function Dials(run: seq<Step>, host: Host, dial: Dial): nat {
    if run == [] then 0 else EndsDial(run[0], host, dial) + Dials(run[1..], host, dial)
  }

  /** Probes whose dial has ended in a way and is not counted yet. */
  ghost function Uncounted(rounds: seq<Round>, host: Host, dial: Dial): nat {
    if rounds == [] then 0 else rounds[0].probes[Observed(host, dial)] + Uncounted(rounds[1..], host, dial)
  }

  /** What one step adds to the dials seen so far. */
  ghost predicate Adds(s: State, s': State, host: Host, connected: nat, timedOut: nat, other: nat) {
    && s'.ledger.successTotal[host] + Uncounted(s'.rounds, host, Connected) ==
       s.ledger.successTotal[host] + Uncounted(s.rounds, host, Connected) + connected
    && s'.ledger.failureTotal[host] + Uncounted(s'.rounds, host, TimedOut) ==
       s.ledger.failureTotal[host] + Uncounted(s.rounds, host, TimedOut) + timedOut
    && s'.ledger.durations[host] == s.ledger.durations[host] + connected + timedOut + other
  }

  lemma OneUncounted(r: Round, host: Host, dial: Dial)
    ensures Uncounted([r], host, dial) == r.probes[Observed(host, dial)]
  {
    assert [r][1..] == [];
  }

  lemma ProbeDials(l: Ledger, r: Round, p: Probe, dial: Dial, host: Host)
    requires p in r.probes
    ensures var r', l' := AfterProbe(r, p, dial), ProbeLedger(l, p);
            var ended := p == Dialing(host);
            && l'.successTotal[host] + r'.probes[Observed(host, Connected)] ==
               l.successTotal[host] + r.probes[Observed(host, Connected)] +
               (if ended && dial == Connected then 1 else 0)
            && l'.failureTotal[host] + r'.probes[Observed(host, TimedOut)] ==
               l.failureTotal[host] + r.probes[Observed(host, TimedOut)] + (if ended && dial == TimedOut then 1 else 0)
            && l'.durations[host] == l.durations[host] + (if ended then 1 else 0)
  {
    ReplacedCount(r.probes, p, Succ(p, dial), Observed(host, Connected));
    ReplacedCount(r.probes, p, Succ(p, dial), Observed(host, TimedOut));
  }

  lemma StepDials(s: State, maxConcurrency: nat, targets: seq<Host>, step: Step, host: Host)
    requires Safe(s, maxConcurrency) && Enabled(s, maxConcurrency, step)
    ensures Adds(s, Next(s, maxConcurrency, targets, step), host, EndsDial(step, host, Connected),
                 EndsDial(step, host, TimedOut), EndsDial(step, host, OtherError))
  {
    match step {
      case Trigger =>
        OneUncounted(Round(targets, NextTarget, 0, 0, multiset{}), host, Connected);
        OneUncounted(Round(targets, NextTarget, 0, 0, multiset{}), host, TimedOut);
      case Launcher(i, act) => LauncherDials(s, maxConcurrency, targets, i, act, host);
      case Prober(i, p, dial) => ProberDials(s, maxConcurrency, targets, i, p, dial, host);
      case _ =>
    }
  }

  lemma LauncherDials(s: State, maxConcurrency: nat, targets: seq<Host>, i: nat, act: Launch, host: Host)
    requires Safe(s, maxConcurrency) && Enabled(s, maxConcurrency, Launcher(i, act))
    ensures Adds(s, Next(s, maxConcurrency, targets, Launcher(i, act)), host, 0, 0, 0)
  {
    var s', r := Next(s, maxConcurrency, targets, Launcher(i, act)), s.rounds[i];
    assert s.rounds == [r];
    OneUncounted(r, host, Connected);
    OneUncounted(r, host, TimedOut);
    if act.ClearFlag? {
      assert RoundSafe(r, maxConcurrency);
      EmptyCounts(r.probes, Observed(host, Connected));
      EmptyCounts(r.probes, Observed(host, TimedOut));
      assert s'.rounds == [];
    } else {
      LaunchRest(s, r, maxConcurrency, act, Observed(host, Connected));
      LaunchRest(s, r, maxConcurrency, act, Observed(host, TimedOut));
      OneUncounted(AfterLaunch(r, act), host, Connected);
      OneUncounted(AfterLaunch(r, act), host, TimedOut);
      assert s'.rounds == [AfterLaunch(r, act)];
    }
  }

  lemma ProberDials(s: State, maxConcurrency: nat, targets: seq<Host>, i: nat, p: Probe, dial: Dial, host: Host)
    requires Safe(s, maxConcurrency) && Enabled(s, maxConcurrency, Prober(i, p, dial))
    ensures var step := Prober(i, p, dial);
            Adds(s, Next(s, maxConcurrency, targets, step), host, EndsDial(step, host, Connected),
                 EndsDial(step, host, TimedOut), EndsDial(step, host, OtherError))
  {
    var r := s.rounds[i];
    assert s.rounds == [r];
    OneUncounted(r, host, Connected);
    OneUncounted(r, host, TimedOut);
    OneUncounted(AfterProbe(r, p, dial), host, Connected);
    OneUncounted(AfterProbe(r, p, dial), host, TimedOut);
    ProbeDials(s.ledger, r, p, dial, host);
    assert Next(s, maxConcurrency, targets, Prober(i, p, dial)).rounds == [AfterProbe(r, p, dial)];
  }

  lemma AddsOn(s: State, m: State, e: State, host: Host, a: nat, b: nat, c: nat, a': nat, b': nat, c': nat)
    requires Adds(s, m, host, a, b, c) && Adds(m, e, host, a', b', c')
    ensures Adds(s, e, host, a + a', b + b', c + c')
  {
  }

  lemma {:induction false} RunDials(s: State, maxConcurrency: nat, targets: seq<Host>, run: seq<Step>, host: Host)
    requires Safe(s, maxConcurrency) && ValidRun(s, maxConcurrency, targets, run)
    ensures Adds(s, After(s, maxConcurrency, targets, run), host, Dials(run, host, Connected),
                 Dials(run, host, TimedOut), Dials(run, host, OtherError))
    decreases |run|
  {
    if run == [] {
    } else {
      var next, rest := Next(s, maxConcurrency, targets, run[0]), run[1..];
      StepKeepsSafe(s, maxConcurrency, targets, run[0]);
      StepDials(s, maxConcurrency, targets, run[0], host);
      RunDials(next, maxConcurrency, targets, rest, host);
      AddsOn(s, next, After(next, maxConcurrency, targets, rest), host,
             EndsDial(run[0], host, Connected), EndsDial(run[0], host, TimedOut), EndsDial(run[0], host, OtherError),
             Dials(rest, host, Connected), Dials(rest, host, TimedOut), Dials(rest, host, OtherError));
    }
  }

  /** The success counter of a host counts the dials of the run that connected, the failure counter
      those that timed out, up to the probes in between, and a duration is observed for every dial
      however it ended; between rounds nothing is in between. */
  lemma {:induction false} CountersCountDials(maxConcurrency: nat, targets: seq<Host>, run: seq<Step>, host: Host)
    requires ValidRun(IDLE, maxConcurrency, targets, run)
    ensures var s := After(IDLE, maxConcurrency, targets, run);
            && s.ledger.successTotal[host] + Uncounted(s.rounds, host, Connected) == Dials(run, host, Connected)
            && s.ledger.failureTotal[host] + Uncounted(s.rounds, host, TimedOut) == Dials(run, host, TimedOut)
            && s.ledger.durations[host] ==
               Dials(run, host, Connected) + Dials(run, host, TimedOut) + Dials(run, host, OtherError)
            && (!s.running ==> s.rounds == [])
  {
    RunDials(IDLE, maxConcurrency, targets, run, host);
    CheckerSafety(maxConcurrency, targets, run);
  }

  // ---- whole rounds ----------------------------------------------------------------------

  function Answer(resolve: Host -> Option<nat>, t: Host): nat {
    match resolve(t)
    case None => 0
    case Some(n) => n
  }

  /** The addresses the targets of a host resolve to; a failed lookup gives none. */
  function Addresses(targets: seq<Host>, resolve: Host -> Option<nat>, host: Host): nat {
    if targets == [] then 0
    else Addresses(targets[1..], resolve, host) + if targets[0] == host then Answer(resolve, host) else 0
  }

  /** How many triggers of a run began a round. */
  ghost function Begun(s: State, maxConcurrency: nat, targets: seq<Host>, run: seq<Step>): nat
    requires ValidRun(s, maxConcurrency, targets, run)
    decreases |run|
  {
    if run == [] then 0
    else
      Begun(Next(s, maxConcurrency, targets, run[0]), maxConcurrency, targets, run[1..]) +
      if run[0].Trigger? && !s.running then 1 else 0
  }

  /** A launching goroutine that is past its loop has no target left. */
  ghost predicate Thorough(s: State) {
    forall r :: r in s.rounds && (r.stage.Waiting? || r.stage.Returned?) ==> r.targets == []
  }

  /** Addresses resolved already, and still to be resolved by the round at work. */
  ghost function Resolvable(s: State, resolve: Host -> Option<nat>, host: Host): nat {
    s.ledger.resolved[host] + if s.rounds == [] then 0 else Addresses(s.rounds[0].targets, resolve, host)
  }

  lemma LaunchResolves(s: State, r: Round, maxConcurrency: nat, resolve: Host -> Option<nat>, act: Launch, host: Host)
    requires LaunchEnabled(s, r, maxConcurrency, act) && !act.SeeCancel?
    requires act.Resolve? && r.targets != [] ==> act.result == resolve(r.targets[0])
    requires r.stage.Waiting? || r.stage.Returned? ==> r.targets == []
    ensures var r', l' := AfterLaunch(r, act), LaunchLedger(s.ledger, r, act);
            && (r'.stage.Waiting? || r'.stage.Returned? ==> r'.targets == [])
            && l'.resolved[host] + Addresses(r'.targets, resolve, host) ==
               s.ledger.resolved[host] + Addresses(r.targets, resolve, host)
  {
  }

  lemma StepResolves(s: State, maxConcurrency: nat, targets: seq<Host>, resolve: Host -> Option<nat>, step: Step,
                     host: Host)
    requires Safe(s, maxConcurrency) && Thorough(s) && Enabled(s, maxConcurrency, step)
    requires !step.Cancel? && StepAnswers(s, resolve, step)
    ensures var s' := Next(s, maxConcurrency, targets, step);
            && Thorough(s')
            && Resolvable(s', resolve, host) == Resolvable(s, resolve, host) +
               if step.Trigger? && !s.running then Addresses(targets, resolve, host) else 0
  {
    match step {
      case Launcher(i, act) => LauncherResolves(s, maxConcurrency, targets, resolve, i, act, host);
      case Prober(i, p, dial) =>
        assert s.rounds == [s.rounds[i]];
        assert Next(s, maxConcurrency, targets, step).rounds == [AfterProbe(s.rounds[i], p, dial)];
      case _ =>
    }
  }

  lemma LauncherResolves(s: State, maxConcurrency: nat, targets: seq<Host>, resolve: Host -> Option<nat>, i: nat,
                         act: Launch, host: Host)
    requires Safe(s, maxConcurrency) && Thorough(s) && Enabled(s, maxConcurrency, Launcher(i, act))
    requires StepAnswers(s, resolve, Launcher(i, act))
    ensures var s' := Next(s, maxConcurrency, targets, Launcher(i, act));
            Thorough(s') && Resolvable(s', resolve, host) == Resolvable(s, resolve, host)
  {
    var r := s.rounds[i];
    assert s.rounds == [r] && r in s.rounds;
    if act.ClearFlag? {
      assert Next(s, maxConcurrency, targets, Launcher(i, act)).rounds == [];
    } else {
      LaunchResolves(s, r, maxConcurrency, resolve, act, host);
      assert Next(s, maxConcurrency, targets, Launcher(i, act)).rounds == [AfterLaunch(r, act)];
    }
  }

  lemma Distribute(n: nat, per: nat)
    ensures (n + 1) * per == n * per + per
  {
  }

  lemma {:induction false} RunResolves(s: State, maxConcurrency: nat, targets: seq<Host>, resolve: Host -> Option<nat>,
                                       run: seq<Step>, host: Host)
    requires Safe(s, maxConcurrency) && Thorough(s) && ValidRun(s, maxConcurrency, targets, run)
    requires Uncancelled(s, maxConcurrency, targets, resolve, run)
    ensures Resolvable(After(s, maxConcurrency, targets, run), resolve, host) ==
            Resolvable(s, resolve, host) +
            Begun(s, maxConcurrency, targets, run) * Addresses(targets, resolve, host)
    ensures After(s, maxConcurrency, targets, run).cancelled == s.cancelled
    decreases |run|
  {
    if run == [] {
    } else {
      var next := Next(s, maxConcurrency, targets, run[0]);
      StepKeepsSafe(s, maxConcurrency, targets, run[0]);
      StepResolves(s, maxConcurrency, targets, resolve, run[0], host);
      RunResolves(next, maxConcurrency, targets, resolve, run[1..], host);
      Distribute(Begun(next, maxConcurrency, targets, run[1..]), Addresses(targets, resolve, host));
    }
  }

  /** When uncancelled rounds are over, every target has been looked up in every round and every
      address it resolved to dialled once: the durations observed for a host are the sum of the
      address counts of its targets, times the number of rounds. */
  lemma {:induction false} DurationsPerRound(maxConcurrency: nat, targets: seq<Host>, resolve: Host -> Option<nat>,
                                             run: seq<Step>, host: Host)
    requires ValidRun(IDLE, maxConcurrency, targets, run)
    requires Uncancelled(IDLE, maxConcurrency, targets, resolve, run)
    ensures var s := After(IDLE, maxConcurrency, targets, run);
            !s.running ==>
              s.ledger.durations[host] ==
              Begun(IDLE, maxConcurrency, targets, run) * Addresses(targets, resolve, host)
  {
    RunResolves(IDLE, maxConcurrency, targets, resolve, run, host);
    DurationsConserved(maxConcurrency, targets, run, host);
    CheckerSafety(maxConcurrency, targets, run);
  }
}
