/**
 The success ratio per host since the previous scrape: a window that each scrape resets,
 against the plain log of probe results and scrapes.
 */
module RatioWindow {
  import opened Base
  import opened Sequences

  datatype RatioState = RatioState(success: nat, failure: nat, lastValue: real, hasLastValue: bool)

  type Hosts = map<string, RatioState>

  const FRESH := RatioState(0, 0, 0.0, false)

  function Ensured(state: Hosts, host: string): Hosts {
    if host in state then state else state[host := FRESH]
  }

  function Recorded(state: Hosts, host: string, ok: bool): Hosts {
    var s := Ensured(state, host)[host];
    state[host := if ok then s.(success := s.success + 1) else s.(failure := s.failure + 1)]
  }

  /** The value one host contributes to a scrape; None stands for NaN. */
  function Ratio(s: RatioState): Option<real> {
    if s.success + s.failure > 0 then Some(s.success as real / (s.success + s.failure) as real)
    else if s.hasLastValue then Some(s.lastValue)
    else None
  }

  function Scraped(s: RatioState): RatioState {
    match Ratio(s)
    case None => s
    case Some(v) => RatioState(0, 0, v, true)
  }

  class SuccessRatioCollector {
    var state: Hosts

    constructor (hosts: seq<string>)
      ensures state == map h | h in hosts :: FRESH
    {
      state := map[];
      new;
      for i := 0 to |hosts|
        invariant state == map h | h in hosts[..i] :: FRESH
      {
        EnsureHost(hosts[i]);
        assert forall h :: h in hosts[..i + 1] <==> h in hosts[..i] || h == hosts[i];
      }
      assert hosts[..|hosts|] == hosts;
    }

    method EnsureHost(host: string)
      modifies this
      ensures state == Ensured(old(state), host)
    {
      if host !in state {
        state := state[host := RatioState(0, 0, 0.0, false)];
      }
    }

    method RecordSuccess(host: string)
      modifies this
      ensures state == Recorded(old(state), host, true)
    {
      EnsureHost(host);
      state := state[host := state[host].(success := state[host].success + 1)];
    }

    method RecordFailure(host: string)
      modifies this
      ensures state == Recorded(old(state), host, false)
    {
      EnsureHost(host);
      state := state[host := state[host].(failure := state[host].failure + 1)];
    }

    /** The hosts in alphabetical order. */
    method SortedHosts() returns (hosts: seq<string>)
      ensures Enumerates(hosts, state.Keys) && Sorted(hosts)
    {
      hosts := [];
      var left := state.Keys;
      while left != {}
        invariant left <= state.Keys && Enumerates(hosts, state.Keys - left) && Sorted(hosts)
        decreases |left|
      {
        var host :| host in left;
        assert host !in Elems(hosts);
        InsertedElems(hosts, host);
        InsertedSorted(hosts, host);
        assert Elems(Inserted(hosts, host)) == Elems(hosts) + {host};
        assert state.Keys - (left - {host}) == (state.Keys - left) + {host};
        hosts := Inserted(hosts, host);
        left := left - {host};
      }
    }

    /** One turn of the loop: the host's ratio, its window reset. */
    method Emit(host: string) returns (sample: Sample)
      requires host in state
      modifies this
      ensures sample == Sample(host, Ratio(old(state)[host]))
      ensures state == old(state)[host := Scraped(old(state)[host])]
    {
      var s := state[host];
      var ratio := None;
      var total := s.success + s.failure;
      if total > 0 {
        ratio := Some(s.success as real / total as real);
        s := s.(lastValue := ratio.value, hasLastValue := true);
      } else if s.hasLastValue {
        ratio := Some(s.lastValue);
      }
      state := state[host := s.(success := 0, failure := 0)];
      return Sample(host, ratio);
    }

    /** One scrape: every host is emitted once, in alphabetical order, and every window starts again. */
    method Collect() returns (ch: seq<Sample>)
      modifies this
      ensures Emits(ch, old(state)) && state == ScrapedAll(old(state))
    {
      ch := [];
      var hosts := SortedHosts();
      for i := 0 to |hosts|
        invariant Drained(ch, state, old(state), hosts, i)
      {
        var host := hosts[i];
        assert host in Elems(hosts);
        DrainedStep(ch, state, old(state), hosts, i);
        var sample := Emit(host);
        ch := ch + [sample];
      }
      DrainedAll(ch, state, old(state), hosts);
    }

    /** Any interleaving of probe results and scrapes, from the configured hosts on. */
    method Replay(hosts: set<string>, log: seq<Event>) returns (scrapes: seq<seq<Sample>>)
      requires state == map h | h in hosts :: FRESH
      modifies this
      ensures state == Run(hosts, log) && Scrapes(hosts, log, scrapes)
    {
      scrapes := [];
      for i := 0 to |log|
        invariant state == Run(hosts, log[..i]) && Scrapes(hosts, log[..i], scrapes)
      {
        assert log[..i + 1][..i] == log[..i];
        match log[i] {
          case Probe(host, ok) =>
            if ok {
              RecordSuccess(host);
            } else {
              RecordFailure(host);
            }
          case Scrape =>
            var ch := Collect();
            assert (scrapes + [ch])[..|scrapes|] == scrapes;
            scrapes := scrapes + [ch];
        }
      }
      assert log[..|log|] == log;
    }
  }

  /** What one host contributes to a scrape. */
  datatype Sample = Sample(host: string, ratio: Option<real>)

  function ScrapedAll(state: Hosts): Hosts {
    map h | h in state :: Scraped(state[h])
  }

  /** A scrape of a state: each host once, alphabetically, with its ratio. */
  ghost predicate Emits(ch: seq<Sample>, state: Hosts) {
    exists hosts: seq<string> ::
      Enumerates(hosts, state.Keys) && Sorted(hosts) && |ch| == |hosts| &&
      forall i :: 0 <= i < |hosts| ==> hosts[i] in state && ch[i] == Sample(hosts[i], Ratio(state[hosts[i]]))
  }

  /** The scrapes of a log, each showing the state before it. */
  ghost predicate Scrapes(hosts: set<string>, log: seq<Event>, scrapes: seq<seq<Sample>>) {
    if log == [] then scrapes == []
    else if log[|log| - 1].Scrape? then
      scrapes != [] && Emits(scrapes[|scrapes| - 1], Run(hosts, log[..|log| - 1])) &&
      Scrapes(hosts, log[..|log| - 1], scrapes[..|scrapes| - 1])
    else Scrapes(hosts, log[..|log| - 1], scrapes)
  }

  /** Inside a scrape: the first i hosts are emitted and reset. */
  ghost predicate Drained(ch: seq<Sample>, state: Hosts, before: Hosts, hosts: seq<string>, i: nat) {
    && i <= |hosts| && Enumerates(hosts, before.Keys) && Sorted(hosts) && state.Keys == before.Keys && |ch| == i
    && (forall j :: 0 <= j < i ==> hosts[j] in before && ch[j] == Sample(hosts[j], Ratio(before[hosts[j]])))
    && (forall h :: h in before ==> state[h] == if h in hosts[..i] then Scraped(before[h]) else before[h])
  }

  lemma DrainedStep(ch: seq<Sample>, state: Hosts, before: Hosts, hosts: seq<string>, i: nat)
    requires Drained(ch, state, before, hosts, i) && i < |hosts|
    ensures hosts[i] in state && state[hosts[i]] == before[hosts[i]]
    ensures var s := before[hosts[i]];
            Drained(ch + [Sample(hosts[i], Ratio(s))], state[hosts[i] := Scraped(s)], before, hosts, i + 1)
  {
    assert hosts[i] in Elems(hosts) && hosts[i] !in hosts[..i];
    assert hosts[..i + 1] == hosts[..i] + [hosts[i]];
  }

  lemma DrainedAll(ch: seq<Sample>, state: Hosts, before: Hosts, hosts: seq<string>)
    requires Drained(ch, state, before, hosts, |hosts|)
    ensures Emits(ch, before) && state == ScrapedAll(before)
  {
    assert hosts[..|hosts|] == hosts;
    forall h | h in before ensures h in hosts {
      assert h in Elems(hosts);
    }
  }

  // ---- the log ---------------------------------------------------------------------

  datatype Event = Probe(host: string, ok: bool) | Scrape

  function Run(hosts: set<string>, log: seq<Event>): Hosts {
    if log == [] then map h | h in hosts :: FRESH
    else
      var before := Run(hosts, log[..|log| - 1]);
      match log[|log| - 1]
      case Probe(host, ok) => Recorded(before, host, ok)
      case Scrape => ScrapedAll(before)
  }

  /** The events since the last scrape. */
  ghost function OpenInterval(log: seq<Event>): seq<Event> {
    if log == [] || log[|log| - 1].Scrape? then []
    else OpenInterval(log[..|log| - 1]) + [log[|log| - 1]]
  }

  /** The stretches of the log between scrapes, oldest first; the last one is still open. */
  ghost function Intervals(log: seq<Event>): (ivs: seq<seq<Event>>)
    ensures ivs != [] && ivs[|ivs| - 1] == OpenInterval(log)
  {
    if log == [] then [[]]
    else
      var ivs := Intervals(log[..|log| - 1]);
      if log[|log| - 1].Scrape? then ivs + [[]] else ivs[..|ivs| - 1] + [OpenInterval(log)]
  }

  ghost function Count(events: seq<Event>, e: Event): nat {
    if events == [] then 0 else Count(events[..|events| - 1], e) + if events[|events| - 1] == e then 1 else 0
  }

  /** Successes over all probes of a host in one interval. */
  ghost function IntervalRatio(events: seq<Event>, host: string): Option<real> {
    var ok, bad := Count(events, Probe(host, true)), Count(events, Probe(host, false));
    if ok + bad == 0 then None else Some(ok as real / (ok + bad) as real)
  }

  /** The ratio of the most recent interval in which the host was probed at all. */
  ghost function LatestRatio(ivs: seq<seq<Event>>, host: string): Option<real> {
    if ivs == [] then None
    else if IntervalRatio(ivs[|ivs| - 1], host) != None then IntervalRatio(ivs[|ivs| - 1], host)
    else LatestRatio(ivs[..|ivs| - 1], host)
  }

  ghost predicate Holds(s: RatioState, log: seq<Event>, host: string) {
    && s.success == Count(OpenInterval(log), Probe(host, true))
    && s.failure == Count(OpenInterval(log), Probe(host, false))
    && (if s.hasLastValue then Some(s.lastValue) else None) == LatestRatio(Intervals(log)[..|Intervals(log)| - 1], host)
  }

  lemma CountAppend(events: seq<Event>, e: Event, f: Event)
    ensures Count(events + [e], f) == Count(events, f) + if e == f then 1 else 0
  {
    assert (events + [e])[..|events|] == events;
  }

  lemma {:induction false} WindowHolds(hosts: set<string>, log: seq<Event>, host: string)
    requires host in Run(hosts, log)
    ensures Holds(Run(hosts, log)[host], log, host)
  {
    if log == [] {
    } else {
      var before, e := log[..|log| - 1], log[|log| - 1];
      var ivs := Intervals(before);
      var closed := ivs[..|ivs| - 1];
      match e {
        case Probe(h, ok) =>
          assert Intervals(log)[..|Intervals(log)| - 1] == closed;
          CountAppend(OpenInterval(before), e, Probe(host, true));
          CountAppend(OpenInterval(before), e, Probe(host, false));
          if host in Run(hosts, before) {
            WindowHolds(hosts, before, host);
          } else {
            UnknownHost(hosts, before, host);
          }
        case Scrape =>
          WindowHolds(hosts, before, host);
          assert Intervals(log)[..|Intervals(log)| - 1] == ivs;
      }
    }
  }

  lemma {:induction false} UnknownHost(hosts: set<string>, log: seq<Event>, host: string)
    requires host !in Run(hosts, log)
    ensures Holds(FRESH, log, host) && forall i :: 0 <= i < |log| ==> !(log[i].Probe? && log[i].host == host)
  {
    if log == [] {
    } else {
      var before, e := log[..|log| - 1], log[|log| - 1];
      UnknownHost(hosts, before, host);
      HoldsStep(log, host);
    }
  }

  /** A host that no probe concerned stays without a ratio. */
  lemma HoldsStep(log: seq<Event>, host: string)
    requires log != [] && Holds(FRESH, log[..|log| - 1], host)
    requires var e := log[|log| - 1]; !(e.Probe? && e.host == host)
    ensures Holds(FRESH, log, host)
  {
    var before, e := log[..|log| - 1], log[|log| - 1];
    var ivs := Intervals(before);
    if e.Probe? {
      CountAppend(OpenInterval(before), e, Probe(host, true));
      CountAppend(OpenInterval(before), e, Probe(host, false));
      assert Intervals(log)[..|Intervals(log)| - 1] == ivs[..|ivs| - 1];
    } else {
      assert Intervals(log)[..|Intervals(log)| - 1] == ivs;
    }
  }

  /** The value emitted by a scrape after any log is the success ratio of the most recent
      interval in which the host was probed. */
  lemma {:induction false} EmittedIsLatestRatio(hosts: set<string>, log: seq<Event>, host: string)
    requires host in Run(hosts, log)
    ensures Ratio(Run(hosts, log)[host]) == LatestRatio(Intervals(log), host)
  {
    WindowHolds(hosts, log, host);
    var s, open := Run(hosts, log)[host], OpenInterval(log);
    assert Ratio(s) == if IntervalRatio(open, host) != None then IntervalRatio(open, host)
                       else LatestRatio(Intervals(log)[..|Intervals(log)| - 1], host);
  }

  ghost predicate Probed(log: seq<Event>, host: string) {
    Probe(host, true) in log || Probe(host, false) in log
  }

  lemma LatestUnfold(ivs: seq<seq<Event>>, host: string)
    requires ivs != []
    ensures LatestRatio(ivs, host) != None <==>
            IntervalRatio(ivs[|ivs| - 1], host) != None || LatestRatio(ivs[..|ivs| - 1], host) != None
  {
  }

  lemma IntervalAppend(events: seq<Event>, e: Event, host: string)
    ensures IntervalRatio(events + [e], host) != None <==>
            IntervalRatio(events, host) != None || (e.Probe? && e.host == host)
  {
    CountAppend(events, e, Probe(host, true));
    CountAppend(events, e, Probe(host, false));
  }

  lemma {:induction false} LatestRatioSomeIff(log: seq<Event>, host: string)
    ensures LatestRatio(Intervals(log), host) != None <==> Probed(log, host)
  {
    if log == [] {
    } else {
      var before, e := log[..|log| - 1], log[|log| - 1];
      LatestRatioSomeIff(before, host);
      assert log == before + [e];
      LatestGrows(log, host);
    }
  }

  lemma LatestGrows(log: seq<Event>, host: string)
    requires log != []
    ensures var before, e := log[..|log| - 1], log[|log| - 1];
            LatestRatio(Intervals(log), host) != None <==>
            LatestRatio(Intervals(before), host) != None || (e.Probe? && e.host == host)
  {
    var before, e := log[..|log| - 1], log[|log| - 1];
    var ivs := Intervals(before);
    LatestUnfold(ivs, host);
    LatestUnfold(Intervals(log), host);
    if e.Scrape? {
      assert Intervals(log)[..|Intervals(log)| - 1] == ivs;
    } else {
      assert Intervals(log)[..|Intervals(log)| - 1] == ivs[..|ivs| - 1];
      IntervalAppend(OpenInterval(before), e, host);
    }
  }

  lemma {:induction false} LatestRatioRange(ivs: seq<seq<Event>>, host: string)
    ensures LatestRatio(ivs, host) != None ==> 0.0 <= LatestRatio(ivs, host).value <= 1.0
  {
    if ivs == [] {
    } else {
      LatestRatioRange(ivs[..|ivs| - 1], host);
      var events := ivs[|ivs| - 1];
      if IntervalRatio(events, host) != None {
        Fraction(Count(events, Probe(host, true)), Count(events, Probe(host, false)));
      }
    }
  }

  lemma Fraction(ok: nat, bad: nat)
    requires ok + bad > 0
    ensures 0.0 <= ok as real / (ok + bad) as real <= 1.0
  {
    var t := (ok + bad) as real;
    assert ok as real <= t;
    assert ok as real / t <= t / t;
  }

  /** NaN is emitted exactly while the host was never probed; any other value lies in [0, 1]. */
  lemma {:induction false} NaNIffNeverProbed(hosts: set<string>, log: seq<Event>, host: string)
    requires host in Run(hosts, log)
    ensures Ratio(Run(hosts, log)[host]) == None <==> !Probed(log, host)
    ensures Ratio(Run(hosts, log)[host]) != None ==> 0.0 <= Ratio(Run(hosts, log)[host]).value <= 1.0
  {
    EmittedIsLatestRatio(hosts, log, host);
    LatestRatioSomeIff(log, host);
    LatestRatioRange(Intervals(log), host);
  }
}
