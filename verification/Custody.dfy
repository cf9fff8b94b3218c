/**
 Who holds the pooled message objects: one of the eight pools, the aggregating worker, the
 event channel, the consumer, or the recycle channel. Steps of worker, consumer and
 recycler interleave freely.
 */
module Custody {
  import opened Base

  datatype Kind = FansMedal | UserInfoMeta | Damaku | Gift | Guard | SuperChat | Online | OnlineV2

  datatype Obj = Obj(kind: Kind, id: nat)

  datatype State = State(
    pooled: multiset<(Kind, Obj)>,   // a pool does not check what is put into it
    hand: Option<Obj>,
    events: multiset<Obj>,
    consumer: multiset<Obj>,
    recycle: multiset<Obj>,
    created: set<Obj>)

  datatype Step =
    | Get(kind: Kind, obj: Obj)      // sync.Pool hands out a pooled object or a new one
    | Put(kind: Kind)
    | Send
    | Consume(obj: Obj)
    | RecycleEvent(obj: Obj)         // whoever calls it, whatever the object
    | RecyclerPut(obj: Obj)

  predicate Enabled(s: State, step: Step) {
    match step
    case Get(kind, o) => s.hand == None && o.kind == kind && ((kind, o) in s.pooled || o !in s.created)
    case Put(kind) => s.hand.Some? && s.hand.value.kind == kind
    case Send => s.hand.Some?
    case Consume(o) => o in s.events
    case RecycleEvent(_) => true
    case RecyclerPut(o) => o in s.recycle
  }

  function Next(s: State, step: Step): State
    requires Enabled(s, step)
  {
    match step
    case Get(kind, o) => s.(pooled := s.pooled - multiset{(kind, o)}, hand := Some(o), created := s.created + {o})
    case Put(kind) => s.(pooled := s.pooled + multiset{(kind, s.hand.value)}, hand := None)
    case Send => s.(events := s.events + multiset{s.hand.value}, hand := None)
    case Consume(o) => s.(events := s.events - multiset{o}, consumer := s.consumer + multiset{o})
    case RecycleEvent(o) => s.(consumer := s.consumer - multiset{o}, recycle := s.recycle + multiset{o})
    case RecyclerPut(o) => s.(recycle := s.recycle - multiset{o}, pooled := s.pooled + multiset{(o.kind, o)})
  }

  /** In how many places an object is, its own pool being the only pool counted. */
  ghost function Places(s: State, o: Obj): nat {
    s.pooled[(o.kind, o)] + (if s.hand == Some(o) then 1 else 0) + s.events[o] + s.consumer[o] + s.recycle[o]
  }

  ghost predicate InOnePlace(s: State, o: Obj) {
    Places(s, o) == if o in s.created then 1 else 0
  }

  /** Every object ever handed out is in exactly one place, and pools hold only their own kind. */
  ghost predicate SingleOwner(s: State) {
    && (forall p :: p in s.pooled ==> p.0 == p.1.kind)
    && (forall o :: InOnePlace(s, o))
  }

  ghost predicate ValidRun(s: State, run: seq<Step>)
    decreases |run|
  {
    run == [] || (Enabled(s, run[0]) && ValidRun(Next(s, run[0]), run[1..]))
  }

  ghost function After(s: State, run: seq<Step>): State
    requires ValidRun(s, run)
    decreases |run|
  {
    if run == [] then s else After(Next(s, run[0]), run[1..])
  }

  lemma Added<T>(m: multiset<T>, x: T, y: T)
    ensures (m + multiset{x})[y] == m[y] + if x == y then 1 else 0
  {
  }

  lemma Removed<T>(m: multiset<T>, x: T, y: T)
    ensures (m - multiset{x})[y] == if x == y && x in m then m[y] - 1 else m[y]
  {
  }

  lemma TakenFromPool(s: State, g: Obj, o: Obj)
    requires Enabled(s, Get(g.kind, g)) && InOnePlace(s, o) && InOnePlace(s, g)
    ensures InOnePlace(Next(s, Get(g.kind, g)), o)
  {
    Removed(s.pooled, (g.kind, g), (o.kind, o));
  }

  lemma LetGo(s: State, step: Step, o: Obj)
    requires Enabled(s, step) && (step.Put? || step.Send?) && InOnePlace(s, o)
    ensures InOnePlace(Next(s, step), o)
  {
    var h := s.hand.value;
    if step.Put? {
      Added(s.pooled, (step.kind, h), (o.kind, o));
      assert (step.kind, h) == (o.kind, o) <==> h == o;
    } else {
      Added(s.events, h, o);
    }
  }

  /** An event is recycled only by the consumer that holds it. */
  predicate Held(s: State, step: Step) {
    step.RecycleEvent? ==> step.obj in s.consumer
  }

  lemma Moved(s: State, step: Step, o: Obj)
    requires Enabled(s, step) && (step.Consume? || step.RecycleEvent? || step.RecyclerPut?)
    requires Held(s, step) && InOnePlace(s, o)
    ensures InOnePlace(Next(s, step), o)
  {
    var g := step.obj;
    match step {
      case Consume(_) =>
        Removed(s.events, g, o);
        Added(s.consumer, g, o);
      case RecycleEvent(_) =>
        Removed(s.consumer, g, o);
        Added(s.recycle, g, o);
      case RecyclerPut(_) => Pooled(s, g, o);
    }
  }

  lemma Pooled(s: State, g: Obj, o: Obj)
    requires Enabled(s, RecyclerPut(g)) && InOnePlace(s, o)
    ensures InOnePlace(Next(s, RecyclerPut(g)), o)
  {
    Removed(s.recycle, g, o);
    Added(s.pooled, (g.kind, g), (o.kind, o));
    assert (g.kind, g) == (o.kind, o) <==> g == o;
  }

  lemma StepKeepsOwner(s: State, step: Step)
    requires SingleOwner(s) && Enabled(s, step) && Held(s, step)
    ensures SingleOwner(Next(s, step))
  {
    forall o ensures InOnePlace(Next(s, step), o) {
      match step {
        case Get(_, g) => TakenFromPool(s, g, o);
        case Put(_) => LetGo(s, step, o);
        case Send => LetGo(s, step, o);
        case _ => Moved(s, step, o);
      }
    }
  }

  lemma NotHeldBreaks(s: State, o: Obj)
    requires SingleOwner(s) && o !in s.consumer
    ensures !SingleOwner(Next(s, RecycleEvent(o)))
  {
    var s' := Next(s, RecycleEvent(o));
    Added(s.recycle, o, o);
    assert s'.consumer == s.consumer;
    assert InOnePlace(s, o);
    assert Places(s', o) == Places(s, o) + 1;
    assert !InOnePlace(s', o);
  }

  /** A step keeps single ownership exactly unless it recycles an event the consumer does not hold. */
  lemma StepKeepsOwnerIff(s: State, step: Step)
    requires SingleOwner(s) && Enabled(s, step)
    ensures SingleOwner(Next(s, step)) <==> Held(s, step)
  {
    if Held(s, step) {
      StepKeepsOwner(s, step);
    } else {
      NotHeldBreaks(s, step.obj);
    }
  }

  /** One message handled: taken from its pool, then sent on or put back. */
  function Handled(s: State, obj: Obj, sent: bool): State
    requires Enabled(s, Get(obj.kind, obj))
  {
    Next(Next(s, Get(obj.kind, obj)), if sent then Send else Put(obj.kind))
  }

  lemma HandledKeepsOwner(s: State, obj: Obj, sent: bool)
    requires SingleOwner(s) && Enabled(s, Get(obj.kind, obj))
    ensures SingleOwner(Handled(s, obj, sent))
  {
    StepKeepsOwner(s, Get(obj.kind, obj));
    StepKeepsOwner(Next(s, Get(obj.kind, obj)), if sent then Send else Put(obj.kind));
  }

  /** Nothing has been taken from any pool. */
  const EMPTY := State(multiset{}, None, multiset{}, multiset{}, multiset{}, {})

  /** Single ownership in every state of a run. */
  ghost predicate AlwaysOwned(s: State, run: seq<Step>)
    requires ValidRun(s, run)
    decreases |run|
  {
    SingleOwner(s) && (run == [] || AlwaysOwned(Next(s, run[0]), run[1..]))
  }

  /** Every event recycled in a run is held by the consumer at that moment. */
  ghost predicate AllHeld(s: State, run: seq<Step>)
    requires ValidRun(s, run)
    decreases |run|
  {
    run == [] || (Held(s, run[0]) && AllHeld(Next(s, run[0]), run[1..]))
  }

  lemma {:induction false} OwnedIffHeld(s: State, run: seq<Step>)
    requires SingleOwner(s) && ValidRun(s, run)
    ensures AlwaysOwned(s, run) <==> AllHeld(s, run)
    ensures AlwaysOwned(s, run) ==> SingleOwner(After(s, run))
    decreases |run|
  {
    if run == [] {
    } else {
      StepKeepsOwnerIff(s, run[0]);
      if Held(s, run[0]) {
        OwnedIffHeld(Next(s, run[0]), run[1..]);
      } else {
        NotOwned(Next(s, run[0]), run[1..]);
      }
    }
  }

  lemma NotOwned(s: State, run: seq<Step>)
    requires ValidRun(s, run) && !SingleOwner(s)
    ensures !AlwaysOwned(s, run)
  {
  }

  /** From empty pools, in any interleaving of worker, consumer and recycler: every object is in
      exactly one place throughout if and only if every recycled event was held. */
  lemma {:induction false} OwnerOverRun(run: seq<Step>)
    requires ValidRun(EMPTY, run)
    ensures AlwaysOwned(EMPTY, run) <==> AllHeld(EMPTY, run)
    ensures AllHeld(EMPTY, run) ==> SingleOwner(After(EMPTY, run))
  {
    assert forall o :: InOnePlace(EMPTY, o);
    OwnedIffHeld(EMPTY, run);
  }

  /** An object that went once around and has just been handed back. */
  function HandedBack(o: Obj): State {
    EMPTY.(recycle := multiset{o}, created := {o})
  }

  lemma HandBack(o: Obj, rest: seq<Step>) returns (run: seq<Step>)
    requires ValidRun(HandedBack(o), rest)
    ensures ValidRun(EMPTY, run) && After(EMPTY, run) == After(HandedBack(o), rest)
    ensures AllHeld(EMPTY, run) <==> AllHeld(HandedBack(o), rest)
  {
    var got := Next(EMPTY, Get(o.kind, o));
    var sent := Next(got, Send);
    var taken := Next(sent, Consume(o));
    assert Next(taken, RecycleEvent(o)) == HandedBack(o);
    First(taken, RecycleEvent(o), rest);
    run := [RecycleEvent(o)] + rest;
    First(sent, Consume(o), run);
    run := [Consume(o)] + run;
    First(got, Send, run);
    run := [Send] + run;
    First(EMPTY, Get(o.kind, o), run);
    run := [Get(o.kind, o)] + run;
  }

  /** A consumer that hands an event back twice: the object ends twice in its pool. */
  lemma RecycledTwiceBreaks(o: Obj) returns (run: seq<Step>)
    ensures ValidRun(EMPTY, run) && !AllHeld(EMPTY, run)
    ensures After(EMPTY, run).pooled == multiset{(o.kind, o), (o.kind, o)}
  {
    var back := HandedBack(o);
    var twice := back.(recycle := multiset{o, o});
    assert Next(back, RecycleEvent(o)) == twice;
    var puts := PutBoth(o);
    First(back, RecycleEvent(o), puts);
    run := HandBack(o, [RecycleEvent(o)] + puts);
  }

  lemma PutBoth(o: Obj) returns (run: seq<Step>)
    ensures var s := HandedBack(o).(recycle := multiset{o, o});
            ValidRun(s, run) && After(s, run).pooled == multiset{(o.kind, o), (o.kind, o)}
  {
    var s := HandedBack(o).(recycle := multiset{o, o});
    var once := EMPTY.(pooled := multiset{(o.kind, o)}, recycle := multiset{o}, created := {o});
    assert Next(s, RecyclerPut(o)) == once;
    assert Next(once, RecyclerPut(o)).pooled == multiset{(o.kind, o), (o.kind, o)};
    First(once, RecyclerPut(o), []);
    First(s, RecyclerPut(o), [RecyclerPut(o)] + []);
    run := [RecyclerPut(o)] + ([RecyclerPut(o)] + []);
  }

  lemma First(s: State, step: Step, rest: seq<Step>)
    requires Enabled(s, step) && ValidRun(Next(s, step), rest)
    ensures ValidRun(s, [step] + rest) && After(s, [step] + rest) == After(Next(s, step), rest)
    ensures AllHeld(s, [step] + rest) <==> Held(s, step) && AllHeld(Next(s, step), rest)
  {
    assert ([step] + rest)[1..] == rest;
  }
}
