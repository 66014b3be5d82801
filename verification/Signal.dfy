/** Signals that fan their emissions out into the shared thread pool. */
module Signals {
  import opened ThreadPool

  /** One emission: its arguments and the sinks that were connected when it began. */
  datatype Emission = Emission(args: int, sinks: seq<Sink>)

  /** The sinks of a signal, in list order; how many were ever connected; the emissions begun so far; and
      whether the last one still holds the mutex, with `sent` of its tasks submitted. */
  datatype Sinks = Sinks(list: seq<Sink>, made: nat, emissions: seq<Emission>, busy: bool, sent: nat)

  datatype System = System(pool: State, signals: seq<Sinks>)

  /** A step of the pool, or of signal `s`.  The position stands for the iterator that a connection returned. */
  datatype Action =
    | PoolStep(e: Event)
    | Connect(s: nat, slot: nat)
    | Disconnect(s: nat, position: nat)
    | DisconnectAll(s: nat)
    | Begin(s: nat, args: int)
    | Send(s: nat)
    | End(s: nat)

  function Start(workers: nat, signals: nat): System {
    System(New(workers), seq(signals, _ => Sinks([], 0, [], false, 0)))
  }

  /** Whether signal `s` exists and its mutex is free. */
  predicate Free(sys: System, s: nat) {
    s < |sys.signals| && !sys.signals[s].busy
  }

  predicate Emitting(sys: System, s: nat) {
    s < |sys.signals| && sys.signals[s].busy && sys.signals[s].emissions != []
  }

  function Put(sys: System, s: nat, g: Sinks): System
    requires s < |sys.signals|
  {
    sys.(signals := sys.signals[s := g])
  }

  /** One step.  A step that waits for the mutex, or whose position is not in the list, changes nothing; only
      a signal submits its own tasks. */
  function Act(sys: System, a: Action): System {
    match a
    case PoolStep(e) =>
      if e.Submit? && e.task.Notify? then sys else sys.(pool := Step(sys.pool, e))
    case Connect(s, slot) =>
      if !Free(sys, s) then sys
      else var g := sys.signals[s]; Put(sys, s, g.(list := g.list + [Sink(g.made, slot)], made := g.made + 1))
    case Disconnect(s, i) =>
      if !Free(sys, s) || i >= |sys.signals[s].list| then sys
      else var g := sys.signals[s]; Put(sys, s, g.(list := g.list[..i] + g.list[i + 1..]))
    case DisconnectAll(s) =>
      if !Free(sys, s) then sys else Put(sys, s, sys.signals[s].(list := []))
    case Begin(s, args) =>
      if !Free(sys, s) then sys
      else
        var g := sys.signals[s];
        Put(sys, s, g.(emissions := g.emissions + [Emission(args, g.list)], busy := true, sent := 0))
    case Send(s) =>
      if !Emitting(sys, s) || sys.signals[s].sent >= |sys.signals[s].list| then sys
      else
        var g := sys.signals[s];
        var args := g.emissions[|g.emissions| - 1].args;
        Put(sys, s, g.(sent := g.sent + 1)).(pool := Step(sys.pool, Submit(Notify(s, g.list[g.sent], args))))
    case End(s) =>
      if !Emitting(sys, s) || sys.signals[s].sent < |sys.signals[s].list| then sys
      else Put(sys, s, sys.signals[s].(busy := false))
  }

  function ActAll(sys: System, acts: seq<Action>): System {
    if acts == [] then sys else Act(ActAll(sys, acts[..|acts| - 1]), acts[|acts| - 1])
  }

  /** One task for each sink of an emission, in list order. */
  function Fan(s: nat, sinks: seq<Sink>, args: int): (ts: seq<Task>)
    ensures |ts| == |sinks|
    ensures forall i :: 0 <= i < |sinks| ==> ts[i] == Notify(s, sinks[i], args)
  {
    seq(|sinks|, i requires 0 <= i < |sinks| => Notify(s, sinks[i], args))
  }

  /** The tasks of a series of emissions, one emission after the other. */
  function FanOuts(s: nat, emissions: seq<Emission>): seq<Task> {
    if emissions == [] then []
    else
      var e := emissions[|emissions| - 1];
      FanOuts(s, emissions[..|emissions| - 1]) + Fan(s, e.sinks, e.args)
  }

  /** The tasks among these that belong to signal `s`. */
  function From(ts: seq<Task>, s: nat): seq<Task> {
    if ts == [] then []
    else
      var t := ts[|ts| - 1];
      From(ts[..|ts| - 1], s) + if t.Notify? && t.signal == s then [t] else []
  }

  /** What signal `s` has to have submitted: the tasks of every finished emission, and the first `sent` ones
      of the emission under way. */
  function Due(s: nat, g: Sinks): seq<Task> {
    if g.busy && g.emissions != [] && g.sent <= |g.emissions[|g.emissions| - 1].sinks| then
      var e := g.emissions[|g.emissions| - 1];
      FanOuts(s, g.emissions[..|g.emissions| - 1]) + Fan(s, e.sinks, e.args)[..g.sent]
    else
      FanOuts(s, g.emissions)
  }

  ghost predicate Increasing(sinks: seq<Sink>) {
    forall i, j :: 0 <= i < j < |sinks| ==> sinks[i].id < sinks[j].id
  }

  ghost predicate Ordered(g: Sinks) {
    && Increasing(g.list)
    && (forall i :: 0 <= i < |g.list| ==> g.list[i].id < g.made)
    && (forall k :: 0 <= k < |g.emissions| ==> Increasing(g.emissions[k].sinks))
  }

  /** While an emission is under way the list is the one it began with. */
  ghost predicate Locked(g: Sinks) {
    g.busy ==>
      g.emissions != [] && g.list == g.emissions[|g.emissions| - 1].sinks && g.sent <= |g.list|
  }

  ghost predicate Faithful(sys: System, s: nat) {
    s < |sys.signals| ==>
      && Ordered(sys.signals[s]) && Locked(sys.signals[s])
      && From(sys.pool.submitted, s) == Due(s, sys.signals[s])
  }

  lemma FromAppend(ts: seq<Task>, t: Task, s: nat)
    ensures From(ts + [t], s) == From(ts, s) + if t.Notify? && t.signal == s then [t] else []
  {
    assert (ts + [t])[..|ts|] == ts;
  }

  lemma PoolStepFrom(p: State, e: Event, s: nat)
    requires !(e.Submit? && e.task.Notify? && e.task.signal == s)
    ensures From(Step(p, e).submitted, s) == From(p.submitted, s)
  {
    if e.Submit? {
      FromAppend(p.submitted, e.task, s);
    }
  }

  lemma BeginDue(s: nat, g: Sinks, args: int)
    requires !g.busy
    ensures Due(s, g.(emissions := g.emissions + [Emission(args, g.list)], busy := true, sent := 0)) == Due(s, g)
  {
    assert (g.emissions + [Emission(args, g.list)])[..|g.emissions|] == g.emissions;
  }

  lemma SendDue(s: nat, g: Sinks)
    requires g.busy && Locked(g) && g.sent < |g.list|
    ensures Due(s, g.(sent := g.sent + 1))
         == Due(s, g) + [Notify(s, g.list[g.sent], g.emissions[|g.emissions| - 1].args)]
  {
    var e := g.emissions[|g.emissions| - 1];
    var f := Fan(s, e.sinks, e.args);
    assert f[..g.sent + 1] == f[..g.sent] + [f[g.sent]];
  }

  lemma EndDue(s: nat, g: Sinks)
    requires g.busy && Locked(g) && g.sent == |g.list|
    ensures Due(s, g.(busy := false)) == Due(s, g)
  {
    var e := g.emissions[|g.emissions| - 1];
    var f := Fan(s, e.sinks, e.args);
    assert f[..g.sent] == f;
  }

  /** The signal whose state an action may change. */
  predicate Touches(a: Action, s: nat) {
    !a.PoolStep? && a.s == s
  }

  lemma OthersFaithful(sys: System, a: Action, s: nat)
    requires Faithful(sys, s) && !Touches(a, s)
    ensures Faithful(Act(sys, a), s)
  {
    hide FanOuts, From, Fan, Ordered, Locked, Due;
    if a.PoolStep? {
      if !(a.e.Submit? && a.e.task.Notify?) {
        PoolStepFrom(sys.pool, a.e, s);
      }
    } else if a.Send? && Emitting(sys, a.s) && sys.signals[a.s].sent < |sys.signals[a.s].list| {
      var g := sys.signals[a.s];
      PoolStepFrom(sys.pool, Submit(Notify(a.s, g.list[g.sent], g.emissions[|g.emissions| - 1].args)), s);
    }
  }

  /** Connecting and disconnecting keep the order of the list and leave the emissions alone. */
  lemma ListFaithful(sys: System, a: Action, s: nat)
    requires Faithful(sys, s) && (a.Connect? || a.Disconnect? || a.DisconnectAll?) && a.s == s
    ensures Faithful(Act(sys, a), s)
  {
    hide FanOuts, From, Fan;
  }

  lemma BeginFaithful(sys: System, s: nat, args: int)
    requires Faithful(sys, s)
    ensures Faithful(Act(sys, Begin(s, args)), s)
  {
    hide FanOuts, From, Fan, Due;
    if Free(sys, s) {
      BeginDue(s, sys.signals[s], args);
    }
  }

  lemma SendFaithful(sys: System, s: nat)
    requires Faithful(sys, s)
    ensures Faithful(Act(sys, Send(s)), s)
  {
    hide FanOuts, From, Fan, Due;
    if Emitting(sys, s) && sys.signals[s].sent < |sys.signals[s].list| {
      var g := sys.signals[s];
      FromAppend(sys.pool.submitted, Notify(s, g.list[g.sent], g.emissions[|g.emissions| - 1].args), s);
      SendDue(s, g);
    }
  }

  lemma EndFaithful(sys: System, s: nat)
    requires Faithful(sys, s)
    ensures Faithful(Act(sys, End(s)), s)
  {
    hide FanOuts, From, Fan, Due;
    if Emitting(sys, s) && sys.signals[s].sent >= |sys.signals[s].list| {
      EndDue(s, sys.signals[s]);
    }
  }

  lemma ActFaithful(sys: System, a: Action, s: nat)
    requires Faithful(sys, s)
    ensures Faithful(Act(sys, a), s)
  {
    hide Faithful, Act;
    if !Touches(a, s) {
      OthersFaithful(sys, a, s);
    } else if a.Begin? {
      BeginFaithful(sys, s, a.args);
    } else if a.Send? {
      SendFaithful(sys, s);
    } else if a.End? {
      EndFaithful(sys, s);
    } else {
      ListFaithful(sys, a, s);
    }
  }

  /** In every interleaving of any number of signals with the pool, a signal has submitted exactly one task
      for each sink connected when an emission began, in the order they were connected, emission after
      emission, and up to `sent` of the emission under way. */
  lemma {:induction false} FanOutFaithful(workers: nat, signals: nat, acts: seq<Action>, s: nat)
    requires s < signals
    ensures var sys := ActAll(Start(workers, signals), acts);
            && |sys.signals| == signals
            && From(sys.pool.submitted, s) == Due(s, sys.signals[s])
            && (forall k :: 0 <= k < |sys.signals[s].emissions| ==> Increasing(sys.signals[s].emissions[k].sinks))
  {
    AllFaithful(workers, signals, acts, s);
  }

  lemma {:induction false} AllFaithful(workers: nat, signals: nat, acts: seq<Action>, s: nat)
    requires s < signals
    ensures var sys := ActAll(Start(workers, signals), acts);
            |sys.signals| == signals && Faithful(sys, s) && Conserved(sys.pool)
  {
    if acts == [] {
    } else {
      var past := acts[..|acts| - 1];
      AllFaithful(workers, signals, past, s);
      var sys, a := ActAll(Start(workers, signals), past), acts[|acts| - 1];
      ActFaithful(sys, a, s);
      ActConserves(sys, a);
    }
  }

  lemma ActConserves(sys: System, a: Action)
    requires Conserved(sys.pool)
    ensures Conserved(Act(sys, a).pool) && |Act(sys, a).signals| == |sys.signals|
  {
    hide Conserved;
    match a
    case PoolStep(e) => StepConserves(sys.pool, e);
    case Send(s) =>
      if Emitting(sys, s) && sys.signals[s].sent < |sys.signals[s].list| {
        var g := sys.signals[s];
        StepConserves(sys.pool, Submit(Notify(s, g.list[g.sent], g.emissions[|g.emissions| - 1].args)));
      }
    case _ =>
  }

  lemma {:induction false} FromConcat(xs: seq<Task>, ys: seq<Task>, s: nat)
    ensures From(xs + ys, s) == From(xs, s) + From(ys, s)
  {
    if ys == [] {
      assert xs + ys == xs;
    } else {
      var t := ys[|ys| - 1];
      assert xs + ys == (xs + ys[..|ys| - 1]) + [t];
      FromAppend(xs + ys[..|ys| - 1], t, s);
      FromConcat(xs, ys[..|ys| - 1], s);
    }
  }

  /** The workers take a signal's tasks in that same order: what they have taken of it, followed by what is
      queued of it, is what its emissions amount to. */
  lemma TakenInEmissionOrder(workers: nat, signals: nat, acts: seq<Action>, s: nat)
    requires s < signals
    ensures var sys := ActAll(Start(workers, signals), acts);
            && |sys.signals| == signals
            && From(Tasks(sys.pool.taken), s) + From(sys.pool.q, s) == Due(s, sys.signals[s])
  {
    AllFaithful(workers, signals, acts, s);
    var p := ActAll(Start(workers, signals), acts).pool;
    FromConcat(Tasks(p.taken), p.q, s);
  }

  /** The state of the system before action j. */
  function Before(sys: System, acts: seq<Action>, j: nat): System
    requires j <= |acts|
  {
    ActAll(sys, acts[..j])
  }

  /** An action that connects this sink to signal s: the slot it was given, numbered by the connections so far. */
  ghost predicate Makes(sys: System, a: Action, s: nat, sink: Sink) {
    a == Connect(s, sink.slot) && Free(sys, s) && sink.id == sys.signals[s].made
  }

  /** An action that disconnects this sink: by its position in the list, or with all the others. */
  ghost predicate Removes(sys: System, a: Action, s: nat, sink: Sink) {
    && Free(sys, s)
    && (a == DisconnectAll(s) ||
        (a.Disconnect? && a.s == s && a.position < |sys.signals[s].list| && sys.signals[s].list[a.position] == sink))
  }

  /** The sink was connected by action j and has not been disconnected since. */
  ghost predicate MadeAndKept(sys: System, acts: seq<Action>, s: nat, sink: Sink, j: nat)
    requires j < |acts|
  {
    && Makes(Before(sys, acts, j), acts[j], s, sink)
    && forall i :: j < i < |acts| ==> !Removes(Before(sys, acts, i), acts[i], s, sink)
  }

  ghost predicate Connected(sys: System, acts: seq<Action>, s: nat, sink: Sink) {
    exists j :: 0 <= j < |acts| && MadeAndKept(sys, acts, s, sink, j)
  }

  lemma BeforeShorter(sys: System, acts: seq<Action>, j: nat)
    requires acts != [] && j < |acts|
    ensures Before(sys, acts[..|acts| - 1], j) == Before(sys, acts, j)
  {
    assert acts[..|acts| - 1][..j] == acts[..j];
  }

  lemma ConnectedStep(sys: System, acts: seq<Action>, s: nat, sink: Sink)
    requires acts != []
    ensures var past, a := acts[..|acts| - 1], acts[|acts| - 1];
      Connected(sys, acts, s, sink) <==>
        Makes(ActAll(sys, past), a, s, sink)
        || (Connected(sys, past, s, sink) && !Removes(ActAll(sys, past), a, s, sink))
  {
    hide Makes, Removes, ActAll;
    var n := |acts| - 1;
    var past, a := acts[..n], acts[n];
    assert Before(sys, acts, n) == ActAll(sys, past);
    forall j | 0 <= j < n ensures Before(sys, past, j) == Before(sys, acts, j) && past[j] == acts[j] {
      BeforeShorter(sys, acts, j);
    }
    hide Before;
    if Makes(ActAll(sys, past), a, s, sink) {
      assert MadeAndKept(sys, acts, s, sink, n);
    }
    if Connected(sys, past, s, sink) && !Removes(ActAll(sys, past), a, s, sink) {
      var j :| 0 <= j < |past| && MadeAndKept(sys, past, s, sink, j);
      assert MadeAndKept(sys, acts, s, sink, j);
    }
    if Connected(sys, acts, s, sink) && !Makes(ActAll(sys, past), a, s, sink) {
      var j :| 0 <= j < |acts| && MadeAndKept(sys, acts, s, sink, j);
      assert MadeAndKept(sys, past, s, sink, j);
    }
  }

  /** What one action does to the list: a connection adds its sink, a disconnection removes the named one. */
  lemma ListStep(sys: System, a: Action, s: nat, sink: Sink)
    requires s < |sys.signals|
    requires Increasing(sys.signals[s].list)
    ensures sink in Act(sys, a).signals[s].list
      <==> Makes(sys, a, s, sink) || (sink in sys.signals[s].list && !Removes(sys, a, s, sink))
  {
  }

  /** In every interleaving the sinks of a signal are exactly the connections made and not disconnected since, each
      with the slot it was given, and they stand in the order they were made. */
  lemma {:induction false} SinksAreConnections(workers: nat, signals: nat, acts: seq<Action>, s: nat, sink: Sink)
    requires s < signals
    ensures var sys := Start(workers, signals);
      && |ActAll(sys, acts).signals| == signals
      && Increasing(ActAll(sys, acts).signals[s].list)
      && (sink in ActAll(sys, acts).signals[s].list <==> Connected(sys, acts, s, sink))
  {
    var sys := Start(workers, signals);
    AllFaithful(workers, signals, acts, s);
    if acts == [] {
    } else {
      var past, a := acts[..|acts| - 1], acts[|acts| - 1];
      hide Act, Makes, Removes, Connected, Increasing;
      AllFaithful(workers, signals, past, s);
      SinksAreConnections(workers, signals, past, s, sink);
      ListStep(ActAll(sys, past), a, s, sink);
      ConnectedStep(sys, acts, s, sink);
    }
  }

  /** Emission n of signal s began with action j, with these arguments, and has the sinks of that moment. */
  ghost predicate BeganAt(sys: System, acts: seq<Action>, s: nat, n: nat, e: Emission, j: nat)
    requires j < |acts|
  {
    var now := Before(sys, acts, j);
    && acts[j] == Begin(s, e.args) && Free(now, s)
    && |now.signals[s].emissions| == n && e.sinks == now.signals[s].list
  }

  lemma EmissionStep(sys: System, a: Action, s: nat)
    requires s < |sys.signals|
    ensures var g, h := sys.signals[s], Act(sys, a).signals[s];
      var begins := a.Begin? && a.s == s && Free(sys, s);
      h.emissions == if begins then g.emissions + [Emission(a.args, g.list)] else g.emissions
  {
  }

  /** The actions that ask signal s to emit while its mutex is free. */
  function Begun(sys: System, acts: seq<Action>, s: nat): nat {
    if acts == [] then 0
    else
      var past, a := acts[..|acts| - 1], acts[|acts| - 1];
      Begun(sys, past, s) + if a.Begin? && a.s == s && Free(ActAll(sys, past), s) then 1 else 0
  }

  /** There are as many emissions as such actions. */
  lemma {:induction false} EmissionsCounted(workers: nat, signals: nat, acts: seq<Action>, s: nat)
    requires s < signals
    ensures var sys := Start(workers, signals);
      && |ActAll(sys, acts).signals| == signals
      && |ActAll(sys, acts).signals[s].emissions| == Begun(sys, acts, s)
  {
    var sys := Start(workers, signals);
    if acts == [] {
    } else {
      var past, a := acts[..|acts| - 1], acts[|acts| - 1];
      hide Act, Faithful, Conserved, Free;
      EmissionsCounted(workers, signals, past, s);
      AllFaithful(workers, signals, acts, s);
      EmissionStep(ActAll(sys, past), a, s);
    }
  }

  ghost predicate Began(sys: System, acts: seq<Action>, s: nat, n: nat, e: Emission) {
    exists j :: 0 <= j < |acts| && BeganAt(sys, acts, s, n, e, j)
  }

  lemma BeganStays(sys: System, acts: seq<Action>, s: nat, n: nat, e: Emission)
    requires acts != [] && Began(sys, acts[..|acts| - 1], s, n, e)
    ensures Began(sys, acts, s, n, e)
  {
    hide ActAll;
    var past := acts[..|acts| - 1];
    var j :| 0 <= j < |past| && BeganAt(sys, past, s, n, e, j);
    BeforeShorter(sys, acts, j);
    assert BeganAt(sys, acts, s, n, e, j);
  }

  lemma BeginsNow(sys: System, acts: seq<Action>, s: nat)
    requires acts != []
    requires var a := acts[|acts| - 1]; a.Begin? && a.s == s && Free(ActAll(sys, acts[..|acts| - 1]), s)
    ensures var g := ActAll(sys, acts[..|acts| - 1]).signals[s];
      Began(sys, acts, s, |g.emissions|, Emission(acts[|acts| - 1].args, g.list))
  {
    hide ActAll;
    var g := ActAll(sys, acts[..|acts| - 1]).signals[s];
    assert BeganAt(sys, acts, s, |g.emissions|, Emission(acts[|acts| - 1].args, g.list), |acts| - 1);
  }

  /** In every interleaving each emission has the arguments and the sinks of the action that began it. */
  lemma {:induction false} EmissionsBegan(workers: nat, signals: nat, acts: seq<Action>, s: nat, n: nat)
    requires s < signals
    ensures var sys := Start(workers, signals);
      && |ActAll(sys, acts).signals| == signals
      && (n < |ActAll(sys, acts).signals[s].emissions| ==>
            Began(sys, acts, s, n, ActAll(sys, acts).signals[s].emissions[n]))
  {
    var sys := Start(workers, signals);
    if acts == [] {
    } else {
      var past := acts[..|acts| - 1];
      hide Act, Faithful, Conserved, Began, Free;
      EmissionsBegan(workers, signals, past, s, n);
      AllFaithful(workers, signals, acts, s);
      EmissionStep(ActAll(sys, past), acts[|acts| - 1], s);
      if n < |ActAll(sys, past).signals[s].emissions| {
        BeganStays(sys, acts, s, n, ActAll(sys, past).signals[s].emissions[n]);
      } else if n < |ActAll(sys, acts).signals[s].emissions| {
        BeginsNow(sys, acts, s);
      }
    }
  }

  /** The pool events of one action: a step of the pool, the submission of a task, or none. */
  function EventsOf(sys: System, a: Action): (es: seq<Event>)
    ensures |es| <= 1
  {
    match a
    case PoolStep(e) => if e.Submit? && e.task.Notify? then [] else [e]
    case Send(s) =>
      if !Emitting(sys, s) || sys.signals[s].sent >= |sys.signals[s].list| then []
      else
        var g := sys.signals[s];
        [Submit(Notify(s, g.list[g.sent], g.emissions[|g.emissions| - 1].args))]
    case _ => []
  }

  function PoolEvents(sys: System, acts: seq<Action>): seq<Event> {
    if acts == [] then []
    else
      var past := acts[..|acts| - 1];
      PoolEvents(sys, past) + EventsOf(ActAll(sys, past), acts[|acts| - 1])
  }

  lemma ActIsStep(sys: System, a: Action)
    ensures var es := EventsOf(sys, a); Act(sys, a).pool == if es == [] then sys.pool else Step(sys.pool, es[0])
  {
  }

  /** The pool of a system with signals runs as a pool of its own, so every theorem about runs of the pool holds
      for it. */
  lemma {:induction false} PoolOfSystem(sys: System, acts: seq<Action>)
    ensures ActAll(sys, acts).pool == Run(sys.pool, PoolEvents(sys, acts))
  {
    hide Act, EventsOf;
    if acts == [] {
    } else {
      var past, a := acts[..|acts| - 1], acts[|acts| - 1];
      PoolOfSystem(sys, past);
      ActIsStep(ActAll(sys, past), a);
      var es, e := PoolEvents(sys, past), EventsOf(ActAll(sys, past), a);
      if e == [] {
        assert es + e == es;
      } else {
        assert (es + e)[..|es + e| - 1] == es;
      }
    }
  }

  /** In every interleaving of signals and pool each worker calls what it takes, once and in order; and if the
      actions after a state with the flag set submit nothing, the workers leave exactly the tasks in excess. */
  lemma SystemCallsAndDrains(workers: nat, signals: nat, acts: seq<Action>, w: nat, more: seq<Action>)
    ensures var sys := ActAll(Start(workers, signals), acts);
      && Serial(sys.pool, w)
      && (sys.pool.stop && Submissions(PoolEvents(sys, more)) == [] && Joined(ActAll(sys, more).pool) ==>
            (ActAll(sys, more).pool.q == [] <==> |sys.pool.q| <= Waiting(sys.pool.workers)))
  {
    hide Serial, Joined, PoolEvents, Run, ActAll;
    var sys := ActAll(Start(workers, signals), acts);
    PoolOfSystem(Start(workers, signals), acts);
    CallsWhatItTakes(workers, PoolEvents(Start(workers, signals), acts), w);
    PoolOfSystem(sys, more);
    if sys.pool.stop && Submissions(PoolEvents(sys, more)) == [] && Joined(ActAll(sys, more).pool) {
      ShutdownDrains(sys.pool, PoolEvents(sys, more));
    }
  }

  /** The steps of one whole emission. */
  function EmitSteps(s: nat, args: int, n: nat): seq<Action> {
    [Begin(s, args)] + seq(n, _ => Send(s)) + [End(s)]
  }

  /** From an idle signal those steps, taken without interruption, submit what `Emit` below submits. */
  lemma EmitIsUninterrupted(sys: System, s: nat, args: int)
    requires Free(sys, s)
    ensures var g, sys' := sys.signals[s], ActAll(sys, EmitSteps(s, args, |sys.signals[s].list|));
            && sys'.pool == SubmitAll(sys.pool, Fan(s, g.list, args))
            && sys'.signals
               == sys.signals[s := g.(emissions := g.emissions + [Emission(args, g.list)], sent := |g.list|)]
  {
    var n := |sys.signals[s].list|;
    var all := EmitSteps(s, args, n);
    SendSteps(sys, s, args, n);
    assert all[..|all| - 1] == [Begin(s, args)] + seq(n, _ => Send(s));
    var f := Fan(s, sys.signals[s].list, args);
    assert f[..n] == f;
  }

  /** The system when `n` tasks of an emission that began in `sys` have been submitted. */
  function Sent(sys: System, s: nat, args: int, n: nat): System
    requires s < |sys.signals| && n <= |sys.signals[s].list|
  {
    var g := sys.signals[s];
    System(SubmitAll(sys.pool, Fan(s, g.list, args)[..n]),
           sys.signals[s := g.(emissions := g.emissions + [Emission(args, g.list)], busy := true, sent := n)])
  }

  lemma SendOne(sys: System, s: nat, args: int, n: nat)
    requires s < |sys.signals| && n < |sys.signals[s].list|
    ensures Act(Sent(sys, s, args, n), Send(s)) == Sent(sys, s, args, n + 1)
  {
    var f := Fan(s, sys.signals[s].list, args);
    assert f[..n + 1] == f[..n] + [f[n]];
  }

  lemma {:induction false} SendSteps(sys: System, s: nat, args: int, n: nat)
    requires Free(sys, s) && n <= |sys.signals[s].list|
    ensures ActAll(sys, [Begin(s, args)] + seq(n, _ => Send(s))) == Sent(sys, s, args, n)
  {
    var acts := [Begin(s, args)] + seq(n, _ => Send(s));
    if n == 0 {
      assert acts == [Begin(s, args)];
      assert ActAll(sys, acts[..0]) == sys;
    } else {
      hide Sent, Act;
      SendSteps(sys, s, args, n - 1);
      assert acts[..|acts| - 1] == [Begin(s, args)] + seq(n - 1, _ => Send(s));
      SendOne(sys, s, args, n - 1);
    }
  }

  /** A signal, as an object that submits to its pool. */
  class Signal {
    const pool: Pool
    const id: nat
    var list: seq<Sink>
    var made: nat

    constructor (pool: Pool, id: nat)
      ensures this.pool == pool && this.id == id && list == [] && made == 0
    {
      this.pool, this.id := pool, id;
      list, made := [], 0;
    }

    method ConnectSlot(slot: nat)
      modifies this
      ensures made == old(made) + 1 && list == old(list) + [Sink(old(made), slot)]
    {
      list := list + [Sink(made, slot)];
      made := made + 1;
    }

    method DisconnectAt(position: nat)
      requires position < |list|
      modifies this`list
      ensures list == old(list[..position] + list[position + 1..])
    {
      list := list[..position] + list[position + 1..];
    }

    method Clear()
      modifies this`list
      ensures list == []
    {
      list := [];
    }

    /** An emission submits one task for each sink, in list order, and nothing else. */
    method Emit(args: int)
      modifies pool
      ensures pool.View() == SubmitAll(old(pool.View()), Fan(id, list, args))
    {
      ghost var before := pool.View();
      ghost var all := Fan(id, list, args);
      for i := 0 to |list|
        invariant pool.View() == SubmitAll(before, all[..i])
      {
        pool.SubmitTask(Notify(id, list[i], args));
        assert all[..i + 1] == all[..i] + [all[i]];
      }
      assert all[..|list|] == all;
    }
  }
}
