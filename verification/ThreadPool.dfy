/** The thread pool as interleaved atomic steps of its submitters, its workers and its shutdown.

    Everything done under the queue's mutex is one step.  The flag is atomic and is never cleared, so a
    worker that holds the mutex and finds the queue empty still sees the flag it was woken for. */
module ThreadPool {

  /** A connected slot; `id` counts the connections of its signal. */
  datatype Sink = Sink(id: nat, slot: nat)

  /** A function object: empty, the call of one slot by a signal, or any other job. */
  datatype Task = Empty | Job(id: nat) | Notify(signal: nat, sink: Sink, args: int)

  /** Where a worker stands: before the loop test, at the wait, calling its task, or returned. */
  datatype Worker = AtLoop | AtWait | Running(task: Task) | Done

  datatype Log = Log(worker: nat, task: Task)

  /** The shared queue and flag, the workers, and the history: what was submitted, taken from the queue
      and completely called. */
  datatype State = State(q: seq<Task>, stop: bool, workers: seq<Worker>,
                         submitted: seq<Task>, taken: seq<Log>, called: seq<Log>)

  datatype Event = Submit(task: Task) | Stop | Test(w: nat) | Wake(w: nat) | Finish(w: nat)

  function New(n: nat): State {
    State([], false, seq(n, _ => AtLoop), [], [], [])
  }

  predicate Stands(s: State, w: nat, at: Worker) {
    w < |s.workers| && s.workers[w] == at
  }

  /** One atomic step; an event that its worker cannot make changes nothing. */
  function Step(s: State, e: Event): State {
    match e
    case Submit(t) => s.(q := s.q + [t], submitted := s.submitted + [t])
    case Stop => s.(stop := true)
    case Test(w) =>
      if !Stands(s, w, AtLoop) then s
      else s.(workers := s.workers[w := if s.stop then Done else AtWait])
    case Wake(w) =>
      if !Stands(s, w, AtWait) then s
      else if s.q != [] then
        s.(q := s.q[1..], workers := s.workers[w := Running(s.q[0])], taken := s.taken + [Log(w, s.q[0])])
      else if s.stop then s.(workers := s.workers[w := Done])
      else s
    case Finish(w) =>
      if w < |s.workers| && s.workers[w].Running? then
        var t := s.workers[w].task;
        s.(workers := s.workers[w := AtLoop], called := if t.Empty? then s.called else s.called + [Log(w, t)])
      else s
  }

  function Run(s: State, es: seq<Event>): State {
    if es == [] then s else Step(Run(s, es[..|es| - 1]), es[|es| - 1])
  }

  function SubmitAll(s: State, ts: seq<Task>): State {
    s.(q := s.q + ts, submitted := s.submitted + ts)
  }

  class Pool {
    var q: seq<Task>
    var stop: bool
    var workers: seq<Worker>
    ghost var submitted: seq<Task>
    ghost var taken: seq<Log>
    ghost var called: seq<Log>

    ghost function View(): State
      reads this
    {
      State(q, stop, workers, submitted, taken, called)
    }

    constructor (hardwareConcurrency: nat)
      ensures View() == New(hardwareConcurrency)
    {
      q, stop, workers := [], false, seq(hardwareConcurrency, _ => AtLoop);
      submitted, taken, called := [], [], [];
    }

    method SubmitTask(t: Task)
      modifies this
      ensures View() == Step(old(View()), Submit(t))
    {
      q := q + [t];
      submitted := submitted + [t];
    }

    /** The first statement of a shutdown; the rest only wakes the workers and waits for them. */
    method SetStop()
      modifies this
      ensures View() == Step(old(View()), Stop)
    {
      stop := true;
    }

    /** The loop condition of a worker. */
    method TestLoop(w: nat)
      modifies this
      ensures View() == Step(old(View()), Test(w))
    {
      if w < |workers| && workers[w] == AtLoop {
        if !stop {
          workers := workers[w := AtWait];
        } else {
          workers := workers[w := Done];
        }
      }
    }

    /** The wait and the pop of a worker, which hold the mutex together. */
    method WakeUp(w: nat)
      modifies this
      ensures View() == Step(old(View()), Wake(w))
    {
      if w < |workers| && workers[w] == AtWait && (q != [] || stop) {
        if stop && q == [] {
          workers := workers[w := Done];
        } else {
          var task := q[0];
          q := q[1..];
          workers := workers[w := Running(task)];
          taken := taken + [Log(w, task)];
        }
      }
    }

    /** The end of the call of a worker's task, by return or by exception. */
    method FinishTask(w: nat)
      modifies this
      ensures View() == Step(old(View()), Finish(w))
    {
      if w < |workers| && workers[w].Running? {
        if !workers[w].task.Empty? {
          called := called + [Log(w, workers[w].task)];
        }
        workers := workers[w := AtLoop];
      }
    }

    method Schedule(es: seq<Event>)
      modifies this
      ensures View() == Run(old(View()), es)
    {
      for i := 0 to |es|
        invariant View() == Run(old(View()), es[..i])
      {
        match es[i] {
          case Submit(t) => SubmitTask(t);
          case Stop => SetStop();
          case Test(w) => TestLoop(w);
          case Wake(w) => WakeUp(w);
          case Finish(w) => FinishTask(w);
        }
        assert es[..i + 1][..i] == es[..i];
      }
      assert es[..|es|] == es;
    }
  }

  function Tasks(log: seq<Log>): (ts: seq<Task>)
    ensures |ts| == |log|
    ensures forall i :: 0 <= i < |log| ==> ts[i] == log[i].task
  {
    seq(|log|, i requires 0 <= i < |log| => log[i].task)
  }

  /** The tasks of one worker in a log, empty ones left out, in order. */
  function Of(log: seq<Log>, w: nat): seq<Task> {
    if log == [] then []
    else
      var l := log[|log| - 1];
      Of(log[..|log| - 1], w) + if l.worker == w && !l.task.Empty? then [l.task] else []
  }

  /** What the events submit. */
  function Submissions(es: seq<Event>): seq<Task> {
    if es == [] then []
    else
      var e := es[|es| - 1];
      Submissions(es[..|es| - 1]) + if e.Submit? then [e.task] else []
  }

  ghost predicate Conserved(s: State) {
    s.submitted == Tasks(s.taken) + s.q
  }

  lemma StepConserves(s: State, e: Event)
    requires Conserved(s)
    ensures Conserved(Step(s, e))
  {
    var s' := Step(s, e);
    if s'.taken != s.taken {
      assert Tasks(s'.taken) == Tasks(s.taken) + [s.q[0]];
      assert s.q == [s.q[0]] + s.q[1..];
    }
  }

  /** In every interleaving the tasks submitted are the tasks taken followed by the queue: the i-th task
      taken is the i-th submitted, so no task is lost, duplicated or overtaken. */
  lemma {:induction false} FirstInFirstOut(n: nat, es: seq<Event>)
    ensures var s := Run(New(n), es);
            && s.submitted == Submissions(es)
            && s.submitted == Tasks(s.taken) + s.q
  {
    if es == [] {
    } else {
      var past := es[..|es| - 1];
      FirstInFirstOut(n, past);
      StepConserves(Run(New(n), past), es[|es| - 1]);
    }
  }

  /** What a worker has taken is what it has called and, while it runs, the one task it is calling. */
  ghost predicate Serial(s: State, w: nat) {
    Of(s.taken, w) == Of(s.called, w)
      + if w < |s.workers| && s.workers[w].Running? && !s.workers[w].task.Empty? then [s.workers[w].task] else []
  }

  lemma OfAppend(log: seq<Log>, l: Log, w: nat)
    ensures Of(log + [l], w) == Of(log, w) + if l.worker == w && !l.task.Empty? then [l.task] else []
  {
    assert (log + [l])[..|log|] == log;
  }

  lemma WakeSerial(s: State, v: nat, w: nat)
    requires Serial(s, w) && Stands(s, v, AtWait) && s.q != []
    ensures Serial(Step(s, Wake(v)), w)
  {
    OfAppend(s.taken, Log(v, s.q[0]), w);
    hide Of;
  }

  lemma FinishSerial(s: State, v: nat, w: nat)
    requires Serial(s, w) && v < |s.workers| && s.workers[v].Running?
    ensures Serial(Step(s, Finish(v)), w)
  {
    OfAppend(s.called, Log(v, s.workers[v].task), w);
    hide Of;
  }

  lemma StepSerial(s: State, e: Event, w: nat)
    requires Serial(s, w)
    ensures Serial(Step(s, e), w)
  {
    hide Of;
    if e.Wake? && Stands(s, e.w, AtWait) && s.q != [] {
      WakeSerial(s, e.w, w);
    } else if e.Finish? && e.w < |s.workers| && s.workers[e.w].Running? {
      FinishSerial(s, e.w, w);
    }
  }

  /** In every interleaving each worker calls the tasks that it took, in the order it took them and each
      once, with at most one still to be completed. */
  lemma {:induction false} CallsWhatItTakes(n: nat, es: seq<Event>, w: nat)
    ensures Serial(Run(New(n), es), w)
  {
    if es == [] {
    } else {
      var past := es[..|es| - 1];
      CallsWhatItTakes(n, past, w);
      StepSerial(Run(New(n), past), es[|es| - 1], w);
    }
  }

  /** After the flag is set only the workers that were already waiting may take a task, and only one each. */
  ghost predicate Winding(s: State, s': State) {
    && s'.stop
    && |s'.workers| == |s.workers|
    && s.taken <= s'.taken
    && (forall w :: Stands(s', w, AtWait) ==> Stands(s, w, AtWait))
    && (forall k :: |s.taken| <= k < |s'.taken| ==>
                      Stands(s, s'.taken[k].worker, AtWait) && !Stands(s', s'.taken[k].worker, AtWait))
    && (forall j, k :: |s.taken| <= j < k < |s'.taken| ==> s'.taken[j].worker != s'.taken[k].worker)
  }

  lemma StepWinding(s: State, s': State, e: Event)
    requires Winding(s, s')
    ensures Winding(s, Step(s', e))
  {
    match e
    case Submit(_) =>
    case Stop =>
    case Test(_) =>
    case Wake(_) =>
    case Finish(_) =>
  }

  /** The number of workers at the wait. */
  function Waiting(ws: seq<Worker>): nat {
    if ws == [] then 0 else (if ws[0] == AtWait then 1 else 0) + Waiting(ws[1..])
  }

  lemma {:induction false} WaitingUpdate(ws: seq<Worker>, w: nat, at: Worker)
    requires w < |ws|
    ensures Waiting(ws[w := at]) + (if ws[w] == AtWait then 1 else 0) == Waiting(ws) + (if at == AtWait then 1 else 0)
  {
    if w == 0 {
      assert ws[w := at][1..] == ws[1..];
    } else {
      assert ws[w := at][1..] == ws[1..][w - 1 := at];
      WaitingUpdate(ws[1..], w - 1, at);
    }
  }

  lemma StepWaiting(s: State, e: Event)
    requires s.stop
    ensures |Step(s, e).taken| + Waiting(Step(s, e).workers) <= |s.taken| + Waiting(s.workers)
  {
    match e
    case Submit(_) =>
    case Stop =>
    case Test(w) =>
      if Stands(s, w, AtLoop) { WaitingUpdate(s.workers, w, Done); }
    case Wake(w) =>
      if Stands(s, w, AtWait) {
        WaitingUpdate(s.workers, w, Done);
        if s.q != [] { WaitingUpdate(s.workers, w, Running(s.q[0])); }
      }
    case Finish(w) =>
      if w < |s.workers| { WaitingUpdate(s.workers, w, AtLoop); }
  }

  /** From any state with the flag set, in every interleaving: each worker takes at most one more task, and
      in all no more are taken than workers were waiting. */
  lemma {:induction false} TakesAfterStop(s: State, es: seq<Event>)
    requires s.stop
    ensures Winding(s, Run(s, es))
    ensures |Run(s, es).taken| - |s.taken| <= Waiting(s.workers) - Waiting(Run(s, es).workers)
  {
    if es == [] {
    } else {
      var past := es[..|es| - 1];
      TakesAfterStop(s, past);
      StepWinding(s, Run(s, past), es[|es| - 1]);
      StepWaiting(Run(s, past), es[|es| - 1]);
    }
  }

  /** What a shutdown waits for. */
  ghost predicate Joined(s: State) {
    forall w :: 0 <= w < |s.workers| ==> s.workers[w] == Done
  }

  lemma StepDrains(s: State, e: Event)
    requires s.stop && !e.Submit?
    ensures var s' := Step(s, e);
            && |s'.taken| + |s'.q| == |s.taken| + |s.q|
            && (s'.q != [] ==> |s'.taken| + Waiting(s'.workers) == |s.taken| + Waiting(s.workers))
  {
    match e
    case Stop =>
    case Test(w) =>
      if Stands(s, w, AtLoop) { WaitingUpdate(s.workers, w, Done); }
    case Wake(w) =>
      if Stands(s, w, AtWait) && s.q != [] { WaitingUpdate(s.workers, w, Running(s.q[0])); }
    case Finish(w) =>
      if w < |s.workers| { WaitingUpdate(s.workers, w, AtLoop); }
  }

  lemma {:induction false} Draining(s: State, es: seq<Event>)
    requires s.stop && Submissions(es) == []
    ensures var s' := Run(s, es);
            && s'.stop
            && |s'.taken| + |s'.q| == |s.taken| + |s.q|
            && (s'.q != [] ==> |s'.taken| + Waiting(s'.workers) == |s.taken| + Waiting(s.workers))
  {
    if es == [] {
    } else {
      Draining(s, es[..|es| - 1]);
      StepDrains(Run(s, es[..|es| - 1]), es[|es| - 1]);
    }
  }

  lemma {:induction false} NoneWaiting(ws: seq<Worker>)
    requires forall w :: 0 <= w < |ws| ==> ws[w] == Done
    ensures Waiting(ws) == 0
  {
    if ws == [] {
    } else {
      NoneWaiting(ws[1..]);
    }
  }

  lemma QueueStep(s: State, e: Event)
    requires !e.Submit?
    ensures Step(s, e).q == s.q || (s.q != [] && Step(s, e).q == s.q[1..])
  {
  }

  lemma DropOne(q: seq<Task>, n: nat)
    requires n < |q|
    ensures q[n..][1..] == q[n + 1..]
  {
  }

  lemma {:induction false} QueueShrinks(s: State, es: seq<Event>)
    requires Submissions(es) == []
    ensures |Run(s, es).q| <= |s.q| && Run(s, es).q == s.q[|s.q| - |Run(s, es).q|..]
  {
    hide Step;
    if es == [] {
    } else {
      var past := Run(s, es[..|es| - 1]);
      QueueShrinks(s, es[..|es| - 1]);
      QueueStep(past, es[|es| - 1]);
      if past.q != [] {
        DropOne(s.q, |s.q| - |past.q|);
      }
    }
  }

  /** A shutdown drains the queue exactly when no more tasks are queued than workers wait at the moment the
      flag is set, and otherwise leaves exactly the tasks in excess; provided nothing is submitted meanwhile. */
  lemma ShutdownDrains(s: State, es: seq<Event>)
    requires s.stop && Submissions(es) == []
    requires Joined(Run(s, es))
    ensures Run(s, es).q == [] <==> |s.q| <= Waiting(s.workers)
    ensures |s.q| > Waiting(s.workers) ==> Run(s, es).q == s.q[Waiting(s.workers)..]
  {
    Draining(s, es);
    TakesAfterStop(s, es);
    NoneWaiting(Run(s, es).workers);
    QueueShrinks(s, es);
  }

  /** One worker that has not reached its wait when the flag is set leaves a submitted task behind. */
  lemma ShutdownLeavesTask()
    ensures var s := Run(New(1), [Submit(Job(0)), Stop, Test(0)]); Joined(s) && s.q == [Job(0)] && s.taken == []
  {
    var es := [Submit(Job(0)), Stop, Test(0)];
    assert es[..2] == [Submit(Job(0)), Stop] && es[..2][..1] == [Submit(Job(0))] && es[..2][..1][..0] == [];
    assert Run(New(1), es[..2][..1]) == Step(New(1), Submit(Job(0)));
    assert Run(New(1), es[..2]) == Step(Run(New(1), es[..2][..1]), Stop);
  }

  /** One turn of a worker that stands at its wait: take, call, and come back. */
  function Turn(w: nat): seq<Event> {
    [Wake(w), Finish(w), Test(w)]
  }

  function Turns(w: nat, n: nat): seq<Event> {
    if n == 0 then [] else Turns(w, n - 1) + Turn(w)
  }

  lemma {:induction false} RunConcat(s: State, es: seq<Event>, more: seq<Event>)
    ensures Run(s, es + more) == Run(Run(s, es), more)
  {
    if more == [] {
      assert es + more == es;
    } else {
      var n := |more| - 1;
      assert (es + more)[..|es + more| - 1] == es + more[..n];
      RunConcat(s, es, more[..n]);
    }
  }

  lemma RunThree(s: State, a: Event, b: Event, c: Event)
    ensures Run(s, [a, b, c]) == Step(Step(Step(s, a), b), c)
  {
    var es := [a, b, c];
    assert es[..2] == [a, b] && [a, b][..1] == [a] && [a][..0] == [];
    assert Run(s, [a]) == Step(Run(s, [a][..0]), a);
    assert Run(s, [a, b]) == Step(Run(s, [a, b][..1]), b);
  }

  /** The log entries of worker w for these tasks. */
  function Logged(ts: seq<Task>, w: nat): (log: seq<Log>)
    ensures |log| == |ts|
    ensures forall i :: 0 <= i < |ts| ==> log[i] == Log(w, ts[i])
  {
    seq(|ts|, i requires 0 <= i < |ts| => Log(w, ts[i]))
  }

  /** While the flag is clear a worker at its wait takes the front of the queue, calls it and waits again. */
  lemma TurnServes(s: State, w: nat)
    requires Stands(s, w, AtWait) && !s.stop && s.q != []
    ensures Run(s, Turn(w))
      == s.(q := s.q[1..], taken := s.taken + [Log(w, s.q[0])],
            called := if s.q[0].Empty? then s.called else s.called + [Log(w, s.q[0])])
  {
    RunThree(s, Wake(w), Finish(w), Test(w));
    hide Run;
    var after := Step(Step(Step(s, Wake(w)), Finish(w)), Test(w));
    assert after.workers == s.workers;
  }

  function NonEmpty(ts: seq<Task>): seq<Task> {
    if ts == [] then []
    else NonEmpty(ts[..|ts| - 1]) + if ts[|ts| - 1].Empty? then [] else [ts[|ts| - 1]]
  }

  lemma NonEmptyAppend(ts: seq<Task>, t: Task)
    ensures NonEmpty(ts + [t]) == NonEmpty(ts) + if t.Empty? then [] else [t]
  {
    assert (ts + [t])[..|ts|] == ts;
  }

  /** The state when worker w has taken and called the first n tasks of the queue, empty ones not called. */
  function Served(s: State, w: nat, n: nat): State
    requires n <= |s.q|
  {
    s.(q := s.q[n..], taken := s.taken + Logged(s.q[..n], w), called := s.called + Logged(NonEmpty(s.q[..n]), w))
  }

  lemma ServedNone(s: State, w: nat)
    ensures Served(s, w, 0) == s
  {
    assert s.q[0..] == s.q && s.q[..0] == [];
  }

  lemma LoggedAppend(ts: seq<Task>, t: Task, w: nat)
    ensures Logged(ts + [t], w) == Logged(ts, w) + [Log(w, t)]
  {
  }

  lemma ServedOne(s: State, w: nat, n: nat)
    requires n < |s.q|
    ensures var r, t := Served(s, w, n), s.q[n];
      && r.q != [] && r.q[0] == t && r.workers == s.workers && r.stop == s.stop
      && Served(s, w, n + 1)
         == r.(q := r.q[1..], taken := r.taken + [Log(w, t)],
               called := if t.Empty? then r.called else r.called + [Log(w, t)])
  {
    var t := s.q[n];
    assert s.q[..n + 1] == s.q[..n] + [t];
    NonEmptyAppend(s.q[..n], t);
    LoggedAppend(s.q[..n], t, w);
    LoggedAppend(NonEmpty(s.q[..n]), t, w);
    hide NonEmpty, Logged;
  }

  /** One worker alone serves the whole queue: after n turns it has taken and called the first n tasks, in order,
      empty ones not called, and nothing else has changed. */
  lemma {:induction false} WorkerServesQueue(s: State, w: nat, n: nat)
    requires Stands(s, w, AtWait) && !s.stop && n <= |s.q|
    ensures Run(s, Turns(w, n)) == Served(s, w, n)
  {
    hide Run, Served;
    if n == 0 {
      ServedNone(s, w);
      RunNothing(s);
    } else {
      WorkerServesQueue(s, w, n - 1);
      RunConcat(s, Turns(w, n - 1), Turn(w));
      ServedOne(s, w, n - 1);
      TurnServes(Served(s, w, n - 1), w);
    }
  }

  lemma RunNothing(s: State)
    ensures Run(s, []) == s
  {
  }

  /** Once a shutdown has returned, nothing is taken or called any more, whatever is submitted, and every
      task that was taken has been called by its worker. */
  lemma {:induction false} AfterShutdown(n: nat, es: seq<Event>, later: seq<Event>)
    requires Joined(Run(New(n), es))
    ensures var s, s' := Run(New(n), es), Run(Run(New(n), es), later);
            && Joined(s') && s'.taken == s.taken && s'.called == s.called
            && forall w: nat :: Of(s'.taken, w) == Of(s'.called, w)
  {
    var s := Run(New(n), es);
    if later == [] {
      forall w: nat ensures Of(s.taken, w) == Of(s.called, w) {
        CallsWhatItTakes(n, es, w);
      }
    } else {
      AfterShutdown(n, es, later[..|later| - 1]);
    }
  }
}
