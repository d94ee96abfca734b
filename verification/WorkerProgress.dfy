// That the workers keep at it: before the exit signal nobody leaves, and what is queued is taken.
module WorkerProgress {
  import opened Wrappers
  import opened WorkerPool

  // Before the exit signal every worker is at its test, asleep, or busy.
  ghost predicate OnDuty(p: Pool)
  {
    !p.exiting ==> Exited !in p.workers
  }

  lemma StepKeepsDuty(p: Pool, s: Step)
    requires OnDuty(p) && Enabled(p, s)
    ensures OnDuty(Next(p, s)) && |Next(p, s).workers| == |p.workers|
  {
  }

  lemma {:induction false} RunKeepsDuty(p: Pool, trace: seq<Step>)
    requires OnDuty(p) && Legal(p, trace)
    ensures OnDuty(Run(p, trace)) && |Run(p, trace).workers| == |p.workers|
    decreases |trace|
  {
    if trace != [] {
      StepKeepsDuty(p, trace[0]);
      RunKeepsDuty(Next(p, trace[0]), trace[1..]);
    }
  }

  // How many steps a worker has ahead of it before it can take something.
  function Ahead(w: Worker): nat
  {
    match w
    case Serving(_) => 2
    case Closing(_) => 1
    case Asleep => 1
    case _ => 0
  }

  function StepsAhead(ws: seq<Worker>): nat
  {
    if ws == [] then 0 else Ahead(ws[0]) + StepsAhead(ws[1..])
  }

  lemma {:induction false} StepsAheadUpdate(ws: seq<Worker>, i: nat, w: Worker)
    requires i < |ws|
    ensures StepsAhead(ws[i := w]) + Ahead(ws[i]) == StepsAhead(ws) + Ahead(w)
    decreases |ws|
  {
    if i > 0 {
      assert ws[i := w][1..] == ws[1..][i - 1 := w];
      StepsAheadUpdate(ws[1..], i - 1, w);
    } else {
      assert ws[0 := w][1..] == ws[1..];
    }
  }

  // A step of a worker that brings it nearer to the next connection.
  predicate CanWork(p: Pool, i: nat)
  {
    Enabled(p, Take(i)) || Enabled(p, Close(i)) || Enabled(p, Clear(i))
  }

  lemma SomebodyCanWork(p: Pool)
    requires Ok(p) && OnDuty(p) && !p.exiting && p.queue != [] && p.workers != []
    ensures exists i :: CanWork(p, i)
  {
    if Asleep in p.workers {
      ReadyTakes(p);
      var i :| Enabled(p, Take(i));
      assert CanWork(p, i);
    } else {
      assert p.workers[0] in p.workers;
      assert CanWork(p, 0);
    }
  }

  // After any run before the exit signal all workers are still there, and while something is
  // queued one of them can move on: it serves, clears its entry, or takes the next.
  lemma WorkersNeverStall(n: nat, trace: seq<Step>)
    requires n > 0 && Legal(Initial(n), trace)
    ensures var p := Run(Initial(n), trace);
            !p.exiting ==> |p.workers| == n && Exited !in p.workers && (p.queue != [] ==> exists i :: CanWork(p, i))
  {
    var p := Run(Initial(n), trace);
    InitialOk(n);
    RunKeepsOk(Initial(n), trace);
    RunKeepsDuty(Initial(n), trace);
    if !p.exiting && p.queue != [] {
      SomebodyCanWork(p);
    }
  }

  // A worker's step takes the oldest connection, or leaves fewer steps before that; an accept
  // does not put it off.
  lemma HeadComesNearer(p: Pool, s: Step)
    requires OnDuty(p) && !p.exiting && p.queue != [] && Enabled(p, s) && !s.Exit?
    ensures var q := Next(p, s);
            && !q.exiting
            && if s.Take? then q.taken == p.taken + [p.queue[0]]
               else
                 && q.taken == p.taken && q.queue != [] && q.queue[0] == p.queue[0]
                 && StepsAhead(q.workers) + (if s.Accept? then 0 else 1) <= StepsAhead(p.workers)
  {
    match s
    case Accept(_, woken) =>
      if woken.Some? {
        StepsAheadUpdate(p.workers, woken.value, Ready);
      }
    case Close(i) => StepsAheadUpdate(p.workers, i, Closing(p.workers[i].c));
    case Clear(i) => StepsAheadUpdate(p.workers, i, Ready);
    case Wake(i) => StepsAheadUpdate(p.workers, i, Ready);
    case _ =>
  }

  // The steps of workers in a trace.
  function WorkerSteps(trace: seq<Step>): nat
    decreases |trace|
  {
    if trace == [] then 0 else (if trace[0].Accept? then 0 else 1) + WorkerSteps(trace[1..])
  }

  lemma {:induction false} TakenOnlyGrows(p: Pool, trace: seq<Step>)
    requires Legal(p, trace)
    ensures p.taken <= Run(p, trace).taken
    decreases |trace|
  {
    if trace != [] {
      TakenOnlyGrows(Next(p, trace[0]), trace[1..]);
    }
  }

  // The oldest connection in the queue is taken after at most StepsAhead more steps of the
  // workers and one, however many connections come in meanwhile.
  lemma {:induction false} HeadIsTaken(p: Pool, trace: seq<Step>)
    requires OnDuty(p) && !p.exiting && p.queue != [] && Legal(p, trace)
    requires forall i :: 0 <= i < |trace| ==> !trace[i].Exit?
    requires WorkerSteps(trace) > StepsAhead(p.workers)
    ensures p.taken + [p.queue[0]] <= Run(p, trace).taken
    decreases |trace|
  {
    hide Next, Enabled, StepsAhead;
    var s := trace[0];
    HeadComesNearer(p, s);
    StepKeepsDuty(p, s);
    if s.Take? {
      TakenOnlyGrows(Next(p, s), trace[1..]);
    } else {
      assert forall i :: 0 <= i < |trace[1..]| ==> trace[1..][i] == trace[i + 1];
      HeadIsTaken(Next(p, s), trace[1..]);
    }
  }

  // A worker that has served a connection can take the next one.
  lemma ServedThenNext(p: Pool, i: nat)
    requires i < |p.workers| && p.workers[i].Serving? && !p.exiting && p.queue != []
    ensures Enabled(p, Close(i)) && Enabled(Next(p, Close(i)), Clear(i))
    ensures var q := Next(Next(p, Close(i)), Clear(i));
            Enabled(q, Take(i)) && Next(q, Take(i)).workers[i] == Serving(p.queue[0])
  {
  }
}
