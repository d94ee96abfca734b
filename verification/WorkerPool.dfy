// The transfer workers as interleaved steps. One thread accepts connections and, on the exit
// signal, drains the queue; the workers take, serve and close. A step is what happens between
// taking the pool's lock and giving it back, or one action outside the lock.
module WorkerPool {
  import opened Wrappers

  // Where a worker is: at its test of the queue, asleep on the condition variable, serving a
  // connection, past close but still listed as busy, or gone.
  datatype Worker = Ready | Asleep | Serving(c: nat) | Closing(c: nat) | Exited

  // Connections are numbered, so a reused descriptor is a new connection. `taken`, `drained`
  // and `closed` record what was dequeued by workers, dequeued at exit, and closed.
  datatype Pool = Pool(queue: seq<nat>, workers: seq<Worker>, exiting: bool,
                       accepted: seq<nat>, taken: seq<nat>, drained: seq<nat>, closed: seq<nat>)

  function Initial(n: nat): Pool
  {
    Pool([], seq(n, _ => Ready), false, [], [], [], [])
  }

  datatype Step =
    | Accept(c: nat, woken: Option<nat>) // enqueue and signal: some sleeper, if any, wakes
    | Take(i: nat)
    | Sleep(i: nat)
    | Wake(i: nat)                       // without a signal
    | Close(i: nat)
    | Clear(i: nat)
    | Exit                               // the exit signal: drain, close, broadcast
    | Leave(i: nat)

  predicate Enabled(p: Pool, s: Step)
  {
    match s
    case Accept(c, woken) =>
      && !p.exiting && c !in p.accepted
      && (match woken
          case Some(i) => i < |p.workers| && p.workers[i] == Asleep
          case None => Asleep !in p.workers)
    case Take(i) => i < |p.workers| && p.workers[i] == Ready && !p.exiting && p.queue != []
    case Sleep(i) => i < |p.workers| && p.workers[i] == Ready && !p.exiting && p.queue == []
    case Wake(i) => i < |p.workers| && p.workers[i] == Asleep
    case Close(i) => i < |p.workers| && p.workers[i].Serving?
    case Clear(i) => i < |p.workers| && p.workers[i].Closing?
    case Exit => !p.exiting
    case Leave(i) => i < |p.workers| && p.workers[i] == Ready && p.exiting
  }

  function Awake(w: Worker): Worker
  {
    if w == Asleep then Ready else w
  }

  function Next(p: Pool, s: Step): Pool
    requires Enabled(p, s)
  {
    match s
    case Accept(c, woken) =>
      p.(queue := p.queue + [c], accepted := p.accepted + [c],
         workers := if woken.Some? then p.workers[woken.value := Ready] else p.workers)
    case Take(i) =>
      p.(queue := p.queue[1..], taken := p.taken + [p.queue[0]], workers := p.workers[i := Serving(p.queue[0])])
    case Sleep(i) => p.(workers := p.workers[i := Asleep])
    case Wake(i) => p.(workers := p.workers[i := Ready])
    case Close(i) =>
      p.(closed := p.closed + [p.workers[i].c], workers := p.workers[i := Closing(p.workers[i].c)])
    case Clear(i) => p.(workers := p.workers[i := Ready])
    case Exit =>
      p.(exiting := true, queue := [], drained := p.drained + p.queue, closed := p.closed + p.queue,
         workers := seq(|p.workers|, i requires 0 <= i < |p.workers| => Awake(p.workers[i])))
    case Leave(i) => p.(workers := p.workers[i := Exited])
  }

  function HeldBy(w: Worker): multiset<nat>
  {
    if w.Serving? then multiset{w.c} else multiset{}
  }

  // The connections that workers hold open.
  function Held(ws: seq<Worker>): multiset<nat>
  {
    if ws == [] then multiset{} else HeldBy(ws[0]) + Held(ws[1..])
  }

  function Count(ws: seq<Worker>, w: Worker): nat
  {
    if ws == [] then 0 else (if ws[0] == w then 1 else 0) + Count(ws[1..], w)
  }

  ghost predicate Ok(p: Pool)
  {
    // every accepted connection is queued, held by a worker, or closed, in one place, once
    && Conserved(p)
    && (forall i, j :: 0 <= i < j < |p.accepted| ==> p.accepted[i] != p.accepted[j])
    // first in, first out
    && p.accepted == p.taken + p.drained + p.queue
    && (!p.exiting ==> p.drained == [])
    && (p.exiting ==> p.queue == [] && Asleep !in p.workers)
    // a sleeper means that enough workers are up for everything queued
    && (Asleep in p.workers ==> |p.queue| <= Count(p.workers, Ready))
  }

  // ---------------------------------------------------------------- one worker changes

  lemma {:induction false} HeldUpdate(ws: seq<Worker>, i: nat, w: Worker)
    requires i < |ws|
    ensures Held(ws[i := w]) + HeldBy(ws[i]) == Held(ws) + HeldBy(w)
    decreases |ws|
  {
    if i > 0 {
      assert ws[i := w][1..] == ws[1..][i - 1 := w];
      HeldUpdate(ws[1..], i - 1, w);
      var h, a, b := HeldBy(ws[0]), Held(ws[1..][i - 1 := w]), Held(ws[1..]);
      assert h + a + HeldBy(ws[i]) == h + (a + HeldBy(ws[i])) == h + (b + HeldBy(w)) == h + b + HeldBy(w);
    } else {
      assert ws[0 := w][1..] == ws[1..];
    }
  }

  lemma {:induction false} CountUpdate(ws: seq<Worker>, i: nat, w: Worker, x: Worker)
    requires i < |ws|
    ensures Count(ws[i := w], x) + (if ws[i] == x then 1 else 0) == Count(ws, x) + (if w == x then 1 else 0)
    decreases |ws|
  {
    if i > 0 {
      assert ws[i := w][1..] == ws[1..][i - 1 := w];
      CountUpdate(ws[1..], i - 1, w, x);
    } else {
      assert ws[0 := w][1..] == ws[1..];
    }
  }

  lemma {:induction false} HeldAwake(ws: seq<Worker>, vs: seq<Worker>)
    requires |ws| == |vs| && forall i :: 0 <= i < |ws| ==> vs[i] == Awake(ws[i])
    ensures Held(vs) == Held(ws)
    decreases |ws|
  {
    if ws != [] {
      HeldAwake(ws[1..], vs[1..]);
    }
  }

  lemma {:induction false} NoneHeld(ws: seq<Worker>)
    requires forall i :: 0 <= i < |ws| ==> !ws[i].Serving?
    ensures Held(ws) == multiset{}
    decreases |ws|
  {
    if ws != [] {
      NoneHeld(ws[1..]);
    }
  }

  lemma {:induction false} AtLeastOne(ws: seq<Worker>, w: Worker)
    requires w in ws
    ensures Count(ws, w) > 0
    decreases |ws|
  {
    if ws[0] != w {
      AtLeastOne(ws[1..], w);
    }
  }

  // ---------------------------------------------------------------- steps and runs

  lemma InitialOk(n: nat)
    ensures Ok(Initial(n))
  {
    NoneHeld(Initial(n).workers);
  }

  ghost predicate Conserved(p: Pool)
  {
    multiset(p.accepted) == multiset(p.queue) + Held(p.workers) + multiset(p.closed)
  }

  lemma HeldStaysFor(ws: seq<Worker>, i: nat, w: Worker)
    requires i < |ws|
    ensures !ws[i].Serving? && !w.Serving? ==> Held(ws[i := w]) == Held(ws)
    ensures !ws[i].Serving? && w.Serving? ==> Held(ws[i := w]) == Held(ws) + multiset{w.c}
    ensures ws[i].Serving? && !w.Serving? ==> Held(ws[i := w]) + multiset{ws[i].c} == Held(ws)
  {
    HeldUpdate(ws, i, w);
    assert Held(ws[i := w]) + multiset{} == Held(ws[i := w]) && Held(ws) + multiset{} == Held(ws);
  }

  lemma AcceptConserves(p: Pool, c: nat, woken: Option<nat>)
    requires Conserved(p) && Enabled(p, Accept(c, woken))
    ensures Conserved(Next(p, Accept(c, woken)))
  {
    hide Held;
    if woken.Some? {
      HeldStaysFor(p.workers, woken.value, Ready);
    }
    assert multiset(p.queue + [c]) == multiset(p.queue) + multiset{c};
  }

  lemma TakeConserves(p: Pool, i: nat)
    requires Conserved(p) && Enabled(p, Take(i))
    ensures Conserved(Next(p, Take(i)))
  {
    hide Held;
    var c := p.queue[0];
    HeldStaysFor(p.workers, i, Serving(c));
    assert p.queue == [c] + p.queue[1..];
    assert multiset(p.queue) == multiset{c} + multiset(p.queue[1..]);
  }

  lemma CloseConserves(p: Pool, i: nat)
    requires Conserved(p) && Enabled(p, Close(i))
    ensures Conserved(Next(p, Close(i)))
  {
    hide Held;
    var c := p.workers[i].c;
    HeldStaysFor(p.workers, i, Closing(c));
    assert multiset(p.closed + [c]) == multiset(p.closed) + multiset{c};
  }

  lemma StepConserves(p: Pool, s: Step)
    requires Conserved(p) && Enabled(p, s)
    ensures Conserved(Next(p, s))
  {
    hide Held;
    match s
    case Accept(c, woken) => AcceptConserves(p, c, woken);
    case Take(i) => TakeConserves(p, i);
    case Close(i) => CloseConserves(p, i);
    case Exit =>
      HeldAwake(p.workers, Next(p, s).workers);
      assert multiset(p.closed + p.queue) == multiset(p.closed) + multiset(p.queue);
    case _ =>
      HeldStaysFor(p.workers, s.i, Next(p, s).workers[s.i]);
  }

  lemma AcceptKeepsOk(p: Pool, c: nat, woken: Option<nat>)
    requires Ok(p) && Enabled(p, Accept(c, woken))
    ensures Ok(Next(p, Accept(c, woken)))
  {
    hide Conserved, Held;
    StepConserves(p, Accept(c, woken));
    if woken.Some? {
      CountUpdate(p.workers, woken.value, Ready, Ready);
    }
  }

  lemma TakeKeepsOk(p: Pool, i: nat)
    requires Ok(p) && Enabled(p, Take(i))
    ensures Ok(Next(p, Take(i)))
  {
    hide Conserved, Held;
    StepConserves(p, Take(i));
    CountUpdate(p.workers, i, Serving(p.queue[0]), Ready);
    assert p.queue == [p.queue[0]] + p.queue[1..];
  }

  lemma StepKeepsOk(p: Pool, s: Step)
    requires Ok(p) && Enabled(p, s)
    ensures Ok(Next(p, s))
  {
    hide Conserved, Held;
    match s
    case Accept(c, woken) => AcceptKeepsOk(p, c, woken);
    case Take(i) => TakeKeepsOk(p, i);
    case Exit => StepConserves(p, s);
    case _ =>
      StepConserves(p, s);
      CountUpdate(p.workers, s.i, Next(p, s).workers[s.i], Ready);
  }

  // A run of steps, each taken only when it can be.
  predicate Legal(p: Pool, trace: seq<Step>)
    decreases |trace|
  {
    trace == [] || (Enabled(p, trace[0]) && Legal(Next(p, trace[0]), trace[1..]))
  }

  function Run(p: Pool, trace: seq<Step>): Pool
    requires Legal(p, trace)
    decreases |trace|
  {
    if trace == [] then p else Run(Next(p, trace[0]), trace[1..])
  }

  lemma {:induction false} RunKeepsOk(p: Pool, trace: seq<Step>)
    requires Ok(p) && Legal(p, trace)
    ensures Ok(Run(p, trace))
    decreases |trace|
  {
    if trace != [] {
      StepKeepsOk(p, trace[0]);
      RunKeepsOk(Next(p, trace[0]), trace[1..]);
    }
  }

  // No connection waits while every idle worker sleeps: if something is queued, some worker
  // is about to take it, or all of them are busy.
  lemma NoLostWakeup(n: nat, trace: seq<Step>)
    requires Legal(Initial(n), trace)
    ensures var p := Run(Initial(n), trace);
            p.queue != [] && Asleep in p.workers ==> !p.exiting && exists i :: Enabled(p, Take(i))
  {
    var p := Run(Initial(n), trace);
    InitialOk(n);
    RunKeepsOk(Initial(n), trace);
    if p.queue != [] && Asleep in p.workers {
      ReadyTakes(p);
    }
  }

  lemma ReadyTakes(p: Pool)
    requires !p.exiting && p.queue != [] && Count(p.workers, Ready) > 0
    ensures exists i :: Enabled(p, Take(i))
  {
    ReadyExists(p.workers);
    var i :| 0 <= i < |p.workers| && p.workers[i] == Ready;
    assert Enabled(p, Take(i));
  }

  lemma {:induction false} ReadyExists(ws: seq<Worker>)
    requires Count(ws, Ready) > 0
    ensures exists i :: 0 <= i < |ws| && ws[i] == Ready
    decreases |ws|
  {
    if ws[0] != Ready {
      ReadyExists(ws[1..]);
      var i :| 0 <= i < |ws[1..]| && ws[1..][i] == Ready;
      assert ws[i + 1] == Ready;
    }
  }

  // At the end, when every worker is gone, every accepted connection has been closed, once.
  lemma AllClosedOnceAtEnd(n: nat, trace: seq<Step>)
    requires Legal(Initial(n), trace)
    requires var p := Run(Initial(n), trace);
             p.exiting && forall i :: 0 <= i < |p.workers| ==> p.workers[i] == Exited
    ensures var p := Run(Initial(n), trace);
            multiset(p.closed) == multiset(p.accepted) && forall c :: c in p.accepted ==> multiset(p.closed)[c] == 1
  {
    var p := Run(Initial(n), trace);
    InitialOk(n);
    RunKeepsOk(Initial(n), trace);
    NoneHeld(p.workers);
    forall c | c in p.accepted
      ensures multiset(p.accepted)[c] == 1
    {
      DistinctOnce(p.accepted, c);
    }
  }

  lemma {:induction false} DistinctOnce(s: seq<nat>, c: nat)
    requires c in s && forall i, j :: 0 <= i < j < |s| ==> s[i] != s[j]
    ensures multiset(s)[c] == 1
    decreases |s|
  {
    assert s == [s[0]] + s[1..];
    if s[0] == c {
      assert c !in s[1..];
    } else {
      DistinctOnce(s[1..], c);
    }
  }

  // How many steps a worker has left after the exit signal.
  function Left(w: Worker): nat
  {
    match w
    case Exited => 0
    case Ready => 1
    case Asleep => 2
    case Closing(_) => 2
    case Serving(_) => 3
  }

  function StepsLeft(ws: seq<Worker>): nat
  {
    if ws == [] then 0 else Left(ws[0]) + StepsLeft(ws[1..])
  }

  lemma {:induction false} StepsLeftUpdate(ws: seq<Worker>, i: nat, w: Worker)
    requires i < |ws|
    ensures StepsLeft(ws[i := w]) + Left(ws[i]) == StepsLeft(ws) + Left(w)
    decreases |ws|
  {
    if i > 0 {
      assert ws[i := w][1..] == ws[1..][i - 1 := w];
      StepsLeftUpdate(ws[1..], i - 1, w);
    } else {
      assert ws[0 := w][1..] == ws[1..];
    }
  }

  // Shutdown ends: once the exit signal was handled, every step brings the end nearer, and
  // as long as a worker is there, some step can be taken.
  lemma ShutdownEnds(p: Pool, s: Step)
    requires Ok(p) && p.exiting
    ensures Enabled(p, s) ==> StepsLeft(Next(p, s).workers) < StepsLeft(p.workers) && Next(p, s).exiting
    ensures (forall i :: 0 <= i < |p.workers| ==> p.workers[i] == Exited) || exists t :: Enabled(p, t)
  {
    if Enabled(p, s) {
      match s
      case Close(i) => StepsLeftUpdate(p.workers, i, Closing(p.workers[i].c));
      case Clear(i) => StepsLeftUpdate(p.workers, i, Ready);
      case Leave(i) => StepsLeftUpdate(p.workers, i, Exited);
      case _ =>
    }
    if i: nat :| i < |p.workers| && p.workers[i] != Exited {
      assert p.workers[i] in p.workers;
      match p.workers[i]
      case Ready => assert Enabled(p, Leave(i));
      case Serving(_) => assert Enabled(p, Close(i));
      case Closing(_) => assert Enabled(p, Clear(i));
      case _ =>
    }
  }

  // ---------------------------------------------------------------- readings of the invariant

  // At every moment an accepted connection is in exactly one place: queued, held by one
  // worker, or closed.
  lemma ExactlyOnePlace(n: nat, trace: seq<Step>, c: nat)
    requires Legal(Initial(n), trace) && c in Run(Initial(n), trace).accepted
    ensures var p := Run(Initial(n), trace);
            multiset(p.queue)[c] + Held(p.workers)[c] + multiset(p.closed)[c] == 1
  {
    var p := Run(Initial(n), trace);
    InitialOk(n);
    RunKeepsOk(Initial(n), trace);
    DistinctOnce(p.accepted, c);
  }

  // Workers take connections in the order in which they were accepted, and what they have
  // not taken by the exit signal is drained.
  lemma FirstInFirstOut(n: nat, trace: seq<Step>)
    requires Legal(Initial(n), trace)
    ensures var p := Run(Initial(n), trace);
            p.accepted == p.taken + p.drained + p.queue && (p.exiting ==> p.accepted == p.taken + p.drained)
  {
    InitialOk(n);
    RunKeepsOk(Initial(n), trace);
  }
}
