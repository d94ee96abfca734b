// The linked FIFO between the accepting thread and the transfer workers.
module TaskQueue {
  import opened Wrappers
  import opened WorkerPool

  class QueueNode {
    const fd: int
    var next: QueueNode?

    constructor (fd: int)
      ensures this.fd == fd && next == null
    {
      this.fd, next := fd, null;
    }
  }

  class Queue {
    var head: QueueNode?
    var end: QueueNode?
    var size: int
    ghost var nodes: seq<QueueNode>
    // The queued descriptors, oldest first.
    ghost var contents: seq<int>

    ghost predicate Valid()
      reads this, nodes
    {
      && size == |nodes| == |contents| && (forall i :: 0 <= i < |nodes| ==> nodes[i].fd == contents[i])
      && (if nodes == [] then head == null && end == null else head == nodes[0] && end == nodes[|nodes| - 1])
      && (forall i {:trigger nodes[i].next} :: 0 <= i < |nodes| ==>
            nodes[i].next == if i + 1 < |nodes| then nodes[i + 1] else null)
      && (forall i, j :: 0 <= i < j < |nodes| ==> nodes[i] != nodes[j])
    }

    constructor ()
      ensures Valid() && contents == []
    {
      head, end, size := null, null, 0;
      nodes, contents := [], [];
    }

    method EnQueue(fd: int)
      requires Valid()
      modifies this, nodes
      ensures Valid() && contents == old(contents) + [fd]
      ensures forall n :: n in nodes ==> n in old(nodes) || fresh(n)
    {
      var node := new QueueNode(fd);
      if size == 0 {
        head, end := node, node;
      } else {
        assert nodes[|nodes| - 1].next == null;
        end.next := node;
        end := node;
      }
      nodes, contents := nodes + [node], contents + [fd];
      size := size + 1;
    }

    // -1 when there is nothing to take.
    method DeQueue() returns (fd: int)
      requires Valid()
      modifies this
      ensures Valid()
      ensures if old(contents) == [] then fd == -1 && contents == []
              else old(contents) == [fd] + contents
      ensures forall n :: n in nodes ==> n in old(nodes)
    {
      if size == 0 {
        return -1;
      }
      var p := head;
      fd := p.fd;
      assert nodes[0].next == if 1 < |nodes| then nodes[1] else null;
      head := p.next;
      if size == 1 {
        end := null;
      }
      size := size - 1;
      nodes, contents := nodes[1..], contents[1..];
      assert forall i :: 0 <= i < |nodes| ==> nodes[i] == old(nodes)[i + 1];
    }
  }

  // What a worker finds when it holds the lock.
  datatype Found = Nothing | Leaving | Task(fd: int)

  // `xs` are the descriptors of the connections `cs`, where connection c came in on fds[c].
  ghost predicate Names(cs: seq<nat>, xs: seq<int>, fds: seq<int>)
  {
    |cs| == |xs| && forall i :: 0 <= i < |cs| ==> cs[i] < |fds| && xs[i] == fds[cs[i]]
  }

  // The entry of busy_fds for a worker.
  ghost predicate BusyAs(w: Worker, fd: int, fds: seq<int>)
  {
    match w
    case Serving(c) => c < |fds| && fd == fds[c]
    case Closing(c) => c < |fds| && fd == fds[c]
    case _ => fd == -1
  }

  lemma NamesGrow(cs: seq<nat>, xs: seq<int>, fds: seq<int>, fd: int)
    requires Names(cs, xs, fds)
    ensures Names(cs, xs, fds + [fd]) && Names(cs + [|fds|], xs + [fd], fds + [fd])
  {
  }

  lemma BusyGrows(w: Worker, busy: int, fds: seq<int>, fd: int)
    requires BusyAs(w, busy, fds)
    ensures BusyAs(w, busy, fds + [fd]) && (w == Asleep ==> busy == -1)
  {
  }

  lemma IdleAnyway(fds: seq<int>)
    ensures BusyAs(Ready, -1, fds) && BusyAs(Asleep, -1, fds)
  {
  }

  // The thread pool's shared state: `waiting` is the condition variable, the workers that
  // sleep on it, and `closed` records every descriptor that was closed. Each method is one
  // step of the worker pool, whose state is `model`.
  class ThreadPool {
    const queue: Queue
    const busyFds: array<int>
    const waiting: array<bool>
    var exitFlag: bool
    var closed: seq<int>
    ghost var model: Pool
    ghost var fds: seq<int>

    ghost predicate Valid()
      reads this, queue, queue.nodes, busyFds, waiting
    {
      && queue.Valid() && Ok(model)
      && exitFlag == model.exiting
      && Names(model.queue, queue.contents, fds) && Names(model.closed, closed, fds)
      && (forall c :: c in model.accepted ==> c < |fds|)
      && (forall c :: 0 <= c < |fds| ==> fds[c] >= 0)
      && |model.workers| == busyFds.Length
      && (forall i :: 0 <= i < busyFds.Length ==> BusyAs(model.workers[i], busyFds[i], fds))
      && waiting.Length == busyFds.Length
      && (forall i :: 0 <= i < waiting.Length ==> (waiting[i] <==> model.workers[i] == Asleep))
    }

    constructor (num: nat)
      ensures Valid() && fresh(queue) && fresh(busyFds) && fresh(waiting) && model == Initial(num) && fds == []
    {
      queue := new Queue();
      busyFds := new int[num](_ => -1);
      waiting := new bool[num](_ => false);
      exitFlag, closed := false, [];
      model, fds := Initial(num), [];
      InitialOk(num);
    }

    // cond_signal: one sleeper, nobody says which, stops waiting.
    method Signal() returns (woken: Option<nat>)
      modifies waiting
      ensures match woken
              case Some(i) => i < waiting.Length && old(waiting[i]) && waiting[..] == old(waiting[..])[i := false]
              case None => waiting[..] == old(waiting[..]) && forall i :: 0 <= i < waiting.Length ==> !waiting[i]
    {
      if i: nat :| i < waiting.Length && waiting[i] {
        waiting[i] := false;
        return Some(i);
      }
      return None;
    }

    // The accepting thread hands over a transfer connection and signals.
    method Enqueue(fd: int) returns (woken: Option<nat>)
      requires Valid() && fd >= 0 && !exitFlag
      modifies this`model, this`fds, queue, queue.nodes, waiting
      ensures Valid() && fds == old(fds) + [fd]
      ensures Enabled(old(model), Accept(|old(fds)|, woken)) && model == Next(old(model), Accept(|old(fds)|, woken))
    {
      hide Ok, Names, BusyAs;
      NamesGrow(model.queue, queue.contents, fds, fd);
      NamesGrow(model.closed, closed, fds, fd);
      forall i | 0 <= i < busyFds.Length
        ensures BusyAs(model.workers[i], busyFds[i], fds + [fd])
        ensures model.workers[i] == Asleep ==> busyFds[i] == -1
      {
        BusyGrows(model.workers[i], busyFds[i], fds, fd);
      }
      IdleAnyway(fds + [fd]);
      queue.EnQueue(fd);
      woken := Signal();
      assert woken.Some? ==> waiting[..][woken.value] == false;
      assert forall i :: 0 <= i < waiting.Length ==> waiting[i] == waiting[..][i];
      ghost var step := Accept(|fds|, woken);
      StepKeepsOk(model, step);
      model, fds := Next(model, step), fds + [fd];
    }

    // One pass of worker `i` through the lock: wait, leave, or take a task. A task is always
    // a real one: the queue is never dequeued while it is empty.
    method NextTask(i: nat) returns (found: Found)
      requires Valid() && i < busyFds.Length && model.workers[i] == Ready
      modifies this`model, queue, busyFds, waiting
      ensures Valid() && match found
                         case Nothing => Enabled(old(model), Sleep(i)) && model == Next(old(model), Sleep(i))
                         case Leaving => Enabled(old(model), Leave(i)) && model == Next(old(model), Leave(i))
                         case Task(fd) => Enabled(old(model), Take(i)) && model == Next(old(model), Take(i))
                                          && fd == busyFds[i] >= 0
    {
      hide Ok;
      ghost var step := if exitFlag then Leave(i) else if queue.contents == [] then Sleep(i) else Take(i);
      StepKeepsOk(model, step);
      model := Next(model, step);
      if queue.size == 0 && !exitFlag {
        waiting[i] := true;
        return Nothing;
      }
      if exitFlag {
        return Leaving;
      }
      var fd := queue.DeQueue();
      busyFds[i] := fd;
      return Task(fd);
    }

    // cond_wait returns although nobody has signalled.
    method WakeUp(i: nat)
      requires Valid() && i < waiting.Length && waiting[i]
      modifies this`model, waiting
      ensures Valid() && Enabled(old(model), Wake(i)) && model == Next(old(model), Wake(i))
    {
      hide Ok;
      StepKeepsOk(model, Wake(i));
      waiting[i] := false;
      model := Next(model, Wake(i));
    }

    // After a request was handled: the descriptor is closed, without the lock.
    method Close(i: nat, fd: int)
      requires Valid() && i < busyFds.Length && model.workers[i].Serving? && fd == busyFds[i]
      modifies this`model, this`closed
      ensures Valid() && closed == old(closed) + [fd] && model == Next(old(model), Step.Close(i))
    {
      hide Ok;
      StepKeepsOk(model, Step.Close(i));
      closed := closed + [fd];
      model := Next(model, Step.Close(i));
    }

    // The lock is taken once more to clear the busy entry.
    method Clear(i: nat)
      requires Valid() && i < busyFds.Length && model.workers[i].Closing?
      modifies this`model, busyFds
      ensures Valid() && model == Next(old(model), Step.Clear(i)) && model.workers[i] == Ready && busyFds[i] == -1
    {
      hide Ok;
      StepKeepsOk(model, Step.Clear(i));
      busyFds[i] := -1;
      model := Next(model, Step.Clear(i));
    }

    // The exit signal: everything still queued is closed, in order, and nothing else; then
    // cond_broadcast wakes every sleeper.
    method DrainAtExit()
      requires Valid() && !exitFlag
      modifies this`exitFlag, this`closed, this`model, queue, waiting
      ensures Valid() && model == Next(old(model), Exit)
      ensures queue.contents == [] && closed == old(closed) + old(queue.contents)
    {
      hide Ok;
      exitFlag := true;
      DrainQueue();
      forall i | 0 <= i < waiting.Length {
        waiting[i] := false;
      }
      StepKeepsOk(model, Exit);
      model := Next(model, Exit);
    }

    method DrainQueue()
      requires queue.Valid() && forall fd :: fd in queue.contents ==> fd >= 0
      modifies this`closed, queue
      ensures queue.Valid() && queue.contents == [] && closed == old(closed) + old(queue.contents)
      ensures forall n :: n in queue.nodes ==> n in old(queue.nodes)
    {
      ghost var all := queue.contents;
      while queue.size > 0
        invariant queue.Valid() && closed + queue.contents == old(closed) + all
        invariant forall fd :: fd in queue.contents ==> fd >= 0
        invariant forall n :: n in queue.nodes ==> n in old(queue.nodes)
        decreases queue.size
      {
        ghost var before := queue.contents;
        var clientFd := queue.DeQueue();
        assert before[0] in before && forall fd :: fd in queue.contents ==> fd in before;
        if clientFd != -1 {
          assert closed + before == closed + [clientFd] + queue.contents;
          closed := closed + [clientFd];
        }
      }
      assert closed + [] == closed;
    }
  }
}
