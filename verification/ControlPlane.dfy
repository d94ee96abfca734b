// The control-connection time wheel and the registry that owns it: sixty slots of intrusive
// doubly linked lists, and the table from descriptor to connection. The two are one module
// because a tick calls back into the registry while it walks a slot.
module ControlPlane {
  import opened WheelSpec

  const MAX_CONTROL_FD: int := 65536

  class TimeWheelNode {
    const conn: ControlConn
    var prev: TimeWheelNode?
    var next: TimeWheelNode?

    constructor (conn: ControlConn)
      ensures this.conn == conn && prev == null && next == null
    {
      this.conn := conn;
      prev, next := null, null;
    }
  }

  class ControlConn {
    const fd: int
    var expireTick: int
    var wheelSlot: int
    var wheelNode: TimeWheelNode?

    constructor (fd: int)
      ensures this.fd == fd && expireTick == 0 && wheelSlot == -1 && wheelNode == null
    {
      this.fd := fd;
      expireTick, wheelSlot, wheelNode := 0, -1, null;
    }
  }

  ghost function At(chain: seq<TimeWheelNode>, i: int): TimeWheelNode?
  {
    if 0 <= i < |chain| then chain[i] else null
  }

  // `head` starts a well-formed doubly linked list over exactly the nodes of `chain`.
  ghost predicate Linked(head: TimeWheelNode?, chain: seq<TimeWheelNode>)
    reads chain
  {
    && head == At(chain, 0)
    && (forall i {:trigger chain[i].prev} :: 0 <= i < |chain| ==> chain[i].prev == At(chain, i - 1))
    && (forall i {:trigger chain[i].next} :: 0 <= i < |chain| ==> chain[i].next == At(chain, i + 1))
    && (forall i, j :: 0 <= i < j < |chain| ==> chain[i] != chain[j])
  }

  ghost function Without<T>(s: seq<T>, k: nat): seq<T>
    requires k < |s|
  {
    s[..k] + s[k + 1..]
  }

  // What a walk remembers of its beginning.
  datatype Moment = Moment(conns: set<ControlConn>, due: map<ControlConn, int>,
                                 slot: map<ControlConn, int>, log: seq<ControlConn>)

  // The neighbour half of detach_node: `node` leaves its list.
  method Unlink(node: TimeWheelNode, ghost chain: seq<TimeWheelNode>, ghost k: nat)
    requires k < |chain| && chain[k] == node && Linked(chain[0], chain)
    modifies chain
    ensures Linked(if k > 0 then chain[0] else old(node.next), Without(chain, k))
    ensures node.prev == null && node.next == null
  {
    assert chain[k].prev == At(chain, k - 1) && chain[k].next == At(chain, k + 1);
    if node.prev != null {
      node.prev.next := node.next;
    }
    if node.next != null {
      node.next.prev := node.prev;
    }
    node.prev := null;
    node.next := null;
    ghost var rest := Without(chain, k);
    forall i | 0 <= i < |rest|
      ensures rest[i].prev == At(rest, i - 1) && rest[i].next == At(rest, i + 1)
    {
      var j := if i < k then i else i + 1;
      assert rest[i] == chain[j] != node;
      assert old(chain[j].prev) == At(chain, j - 1) && old(chain[j].next) == At(chain, j + 1);
    }
  }

  ghost predicate AllLinked(slots: array<TimeWheelNode?>, chains: seq<seq<TimeWheelNode>>, nodes: set<TimeWheelNode>)
    reads slots, nodes
  {
    && slots.Length == |chains|
    && (forall s, n :: 0 <= s < |chains| && n in chains[s] ==> n in nodes)
    && (forall s :: 0 <= s < |chains| ==> Linked(slots[s], chains[s]))
  }

  ghost predicate Disjoint(chains: seq<seq<TimeWheelNode>>)
  {
    forall s, t, n :: 0 <= s < |chains| && 0 <= t < |chains| && s != t && n in chains[s] ==> n !in chains[t]
  }

  // detach_node on the slot array: `node` leaves the list of slot `s`.
  method UnlinkFromSlot(slots: array<TimeWheelNode?>, s: int, node: TimeWheelNode,
                        ghost chains: seq<seq<TimeWheelNode>>, ghost nodes: set<TimeWheelNode>) returns (ghost k: nat)
    requires AllLinked(slots, chains, nodes) && Disjoint(chains)
    requires 0 <= s < |chains| && node in chains[s]
    modifies slots, chains[s]
    ensures k < |chains[s]| && chains[s][k] == node
    ensures AllLinked(slots, chains[s := Without(chains[s], k)], nodes)
    ensures forall i, j :: 0 <= i < j < |chains[s]| ==> chains[s][i] != chains[s][j]
    ensures node.prev == null && node.next == null
  {
    k :| k < |chains[s]| && chains[s][k] == node;
    assert node.prev == At(chains[s], k - 1);
    if node.prev == null {
      slots[s] := node.next;
    }
    Unlink(node, chains[s], k);
    forall t, i | 0 <= t < |chains| && t != s && 0 <= i < |chains[t]|
      ensures chains[t][i].prev == At(chains[t], i - 1) && chains[t][i].next == At(chains[t], i + 1)
    {
      assert chains[t][i] in chains[t];
      assert old(chains[t][i].prev) == At(chains[t], i - 1) && old(chains[t][i].next) == At(chains[t], i + 1);
    }
  }

  // The list half of time_wheel_add: `node` becomes the head of the list at `head`.
  method LinkFront(node: TimeWheelNode, head: TimeWheelNode?, ghost chain: seq<TimeWheelNode>)
    requires Linked(head, chain) && node !in chain
    modifies node, chain
    ensures Linked(node, [node] + chain)
  {
    node.prev := null;
    node.next := head;
    if head != null {
      head.prev := node;
    }
    forall i | 0 < i < |chain| + 1
      ensures ([node] + chain)[i].prev == At([node] + chain, i - 1)
      ensures ([node] + chain)[i].next == At([node] + chain, i + 1)
    {
      assert old(chain[i - 1].prev) == At(chain, i - 2) && old(chain[i - 1].next) == At(chain, i);
    }
  }

  method LinkToSlot(slots: array<TimeWheelNode?>, s: int, node: TimeWheelNode,
                    ghost chains: seq<seq<TimeWheelNode>>, ghost nodes: set<TimeWheelNode>)
    requires AllLinked(slots, chains, nodes) && Disjoint(chains)
    requires 0 <= s < |chains| && forall t :: 0 <= t < |chains| ==> node !in chains[t]
    modifies slots, chains[s], node
    ensures AllLinked(slots, chains[s := [node] + chains[s]], nodes + {node})
  {
    LinkFront(node, slots[s], chains[s]);
    slots[s] := node;
    forall t, i | 0 <= t < |chains| && t != s && 0 <= i < |chains[t]|
      ensures chains[t][i].prev == At(chains[t], i - 1) && chains[t][i].next == At(chains[t], i + 1)
    {
      assert chains[t][i] in chains[t];
      assert old(chains[t][i].prev) == At(chains[t], i - 1) && old(chains[t][i].next) == At(chains[t], i + 1);
    }
  }

  class TimeWheel {
    const slots: array<TimeWheelNode?>
    const timeoutSec: int
    var currentTick: int
    ghost var due: map<ControlConn, int>
    ghost var conns: set<ControlConn>
    ghost var nodes: set<TimeWheelNode>
    ghost var chains: seq<seq<TimeWheelNode>>

    // Every chain is a proper list, and the attached connections are exactly the owners of
    // the chained nodes, each in the slot it claims to be in.
    ghost predicate Shaped()
      reads this`due, this`conns, this`nodes, this`chains, slots, conns, nodes
    {
      && due.Keys == conns
      && slots.Length == SLOT_COUNT && |chains| == SLOT_COUNT
      && Members(conns, nodes, chains)
      && AllLinked(slots, chains, nodes)
    }

    static ghost predicate Members(conns: set<ControlConn>, nodes: set<TimeWheelNode>,
                                   chains: seq<seq<TimeWheelNode>>)
      reads conns
    {
      && |chains| == SLOT_COUNT
      && (forall c :: c in conns ==> OwnsNode(c, nodes, chains))
      && (forall s, n :: 0 <= s < SLOT_COUNT && n in chains[s] ==> n in nodes && n.conn in conns && InSlot(n, s))
    }

    static ghost predicate OwnsNode(c: ControlConn, nodes: set<TimeWheelNode>, chains: seq<seq<TimeWheelNode>>)
      requires |chains| == SLOT_COUNT
      reads c
    {
      && c.wheelNode != null && c.wheelNode.conn == c && c.wheelNode in nodes
      && 0 <= c.wheelSlot < SLOT_COUNT && c.wheelNode in chains[c.wheelSlot]
    }

    static ghost predicate InSlot(n: TimeWheelNode, s: int)
      reads n.conn
    {
      n.conn.wheelNode == n && n.conn.wheelSlot == s
    }

    // `due` records the deadline of every attached connection, and the slot is the deadline's.
    ghost predicate Timely()
      reads this`currentTick, this`due, this`conns, conns
    {
      && timeoutSec > 0 && currentTick >= 0
      && forall c :: c in conns && c in due ==>
           && c.expireTick == due[c]
           && c.wheelSlot == due[c] % SLOT_COUNT
           && currentTick < due[c] <= currentTick + timeoutSec
    }

    ghost function View(): Clock<ControlConn>
      reads this`currentTick, this`due
    {
      Clock(currentTick, timeoutSec, due)
    }

    constructor (timeoutSec: int)
      requires timeoutSec > 0
      ensures Shaped() && Timely() && View() == Clock(0, timeoutSec, map[]) && conns == {}
      ensures fresh(slots) && nodes == {}
    {
      slots := new TimeWheelNode?[SLOT_COUNT](_ => null);
      this.timeoutSec := timeoutSec;
      currentTick := 0;
      due, conns, nodes := map[], {}, {};
      chains := seq(SLOT_COUNT, _ => []);
    }

    static lemma MembersAreDisjoint(conns: set<ControlConn>, nodes: set<TimeWheelNode>, chains: seq<seq<TimeWheelNode>>)
      requires Members(conns, nodes, chains)
      ensures Disjoint(chains)
    {
      forall s, t, n | 0 <= s < |chains| && 0 <= t < |chains| && s != t && n in chains[s]
        ensures n !in chains[t]
      {
        assert InSlot(n, s);
      }
    }

    lemma MembersWithout(c: ControlConn, k: nat)
      requires Members(conns, nodes, chains) && c in conns
      requires forall i, j :: 0 <= i < j < |chains[c.wheelSlot]| ==> chains[c.wheelSlot][i] != chains[c.wheelSlot][j]
      requires k < |chains[c.wheelSlot]| && chains[c.wheelSlot][k] == c.wheelNode
      ensures Members(conns - {c}, nodes, chains[c.wheelSlot := Without(chains[c.wheelSlot], k)])
    {
    }

    // Takes the node of `c` out of its list; the node itself stays with `c`.
    method DetachNode(c: ControlConn) returns (ghost k: nat)
      requires Shaped() && c in conns
      modifies this`due, this`chains, this`conns, slots, nodes
      ensures Shaped()
      ensures conns == old(conns) - {c} && due == old(due) - {c}
      ensures k < |old(chains)[c.wheelSlot]| && old(chains)[c.wheelSlot][k] == c.wheelNode
      ensures chains == old(chains)[c.wheelSlot := Without(old(chains)[c.wheelSlot], k)]
      ensures c.wheelNode.prev == null && c.wheelNode.next == null
    {
      hide Members, AllLinked, Linked;
      AttachedHasNode(c);
      MembersAreDisjoint(conns, nodes, chains);
      k := UnlinkFromSlot(slots, c.wheelSlot, c.wheelNode, chains, nodes);
      MembersWithout(c, k);
      chains := chains[c.wheelSlot := Without(chains[c.wheelSlot], k)];
      conns := conns - {c};
      due := due - {c};
    }

    lemma MembersWith(c: ControlConn, nodes': set<TimeWheelNode>)
      requires Members(conns, nodes, chains) && c !in conns && nodes <= nodes'
      requires c.wheelNode != null && c.wheelNode.conn == c && c.wheelNode in nodes' && 0 <= c.wheelSlot < SLOT_COUNT
      ensures Members(conns + {c}, nodes', chains[c.wheelSlot := [c.wheelNode] + chains[c.wheelSlot]])
    {
    }

    lemma AttachedHasNode(c: ControlConn)
      requires Shaped() && c in conns
      ensures OwnsNode(c, nodes, chains)
      ensures forall n :: n in chains[c.wheelSlot] ==> n in nodes
    {
    }

    lemma DueIsAttached()
      requires Shaped()
      ensures due.Keys == conns
    {
    }

    lemma OwnerHasNode(c: ControlConn)
      requires Shaped()
      ensures c.wheelNode == null ==> c !in conns && c !in due
    {
    }

    lemma NotChained(node: TimeWheelNode)
      requires Members(conns, nodes, chains) && node.conn !in conns
      ensures forall t :: 0 <= t < |chains| ==> node !in chains[t]
    {
    }

    // Puts the node of `c`, which is in no list, at the head of slot c.wheelSlot.
    method Link(c: ControlConn)
      requires Shaped() && c !in conns
      requires c.wheelNode != null && c.wheelNode.conn == c && 0 <= c.wheelSlot < SLOT_COUNT
      modifies this`due, this`chains, this`conns, this`nodes, slots, nodes, c.wheelNode
      ensures Shaped() && conns == old(conns) + {c} && nodes == old(nodes) + {c.wheelNode}
      ensures due == old(due)[c := c.expireTick]
    {
      hide Linked, OwnsNode, InSlot;
      MembersAreDisjoint(conns, nodes, chains);
      NotChained(c.wheelNode);
      MembersWith(c, nodes + {c.wheelNode});
      LinkToSlot(slots, c.wheelSlot, c.wheelNode, chains, nodes);
      chains := chains[c.wheelSlot := [c.wheelNode] + chains[c.wheelSlot]];
      nodes := nodes + {c.wheelNode};
      conns := conns + {c};
      due := due[c := c.expireTick];
    }

    method Add(c: ControlConn)
      requires Shaped() && Timely() && c !in conns
      requires c.wheelNode != null ==> c.wheelNode.conn == c
      modifies this`due, this`chains, this`conns, this`nodes, slots, nodes, c, c.wheelNode
      ensures Shaped() && Timely() && conns == old(conns) + {c}
      ensures View() == Apply(old(View()), Attach(c))
      ensures fresh(nodes - old(nodes) - {old(c.wheelNode)})
    {
      hide Shaped, AllLinked, Members, Linked, At;
      if c.wheelNode == null {
        c.wheelNode := new TimeWheelNode(c);
      }
      c.expireTick := currentTick + timeoutSec;
      c.wheelSlot := c.expireTick % SLOT_COUNT;
      Link(c);
    }

    method Refresh(c: ControlConn)
      requires Shaped() && Timely() && c in conns
      modifies this`due, this`chains, this`conns, this`nodes, slots, nodes, c
      ensures Shaped() && Timely() && conns == old(conns)
      ensures View() == Apply(old(View()), Attach(c))
      ensures fresh(nodes - old(nodes))
    {
      hide Shaped, AllLinked, Members, Linked;
      hide At, OwnsNode, InSlot;
      AttachedHasNode(c);
      if c.wheelNode != null && c.wheelSlot >= 0 {
        var _ := DetachNode(c);
      }
      assert Timely();
      Add(c);
      assert due == old(due)[c := currentTick + timeoutSec];
    }

    method Remove(c: ControlConn)
      requires Shaped() && (c.wheelNode != null ==> c in conns)
      modifies this`due, this`chains, this`conns, slots, nodes, c`wheelSlot, c`wheelNode
      ensures Shaped() && conns == old(conns) - {c} && due == old(due) - {c}
      ensures c.wheelNode == null
      ensures old(c.wheelNode) == null ==> chains == old(chains)
    {
      hide AllLinked, Members, Linked, Shaped;
      OwnerHasNode(c);
      if c.wheelNode == null {
        return;
      }
      var _ := DetachNode(c);
      c.wheelNode := null;
      c.wheelSlot := -1;
    }

    // The body of the walk for a node that is due.
    method Expire(conn: ControlConn, server: ControlServer) returns (ghost k: nat)
      requires Shaped() && conn in conns && server.wheel == this && server.TableIs(conns)
      modifies this`due, this`chains, this`conns, slots, nodes, conn`wheelSlot, conn`wheelNode
      modifies server`closed, server.connMap
      ensures Shaped() && conns == old(conns) - {conn} && server.TableIs(conns)
      ensures k < |old(chains)[old(conn.wheelSlot)]| && old(chains)[old(conn.wheelSlot)][k] == old(conn.wheelNode)
      ensures chains == old(chains)[old(conn.wheelSlot) := Without(old(chains)[old(conn.wheelSlot)], k)]
      ensures due == old(due) - {conn}
      ensures server.closed == old(server.closed) + [conn]
    {
      hide Shaped, AllLinked, Members, Linked;
      AttachedHasNode(conn);
      k := DetachNode(conn);
      conn.wheelNode := null;
      conn.wheelSlot := -1;
      server.HandleControlTimeout(conn, conns + {conn});
      assert conns + {conn} - {conn} == conns;
    }

    // What the walk reads off the node at position `at` of slot `s`.
    lemma WalkStep(s: int, at: nat)
      requires Shaped() && 0 <= s < SLOT_COUNT && at < |chains[s]|
      ensures var n := chains[s][at];
              n in nodes && n.next == At(chains[s], at + 1) && n.conn in conns && InSlot(n, s)
      ensures forall i, j :: 0 <= i < j < |chains[s]| ==> chains[s][i] != chains[s][j]
    {
    }

    lemma WalkStart(s: int)
      requires Shaped() && 0 <= s < SLOT_COUNT
      ensures |chains| == SLOT_COUNT && s < slots.Length && slots[s] == At(chains[s], 0)
      ensures forall c :: c in conns && c.wheelSlot == s ==>
                c.wheelNode != null && c.wheelNode.conn == c && c.wheelNode in chains[s]
      ensures forall n :: n in chains[s] ==> n.conn in conns && InSlot(n, s)
    {
    }

    // One step of the walk, at the node in position `at` of its list.
    method Visit(node: TimeWheelNode, server: ControlServer, ghost slot: int, ghost at: nat)
      returns (next: TimeWheelNode?)
      requires Shaped() && server.wheel == this && server.TableIs(conns)
      requires 0 <= slot < SLOT_COUNT && |chains| == SLOT_COUNT && at < |chains[slot]| && chains[slot][at] == node
      requires node.conn in conns
      modifies this`due, this`chains, this`conns, slots, nodes, node.conn`wheelSlot, node.conn`wheelNode
      modifies server`closed, server.connMap
      ensures Shaped() && server.TableIs(conns)
      ensures next == At(old(chains)[slot], at + 1)
      ensures if node.conn.expireTick <= currentTick then
                && conns == old(conns) - {node.conn} && due == old(due) - {node.conn}
                && chains == old(chains)[slot := Without(old(chains)[slot], at)]
                && server.closed == old(server.closed) + [node.conn]
              else
                && conns == old(conns) && due == old(due) && chains == old(chains)
                && server.closed == old(server.closed) && node.conn.wheelSlot == old(node.conn.wheelSlot)
    {
      hide Shaped, AllLinked, Members, Linked, LogGrewBy, ControlServer.TableIs, Timely;
      WalkStep(slot, at);
      next := node.next;
      if node.conn.expireTick <= currentTick {
        ghost var k := Expire(node.conn, server);
        assert k == at;
      }
    }

    // How far the walk of a slot is: of the list `walk` the first i nodes were visited and
    // `kept` of them are left; whoever went away since `from` was due, and was closed.
    ghost predicate Walking(server: ControlServer, slot: int, walk: seq<TimeWheelNode>, i: nat,
                            kept: seq<TimeWheelNode>, from: Moment)
      reads this`currentTick, this`due, this`chains, this`conns, from.conns, kept, set n | n in kept :: n.conn
      reads server`closed
    {
      && i <= |walk| && 0 <= slot < |chains| == SLOT_COUNT && chains[slot] == kept + walk[i..]
      && conns <= from.conns && due.Keys == conns && from.conns <= from.due.Keys && from.conns <= from.slot.Keys
      && (forall c :: c in from.conns ==>
            if c in conns then c.wheelSlot == from.slot[c] && due[c] == from.due[c] else c.expireTick <= currentTick)
      && (forall n :: n in kept ==> n.conn.expireTick > currentTick)
      && LogGrewBy(from.log, server.closed, from.conns - conns)
    }

    ghost function Now(log: seq<ControlConn>): Moment
      reads this`due, this`conns, conns
    {
      Moment(conns, due, map c | c in conns :: c.wheelSlot, log)
    }

    lemma WalkBegins(server: ControlServer, s: int)
      requires Shaped() && 0 <= s < SLOT_COUNT && due.Keys == conns
      ensures |chains| == SLOT_COUNT && s < slots.Length && slots[s] == At(chains[s], 0)
      ensures Walking(server, s, chains[s], 0, [], Now(server.closed))
    {
      hide Shaped, LogGrewBy;
      WalkStart(s);
      LogStart(server.closed);
      assert conns - conns == {} && [] + chains[s][0..] == chains[s];
    }

    lemma WalkAt(server: ControlServer, slot: int, walk: seq<TimeWheelNode>, i: nat, kept: seq<TimeWheelNode>,
                 from: Moment)
      requires Shaped() && Walking(server, slot, walk, i, kept, from)
      ensures i <= |walk| && conns <= from.conns
      ensures i < |walk| ==> At(walk, i) == walk[i] && walk[i] in nodes && walk[i].conn in conns
      ensures i == |walk| ==> At(walk, i) == null
    {
      hide Shaped, LogGrewBy;
      if i < |walk| {
        assert chains[slot][|kept|] == walk[i];
        WalkStep(slot, |kept|);
      }
    }

    // One turn of the loop over a slot.
    method WalkOn(node: TimeWheelNode, server: ControlServer, ghost slot: int, ghost walk: seq<TimeWheelNode>,
                  ghost i: nat, ghost kept: seq<TimeWheelNode>, ghost from: Moment)
      returns (next: TimeWheelNode?, ghost kept': seq<TimeWheelNode>)
      requires Shaped() && server.wheel == this && server.TableIs(conns)
      requires i < |walk| && node == walk[i] && Walking(server, slot, walk, i, kept, from)
      requires node.conn in conns
      modifies this`due, this`chains, this`conns, slots, nodes, node.conn`wheelSlot, node.conn`wheelNode
      modifies server`closed, server.connMap
      ensures Shaped() && server.TableIs(conns)
      ensures next == At(walk, i + 1) && Walking(server, slot, walk, i + 1, kept', from)
    {
      hide Shaped, AllLinked, Members, Linked, LogGrewBy, ControlServer.TableIs, Timely;
      hide OwnsNode, DueNext, Apply, At, Without;
      NextInWalk(kept, walk, i);
      DropWalked(kept, walk, i);
      LogGrows(from.log, server.closed, from.conns - conns, node.conn);
      OneMoreGone(from.conns, conns, node.conn);
      next := Visit(node, server, slot, |kept|);
      kept' := if node.conn.expireTick > currentTick then kept + [node] else kept;
    }

    // The walk of one slot: every connection of the slot that is due is taken away. The
    // owner's callback closes it and re-enters Remove on this wheel while the walk is under way.
    method WalkSlot(slot: int, server: ControlServer) returns (ghost kept: seq<TimeWheelNode>)
      requires Shaped() && server.wheel == this && server.TableIs(conns) && 0 <= slot < SLOT_COUNT
      requires due.Keys == conns
      modifies this`due, this`chains, this`conns, slots, nodes, conns`wheelSlot, conns`wheelNode
      modifies server`closed, server.connMap
      ensures Shaped() && server.TableIs(conns)
      ensures |chains| == SLOT_COUNT && chains[slot] == kept
      ensures conns <= old(conns) && due.Keys == conns
      ensures forall c :: c in old(conns) ==>
        if c in conns then c.wheelSlot == old(c.wheelSlot) && due[c] == old(due)[c] else c.expireTick <= currentTick
      ensures forall n :: n in kept ==> n.conn.expireTick > currentTick
      ensures LogGrewBy(old(server.closed), server.closed, old(conns) - conns)
    {
      hide Shaped, AllLinked, Members, Linked, LogGrewBy, ControlServer.TableIs, Timely, OwnsNode, At, Without;
      hide Walking;
      ghost var from := Now(server.closed);
      WalkBegins(server, slot);
      var node := slots[slot];
      ghost var walk, i := chains[slot], 0;
      kept := [];
      while node != null
        invariant Shaped() && server.TableIs(conns)
        invariant node == At(walk, i) && Walking(server, slot, walk, i, kept, from)
        invariant i <= |walk|
        decreases |walk| - i
      {
        WalkAt(server, slot, walk, i, kept, from);
        node, kept := WalkOn(node, server, slot, walk, i, kept, from);
        i := i + 1;
      }
      WalkAt(server, slot, walk, i, kept, from);
      WalkEnds(server, slot, walk, kept, from);
    }

    lemma WalkEnds(server: ControlServer, slot: int, walk: seq<TimeWheelNode>, kept: seq<TimeWheelNode>, from: Moment)
      requires Walking(server, slot, walk, |walk|, kept, from)
      ensures 0 <= slot < |chains| == SLOT_COUNT && chains[slot] == kept
      ensures conns <= from.conns && due.Keys == conns
      ensures from.conns <= from.due.Keys && from.conns <= from.slot.Keys
      ensures forall c :: c in from.conns ==>
        if c in conns then c.wheelSlot == from.slot[c] && due[c] == from.due[c] else c.expireTick <= currentTick
      ensures forall n :: n in kept ==> n.conn.expireTick > currentTick
      ensures LogGrewBy(from.log, server.closed, from.conns - conns)
    {
    }

    // One second passes.
    method Tick(server: ControlServer)
      requires Shaped() && Timely() && server.wheel == this && server.TableIs(conns)
      modifies this`currentTick, this`due, this`chains, this`conns, slots, nodes, conns`wheelSlot, conns`wheelNode
      modifies server`closed, server.connMap
      ensures Shaped() && Timely() && server.TableIs(conns)
      ensures View() == Apply(old(View()), Second)
      ensures conns <= old(conns)
      ensures LogGrewBy(old(server.closed), server.closed, old(conns) - conns)
    {
      hide Shaped, AllLinked, Members, Linked, LogGrewBy, ControlServer.TableIs, At, Without;
      currentTick := currentTick + 1;
      var slot := currentTick % SLOT_COUNT;
      DueIsAttached();
      ghost var kept := WalkSlot(slot, server);
      WalkStart(slot);
      forall c | c in conns
        ensures due[c] > currentTick
      {
        if c.wheelSlot == slot {
          assert c.wheelNode in kept && c.wheelNode.conn == c;
        }
      }
      assert due == old(due) - DueNext(old(View()));
    }
  }

  // Between two readings of the log exactly the connections in `gone` were closed, each once.
  ghost predicate LogGrewBy(before: seq<ControlConn>, after: seq<ControlConn>, gone: set<ControlConn>)
  {
    && before <= after
    && gone == (set c | c in after[|before|..])
  }

  lemma OneMoreGone<T>(all: set<T>, live: set<T>, c: T)
    requires c in live && live <= all
    ensures all - live + {c} == all - (live - {c})
  {
  }

  lemma LogStart(log: seq<ControlConn>)
    ensures LogGrewBy(log, log, {})
  {
  }

  lemma LogGrows(before: seq<ControlConn>, after: seq<ControlConn>, gone: set<ControlConn>, c: ControlConn)
    requires LogGrewBy(before, after, gone)
    ensures LogGrewBy(before, after + [c], gone + {c})
  {
    assert (after + [c])[|before|..] == after[|before|..] + [c];
  }

  lemma NextInWalk(kept: seq<TimeWheelNode>, walk: seq<TimeWheelNode>, i: nat)
    requires i < |walk|
    ensures At(kept + walk[i..], |kept| + 1) == At(walk, i + 1)
  {
  }

  lemma DropWalked<T>(kept: seq<T>, walk: seq<T>, i: nat)
    requires i < |walk|
    ensures Without(kept + walk[i..], |kept|) == kept + walk[i + 1..]
    ensures kept + walk[i..] == kept + [walk[i]] + walk[i + 1..]
  {
  }

  ghost predicate Accounted(registered: set<ControlConn>, live: set<ControlConn>, closed: seq<ControlConn>)
  {
    registered == live + set c | c in closed
  }

  lemma StillAccounted(registered: set<ControlConn>, live: set<ControlConn>, log: seq<ControlConn>,
                       live': set<ControlConn>, log': seq<ControlConn>)
    requires Accounted(registered, live, log) && live' <= live && LogGrewBy(log, log', live - live')
    ensures Accounted(registered, live', log')
  {
    assert log' == log + log'[|log|..];
    assert forall c :: c in live - live' <==> c in log'[|log|..];
    assert (set c | c in log') == (set c | c in log) + (live - live');
  }

  // The main thread's table of control connections.
  class ControlServer {
    const wheel: TimeWheel
    const connMap: array<ControlConn?>
    // Every connection whose descriptor was closed and whose memory was freed, in order.
    ghost var closed: seq<ControlConn>
    // Every connection that was ever registered.
    ghost var registered: set<ControlConn>

    // The table holds exactly `live`, each connection under its own descriptor; no live
    // connection was freed, and nothing was freed twice.
    ghost predicate TableIs(live: set<ControlConn>)
      reads this`closed, connMap
    {
      && connMap.Length == MAX_CONTROL_FD
      && (forall fd :: 0 <= fd < MAX_CONTROL_FD && connMap[fd] != null ==> connMap[fd].fd == fd && connMap[fd] in live)
      && (forall c :: c in live ==> 0 <= c.fd < MAX_CONTROL_FD && connMap[c.fd] == c)
      && (forall c :: c in live ==> c !in closed)
      && (forall i, j :: 0 <= i < j < |closed| ==> closed[i] != closed[j])
    }

    constructor (timeoutSec: int)
      requires timeoutSec > 0
      ensures Valid() && wheel.conns == {} && closed == []
      ensures wheel.View() == Clock(0, timeoutSec, map[])
      ensures fresh(wheel) && fresh(wheel.slots) && fresh(connMap) && fresh(wheel.nodes)
    {
      wheel := new TimeWheel(timeoutSec);
      connMap := new ControlConn?[MAX_CONTROL_FD](_ => null);
      closed := [];
      registered := {};
    }

    // The connections of the table, some of which a running tick may already have detached.
    method CloseControlConnection(fd: int, ghost live: set<ControlConn>)
      requires wheel.Shaped() && TableIs(live) && wheel.conns <= live
      requires forall c :: c in live - wheel.conns ==> c.wheelNode == null
      modifies this`closed, connMap, wheel`due, wheel`chains, wheel`conns, wheel.slots, wheel.nodes
      modifies (set c | c in live && c.fd == fd)`wheelSlot, (set c | c in live && c.fd == fd)`wheelNode
      ensures wheel.Shaped() && TableIs(set c | c in live && c.fd != fd)
      ensures wheel.conns == set c | c in old(wheel.conns) && c.fd != fd
      ensures wheel.due == old(wheel.due) - set c | c in live && c.fd == fd
      ensures var open := 0 <= fd < MAX_CONTROL_FD && old(connMap[fd]) != null;
              closed == old(closed) + if open then [old(connMap[fd])] else []
      ensures (forall c :: c in old(wheel.conns) ==> c.fd != fd) ==> wheel.chains == old(wheel.chains)
    {
      hide TimeWheel.Shaped, AllLinked, Linked;
      if fd < 0 || fd >= MAX_CONTROL_FD {
        return;
      }
      var conn := connMap[fd];
      if conn == null {
        return;
      }
      wheel.Remove(conn);
      closed := closed + [conn];
      connMap[fd] := null;
    }

    method HandleControlTimeout(conn: ControlConn, ghost live: set<ControlConn>)
      requires wheel.Shaped() && TableIs(live) && conn in live && conn.wheelNode == null
      requires wheel.conns == live - {conn}
      modifies this`closed, connMap, wheel`due, wheel`chains, wheel`conns, wheel.slots, wheel.nodes
      modifies conn`wheelSlot, conn`wheelNode
      ensures wheel.Shaped() && TableIs(live - {conn})
      ensures wheel.conns == old(wheel.conns) && wheel.chains == old(wheel.chains)
      ensures wheel.due == old(wheel.due) - {conn}
      ensures closed == old(closed) + [conn]
    {
      assert (set c | c in live && c.fd == conn.fd) == {conn};
      CloseControlConnection(conn.fd, live);
      assert (set c | c in live && c.fd != conn.fd) == live - {conn};
    }

    // The table and the wheel hold the same connections, and every connection ever registered
    // is either still there or was closed and freed, once.
    ghost predicate Valid()
      reads this`closed, this`registered, connMap, wheel, wheel.slots, wheel.conns, wheel.nodes
    {
      && wheel.Shaped() && wheel.Timely() && TableIs(wheel.conns)
      && Accounted(registered, wheel.conns, closed)
    }

    // A new control connection. The kernel hands out a descriptor no open connection uses.
    method RegisterControlConnection(connFd: int) returns (ok: bool, ghost conn: ControlConn?)
      requires Valid() && connFd >= 0
      requires connFd < MAX_CONTROL_FD ==> connMap[connFd] == null
      modifies this`registered, connMap, wheel`due, wheel`chains, wheel`conns, wheel`nodes, wheel.slots, wheel.nodes
      ensures Valid() && fresh(wheel.nodes - old(wheel.nodes)) && fresh(wheel.conns - old(wheel.conns))
      ensures ok == (connFd < MAX_CONTROL_FD)
      ensures !ok ==> wheel.View() == old(wheel.View())
      ensures ok ==> conn != null && fresh(conn) && conn.fd == connFd
                     && wheel.View() == Apply(old(wheel.View()), Attach(conn))
    {
      hide TimeWheel.Shaped, AllLinked, Linked;
      if connFd >= MAX_CONTROL_FD {
        return false, null;
      }
      var c := new ControlConn(connFd);
      connMap[connFd] := c;
      wheel.Add(c);
      registered := registered + {c};
      return true, c;
    }

    // The peer of a live connection is gone.
    method Disconnect(conn: ControlConn)
      requires Valid() && conn in wheel.conns
      modifies this`closed, connMap, wheel`due, wheel`chains, wheel`conns, wheel.slots, wheel.nodes
      modifies conn`wheelSlot, conn`wheelNode
      ensures Valid() && wheel.conns == old(wheel.conns) - {conn}
      ensures wheel.View() == Apply(old(wheel.View()), Event<ControlConn>.Detach(conn))
      ensures closed == old(closed) + [conn]
    {
      hide TimeWheel.Shaped, AllLinked, Linked, Accounted;
      ghost var log, live := closed, wheel.conns;
      assert (set c | c in live && c.fd == conn.fd) == {conn};
      CloseControlConnection(conn.fd, live);
      assert live - wheel.conns == {conn} && closed[|log|..] == [conn];
      StillAccounted(registered, live, log, wheel.conns, closed);
    }

    // A readable control connection: either the peer is gone, or one command is dispatched
    // and the connection's deadline moves.
    method HandleControlEvent(fd: int, received: bool)
      requires Valid()
      modifies this`closed, connMap, wheel`due, wheel`chains, wheel`conns, wheel`nodes
      modifies wheel.slots, wheel.nodes, wheel.conns
      ensures Valid() && fresh(wheel.nodes - old(wheel.nodes)) && wheel.conns <= old(wheel.conns)
      ensures var conn := if 0 <= fd < MAX_CONTROL_FD then old(connMap[fd]) else null;
              && (conn == null ==> wheel.View() == old(wheel.View()) && closed == old(closed))
              && (conn != null && received ==>
                    wheel.View() == Apply(old(wheel.View()), Event<ControlConn>.Attach(conn)) && closed == old(closed))
              && (conn != null && !received ==>
                    wheel.View() == Apply(old(wheel.View()), Event<ControlConn>.Detach(conn))
                    && closed == old(closed) + [conn])
    {
      hide TimeWheel.Shaped, AllLinked, Linked, Accounted, Apply, TimeWheel.View;
      if fd < 0 || fd >= MAX_CONTROL_FD {
        return;
      }
      var conn := connMap[fd];
      if conn == null {
        return;
      }
      if !received {
        Disconnect(conn);
        return;
      }
      wheel.Refresh(conn);
    }

    // What the deadline map has to say about a burst of seconds.
    lemma BurstSeen(due: map<ControlConn, int>, tick: int, n: nat)
      requires Valid()
      requires wheel.View() == Run(Clock(tick, wheel.timeoutSec, due), SecondsOnly(n))
      requires WellTimed(Clock(tick, wheel.timeoutSec, due))
      ensures wheel.currentTick == tick + n && wheel.due.Keys == wheel.conns
      ensures forall c :: c in due ==>
                && (c in wheel.conns <==> due[c] > tick + n)
                && (c in wheel.conns ==> wheel.due[c] == due[c])
    {
      hide TimeWheel.Shaped;
      wheel.DueIsAttached();
      forall c | c in due
        ensures (c in wheel.conns <==> due[c] > tick + n) && (c in wheel.conns ==> wheel.due[c] == due[c])
      {
        BurstOf(Clock(tick, wheel.timeoutSec, due), n, c);
      }
      BurstClock(Clock(tick, wheel.timeoutSec, due), n);
    }

    lemma ValidClock()
      requires Valid()
      ensures WellTimed(wheel.View()) && wheel.due.Keys == wheel.conns
    {
      hide TimeWheel.Shaped;
      wheel.DueIsAttached();
    }

    // The timer descriptor reports how many seconds have passed since it was last read. Every
    // one of them counts: who stays is exactly who is due later than that.
    method HandleTimerEvent(expiredCount: nat)
      requires Valid()
      modifies this`closed, connMap, wheel`currentTick, wheel`due, wheel`chains, wheel`conns
      modifies wheel.slots, wheel.nodes, wheel.conns`wheelSlot, wheel.conns`wheelNode
      ensures Valid() && wheel.conns <= old(wheel.conns)
      ensures wheel.View() == Run(old(wheel.View()), SecondsOnly(expiredCount))
      ensures wheel.currentTick == old(wheel.currentTick) + expiredCount
      ensures old(wheel.due.Keys == wheel.conns) && wheel.due.Keys == wheel.conns
      ensures forall c :: c in old(wheel.due) ==>
                && (c in wheel.conns <==> old(wheel.due)[c] > old(wheel.currentTick) + expiredCount)
                && (c in wheel.conns ==> wheel.due[c] == old(wheel.due)[c])
      ensures LogGrewBy(old(closed), closed, old(wheel.conns) - wheel.conns)
    {
      hide TimeWheel.Shaped, AllLinked, Linked, LogGrewBy, TableIs, TimeWheel.Timely;
      LogStart(closed);
      ValidClock();
      assert wheel.conns - wheel.conns == {};
      var left: nat := expiredCount;
      while left > 0
        invariant Valid() && left <= expiredCount && wheel.conns <= old(wheel.conns) && wheel.nodes == old(wheel.nodes)
        invariant Run(wheel.View(), SecondsOnly(left)) == Run(old(wheel.View()), SecondsOnly(expiredCount))
        invariant LogGrewBy(old(closed), closed, old(wheel.conns) - wheel.conns)
      {
        ghost var log, conns := closed, wheel.conns;
        wheel.Tick(this);
        left := left - 1;
        StillAccounted(registered, conns, log, wheel.conns, closed);
        LogJoins(old(closed), log, closed, old(wheel.conns) - conns, conns - wheel.conns);
        assert old(wheel.conns) - conns + (conns - wheel.conns) == old(wheel.conns) - wheel.conns;
      }
      BurstSeen(old(wheel.due), old(wheel.currentTick), expiredCount);
    }

    // The exit path closes whatever is left: afterwards every connection that was ever
    // registered has been closed and freed, once.
    method CloseAllControlConnections()
      requires Valid()
      modifies this`closed, connMap, wheel`due, wheel`chains, wheel`conns, wheel.slots, wheel.nodes
      modifies wheel.conns`wheelSlot, wheel.conns`wheelNode
      ensures wheel.conns == {} && TableIs({})
      ensures registered == set c | c in closed
    {
      hide TimeWheel.Shaped, AllLinked, Linked, TimeWheel.Timely;
      ghost var all, wheelNodes := wheel.conns, wheel.nodes;
      var connFd := 0;
      while connFd < MAX_CONTROL_FD
        invariant 0 <= connFd <= MAX_CONTROL_FD
        invariant wheel.Shaped() && TableIs(wheel.conns) && wheel.conns <= all && wheel.nodes == wheelNodes
        invariant forall c :: c in wheel.conns ==> connFd <= c.fd
        invariant Accounted(registered, wheel.conns, closed)
      {
        var conn := connMap[connFd];
        if conn != null {
          ghost var log, live := closed, wheel.conns;
          CloseControlConnection(connFd, live);
          assert live - wheel.conns == {conn} && closed[|log|..] == [conn];
          StillAccounted(registered, live, log, wheel.conns, closed);
        }
        connFd := connFd + 1;
      }
      assert wheel.conns == {};
    }
  }

  lemma LogJoins(a: seq<ControlConn>, b: seq<ControlConn>, c: seq<ControlConn>,
                 g: set<ControlConn>, h: set<ControlConn>)
    requires LogGrewBy(a, b, g) && LogGrewBy(b, c, h)
    ensures LogGrewBy(a, c, g + h)
  {
  }
}
