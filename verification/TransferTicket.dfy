// The server's fixed table of transfer tickets, swept, searched and filled slot by slot.
module TransferTicket {
  import opened Wrappers
  import opened TicketSpec

  datatype TicketNode = TicketNode(active: bool, id: string, expireTime: int)

  const CLEARED := TicketNode(false, "", 0)

  // The ids of the first n slots that are in use.
  function ActiveIds(slots: seq<TicketNode>, n: nat): set<string>
    requires n <= |slots|
  {
    set i | 0 <= i < n && slots[i].active :: slots[i].id
  }

  predicate DistinctIds(slots: seq<TicketNode>)
  {
    forall i, j :: 0 <= i < j < |slots| && slots[i].active && slots[j].active ==> slots[i].id != slots[j].id
  }

  // The map from id to expiry that the slots stand for.
  ghost function Held(slots: seq<TicketNode>): Tickets
    requires DistinctIds(slots)
  {
    map id | id in ActiveIds(slots, |slots|) :: slots[SlotOf(slots, id)].expireTime
  }

  ghost function SlotOf(slots: seq<TicketNode>, id: string): (i: nat)
    requires id in ActiveIds(slots, |slots|)
    ensures i < |slots| && slots[i].active && slots[i].id == id
  {
    var i :| 0 <= i < |slots| && slots[i].active && slots[i].id == id;
    i
  }

  lemma HeldAt(slots: seq<TicketNode>, i: nat)
    requires DistinctIds(slots) && i < |slots| && slots[i].active
    ensures slots[i].id in Held(slots) && Held(slots)[slots[i].id] == slots[i].expireTime
  {
  }

  function ActiveCount(slots: seq<TicketNode>, n: nat): nat
    requires n <= |slots|
  {
    if n == 0 then 0 else ActiveCount(slots, n - 1) + if slots[n - 1].active then 1 else 0
  }

  lemma {:induction false} ActiveIdsCount(slots: seq<TicketNode>, n: nat)
    requires DistinctIds(slots) && n <= |slots|
    ensures |ActiveIds(slots, n)| == ActiveCount(slots, n)
    decreases n
  {
    if n > 0 {
      ActiveIdsCount(slots, n - 1);
      var last := slots[n - 1];
      assert ActiveIds(slots, n) == ActiveIds(slots, n - 1) + if last.active then {last.id} else {};
    }
  }

  lemma {:induction false} AllActiveIff(slots: seq<TicketNode>, n: nat)
    requires n <= |slots|
    ensures ActiveCount(slots, n) <= n
    ensures ActiveCount(slots, n) == n <==> forall i :: 0 <= i < n ==> slots[i].active
    decreases n
  {
    if n > 0 {
      AllActiveIff(slots, n - 1);
    }
  }

  // No slot is free exactly when the map holds as many tickets as there are slots.
  lemma NoFreeSlotIff(slots: seq<TicketNode>)
    requires DistinctIds(slots)
    ensures (forall i :: 0 <= i < |slots| ==> slots[i].active) <==> |Held(slots)| >= |slots|
  {
    ActiveIdsCount(slots, |slots|);
    AllActiveIff(slots, |slots|);
    assert Held(slots).Keys == ActiveIds(slots, |slots|);
    assert |Held(slots)| == |Held(slots).Keys|;
  }

  class TicketTable {
    const slots: array<TicketNode>

    constructor ()
      ensures Valid() && fresh(slots) && Held(slots[..]) == map[]
    {
      slots := new TicketNode[MAX_TICKETS](_ => CLEARED);
      new;
      assert ActiveIds(slots[..], |slots[..]|) == {};
    }

    ghost predicate Valid()
      reads this, slots
    {
      slots.Length == MAX_TICKETS && DistinctIds(slots[..])
    }

    // cleanup_expired_tickets
    method CleanupExpired(now: int)
      requires Valid()
      modifies slots
      ensures Valid() && Held(slots[..]) == Swept(old(Held(slots[..])), now)
      ensures forall i :: 0 <= i < slots.Length && slots[i].active ==> slots[i].expireTime > now
    {
      for i := 0 to slots.Length
        invariant forall j :: 0 <= j < i ==>
                    var node := old(slots[j]);
                    slots[j] == if node.active && node.expireTime <= now then CLEARED else node
        invariant forall j :: i <= j < slots.Length ==> slots[j] == old(slots[j])
      {
        if slots[i].active && slots[i].expireTime <= now {
          slots[i] := CLEARED;
        }
      }
      SweptSlots(old(slots[..]), slots[..], now);
    }

    // alloc_ticket_slot: the first free slot, or none.
    method AllocSlot() returns (slot: Option<nat>)
      ensures slot.Some? ==> slot.value < slots.Length && !slots[slot.value].active
      ensures slot == None ==> forall i :: 0 <= i < slots.Length ==> slots[i].active
    {
      for i := 0 to slots.Length
        invariant forall j :: 0 <= j < i ==> slots[j].active
      {
        if !slots[i].active {
          return Some(i);
        }
      }
      return None;
    }

    // The table work of issue_transfer_ticket. The id is random; that it collides with one
    // still in the table is not modelled.
    method Issue(now: int, id: string) returns (ok: bool)
      requires Valid() && id !in Held(slots[..])
      modifies slots
      ensures Valid()
      ensures Held(slots[..]) == Apply(old(Held(slots[..])), Event.Issue(now, id))
      ensures ok == Succeeds(old(Held(slots[..])), Event.Issue(now, id))
    {
      CleanupExpired(now);
      ghost var swept := slots[..];
      NoFreeSlotIff(swept);
      var slot := AllocSlot();
      if slot == None {
        return false;
      }
      slots[slot.value] := TicketNode(true, id, now + EXPIRE_SECONDS);
      FilledSlot(swept, slot.value, slots[slot.value]);
      assert slots[..] == swept[slot.value := slots[slot.value]];
      return true;
    }

    // The table work of verify_and_consume_transfer_ticket, once the token has been decoded.
    method Consume(now: int, id: string) returns (found: bool)
      requires Valid()
      modifies slots
      ensures Valid()
      ensures Held(slots[..]) == Apply(old(Held(slots[..])), Event.Consume(now, id))
      ensures found == Succeeds(old(Held(slots[..])), Event.Consume(now, id))
    {
      CleanupExpired(now);
      ghost var swept := slots[..];
      for i := 0 to slots.Length
        invariant slots[..] == swept
        invariant forall j :: 0 <= j < i ==> !(slots[j].active && slots[j].id == id)
      {
        if slots[i].active && slots[i].id == id {
          slots[i] := CLEARED;
          ClearedSlot(swept, i);
          assert slots[..] == swept[i := CLEARED];
          return true;
        }
      }
      assert Held(swept) - {id} == Held(swept);
      return false;
    }
  }

  // `after` is `before` with the expired slots cleared.
  predicate IsSweep(before: seq<TicketNode>, after: seq<TicketNode>, now: int)
  {
    |after| == |before| && forall i :: 0 <= i < |before| ==>
      after[i] == if before[i].active && before[i].expireTime <= now then CLEARED else before[i]
  }

  lemma SurvivorWasHeld(before: seq<TicketNode>, after: seq<TicketNode>, now: int, id: string)
    requires DistinctIds(before) && DistinctIds(after) && IsSweep(before, after, now) && id in Held(after)
    ensures id in Held(before) && Held(before)[id] > now && Held(after)[id] == Held(before)[id]
  {
    var i := SlotOf(after, id);
    HeldAt(before, i);
    HeldAt(after, i);
  }

  lemma UnexpiredSurvives(before: seq<TicketNode>, after: seq<TicketNode>, now: int, id: string)
    requires DistinctIds(before) && DistinctIds(after) && IsSweep(before, after, now)
    requires id in Held(before) && Held(before)[id] > now
    ensures id in Held(after)
  {
  }

  lemma SweptSlots(before: seq<TicketNode>, after: seq<TicketNode>, now: int)
    requires DistinctIds(before) && IsSweep(before, after, now)
    ensures DistinctIds(after) && Held(after) == Swept(Held(before), now)
  {
    assert DistinctIds(after);
    hide Held, IsSweep, DistinctIds;
    forall id | id in Held(after)
      ensures id in Swept(Held(before), now) && Held(after)[id] == Held(before)[id]
    {
      SurvivorWasHeld(before, after, now, id);
    }
    forall id | id in Swept(Held(before), now)
      ensures id in Held(after)
    {
      UnexpiredSurvives(before, after, now, id);
    }
  }

  lemma FilledSlot(slots: seq<TicketNode>, k: nat, node: TicketNode)
    requires DistinctIds(slots) && k < |slots| && !slots[k].active && node.active && node.id !in Held(slots)
    ensures DistinctIds(slots[k := node]) && Held(slots[k := node]) == Held(slots)[node.id := node.expireTime]
  {
    var after := slots[k := node];
    forall i | 0 <= i < |slots| && slots[i].active
      ensures slots[i].id != node.id
    {
      HeldAt(slots, i);
    }
    forall id
      ensures id in Held(after) <==> id in Held(slots)[node.id := node.expireTime]
      ensures id in Held(after) ==> Held(after)[id] == Held(slots)[node.id := node.expireTime][id]
    {
      if id in Held(after) {
        var i := SlotOf(after, id);
        HeldAt(after, i);
        if i != k {
          HeldAt(slots, i);
        }
      }
      if id in Held(slots) {
        HeldAt(after, SlotOf(slots, id));
      }
      HeldAt(after, k);
    }
  }

  lemma ClearedSlot(slots: seq<TicketNode>, k: nat)
    requires DistinctIds(slots) && k < |slots| && slots[k].active
    ensures DistinctIds(slots[k := CLEARED]) && Held(slots[k := CLEARED]) == Held(slots) - {slots[k].id}
    ensures slots[k].id in Held(slots)
  {
    var after := slots[k := CLEARED];
    HeldAt(slots, k);
    forall id
      ensures id in Held(after) <==> id in Held(slots) - {slots[k].id}
      ensures id in Held(after) ==> Held(after)[id] == Held(slots)[id]
    {
      if id in Held(after) {
        var i := SlotOf(after, id);
        HeldAt(after, i);
        HeldAt(slots, i);
      }
      if id in Held(slots) {
        var i := SlotOf(slots, id);
        if i != k {
          HeldAt(after, i);
        }
      }
    }
  }
}
