// What one-shot tickets are for: an id is good for one use, before its expiry. The table in
// TransferTicket.dfy is proved against this map from id to expiry.
module TicketSpec {

  const MAX_TICKETS: nat := 1024
  const EXPIRE_SECONDS: int := 30

  type Tickets = map<string, int>

  // What a sweep at time `now` leaves: expired on or after the expiry.
  function Swept(t: Tickets, now: int): Tickets
  {
    map id | id in t && t[id] > now :: t[id]
  }

  datatype Event = Issue(now: int, id: string) | Consume(now: int, id: string)

  // The table is full when MAX_TICKETS unexpired, unused tickets are left.
  predicate Full(t: Tickets, now: int)
  {
    |Swept(t, now)| >= MAX_TICKETS
  }

  function Apply(t: Tickets, e: Event): Tickets
  {
    match e
    case Issue(now, id) => if Full(t, now) then Swept(t, now) else Swept(t, now)[id := now + EXPIRE_SECONDS]
    case Consume(now, id) => Swept(t, now) - {id}
  }

  predicate Succeeds(t: Tickets, e: Event)
  {
    match e
    case Issue(now, _) => !Full(t, now)
    case Consume(now, id) => id in Swept(t, now)
  }

  function Run(t: Tickets, es: seq<Event>): Tickets
    decreases |es|
  {
    if es == [] then t else Run(Apply(t, es[0]), es[1..])
  }

  // How often an event of `es` succeeds in consuming `id`.
  function Uses(t: Tickets, es: seq<Event>, id: string): nat
    decreases |es|
  {
    if es == [] then 0
    else (if es[0].Consume? && es[0].id == id && Succeeds(t, es[0]) then 1 else 0) + Uses(Apply(t, es[0]), es[1..], id)
  }

  // How often `id` is registered: an issue that finds the table full registers nothing.
  function Issues(t: Tickets, es: seq<Event>, id: string): nat
    decreases |es|
  {
    if es == [] then 0
    else (if es[0].Issue? && es[0].id == id && Succeeds(t, es[0]) then 1 else 0) + Issues(Apply(t, es[0]), es[1..], id)
  }

  // An id is used at most as often as it was registered: a fresh id, at most once. Threads
  // read the clock before they take the lock, so the times need not be in order.
  lemma {:induction false} UsedAtMostOncePerIssue(t: Tickets, es: seq<Event>, id: string)
    ensures Uses(t, es, id) <= Issues(t, es, id) + if id in t then 1 else 0
    decreases |es|
  {
    if es != [] {
      UsedAtMostOncePerIssue(Apply(t, es[0]), es[1..], id);
    }
  }

  // A ticket is registered exactly when fewer than 1024 unexpired, unused ones are left; then
  // it is good for 30 seconds, and no other is touched but for those that have run out.
  lemma RegisteredIff(t: Tickets, now: int, id: string)
    ensures Succeeds(t, Issue(now, id)) <==> |set i | i in t && t[i] > now| < 1024
    ensures var r := Apply(t, Issue(now, id));
            && (Succeeds(t, Issue(now, id)) ==> id in r && r[id] == now + 30)
            && forall i :: i != id ==> (i in r <==> i in t && t[i] > now) && (i in r ==> r[i] == t[i])
  {
    assert Swept(t, now).Keys == set i | i in t && t[i] > now;
  }

  // The times of `es` never reach `limit`.
  predicate AllBefore(es: seq<Event>, limit: int)
  {
    forall i :: 0 <= i < |es| ==> es[i].now < limit
  }

  predicate Untouched(es: seq<Event>, id: string)
  {
    forall i :: 0 <= i < |es| ==> es[i].id != id
  }

  // A registered id lives, with its expiry, exactly until some event's clock reaches it.
  lemma {:induction false} LivesUntilExpiry(t: Tickets, es: seq<Event>, id: string)
    requires Untouched(es, id)
    ensures id in Run(t, es) <==> id in t && AllBefore(es, t[id])
    ensures id in Run(t, es) ==> Run(t, es)[id] == t[id]
    decreases |es|
  {
    if es != [] {
      LivesUntilExpiry(Apply(t, es[0]), es[1..], id);
    }
  }

  // The whole life of a ticket: after it was registered at `issued`, and whatever happens to
  // other tickets in between, the first attempt to use it succeeds if, and only if, no clock
  // reading since then, the attempt's own included, is on or after its expiry; then it is gone.
  lemma TicketLife(t: Tickets, issued: int, id: string, es: seq<Event>, now: int)
    requires Untouched(es, id) && !Full(t, issued)
    ensures var t1 := Run(Apply(t, Issue(issued, id)), es);
            && (Succeeds(t1, Consume(now, id)) <==>
                AllBefore(es, issued + EXPIRE_SECONDS) && now < issued + EXPIRE_SECONDS)
            && id !in Apply(t1, Consume(now, id))
  {
    LivesUntilExpiry(Apply(t, Issue(issued, id)), es, id);
  }

  // An id that was never registered, because nobody asked or the table was full, never succeeds.
  lemma NeverIssuedNeverUsed(es: seq<Event>, id: string)
    requires Issues(map[], es, id) == 0
    ensures Uses(map[], es, id) == 0
  {
    UsedAtMostOncePerIssue(map[], es, id);
  }
}
