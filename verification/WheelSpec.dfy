// What the time wheel is for: every attached control connection has one deadline, and the
// tick that reaches the deadline, and no other, takes the connection away. The linked-list
// wheel in ControlPlane.dfy is proved against this model.
module WheelSpec {

  const SLOT_COUNT: int := 60

  // `due` holds the deadline of every attached connection, in ticks.
  datatype Clock<C> = Clock(now: int, timeout: int, due: map<C, int>)

  // The owner's calls: Attach is an add or a refresh, Detach a removal, Second one tick.
  datatype Event<C> = Attach(c: C) | Detach(c: C) | Second

  ghost predicate WellTimed<C>(s: Clock<C>)
  {
    && s.timeout > 0
    && forall c :: c in s.due ==> s.now < s.due[c] <= s.now + s.timeout
  }

  // The connections that the next tick takes away.
  ghost function DueNext<C>(s: Clock<C>): set<C>
  {
    set c | c in s.due && s.due[c] == s.now + 1
  }

  ghost function Apply<C>(s: Clock<C>, e: Event<C>): Clock<C>
  {
    match e
    case Attach(c) => s.(due := s.due[c := s.now + s.timeout])
    case Detach(c) => s.(due := s.due - {c})
    case Second => s.(now := s.now + 1, due := s.due - DueNext(s))
  }

  ghost function Run<C>(s: Clock<C>, es: seq<Event<C>>): Clock<C>
    decreases |es|
  {
    if es == [] then s else Run(Apply(s, es[0]), es[1..])
  }

  function Seconds<C>(es: seq<Event<C>>): nat
  {
    if es == [] then 0 else (if es[0].Second? then 1 else 0) + Seconds(es[1..])
  }

  // No call in `es` is about `c`.
  ghost predicate Quiet<C>(es: seq<Event<C>>, c: C)
  {
    forall i :: 0 <= i < |es| ==> es[i] != Attach(c) && es[i] != Detach(c)
  }

  lemma ApplyKeepsWellTimed<C>(s: Clock<C>, e: Event<C>)
    requires WellTimed(s)
    ensures WellTimed(Apply(s, e))
  {
  }

  lemma {:induction false} RunKeepsWellTimed<C>(s: Clock<C>, es: seq<Event<C>>)
    requires WellTimed(s)
    ensures WellTimed(Run(s, es))
    decreases |es|
  {
    if es != [] {
      ApplyKeepsWellTimed(s, es[0]);
      RunKeepsWellTimed(Apply(s, es[0]), es[1..]);
    }
  }

  // Whatever the other connections do, a connection that stays quiet is attached exactly
  // until the clock reaches its deadline.
  lemma {:induction false} QuietUntilDue<C>(s: Clock<C>, es: seq<Event<C>>, c: C)
    requires WellTimed(s) && c in s.due && Quiet(es, c)
    ensures Run(s, es).now == s.now + Seconds(es)
    ensures c in Run(s, es).due <==> s.now + Seconds(es) < s.due[c]
    ensures c in Run(s, es).due ==> Run(s, es).due[c] == s.due[c]
    decreases |es|
  {
    if es != [] {
      var t := Apply(s, es[0]);
      ApplyKeepsWellTimed(s, es[0]);
      if c in t.due {
        QuietUntilDue(t, es[1..], c);
      } else {
        QuietStaysAway(t, es[1..], c);
      }
    }
  }

  lemma {:induction false} QuietStaysAway<C>(s: Clock<C>, es: seq<Event<C>>, c: C)
    requires c !in s.due && Quiet(es, c)
    ensures Run(s, es).now == s.now + Seconds(es)
    ensures c !in Run(s, es).due
    decreases |es|
  {
    if es != [] {
      QuietStaysAway(Apply(s, es[0]), es[1..], c);
    }
  }

  ghost function SecondsOnly<C>(n: nat): seq<Event<C>>
  {
    if n == 0 then [] else [Second] + SecondsOnly(n - 1)
  }

  lemma {:induction false} SecondsOnlyAre<C>(n: nat, c: C)
    ensures Seconds(SecondsOnly<C>(n)) == n && Quiet(SecondsOnly(n), c)
  {
    if n > 0 {
      SecondsOnlyAre(n - 1, c);
      assert SecondsOnly<C>(n)[1..] == SecondsOnly(n - 1);
    }
  }

  lemma {:induction false} BurstClock<C>(s: Clock<C>, n: nat)
    ensures Run(s, SecondsOnly(n)).now == s.now + n && Run(s, SecondsOnly(n)).timeout == s.timeout
    decreases n
  {
    if n > 0 {
      assert SecondsOnly<C>(n)[1..] == SecondsOnly(n - 1);
      BurstClock(Apply(s, Second), n - 1);
    }
  }

  // After n seconds and nothing else, a connection is still attached, with its deadline, if,
  // and only if, that deadline is later than n seconds away.
  lemma BurstOf<C>(s: Clock<C>, n: nat, c: C)
    requires WellTimed(s) && c in s.due
    ensures var r := Run(s, SecondsOnly(n));
            (c in r.due <==> s.due[c] > s.now + n) && (c in r.due ==> r.due[c] == s.due[c])
  {
    SecondsOnlyAre(n, c);
    QuietUntilDue(s, SecondsOnly(n), c);
  }

  // After an add or a refresh, an idle connection is fired by the timeout-th tick: that tick
  // finds it due, every earlier tick does not, and a later one no longer knows it.
  lemma IdleConnectionFiresOnTime<C>(s: Clock<C>, c: C, es: seq<Event<C>>)
    requires WellTimed(s) && Quiet(es, c)
    ensures var r := Run(Apply(s, Attach(c)), es);
            && (c in r.due <==> Seconds(es) < s.timeout)
            && (c in DueNext(r) <==> Seconds(es) == s.timeout - 1)
  {
    var t := Apply(s, Attach(c));
    ApplyKeepsWellTimed(s, Attach(c));
    QuietUntilDue(t, es, c);
    RunKeepsWellTimed(t, es);
  }

  // How many ticks of `es` walk the slot of `c` and leave it attached.
  ghost function Scans<C>(s: Clock<C>, es: seq<Event<C>>, c: C): nat
    decreases |es|
  {
    if es == [] then 0
    else
      var t := Apply(s, es[0]);
      (if es[0].Second? && c in t.due && t.now % SLOT_COUNT == t.due[c] % SLOT_COUNT then 1 else 0)
      + Scans(t, es[1..], c)
  }

  // Full turns of the wheel before a deadline that is `left` seconds away.
  function Turns(left: int): int
  {
    (left - 1) / 60
  }

  lemma OneSecondLess(left: int)
    requires left > 1
    ensures Turns(left) == Turns(left - 1) + if (left - 1) % SLOT_COUNT == 0 then 1 else 0
    ensures Turns(1) == 0
  {
  }

  lemma TurnsGrow(left: int, timeout: int)
    requires 0 < left <= timeout
    ensures 0 <= Turns(left) <= Turns(timeout)
  {
  }

  // Until its deadline a quiet connection is walked over without being fired once for every
  // full turn of the wheel that is left, whatever the others do; so at most
  // (timeout - 1) / 60 times in all.
  lemma {:induction false} ScansAreBounded<C>(s: Clock<C>, es: seq<Event<C>>, c: C)
    requires WellTimed(s) && c in s.due && Quiet(es, c)
    ensures var left := if Seconds(es) < s.due[c] - s.now then s.due[c] - s.now - Seconds(es) else 1;
            Scans(s, es, c) == Turns(s.due[c] - s.now) - Turns(left)
    ensures Scans(s, es, c) <= Turns(s.timeout)
    decreases |es|
  {
    hide Turns;
    TurnsGrow(s.due[c] - s.now, s.timeout);
    OneSecondLess(2);
    if es != [] {
      var t := Apply(s, es[0]);
      ApplyKeepsWellTimed(s, es[0]);
      if c in t.due {
        ScansAreBounded(t, es[1..], c);
        if es[0].Second? {
          OneSecondLess(s.due[c] - s.now);
          SameSlot(t.now, t.due[c]);
        }
      } else {
        NeverScannedAway(t, es[1..], c);
      }
    }
    TurnsGrow(if Seconds(es) < s.due[c] - s.now then s.due[c] - s.now - Seconds(es) else 1, s.timeout);
  }

  lemma {:induction false} NeverScannedAway<C>(s: Clock<C>, es: seq<Event<C>>, c: C)
    requires c !in s.due && Quiet(es, c)
    ensures Scans(s, es, c) == 0
    decreases |es|
  {
    if es != [] {
      NeverScannedAway(Apply(s, es[0]), es[1..], c);
    }
  }

  lemma SameSlot(a: int, b: int)
    ensures a % SLOT_COUNT == b % SLOT_COUNT <==> (b - a) % SLOT_COUNT == 0
  {
    var qa, qb := a / SLOT_COUNT, b / SLOT_COUNT;
    assert a == qa * SLOT_COUNT + a % SLOT_COUNT && b == qb * SLOT_COUNT + b % SLOT_COUNT;
    var q := (b - a) / SLOT_COUNT;
    assert b - a == q * SLOT_COUNT + (b - a) % SLOT_COUNT;
  }
}
